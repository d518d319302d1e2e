/** Two recursive merges of configuration objects that mirror each other: one fills defaults into user settings, the
    other lays an overlay over a base. */
module ConfigMerge {
  import opened Wrappers

  /** A JSON object, or any other JSON value. */
  datatype Value = Atom(json: string) | Object(fields: map<string, Value>)

  type Dict = v: Value | v.Object? witness Object(map[])

  // ----- What the two merges compute -----

  function WithDefaults(user: Dict, defaults: Dict): Dict
    decreases defaults, 0
  {
    Object(map key | key in user.fields.Keys + defaults.fields.Keys :: key :=
             if key !in user.fields then defaults.fields[key]
             else if key in defaults.fields then Filled(user.fields[key], defaults.fields[key])
             else user.fields[key])
  }

  function Filled(mine: Value, default: Value): Value
    decreases default, 1
  {
    if mine.Object? && default.Object? then WithDefaults(mine, default) else mine
  }

  function Overlaid(base: Dict, overlay: Dict): Dict
    decreases overlay, 0
  {
    Object(map key | key in base.fields.Keys + overlay.fields.Keys :: key :=
             if key !in overlay.fields then base.fields[key]
             else if key in base.fields then Covered(base.fields[key], overlay.fields[key])
             else overlay.fields[key])
  }

  function Covered(below: Value, above: Value): Value
    decreases above, 1
  {
    if below.Object? && above.Object? then Overlaid(below, above) else above
  }

  function DefaultedEntry(user: Dict, defaults: Dict, key: string): Value
    requires key in user.fields || key in defaults.fields
  {
    if key !in user.fields then defaults.fields[key]
    else if key in defaults.fields then Filled(user.fields[key], defaults.fields[key])
    else user.fields[key]
  }

  function OverlaidEntry(base: Dict, overlay: Dict, key: string): Value
    requires key in base.fields || key in overlay.fields
  {
    if key !in overlay.fields then base.fields[key]
    else if key in base.fields then Covered(base.fields[key], overlay.fields[key])
    else overlay.fields[key]
  }

  lemma {:induction false} EntriesOfDefaults(user: Dict, defaults: Dict)
    ensures var merged := WithDefaults(user, defaults).fields;
            && merged.Keys == user.fields.Keys + defaults.fields.Keys
            && forall key :: key in merged ==> merged[key] == DefaultedEntry(user, defaults, key)
  {
  }

  lemma {:induction false} EntriesOfOverlay(base: Dict, overlay: Dict)
    ensures var merged := Overlaid(base, overlay).fields;
            && merged.Keys == base.fields.Keys + overlay.fields.Keys
            && forall key :: key in merged ==> merged[key] == OverlaidEntry(base, overlay, key)
  {
  }

  /** The copy of `user` with the defaults merged in, except for those of the keys still to do. */
  ghost predicate PartlyMerged(
      m: map<string, Value>, user: Dict, defaults: Dict, todo: set<string>, entry: string --> Value)
    requires forall key :: key in user.fields || key in defaults.fields ==> entry.requires(key)
  {
    && todo <= defaults.fields.Keys
    && m.Keys == user.fields.Keys + (defaults.fields.Keys - todo)
    && forall key :: key in m ==> m[key] == if key in todo then user.fields[key] else entry(key)
  }

  lemma {:induction false} MergeOneKey(m: map<string, Value>, user: Dict, defaults: Dict, todo: set<string>,
                                       entry: string --> Value, key: string)
    requires forall k :: k in user.fields || k in defaults.fields ==> entry.requires(k)
    requires PartlyMerged(m, user, defaults, todo, entry) && key in todo
    ensures key in m <==> key in user.fields
    ensures key in m ==> m[key] == user.fields[key]
    ensures PartlyMerged(m[key := entry(key)], user, defaults, todo - {key}, entry)
  {
  }

  /** Fills `defaults` into a copy of `user`, key by key in any order, and tells whether a key was added. */
  method DeepMergeConfig(user: Dict, defaults: Dict) returns (result: Dict, changed: bool)
    ensures result == WithDefaults(user, defaults)
    ensures changed <==> result != user
    decreases defaults
  {
    hide WithDefaults, PartlyMerged;
    ghost var entry := key requires key in user.fields || key in defaults.fields => DefaultedEntry(user, defaults, key);
    var merged := user.fields;
    changed := false;
    var todo := defaults.fields.Keys;
    StartOfMerge(user, defaults, entry);
    while todo != {}
      invariant PartlyMerged(merged, user, defaults, todo, entry)
      invariant todo <= defaults.fields.Keys
      invariant changed <==> merged != user.fields
      decreases |todo|
    {
      var key :| key in todo;
      var default := defaults.fields[key];
      MergeOneKey(merged, user, defaults, todo, entry, key);
      if key !in merged {
        merged := merged[key := default];
        assert key in merged && key !in user.fields;
        changed := true;
      } else if default.Object? && merged[key].Object? {
        var sub, subChanged := DeepMergeConfig(merged[key], default);
        PutAt(merged, key, sub, user.fields);
        merged := merged[key := sub];
        changed := changed || subChanged;
      } else {
        assert merged[key := merged[key]] == merged;
      }
      todo := todo - {key};
    }
    result := Object(merged);
    EntriesOfDefaults(user, defaults);
    EndOfMerge(merged, WithDefaults(user, defaults).fields, user, defaults, entry);
  }

  lemma {:induction false} StartOfMerge(user: Dict, defaults: Dict, entry: string --> Value)
    requires forall key :: key in user.fields || key in defaults.fields ==> entry.requires(key)
    requires forall key :: key in user.fields && key !in defaults.fields ==> entry(key) == user.fields[key]
    ensures PartlyMerged(user.fields, user, defaults, defaults.fields.Keys, entry)
  {
  }

  lemma {:induction false} EndOfMerge(
      m: map<string, Value>, whole: map<string, Value>, user: Dict, defaults: Dict, entry: string --> Value)
    requires forall key :: key in user.fields || key in defaults.fields ==> entry.requires(key)
    requires PartlyMerged(m, user, defaults, {}, entry)
    requires whole.Keys == user.fields.Keys + defaults.fields.Keys
    requires forall key :: key in whole ==> whole[key] == entry(key)
    ensures m == whole
  {
  }

  lemma {:induction false} PutAt(m: map<string, Value>, key: string, v: Value, base: map<string, Value>)
    requires key in m && key in base && m[key] == base[key]
    ensures m[key := v] != base <==> m != base || v != base[key]
  {
    var m' := m[key := v];
    assert m'[key] == v;
    if v == base[key] {
      assert m' == m;
    }
  }

  method MergeOpencodeConfig(base: Dict, overlay: Dict) returns (result: Dict)
    ensures result == Overlaid(base, overlay)
    decreases overlay
  {
    hide Overlaid, PartlyMerged;
    ghost var entry := key requires key in base.fields || key in overlay.fields => OverlaidEntry(base, overlay, key);
    var merged := base.fields;
    var todo := overlay.fields.Keys;
    StartOfMerge(base, overlay, entry);
    while todo != {}
      invariant PartlyMerged(merged, base, overlay, todo, entry)
      invariant todo <= overlay.fields.Keys
      decreases |todo|
    {
      var key :| key in todo;
      var value := overlay.fields[key];
      MergeOneKey(merged, base, overlay, todo, entry, key);
      if key in merged && merged[key].Object? && value.Object? {
        var sub := MergeOpencodeConfig(merged[key], value);
        merged := merged[key := sub];
      } else {
        merged := merged[key := value];
      }
      todo := todo - {key};
    }
    result := Object(merged);
    EntriesOfOverlay(base, overlay);
    EndOfMerge(merged, Overlaid(base, overlay).fields, base, overlay, entry);
  }

  // ----- The merges agree -----

  /** Filling defaults into user settings is laying the user settings over the defaults, at every depth. */
  lemma {:induction false} MergesAreMirrored(user: Dict, defaults: Dict)
    ensures WithDefaults(user, defaults) == Overlaid(defaults, user)
    decreases defaults
  {
    EntriesOfDefaults(user, defaults);
    EntriesOfOverlay(defaults, user);
    var a, b := WithDefaults(user, defaults).fields, Overlaid(defaults, user).fields;
    forall key | key in a ensures key in b && a[key] == b[key] {
      if key in user.fields && key in defaults.fields && user.fields[key].Object? && defaults.fields[key].Object? {
        MergesAreMirrored(user.fields[key], defaults.fields[key]);
      }
    }
    assert a == b;
  }

  /** A second merge of the same defaults changes nothing. */
  lemma {:induction false} MergeIsIdempotent(user: Dict, defaults: Dict)
    ensures WithDefaults(WithDefaults(user, defaults), defaults) == WithDefaults(user, defaults)
    decreases defaults
  {
    var once := WithDefaults(user, defaults);
    var twice := WithDefaults(once, defaults);
    assert twice.fields.Keys == once.fields.Keys;
    forall key | key in once.fields ensures twice.fields[key] == once.fields[key] {
      if key in defaults.fields {
        FilledIsIdempotent(once.fields[key], user, defaults, key);
      }
    }
    assert twice.fields == once.fields;
  }

  lemma {:induction false} FilledIsIdempotent(mine: Value, user: Dict, defaults: Dict, key: string)
    requires key in defaults.fields && mine == WithDefaults(user, defaults).fields[key]
    ensures Filled(mine, defaults.fields[key]) == mine
    decreases defaults, 0
  {
    var default := defaults.fields[key];
    if key !in user.fields {
      FilledByItself(default);
    } else if user.fields[key].Object? && default.Object? {
      MergeIsIdempotent(user.fields[key], default);
    }
  }

  lemma {:induction false} FilledByItself(v: Value)
    ensures Filled(v, v) == v
  {
    if v.Object? {
      var w := WithDefaults(v, v);
      assert w.fields.Keys == v.fields.Keys;
      forall key | key in v.fields ensures w.fields[key] == v.fields[key] {
        FilledByItself(v.fields[key]);
      }
      assert w.fields == v.fields;
    }
  }

  // ----- What a merged configuration holds at any path -----

  type Path = seq<string>

  function At(v: Value, p: Path): Option<Value>
    decreases |p|
  {
    if p == [] then Some(v)
    else if v.Object? && p[0] in v.fields then At(v.fields[p[0]], p[1..])
    else None
  }

  /** The user's own value stops the path: some shorter path leads to a value that is no object. */
  predicate Stopped(v: Value, p: Path)
    decreases |p|
  {
    p != [] && (v.Atom? || (p[0] in v.fields && Stopped(v.fields[p[0]], p[1..])))
  }

  /** At any path: the user's plain value wins, a path the user does not reach and does not stop shows the default, and
      there is nothing else. */
  lemma {:induction false} MergedAtPath(user: Value, defaults: Value, p: Path)
    ensures var merged, mine := At(Filled(user, defaults), p), At(user, p);
            && (mine.Some? && mine.value.Atom? ==> merged == mine)
            && (mine.Some? && mine.value.Object? ==> merged.Some? && merged.value.Object?)
            && (mine.None? && Stopped(user, p) ==> merged.None?)
            && (mine.None? && !Stopped(user, p) ==> merged == At(defaults, p))
    decreases |p|
  {
    if p != [] && user.Object? && defaults.Object? && p[0] in user.fields && p[0] in defaults.fields {
      MergedAtPath(user.fields[p[0]], defaults.fields[p[0]], p[1..]);
    }
  }
}
