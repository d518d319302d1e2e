/** The merge of a discovered Codex catalogue with the built-in one. */
module CodexCatalog {
  import opened Sequences
  import opened Wrappers

  datatype Model = Model(id: string, displayName: string, description: string, supportedEfforts: seq<string>,
                         defaultEffort: string, isDefault: bool)

  const EFFORTS := ["low", "medium", "high", "xhigh"]

  const FALLBACK := [
    Model("gpt-5.5", "GPT-5.5", "Latest frontier agentic coding model.", EFFORTS, "medium", true),
    Model("gpt-5.3-codex", "gpt-5.3-codex", "Frontier agentic coding model.", EFFORTS, "medium", false),
    Model("gpt-5.4", "gpt-5.4", "Frontier agentic coding model.", EFFORTS, "medium", false),
    Model("gpt-5.4-mini", "GPT-5.4-Mini", "Small, fast, cost-efficient coding model.", EFFORTS, "medium", false),
    Model("gpt-5.2-codex", "gpt-5.2-codex", "Frontier agentic coding model.", EFFORTS, "medium", false),
    Model("gpt-5.1-codex-mini", "gpt-5.1-codex-mini", "Optimized for codex. Cheaper, faster, but less capable.",
          ["medium", "high"], "medium", false)]

  const DEFAULT_ID := "gpt-5.5"

  // ----- What the merge computes -----

  function Ids(ms: seq<Model>): (ids: set<string>)
    ensures forall m :: m in ms ==> m.id in ids
  {
    set m | m in ms :: m.id
  }

  predicate Distinct(ms: seq<Model>) {
    forall i, j :: 0 <= i < j < |ms| ==> ms[i].id != ms[j].id
  }

  predicate HasPrefix(s: string, prefix: string) {
    |prefix| <= |s| && s[..|prefix|] == prefix
  }

  /** Some model belongs to the family the built-in catalogue is for. */
  predicate Applies(base: seq<Model>, ms: seq<Model>) {
    exists m :: m in ms && (m.id in Ids(base) || HasPrefix(m.id, "gpt-5"))
  }

  /** The last model of an id, which is what a dictionary keyed by id keeps. */
  function LastOf(ms: seq<Model>, id: string): (r: Option<Model>)
    ensures r.Some? ==> r.value in ms && r.value.id == id
    ensures r.None? ==> id !in Ids(ms)
  {
    if ms == [] then None
    else if ms[|ms| - 1].id == id then Some(ms[|ms| - 1])
    else LastOf(ms[..|ms| - 1], id)
  }

  function Preferred(ms: seq<Model>, m: Model): Model {
    match LastOf(ms, m.id) case None => m case Some(found) => found
  }

  function Baseline(base: seq<Model>, ms: seq<Model>): seq<Model> {
    if base == [] then [] else Baseline(base[..|base| - 1], ms) + [Preferred(ms, base[|base| - 1])]
  }

  /** The first models of all ids not seen yet. */
  function Extras(ms: seq<Model>, seen: set<string>): seq<Model>
    decreases |ms|
  {
    if ms == [] then []
    else if ms[0].id in seen then Extras(ms[1..], seen)
    else [ms[0]] + Extras(ms[1..], seen + {ms[0].id})
  }

  function Marked(ms: seq<Model>, defaultId: string): (r: seq<Model>)
    ensures |r| == |ms|
    ensures forall i :: 0 <= i < |ms| ==> r[i] == ms[i].(isDefault := ms[i].id == defaultId)
  {
    seq(|ms|, i requires 0 <= i < |ms| => ms[i].(isDefault := ms[i].id == defaultId))
  }

  function Merged(base: seq<Model>, defaultId: string, ms: seq<Model>): seq<Model> {
    if ms == [] || !Applies(base, ms) then ms
    else Marked(Baseline(base, ms) + Extras(ms, Ids(base)), defaultId)
  }

  method MergeWithFallbackCatalog(models: seq<Model>) returns (merged: seq<Model>)
    ensures merged == Merged(FALLBACK, DEFAULT_ID, models)
  {
    if models == [] || !Applies(FALLBACK, models) {
      return models;
    }
    merged := Combine(FALLBACK, models);
    merged := Marked(merged, DEFAULT_ID);
  }

  /** A dictionary from ids to models, filled in order. */
  method ById(models: seq<Model>) returns (byId: map<string, Model>)
    ensures forall id :: LastOf(models, id) == if id in byId then Some(byId[id]) else None
  {
    byId := map[];
    for i := 0 to |models|
      invariant forall id :: LastOf(models[..i], id) == if id in byId then Some(byId[id]) else None
    {
      assert models[..i + 1][..i] == models[..i];
      byId := byId[models[i].id := models[i]];
    }
    assert models[..|models|] == models;
  }

  method Combine(base: seq<Model>, models: seq<Model>) returns (merged: seq<Model>)
    ensures merged == Baseline(base, models) + Extras(models, Ids(base))
  {
    hide LastOf, Ids, Baseline, Extras;
    var byId := ById(models);
    merged := [];
    var seen: set<string> := {};
    EmptySlices(base, models);
    for i := 0 to |base|
      invariant merged == Baseline(base[..i], models) && seen == Ids(base[..i])
    {
      BaselineGrows(base, models, i);
      var model := if base[i].id in byId then byId[base[i].id] else base[i];
      merged := merged + [model];
      seen := seen + {model.id};
    }
    assert base[..|base|] == base && models[0..] == models;
    for i := 0 to |models|
      invariant merged + Extras(models[i..], seen) == Baseline(base, models) + Extras(models, Ids(base))
    {
      ExtrasStep(models, i, seen);
      if models[i].id !in seen {
        Regroup3(merged, [models[i]], Extras(models[i + 1..], seen + {models[i].id}));
        merged := merged + [models[i]];
        seen := seen + {models[i].id};
      }
    }
    EmptyExtras(models[|models|..], seen);
    assert merged + [] == merged;
  }

  lemma {:induction false} EmptySlices(base: seq<Model>, ms: seq<Model>)
    ensures Baseline(base[..0], ms) == [] && Ids(base[..0]) == {}
  {
  }

  lemma {:induction false} EmptyExtras(ms: seq<Model>, seen: set<string>)
    requires ms == []
    ensures Extras(ms, seen) == []
  {
  }

  lemma {:induction false} BaselineGrows(base: seq<Model>, ms: seq<Model>, i: nat)
    requires i < |base|
    ensures Baseline(base[..i + 1], ms) == Baseline(base[..i], ms) + [Preferred(ms, base[i])]
    ensures Ids(base[..i + 1]) == Ids(base[..i]) + {base[i].id}
  {
    assert base[..i + 1][..i] == base[..i] && base[..i + 1] == base[..i] + [base[i]];
    IdsOfConcat(base[..i], [base[i]]);
  }

  lemma {:induction false} ExtrasStep(ms: seq<Model>, i: nat, seen: set<string>)
    requires i < |ms|
    ensures Extras(ms[i..], seen) ==
            if ms[i].id in seen then Extras(ms[i + 1..], seen)
            else [ms[i]] + Extras(ms[i + 1..], seen + {ms[i].id})
  {
    assert ms[i..][1..] == ms[i + 1..];
  }

  // ----- What the merged catalogue is -----

  lemma {:induction false} BaselineAt(base: seq<Model>, ms: seq<Model>)
    ensures |Baseline(base, ms)| == |base|
    ensures forall i :: 0 <= i < |base| ==>
              Baseline(base, ms)[i] == Preferred(ms, base[i]) && Baseline(base, ms)[i].id == base[i].id
    decreases |base|
  {
    if base != [] {
      BaselineAt(base[..|base| - 1], ms);
    }
  }

  lemma {:induction false} ExtrasAreNew(ms: seq<Model>, seen: set<string>)
    ensures var r := Extras(ms, seen);
            && Distinct(r) && Ids(r) == Ids(ms) - seen
            && forall m :: m in r ==> m in ms && m.id !in seen
    decreases |ms|
  {
    if ms != [] {
      var rest := ms[1..];
      assert ms == [ms[0]] + rest;
      IdsOfConcat([ms[0]], rest);
      if ms[0].id in seen {
        ExtrasAreNew(rest, seen);
      } else {
        var seen', later := seen + {ms[0].id}, Extras(rest, seen + {ms[0].id});
        ExtrasAreNew(rest, seen');
        IdsOfConcat([ms[0]], later);
      }
    }
  }

  lemma {:induction false} LastOfDistinct(ms: seq<Model>, i: nat)
    requires i < |ms| && Distinct(ms)
    ensures LastOf(ms, ms[i].id) == Some(ms[i])
    decreases |ms|
  {
    if i < |ms| - 1 {
      assert ms[..|ms| - 1][i] == ms[i];
      LastOfDistinct(ms[..|ms| - 1], i);
    }
  }

  lemma {:induction false} ExtrasOfSeen(ms: seq<Model>, rest: seq<Model>, seen: set<string>)
    requires forall m :: m in ms ==> m.id in seen
    ensures Extras(ms + rest, seen) == Extras(rest, seen)
    decreases |ms|
  {
    if ms == [] {
      assert ms + rest == rest;
    } else {
      assert (ms + rest)[1..] == ms[1..] + rest;
      ExtrasOfSeen(ms[1..], rest, seen);
    }
  }

  lemma {:induction false} ExtrasOfDistinct(ms: seq<Model>, seen: set<string>)
    requires Distinct(ms) && forall m :: m in ms ==> m.id !in seen
    ensures Extras(ms, seen) == ms
    decreases |ms|
  {
    if ms != [] {
      ExtrasOfDistinct(ms[1..], seen + {ms[0].id});
    }
  }

  lemma {:induction false} CombinedIds(base: seq<Model>, ms: seq<Model>)
    requires Distinct(base)
    ensures var all := Baseline(base, ms) + Extras(ms, Ids(base));
            && StartsAs(base, all) && Ids(all) == Ids(base) + Ids(ms)
            && (forall i :: 0 <= i < |base| ==> all[i] == Preferred(ms, base[i]))
  {
    var front, extras := Baseline(base, ms), Extras(ms, Ids(base));
    BaselineAt(base, ms);
    ExtrasAreNew(ms, Ids(base));
    SameIds(base, front);
    hide Baseline, Extras, Ids, LastOf;
    IdsOfConcat(front, extras);
    DistinctConcat(front, extras);
  }

  /** The ids are distinct, begin with those of the base, and do not come back to them. */
  predicate StartsAs(base: seq<Model>, ms: seq<Model>) {
    && Distinct(ms) && |base| <= |ms|
    && (forall i :: 0 <= i < |base| ==> ms[i].id == base[i].id)
    && (forall i :: |base| <= i < |ms| ==> ms[i].id !in Ids(base))
  }

  /** When the merge applies, its ids are distinct, they are the built-in and the discovered ones, and the built-in
      models come first, each as last discovered. */
  lemma {:induction false} MergedIds(base: seq<Model>, defaultId: string, ms: seq<Model>)
    requires Distinct(base) && ms != [] && Applies(base, ms)
    ensures var r := Merged(base, defaultId, ms);
            && StartsAs(base, r) && Ids(r) == Ids(base) + Ids(ms) && IsMarked(r, defaultId)
            && (forall i :: 0 <= i < |base| ==>
                  r[i] == Preferred(ms, base[i]).(isDefault := base[i].id == defaultId))
  {
    var all := Baseline(base, ms) + Extras(ms, Ids(base));
    CombinedIds(base, ms);
    MergedWhere(base, defaultId, ms);
    hide Merged, Baseline, Extras, Ids, LastOf, Applies, Preferred;
    MarkedKeepsShape(base, all, defaultId);
  }

  lemma {:induction false} MarkedKeepsShape(base: seq<Model>, ms: seq<Model>, defaultId: string)
    requires StartsAs(base, ms)
    ensures var r := Marked(ms, defaultId);
            StartsAs(base, r) && Ids(r) == Ids(ms) && IsMarked(r, defaultId)
  {
    var r := Marked(ms, defaultId);
    SameIds(ms, r);
    hide Ids, Marked;
    assert forall i :: 0 <= i < |r| ==> r[i].id == ms[i].id;
  }

  predicate IsMarked(ms: seq<Model>, defaultId: string) {
    forall i :: 0 <= i < |ms| ==> (ms[i].isDefault <==> ms[i].id == defaultId)
  }

  lemma {:induction false} IdsOfConcat(a: seq<Model>, b: seq<Model>)
    ensures Ids(a + b) == Ids(a) + Ids(b)
  {
  }

  lemma {:induction false} DistinctConcat(a: seq<Model>, b: seq<Model>)
    requires Distinct(a) && Distinct(b) && forall m :: m in b ==> m.id !in Ids(a)
    ensures Distinct(a + b)
  {
    hide Ids;
    assert forall i :: 0 <= i < |a| ==> a[i] in a;
    assert forall i :: 0 <= i < |b| ==> b[i] in b;
  }

  lemma {:induction false} SameIds(a: seq<Model>, b: seq<Model>)
    requires |a| == |b| && forall i :: 0 <= i < |a| ==> a[i].id == b[i].id
    ensures Ids(a) == Ids(b)
    ensures Distinct(a) ==> Distinct(b)
  {
    forall id | id in Ids(a) ensures id in Ids(b) {
      var i :| 0 <= i < |a| && a[i].id == id;
      assert b[i] in b;
    }
    forall id | id in Ids(b) ensures id in Ids(a) {
      var i :| 0 <= i < |b| && b[i].id == id;
      assert a[i] in a;
    }
  }

  /** A catalogue of the shape the merge gives is left as it is. */
  lemma {:induction false} MergeOfMerged(base: seq<Model>, defaultId: string, ms: seq<Model>)
    requires base != [] && StartsAs(base, ms) && IsMarked(ms, defaultId)
    ensures Merged(base, defaultId, ms) == ms
  {
    var front, extras := ms[..|base|], ms[|base|..];
    FrontIsBaseline(base, ms);
    SameIds(front, base);
    assert ms == front + extras;
    assert base[0] in base && ms[0] in ms;
    assert Applies(base, ms);
    hide Merged, Extras, Ids, LastOf, Baseline, Applies;
    ExtrasOfSeen(front, extras, Ids(base));
    ExtrasOfDistinct(extras, Ids(base));
    assert Marked(ms, defaultId) == ms;
    MergedWhere(base, defaultId, ms);
  }

  lemma {:induction false} MergedWhere(base: seq<Model>, defaultId: string, ms: seq<Model>)
    requires ms != [] && Applies(base, ms)
    ensures Merged(base, defaultId, ms) == Marked(Baseline(base, ms) + Extras(ms, Ids(base)), defaultId)
  {
  }

  lemma {:induction false} FrontIsBaseline(base: seq<Model>, ms: seq<Model>)
    requires |base| <= |ms| && Distinct(ms) && forall i :: 0 <= i < |base| ==> ms[i].id == base[i].id
    ensures Baseline(base, ms) == ms[..|base|]
  {
    BaselineAt(base, ms);
    forall i | 0 <= i < |base| ensures Baseline(base, ms)[i] == ms[i] {
      LastOfDistinct(ms, i);
    }
  }

  lemma {:induction false} FallbackIsDistinct()
    ensures Distinct(FALLBACK) && FALLBACK[0].id == DEFAULT_ID
  {
  }

  /** The catalogue the source merges in: where it applies, the ids are distinct and are exactly the built-in and the
      discovered ones, and the one default model is the built-in default, which comes first. */
  lemma {:induction false} MergedCatalog(ms: seq<Model>)
    requires ms != [] && Applies(FALLBACK, ms)
    ensures var r := Merged(FALLBACK, DEFAULT_ID, ms);
            && Distinct(r) && Ids(r) == Ids(FALLBACK) + Ids(ms) && r != []
            && (forall i :: 0 <= i < |r| ==> (r[i].isDefault <==> i == 0))
  {
    FallbackIsDistinct();
    MergedIds(FALLBACK, DEFAULT_ID, ms);
    var r := Merged(FALLBACK, DEFAULT_ID, ms);
    assert r[0].id == DEFAULT_ID;
    forall i | 0 <= i < |r| ensures r[i].isDefault <==> i == 0 {
      assert r[i] in r;
    }
  }

  // ----- Which models the merge takes -----

  /** The models from place i on that are the first of their id, of ids that are not in the base, in their order. */
  function FirstsFrom(ms: seq<Model>, base: set<string>, i: nat): seq<Model>
    requires i <= |ms|
    decreases |ms| - i
  {
    if i == |ms| then []
    else (if IsFirst(ms, i) && ms[i].id !in base then [ms[i]] else []) + FirstsFrom(ms, base, i + 1)
  }

  predicate IsFirst(ms: seq<Model>, i: int) {
    0 <= i < |ms| && forall j :: 0 <= j < i ==> ms[j].id != ms[i].id
  }

  lemma {:induction false} ExtrasAreFirsts(ms: seq<Model>, base: set<string>, i: nat)
    requires i <= |ms|
    ensures Extras(ms[i..], base + Ids(ms[..i])) == FirstsFrom(ms, base, i)
    decreases |ms| - i
  {
    hide Ids, Extras;
    var seen := base + Ids(ms[..i]);
    if i == |ms| {
      EmptyExtras(ms[i..], seen);
    } else {
      ExtrasAreFirsts(ms, base, i + 1);
      ExtrasStep(ms, i, seen);
      SeenExactlyWhen(ms, i);
      assert seen + {ms[i].id} == base + Ids(ms[..i + 1]);
      assert ms[i].id in seen ==> seen == base + Ids(ms[..i + 1]);
    }
  }

  lemma {:induction false} SeenExactlyWhen(ms: seq<Model>, i: nat)
    requires i < |ms|
    ensures Ids(ms[..i + 1]) == Ids(ms[..i]) + {ms[i].id}
    ensures ms[i].id in Ids(ms[..i]) <==> !IsFirst(ms, i)
  {
    assert ms[..i + 1] == ms[..i] + [ms[i]];
    IdsOfConcat(ms[..i], [ms[i]]);
    IdsByPlace(ms[..i], ms[i].id);
  }

  lemma {:induction false} IdsByPlace(ms: seq<Model>, id: string)
    ensures id in Ids(ms) <==> exists i :: 0 <= i < |ms| && ms[i].id == id
  {
    if i :| 0 <= i < |ms| && ms[i].id == id {
      assert ms[i] in ms;
    }
  }

  /** The last discovered model of a built-in id is preferred to the built-in one. */
  lemma {:induction false} PreferredIsLast(ms: seq<Model>, m: Model, i: int)
    requires -1 <= i < |ms| && forall j :: i < j < |ms| ==> ms[j].id != m.id
    requires i >= 0 ==> ms[i].id == m.id
    ensures Preferred(ms, m) == if i < 0 then m else ms[i]
    decreases |ms|
  {
    hide Ids;
    if ms != [] && i < |ms| - 1 {
      PreferredIsLast(ms[..|ms| - 1], m, i);
    }
  }

  /** The merge applies when a discovered model has a built-in id or is of the gpt-5 family; else nothing changes. */
  lemma {:induction false} AppliesExactlyWhen(base: seq<Model>, defaultId: string, ms: seq<Model>)
    ensures Applies(base, ms) <==>
            exists m :: m in ms && ((exists i :: 0 <= i < |base| && base[i].id == m.id) || "gpt-5" <= m.id)
    ensures !Applies(base, ms) ==> Merged(base, defaultId, ms) == ms
  {
    forall id: string ensures id in Ids(base) <==> exists i :: 0 <= i < |base| && base[i].id == id {
      IdsByPlace(base, id);
    }
    hide Ids;
  }

  /** The merged catalogue, model by model: the built-in ones as preferred, then the firsts of all other ids; only the
      default flag of a model ever changes. */
  lemma {:induction false} MergedModels(base: seq<Model>, defaultId: string, ms: seq<Model>)
    requires Distinct(base) && ms != [] && Applies(base, ms)
    ensures var r, firsts := Merged(base, defaultId, ms), FirstsFrom(ms, Ids(base), 0);
            && |r| == |base| + |firsts|
            && (forall i :: 0 <= i < |base| ==> r[i] == Preferred(ms, base[i]).(isDefault := base[i].id == defaultId))
            && (forall i :: 0 <= i < |firsts| ==>
                  r[|base| + i] == firsts[i].(isDefault := firsts[i].id == defaultId))
  {
    var front, extras := Baseline(base, ms), Extras(ms, Ids(base));
    BaselineIs(base, ms);
    AllExtras(ms, Ids(base));
    MergedWhere(base, defaultId, ms);
    hide Merged, Baseline, Extras, Ids, Applies, Preferred, FirstsFrom, Distinct;
    MarkedParts(front, extras, defaultId);
  }

  lemma {:induction false} BaselineIs(base: seq<Model>, ms: seq<Model>)
    ensures |Baseline(base, ms)| == |base|
    ensures forall i :: 0 <= i < |base| ==>
              Baseline(base, ms)[i] == Preferred(ms, base[i]) && Preferred(ms, base[i]).id == base[i].id
  {
    BaselineAt(base, ms);
  }

  lemma {:induction false} AllExtras(ms: seq<Model>, base: set<string>)
    ensures Extras(ms, base) == FirstsFrom(ms, base, 0)
  {
    ExtrasAreFirsts(ms, base, 0);
    assert ms[0..] == ms && Ids(ms[..0]) == {} && base + {} == base;
  }

  lemma {:induction false} MarkedParts(front: seq<Model>, rest: seq<Model>, defaultId: string)
    ensures var r := Marked(front + rest, defaultId);
            && |r| == |front| + |rest|
            && (forall i :: 0 <= i < |front| ==> r[i] == front[i].(isDefault := front[i].id == defaultId))
            && (forall i :: 0 <= i < |rest| ==> r[|front| + i] == rest[i].(isDefault := rest[i].id == defaultId))
  {
  }

  /** The built-in models. */
  lemma {:induction false} BuiltInModels()
    ensures |FALLBACK| == 6 && DEFAULT_ID == "gpt-5.5"
    ensures FALLBACK[0].id == "gpt-5.5" && FALLBACK[1].id == "gpt-5.3-codex" && FALLBACK[2].id == "gpt-5.4"
    ensures FALLBACK[3].id == "gpt-5.4-mini" && FALLBACK[4].id == "gpt-5.2-codex"
    ensures FALLBACK[5].id == "gpt-5.1-codex-mini"
    ensures forall i :: 0 <= i < 6 ==> FALLBACK[i].defaultEffort == "medium" && (FALLBACK[i].isDefault <==> i == 0)
    ensures forall i :: 0 <= i < 5 ==> FALLBACK[i].supportedEfforts == ["low", "medium", "high", "xhigh"]
    ensures FALLBACK[5].supportedEfforts == ["medium", "high"]
  {
  }

  lemma {:induction false} MergeIsIdempotent(ms: seq<Model>)
    ensures Merged(FALLBACK, DEFAULT_ID, Merged(FALLBACK, DEFAULT_ID, ms)) == Merged(FALLBACK, DEFAULT_ID, ms)
  {
    if ms != [] && Applies(FALLBACK, ms) {
      FallbackIsDistinct();
      MergedIds(FALLBACK, DEFAULT_ID, ms);
      MergeOfMerged(FALLBACK, DEFAULT_ID, Merged(FALLBACK, DEFAULT_ID, ms));
    }
  }
}
