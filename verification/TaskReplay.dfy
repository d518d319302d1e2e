/** The replay query over a task's packets: its episodes, latest first, cut to a limit. */
module TaskReplay {
  import opened Wrappers
  import opened Sequences
  import opened Sets
  import opened Text
  import opened EvidenceLogs
  import opened Replay

  datatype QueryError = BadLimit | Unreplayable(e: ReplayError)

  datatype TaskView = TaskView(packets: seq<Key>, episodes: seq<EpisodeView>, totalEvents: nat, terminalEpisodes: nat)

  /** A packet's place in the answer: when its last event was created, and its packet. */
  function EndKey(log: Log): Key
    requires log != []
  {
    Key(log[|log| - 1].createdAt, log[|log| - 1].packetId)
  }

  predicate OfTask(logs: Logs, p: string, taskId: string) {
    p in logs && ViewOf(logs[p]).Ok? && ViewOf(logs[p]).value.identity.taskId == taskId
  }

  lemma {:induction false} ViewedLogsAreNotEmpty(log: Log)
    requires ViewOf(log).Ok?
    ensures log != [] && LogDecodes(log)
  {
  }

  /** The places of all the task's packets. */
  function Places(logs: Logs, taskId: string): set<Key> {
    set p | p in logs && OfTask(logs, p, taskId) && logs[p] != [] :: EndKey(logs[p])
  }

  /** The places of the task's packets among `ps`. */
  ghost predicate PlacesOf(logs: Logs, ps: set<string>, taskId: string, all: set<Key>) {
    && (forall p :: p in ps && OfTask(logs, p, taskId) ==> logs[p] != [] && EndKey(logs[p]) in all)
    && (forall k :: k in all ==> k.packetId in ps && OfTask(logs, k.packetId, taskId)
                                 && logs[k.packetId] != [] && EndKey(logs[k.packetId]) == k)
  }

  // ----- Descending lists and their first n -----

  predicate Descending(ks: seq<Key>) {
    forall i, j :: 0 <= i < j < |ks| ==> KeyLess(ks[j], ks[i])
  }

  predicate SameKeys(ks: seq<Key>, all: set<Key>) {
    && (forall k :: k in ks ==> k in all)
    && (forall k :: k in all ==> k in ks)
  }

  /** The n latest of a set of places, latest first. */
  predicate IsTop(all: set<Key>, ks: seq<Key>, n: int) {
    && Descending(ks) && |ks| <= n && (forall k :: k in ks ==> k in all)
    && forall k :: k in all && k !in ks ==> |ks| == n && forall m :: m in ks ==> KeyLess(k, m)
  }

  method InsertKey(ks: seq<Key>, k: Key) returns (r: seq<Key>)
    requires Descending(ks) && k !in ks
    ensures Descending(r) && forall m :: m in r <==> m == k || m in ks
  {
    var i := 0;
    while i < |ks| && KeyLess(k, ks[i])
      invariant 0 <= i <= |ks|
      invariant forall j :: 0 <= j < i ==> KeyLess(k, ks[j])
    {
      i := i + 1;
    }
    if i < |ks| {
      KeyLessIsStrictTotal(k, ks[i]);
      BelowTheRest(ks, i, k);
    }
    r := ks[..i] + [k] + ks[i..];
  }

  lemma {:induction false} BelowTheRest(ks: seq<Key>, i: nat, k: Key)
    requires Descending(ks) && i < |ks| && KeyLess(ks[i], k)
    ensures forall j :: i <= j < |ks| ==> KeyLess(ks[j], k)
  {
    forall j | i <= j < |ks| ensures KeyLess(ks[j], k) {
      if i < j {
        KeyLessIsStrictTotal(ks[j], ks[i]);
        KeyLessIsStrictTotal(ks[i], k);
        KeyLessIsTransitive(ks[j], ks[i], k);
      }
    }
  }

  lemma {:induction false} FirstOfDescending(all: set<Key>, ks: seq<Key>, n: nat)
    requires Descending(ks) && SameKeys(ks, all)
    ensures IsTop(all, if n < |ks| then ks[..n] else ks, n)
  {
    if n < |ks| {
      var top := ks[..n];
      assert forall i :: 0 <= i < n ==> ks[i] in top;
      forall k, m | k in all && k !in top && m in top ensures KeyLess(k, m) {
        var i :| 0 <= i < |ks| && ks[i] == k;
        var j :| 0 <= j < |top| && top[j] == m;
      }
    }
  }

  function KeySet(ks: seq<Key>): set<Key> {
    set k | k in ks
  }

  lemma {:induction false} DescendingIsDistinct(ks: seq<Key>)
    requires Descending(ks)
    ensures |KeySet(ks)| == |ks|
  {
    if ks != [] {
      var rest := ks[1..];
      DescendingIsDistinct(rest);
      assert KeySet(ks) == {ks[0]} + KeySet(rest);
      KeyLessIsStrictTotal(ks[0], ks[0]);
      assert ks[0] !in rest;
    }
  }

  lemma {:induction false} TopsHaveTheSameKeys(all: set<Key>, a: seq<Key>, b: seq<Key>, n: int)
    requires IsTop(all, a, n) && IsTop(all, b, n)
    ensures KeySet(a) <= KeySet(b)
  {
    if p :| p in a && p !in b {
      var q := KeyOutside(a, b, p);
      KeyLessIsStrictTotal(p, q);
      assert false;
    }
  }

  lemma {:induction false} KeyOutside(a: seq<Key>, b: seq<Key>, p: Key) returns (q: Key)
    requires Descending(a) && Descending(b) && |a| <= |b| && p in a && p !in b
    ensures q in b && q !in a
  {
    DescendingIsDistinct(a);
    DescendingIsDistinct(b);
    if forall k :: k in b ==> k in a {
      SubsetIsNoLarger(KeySet(b) + {p}, KeySet(a));
      assert false;
    }
    q :| q in b && q !in a;
  }

  lemma {:induction false} SameKeysSameList(a: seq<Key>, b: seq<Key>)
    requires Descending(a) && Descending(b) && KeySet(a) == KeySet(b)
    ensures a == b
    decreases |a|
  {
    DescendingIsDistinct(a);
    DescendingIsDistinct(b);
    if a != [] {
      assert a[0] in KeySet(b) && b[0] in KeySet(a);
      KeyLessIsStrictTotal(a[0], b[0]);
      KeyLessIsStrictTotal(a[0], a[0]);
      KeyLessIsStrictTotal(b[0], b[0]);
      assert a[0] == b[0];
      assert KeySet(a[1..]) == KeySet(a) - {a[0]} && KeySet(b[1..]) == KeySet(b) - {b[0]} by {
        assert a == [a[0]] + a[1..] && b == [b[0]] + b[1..];
        assert a[0] !in a[1..] && b[0] !in b[1..];
      }
      SameKeysSameList(a[1..], b[1..]);
    }
  }

  /** There is only one such list, so the answer does not depend on the order in which files are visited. */
  lemma {:induction false} TopIsUnique(all: set<Key>, a: seq<Key>, b: seq<Key>, n: int)
    requires IsTop(all, a, n) && IsTop(all, b, n)
    ensures a == b
  {
    TopsHaveTheSameKeys(all, a, b, n);
    TopsHaveTheSameKeys(all, b, a, n);
    SameKeysSameList(a, b);
  }

  // ----- The query -----

  function EventsIn(views: seq<EpisodeView>): nat {
    if views == [] then 0 else EventsIn(views[..|views| - 1]) + |views[|views| - 1].types|
  }

  function TerminalIn(views: seq<EpisodeView>): nat {
    if views == [] then 0
    else TerminalIn(views[..|views| - 1]) + if views[|views| - 1].terminalStatus.Some? then 1 else 0
  }

  /** The packet is among those listed. */
  predicate Listed(ks: seq<Key>, p: string) {
    exists k :: k in ks && k.packetId == p
  }

  /** The last event of the packet's log is older than that of every packet listed; of one time, the packet's name is
      smaller. */
  predicate OlderThanAll(log: Log, p: string, ks: seq<Key>) {
    && log != []
    && forall k :: k in ks ==>
         var last := log[|log| - 1].createdAt; Less(last, k.createdAt) || (last == k.createdAt && Less(p, k.packetId))
  }

  /** At most n packets of the task, the one whose last event is newest first; only when n are listed is one left out,
      and then it is older than all of them. */
  ghost predicate AreLatest(logs: Logs, taskId: string, ks: seq<Key>, n: int) {
    && |ks| <= n
    && (forall k :: k in ks ==>
          && k.packetId in logs && logs[k.packetId] != []
          && k.createdAt == logs[k.packetId][|logs[k.packetId]| - 1].createdAt
          && ViewOf(logs[k.packetId]).Ok? && ViewOf(logs[k.packetId]).value.identity.taskId == taskId)
    && (forall i, j :: 0 <= i < j < |ks| ==>
          Less(ks[j].createdAt, ks[i].createdAt)
          || (ks[j].createdAt == ks[i].createdAt && Less(ks[j].packetId, ks[i].packetId)))
    && (forall p :: p in logs && ViewOf(logs[p]).Ok? && ViewOf(logs[p]).value.identity.taskId == taskId ==>
          Listed(ks, p) || (|ks| == n && OlderThanAll(logs[p], p, ks)))
  }

  /** The logs of the packets listed. */
  function LogsListed(logs: Logs, ks: seq<Key>): seq<Log> {
    seq(|ks|, i requires 0 <= i < |ks| => LogOf(logs, ks[i].packetId))
  }

  predicate HasResult(log: Log) {
    exists e :: e in log && IsResult(e)
  }

  /** `query_task_episodes`: refused for a bad limit, or when any packet of the store, of whatever task, cannot be
      replayed; otherwise the task's latest episodes, latest first, with their counts. */
  method QueryTaskEpisodes(logs: Logs, taskId: string, packetLimit: int) returns (r: Result<TaskView, QueryError>)
    requires Coherent(logs)
    ensures r == Err(BadLimit) <==> packetLimit <= 0
    ensures r.Err? && r.error.Unreplayable? ==> exists p :: p in logs && ViewOf(logs[p]) == Err(r.error.e)
    ensures packetLimit > 0 ==> (r.Ok? <==> forall p :: p in logs ==> ViewOf(logs[p]).Ok?)
    ensures r.Ok? ==> |r.value.episodes| == |r.value.packets|
                      && r.value.totalEvents == EventsIn(r.value.episodes)
                      && r.value.terminalEpisodes == TerminalIn(r.value.episodes)
    ensures r.Ok? ==> forall i :: 0 <= i < |r.value.packets| ==>
              && r.value.packets[i].packetId in logs
              && ViewOf(logs[r.value.packets[i].packetId]) == Ok(r.value.episodes[i])
    ensures r.Ok? ==> IsTop(Places(logs, taskId), r.value.packets, packetLimit)
    ensures r.Ok? ==> AreLatest(logs, taskId, r.value.packets, packetLimit)
    ensures r.Ok? ==> r.value.totalEvents == |Flatten(LogsListed(logs, r.value.packets))|
    ensures r.Ok? ==> r.value.terminalEpisodes ==
                      |set i | 0 <= i < |r.value.packets| && HasResult(LogsListed(logs, r.value.packets)[i])|
  {
    if packetLimit <= 0 {
      return Err(BadLimit);
    }
    hide ViewOf, PlacesOf, Places, Descending, SameKeys, IsTop, OfTask, AreLatest, HasResult, LogsListed;
    hide EventsIn, TerminalIn, Coherent;
    var keys, failure, all := CollectPlaces(logs, taskId);
    if failure.Some? {
      return Err(Unreplayable(failure.value));
    }
    TopOfPlaces(logs, taskId, keys, all, packetLimit);
    if packetLimit < |keys| {
      keys := keys[..packetLimit];
    }
    var episodes, total, terminal := Summarise(logs, keys);
    CountsMean(logs, keys, episodes);
    r := Ok(TaskView(keys, episodes, total, terminal));
  }

  /** The places of the task's packets, latest first, unless some packet cannot be replayed. */
  method CollectPlaces(logs: Logs, taskId: string)
    returns (keys: seq<Key>, failure: Option<ReplayError>, ghost all: set<Key>)
    requires Coherent(logs)
    ensures failure.Some? ==> exists p :: p in logs && ViewOf(logs[p]) == Err(failure.value)
    ensures failure.None? ==> forall p :: p in logs ==> ViewOf(logs[p]).Ok?
    ensures failure.None? ==> PlacesOf(logs, logs.Keys, taskId, all) && Descending(keys) && SameKeys(keys, all)
  {
    hide ViewOf, PlacesOf;
    keys, failure, all := [], None, {};
    var todo := logs.Keys;
    NoPlaces(logs, taskId);
    assert logs.Keys - logs.Keys == {};
    while todo != {}
      invariant todo <= logs.Keys && failure.None?
      invariant forall p :: p in logs && p !in todo ==> ViewOf(logs[p]).Ok?
      invariant PlacesOf(logs, logs.Keys - todo, taskId, all) && Descending(keys) && SameKeys(keys, all)
      decreases |todo|
    {
      var p :| p in todo;
      var view := ViewOf(logs[p]);
      if view.Err? {
        return keys, Some(view.error), all;
      }
      ViewedLogsAreNotEmpty(logs[p]);
      if view.value.identity.taskId == taskId {
        AddPlace(logs, p, logs.Keys - todo, taskId, all);
        keys := InsertKey(keys, EndKey(logs[p]));
        all := all + {EndKey(logs[p])};
      } else {
        SkipPlace(logs, p, logs.Keys - todo, taskId, all);
      }
      assert logs.Keys - (todo - {p}) == logs.Keys - todo + {p};
      todo := todo - {p};
    }
    assert logs.Keys - todo == logs.Keys;
  }

  lemma {:induction false} PlacesAre(logs: Logs, taskId: string, all: set<Key>)
    requires PlacesOf(logs, logs.Keys, taskId, all)
    ensures all == Places(logs, taskId)
  {
    hide ViewOf;
  }

  lemma {:induction false} TopIsReplayable(logs: Logs, taskId: string, keys: seq<Key>, n: int)
    requires Coherent(logs) && IsTop(Places(logs, taskId), keys, n)
    ensures forall k :: k in keys ==> k.packetId in logs && ViewOf(logs[k.packetId]).Ok?
  {
    forall k | k in keys ensures k.packetId in logs && ViewOf(logs[k.packetId]).Ok? {
      var p :| p in logs && OfTask(logs, p, taskId) && logs[p] != [] && EndKey(logs[p]) == k;
      ViewedLogsAreNotEmpty(logs[p]);
    }
  }

  lemma {:induction false} TopOfPlaces(logs: Logs, taskId: string, ks: seq<Key>, all: set<Key>, n: nat)
    requires Coherent(logs) && PlacesOf(logs, logs.Keys, taskId, all) && Descending(ks) && SameKeys(ks, all)
    ensures var top := if n < |ks| then ks[..n] else ks;
            && IsTop(Places(logs, taskId), top, n) && AreLatest(logs, taskId, top, n)
            && forall k :: k in top ==> k.packetId in logs && ViewOf(logs[k.packetId]).Ok?
  {
    hide ViewOf, PlacesOf, Places, Descending, SameKeys, IsTop, AreLatest;
    var top := if n < |ks| then ks[..n] else ks;
    FirstOfDescending(all, ks, n);
    PlacesAre(logs, taskId, all);
    TopIsReplayable(logs, taskId, top, n);
    TopIsLatest(logs, taskId, top, n);
  }

  /** The top places are those of the task's packets whose last event is newest. */
  lemma {:induction false} TopIsLatest(logs: Logs, taskId: string, ks: seq<Key>, n: int)
    requires Coherent(logs) && IsTop(Places(logs, taskId), ks, n)
    ensures AreLatest(logs, taskId, ks, n)
  {
    hide ViewOf;
    forall k | k in ks
      ensures && k.packetId in logs && logs[k.packetId] != [] && OfTask(logs, k.packetId, taskId)
              && k.createdAt == logs[k.packetId][|logs[k.packetId]| - 1].createdAt
    {
      var p :| p in logs && OfTask(logs, p, taskId) && logs[p] != [] && EndKey(logs[p]) == k;
      LogIsOfItsPacket(logs, p);
    }
    forall p | p in logs && OfTask(logs, p, taskId)
      ensures Listed(ks, p) || (|ks| == n && OlderThanAll(logs[p], p, ks))
    {
      LogIsOfItsPacket(logs, p);
      assert EndKey(logs[p]) in Places(logs, taskId);
      hide Places;
    }
  }

  lemma {:induction false} LogIsOfItsPacket(logs: Logs, p: string)
    requires Coherent(logs) && p in logs && ViewOf(logs[p]).Ok?
    ensures logs[p] != [] && EndKey(logs[p]) == Key(logs[p][|logs[p]| - 1].createdAt, p)
  {
    ViewedLogsAreNotEmpty(logs[p]);
    hide ViewOf;
  }

  /** The counts are those of the listed logs: their events, and how many of them hold a result. */
  lemma {:induction false} CountsMean(logs: Logs, ks: seq<Key>, views: seq<EpisodeView>)
    requires |views| == |ks|
    requires forall i :: 0 <= i < |ks| ==> ks[i].packetId in logs && ViewOf(logs[ks[i].packetId]) == Ok(views[i])
    ensures EventsIn(views) == |Flatten(LogsListed(logs, ks))|
    ensures TerminalIn(views) == |set i | 0 <= i < |ks| && HasResult(LogsListed(logs, ks)[i])|
  {
    forall i | 0 <= i < |ks|
      ensures |views[i].types| == |LogsListed(logs, ks)[i]|
      ensures views[i].terminalStatus.Some? <==> HasResult(LogsListed(logs, ks)[i])
    {
      ViewCounts(logs[ks[i].packetId], views[i]);
    }
    hide ViewOf, HasResult, LogsListed;
    EventsAre(views, LogsListed(logs, ks));
    TerminalsAre(views, LogsListed(logs, ks));
  }

  lemma {:induction false} EventsAre(views: seq<EpisodeView>, listed: seq<Log>)
    requires |views| == |listed| && forall i :: 0 <= i < |listed| ==> |views[i].types| == |listed[i]|
    ensures EventsIn(views) == |Flatten(listed)|
  {
    if listed != [] {
      var n := |listed| - 1;
      EventsAre(views[..n], listed[..n]);
      assert listed == listed[..n] + [listed[n]];
      FlattenSplit(listed[..n], [listed[n]]);
      FlattenOne(listed[n]);
    }
  }

  lemma {:induction false} TerminalsAre(views: seq<EpisodeView>, listed: seq<Log>)
    requires |views| == |listed|
    requires forall i :: 0 <= i < |listed| ==> (views[i].terminalStatus.Some? <==> HasResult(listed[i]))
    ensures TerminalIn(views) == |set i | 0 <= i < |listed| && HasResult(listed[i])|
  {
    hide HasResult;
    if listed != [] {
      var n := |listed| - 1;
      TerminalsAre(views[..n], listed[..n]);
      var before := set i | 0 <= i < n && HasResult(listed[..n][i]);
      var all := set i | 0 <= i < |listed| && HasResult(listed[i]);
      assert all == if HasResult(listed[n]) then before + {n} else before;
    }
  }

  lemma {:induction false} ViewCounts(log: Log, view: EpisodeView)
    requires ViewOf(log) == Ok(view)
    ensures |view.types| == |log| && (view.terminalStatus.Some? <==> HasResult(log))
  {
    LastResultIsLast(log);
    hide LastResultStatus;
  }

  lemma {:induction false} NoPlaces(logs: Logs, taskId: string)
    ensures PlacesOf(logs, {}, taskId, {})
  {
  }

  lemma {:induction false} AddPlace(logs: Logs, p: string, ps: set<string>, taskId: string, all: set<Key>)
    requires Coherent(logs) && OfTask(logs, p, taskId) && p !in ps && PlacesOf(logs, ps, taskId, all)
    ensures logs[p] != [] && EndKey(logs[p]) !in all
    ensures PlacesOf(logs, ps + {p}, taskId, all + {EndKey(logs[p])})
  {
    ViewedLogsAreNotEmpty(logs[p]);
    assert EndKey(logs[p]).packetId == p;
    hide ViewOf;
  }

  lemma {:induction false} SkipPlace(logs: Logs, p: string, ps: set<string>, taskId: string, all: set<Key>)
    requires !OfTask(logs, p, taskId) && PlacesOf(logs, ps, taskId, all)
    ensures PlacesOf(logs, ps + {p}, taskId, all)
  {
    hide ViewOf;
  }

  method Summarise(logs: Logs, keys: seq<Key>)
    returns (episodes: seq<EpisodeView>, total: nat, terminal: nat)
    requires forall k :: k in keys ==> k.packetId in logs && ViewOf(logs[k.packetId]).Ok?
    ensures |episodes| == |keys| && total == EventsIn(episodes) && terminal == TerminalIn(episodes)
    ensures forall i :: 0 <= i < |keys| ==> ViewOf(logs[keys[i].packetId]) == Ok(episodes[i])
  {
    hide ViewOf;
    episodes, total, terminal := [], 0, 0;
    for i := 0 to |keys|
      invariant |episodes| == i && total == EventsIn(episodes) && terminal == TerminalIn(episodes)
      invariant forall j :: 0 <= j < i ==> ViewOf(logs[keys[j].packetId]) == Ok(episodes[j])
    {
      var view := ViewOf(logs[keys[i].packetId]).value;
      assert (episodes + [view])[..i] == episodes;
      episodes := episodes + [view];
      total := total + |view.types|;
      if view.terminalStatus.Some? {
        terminal := terminal + 1;
      }
    }
  }
}
