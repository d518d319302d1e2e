/** What holds of the evidence logs after any sequence of offered events, packets interleaved freely. */
module EvidenceRuns {
  import opened Wrappers
  import opened Evidence
  import opened EvidenceLogs

  /** The logs after a run of offers, from an empty store. */
  ghost function After(events: seq<RuntimeEvent>): Logs {
    if events == [] then map[] else Offer(After(events[..|events| - 1]), events[|events| - 1])
  }

  // ----- The packet-log invariant -----

  /** A recorded result was reported, by the owner its log then named, after a plan. */
  ghost predicate ResultIsOwned(log: Log, i: int)
    requires 0 <= i < |log| && IsResult(log[i])
  {
    Owner(log[..i]).Some? && Owner(log[..i]).value.Some? && PayloadOf(log[i]).workerId == Owner(log[..i]).value
  }

  ghost predicate GoodLog(p: string, log: Log) {
    && LogDecodes(log)
    && (forall i :: 0 <= i < |log| ==> log[i].packetId == p && IdentityOf(log[i]) == IdentityOf(log[0]))
    && (forall i, j :: 0 <= i < j < |log| ==> !(IsResult(log[i]) && IsResult(log[j])))
    && (forall i :: 0 <= i < |log| && IsResult(log[i]) ==> ResultIsOwned(log, i))
  }

  ghost predicate Good(logs: Logs) {
    forall p :: p in logs ==> GoodLog(p, logs[p])
  }

  lemma {:induction false} GoodIsCoherent(logs: Logs)
    requires Good(logs)
    ensures Coherent(logs) && AllDecode(logs)
  {
    hide Extract;
  }

  lemma {:induction false} AppendKeepsLogGood(logs: Logs, e: RuntimeEvent)
    requires GoodLog(e.packetId, LogOf(logs, e.packetId)) && Judge(logs, e).Append?
    ensures GoodLog(e.packetId, LogOf(logs, e.packetId) + [e])
  {
    hide Extract, TypeOf, LatestIdentity;
    var log := LogOf(logs, e.packetId);
    var grown := log + [e];
    assert grown[..|log|] == log;
    if IsResult(e) {
      assert FirstResult(log).None?;
      assert ResultIsOwned(grown, |log|);
    }
    forall i | 0 <= i < |log| && IsResult(log[i])
      ensures ResultIsOwned(grown, i)
    {
      assert grown[..i] == log[..i] && ResultIsOwned(log, i);
    }
    forall i | 0 <= i < |log|
      ensures IdentityOf(grown[i]) == IdentityOf(grown[0]) && IdentityOf(grown[i]) == IdentityOf(e)
    {
      assert !ConflictingIdentity(log, IdentityOf(e));
      assert Decodes(log[i]) && Decodes(log[0]);
    }
  }

  lemma {:induction false} OfferKeepsGood(logs: Logs, e: RuntimeEvent)
    requires Good(logs)
    ensures Good(Offer(logs, e))
  {
    hide Extract, GoodLog, Judge;
    if Judge(logs, e).Append? {
      assert GoodLog(e.packetId, LogOf(logs, e.packetId)) by {
        EmptyLogIsGood(e.packetId);
      }
      AppendKeepsLogGood(logs, e);
    }
  }

  lemma {:induction false} EmptyLogIsGood(p: string)
    ensures GoodLog(p, [])
  {
  }

  /** In every reachable store all events of a packet share one identity, there is at most one result, and it
      was preceded by a plan whose worker reported it. */
  lemma {:induction false} PacketLogInvariant(events: seq<RuntimeEvent>)
    ensures Good(After(events))
  {
    hide Extract, GoodLog, Judge;
    if events != [] {
      PacketLogInvariant(events[..|events| - 1]);
      OfferKeepsGood(After(events[..|events| - 1]), events[|events| - 1]);
    }
  }

  // ----- Logs only grow, and a result is final -----

  ghost predicate Grows(before: Logs, after: Logs) {
    forall p :: p in before ==> p in after && before[p] <= after[p]
  }

  /** Every reachable store meets what the store's methods ask of it: each log decodes and has one identity. */
  lemma {:induction false} ReachableLogsAreCoherent(events: seq<RuntimeEvent>)
    ensures Coherent(After(events)) && AllDecode(After(events))
  {
    PacketLogInvariant(events);
    GoodIsCoherent(After(events));
  }

  lemma {:induction false} LogsOnlyGrow(events: seq<RuntimeEvent>, more: seq<RuntimeEvent>)
    ensures Grows(After(events), After(events + more))
  {
    hide Extract, Judge;
    if more == [] {
      assert events + more == events;
    } else {
      var shorter := more[..|more| - 1];
      assert (events + more)[..|events + more| - 1] == events + shorter;
      LogsOnlyGrow(events, shorter);
    }
  }

  /** Offering a further result to a packet that has one never changes any log. */
  lemma {:induction false} ResultBlocksResults(logs: Logs, e: RuntimeEvent)
    requires IsResult(e) && FirstResult(LogOf(logs, e.packetId)).Some?
    ensures Offer(logs, e) == logs
  {
    hide Extract;
  }

  lemma {:induction false} FirstResultOfLonger(log: Log, more: Log)
    requires FirstResult(log).Some?
    ensures FirstResult(log + more) == FirstResult(log)
  {
    hide Extract;
    if !IsResult(log[0]) {
      assert (log + more)[1..] == log[1..] + more;
      FirstResultOfLonger(log[1..], more);
    }
  }

  /** Once a packet has a result, every later state of every run has that result for it, and no other. */
  lemma {:induction false} ResultIsFinal(events: seq<RuntimeEvent>, more: seq<RuntimeEvent>, p: string, i: int)
    requires p in After(events) && 0 <= i < |After(events)[p]| && IsResult(After(events)[p][i])
    ensures p in After(events + more)
    ensures FirstResult(After(events + more)[p]) == Some(After(events)[p][i])
    ensures forall e :: e in After(events + more)[p] && IsResult(e) ==> e == After(events)[p][i]
  {
    hide Extract, Judge;
    LogsOnlyGrow(events, more);
    var log, grown := After(events)[p], After(events + more)[p];
    PacketLogInvariant(events + more);
    assert grown[i] == log[i];
    forall j | 0 <= j < |grown| && IsResult(grown[j])
      ensures j == i
    {
      assert GoodLog(p, grown);
    }
    assert FirstResult(grown).Some?;
  }

  // ----- Fencing -----

  /** The latest plan of b is no older than the latest plan of a. */
  ghost predicate NotOlder(a: Option<RuntimeEvent>, b: Option<RuntimeEvent>) {
    a.Some? ==> b.Some? && !KeyLess(KeyOf(b.value), KeyOf(a.value))
  }

  lemma {:induction false} GrowthKeepsFence(before: Logs, after: Logs, taskId: string)
    requires Grows(before, after)
    ensures NotOlder(LatestPlan(before, taskId), LatestPlan(after, taskId))
  {
    hide OpensEpisode;
    if LatestPlan(before, taskId).Some? {
      var p, i := LatestPlanIsCandidate(before, taskId);
      assert after[p][i] == before[p][i];
      LatestPlanExists(after, taskId, p, i);
    }
  }

  /** In any run the key of a task's latest plan never decreases. */
  lemma {:induction false} FenceNeverFalls(events: seq<RuntimeEvent>, more: seq<RuntimeEvent>, taskId: string)
    ensures NotOlder(LatestPlan(After(events), taskId), LatestPlan(After(events + more), taskId))
  {
    LogsOnlyGrow(events, more);
    GrowthKeepsFence(After(events), After(events + more), taskId);
  }

  /** The n-th offer of a run is a result that is newly accepted. */
  ghost predicate AcceptsResult(events: seq<RuntimeEvent>, n: int) {
    0 <= n < |events| && IsResult(events[n]) && Judge(After(events[..n]), events[n]).Append?
  }

  /** A new result is accepted only for the packet that owns its task's latest plan, when there is one. */
  lemma {:induction false} AcceptedResultOwnsTheFence(events: seq<RuntimeEvent>, n: int)
    requires AcceptsResult(events, n)
    ensures LatestIdentity(After(events[..n]), PayloadOf(events[n]).taskId) in
            {None, Some(IdentityOf(events[n]))}
  {
    hide Extract, Owner, FirstResult;
  }

  /** Results of one task never go backwards: a later accepted result of another packet belongs to a strictly
      later episode. */
  lemma {:induction false} ResultsNeverGoBackwards(events: seq<RuntimeEvent>, m: int, n: int)
    requires m < n && AcceptsResult(events, m) && AcceptsResult(events, n)
    requires PayloadOf(events[m]).taskId == PayloadOf(events[n]).taskId
    ensures events[m].packetId != events[n].packetId
    ensures var t := PayloadOf(events[m]).taskId;
            var a, b := LatestPlan(After(events[..m]), t), LatestPlan(After(events[..n]), t);
            a.Some? ==>
              b.Some? && IdentityOf(b.value) == IdentityOf(events[n]) && KeyLess(KeyOf(a.value), KeyOf(b.value))
  {
    hide Extract, Judge, Offer, FirstResult, ResultIsOwned, TypeOf;
    var t := PayloadOf(events[m]).taskId;
    var before, after := After(events[..m]), After(events[..n]);
    LaterResultIsOfAnotherPacket(events, m, n);
    assert events[..n] == events[..m] + events[m..n];
    LogsOnlyGrow(events[..m], events[m..n]);
    GrowthKeepsFence(before, after, t);
    if LatestPlan(before, t).Some? {
      AcceptedResultOwnsTheFence(events, m);
      AcceptedResultOwnsTheFence(events, n);
      PacketLogInvariant(events[..m]);
      PacketLogInvariant(events[..n]);
      var p, i := LatestPlanIsCandidate(before, t);
      var q, j := LatestPlanIsCandidate(after, t);
      KeyLessIsStrictTotal(KeyOf(before[p][i]), KeyOf(after[q][j]));
      assert before[p][i].packetId == events[m].packetId && after[q][j].packetId == events[n].packetId;
    }
  }

  lemma {:induction false} LaterResultIsOfAnotherPacket(events: seq<RuntimeEvent>, m: int, n: int)
    requires m < n && AcceptsResult(events, m) && AcceptsResult(events, n)
    ensures events[m].packetId != events[n].packetId
  {
    hide Extract, WritebackError, ConflictingIdentity;
    var after := After(events[..m + 1]);
    assert events[..m + 1][..m] == events[..m];
    var p := events[m].packetId;
    assert after[p][|after[p]| - 1] == events[m];
    assert events[..n] == events[..m + 1] + events[m + 1..n];
    ResultIsFinal(events[..m + 1], events[m + 1..n], p, |after[p]| - 1);
    assert FirstResult(LogOf(After(events[..n]), p)).Some?;
  }

  // ----- Offering a result again -----

  lemma {:induction false} AcceptedResultIsFirst(events: seq<RuntimeEvent>, n: int)
    requires AcceptsResult(events, n)
    ensures FirstResult(LogOf(After(events), events[n].packetId)) == Some(events[n])
    ensures events[n] in LogOf(After(events), events[n].packetId)
  {
    hide Extract, WritebackError, ConflictingIdentity;
    var after := After(events[..n + 1]);
    assert events[..n + 1][..n] == events[..n];
    var p := events[n].packetId;
    assert after[p][|after[p]| - 1] == events[n];
    assert events == events[..n + 1] + events[n + 1..];
    ResultIsFinal(events[..n + 1], events[n + 1..], p, |after[p]| - 1);
  }

  /** A result of an episode that has one, offered at any later time: while its worker owns the log's last plan and
      no other episode is the latest, an equal payload is answered with exactly the event recorded first and any
      other payload is a conflict; otherwise it is refused. */
  lemma {:induction false} RetryAnswers(events: seq<RuntimeEvent>, n: int, e: RuntimeEvent)
    requires AcceptsResult(events, n) && Extract(e).Ok? && IdentityOf(e) == IdentityOf(events[n])
    requires TypeOf(PayloadOf(e)) == ResultRecorded
    ensures var logs := After(events); var id := IdentityOf(e); var worker := PayloadOf(e).workerId;
            var owns := worker.Some? && Owner(LogOf(logs, e.packetId)) == Some(worker);
            var newest := LatestIdentity(logs, id.taskId) == None || LatestIdentity(logs, id.taskId) == Some(id);
            Judge(logs, e) ==
            if !owns then Refuse(NotTheOwner)
            else if !newest then Refuse(StaleEpisode)
            else if PayloadOf(e) == PayloadOf(events[n]) then Replay(events[n])
            else Refuse(ResultConflict)
  {
    var logs := After(events);
    PlanTypes(e);
    AcceptedResultIsFirst(events, n);
    OwnerAfterAcceptance(events, n);
    PacketLogInvariant(events);
    GoodIsCoherent(logs);
    hide Extract, LatestIdentity, Owner, FirstResult, After, Judge;
    AgreesWithItsLog(logs, events[n], e);
    RecordedResultAnswers(logs, e, events[n]);
  }

  lemma {:induction false} AgreesWithItsLog(logs: Logs, r: RuntimeEvent, e: RuntimeEvent)
    requires Good(logs) && r in LogOf(logs, r.packetId) && Decodes(r) && Decodes(e) && IdentityOf(e) == IdentityOf(r)
    ensures LogDecodes(LogOf(logs, r.packetId)) && !ConflictingIdentity(LogOf(logs, r.packetId), IdentityOf(e))
  {
    hide Extract, ResultIsOwned;
    assert GoodLog(r.packetId, LogOf(logs, r.packetId));
  }

  lemma {:induction false} RecordedResultAnswers(logs: Logs, e: RuntimeEvent, recorded: RuntimeEvent)
    requires IsResult(e) && AllDecode(logs) && LogDecodes(LogOf(logs, e.packetId))
    requires !ConflictingIdentity(LogOf(logs, e.packetId), IdentityOf(e))
    requires Owner(LogOf(logs, e.packetId)).Some? && FirstResult(LogOf(logs, e.packetId)) == Some(recorded)
    ensures var id := IdentityOf(e); var worker := PayloadOf(e).workerId;
            var owns := worker.Some? && Owner(LogOf(logs, e.packetId)) == Some(worker);
            var newest := LatestIdentity(logs, id.taskId) == None || LatestIdentity(logs, id.taskId) == Some(id);
            Judge(logs, e) ==
            if !owns then Refuse(NotTheOwner)
            else if !newest then Refuse(StaleEpisode)
            else if PayloadOf(e) == PayloadOf(recorded) then Replay(recorded)
            else Refuse(ResultConflict)
  {
    hide Extract, LatestIdentity, Owner, FirstResult, ConflictingIdentity;
  }

  lemma {:induction false} OwnerAfterAcceptance(events: seq<RuntimeEvent>, n: int)
    requires AcceptsResult(events, n)
    ensures Owner(LogOf(After(events), events[n].packetId)).Some?
  {
    AcceptedResultIsFirst(events, n);
    PacketLogInvariant(events);
    hide Extract, Judge, Owner, FirstResult;
    var log := LogOf(After(events), events[n].packetId);
    var i :| 0 <= i < |log| && log[i] == events[n];
    assert GoodLog(events[n].packetId, log);
    assert ResultIsOwned(log, i);
    OwnerIsKept(log, i);
  }

  lemma {:induction false} OwnerIsKept(log: Log, i: nat)
    requires i <= |log| && Owner(log[..i]).Some?
    ensures Owner(log).Some?
  {
    hide Extract;
    if i == |log| {
      assert log[..i] == log;
    } else {
      var front := log[..|log| - 1];
      assert front[..i] == log[..i];
      OwnerIsKept(front, i);
    }
  }

  /** The same result offered again at once is answered with the event just recorded. */
  lemma {:induction false} RetryAtOnceIsReplayed(events: seq<RuntimeEvent>, e: RuntimeEvent)
    requires AcceptsResult(events, |events| - 1) && Extract(e).Ok?
    requires var r := events[|events| - 1]; e.packetId == r.packetId && PayloadOf(e) == PayloadOf(r)
    ensures Judge(After(events), e) == Replay(events[|events| - 1])
  {
    var n := |events| - 1;
    var r := events[n];
    PlanTypes(r);
    RetryAnswers(events, n, e);
    AcceptedResultOwnsTheFence(events, n);
    PacketLogInvariant(events[..n]);
    GoodIsCoherent(After(events[..n]));
    OwnerOfAcceptedResult(events);
    hide Extract, LatestIdentity, TypeOf, FirstResult, Judge, After, Owner;
    AddedResultKeepsTheLatest(After(events[..n]), r, IdentityOf(e).taskId);
  }

  lemma {:induction false} OwnerOfAcceptedResult(events: seq<RuntimeEvent>)
    requires AcceptsResult(events, |events| - 1)
    ensures var r := events[|events| - 1]; var before := After(events[..|events| - 1]);
            && After(events) == before[r.packetId := LogOf(before, r.packetId) + [r]]
            && PayloadOf(r).workerId.Some?
            && Owner(LogOf(After(events), r.packetId)) == Some(PayloadOf(r).workerId)
  {
    hide Extract, LatestIdentity, FirstResult, ConflictingIdentity;
    var r := events[|events| - 1];
    var log := LogOf(After(events[..|events| - 1]), r.packetId);
    assert (log + [r])[..|log|] == log;
  }

  /** A result added to a log opens no episode. */
  lemma {:induction false} AddedResultKeepsTheLatest(logs: Logs, r: RuntimeEvent, taskId: string)
    requires Coherent(logs) && AllDecode(logs) && IsResult(r)
    ensures var grown := logs[r.packetId := LogOf(logs, r.packetId) + [r]];
            LatestIdentity(grown, taskId) == LatestIdentity(logs, taskId)
  {
    var grown := logs[r.packetId := LogOf(logs, r.packetId) + [r]];
    PlanTypes(r);
    assert !OpensEpisode(r, taskId);
    SameCandidates(logs, r, taskId);
    hide Extract, TypeOf, Candidate, LatestPlan, LogOf;
    if LatestPlan(grown, taskId).Some? {
      var p, i := LatestPlanIsCandidate(grown, taskId);
      assert IsLatest(logs, taskId, p, i);
      LatestIdentityIsUnique(logs, taskId, grown[p][i]);
    } else if LatestPlan(logs, taskId).Some? {
      var p, i := LatestPlanIsCandidate(logs, taskId);
      LatestPlanExists(grown, taskId, p, i);
    }
  }

  lemma {:induction false} SameCandidates(logs: Logs, r: RuntimeEvent, taskId: string)
    requires !OpensEpisode(r, taskId)
    ensures var grown := logs[r.packetId := LogOf(logs, r.packetId) + [r]];
            && (forall p, i :: Candidate(logs, taskId, p, i) <==> Candidate(grown, taskId, p, i))
            && forall p, i :: Candidate(logs, taskId, p, i) ==>
                 && p in logs && 0 <= i < |logs[p]| && OpensEpisode(logs[p][i], taskId)
                 && p in grown && 0 <= i < |grown[p]| && grown[p][i] == logs[p][i]
  {
    hide OpensEpisode;
  }
}
