/** One persisted runtime cycle: the orchestrator's events, offered to the store one by one. */
module Checkpoint {
  import opened Wrappers
  import opened Text
  import opened Evidence
  import opened Engine
  import opened Orchestrator
  import opened EvidenceLogs
  import opened Store
  import opened Replay

  /** Offering events in order. */
  ghost function OfferAll(logs: Logs, events: seq<RuntimeEvent>): Logs {
    if events == [] then logs else Offer(OfferAll(logs, events[..|events| - 1]), events[|events| - 1])
  }

  /** No episode of the task has been opened with a greater key. */
  ghost predicate Newest(logs: Logs, k: Key, taskId: string) {
    forall p, i :: Candidate(logs, taskId, p, i) ==> !KeyLess(k, KeyOf(logs[p][i]))
  }

  lemma {:induction false} OwnerInEpisode(events: seq<RuntimeEvent>, id: Identity, worker: Option<string>, n: nat)
    requires Episode(events, id, worker) && 0 < n <= |events|
    ensures Owner(events[..n]) == Some(worker)
  {
    hide Extract;
    var prefix := events[..n];
    assert prefix[..n - 1] == events[..n - 1];
    if n > 1 {
      OwnerInEpisode(events, id, worker, n - 1);
    } else {
      PlanIsFirst(events[0]);
    }
  }

  lemma {:induction false} PlanIsFirst(e: RuntimeEvent)
    requires Decodes(e) && TypeOf(PayloadOf(e)).PlanCreated?
    ensures IsPlan(e)
  {
    ExtractedPayloadIsValid(e);
  }

  lemma {:induction false} ExtractedPayloadIsValid(e: RuntimeEvent)
    requires Decodes(e)
    ensures ValidPayload(PayloadOf(e))
  {
  }

  /** A front of an episode as a log, and the event behind it. */
  lemma {:induction false} FrontOfEpisode(events: seq<RuntimeEvent>, id: Identity, worker: Option<string>, n: nat)
    requires Episode(events, id, worker) && n < |events|
    ensures LogDecodes(events[..n]) && !ConflictingIdentity(events[..n], id) && FirstResult(events[..n]).None?
    ensures Decodes(events[n]) && IdentityOf(events[n]) == id && events[n].packetId == id.packetId
    ensures IsResult(events[n]) <==> n == |events| - 1
  {
    hide Extract, FirstResult;
  }

  lemma {:induction false} NonResultIsAppended(logs: Logs, log: Log, e: RuntimeEvent)
    requires Decodes(e) && !IsResult(e) && log == LogOf(logs, e.packetId) && LogDecodes(log)
    requires !ConflictingIdentity(log, IdentityOf(e))
    ensures Judge(logs, e).Append? && Offer(logs, e) == logs[e.packetId := log + [e]]
  {
  }

  /** All events before the result are accepted, whatever else the store holds. */
  lemma {:induction false} EpisodeIsAcceptedUpToItsResult(logs: Logs, events: seq<RuntimeEvent>, id: Identity,
                                                         worker: Option<string>, n: nat)
    requires Episode(events, id, worker) && id.packetId !in logs && n < |events|
    ensures OfferAll(logs, events[..n]) == if n == 0 then logs else logs[id.packetId := events[..n]]
    ensures n < |events| - 1 ==> Judge(OfferAll(logs, events[..n]), events[n]).Append?
  {
    hide Extract, Judge, Episode, Offer, ConflictingIdentity;
    if n > 0 {
      var prefix := events[..n];
      assert prefix[..n - 1] == events[..n - 1] && events[..n - 1] + [events[n - 1]] == prefix;
      EpisodeIsAcceptedUpToItsResult(logs, events, id, worker, n - 1);
      FrontOfEpisode(events, id, worker, n - 1);
      NonResultIsAppended(OfferAll(logs, events[..n - 1]), events[..n - 1], events[n - 1]);
    }
    if n < |events| - 1 {
      FrontOfEpisode(events, id, worker, n);
      NonResultIsAppended(OfferAll(logs, events[..n]), events[..n], events[n]);
    }
  }

  /** The fence of a store that holds a fresh episode. */
  lemma {:induction false} FenceOfFreshEpisode(
      logs: Logs, events: seq<RuntimeEvent>, id: Identity, worker: Option<string>, n: nat)
    requires Episode(events, id, worker) && id.packetId !in logs && 0 < n <= |events|
    requires Coherent(logs) && AllDecode(logs)
    ensures AllDecode(logs[id.packetId := events[..n]])
    ensures LatestIdentity(logs[id.packetId := events[..n]], id.taskId) == Some(id)
       <==> Newest(logs, KeyOf(events[0]), id.taskId)
    ensures LatestIdentity(logs[id.packetId := events[..n]], id.taskId).Some?
  {
    hide Extract, TypeOf;
    var after := logs[id.packetId := events[..n]];
    var t := id.taskId;
    assert after[id.packetId][0] == events[0];
    assert Candidate(after, t, id.packetId, 0);
    LatestPlanExists(after, t, id.packetId, 0);
    var p, i := LatestPlanIsCandidate(after, t);
    if Newest(logs, KeyOf(events[0]), t) {
      if p != id.packetId {
        assert Candidate(logs, t, p, i);
        KeyLessIsStrictTotal(KeyOf(events[0]), KeyOf(after[p][i]));
      }
    } else {
      var q, j :| Candidate(logs, t, q, j) && KeyLess(KeyOf(events[0]), KeyOf(logs[q][j]));
      assert Candidate(after, t, q, j);
      if p != id.packetId {
        assert IdentityOf(after[p][i]).packetId == p;
      }
    }
  }

  /** When the result of a fresh episode is accepted: exactly when a worker owns it, every log still decodes,
      and no newer episode of the task has been opened. */
  lemma {:induction false} ResultIsAcceptedExactlyWhen(
      logs: Logs, events: seq<RuntimeEvent>, id: Identity, worker: Option<string>)
    requires Episode(events, id, worker) && id.packetId !in logs && Coherent(logs)
    ensures var n := |events| - 1; var before := OfferAll(logs, events[..n]);
            && before == logs[id.packetId := events[..n]]
            && Judge(before, events[n]) ==
               (if worker.None? then Refuse(NotTheOwner)
                else if !AllDecode(logs) then Refuse(DecodeFailure)
                else if Newest(logs, KeyOf(events[0]), id.taskId) then Append
                else Refuse(StaleEpisode))
  {
    hide Extract, Owner, FirstResult, LatestIdentity, Episode, OfferAll, Newest, Coherent, WritebackError, Judge;
    var n := |events| - 1;
    EpisodeHasEvents(events, id, worker);
    EpisodeIsAcceptedUpToItsResult(logs, events, id, worker, n);
    FrontOfEpisode(events, id, worker, n);
    WritebackOfFreshEpisode(logs, events, id, worker);
    ResultWorker(events, id, worker);
    JudgeOfFirstResult(logs[id.packetId := events[..n]], events[..n], events[n]);
  }

  lemma {:induction false} ResultWorker(events: seq<RuntimeEvent>, id: Identity, worker: Option<string>)
    requires Episode(events, id, worker)
    ensures PayloadOf(events[|events| - 1]).workerId == worker
  {
    hide Extract;
  }

  /** The first result of a packet is appended unless writing it back is refused. */
  lemma {:induction false} JudgeOfFirstResult(logs: Logs, log: Log, e: RuntimeEvent)
    requires Decodes(e) && IsResult(e) && log == LogOf(logs, e.packetId) && LogDecodes(log)
    requires !ConflictingIdentity(log, IdentityOf(e)) && FirstResult(log).None?
    ensures var refusal := WritebackError(logs, IdentityOf(e), PayloadOf(e).workerId, log);
            Judge(logs, e) == if refusal.Some? then Refuse(refusal.value) else Append
  {
    hide Extract, WritebackError, FirstResult, ConflictingIdentity;
  }

  lemma {:induction false} WritebackOfFreshEpisode(
      logs: Logs, events: seq<RuntimeEvent>, id: Identity, worker: Option<string>)
    requires Episode(events, id, worker) && id.packetId !in logs && Coherent(logs)
    ensures |events| >= 2
    ensures var log := events[..|events| - 1];
            WritebackError(logs[id.packetId := log], id, worker, log) ==
            (if worker.None? then Some(NotTheOwner)
             else if !AllDecode(logs) then Some(DecodeFailure)
             else if Newest(logs, KeyOf(events[0]), id.taskId) then None
             else Some(StaleEpisode))
  {
    hide Extract, Owner, LatestIdentity, Newest, Coherent;
    var n := |events| - 1;
    OwnerInEpisode(events, id, worker, n);
    var before := logs[id.packetId := events[..n]];
    if AllDecode(logs) {
      FenceOfFreshEpisode(logs, events, id, worker, n);
    } else {
      var p :| p in logs && !LogDecodes(logs[p]);
      assert p in before && before[p] == logs[p];
    }
  }

  /** An accepted episode is exactly what the packet's log then holds, and replays without anomaly, with the
      terminal status of the run. */
  lemma {:induction false} AcceptedEpisodeReplays(events: seq<RuntimeEvent>, id: Identity, worker: Option<string>)
    requires Episode(events, id, worker)
    ensures LogDecodes(events)
    ensures ViewOf(events) ==
            Ok(EpisodeView(id, worker, TypesOf(events), Some(ResultOf(events).resultStatus)))
    ensures WholeEpisode(TypesOf(events))
  {
    hide Extract;
    var types := TypesOf(events);
    forall i | 0 <= i < |events|
      ensures types[i].ResultRecorded? <==> i == |types| - 1
    {
      TypeOfResult(events[i]);
    }
    assert types[0] == PlanCreated;
  }

  /** A fresh episode, once stored whole, may be promoted exactly when its result completed. */
  lemma {:induction false} EpisodeIsPromotableExactlyWhen(
      logs: Logs, events: seq<RuntimeEvent>, id: Identity, worker: Option<string>)
    requires Episode(events, id, worker) && id.packetId !in logs && Coherent(logs) && AllDecode(logs)
    requires worker.Some? && Newest(logs, KeyOf(events[0]), id.taskId)
    ensures Promotable(logs[id.packetId := events], id).Ok? <==> ResultOf(events).resultStatus.Completed?
  {
    hide Extract, Owner, LatestIdentity, AllDecode;
    var n := |events|;
    assert events[..n] == events;
    FenceOfFreshEpisode(logs, events, id, worker, n);
    OwnerInEpisode(events, id, worker, n);
    assert LogOf(logs[id.packetId := events], id.packetId) == events;
    assert IsResult(events[n - 1]);
    assert FirstResult(events) == Some(events[n - 1]);
  }

  datatype CheckpointError = PacketExists | RunRejected(e: RunError) | EvidenceRejected(s: StoreError)

  /** Offer events in order until one is refused: `done` of them were not. */
  method AppendAll(store: RuntimeStore, events: seq<RuntimeEvent>) returns (done: nat, refusal: Option<StoreError>)
    requires store.Valid()
    modifies store`evidence
    ensures store.Valid() && done <= |events|
    ensures store.evidence == OfferAll(old(store.evidence), events[..done])
    ensures forall i :: 0 <= i < done ==> !Judge(OfferAll(old(store.evidence), events[..i]), events[i]).Refuse?
    ensures if done == |events| then refusal.None?
            else refusal.Some? && Judge(store.evidence, events[done]) == Refuse(refusal.value)
  {
    hide Judge, Extract, Coherent, NamedReceipts;
    done, refusal := 0, None;
    while done < |events|
      invariant store.Valid() && done <= |events|
      invariant store.evidence == OfferAll(old(store.evidence), events[..done])
      invariant forall i :: 0 <= i < done ==> !Judge(OfferAll(old(store.evidence), events[..i]), events[i]).Refuse?
    {
      assert events[..done + 1][..done] == events[..done];
      var offered := store.AppendExecutionEvidence(events[done]);
      if offered.Err? {
        return done, Some(offered.error);
      }
      done := done + 1;
    }
  }

  /** `RuntimeExecutionCheckpointer.run`. A cycle on a fresh packet is recorded whole, and replays cleanly,
      exactly when its plan can be built, a worker is named, every log decodes and no newer episode of the task
      is open; a refused result leaves just the events before it in the packet's log. */
  method Run(store: RuntimeStore, q: Request, planId: string, stage: Option<Stage>, controller: nat -> Controller,
             stamp: nat -> Stamp)
    returns (r: Result<Orchestrator.Run, CheckpointError>)
    requires store.Valid() && !Blank(planId)
    modifies store`evidence, store`workers
    ensures store.Valid()
    ensures q.packetId in old(store.evidence) ==> r == Err(PacketExists)
    ensures q.packetId !in old(store.evidence) ==> (r.Err? && r.error.RunRejected? <==> BuildPlan(q, planId).Err?)
    ensures r.Err? && !r.error.EvidenceRejected? ==> store.evidence == old(store.evidence)
    ensures r.Err? && r.error.RunRejected? ==> r.error.e == EngineRejected(BuildPlan(q, planId).error)
    ensures r.Err? && r.error.EvidenceRejected? ==>
              r.error.s == if q.workerId == None then NotTheOwner
                           else if !AllDecode(old(store.evidence)) then DecodeFailure else StaleEpisode
    ensures r.Err? && r.error.EvidenceRejected? ==>
              exists run :: FaithfulRun(q, planId, stage, controller, stamp, run) &&
                store.evidence == old(store.evidence)[q.packetId := run.events[..|run.events| - 1]]
    ensures r.Ok? ==>
              && FaithfulRun(q, planId, stage, controller, stamp, r.value)
              && ReplaysWith(r.value.events, Identity(q.packetId, q.taskId, q.line, planId), q.workerId,
                             r.value.result.status)
    ensures r.Ok? ==> store.evidence == old(store.evidence)[q.packetId := r.value.events]
    ensures store.workers == if r.Ok? && r.value.finalWorker.Some? then
                               old(store.workers)[r.value.finalWorker.value.workerId := r.value.finalWorker.value]
                             else old(store.workers)
    ensures r.Ok? ==>
              (Promotable(store.evidence, Identity(q.packetId, q.taskId, q.line, planId)).Ok? <==>
                 r.value.result.status.Completed?)
    ensures r.Ok? <==>
              && q.packetId !in old(store.evidence) && BuildPlan(q, planId).Ok? && q.workerId.Some?
              && AllDecode(old(store.evidence))
              && Newest(old(store.evidence), Key(stamp(0).createdAt, q.packetId), q.taskId)
  {
    hide Coherent, FaithfulRun, ReplaysWith, BuildPlan, Episode, Judge, OfferAll, AllDecode, Newest, Promotable;
    if q.packetId in store.evidence {
      return Err(PacketExists);
    }
    ghost var logs := store.evidence;
    var run := Orchestrate(q, planId, stage, controller, stamp);
    if run.Err? {
      return Err(RunRejected(run.error));
    }
    var events := run.value.events;
    FaithfulRunIsEpisode(q, planId, stage, controller, stamp, run.value);
    var done, refusal := AppendAll(store, events);
    OffersOfEpisode(logs, events, Identity(q.packetId, q.taskId, q.line, planId), q.workerId, done, refusal);
    if refusal.Some? {
      return Err(EvidenceRejected(refusal.value));
    }
    EpisodeIsPromotableExactlyWhen(logs, events, Identity(q.packetId, q.taskId, q.line, planId), q.workerId);
    if run.value.finalWorker.Some? {
      store.SaveWorkerState(run.value.finalWorker.value);
    }
    r := Ok(run.value);
  }

  /** The events replay as one clean episode with the given terminal status. */
  ghost predicate ReplaysWith(events: seq<RuntimeEvent>, id: Identity, worker: Option<string>, status: Status) {
    && LogDecodes(events)
    && ViewOf(events) == Ok(EpisodeView(id, worker, TypesOf(events), Some(status)))
    && WholeEpisode(TypesOf(events))
  }

  lemma {:induction false} FaithfulRunIsEpisode(
      q: Request, planId: string, stage: Option<Stage>, controller: nat -> Controller, stamp: nat -> Stamp,
      run: Orchestrator.Run)
    requires FaithfulRun(q, planId, stage, controller, stamp, run)
    ensures var id := Identity(q.packetId, q.taskId, q.line, planId);
            && Episode(run.events, id, q.workerId)
            && |run.events| >= 2 && KeyOf(run.events[0]) == Key(stamp(0).createdAt, q.packetId)
            && ReplaysWith(run.events, id, q.workerId, run.result.status)
            && ResultOf(run.events).resultStatus == run.result.status
  {
    hide Extract, BuildPlan, RunResult, RecordsTrace, EndsAs;
    AcceptedEpisodeReplays(run.events, Identity(q.packetId, q.taskId, q.line, planId), q.workerId);
  }

  /** What offering a fresh episode until the first refusal leaves behind. */
  lemma {:induction false} OffersOfEpisode(
      logs: Logs, events: seq<RuntimeEvent>, id: Identity, worker: Option<string>, done: nat,
      refusal: Option<StoreError>)
    requires Episode(events, id, worker) && id.packetId !in logs && Coherent(logs) && done <= |events|
    requires forall i :: 0 <= i < done ==> !Judge(OfferAll(logs, events[..i]), events[i]).Refuse?
    requires if done == |events| then refusal.None?
             else refusal.Some? && Judge(OfferAll(logs, events[..done]), events[done]) == Refuse(refusal.value)
    ensures |events| >= 2
    ensures refusal == if worker.None? then Some(NotTheOwner)
                       else if !AllDecode(logs) then Some(DecodeFailure)
                       else if Newest(logs, KeyOf(events[0]), id.taskId) then None
                       else Some(StaleEpisode)
    ensures OfferAll(logs, events[..done]) ==
            logs[id.packetId := if refusal.None? then events else events[..|events| - 1]]
  {
    hide Extract, Judge, OfferAll, AllDecode, Newest, Coherent;
    var n := |events| - 1;
    EpisodeHasEvents(events, id, worker);
    hide Episode;
    if done < n {
      EpisodeIsAcceptedUpToItsResult(logs, events, id, worker, done);
    } else {
      ResultIsAcceptedExactlyWhen(logs, events, id, worker);
      OfferLast(logs, events);
    }
  }

  lemma {:induction false} EpisodeHasEvents(events: seq<RuntimeEvent>, id: Identity, worker: Option<string>)
    requires Episode(events, id, worker)
    ensures |events| >= 2 && events[0].packetId == id.packetId
  {
    hide Extract;
  }

  lemma {:induction false} OfferLast(logs: Logs, events: seq<RuntimeEvent>)
    requires events != []
    ensures OfferAll(logs, events) == Offer(OfferAll(logs, events[..|events| - 1]), events[|events| - 1])
    ensures events[..|events|] == events && events[..|events| - 1] + [events[|events| - 1]] == events
  {
    hide Judge;
  }
}
