/** The file-backed runtime store: one evidence log per packet, and one record per review, summary and receipt. */
module Store {
  import opened Wrappers
  import opened Text
  import opened Evidence
  import opened EvidenceLogs
  import Orchestrator

  datatype SummaryKind = TaskProgressSummary | TaskHandoff | LineCheckpoint | OtherSummary

  datatype Summary = Summary(summaryId: string, kind: SummaryKind, subject: Subject, identity: Identity,
                             entityId: string)

  datatype Review = Review(reviewId: string, taskId: string, identity: Identity, outcome: ReviewOutcome,
                           reasons: seq<string>)

  datatype Receipt = Receipt(receiptId: string, line: string, identity: Identity, reviewId: string,
                             taskSummaryId: string, lineSummaryId: string, checkpointToken: string,
                             recordedAt: string)

  datatype ControlEvent = ControlEvent(identity: Identity, receiptId: string, reviewId: string,
                                       taskSummaryId: string, lineSummaryId: string)

  /** Everything persisted, as a value. */
  datatype Records = Records(evidence: Logs, reviews: map<string, Review>, summaries: map<string, Summary>,
                             receipts: map<string, Receipt>, control: map<string, seq<ControlEvent>>)

  // ----- The latest receipt of an episode -----

  /** Receipt b comes after receipt a in the order `max` picks from: later, or as late under a smaller name. */
  predicate Supersedes(b: Receipt, a: Receipt) {
    Less(a.recordedAt, b.recordedAt) || (a.recordedAt == b.recordedAt && Less(b.receiptId, a.receiptId))
  }

  ghost predicate IsLatestReceipt(receipts: map<string, Receipt>, id: Identity, name: string) {
    && name in receipts && receipts[name].identity == id
    && forall other :: other in receipts && receipts[other].identity == id ==>
         !Supersedes(receipts[other], receipts[name])
  }

  /** Receipts are stored under their own id. */
  ghost predicate NamedReceipts(receipts: map<string, Receipt>) {
    forall name :: name in receipts ==> receipts[name].receiptId == name
  }

  ghost function LatestReceipt(receipts: map<string, Receipt>, id: Identity): (r: Option<Receipt>)
    ensures r.Some? ==> exists name :: IsLatestReceipt(receipts, id, name) && r == Some(receipts[name])
    ensures r.None? ==> !exists name :: IsLatestReceipt(receipts, id, name)
  {
    if name: string :| IsLatestReceipt(receipts, id, name) then Some(receipts[name]) else None
  }

  lemma {:induction false} LatestReceiptIsUnique(receipts: map<string, Receipt>, id: Identity, name: string)
    requires NamedReceipts(receipts) && IsLatestReceipt(receipts, id, name)
    ensures LatestReceipt(receipts, id) == Some(receipts[name])
  {
    var r := LatestReceipt(receipts, id);
    var other :| IsLatestReceipt(receipts, id, other) && r == Some(receipts[other]);
    LessIsTotal(receipts[name].recordedAt, receipts[other].recordedAt);
    LessIsTotal(name, other);
  }

  lemma {:induction false} SupersedesIsTransitive(c: Receipt, b: Receipt, a: Receipt)
    requires Supersedes(c, b) && !Supersedes(a, b)
    ensures Supersedes(c, a)
  {
    LessIsTotal(a.recordedAt, b.recordedAt);
    LessIsTotal(a.receiptId, b.receiptId);
    if Less(b.recordedAt, c.recordedAt) && Less(a.recordedAt, b.recordedAt) {
      LessIsTransitive(a.recordedAt, b.recordedAt, c.recordedAt);
    } else if b.recordedAt == c.recordedAt == a.recordedAt && a.receiptId != b.receiptId {
      LessIsTransitive(c.receiptId, b.receiptId, a.receiptId);
    }
  }

  class RuntimeStore {
    var evidence: Logs
    var reviews: map<string, Review>
    var summaries: map<string, Summary>
    var receipts: map<string, Receipt>
    var control: map<string, seq<ControlEvent>>
    var workers: map<string, Orchestrator.WorkerState>

    ghost predicate Valid()
      reads this
    {
      Coherent(evidence) && NamedReceipts(receipts)
    }

    ghost function View(): Records
      reads this
    {
      Records(evidence, reviews, summaries, receipts, control)
    }

    constructor ()
      ensures Valid() && View() == Records(map[], map[], map[], map[], map[]) && workers == map[]
    {
      evidence, reviews, summaries, receipts, control, workers := map[], map[], map[], map[], map[], map[];
    }

    method SaveReview(r: Review)
      modifies this`reviews
      ensures View() == old(View()).(reviews := old(reviews)[r.taskId := r])
    {
      reviews := reviews[r.taskId := r];
    }

    method LoadReview(taskId: string) returns (r: Result<Review, StoreError>)
      ensures r == if taskId in reviews then Ok(reviews[taskId]) else Err(NotFound)
    {
      r := if taskId in reviews then Ok(reviews[taskId]) else Err(NotFound);
    }

    method SaveSummary(s: Summary)
      modifies this`summaries
      ensures View() == old(View()).(summaries := old(summaries)[s.entityId := s])
    {
      summaries := summaries[s.entityId := s];
    }

    method LoadSummary(entityId: string) returns (r: Result<Summary, StoreError>)
      ensures r == if entityId in summaries then Ok(summaries[entityId]) else Err(NotFound)
    {
      r := if entityId in summaries then Ok(summaries[entityId]) else Err(NotFound);
    }

    method SaveReceipt(r: Receipt)
      requires Valid()
      modifies this`receipts
      ensures Valid() && View() == old(View()).(receipts := old(receipts)[r.receiptId := r])
    {
      receipts := receipts[r.receiptId := r];
    }

    method AppendControlEvent(e: ControlEvent)
      modifies this`control
      ensures View() == old(View()).(control := Appended(old(control), e))
    {
      var events := if e.identity.packetId in control then control[e.identity.packetId] else [];
      control := control[e.identity.packetId := events + [e]];
    }

    method SaveWorkerState(w: Orchestrator.WorkerState)
      modifies this`workers
      ensures workers == old(workers)[w.workerId := w]
    {
      workers := workers[w.workerId := w];
    }

    /** All stored events of a packet, unless one no longer decodes. */
    method LoadExecutionEvidence(packetId: string) returns (r: Result<Log, StoreError>)
      ensures r == if LogDecodes(LogOf(evidence, packetId)) then Ok(LogOf(evidence, packetId)) else Err(DecodeFailure)
    {
      hide Extract;
      var log := if packetId in evidence then evidence[packetId] else [];
      for i := 0 to |log|
        invariant forall j :: 0 <= j < i ==> Decodes(log[j])
      {
        if !Decodes(log[i]) {
          return Err(DecodeFailure);
        }
      }
      r := Ok(log);
    }

    /** The files are visited in any order; the candidates are compared by (created_at, packet_id). */
    method LatestExecutionIdentity(taskId: string) returns (r: Result<Option<Identity>, StoreError>)
      requires Valid()
      ensures r == if AllDecode(evidence) then Ok(LatestIdentity(evidence, taskId)) else Err(DecodeFailure)
    {
      hide Extract, TypeOf, LogDecodes;
      var candidates: seq<RuntimeEvent> := [];
      var remaining := evidence.Keys;
      while remaining != {}
        invariant remaining <= evidence.Keys
        invariant forall p :: p in evidence && p !in remaining ==> LogDecodes(evidence[p])
        invariant forall e :: e in candidates <==>
                    exists p, i :: p !in remaining && Candidate(evidence, taskId, p, i) && evidence[p][i] == e
      {
        var p :| p in remaining;
        var loaded := LoadExecutionEvidence(p);
        if loaded.Err? {
          return Err(DecodeFailure);
        }
        var found := EpisodesOpened(loaded.value, taskId);
        remaining := remaining - {p};
        candidates := candidates + found;
      }
      if LatestPlan(evidence, taskId).Some? {
        ghost var p, i := LatestPlanIsCandidate(evidence, taskId);
        assert evidence[p][i] in candidates;
      }
      if candidates == [] {
        return Ok(None);
      }
      var best := FirstMaximum(candidates);
      assert IsLatestEvent(evidence, taskId, best);
      LatestIdentityIsUnique(evidence, taskId, best);
      r := Ok(Some(IdentityOf(best)));
    }

    method ValidateResultWriteback(id: Identity, worker: Option<string>, existing: Log)
      returns (r: Option<StoreError>)
      requires Valid()
      ensures r == WritebackError(evidence, id, worker, existing)
    {
      hide Extract;
      var owner: Option<Option<string>> := None;
      for i := 0 to |existing|
        invariant owner == Owner(existing[..i])
      {
        assert existing[..i + 1][..i] == existing[..i];
        if IsPlan(existing[i]) {
          owner := Some(PayloadOf(existing[i]).workerId);
        }
      }
      assert existing[..|existing|] == existing;
      if owner.None? {
        return Some(MissingPlan);
      }
      if owner.value.None? || worker != owner.value {
        return Some(NotTheOwner);
      }
      var latest := LatestExecutionIdentity(id.taskId);
      if latest.Err? {
        return Some(latest.error);
      }
      r := if latest.value.Some? && latest.value.value != id then Some(StaleEpisode) else None;
    }

    /** `append_execution_evidence`: what the store must do with any event offered to it. */
    method AppendExecutionEvidence(e: RuntimeEvent) returns (r: Result<RuntimeEvent, StoreError>)
      requires Valid()
      modifies this`evidence
      ensures Valid() && View() == old(View()).(evidence := Offer(old(evidence), e))
      ensures r == match Judge(old(evidence), e)
                   case Append => Ok(e)
                   case Replay(recorded) => Ok(recorded)
                   case Refuse(error) => Err(error)
      ensures r.Ok? ==> Extract(e).Ok? && Extract(r.value) == Extract(e)
      ensures r.Ok? ==> e.packetId in evidence && r.value in evidence[e.packetId]
    {
      hide Extract, WritebackError;
      if !Decodes(e) {
        return Err(BadEvidence);
      }
      var id := IdentityOf(e);
      var loaded := LoadExecutionEvidence(e.packetId);
      if loaded.Err? {
        return Err(DecodeFailure);
      }
      var existing := loaded.value;
      for i := 0 to |existing|
        invariant forall j :: 0 <= j < i ==> IdentityOf(existing[j]) == id
      {
        if IdentityOf(existing[i]) != id {
          return Err(IdentityConflict);
        }
      }
      if IsResult(e) {
        var refusal := ValidateResultWriteback(id, PayloadOf(e).workerId, existing);
        if refusal.Some? {
          return Err(refusal.value);
        }
        for i := 0 to |existing|
          invariant FirstResult(existing) == FirstResult(existing[i..])
        {
          assert existing[i..][1..] == existing[i + 1..];
          if IsResult(existing[i]) {
            return if PayloadOf(existing[i]) == PayloadOf(e) then Ok(existing[i]) else Err(ResultConflict);
          }
        }
      }
      AppendKeepsCoherent(evidence, e);
      evidence := evidence[e.packetId := existing + [e]];
      r := Ok(e);
    }

    /** `validate_promotable_execution`: the current episode's single successful result. */
    method ValidatePromotableExecution(id: Identity) returns (r: Result<Payload, StoreError>)
      requires Valid()
      ensures r == Promotable(evidence, id)
    {
      hide Extract, WritebackError;
      var loaded := LoadExecutionEvidence(id.packetId);
      if loaded.Err? {
        return Err(DecodeFailure);
      }
      var events := loaded.value;
      var results: seq<RuntimeEvent> := [];
      for i := 0 to |events|
        invariant forall j :: 0 <= j < i ==> IdentityOf(events[j]) == id
        invariant results == ResultsOf(events[..i])
      {
        assert events[..i + 1][..i] == events[..i];
        if IdentityOf(events[i]) != id {
          return Err(PromotionMismatch);
        }
        if IsResult(events[i]) {
          results := results + [events[i]];
        }
      }
      assert events[..|events|] == events;
      OneResultExactlyWhen(events);
      if |results| != 1 {
        return Err(NotExactlyOneResult);
      }
      var result := PayloadOf(results[0]);
      var refusal := ValidateResultWriteback(id, result.workerId, events);
      if refusal.Some? {
        return Err(refusal.value);
      }
      r := if result.resultStatus.Completed? then Ok(result) else Err(NotCompleted);
    }

    /** The receipts of an episode in name order, then the latest by recording time: the first of equals wins. */
    method LatestPromotionReceipt(id: Identity) returns (r: Option<Receipt>)
      requires Valid()
      ensures r == LatestReceipt(receipts, id)
    {
      r := None;
      ghost var name := "";
      var remaining := receipts.Keys;
      while remaining != {}
        invariant remaining <= receipts.Keys
        invariant r.None? ==> forall n :: n in receipts && n !in remaining ==> receipts[n].identity != id
        invariant r.Some? ==> name in receipts && r.value == receipts[name] && r.value.identity == id
        invariant r.Some? ==> forall n :: n in receipts && n !in remaining && receipts[n].identity == id ==>
                    !Supersedes(receipts[n], r.value)
      {
        var n :| n in remaining;
        remaining := remaining - {n};
        LessIsIrreflexive(receipts[n].recordedAt);
        LessIsIrreflexive(n);
        if receipts[n].identity == id && (r.None? || Supersedes(receipts[n], r.value)) {
          if r.Some? {
            forall m | m in receipts && m !in remaining && m != n && receipts[m].identity == id
              ensures !Supersedes(receipts[m], receipts[n])
            {
              SupersedingIsAsymmetric(receipts[m], receipts[n], r.value);
            }
          }
          name := n;
          r := Some(receipts[n]);
        }
      }
      if r.Some? {
        assert IsLatestReceipt(receipts, id, name);
        LatestReceiptIsUnique(receipts, id, name);
      } else {
        assert LatestReceipt(receipts, id).None?;
      }
    }
  }

  lemma {:induction false} SupersedingIsAsymmetric(a: Receipt, b: Receipt, best: Receipt)
    requires !Supersedes(a, best) && Supersedes(b, best)
    ensures !Supersedes(a, b)
  {
    SupersedesIsTransitive(b, best, a);
    if Supersedes(a, b) {
      if Less(b.recordedAt, a.recordedAt) {
        LessIsAsymmetric(b.recordedAt, a.recordedAt);
        LessIsIrreflexive(a.recordedAt);
      } else {
        LessIsIrreflexive(a.recordedAt);
        LessIsAsymmetric(a.receiptId, b.receiptId);
      }
    }
  }

  function Appended(control: map<string, seq<ControlEvent>>, e: ControlEvent): map<string, seq<ControlEvent>> {
    var p := e.identity.packetId;
    control[p := (if p in control then control[p] else []) + [e]]
  }

  lemma {:induction false} AppendKeepsCoherent(logs: Logs, e: RuntimeEvent)
    requires Coherent(logs) && Decodes(e) && LogDecodes(LogOf(logs, e.packetId))
    requires !ConflictingIdentity(LogOf(logs, e.packetId), IdentityOf(e))
    ensures Coherent(logs[e.packetId := LogOf(logs, e.packetId) + [e]])
  {
    hide Extract;
    var log := LogOf(logs, e.packetId);
    assert forall i :: 0 <= i < |log| ==> Decodes(log[i]) && IdentityOf(log[i]) == IdentityOf(e);
  }

  /** The `plan_created` events of a task in one log. */
  method EpisodesOpened(log: Log, taskId: string) returns (found: seq<RuntimeEvent>)
    ensures forall e :: e in found <==> exists i :: 0 <= i < |log| && log[i] == e && OpensEpisode(e, taskId)
  {
    hide OpensEpisode;
    found := [];
    for i := 0 to |log|
      invariant forall e :: e in found <==> exists j :: 0 <= j < i && log[j] == e && OpensEpisode(e, taskId)
    {
      if OpensEpisode(log[i], taskId) {
        found := found + [log[i]];
      }
    }
  }

  /** `max` over a list: the first of the candidates no other candidate exceeds. */
  method FirstMaximum(candidates: seq<RuntimeEvent>) returns (best: RuntimeEvent)
    requires candidates != []
    ensures best in candidates
    ensures forall e :: e in candidates ==> !KeyLess(KeyOf(best), KeyOf(e))
  {
    best := candidates[0];
    KeyLessIsStrictTotal(KeyOf(best), KeyOf(best));
    for i := 1 to |candidates|
      invariant best in candidates
      invariant forall j :: 0 <= j < i ==> !KeyLess(KeyOf(best), KeyOf(candidates[j]))
    {
      if KeyLess(KeyOf(best), KeyOf(candidates[i])) {
        forall j | 0 <= j < i ensures !KeyLess(KeyOf(candidates[i]), KeyOf(candidates[j])) {
          KeyLessIsStrictTotal(KeyOf(best), KeyOf(candidates[i]));
          KeyLessIsTransitive(KeyOf(candidates[j]), KeyOf(best), KeyOf(candidates[i]));
        }
        best := candidates[i];
        KeyLessIsStrictTotal(KeyOf(best), KeyOf(best));
      }
    }
  }

  function ResultsOf(log: Log): seq<RuntimeEvent> {
    if log == [] then []
    else
      ResultsOf(log[..|log| - 1]) + if IsResult(log[|log| - 1]) then [log[|log| - 1]] else []
  }

  lemma {:induction false} ResultsOfFront(log: Log)
    ensures ResultsOf(log) == [] <==> FirstResult(log).None?
    ensures ResultsOf(log) != [] ==> Some(ResultsOf(log)[0]) == FirstResult(log)
    ensures |ResultsOf(log)| >= 2 <==> exists i, j :: 0 <= i < j < |log| && IsResult(log[i]) && IsResult(log[j])
  {
    hide IsResult;
    if log != [] {
      var front := log[..|log| - 1];
      ResultsOfFront(front);
      FirstResultOfFront(log);
      forall i, j | 0 <= i < j < |log| && IsResult(log[i]) && IsResult(log[j])
        ensures |ResultsOf(log)| >= 2
      {
        assert front[i] == log[i];
        assert FirstResult(front).Some?;
        if j < |front| {
          assert front[j] == log[j];
        }
      }
      if |ResultsOf(log)| >= 2 && |ResultsOf(front)| < 2 {
        assert FirstResult(front).Some?;
        var i :| 0 <= i < |front| && IsResult(front[i]);
        assert IsResult(log[i]) && IsResult(log[|log| - 1]);
      } else if |ResultsOf(front)| >= 2 {
        var i, j :| 0 <= i < j < |front| && IsResult(front[i]) && IsResult(front[j]);
        assert IsResult(log[i]) && IsResult(log[j]);
      }
    }
  }

  lemma {:induction false} FirstResultOfFront(log: Log)
    requires log != []
    ensures FirstResult(log) ==
            if FirstResult(log[..|log| - 1]).Some? then FirstResult(log[..|log| - 1])
            else if IsResult(log[|log| - 1]) then Some(log[|log| - 1]) else None
  {
    hide IsResult;
    var front := log[..|log| - 1];
    if front != [] && !IsResult(log[0]) {
      assert log[1..][..|log[1..]| - 1] == front[1..];
      FirstResultOfFront(log[1..]);
    }
  }

  lemma {:induction false} OneResultExactlyWhen(log: Log)
    ensures |ResultsOf(log)| == 1 <==>
            FirstResult(log).Some? && !exists i, j :: 0 <= i < j < |log| && IsResult(log[i]) && IsResult(log[j])
    ensures |ResultsOf(log)| == 1 ==> FirstResult(log) == Some(ResultsOf(log)[0])
    ensures |ResultsOf(log)| != 1 ==>
              FirstResult(log).None? || exists i, j :: 0 <= i < j < |log| && IsResult(log[i]) && IsResult(log[j])
  {
    ResultsOfFront(log);
  }
}
