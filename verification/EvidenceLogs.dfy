/** Per-packet evidence logs as values: when an append is accepted, and which episode is a task's latest. */
module EvidenceLogs {
  import opened Wrappers
  import opened Text
  import opened Evidence

  type Log = seq<RuntimeEvent>

  type Logs = map<string, Log>

  function LogOf(logs: Logs, packetId: string): Log {
    if packetId in logs then logs[packetId] else []
  }

  predicate LogDecodes(log: Log) {
    forall i :: 0 <= i < |log| ==> Decodes(log[i])
  }

  /** No log holds an event that no longer decodes. */
  predicate AllDecode(logs: Logs) {
    forall p :: p in logs ==> LogDecodes(logs[p])
  }

  /** Every event of a decodable log belongs to the log's packet, and all share one identity. */
  ghost predicate Coherent(logs: Logs) {
    forall p, i :: p in logs && LogDecodes(logs[p]) && 0 <= i < |logs[p]| ==>
      logs[p][i].packetId == p && IdentityOf(logs[p][i]) == IdentityOf(logs[p][0])
  }

  // ----- The latest episode of a task -----

  datatype Key = Key(createdAt: string, packetId: string)

  predicate KeyLess(a: Key, b: Key) {
    Less(a.createdAt, b.createdAt) || (a.createdAt == b.createdAt && Less(a.packetId, b.packetId))
  }

  function KeyOf(e: RuntimeEvent): Key { Key(e.createdAt, e.packetId) }

  lemma {:induction false} KeyLessIsStrictTotal(a: Key, b: Key)
    ensures KeyLess(a, b) || a == b || KeyLess(b, a)
    ensures !(KeyLess(a, b) && KeyLess(b, a)) && !KeyLess(a, a)
  {
    LessIsTotal(a.createdAt, b.createdAt);
    LessIsTotal(a.packetId, b.packetId);
    LessIsIrreflexive(a.createdAt);
    LessIsIrreflexive(a.packetId);
    if Less(a.createdAt, b.createdAt) {
      LessIsAsymmetric(a.createdAt, b.createdAt);
    }
    if Less(a.packetId, b.packetId) {
      LessIsAsymmetric(a.packetId, b.packetId);
    }
  }

  lemma {:induction false} KeyLessIsTransitive(a: Key, b: Key, c: Key)
    requires !KeyLess(b, a) && !KeyLess(c, b)
    ensures !KeyLess(c, a)
    ensures KeyLess(a, b) || KeyLess(b, c) ==> KeyLess(a, c)
  {
    KeyLessIsStrictTotal(a, b);
    KeyLessIsStrictTotal(b, c);
    KeyLessIsStrictTotal(a, c);
    if KeyLess(a, b) && KeyLess(b, c) {
      if Less(a.createdAt, b.createdAt) && Less(b.createdAt, c.createdAt) {
        LessIsTransitive(a.createdAt, b.createdAt, c.createdAt);
      } else if a.createdAt == b.createdAt == c.createdAt {
        LessIsTransitive(a.packetId, b.packetId, c.packetId);
      }
    }
  }

  /** A `plan_created` event of the task. */
  predicate OpensEpisode(e: RuntimeEvent, taskId: string) {
    Decodes(e) && TypeOf(PayloadOf(e)).PlanCreated? && PayloadOf(e).taskId == taskId
  }

  ghost predicate Candidate(logs: Logs, taskId: string, p: string, i: int) {
    p in logs && 0 <= i < |logs[p]| && OpensEpisode(logs[p][i], taskId)
  }

  ghost predicate IsLatest(logs: Logs, taskId: string, p: string, i: int) {
    && Candidate(logs, taskId, p, i)
    && forall q, j :: Candidate(logs, taskId, q, j) ==> !KeyLess(KeyOf(logs[p][i]), KeyOf(logs[q][j]))
  }

  ghost predicate IsLatestEvent(logs: Logs, taskId: string, e: RuntimeEvent) {
    exists p, i :: IsLatest(logs, taskId, p, i) && logs[p][i] == e
  }

  /** Some `plan_created` event of the task with the greatest (created_at, packet_id), if there is any. */
  ghost function LatestPlan(logs: Logs, taskId: string): (latest: Option<RuntimeEvent>)
    ensures latest.Some? ==> IsLatestEvent(logs, taskId, latest.value)
  {
    if e: RuntimeEvent :| IsLatestEvent(logs, taskId, e) then Some(e) else None
  }

  ghost function KeyAt(logs: Logs, c: (string, int)): Key
    requires c.0 in logs && 0 <= c.1 < |logs[c.0]|
  {
    KeyOf(logs[c.0][c.1])
  }

  lemma {:induction false} FiniteMaximum(logs: Logs, cs: set<(string, int)>) returns (m: (string, int))
    requires cs != {} && forall c :: c in cs ==> c.0 in logs && 0 <= c.1 < |logs[c.0]|
    ensures m in cs && forall c :: c in cs ==> !KeyLess(KeyAt(logs, m), KeyAt(logs, c))
  {
    var x :| x in cs;
    var rest := cs - {x};
    m := x;
    if rest != {} {
      m := FiniteMaximum(logs, rest);
      KeyLessIsStrictTotal(KeyAt(logs, x), KeyAt(logs, m));
      if KeyLess(KeyAt(logs, m), KeyAt(logs, x)) {
        forall c | c in rest ensures !KeyLess(KeyAt(logs, x), KeyAt(logs, c)) {
          KeyLessIsTransitive(KeyAt(logs, c), KeyAt(logs, m), KeyAt(logs, x));
        }
        m := x;
      }
    }
    KeyLessIsStrictTotal(KeyAt(logs, x), KeyAt(logs, x));
    forall c | c in cs ensures !KeyLess(KeyAt(logs, m), KeyAt(logs, c)) {
      assert c == x || c in rest;
    }
  }

  /** A task with an opened episode has a latest one. */
  lemma {:induction false} LatestPlanExists(logs: Logs, taskId: string, p: string, i: int)
    requires Candidate(logs, taskId, p, i)
    ensures LatestPlan(logs, taskId).Some?
    ensures !KeyLess(KeyOf(LatestPlan(logs, taskId).value), KeyOf(logs[p][i]))
  {
    hide OpensEpisode;
    var cs := set q, j | q in logs && 0 <= j < |logs[q]| && OpensEpisode(logs[q][j], taskId) :: (q, j);
    assert (p, i) in cs;
    var m := FiniteMaximum(logs, cs);
    forall q, j | Candidate(logs, taskId, q, j)
      ensures !KeyLess(KeyOf(logs[m.0][m.1]), KeyOf(logs[q][j]))
    {
      assert (q, j) in cs;
    }
    assert IsLatest(logs, taskId, m.0, m.1);
    assert IsLatestEvent(logs, taskId, logs[m.0][m.1]);
  }

  lemma {:induction false} LatestPlanIsCandidate(logs: Logs, taskId: string) returns (p: string, i: int)
    requires LatestPlan(logs, taskId).Some?
    ensures IsLatest(logs, taskId, p, i) && logs[p][i] == LatestPlan(logs, taskId).value
  {
    p, i :| IsLatest(logs, taskId, p, i) && logs[p][i] == LatestPlan(logs, taskId).value;
  }

  /** The chosen identity does not depend on the order in which files or events are visited: equal keys occur
      only inside one packet, whose events share one identity. */
  lemma {:induction false} LatestIdentityIsUnique(logs: Logs, taskId: string, e: RuntimeEvent)
    requires Coherent(logs) && AllDecode(logs) && IsLatestEvent(logs, taskId, e)
    ensures LatestPlan(logs, taskId).Some?
    ensures IdentityOf(e) == IdentityOf(LatestPlan(logs, taskId).value)
  {
    hide Extract, TypeOf;
    var p, i :| IsLatest(logs, taskId, p, i) && logs[p][i] == e;
    LatestPlanExists(logs, taskId, p, i);
    var q, j := LatestPlanIsCandidate(logs, taskId);
    KeyLessIsStrictTotal(KeyOf(e), KeyOf(logs[q][j]));
    assert p == q;
  }

  ghost function LatestIdentity(logs: Logs, taskId: string): Option<Identity> {
    match LatestPlan(logs, taskId)
    case None => None
    case Some(e) => Some(IdentityOf(e))
  }

  // ----- Accepting an append -----

  predicate IsPlan(e: RuntimeEvent) { Decodes(e) && PayloadOf(e).PlanPayload? }

  predicate IsResult(e: RuntimeEvent) { Decodes(e) && PayloadOf(e).ResultPayload? }

  /** The worker named by the last plan payload of a log, if the log has one. */
  function Owner(log: Log): Option<Option<string>> {
    if log == [] then None
    else
      var last := log[|log| - 1];
      if IsPlan(last) then Some(PayloadOf(last).workerId) else Owner(log[..|log| - 1])
  }

  function FirstResult(log: Log): (r: Option<RuntimeEvent>)
    ensures r.None? <==> forall i :: 0 <= i < |log| ==> !IsResult(log[i])
    ensures r.Some? ==> IsResult(r.value) && r.value in log
  {
    if log == [] then None
    else if IsResult(log[0]) then Some(log[0])
    else
      assert forall i :: 0 < i < |log| ==> log[i] == log[1..][i - 1];
      FirstResult(log[1..])
  }

  datatype StoreError =
    | BadEvidence | DecodeFailure | IdentityConflict | MissingPlan | NotTheOwner | StaleEpisode | ResultConflict
    | NotFound | PromotionMismatch | NotExactlyOneResult | NotCompleted

  /** Why a result may not be written back for an episode, if there is a reason. */
  ghost function WritebackError(logs: Logs, id: Identity, worker: Option<string>, existing: Log): Option<StoreError> {
    if Owner(existing).None? then Some(MissingPlan)
    else if Owner(existing).value.None? || worker != Owner(existing).value then Some(NotTheOwner)
    else if !AllDecode(logs) then Some(DecodeFailure)
    else if LatestIdentity(logs, id.taskId).Some? && LatestIdentity(logs, id.taskId).value != id then Some(StaleEpisode)
    else None
  }

  datatype Verdict = Append | Replay(recorded: RuntimeEvent) | Refuse(error: StoreError)

  ghost predicate ConflictingIdentity(log: Log, id: Identity) {
    exists i :: 0 <= i < |log| && Decodes(log[i]) && IdentityOf(log[i]) != id
  }

  /** What offering an event to the store must do. */
  ghost function Judge(logs: Logs, e: RuntimeEvent): Verdict {
    if !Decodes(e) then Refuse(BadEvidence)
    else
      var log := LogOf(logs, e.packetId);
      var id := IdentityOf(e);
      if !LogDecodes(log) then Refuse(DecodeFailure)
      else if ConflictingIdentity(log, id) then Refuse(IdentityConflict)
      else if !IsResult(e) then Append
      else
        match WritebackError(logs, id, PayloadOf(e).workerId, log)
        case Some(error) => Refuse(error)
        case None =>
          match FirstResult(log)
          case None => Append
          case Some(recorded) =>
            if PayloadOf(recorded) == PayloadOf(e) then Replay(recorded) else Refuse(ResultConflict)
  }

  /** The logs after an event was offered: only an accepted event is added, and only to its own packet. */
  ghost function Offer(logs: Logs, e: RuntimeEvent): Logs {
    if Judge(logs, e).Append? then logs[e.packetId := LogOf(logs, e.packetId) + [e]] else logs
  }

  /** Why an episode may not be promoted, if there is a reason; otherwise its one completed result. */
  ghost function Promotable(logs: Logs, id: Identity): Result<Payload, StoreError> {
    var log := LogOf(logs, id.packetId);
    if !LogDecodes(log) then Err(DecodeFailure)
    else if ConflictingIdentity(log, id) then Err(PromotionMismatch)
    else
      match FirstResult(log)
      case None => Err(NotExactlyOneResult)
      case Some(e) =>
        if exists i, j :: 0 <= i < j < |log| && IsResult(log[i]) && IsResult(log[j]) then Err(NotExactlyOneResult)
        else
          match WritebackError(logs, id, PayloadOf(e).workerId, log)
          case Some(error) => Err(error)
          case None => if PayloadOf(e).resultStatus.Completed? then Ok(PayloadOf(e)) else Err(NotCompleted)
  }

  // ----- What is answered, condition by condition -----

  /** A `plan_created` or `plan_approved` event. */
  predicate PlansEpisode(e: RuntimeEvent) {
    Extract(e).Ok? && (TypeOf(Extract(e).value).PlanCreated? || TypeOf(Extract(e).value).PlanApproved?)
  }

  predicate RecordsResult(e: RuntimeEvent) {
    Extract(e).Ok? && TypeOf(Extract(e).value).ResultRecorded?
  }

  /** The one result of a log is at n. */
  predicate OneResultAt(log: Log, n: int) {
    0 <= n < |log| && RecordsResult(log[n]) && forall k :: 0 <= k < |log| && RecordsResult(log[k]) ==> k == n
  }

  /** The owner is the worker of the last plan event. */
  lemma {:induction false} OwnerIsOfTheLastPlan(log: Log, i: int)
    requires 0 <= i < |log| && PlansEpisode(log[i]) && forall j :: i < j < |log| ==> !PlansEpisode(log[j])
    ensures Owner(log) == Some(PayloadOf(log[i]).workerId)
  {
    hide Extract, PlansEpisode;
    var n := |log| - 1;
    PlanTypes(log[n]);
    if i < n {
      OwnerIsOfTheLastPlan(log[..n], i);
    }
  }

  lemma {:induction false} OwnedExactlyWhenPlanned(log: Log)
    ensures Owner(log).None? <==> forall i :: 0 <= i < |log| ==> !PlansEpisode(log[i])
  {
    hide Extract, PlansEpisode;
    if log != [] {
      var n := |log| - 1;
      PlanTypes(log[n]);
      OwnedExactlyWhenPlanned(log[..n]);
      assert forall i :: 0 <= i < n ==> log[..n][i] == log[i];
    }
  }

  lemma {:induction false} PlanTypes(e: RuntimeEvent)
    ensures PlansEpisode(e) <==> IsPlan(e)
    ensures RecordsResult(e) <==> IsResult(e)
  {
  }

  /** An episode of a task is opened by a decodable `plan_created` event of that task. */
  lemma {:induction false} OpenedEpisodes(logs: Logs, taskId: string, p: string, i: int)
    ensures Candidate(logs, taskId, p, i) <==>
            p in logs && 0 <= i < |logs[p]| && Extract(logs[p][i]).Ok?
            && TypeOf(PayloadOf(logs[p][i])) == PlanCreated && PayloadOf(logs[p][i]).taskId == taskId
  {
  }

  /** The latest identity is that of a `plan_created` event of the task that no other one follows: by its creation
      time, and at the same time by its packet. */
  lemma {:induction false} LatestIdentityIsNewest(logs: Logs, taskId: string)
    ensures LatestIdentity(logs, taskId).None? ==> forall p, i :: !Candidate(logs, taskId, p, i)
    ensures LatestIdentity(logs, taskId).Some? ==>
              exists p, i :: Candidate(logs, taskId, p, i)
                && LatestIdentity(logs, taskId) == Some(IdentityOf(logs[p][i]))
                && forall q, j :: Candidate(logs, taskId, q, j) ==>
                     var a, b := logs[p][i], logs[q][j];
                     !Less(a.createdAt, b.createdAt) && !(a.createdAt == b.createdAt && Less(a.packetId, b.packetId))
  {
    hide Extract, TypeOf, OpensEpisode;
    if LatestIdentity(logs, taskId).Some? {
      var p, i := LatestPlanIsCandidate(logs, taskId);
    } else {
      forall p, i | Candidate(logs, taskId, p, i) ensures false {
        LatestPlanExists(logs, taskId, p, i);
        assert false;
      }
    }
  }

  /** Why a result may not be written back: there is no plan, the last plan is of another worker or of none, some log
      no longer decodes, or another episode is the latest — the first of these that holds. */
  lemma {:induction false} WritebackAnswers(logs: Logs, id: Identity, worker: Option<string>, log: Log)
    ensures var r := WritebackError(logs, id, worker, log); var latest := LatestIdentity(logs, id.taskId);
            var unowned := Owner(log) != Some(worker) || worker.None?;
            && (r == Some(MissingPlan) <==> forall i :: 0 <= i < |log| ==> !PlansEpisode(log[i]))
            && (r == Some(NotTheOwner) <==> Owner(log).Some? && unowned)
            && (r == Some(DecodeFailure) <==>
                  !unowned && exists p, i :: p in logs && 0 <= i < |logs[p]| && Extract(logs[p][i]).Err?)
            && (r == Some(StaleEpisode) <==> !unowned && AllDecode(logs) && latest.Some? && latest != Some(id))
            && (r == None <==> !unowned && AllDecode(logs) && (latest == None || latest == Some(id)))
  {
    OwnedExactlyWhenPlanned(log);
    hide Extract, Owner, LatestIdentity, PlansEpisode;
  }

  /** What offering an event answers, by the first condition that holds. */
  lemma {:induction false} AppendAnswers(logs: Logs, e: RuntimeEvent)
    ensures var v := Judge(logs, e); var log := if e.packetId in logs then logs[e.packetId] else [];
            var decodes := forall i :: 0 <= i < |log| ==> Extract(log[i]).Ok?;
            && (Extract(e).Err? ==> v == Refuse(BadEvidence))
            && (Extract(e).Ok? && !decodes ==> v == Refuse(DecodeFailure))
            && (Extract(e).Ok? && decodes ==>
                  var same := forall i :: 0 <= i < |log| ==> IdentityOf(log[i]) == IdentityOf(e);
                  var refusal := WritebackError(logs, IdentityOf(e), PayloadOf(e).workerId, log);
                  && (!same ==> v == Refuse(IdentityConflict))
                  && (same && !RecordsResult(e) ==> v == Append)
                  && (same && RecordsResult(e) && refusal.Some? ==> v == Refuse(refusal.value))
                  && (same && RecordsResult(e) && refusal.None? ==>
                        && (v == Append <==> forall i :: 0 <= i < |log| ==> !RecordsResult(log[i]))
                        && (v.Refuse? ==> v.error == ResultConflict)
                        && (forall i :: 0 <= i < |log| && RecordsResult(log[i])
                                        && (forall j :: 0 <= j < i ==> !RecordsResult(log[j])) ==>
                              v == if PayloadOf(log[i]) == PayloadOf(e) then Replay(log[i])
                                   else Refuse(ResultConflict))))
  {
    hide Extract, WritebackError, RecordsResult;
    var log := LogOf(logs, e.packetId);
    PlanTypes(e);
    forall i | 0 <= i < |log| ensures RecordsResult(log[i]) <==> IsResult(log[i]) {
      PlanTypes(log[i]);
    }
    FirstResultIsFirst(log);
  }

  lemma {:induction false} FirstResultIsFirst(log: Log)
    ensures forall i :: 0 <= i < |log| && IsResult(log[i]) && (forall j :: 0 <= j < i ==> !IsResult(log[j])) ==>
              FirstResult(log) == Some(log[i])
  {
    hide Extract, IsResult;
    if log != [] {
      FirstResultIsFirst(log[1..]);
      assert forall i :: 0 <= i < |log| - 1 ==> log[1..][i] == log[i + 1];
      assert forall i :: 0 < i < |log| ==> log[i] == log[1..][i - 1];
    }
  }

  /** What asking for a promotable result answers, by the first condition that holds. */
  lemma {:induction false} PromotableAnswers(logs: Logs, id: Identity)
    ensures var r := Promotable(logs, id); var log := if id.packetId in logs then logs[id.packetId] else [];
            var decodes := forall i :: 0 <= i < |log| ==> Extract(log[i]).Ok?;
            && (!decodes ==> r == Err(DecodeFailure))
            && (decodes && (exists i :: 0 <= i < |log| && IdentityOf(log[i]) != id) ==> r == Err(PromotionMismatch))
            && (decodes && (forall i :: 0 <= i < |log| ==> IdentityOf(log[i]) == id) ==>
                  && (r == Err(NotExactlyOneResult) <==> !exists n :: OneResultAt(log, n))
                  && (forall n :: OneResultAt(log, n) ==>
                        var refusal := WritebackError(logs, id, PayloadOf(log[n]).workerId, log);
                        r == if refusal.Some? then Err(refusal.value)
                             else if PayloadOf(log[n]).resultStatus == Completed then Ok(PayloadOf(log[n]))
                             else Err(NotCompleted)))
  {
    var log := LogOf(logs, id.packetId);
    OneResultIsFirst(log);
    hide Extract, WritebackError, RecordsResult, OneResultAt, FirstResult, IsResult;
    if LogDecodes(log) && !ConflictingIdentity(log, id) {
      if n :| OneResultAt(log, n) {
        SingleResultAnswers(logs, id, n);
        forall m | OneResultAt(log, m) ensures m == n {
          OnlyOneIsOne(log, m, n);
        }
      }
    }
  }

  lemma {:induction false} OnlyOneIsOne(log: Log, m: int, n: int)
    requires OneResultAt(log, m) && OneResultAt(log, n)
    ensures m == n
  {
    hide RecordsResult;
  }

  lemma {:induction false} SingleResultAnswers(logs: Logs, id: Identity, n: int)
    requires LogDecodes(LogOf(logs, id.packetId)) && !ConflictingIdentity(LogOf(logs, id.packetId), id)
    requires OneResultAt(LogOf(logs, id.packetId), n)
    ensures var log := LogOf(logs, id.packetId);
            var refusal := WritebackError(logs, id, PayloadOf(log[n]).workerId, log);
            && PayloadOf(log[n]).ResultPayload? && Promotable(logs, id) != Err(NotExactlyOneResult)
            && Promotable(logs, id) == if refusal.Some? then Err(refusal.value)
                                       else if PayloadOf(log[n]).resultStatus == Completed then Ok(PayloadOf(log[n]))
                                       else Err(NotCompleted)
  {
    var log := LogOf(logs, id.packetId);
    OneResultIsFirst(log);
    WritebackErrors(logs, id, PayloadOf(log[n]).workerId, log);
    hide Extract, WritebackError, FirstResult, OneResultAt;
  }

  lemma {:induction false} WritebackErrors(logs: Logs, id: Identity, worker: Option<string>, log: Log)
    ensures WritebackError(logs, id, worker, log) in
            {None, Some(MissingPlan), Some(NotTheOwner), Some(DecodeFailure), Some(StaleEpisode)}
  {
    hide Extract, Owner, LatestIdentity;
  }

  lemma {:induction false} OneResultIsFirst(log: Log)
    ensures FirstResult(log).Some?
            && (forall i, j :: 0 <= i < j < |log| ==> !(IsResult(log[i]) && IsResult(log[j]))) <==>
            exists n :: OneResultAt(log, n)
    ensures forall n :: OneResultAt(log, n) ==> FirstResult(log) == Some(log[n]) && IsResult(log[n])
  {
    hide Extract, RecordsResult, IsResult;
    forall i | 0 <= i < |log| ensures RecordsResult(log[i]) <==> IsResult(log[i]) {
      PlanTypes(log[i]);
    }
    FirstResultIsFirst(log);
    if FirstResult(log).Some? && forall i, j :: 0 <= i < j < |log| ==> !(IsResult(log[i]) && IsResult(log[j])) {
      var n :| 0 <= n < |log| && log[n] == FirstResult(log).value;
      assert OneResultAt(log, n);
    }
  }
}
