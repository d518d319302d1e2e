/** Execution evidence: identities, typed payloads, and the runtime events that carry them. */
module Evidence {
  import opened Wrappers
  import opened Text

  // ----- Identity of one reviewed execution episode -----

  datatype Identity = Identity(packetId: string, taskId: string, line: string, planId: string)

  datatype Subject = TaskSubject | LineSubject

  function EntityIdFor(id: Identity, subject: Subject): string {
    if subject.TaskSubject? then "task:" + id.taskId else "line:" + id.line
  }

  // ----- Enumerations -----

  datatype FailureClass =
    | Environment | OperatorSafety | Schema | Scope | Contract | LiveRegression | ToolRuntime | Infra | Unknown

  datatype ReviewOutcome =
    | Pass | PassWithNotes | ReturnForHardening | BlockedByEnvironment | BlockedByOperatorSafety
    | Stopline | SplitIntoNewScope | DeferredWithReason

  datatype Stage = Design | Red | Green | Live | Checkpoint

  datatype EventKind =
    | TaskPacketCreated | TaskDispatched | TaskProgress | TaskBlocked | TaskFailed | TaskResultReported
    | ReviewRecorded

  datatype Intent =
    | RetrySameWorker | RestartWorker | RecreateWorker | RefreshBranchOrWorktree | RequireReauth
    | RequireOperatorAction | SplitScope | DeferLine | StopTheLine

  datatype Action =
    | DoRetrySameWorker | DoRestartWorker | DoRecreateWorker | ClearRuntimeState | MarkReauthRequired
    | EmitHumanGate | DoSplitScope | DoDeferLine | DoStopline

  datatype Status =
    | Pending | Approved | Running | PartiallyCompleted | Completed | Failed | Cancelled | DeliveryFailed
    | Aborted | BlockedByHumanGate

  datatype StopReason =
    | HumanGateRequired | DestructiveStepNotAuthorized | AdapterSpecificActionRequired
    | PromotionRequiredOutsideEngine | StoreDetailLeak | EventBusDetailLeak | TransportOrProviderDetailLeak
    | PolicyRecalculationRequired | MissingWorkerId | UnsupportedFirstCutIntent | UnsupportedPlanMetadata
    | UnsupportedStepArgs

  datatype PayloadType = PlanCreated | PlanApproved | StepStarted | StepCompleted | StepFailed | ResultRecorded

  // ----- Typed payloads -----

  datatype Payload =
    | PlanPayload(planType: PayloadType, planId: string, taskId: string, line: string, workerId: Option<string>,
                  intent: Intent, requiresHumanGate: bool, nextStepToken: string,
                  humanGateReasons: seq<string>, stepCount: Option<int>)
    | StepPayload(stepType: PayloadType, planId: string, taskId: string, line: string, workerId: Option<string>,
                  stepIndex: int, action: Action, target: string, requiresHumanGate: bool,
                  failureClass: Option<FailureClass>)
    | ResultPayload(planId: string, taskId: string, line: string, workerId: Option<string>,
                    resultStatus: Status, completedStepCount: int, requiresHumanGate: bool,
                    failedStepIndex: Option<int>, failureClass: Option<FailureClass>,
                    reviewHint: Option<ReviewOutcome>, stopReason: Option<StopReason>)

  function TypeOf(p: Payload): PayloadType {
    match p
    case PlanPayload(t, _, _, _, _, _, _, _, _, _) => t
    case StepPayload(t, _, _, _, _, _, _, _, _, _) => t
    case ResultPayload(_, _, _, _, _, _, _, _, _, _, _) => ResultRecorded
  }

  /** What the payload models validate on construction. */
  predicate ValidPayload(p: Payload) {
    && !Blank(p.planId) && !Blank(p.taskId) && !Blank(p.line)
    && match p
       case PlanPayload(t, _, _, _, _, _, _, next, reasons, count) =>
         && (t.PlanCreated? || t.PlanApproved?)
         && !Blank(next)
         && (count.Some? ==> count.value >= 0)
         && (forall i :: 0 <= i < |reasons| ==> !Blank(reasons[i]))
       case StepPayload(t, _, _, _, _, index, _, target, _, failure) =>
         && (t.StepStarted? || t.StepCompleted? || t.StepFailed?)
         && index >= 0
         && !Blank(target)
         && (t.StepFailed? <==> failure.Some?)
       case ResultPayload(_, _, _, _, _, count, _, failed, _, _, _) =>
         && count >= 0
         && (failed.Some? ==> failed.value >= 0)
  }

  // ----- The untyped dictionary a payload is dumped to -----

  datatype Json =
    | JNull | JBool(b: bool) | JInt(n: int) | JStr(s: string) | JStrs(ss: seq<string>)
    | JType(t: PayloadType) | JIntent(intent: Intent) | JAction(action: Action) | JStatus(status: Status)
    | JFailure(failure: FailureClass) | JOutcome(outcome: ReviewOutcome) | JStop(stop: StopReason)

  type Entry = Option<Json>

  /** A dictionary, by key: `None` is an absent key; `others` are the keys no payload model declares. */
  datatype Dict = Dict(
    schemaVersion: Entry, eventType: Entry, planId: Entry, taskId: Entry, line: Entry, workerId: Entry,
    requiresHumanGate: Entry, intent: Entry, nextStepToken: Entry, humanGateReasons: Entry, stepCount: Entry,
    stepIndex: Entry, action: Entry, target: Entry, failureClass: Entry, resultStatus: Entry,
    completedStepCount: Entry, failedStepIndex: Entry, reviewHint: Entry, stopReason: Entry,
    others: set<string>)

  function OptStr(o: Option<string>): Json { if o.Some? then JStr(o.value) else JNull }

  function OptInt(o: Option<int>): Json { if o.Some? then JInt(o.value) else JNull }

  function OptFailure(o: Option<FailureClass>): Json { if o.Some? then JFailure(o.value) else JNull }

  /** The entries every payload model writes. */
  function DumpCommon(p: Payload): Dict {
    Dict(Some(JInt(1)), Some(JType(TypeOf(p))), Some(JStr(p.planId)), Some(JStr(p.taskId)), Some(JStr(p.line)),
         Some(OptStr(p.workerId)), Some(JBool(p.requiresHumanGate)), None, None, None, None, None, None, None, None,
         None, None, None, None, None, {})
  }

  /** `model_dump(mode="json")`: every declared field is written, defaults included. */
  function Dump(p: Payload): Dict {
    match p
    case PlanPayload(_, _, _, _, _, intent, _, next, reasons, count) =>
      DumpCommon(p).(intent := Some(JIntent(intent)), nextStepToken := Some(JStr(next)),
                     humanGateReasons := Some(JStrs(reasons)), stepCount := Some(OptInt(count)))
    case StepPayload(_, _, _, _, _, index, action, target, _, failure) =>
      DumpCommon(p).(stepIndex := Some(JInt(index)), action := Some(JAction(action)),
                     target := Some(JStr(target)), failureClass := Some(OptFailure(failure)))
    case ResultPayload(_, _, _, _, status, count, _, failed, failure, hint, stop) =>
      DumpCommon(p).(resultStatus := Some(JStatus(status)), completedStepCount := Some(JInt(count)),
                     failedStepIndex := Some(OptInt(failed)), failureClass := Some(OptFailure(failure)),
                     reviewHint := Some(if hint.Some? then JOutcome(hint.value) else JNull),
                     stopReason := Some(if stop.Some? then JStop(stop.value) else JNull))
  }

  /** An entry, or its default when the key is absent. */
  function Or(e: Entry, default: Json): Json { if e.Some? then e.value else default }

  predicate IsOptStr(e: Entry) { e.Some? && (e.value.JNull? || e.value.JStr?) }

  predicate IsOptInt(j: Json) { j.JNull? || j.JInt? }

  predicate IsOptFailure(j: Json) { j.JNull? || j.JFailure? }

  predicate IsStr(e: Entry) { e.Some? && e.value.JStr? }

  predicate IsInt(e: Entry) { e.Some? && e.value.JInt? }

  function ToOptStr(j: Json): Option<string> { if j.JStr? then Some(j.s) else None }

  function ToOptInt(j: Json): Option<int> { if j.JInt? then Some(j.n) else None }

  function ToOptFailure(j: Json): Option<FailureClass> { if j.JFailure? then Some(j.failure) else None }

  /** The entries every model declares have the right types, and no undeclared key is present. */
  predicate CommonEntries(d: Dict) {
    && d.others == {}
    && Or(d.schemaVersion, JInt(1)) == JInt(1)
    && IsStr(d.planId) && IsStr(d.taskId) && IsStr(d.line) && IsOptStr(d.workerId)
    && d.requiresHumanGate.Some? && d.requiresHumanGate.value.JBool?
  }

  predicate NoPlanEntries(d: Dict) {
    d.intent.None? && d.nextStepToken.None? && d.humanGateReasons.None? && d.stepCount.None?
  }

  predicate NoStepEntries(d: Dict) {
    d.stepIndex.None? && d.action.None? && d.target.None?
  }

  predicate NoResultEntries(d: Dict) {
    && d.resultStatus.None? && d.completedStepCount.None? && d.failedStepIndex.None? && d.reviewHint.None?
    && d.stopReason.None?
  }

  function ParsePlan(d: Dict, t: PayloadType): Option<Payload> {
    var reasons := Or(d.humanGateReasons, JStrs([]));
    var count := Or(d.stepCount, JNull);
    if CommonEntries(d) && NoStepEntries(d) && NoResultEntries(d) && d.failureClass.None?
       && d.intent.Some? && d.intent.value.JIntent? && IsStr(d.nextStepToken) && reasons.JStrs? && IsOptInt(count) then
      Some(PlanPayload(t, d.planId.value.s, d.taskId.value.s, d.line.value.s, ToOptStr(d.workerId.value),
                       d.intent.value.intent, d.requiresHumanGate.value.b, d.nextStepToken.value.s, reasons.ss,
                       ToOptInt(count)))
    else None
  }

  function ParseStep(d: Dict, t: PayloadType): Option<Payload> {
    var failure := Or(d.failureClass, JNull);
    if CommonEntries(d) && NoPlanEntries(d) && NoResultEntries(d)
       && IsInt(d.stepIndex) && d.action.Some? && d.action.value.JAction? && IsStr(d.target)
       && IsOptFailure(failure) then
      Some(StepPayload(t, d.planId.value.s, d.taskId.value.s, d.line.value.s, ToOptStr(d.workerId.value),
                       d.stepIndex.value.n, d.action.value.action, d.target.value.s, d.requiresHumanGate.value.b,
                       ToOptFailure(failure)))
    else None
  }

  function ParseResult(d: Dict): Option<Payload> {
    var failed := Or(d.failedStepIndex, JNull);
    var failure := Or(d.failureClass, JNull);
    var hint := Or(d.reviewHint, JNull);
    var stop := Or(d.stopReason, JNull);
    if CommonEntries(d) && NoPlanEntries(d) && NoStepEntries(d)
       && d.resultStatus.Some? && d.resultStatus.value.JStatus? && IsInt(d.completedStepCount)
       && IsOptInt(failed) && IsOptFailure(failure)
       && (hint.JNull? || hint.JOutcome?) && (stop.JNull? || stop.JStop?) then
      Some(ResultPayload(d.planId.value.s, d.taskId.value.s, d.line.value.s, ToOptStr(d.workerId.value),
                         d.resultStatus.value.status, d.completedStepCount.value.n, d.requiresHumanGate.value.b,
                         ToOptInt(failed), ToOptFailure(failure),
                         if hint.JOutcome? then Some(hint.outcome) else None,
                         if stop.JStop? then Some(stop.stop) else None))
    else None
  }

  /** The payload model is chosen by the event type, then validated; unknown fields are forbidden. */
  function Parse(d: Dict): Option<Payload> {
    if d.eventType.None? || !d.eventType.value.JType? then None
    else
      var t := d.eventType.value.t;
      var parsed :=
        match t
        case PlanCreated | PlanApproved => ParsePlan(d, t)
        case StepStarted | StepCompleted | StepFailed => ParseStep(d, t)
        case ResultRecorded => ParseResult(d);
      if parsed.Some? && ValidPayload(parsed.value) then parsed else None
  }

  // ----- Runtime events -----

  datatype RuntimeEvent = RuntimeEvent(
    eventId: string, packetId: string, kind: EventKind, message: string, createdAt: string,
    workerId: Option<string>, stage: Option<Stage>, outcome: Option<ReviewOutcome>,
    failureClass: Option<FailureClass>, payload: Dict)

  /** What the event model validates on construction and on every read from disk. */
  predicate ValidEvent(e: RuntimeEvent) {
    && !Blank(e.packetId) && !Blank(e.message)
    && (e.kind.TaskBlocked? || e.kind.TaskFailed? ==> e.failureClass.Some?)
    && (e.kind.ReviewRecorded? ==> e.outcome.Some?)
  }

  function KindFor(p: Payload): EventKind {
    match TypeOf(p)
    case ResultRecorded => TaskResultReported
    case StepFailed => TaskFailed
    case _ => TaskProgress
  }

  function FailureOf(p: Payload): Option<FailureClass> {
    if p.PlanPayload? then None else p.failureClass
  }

  function Wrap(p: Payload, packetId: string, message: string, stage: Option<Stage>, eventId: string,
                createdAt: string): RuntimeEvent
  {
    RuntimeEvent(eventId, packetId, KindFor(p), message, createdAt, p.workerId, stage, None, FailureOf(p), Dump(p))
  }

  datatype DecodeError = MalformedEvent | NotExecutionEvidence | KindMismatch | WorkerMismatch | FailureMismatch

  /** Model validation of the event, then typed extraction with the three consistency checks. */
  function Extract(e: RuntimeEvent): Result<Payload, DecodeError> {
    if !ValidEvent(e) then Err(MalformedEvent)
    else match Parse(e.payload)
         case None => Err(NotExecutionEvidence)
         case Some(p) =>
           if e.kind != KindFor(p) then Err(KindMismatch)
           else if e.workerId != p.workerId then Err(WorkerMismatch)
           else if e.failureClass != FailureOf(p) then Err(FailureMismatch)
           else Ok(p)
  }

  predicate Decodes(e: RuntimeEvent) { Extract(e).Ok? }

  function PayloadOf(e: RuntimeEvent): Payload
    requires Decodes(e)
  {
    Extract(e).value
  }

  function IdentityOf(e: RuntimeEvent): Identity
    requires Decodes(e)
  {
    var p := PayloadOf(e);
    Identity(e.packetId, p.taskId, p.line, p.planId)
  }

  // ----- Wrapping and extracting undo each other -----

  lemma {:induction false} ParseUndoesDump(p: Payload)
    ensures Parse(Dump(p)) == Some(p) <==> ValidPayload(p)
  {
  }

  lemma {:induction false} ExtractUndoesWrap(
      p: Payload, packetId: string, message: string, stage: Option<Stage>, eventId: string,
      createdAt: string)
    requires !Blank(packetId) && !Blank(message)
    ensures Extract(Wrap(p, packetId, message, stage, eventId, createdAt)) == Ok(p) <==> ValidPayload(p)
  {
    ParseUndoesDump(p);
  }

  /** Re-wrapping what was extracted gives back the event shell, and a payload that extracts the same. */
  lemma {:induction false} WrapUndoesExtract(e: RuntimeEvent)
    requires Decodes(e)
    ensures ValidPayload(PayloadOf(e))
    ensures var again := Wrap(PayloadOf(e), e.packetId, e.message, e.stage, e.eventId, e.createdAt);
            again == e.(outcome := None, payload := again.payload) && Extract(again) == Extract(e)
  {
    ExtractUndoesWrap(PayloadOf(e), e.packetId, e.message, e.stage, e.eventId, e.createdAt);
  }

  // ----- What a decodable event holds, entry by entry -----

  /** The event's own fields agree with its payload. */
  lemma {:induction false} DecodedEventAgrees(e: RuntimeEvent)
    requires Extract(e).Ok?
    ensures var p := Extract(e).value;
            && !Blank(e.packetId) && !Blank(e.message)
            && e.workerId == p.workerId
            && e.kind == (if p.ResultPayload? then TaskResultReported
                          else if p.StepPayload? && p.stepType == StepFailed then TaskFailed
                          else TaskProgress)
            && e.failureClass == (if p.PlanPayload? then None else p.failureClass)
            && (e.failureClass.None? ==> e.kind != TaskFailed)
  {
    hide Blank;
  }

  /** The dictionary holds the payload: every field under its own key, what is missing absent or null, no other key. */
  predicate Holds(d: Dict, p: Payload) {
    && d.others == {} && d.schemaVersion in {None, Some(JInt(1))} && d.eventType == Some(JType(TypeOf(p)))
    && d.planId == Some(JStr(p.planId)) && d.taskId == Some(JStr(p.taskId)) && d.line == Some(JStr(p.line))
    && d.workerId == Some(if p.workerId.Some? then JStr(p.workerId.value) else JNull)
    && d.requiresHumanGate == Some(JBool(p.requiresHumanGate))
    && match p
       case PlanPayload(_, _, _, _, _, intent, _, next, reasons, count) =>
         && d.intent == Some(JIntent(intent)) && d.nextStepToken == Some(JStr(next))
         && (d.humanGateReasons == Some(JStrs(reasons)) || (d.humanGateReasons == None && reasons == []))
         && (if count.Some? then d.stepCount == Some(JInt(count.value)) else d.stepCount in {None, Some(JNull)})
         && d.stepIndex == None && d.action == None && d.target == None && d.failureClass == None
         && d.resultStatus == None && d.completedStepCount == None && d.failedStepIndex == None
         && d.reviewHint == None && d.stopReason == None
       case StepPayload(_, _, _, _, _, index, action, target, _, failure) =>
         && d.stepIndex == Some(JInt(index)) && d.action == Some(JAction(action)) && d.target == Some(JStr(target))
         && (if failure.Some? then d.failureClass == Some(JFailure(failure.value))
             else d.failureClass in {None, Some(JNull)})
         && d.intent == None && d.nextStepToken == None && d.humanGateReasons == None && d.stepCount == None
         && d.resultStatus == None && d.completedStepCount == None && d.failedStepIndex == None
         && d.reviewHint == None && d.stopReason == None
       case ResultPayload(_, _, _, _, status, count, _, failed, failure, hint, stop) =>
         && d.resultStatus == Some(JStatus(status)) && d.completedStepCount == Some(JInt(count))
         && (if failed.Some? then d.failedStepIndex == Some(JInt(failed.value))
             else d.failedStepIndex in {None, Some(JNull)})
         && (if failure.Some? then d.failureClass == Some(JFailure(failure.value))
             else d.failureClass in {None, Some(JNull)})
         && (if hint.Some? then d.reviewHint == Some(JOutcome(hint.value)) else d.reviewHint in {None, Some(JNull)})
         && (if stop.Some? then d.stopReason == Some(JStop(stop.value)) else d.stopReason in {None, Some(JNull)})
         && d.intent == None && d.nextStepToken == None && d.humanGateReasons == None && d.stepCount == None
         && d.stepIndex == None && d.action == None && d.target == None
  }

  /** The payload of a dictionary is the one valid payload it holds, if it holds one. */
  lemma {:induction false} ParsesExactlyWhenHeld(d: Dict, p: Payload)
    ensures Parse(d) == Some(p) <==> Holds(d, p) && ValidPayload(p)
  {
    hide Blank;
  }

  /** A wrapped payload decodes exactly when it names its episode, its type fits, and its counts, indexes and texts are
      in range: then it comes back. */
  lemma {:induction false} DecodesExactlyWhen(p: Payload, packetId: string, message: string, stage: Option<Stage>,
                                              eventId: string, createdAt: string)
    requires !Blank(packetId) && !Blank(message)
    ensures Extract(Wrap(p, packetId, message, stage, eventId, createdAt)) == Ok(p) <==>
            && Strip(p.planId) != "" && Strip(p.taskId) != "" && Strip(p.line) != ""
            && match p
               case PlanPayload(t, _, _, _, _, _, _, next, reasons, count) =>
                 && t in {PlanCreated, PlanApproved} && Strip(next) != "" && (count == None || count.value >= 0)
                 && forall reason :: reason in reasons ==> Strip(reason) != ""
               case StepPayload(t, _, _, _, _, index, _, target, _, failure) =>
                 && t in {StepStarted, StepCompleted, StepFailed} && index >= 0 && Strip(target) != ""
                 && (failure == None <==> t != StepFailed)
               case ResultPayload(_, _, _, _, _, count, _, failed, _, _, _) =>
                 count >= 0 && (failed == None || failed.value >= 0)
  {
    ExtractUndoesWrap(p, packetId, message, stage, eventId, createdAt);
    hide Blank, Strip, Extract, Wrap;
    forall s: string ensures Strip(s) == "" <==> Blank(s) {
      StripCuts(s);
    }
  }

  /** A wrapped payload is written whole: every declared key is present, with null for what is missing. */
  lemma {:induction false} WrappedEntries(p: Payload, packetId: string, message: string, stage: Option<Stage>,
                                          eventId: string, createdAt: string)
    ensures var e := Wrap(p, packetId, message, stage, eventId, createdAt); var d := e.payload;
            && (e.eventId, e.packetId, e.message, e.stage, e.createdAt, e.outcome, e.workerId)
               == (eventId, packetId, message, stage, createdAt, None, p.workerId)
            && d.schemaVersion == Some(JInt(1)) && d.eventType.Some? && d.planId.Some? && d.taskId.Some? && d.line.Some?
            && d.workerId.Some? && d.requiresHumanGate.Some? && d.others == {}
            && (p.PlanPayload? ==>
                  d.intent.Some? && d.nextStepToken.Some? && d.humanGateReasons.Some? && d.stepCount.Some?)
            && (p.StepPayload? ==> d.stepIndex.Some? && d.action.Some? && d.target.Some? && d.failureClass.Some?)
            && (p.ResultPayload? ==> d.resultStatus.Some? && d.completedStepCount.Some? && d.failedStepIndex.Some?
                                     && d.failureClass.Some? && d.reviewHint.Some? && d.stopReason.Some?)
  {
  }

  /** Which check refuses an event that does not decode: the event's own, the payload's, then worker and failure. */
  lemma {:induction false} UndecodableBecause(e: RuntimeEvent)
    ensures var malformed := Strip(e.packetId) == "" || Strip(e.message) == ""
                             || (e.kind in {TaskBlocked, TaskFailed} && e.failureClass == None)
                             || (e.kind == ReviewRecorded && e.outcome == None);
            && (Extract(e) == Err(MalformedEvent) <==> malformed)
            && (!malformed && e.payload.others != {} ==> Extract(e) == Err(NotExecutionEvidence))
            && (!malformed && None in [e.payload.planId, e.payload.taskId, e.payload.line, e.payload.workerId,
                                       e.payload.requiresHumanGate, e.payload.eventType] ==>
                  Extract(e) == Err(NotExecutionEvidence))
            && (Extract(e) == Err(WorkerMismatch) ==> e.payload.workerId != Some(OptStr(e.workerId)))
            && (Extract(e) == Err(FailureMismatch) ==> e.payload.failureClass != Some(OptFailure(e.failureClass)))
  {
    StripCuts(e.packetId);
    StripCuts(e.message);
    hide Strip, Blank, ValidPayload;
  }
}
