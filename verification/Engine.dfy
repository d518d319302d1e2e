/** The first recovery engine: plan derivation, preflight, and in-memory execution traces. */
module Engine {
  import opened Wrappers
  import opened Text
  import opened Evidence

  // ----- Decisions, requests, plans and results -----

  datatype Escalation = Auto | AutoWithLimit | HumanGate | Terminal

  datatype Decision = Decision(intent: Intent, escalation: Escalation, nextStepToken: string,
                               humanGateReason: Option<string>)

  datatype Request = Request(decision: Decision, packetId: string, taskId: string, line: string,
                             workerId: Option<string>)

  /** `args` is only ever tested for being non-empty. */
  datatype Step = Step(action: Action, target: string, hasArgs: bool, destructive: bool, retryable: bool,
                       requiresHumanGate: bool)

  datatype Plan = Plan(planId: string, packetId: string, taskId: string, line: string, workerId: Option<string>,
                       intent: Intent, steps: seq<Step>, requiresHumanGate: bool,
                       humanGateReasons: seq<string>, nextStepToken: string, hasMetadata: bool)

  datatype ExecResult = ExecResult(planId: string, identity: Identity, status: Status, completedStepCount: int,
                                   failedStepIndex: Option<int>, failureClass: Option<FailureClass>,
                                   requiresHumanGate: bool)

  datatype EngineError = InvalidRequest | InvalidPlan | InvalidExecution

  predicate ValidDecision(d: Decision) {
    && !Blank(d.nextStepToken)
    && (d.escalation.Auto? || d.escalation.AutoWithLimit? ==>
          WorkerTargeted(d.intent) || d.intent.RefreshBranchOrWorktree? || d.intent.RequireReauth?)
    && (d.escalation.HumanGate? ==> d.humanGateReason.Some? && d.humanGateReason.value != "")
  }

  predicate ValidRequest(r: Request) {
    && ValidDecision(r.decision)
    && !Blank(r.packetId) && !Blank(r.taskId) && !Blank(r.line)
    && (r.workerId.Some? ==> !Blank(r.workerId.value))
  }

  predicate DestructiveAction(a: Action) {
    a.ClearRuntimeState? || a.DoSplitScope? || a.DoDeferLine? || a.DoStopline?
  }

  predicate ValidStep(s: Step) {
    !Blank(s.target) && (DestructiveAction(s.action) ==> s.destructive)
  }

  predicate ValidPlan(p: Plan) {
    && !Blank(p.packetId) && !Blank(p.taskId) && !Blank(p.line) && !Blank(p.nextStepToken)
    && p.steps != []
    && (forall i :: 0 <= i < |p.steps| ==>
          ValidStep(p.steps[i]) && (p.steps[i].requiresHumanGate ==> p.requiresHumanGate))
    && (p.requiresHumanGate ==> p.humanGateReasons != [])
    && (forall i :: 0 <= i < |p.humanGateReasons| ==> !Blank(p.humanGateReasons[i]))
  }

  function PlanIdentity(p: Plan): Identity {
    Identity(p.packetId, p.taskId, p.line, p.planId)
  }

  predicate ValidResult(r: ExecResult) {
    && r.identity.planId == r.planId
    && r.completedStepCount >= 0
    && (r.failedStepIndex.Some? ==> r.failedStepIndex.value >= 0)
    && (r.status.PartiallyCompleted? ==> r.completedStepCount > 0)
    && (r.status.Failed? ==> r.failureClass.Some? || r.failedStepIndex.Some?)
    && (r.status.BlockedByHumanGate? ==> r.requiresHumanGate)
  }

  // ----- Deriving a plan -----

  predicate WorkerTargeted(i: Intent) {
    i.RetrySameWorker? || i.RestartWorker? || i.RecreateWorker?
  }

  function Lower(s: string): string {
    seq(|s|, i requires 0 <= i < |s| => if 'A' <= s[i] <= 'Z' then s[i] - 'A' + 'a' else s[i])
  }

  predicate HasExplicitWorker(workerId: Option<string>) {
    workerId.Some? && Strip(workerId.value) != "" && Lower(Strip(workerId.value)) != "default"
  }

  predicate NeedsHumanGate(d: Decision) {
    d.escalation.HumanGate? || d.humanGateReason.Some?
  }

  function GateReason(d: Decision): string {
    if d.humanGateReason.Some? && d.humanGateReason.value != "" then d.humanGateReason.value
    else "engine handoff requires human gate"
  }

  function PlanWith(r: Request, planId: string, step: Step, gateReasons: seq<string>): Plan {
    Plan(planId, r.packetId, r.taskId, r.line, r.workerId, r.decision.intent, [step], gateReasons != [],
         gateReasons, r.decision.nextStepToken, false)
  }

  function StopPlan(r: Request, planId: string): Plan {
    PlanWith(r, planId, Step(EmitHumanGate, "engine:stop", false, false, false, false), [])
  }

  function HumanGatePlan(r: Request, planId: string): Plan {
    PlanWith(r, planId, Step(EmitHumanGate, "gate:operator", false, false, false, true), [GateReason(r.decision)])
  }

  /** `worker:{worker_id}`: the f-string prints a missing worker as None. */
  function WorkerTarget(workerId: Option<string>): string {
    "worker:" + if workerId.Some? then workerId.value else "None"
  }

  function DerivedPlan(r: Request, planId: string): Plan {
    match r.decision.intent
    case RetrySameWorker =>
      PlanWith(r, planId, Step(DoRetrySameWorker, WorkerTarget(r.workerId), false, false, true, false), [])
    case RestartWorker =>
      PlanWith(r, planId, Step(DoRestartWorker, WorkerTarget(r.workerId), false, false, true, false), [])
    case RecreateWorker =>
      PlanWith(r, planId, Step(DoRecreateWorker, WorkerTarget(r.workerId), false, false, true, false), [])
    case RequireReauth =>
      PlanWith(r, planId, Step(MarkReauthRequired, "engine:reauth-handoff", false, false, false, false), [])
    case SplitScope =>
      PlanWith(r, planId, Step(DoSplitScope, "canonical:" + r.line, false, true, false, false), [])
    case DeferLine =>
      PlanWith(r, planId, Step(DoDeferLine, "canonical:" + r.line, false, true, false, false), [])
    case StopTheLine =>
      PlanWith(r, planId, Step(DoStopline, "canonical:" + r.line, false, true, false, false), [])
    case RefreshBranchOrWorktree | RequireOperatorAction => HumanGatePlan(r, planId)
  }

  /** `build_first_engine_plan`, with the request and plan models' own validation. */
  function BuildPlan(r: Request, planId: string): Result<Plan, EngineError> {
    if !ValidRequest(r) then Err(InvalidRequest)
    else
      var plan :=
        if WorkerTargeted(r.decision.intent) && !HasExplicitWorker(r.workerId) then StopPlan(r, planId)
        else if NeedsHumanGate(r.decision) then HumanGatePlan(r, planId)
        else if r.decision.intent.RefreshBranchOrWorktree? then StopPlan(r, planId)
        else DerivedPlan(r, planId);
      if ValidPlan(plan) then Ok(plan) else Err(InvalidPlan)
  }

  // ----- Executing a plan -----

  datatype TraceEvent = TraceEvent(eventType: PayloadType, planId: string, taskId: string,
                                   workerId: Option<string>, stepIndex: Option<int>, action: Option<Action>,
                                   resultStatus: Option<Status>, stopReason: Option<StopReason>)

  datatype FinalState = RunStopped | RunCompleted | RunFailed

  datatype Execution = Execution(plan: Plan, result: ExecResult, trace: seq<TraceEvent>, finalState: FinalState,
                                 stopReason: Option<StopReason>)

  /** What the execution model validates on construction. */
  predicate ValidExecution(x: Execution) {
    && ValidResult(x.result)
    && (x.finalState.RunCompleted? ==> x.result.status.Completed?)
    && (x.finalState.RunFailed? ==> x.result.status.Failed?)
    && (x.finalState.RunStopped? ==> x.stopReason.Some?)
    && x.result.planId == x.plan.planId
    && x.result.identity == PlanIdentity(x.plan)
    && (forall i :: 0 <= i < |x.trace| ==> (x.trace[i].eventType.ResultRecorded? <==> i == |x.trace| - 1))
    && x.trace != []
  }

  function PlanTrace(t: PayloadType, p: Plan): TraceEvent {
    TraceEvent(t, p.planId, p.taskId, p.workerId, None, None, None, None)
  }

  function StepTrace(t: PayloadType, p: Plan, i: int): TraceEvent
    requires 0 <= i < |p.steps|
  {
    TraceEvent(t, p.planId, p.taskId, p.workerId, Some(i), Some(p.steps[i].action), None, None)
  }

  function ResultTrace(p: Plan, status: Status, stop: Option<StopReason>): TraceEvent {
    TraceEvent(ResultRecorded, p.planId, p.taskId, p.workerId, None, None, Some(status), stop)
  }

  predicate RunnableAction(a: Action) {
    a.DoRetrySameWorker? || a.DoRestartWorker? || a.DoRecreateWorker?
  }

  function StepStop(s: Step): Option<StopReason> {
    if s.hasArgs then Some(UnsupportedStepArgs)
    else if s.action.DoSplitScope? || s.action.DoDeferLine? || s.action.DoStopline? || "canonical:" <= s.target then
      Some(PromotionRequiredOutsideEngine)
    else if s.action.MarkReauthRequired? then Some(AdapterSpecificActionRequired)
    else if s.action.EmitHumanGate? || s.requiresHumanGate then Some(HumanGateRequired)
    else if "store:" <= s.target then Some(StoreDetailLeak)
    else if "event_bus:" <= s.target then Some(EventBusDetailLeak)
    else if "transport:" <= s.target || "provider:" <= s.target then Some(TransportOrProviderDetailLeak)
    else if s.destructive || s.action.ClearRuntimeState? then Some(DestructiveStepNotAuthorized)
    else if !RunnableAction(s.action) then
      Some(AdapterSpecificActionRequired)
    else None
  }

  datatype Preflight = Preflight(reason: StopReason, status: Status, requiresHumanGate: bool, traceApproved: bool)

  function HandoffStop(i: Intent): Option<StopReason> {
    match i
    case RequireReauth => Some(AdapterSpecificActionRequired)
    case RequireOperatorAction => Some(HumanGateRequired)
    case SplitScope | DeferLine | StopTheLine => Some(PromotionRequiredOutsideEngine)
    case RefreshBranchOrWorktree => Some(UnsupportedFirstCutIntent)
    case RetrySameWorker | RestartWorker | RecreateWorker => None
  }

  function PreflightStop(p: Plan): Option<Preflight> {
    if p.hasMetadata then Some(Preflight(UnsupportedPlanMetadata, Aborted, false, false))
    else if exists i :: 0 <= i < |p.steps| && p.steps[i].hasArgs then
      Some(Preflight(UnsupportedStepArgs, Aborted, false, false))
    else if WorkerTargeted(p.intent) && !HasExplicitWorker(p.workerId) then
      Some(Preflight(MissingWorkerId, Aborted, false, false))
    else if p.requiresHumanGate || exists i :: 0 <= i < |p.steps| && p.steps[i].requiresHumanGate then
      Some(Preflight(HumanGateRequired, BlockedByHumanGate, true, true))
    else if HandoffStop(p.intent).Some? then
      Some(Preflight(HandoffStop(p.intent).value, Aborted, false, false))
    else None
  }

  /** How many leading steps run before one has a stop reason. */
  function RunnableSteps(steps: seq<Step>): nat {
    if steps == [] || StepStop(steps[0]).Some? then 0 else 1 + RunnableSteps(steps[1..])
  }

  lemma {:induction false} RunnableStepsIsTheFirstStop(steps: seq<Step>)
    ensures RunnableSteps(steps) <= |steps|
    ensures forall i {:trigger StepStop(steps[i])} :: 0 <= i < RunnableSteps(steps) ==> StepStop(steps[i]).None?
    ensures RunnableSteps(steps) < |steps| ==> StepStop(steps[RunnableSteps(steps)]).Some?
  {
    if steps != [] && StepStop(steps[0]).None? {
      RunnableStepsIsTheFirstStop(steps[1..]);
      forall i {:trigger StepStop(steps[i])} | 0 <= i < RunnableSteps(steps)
        ensures StepStop(steps[i]).None?
      {
        assert i > 0 ==> steps[i] == steps[1..][i - 1];
      }
    }
  }

  /** The started/completed pairs of the first n steps. */
  function Pairs(p: Plan, n: nat): (t: seq<TraceEvent>)
    requires n <= |p.steps|
    ensures |t| == 2 * n
    ensures forall j :: 0 <= j < |t| ==>
              t[j] == StepTrace(if j % 2 == 0 then StepStarted else StepCompleted, p, j / 2)
  {
    if n == 0 then []
    else Pairs(p, n - 1) + [StepTrace(StepStarted, p, n - 1), StepTrace(StepCompleted, p, n - 1)]
  }

  function Stopped(p: Plan, before: seq<TraceEvent>, reason: StopReason, status: Status, gate: bool): Execution {
    Execution(p, ExecResult(p.planId, PlanIdentity(p), status, 0, None, None, gate),
              before + [ResultTrace(p, status, Some(reason))], RunStopped, Some(reason))
  }

  /** The execution a plan must have, without saying how its trace is grown. */
  function ExecutionOf(p: Plan): Execution {
    RunnableStepsIsTheFirstStop(p.steps);
    var n := RunnableSteps(p.steps);
    match PreflightStop(p)
    case Some(stop) =>
      Stopped(p, [PlanTrace(PlanCreated, p)] + if stop.traceApproved then [PlanTrace(PlanApproved, p)] else [],
              stop.reason, stop.status, stop.requiresHumanGate)
    case None =>
      var before := [PlanTrace(PlanCreated, p)] + Pairs(p, n);
      if n < |p.steps| then Stopped(p, before, StepStop(p.steps[n]).value, Aborted, false)
      else Execution(p, ExecResult(p.planId, PlanIdentity(p), Completed, n, None, None, false),
                     before + [ResultTrace(p, Completed, None)], RunCompleted, None)
  }

  function Checked(x: Execution): Result<Execution, EngineError> {
    if ValidExecution(x) then Ok(x) else Err(InvalidExecution)
  }

  /** `execute_first_engine_plan`: the loop, with the execution model's validator at every return. */
  method ExecutePlan(p: Plan) returns (r: Result<Execution, EngineError>)
    ensures r == Ok(ExecutionOf(p))
  {
    hide StepStop, PreflightStop, ValidExecution;
    ValidatorAccepts(p);
    var trace := [PlanTrace(PlanCreated, p)];
    var preflight := PreflightStop(p);
    if preflight.Some? {
      var stop := preflight.value;
      if stop.traceApproved {
        trace := trace + [PlanTrace(PlanApproved, p)];
      }
      assert trace == [PlanTrace(PlanCreated, p)] + if stop.traceApproved then [PlanTrace(PlanApproved, p)] else [];
      return Checked(Stopped(p, trace, stop.reason, stop.status, stop.requiresHumanGate));
    }
    var completed := 0;
    while completed < |p.steps|
      invariant 0 <= completed <= |p.steps|
      invariant RunnableSteps(p.steps) == completed + RunnableSteps(p.steps[completed..])
      invariant trace == [PlanTrace(PlanCreated, p)] + Pairs(p, completed)
    {
      var stop := StepStop(p.steps[completed]);
      assert p.steps[completed..][0] == p.steps[completed];
      if stop.Some? {
        return Checked(Stopped(p, trace, stop.value, Aborted, false));
      }
      assert p.steps[completed..][1..] == p.steps[completed + 1..];
      trace := trace + [StepTrace(StepStarted, p, completed)] + [StepTrace(StepCompleted, p, completed)];
      completed := completed + 1;
    }
    trace := trace + [ResultTrace(p, Completed, None)];
    r := Checked(Execution(p, ExecResult(p.planId, PlanIdentity(p), Completed, completed, None, None, false),
                           trace, RunCompleted, None));
  }

  // ----- What every execution looks like -----

  /** For plans of any length, the execution model's validator never rejects. */
  lemma {:induction false} ValidatorAccepts(p: Plan)
    ensures ValidExecution(ExecutionOf(p))
  {
    hide StepStop, RunnableSteps, PreflightStop;
    RunnableStepsIsTheFirstStop(p.steps);
    var x := ExecutionOf(p);
    PreflightResultIsValid(p);
    if PreflightStop(p).None? {
      var pairs := Pairs(p, RunnableSteps(p.steps));
      assert forall i :: 0 < i < |x.trace| - 1 ==> x.trace[i] == pairs[i - 1];
    }
  }

  lemma {:induction false} PreflightResultIsValid(p: Plan)
    ensures PreflightStop(p).Some? ==>
              var stop := PreflightStop(p).value;
              ValidResult(ExecResult(p.planId, PlanIdentity(p), stop.status, 0, None, None, stop.requiresHumanGate))
  {
  }

  /** COMPLETED means exactly: the preflight passes and no step has a stop reason. */
  lemma {:induction false} CompletesExactlyWhenNothingStops(p: Plan)
    ensures var x := ExecutionOf(p);
            && (x.finalState.RunCompleted? <==>
                  PreflightStop(p).None? && forall i {:trigger StepStop(p.steps[i])} ::
                    0 <= i < |p.steps| ==> StepStop(p.steps[i]).None?)
            && (x.finalState.RunCompleted? <==> x.result.status.Completed?)
            && (x.finalState.RunCompleted? ==> x.result.completedStepCount == |p.steps|)
            && (!x.finalState.RunCompleted? ==> x.result.completedStepCount == 0)
  {
    hide StepStop, RunnableSteps;
    RunnableStepsIsTheFirstStop(p.steps);
  }

  /** Without a preflight stop: plan_created, the pairs of the runnable steps in index order, one result. */
  lemma {:induction false} TraceOfStartedPlan(p: Plan)
    requires PreflightStop(p).None?
    ensures var x := ExecutionOf(p); var t := x.trace; var n := RunnableSteps(p.steps);
            && n <= |p.steps| && |t| == 2 * n + 2
            && t[0] == TraceEvent(PlanCreated, p.planId, p.taskId, p.workerId, None, None, None, None)
            && (forall k :: 0 <= k < 2 * n ==>
                  t[k + 1] == TraceEvent(if k % 2 == 0 then StepStarted else StepCompleted, p.planId, p.taskId,
                                         p.workerId, Some(k / 2), Some(p.steps[k / 2].action), None, None))
            && t[2 * n + 1] == TraceEvent(ResultRecorded, p.planId, p.taskId, p.workerId, None, None,
                                          Some(x.result.status), x.stopReason)
            && (x.finalState.RunCompleted? <==> n == |p.steps|)
  {
    hide StepStop, PreflightStop, RunnableSteps, Pairs;
    RunnableStepsIsTheFirstStop(p.steps);
    var x := ExecutionOf(p);
    var pairs := Pairs(p, RunnableSteps(p.steps));
    assert x.trace == [PlanTrace(PlanCreated, p)] + pairs + [ResultTrace(p, x.result.status, x.stopReason)];
    forall k | 0 <= k < |pairs|
      ensures x.trace[k + 1] == StepTrace(if k % 2 == 0 then StepStarted else StepCompleted, p, k / 2)
    {
      assert x.trace[k + 1] == pairs[k];
    }
  }

  /** A preflight stop starts no step, and records an approval exactly in front of a human gate. */
  lemma {:induction false} TraceOfStoppedPlan(p: Plan)
    requires PreflightStop(p).Some?
    ensures var x := ExecutionOf(p); var t := x.trace;
            && |t| == (if x.result.status.BlockedByHumanGate? then 3 else 2)
            && t[0] == TraceEvent(PlanCreated, p.planId, p.taskId, p.workerId, None, None, None, None)
            && (x.result.status.BlockedByHumanGate? ==>
                  t[1] == TraceEvent(PlanApproved, p.planId, p.taskId, p.workerId, None, None, None, None))
            && t[|t| - 1] == TraceEvent(ResultRecorded, p.planId, p.taskId, p.workerId, None, None,
                                        Some(x.result.status), x.stopReason)
            && (x.result.status.BlockedByHumanGate? <==> x.result.requiresHumanGate)
            && x.result.completedStepCount == 0 && x.finalState.RunStopped? && x.result.planId == p.planId
  {
  }

  // ----- What the engine does with the plans it builds itself -----

  predicate Runs(r: Request) {
    WorkerTargeted(r.decision.intent) && HasExplicitWorker(r.workerId) && !NeedsHumanGate(r.decision)
  }

  lemma {:induction false} PlanWithIsValidExactlyWhen(r: Request, planId: string, step: Step, reasons: seq<string>)
    requires ValidRequest(r) && ValidStep(step) && |reasons| <= 1 && (step.requiresHumanGate ==> reasons != [])
    ensures ValidPlan(PlanWith(r, planId, step, reasons)) <==> (reasons == [] || !Blank(reasons[0]))
  {
    var p := PlanWith(r, planId, step, reasons);
    if ValidPlan(p) && reasons != [] {
      assert !Blank(p.humanGateReasons[0]);
    }
  }

  lemma {:induction false} DerivedPlanIsValid(r: Request, planId: string)
    requires ValidRequest(r) && !r.decision.intent.RefreshBranchOrWorktree? && !r.decision.intent.RequireOperatorAction?
    ensures ValidPlan(DerivedPlan(r, planId))
  {
    assert ("canonical:" + r.line)[0] == 'c' && WorkerTarget(r.workerId)[0] == 'w';
    assert "engine:reauth-handoff"[0] == 'e';
    PlanWithIsValidExactlyWhen(r, planId, DerivedPlan(r, planId).steps[0], []);
  }

  lemma {:induction false} StopAndGatePlansAreValidExactlyWhen(r: Request, planId: string)
    requires ValidRequest(r)
    ensures ValidPlan(StopPlan(r, planId))
    ensures ValidPlan(HumanGatePlan(r, planId)) <==> !Blank(GateReason(r.decision))
    ensures r.decision.humanGateReason.None? ==> !Blank(GateReason(r.decision))
  {
    assert "engine:stop"[0] == 'e' && "gate:operator"[0] == 'g';
    PlanWithIsValidExactlyWhen(r, planId, StopPlan(r, planId).steps[0], []);
    PlanWithIsValidExactlyWhen(r, planId, HumanGatePlan(r, planId).steps[0], [GateReason(r.decision)]);
    if r.decision.humanGateReason.None? {
      assert GateReason(r.decision)[0] == 'e';
    }
  }

  /** A valid request yields a plan unless a blank gate reason would have to be written into it. */
  lemma {:induction false} PlanIsBuiltExactlyWhen(r: Request, planId: string)
    requires ValidRequest(r)
    ensures BuildPlan(r, planId).Ok? <==>
            (WorkerTargeted(r.decision.intent) && !HasExplicitWorker(r.workerId)) || !NeedsHumanGate(r.decision)
            || !Blank(GateReason(r.decision))
  {
    StopAndGatePlansAreValidExactlyWhen(r, planId);
    if !r.decision.intent.RefreshBranchOrWorktree? && !r.decision.intent.RequireOperatorAction? {
      DerivedPlanIsValid(r, planId);
    }
  }

  /** A request the engine cannot build a plan for: its gate reason is one blank. */
  lemma {:induction false} BlankGateReasonRaises(planId: string)
    ensures var r := Request(Decision(RetrySameWorker, HumanGate, "next", Some(" ")), "p", "t", "l", Some("w"));
            ValidRequest(r) && BuildPlan(r, planId).Err?
  {
    var reason := Some(" ");
    var r := Request(Decision(RetrySameWorker, HumanGate, "next", reason), "p", "t", "l", Some("w"));
    assert "next"[0] == 'n' && "p"[0] == 'p' && "t"[0] == 't' && "l"[0] == 'l' && "w"[0] == 'w';
    StripOfTrimmed("w");
    PlanIsBuiltExactlyWhen(r, planId);
  }

  /** A built plan carries the request's identity and worker, and exactly one step. */
  lemma {:induction false} BuiltPlanFollowsRequest(r: Request, planId: string)
    requires BuildPlan(r, planId).Ok?
    ensures var p := BuildPlan(r, planId).value;
            && PlanIdentity(p) == Identity(r.packetId, r.taskId, r.line, planId)
            && p.workerId == r.workerId && p.intent == r.decision.intent && |p.steps| == 1
            && (Runs(r) ==> p == DerivedPlan(r, planId))
            && p.nextStepToken == r.decision.nextStepToken && !p.hasMetadata && !p.steps[0].hasArgs
            && (p.requiresHumanGate <==> p.steps[0].requiresHumanGate)
  {
    hide ValidPlan, ValidRequest, DerivedPlan, StopPlan, HumanGatePlan, HasExplicitWorker;
    FixedPlansFollowRequest(r, planId);
    DerivedPlanFollowsRequest(r, planId);
  }

  predicate FollowsRequest(p: Plan, r: Request, planId: string) {
    && PlanIdentity(p) == Identity(r.packetId, r.taskId, r.line, planId)
    && p.workerId == r.workerId && p.intent == r.decision.intent && |p.steps| == 1
    && p.nextStepToken == r.decision.nextStepToken && !p.hasMetadata && !p.steps[0].hasArgs
    && (p.requiresHumanGate <==> p.steps[0].requiresHumanGate)
  }

  lemma {:induction false} FixedPlansFollowRequest(r: Request, planId: string)
    ensures FollowsRequest(StopPlan(r, planId), r, planId) && FollowsRequest(HumanGatePlan(r, planId), r, planId)
  {
  }

  lemma {:induction false} DerivedPlanFollowsRequest(r: Request, planId: string)
    ensures FollowsRequest(DerivedPlan(r, planId), r, planId)
  {
    hide GateReason;
  }

  lemma {:induction false} WorkerTargetIsNoStop(workerId: Option<string>)
    ensures var t := WorkerTarget(workerId);
            !("canonical:" <= t) && !("store:" <= t) && !("event_bus:" <= t) && !("transport:" <= t)
            && !("provider:" <= t)
  {
    assert WorkerTarget(workerId)[0] == 'w';
    assert "canonical:"[0] == 'c' && "store:"[0] == 's' && "event_bus:"[0] == 'e' && "transport:"[0] == 't'
           && "provider:"[0] == 'p';
  }

  lemma {:induction false} RunningPlanHasNoStop(r: Request, planId: string)
    requires Runs(r)
    ensures var p := DerivedPlan(r, planId);
            PreflightStop(p).None? && |p.steps| == 1 && StepStop(p.steps[0]).None?
  {
    WorkerTargetIsNoStop(r.workerId);
  }

  lemma {:induction false} BuiltPlanStopsInPreflight(r: Request, planId: string)
    requires BuildPlan(r, planId).Ok?
    ensures PreflightStop(BuildPlan(r, planId).value).Some? <==> !Runs(r)
  {
    var p := BuildPlan(r, planId).value;
    BuiltPlanFollowsRequest(r, planId);
    if Runs(r) {
      RunningPlanHasNoStop(r, planId);
    }
  }

  /** A built plan completes exactly for an ungated, worker-targeted intent with an explicit worker;
      otherwise no step is even started. */
  lemma {:induction false} BuiltPlanCompletesExactlyWhen(r: Request, planId: string)
    requires BuildPlan(r, planId).Ok?
    ensures var x := ExecutionOf(BuildPlan(r, planId).value);
            && (if Runs(r) then x.finalState.RunCompleted? else x.finalState.RunStopped?)
            && (!Runs(r) ==> forall i :: 0 <= i < |x.trace| ==>
                  !x.trace[i].eventType.StepStarted? && !x.trace[i].eventType.StepCompleted?)
  {
    var p := BuildPlan(r, planId).value;
    BuiltPlanStopsInPreflight(r, planId);
    if Runs(r) {
      BuiltPlanFollowsRequest(r, planId);
      RunningPlanHasNoStop(r, planId);
      CompletesExactlyWhenNothingStops(p);
    } else {
      TraceOfStoppedPlan(p);
    }
  }
}
