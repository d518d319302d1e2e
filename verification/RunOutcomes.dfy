/** What a recovery run reports and records, read off its request and the controller's answer. */
module RunOutcomes {
  import opened Wrappers
  import opened Text
  import opened Evidence
  import opened Engine
  import opened Orchestrator

  // ----- The plan a request gets -----

  /** A worker is named, and not as the default one in any spelling. */
  predicate NamesWorker(workerId: Option<string>) {
    && workerId.Some? && Strip(workerId.value) != ""
    && var w := Strip(workerId.value);
       !(|w| == 7 && w[0] in "dD" && w[1] in "eE" && w[2] in "fF" && w[3] in "aA" && w[4] in "uU" && w[5] in "lL"
         && w[6] in "tT")
  }

  lemma {:induction false} NamesWorkerExactlyWhenExplicit(workerId: Option<string>)
    ensures NamesWorker(workerId) <==> HasExplicitWorker(workerId)
  {
    if workerId.Some? {
      LowerOfDefault(Strip(workerId.value));
    }
    hide Lower, Strip;
  }

  lemma {:induction false} LowerOfDefault(w: string)
    ensures Lower(w) == "default" <==>
            |w| == 7 && w[0] in "dD" && w[1] in "eE" && w[2] in "fF" && w[3] in "aA" && w[4] in "uU" && w[5] in "lL"
            && w[6] in "tT"
  {
    if |w| == 7 {
      var l := Lower(w);
      assert l == [l[0], l[1], l[2], l[3], l[4], l[5], l[6]];
    }
  }

  predicate ForWorker(i: Intent) {
    i == RetrySameWorker || i == RestartWorker || i == RecreateWorker
  }

  predicate Gated(d: Decision) {
    d.escalation == HumanGate || d.humanGateReason != None
  }

  /** The one step, and the gate reasons, of the plan for a request. */
  lemma {:induction false} PlanAnswersRequest(q: Request, planId: string)
    requires BuildPlan(q, planId).Ok?
    ensures var p := BuildPlan(q, planId).value; var d := q.decision;
            var w := "worker:" + if q.workerId.Some? then q.workerId.value else "None";
            p == Plan(planId, q.packetId, q.taskId, q.line, q.workerId, d.intent, p.steps, p.requiresHumanGate,
                      p.humanGateReasons, d.nextStepToken, false)
            && if ForWorker(d.intent) && !NamesWorker(q.workerId) then
                 p.steps == [Step(EmitHumanGate, "engine:stop", false, false, false, false)]
                 && !p.requiresHumanGate && p.humanGateReasons == []
               else if Gated(d) || d.intent == RequireOperatorAction then
                 p.steps == [Step(EmitHumanGate, "gate:operator", false, false, false, true)]
                 && p.requiresHumanGate
                 && p.humanGateReasons == [if d.humanGateReason in {None, Some("")}
                                           then "engine handoff requires human gate" else d.humanGateReason.value]
               else
                 !p.requiresHumanGate && p.humanGateReasons == []
                 && match d.intent
                    case RetrySameWorker => p.steps == [Step(DoRetrySameWorker, w, false, false, true, false)]
                    case RestartWorker => p.steps == [Step(DoRestartWorker, w, false, false, true, false)]
                    case RecreateWorker => p.steps == [Step(DoRecreateWorker, w, false, false, true, false)]
                    case RequireReauth =>
                      p.steps == [Step(MarkReauthRequired, "engine:reauth-handoff", false, false, false, false)]
                    case SplitScope => p.steps == [Step(DoSplitScope, "canonical:" + q.line, false, true, false, false)]
                    case DeferLine => p.steps == [Step(DoDeferLine, "canonical:" + q.line, false, true, false, false)]
                    case StopTheLine => p.steps == [Step(DoStopline, "canonical:" + q.line, false, true, false, false)]
                    case RefreshBranchOrWorktree =>
                      p.steps == [Step(EmitHumanGate, "engine:stop", false, false, false, false)]
                    case RequireOperatorAction => true
  {
    NamesWorkerExactlyWhenExplicit(q.workerId);
    hide ValidRequest, ValidPlan, NamesWorker, HasExplicitWorker;
  }

  /** A request is refused exactly when a text of it is blank, an automatic decision is for an intent that may not be
      automatic, or a gating decision gives no reason. */
  lemma {:induction false} RequestIsRefusedExactlyWhen(q: Request, planId: string)
    ensures var d := q.decision;
            BuildPlan(q, planId) == Err(InvalidRequest) <==>
              || Strip(d.nextStepToken) == "" || Strip(q.packetId) == "" || Strip(q.taskId) == "" || Strip(q.line) == ""
              || (q.workerId.Some? && Strip(q.workerId.value) == "")
              || ((d.escalation == Auto || d.escalation == AutoWithLimit)
                  && (d.intent == RequireOperatorAction || d.intent == SplitScope || d.intent == DeferLine
                      || d.intent == StopTheLine))
              || (d.escalation == HumanGate && (d.humanGateReason.None? || d.humanGateReason.value == ""))
  {
    var d := q.decision;
    StripCuts(d.nextStepToken);
    StripCuts(q.packetId);
    StripCuts(q.taskId);
    StripCuts(q.line);
    if q.workerId.Some? {
      StripCuts(q.workerId.value);
    }
    hide Strip, Blank;
    InvalidRequestIsRefused(q, planId);
    hide BuildPlan;
  }

  lemma {:induction false} InvalidRequestIsRefused(q: Request, planId: string)
    ensures BuildPlan(q, planId) == Err(InvalidRequest) <==> !ValidRequest(q)
  {
    hide ValidRequest, ValidPlan, HasExplicitWorker, DerivedPlan, StopPlan, HumanGatePlan;
  }

  // ----- What executing a plan ends with -----

  /** A step may run: it retries, restarts or recreates a worker, without arguments or gate, not destructively, and
      reaches for nothing the engine may not touch. */
  predicate StepRuns(s: Step) {
    && s.action in {DoRetrySameWorker, DoRestartWorker, DoRecreateWorker}
    && !s.hasArgs && !s.requiresHumanGate && !s.destructive
    && !("canonical:" <= s.target) && !("store:" <= s.target) && !("event_bus:" <= s.target)
    && !("transport:" <= s.target) && !("provider:" <= s.target)
  }

  /** Why a step stops the engine: the first of these that holds. */
  function StepStopsFor(s: Step): StopReason {
    if s.hasArgs then UnsupportedStepArgs
    else if s.action in {DoSplitScope, DoDeferLine, DoStopline} || "canonical:" <= s.target then
      PromotionRequiredOutsideEngine
    else if s.action == MarkReauthRequired then AdapterSpecificActionRequired
    else if s.action == EmitHumanGate || s.requiresHumanGate then HumanGateRequired
    else if "store:" <= s.target then StoreDetailLeak
    else if "event_bus:" <= s.target then EventBusDetailLeak
    else if "transport:" <= s.target || "provider:" <= s.target then TransportOrProviderDetailLeak
    else DestructiveStepNotAuthorized
  }

  lemma {:induction false} StepStopsExactlyWhen(s: Step)
    ensures StepStop(s) == if StepRuns(s) then None else Some(StepStopsFor(s))
  {
  }

  predicate EndsWith(x: Execution, status: Status, reason: StopReason) {
    && x.finalState == RunStopped && x.stopReason == Some(reason)
    && x.result == ExecResult(x.plan.planId, Identity(x.plan.packetId, x.plan.taskId, x.plan.line, x.plan.planId),
                              status, 0, None, None, status == BlockedByHumanGate)
  }

  /** Why a plan is refused before its first step: the first of these that holds. */
  predicate RefusedWith(p: Plan, status: Status, reason: StopReason) {
    if p.hasMetadata then status == Aborted && reason == UnsupportedPlanMetadata
    else if exists s :: s in p.steps && s.hasArgs then status == Aborted && reason == UnsupportedStepArgs
    else if ForWorker(p.intent) && !NamesWorker(p.workerId) then status == Aborted && reason == MissingWorkerId
    else if p.requiresHumanGate || exists s :: s in p.steps && s.requiresHumanGate then
      status == BlockedByHumanGate && reason == HumanGateRequired
    else
      status == Aborted
      && match p.intent
         case RequireReauth => reason == AdapterSpecificActionRequired
         case RequireOperatorAction => reason == HumanGateRequired
         case SplitScope | DeferLine | StopTheLine => reason == PromotionRequiredOutsideEngine
         case RefreshBranchOrWorktree => reason == UnsupportedFirstCutIntent
         case RetrySameWorker | RestartWorker | RecreateWorker => false
  }

  lemma {:induction false} PreflightRefuses(p: Plan)
    ensures PreflightStop(p).Some? ==>
              var stop := PreflightStop(p).value;
              && RefusedWith(p, stop.status, stop.reason)
              && stop.requiresHumanGate == stop.traceApproved == (stop.status == BlockedByHumanGate)
    ensures PreflightStop(p).None? ==> forall status, reason :: !RefusedWith(p, status, reason)
  {
    NamesWorkerExactlyWhenExplicit(p.workerId);
    assert forall i :: 0 <= i < |p.steps| ==> p.steps[i] in p.steps;
    hide NamesWorker, HasExplicitWorker;
  }

  /** How executing any plan ends: refused before its first step, with every step run, or at the first step that may
      not run. */
  lemma {:induction false} ExecutionAnswers(p: Plan)
    ensures var x := ExecutionOf(p);
            && x.plan == p
            && (forall status, reason :: RefusedWith(p, status, reason) ==> EndsWith(x, status, reason))
            && ((forall status, reason :: !RefusedWith(p, status, reason)) ==>
                  if forall s :: s in p.steps ==> StepRuns(s) then
                    && x.finalState == RunCompleted && x.stopReason == None
                    && x.result == ExecResult(p.planId, Identity(p.packetId, p.taskId, p.line, p.planId), Completed,
                                              |p.steps|, None, None, false)
                  else
                    exists i :: 0 <= i < |p.steps| && !StepRuns(p.steps[i])
                                && (forall j :: 0 <= j < i ==> StepRuns(p.steps[j]))
                                && EndsWith(x, Aborted, StepStopsFor(p.steps[i])))
  {
    PreflightRefuses(p);
    if PreflightStop(p).None? {
      StepsAnswer(p);
    } else {
      RefusedOnce(p, PreflightStop(p).value.status, PreflightStop(p).value.reason);
    }
    hide RefusedWith, StepRuns, StepStopsFor, RunnableSteps, Pairs, StepStop, PreflightStop;
  }

  lemma {:induction false} RefusedOnce(p: Plan, status: Status, reason: StopReason)
    requires RefusedWith(p, status, reason)
    ensures forall s, r :: RefusedWith(p, s, r) ==> s == status && r == reason
  {
    hide NamesWorker;
  }

  lemma {:induction false} StepsAnswer(p: Plan)
    requires PreflightStop(p).None?
    ensures var x := ExecutionOf(p);
            if forall s :: s in p.steps ==> StepRuns(s) then
              && x.finalState == RunCompleted && x.stopReason == None
              && x.result == ExecResult(p.planId, Identity(p.packetId, p.taskId, p.line, p.planId), Completed,
                                        |p.steps|, None, None, false)
            else
              exists i :: 0 <= i < |p.steps| && !StepRuns(p.steps[i])
                          && (forall j :: 0 <= j < i ==> StepRuns(p.steps[j]))
                          && EndsWith(x, Aborted, StepStopsFor(p.steps[i]))
  {
    RunnableStepsIsTheFirstStop(p.steps);
    forall i | 0 <= i < |p.steps|
      ensures StepStop(p.steps[i]) == if StepRuns(p.steps[i]) then None else Some(StepStopsFor(p.steps[i]))
    {
      StepStopsExactlyWhen(p.steps[i]);
    }
    hide StepStop, StepRuns, StepStopsFor, RunnableSteps, Pairs, PreflightStop;
  }

  // ----- What a run ends with -----

  /** The worker call that decides a run of this intent. */
  function Asked(i: Intent, c: Controller): Reply
    requires ForWorker(i)
  {
    if i == RetrySameWorker then c.awaitReady else if i == RestartWorker then c.restart else c.create
  }

  /** A run asks the controller for an ungated intent that targets a named worker. */
  predicate Asks(q: Request) {
    ForWorker(q.decision.intent) && NamesWorker(q.workerId) && !Gated(q.decision)
  }

  /** Why any other run stops: the first of these that holds. */
  function StopsFor(q: Request): (Status, StopReason) {
    var d := q.decision;
    if ForWorker(d.intent) && !NamesWorker(q.workerId) then (Aborted, MissingWorkerId)
    else if Gated(d) || d.intent == RequireOperatorAction then (BlockedByHumanGate, HumanGateRequired)
    else if d.intent == RequireReauth then (Aborted, AdapterSpecificActionRequired)
    else if d.intent == RefreshBranchOrWorktree then (Aborted, UnsupportedFirstCutIntent)
    else (Aborted, PromotionRequiredOutsideEngine)
  }

  /** Retrying waits until the worker is ready, restarting restarts it, recreating creates it, each asked once: an
      answer completes the run with that worker, an error fails it with the error's class. Any other run stops. */
  lemma {:induction false} RunOutcome(q: Request, planId: string, stage: Option<Stage>, controller: nat -> Controller,
                                      stamp: nat -> Stamp, run: Run)
    requires FaithfulRun(q, planId, stage, controller, stamp, run)
    ensures var id := Identity(q.packetId, q.taskId, q.line, planId);
            if Asks(q) then
              && run.stopReason == None
              && match Asked(q.decision.intent, controller(0))
                 case Answered(state) =>
                   && run.result == ExecResult(planId, id, Completed, 1, None, None, false)
                   && run.finalWorker == Some(state) && run.finalState == RunCompleted
                 case ControllerError(failure) =>
                   && run.result == ExecResult(planId, id, Failed, 0, Some(0), Some(failure), false)
                   && run.finalWorker == None && run.finalState == RunFailed
            else
              var (status, reason) := StopsFor(q);
              && run.result == ExecResult(planId, id, status, 0, None, None, status == BlockedByHumanGate)
              && run.stopReason == Some(reason) && run.finalWorker == None && run.finalState == RunStopped
  {
    AsksExactlyWhenRuns(q);
    EndOfRun(q, planId, stage, controller, stamp, run);
    hide FaithfulRun, Asks, StopsFor, Runs, ExecutionOf, BuildPlan, LoopFrom, LoopResult, Asked;
    if Asks(q) {
      WorkedPlan(q, planId, controller);
    } else {
      StoppedPlan(q, planId);
    }
  }

  lemma {:induction false} EndOfRun(q: Request, planId: string, stage: Option<Stage>, controller: nat -> Controller,
                                    stamp: nat -> Stamp, run: Run)
    requires FaithfulRun(q, planId, stage, controller, stamp, run)
    ensures BuildPlan(q, planId) == Ok(run.plan)
    ensures Runs(q) ==>
              && (forall j :: 0 <= j < |run.plan.steps| ==> RunnableAction(run.plan.steps[j].action))
              && var loop := LoopFrom(run.plan, 0, controller, None);
                 && run.result == LoopResult(run.plan, loop) && run.finalWorker == loop.worker && run.stopReason.None?
                 && run.finalState == if loop.ended.Some? then RunFailed else RunCompleted
    ensures !Runs(q) ==>
              && run.result == ExecutionOf(run.plan).result && run.stopReason == ExecutionOf(run.plan).stopReason
              && run.finalWorker.None? && run.finalState.RunStopped?
  {
    hide BuildPlan, RecordsTrace, Episode, ResultOf, ExecutionOf, LoopFrom, LoopResult, Runs;
  }

  /** The one step of a running plan, and what its answer makes of the run. */
  lemma {:induction false} WorkedPlan(q: Request, planId: string, controller: nat -> Controller)
    requires BuildPlan(q, planId).Ok? && Asks(q)
    ensures var p := BuildPlan(q, planId).value; var id := Identity(q.packetId, q.taskId, q.line, planId);
            && (forall j :: 0 <= j < |p.steps| ==> RunnableAction(p.steps[j].action))
            && var loop := LoopFrom(p, 0, controller, None);
               match Asked(q.decision.intent, controller(0))
               case Answered(state) =>
                 && LoopResult(p, loop) == ExecResult(planId, id, Completed, 1, None, None, false)
                 && loop.worker == Some(state) && loop.ended == None
               case ControllerError(failure) =>
                 && LoopResult(p, loop) == ExecResult(planId, id, Failed, 0, Some(0), Some(failure), false)
                 && loop.worker == None && loop.ended != None
  {
    PlanAnswersRequest(q, planId);
    hide BuildPlan, NamesWorker;
    LoopOfOneStep(BuildPlan(q, planId).value, controller);
    hide LoopFrom;
  }

  lemma {:induction false} AsksExactlyWhenRuns(q: Request)
    ensures Asks(q) <==> Runs(q)
  {
    NamesWorkerExactlyWhenExplicit(q.workerId);
    hide NamesWorker, HasExplicitWorker;
  }

  /** A plan built for a request that asks for no worker is refused before its first step. */
  lemma {:induction false} StoppedPlan(q: Request, planId: string)
    requires BuildPlan(q, planId).Ok? && !Asks(q)
    ensures var (status, reason) := StopsFor(q); var x := ExecutionOf(BuildPlan(q, planId).value);
            && x.result == ExecResult(planId, Identity(q.packetId, q.taskId, q.line, planId), status, 0, None, None,
                                      status == BlockedByHumanGate)
            && x.stopReason == Some(reason) && x.finalState == RunStopped
  {
    var p := BuildPlan(q, planId).value;
    StoppedPlanIsRefused(q, planId);
    StoppedPlanIs(q, planId);
    hide BuildPlan, RefusedWith, StopsFor, ExecutionOf;
    ExecutionAnswers(p);
  }

  lemma {:induction false} StoppedPlanIsRefused(q: Request, planId: string)
    requires BuildPlan(q, planId).Ok? && !Asks(q)
    ensures RefusedWith(BuildPlan(q, planId).value, StopsFor(q).0, StopsFor(q).1)
  {
    var p := BuildPlan(q, planId).value;
    BuiltPlanFollowsRequest(q, planId);
    StoppedPlanIs(q, planId);
    hide BuildPlan, NamesWorker, RefusedWith;
    RefusalOfOneStep(p, StopsFor(q).0, StopsFor(q).1);
  }

  lemma {:induction false} RefusalOfOneStep(p: Plan, status: Status, reason: StopReason)
    requires |p.steps| == 1 && !p.hasMetadata && !p.steps[0].hasArgs
    requires p.requiresHumanGate <==> p.steps[0].requiresHumanGate
    requires (status, reason) ==
             if ForWorker(p.intent) && !NamesWorker(p.workerId) then (Aborted, MissingWorkerId)
             else if p.requiresHumanGate then (BlockedByHumanGate, HumanGateRequired)
             else if p.intent == RequireReauth then (Aborted, AdapterSpecificActionRequired)
             else if p.intent == RefreshBranchOrWorktree then (Aborted, UnsupportedFirstCutIntent)
             else (Aborted, PromotionRequiredOutsideEngine)
    requires !p.requiresHumanGate ==> p.intent != RequireOperatorAction
    requires p.requiresHumanGate || !ForWorker(p.intent) || !NamesWorker(p.workerId)
    ensures RefusedWith(p, status, reason)
  {
    hide NamesWorker;
    assert p.steps[0] in p.steps && forall s :: s in p.steps ==> s == p.steps[0];
  }

  lemma {:induction false} LoopOfOneStep(p: Plan, controller: nat -> Controller)
    requires |p.steps| == 1 && RunnableAction(p.steps[0].action)
    ensures var reply := StepReply(p.steps[0].action, controller(0));
            LoopFrom(p, 0, controller, None) ==
            if reply.Answered? then Loop(1, Some(reply.state), None) else Loop(0, None, Some(reply))
  {
    hide StepReply;
    var reply := StepReply(p.steps[0].action, controller(0));
    if reply.Answered? {
      assert LoopFrom(p, 1, controller, Some(reply.state)) == Loop(1, Some(reply.state), None);
    }
  }

  // ----- What a run records -----

  function WorkerAction(i: Intent): Action
    requires ForWorker(i)
  {
    if i == RetrySameWorker then DoRetrySameWorker else if i == RestartWorker then DoRestartWorker else DoRecreateWorker
  }

  /** The payloads of a run that asks the controller: plan, step started, step completed or failed, result. */
  function WorkedPayloads(q: Request, planId: string, reply: Reply): seq<Payload>
    requires Asks(q)
  {
    var d := q.decision; var action, target := WorkerAction(d.intent), "worker:" + q.workerId.value;
    var failure := if reply.Answered? then None else Some(reply.failureClass);
    [PlanPayload(PlanCreated, planId, q.taskId, q.line, q.workerId, d.intent, false, d.nextStepToken, [], Some(1)),
     StepPayload(StepStarted, planId, q.taskId, q.line, q.workerId, 0, action, target, false, None),
     StepPayload(if reply.Answered? then StepCompleted else StepFailed, planId, q.taskId, q.line, q.workerId, 0, action,
                 target, false, failure),
     if reply.Answered? then
       ResultPayload(planId, q.taskId, q.line, q.workerId, Completed, 1, false, None, None, None, None)
     else ResultPayload(planId, q.taskId, q.line, q.workerId, Failed, 0, false, Some(0), failure, None, None)]
  }

  /** The reasons of a gated plan. */
  function ReasonsOf(q: Request): seq<string> {
    var d := q.decision;
    if StopsFor(q).0 != BlockedByHumanGate then []
    else if d.humanGateReason in {None, Some("")} then ["engine handoff requires human gate"]
    else [d.humanGateReason.value]
  }

  /** The payloads of a run that stops: plan, its approval in front of a human gate, result. */
  function StoppedPayloads(q: Request, planId: string): seq<Payload> {
    var d := q.decision; var (status, reason) := StopsFor(q);
    var gated := status == BlockedByHumanGate;
    [PlanPayload(PlanCreated, planId, q.taskId, q.line, q.workerId, d.intent, gated, d.nextStepToken, ReasonsOf(q),
                 Some(1))]
    + (if gated then [PlanPayload(PlanApproved, planId, q.taskId, q.line, q.workerId, d.intent, true, d.nextStepToken,
                                  ReasonsOf(q), Some(1))] else [])
    + [ResultPayload(planId, q.taskId, q.line, q.workerId, status, 0, gated, None, None, None, Some(reason))]
  }

  function PayloadsOf(q: Request, planId: string, controller: nat -> Controller): seq<Payload> {
    if Asks(q) then WorkedPayloads(q, planId, Asked(q.decision.intent, controller(0))) else StoppedPayloads(q, planId)
  }

  /** The shell of the event that carries a payload. */
  predicate Carries(e: RuntimeEvent, payload: Payload, q: Request, stage: Option<Stage>, s: Stamp) {
    && Extract(e) == Ok(payload)
    && e.packetId == q.packetId && e.workerId == q.workerId && e.stage == stage && e.outcome == None
    && e.eventId == s.eventId && e.createdAt == s.createdAt
    && match payload
       case PlanPayload(t, _, _, _, _, _, _, _, _, _) =>
         e.message == if t == PlanCreated then "Recovery execution plan created" else "Recovery execution plan approved"
       case StepPayload(t, _, _, _, _, _, _, _, _, _) =>
         e.message == if t == StepStarted then "Recovery execution step started"
                      else if t == StepCompleted then "Recovery execution step completed"
                      else "Recovery execution step failed"
       case ResultPayload(_, _, _, _, _, _, _, _, _, _, _) => e.message == "Recovery execution result recorded"
  }

  /** The events of a run, one by one. */
  lemma {:induction false} RunEvents(q: Request, planId: string, stage: Option<Stage>, controller: nat -> Controller,
                                     stamp: nat -> Stamp, run: Run)
    requires FaithfulRun(q, planId, stage, controller, stamp, run)
    ensures |run.events| == |PayloadsOf(q, planId, controller)|
    ensures forall i :: 0 <= i < |run.events| ==>
              Carries(run.events[i], PayloadsOf(q, planId, controller)[i], q, stage, stamp(i))
  {
    AsksExactlyWhenRuns(q);
    RecordedRun(q, planId, stage, controller, stamp, run);
    RunOutcome(q, planId, stage, controller, stamp, run);
    hide FaithfulRun, RunTrace, RecordsTrace, PayloadAt, EventFor, Carries, PayloadsOf, BuildPlan;
    TracePayloads(q, planId, controller);
    var p, trace, payloads := run.plan, RunTrace(q, run.plan, controller), PayloadsOf(q, planId, controller);
    BuiltPlanFollowsRequest(q, planId);
    forall i | 0 <= i < |run.events| ensures Carries(run.events[i], payloads[i], q, stage, stamp(i)) {
      assert PayloadAt(trace[i], p, run.result) == Ok(payloads[i]);
      CarriedPayload(trace[i], p, run.result, payloads[i], run.events[i], q, stage, stamp(i));
    }
  }

  /** Every trace event of a run converts to its payload. */
  lemma {:induction false} TracePayloads(q: Request, planId: string, controller: nat -> Controller)
    requires BuildPlan(q, planId).Ok?
    ensures var p, payloads := BuildPlan(q, planId).value, PayloadsOf(q, planId, controller);
            && (Runs(q) ==> forall j :: 0 <= j < |p.steps| ==> RunnableAction(p.steps[j].action))
            && var trace, result := RunTrace(q, p, controller), RunResult(q, p, controller);
               && |trace| == |payloads|
               && forall i :: 0 <= i < |trace| && PayloadAt(trace[i], p, result).Ok? ==>
                    PayloadAt(trace[i], p, result).value == payloads[i]
  {
    AsksExactlyWhenRuns(q);
    if Asks(q) {
      WorkedPayloadsAre(q, planId, controller);
    } else {
      StoppedPayloadsAre(q, planId);
    }
    hide BuildPlan, Asks, Runs, PayloadAt, LoopTrace, LoopFrom, LoopResult, ExecutionOf, Asked;
    hide WorkedPayloads, StoppedPayloads;
  }

  lemma {:induction false} WorkedPayloadsAre(q: Request, planId: string, controller: nat -> Controller)
    requires BuildPlan(q, planId).Ok? && Asks(q)
    ensures var p := BuildPlan(q, planId).value;
            && (forall j :: 0 <= j < |p.steps| ==> RunnableAction(p.steps[j].action))
            && var loop := LoopFrom(p, 0, controller, None);
               var payloads := WorkedPayloads(q, planId, Asked(q.decision.intent, controller(0)));
               && |LoopTrace(p, loop)| == 4
               && forall i :: 0 <= i < 4 && PayloadAt(LoopTrace(p, loop)[i], p, LoopResult(p, loop)).Ok? ==>
                    PayloadAt(LoopTrace(p, loop)[i], p, LoopResult(p, loop)).value == payloads[i]
  {
    var p := BuildPlan(q, planId).value;
    WorkedPlan(q, planId, controller);
    PlanAnswersRequest(q, planId);
    var loop := LoopFrom(p, 0, controller, None);
    var result := LoopResult(p, loop);
    hide BuildPlan, LoopFrom, LoopResult, LoopTrace, PayloadAt, WorkedPayloads, PayloadsFrom, NamesWorker;
    WorkedTrace(p, loop);
    assert WorkedPayloads(q, planId, Asked(q.decision.intent, controller(0))) == PayloadsFrom(p, result) by {
      WorkedPayloadsFrom(q, planId, Asked(q.decision.intent, controller(0)), p, result);
    }
    hide Asked, Asks;
    TracePayloadsFrom(p, result);
  }

  /** The payloads of a plan of one step with its result. */
  function PayloadsFrom(p: Plan, r: ExecResult): seq<Payload>
    requires |p.steps| == 1
  {
    var s := p.steps[0];
    var failed := r.status == Failed;
    [PlanPayload(PlanCreated, p.planId, p.taskId, p.line, p.workerId, p.intent, p.requiresHumanGate, p.nextStepToken,
                 p.humanGateReasons, Some(1)),
     StepPayload(StepStarted, p.planId, p.taskId, p.line, p.workerId, 0, s.action, s.target, s.requiresHumanGate, None),
     StepPayload(if failed then StepFailed else StepCompleted, p.planId, p.taskId, p.line, p.workerId, 0, s.action,
                 s.target, s.requiresHumanGate, if failed then r.failureClass else None),
     ResultPayload(p.planId, p.taskId, p.line, p.workerId, r.status, r.completedStepCount, r.requiresHumanGate,
                   r.failedStepIndex, r.failureClass, None, None)]
  }

  lemma {:induction false} WorkedPayloadsFrom(q: Request, planId: string, reply: Reply, p: Plan, r: ExecResult)
    requires Asks(q) && |p.steps| == 1
    requires p == Plan(planId, q.packetId, q.taskId, q.line, q.workerId, q.decision.intent, p.steps, false, [],
                       q.decision.nextStepToken, false)
    requires p.steps[0] == Step(WorkerAction(q.decision.intent), "worker:" + q.workerId.value, false, false, true,
                                false)
    requires r == if reply.Answered? then ExecResult(planId, r.identity, Completed, 1, None, None, false)
                  else ExecResult(planId, r.identity, Failed, 0, Some(0), Some(reply.failureClass), false)
    ensures WorkedPayloads(q, planId, reply) == PayloadsFrom(p, r)
  {
    hide Asks;
  }

  lemma {:induction false} TracePayloadsFrom(p: Plan, r: ExecResult)
    requires |p.steps| == 1 && (r.status == Completed || r.status == Failed)
    ensures var trace := [PlanTrace(PlanCreated, p), StepTrace(StepStarted, p, 0),
                          StepTrace(if r.status == Failed then StepFailed else StepCompleted, p, 0),
                          ResultTrace(p, r.status, None)];
            forall i :: 0 <= i < 4 && PayloadAt(trace[i], p, r).Ok? ==>
              PayloadAt(trace[i], p, r).value == PayloadsFrom(p, r)[i]
  {
    hide PayloadAt, PlanTrace, StepTrace, ResultTrace;
    PlanPayloadOf(p, PlanCreated, r);
    StepPayloadOf(p, StepStarted, r);
    StepPayloadOf(p, if r.status == Failed then StepFailed else StepCompleted, r);
    ResultPayloadOf(p, r, None);
  }

  lemma {:induction false} WorkedTrace(p: Plan, l: Loop)
    requires |p.steps| == 1 && l.completed <= 1 && (l.ended.Some? <==> l.completed == 0)
    ensures LoopTrace(p, l) == [PlanTrace(PlanCreated, p), StepTrace(StepStarted, p, 0),
                                StepTrace(if l.ended.Some? then StepFailed else StepCompleted, p, 0),
                                ResultTrace(p, if l.ended.Some? then Failed else Completed, None)]
  {
    hide PlanTrace, StepTrace, ResultTrace;
    assert Pairs(p, 0) == [];
  }

  lemma {:induction false} PlanPayloadOf(p: Plan, t: PayloadType, result: ExecResult)
    requires t == PlanCreated || t == PlanApproved
    ensures PayloadAt(PlanTrace(t, p), p, result).Ok? ==>
              PayloadAt(PlanTrace(t, p), p, result).value ==
              PlanPayload(t, p.planId, p.taskId, p.line, p.workerId, p.intent, p.requiresHumanGate, p.nextStepToken,
                          p.humanGateReasons, Some(|p.steps|))
  {
    hide ValidPayload;
  }

  lemma {:induction false} StepPayloadOf(p: Plan, t: PayloadType, result: ExecResult)
    requires |p.steps| == 1 && (t == StepStarted || t == StepCompleted || t == StepFailed)
    ensures PayloadAt(StepTrace(t, p, 0), p, result).Ok? ==>
              PayloadAt(StepTrace(t, p, 0), p, result).value ==
              StepPayload(t, p.planId, p.taskId, p.line, p.workerId, 0, p.steps[0].action, p.steps[0].target,
                          p.steps[0].requiresHumanGate, if t == StepFailed then result.failureClass else None)
  {
    hide ValidPayload;
  }

  lemma {:induction false} ResultPayloadOf(p: Plan, result: ExecResult, stop: Option<StopReason>)
    ensures PayloadAt(ResultTrace(p, result.status, stop), p, result).Ok? ==>
              PayloadAt(ResultTrace(p, result.status, stop), p, result).value ==
              ResultPayload(p.planId, p.taskId, p.line, p.workerId, result.status, result.completedStepCount,
                            result.requiresHumanGate, result.failedStepIndex, result.failureClass, None, stop)
  {
    hide ValidPayload;
  }

  lemma {:induction false} StoppedPayloadsAre(q: Request, planId: string)
    requires BuildPlan(q, planId).Ok? && !Asks(q)
    ensures var p := BuildPlan(q, planId).value; var x := ExecutionOf(p); var payloads := StoppedPayloads(q, planId);
            && |x.trace| == |payloads|
            && forall i :: 0 <= i < |x.trace| && PayloadAt(x.trace[i], p, x.result).Ok? ==>
                 PayloadAt(x.trace[i], p, x.result).value == payloads[i]
  {
    var p := BuildPlan(q, planId).value;
    var x := ExecutionOf(p);
    StoppedPlanIs(q, planId);
    StoppedPlan(q, planId);
    AsksExactlyWhenRuns(q);
    BuiltPlanStopsInPreflight(q, planId);
    StoppedTrace(p);
    hide BuildPlan, ExecutionOf, PreflightStop, Runs, Asks, PayloadAt, StopsFor, ReasonsOf, PlanTrace, ResultTrace;
    TraceStops(p, x.result, x.stopReason);
    assert StoppedPayloads(q, planId) == PayloadsOfStop(p, x.result, x.stopReason);
    hide StoppedPayloads, PayloadsOfStop;
  }

  /** The payloads of a plan that is stopped before its one step. */
  function PayloadsOfStop(p: Plan, r: ExecResult, stop: Option<StopReason>): seq<Payload> {
    [PlanPayload(PlanCreated, p.planId, p.taskId, p.line, p.workerId, p.intent, p.requiresHumanGate, p.nextStepToken,
                 p.humanGateReasons, Some(|p.steps|))]
    + (if r.status == BlockedByHumanGate then
         [PlanPayload(PlanApproved, p.planId, p.taskId, p.line, p.workerId, p.intent, p.requiresHumanGate,
                      p.nextStepToken, p.humanGateReasons, Some(|p.steps|))]
       else [])
    + [ResultPayload(p.planId, p.taskId, p.line, p.workerId, r.status, r.completedStepCount, r.requiresHumanGate,
                     r.failedStepIndex, r.failureClass, None, stop)]
  }

  lemma {:induction false} TraceStops(p: Plan, r: ExecResult, stop: Option<StopReason>)
    ensures var trace := [PlanTrace(PlanCreated, p)]
                         + (if r.status == BlockedByHumanGate then [PlanTrace(PlanApproved, p)] else [])
                         + [ResultTrace(p, r.status, stop)];
            && |trace| == |PayloadsOfStop(p, r, stop)|
            && forall i :: 0 <= i < |trace| && PayloadAt(trace[i], p, r).Ok? ==>
                 PayloadAt(trace[i], p, r).value == PayloadsOfStop(p, r, stop)[i]
  {
    hide PayloadAt, PlanTrace, ResultTrace;
    PlanPayloadOf(p, PlanCreated, r);
    PlanPayloadOf(p, PlanApproved, r);
    ResultPayloadOf(p, r, stop);
  }

  lemma {:induction false} StoppedTrace(p: Plan)
    requires PreflightStop(p).Some?
    ensures var x := ExecutionOf(p);
            x.trace == [PlanTrace(PlanCreated, p)]
                       + (if x.result.status == BlockedByHumanGate then [PlanTrace(PlanApproved, p)] else [])
                       + [ResultTrace(p, x.result.status, x.stopReason)]
  {
    TraceOfStoppedPlan(p);
    hide ExecutionOf, PreflightStop;
  }

  lemma {:induction false} StoppedPlanIs(q: Request, planId: string)
    requires BuildPlan(q, planId).Ok? && !Asks(q)
    ensures var p := BuildPlan(q, planId).value;
            && p.planId == planId && p.packetId == q.packetId && p.taskId == q.taskId && p.line == q.line
            && p.workerId == q.workerId && p.intent == q.decision.intent && |p.steps| == 1
            && p.nextStepToken == q.decision.nextStepToken
            && p.requiresHumanGate == (StopsFor(q).0 == BlockedByHumanGate) && p.humanGateReasons == ReasonsOf(q)
  {
    PlanAnswersRequest(q, planId);
    hide BuildPlan, NamesWorker;
  }

  lemma {:induction false} RecordedRun(q: Request, planId: string, stage: Option<Stage>, controller: nat -> Controller,
                                       stamp: nat -> Stamp, run: Run)
    requires FaithfulRun(q, planId, stage, controller, stamp, run)
    ensures BuildPlan(q, planId) == Ok(run.plan)
    ensures Runs(q) ==> forall j :: 0 <= j < |run.plan.steps| ==> RunnableAction(run.plan.steps[j].action)
    ensures run.result == RunResult(q, run.plan, controller)
    ensures |run.events| == |RunTrace(q, run.plan, controller)|
    ensures forall i :: 0 <= i < |run.events| ==>
              && EventFor(RunTrace(q, run.plan, controller)[i], run.plan, run.result, run.plan.packetId, stage,
                          stamp(i)) == Ok(run.events[i])
              && PayloadAt(RunTrace(q, run.plan, controller)[i], run.plan, run.result).Ok?
              && Extract(run.events[i]) ==
                 Ok(PayloadAt(RunTrace(q, run.plan, controller)[i], run.plan, run.result).value)
  {
    hide BuildPlan, RunTrace, RunResult, EventFor, PayloadAt, Extract, Episode, ResultOf, EndsAs, Runs;
  }

  lemma {:induction false} CarriedPayload(t: TraceEvent, p: Plan, result: ExecResult, payload: Payload, e: RuntimeEvent,
                                          q: Request, stage: Option<Stage>, s: Stamp)
    requires PayloadAt(t, p, result) == Ok(payload) && EventFor(t, p, result, p.packetId, stage, s) == Ok(e)
    requires Extract(e) == Ok(payload) && p.packetId == q.packetId && p.workerId == q.workerId
    ensures Carries(e, payload, q, stage, s)
  {
    hide Extract, ValidPayload, Dump, KindFor, FailureOf;
  }

  /** When a trace event is refused: it is of another plan, task or worker, or of a step the plan has not; a result
      event comes without a result or with another plan's; or its payload would be invalid. */
  lemma {:induction false} RefusedTraceEvents(
      t: TraceEvent, p: Plan, result: Option<ExecResult>, failure: Option<FailureClass>)
    ensures var r := PayloadFor(t, p, result, failure);
            var isStep := t.eventType in {StepStarted, StepCompleted, StepFailed};
            var foreign := t.planId != p.planId || t.taskId != p.taskId || t.workerId != p.workerId
                           || (isStep && (t.stepIndex == None || t.stepIndex.value < 0 || |p.steps| <= t.stepIndex.value
                                          || (t.action != None
                                              && t.action.value != p.steps[t.stepIndex.value].action)));
            && (r == Err(TraceMismatch) <==> foreign)
            && (r == Err(MissingResult) <==> !foreign && t.eventType == ResultRecorded && result == None)
            && (r == Err(ResultMismatch) <==>
                  !foreign && t.eventType == ResultRecorded && result != None && result.value.planId != p.planId)
            && (r.Ok? ==> ValidPayload(r.value) && TypeOf(r.value) == t.eventType)
            && (r.Ok? && isStep ==> r.value.failureClass == if t.eventType == StepFailed then failure else None)
  {
    hide ValidPayload;
  }
}
