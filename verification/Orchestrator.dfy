/** One bounded recovery pass: plan, worker actions, and the typed events that record it. */
module Orchestrator {
  import opened Wrappers
  import opened Text
  import opened Evidence
  import opened Engine

  // ----- From trace events to payloads -----

  datatype PayloadError = TraceMismatch | MissingResult | ResultMismatch | InvalidPayload

  function PayloadFor(t: TraceEvent, p: Plan, result: Option<ExecResult>, failure: Option<FailureClass>)
    : Result<Payload, PayloadError>
  {
    if t.planId != p.planId || t.taskId != p.taskId || t.workerId != p.workerId then Err(TraceMismatch)
    else
      match t.eventType
      case PlanCreated | PlanApproved =>
        Validated(PlanPayload(t.eventType, p.planId, p.taskId, p.line, p.workerId, p.intent, p.requiresHumanGate,
                              p.nextStepToken, p.humanGateReasons, Some(|p.steps|)))
      case StepStarted | StepCompleted | StepFailed =>
        if t.stepIndex.None? || !(0 <= t.stepIndex.value < |p.steps|) then Err(TraceMismatch)
        else
          var step := p.steps[t.stepIndex.value];
          if t.action.Some? && t.action.value != step.action then Err(TraceMismatch)
          else Validated(StepPayload(t.eventType, p.planId, p.taskId, p.line, p.workerId, t.stepIndex.value,
                                     step.action, step.target, step.requiresHumanGate,
                                     if t.eventType.StepFailed? then failure else None))
      case ResultRecorded =>
        if result.None? then Err(MissingResult)
        else if result.value.planId != p.planId then Err(ResultMismatch)
        else
          var r := result.value;
          Validated(ResultPayload(p.planId, p.taskId, p.line, p.workerId, r.status, r.completedStepCount,
                                  r.requiresHumanGate, r.failedStepIndex, r.failureClass, None, t.stopReason))
  }

  function Validated(p: Payload): Result<Payload, PayloadError> {
    if ValidPayload(p) then Ok(p) else Err(InvalidPayload)
  }

  // ----- Worker control -----

  datatype WorkerState = WorkerState(workerId: string, ready: bool)

  datatype Reply =
    | Answered(state: WorkerState)
    | ControllerError(failureClass: FailureClass)

  /** What the worker controller would answer to each call made for one step. */
  datatype Controller = Controller(awaitReady: Reply, restart: Reply, terminate: Reply, create: Reply)

  /** A failing terminate is suppressed before a worker is created again. */
  function StepReply(a: Action, c: Controller): Reply
    requires RunnableAction(a)
  {
    match a
    case DoRetrySameWorker => c.awaitReady
    case DoRestartWorker => c.restart
    case DoRecreateWorker => c.create
  }

  // ----- Runs -----

  /** The generated id and clock reading of the i-th event. */
  datatype Stamp = Stamp(eventId: string, createdAt: string)

  datatype Run = Run(plan: Plan, result: ExecResult, events: seq<RuntimeEvent>, finalWorker: Option<WorkerState>,
                     stopReason: Option<StopReason>, finalState: FinalState)

  datatype RunError = EngineRejected(e: EngineError) | PayloadRejected(p: PayloadError) | UnsupportedStep

  function MessageFor(t: PayloadType): string {
    match t
    case PlanCreated => "Recovery execution plan created"
    case PlanApproved => "Recovery execution plan approved"
    case StepStarted => "Recovery execution step started"
    case StepCompleted => "Recovery execution step completed"
    case StepFailed => "Recovery execution step failed"
    case ResultRecorded => "Recovery execution result recorded"
  }

  /** The payload `_build_run` asks for: only result events see the result, only failed steps its failure class. */
  function PayloadAt(t: TraceEvent, p: Plan, result: ExecResult): Result<Payload, PayloadError> {
    PayloadFor(t, p, if t.eventType.ResultRecorded? then Some(result) else None,
               if t.eventType.StepFailed? then result.failureClass else None)
  }

  function EventFor(t: TraceEvent, p: Plan, result: ExecResult, packetId: string, stage: Option<Stage>, s: Stamp)
    : Result<RuntimeEvent, PayloadError>
  {
    match PayloadAt(t, p, result)
    case Err(e) => Err(e)
    case Ok(payload) => Ok(Wrap(payload, packetId, MessageFor(t.eventType), stage, s.eventId, s.createdAt))
  }

  /** The worker loop: how many steps were answered, the last answer, and the reply that ended it early. */
  datatype Loop = Loop(completed: nat, worker: Option<WorkerState>, ended: Option<Reply>)

  /** Steps i.. of the plan: each is answered by the controller until one is not. */
  function LoopFrom(p: Plan, i: nat, controller: nat -> Controller, last: Option<WorkerState>): (l: Loop)
    requires i <= |p.steps| && forall j :: 0 <= j < |p.steps| ==> RunnableAction(p.steps[j].action)
    ensures l.completed <= |p.steps| && (l.ended.Some? <==> l.completed < |p.steps|)
    ensures l.ended.Some? ==> !l.ended.value.Answered?
    decreases |p.steps| - i
  {
    if i == |p.steps| then Loop(i, last, None)
    else
      var reply := StepReply(p.steps[i].action, controller(i));
      if reply.Answered? then LoopFrom(p, i + 1, controller, Some(reply.state)) else Loop(i, last, Some(reply))
  }

  /** The trace of a loop; a loop that ended early failed at its next step. */
  function LoopTrace(p: Plan, l: Loop): seq<TraceEvent>
    requires l.completed <= |p.steps| && (l.ended.Some? ==> l.completed < |p.steps|)
  {
    [PlanTrace(PlanCreated, p)] + Pairs(p, l.completed) +
    if l.ended.Some? then [StepTrace(StepStarted, p, l.completed), StepTrace(StepFailed, p, l.completed),
                           ResultTrace(p, Failed, None)]
    else [ResultTrace(p, Completed, None)]
  }

  function LoopResult(p: Plan, l: Loop): ExecResult {
    if l.ended.Some? && l.ended.value.ControllerError? then
      ExecResult(p.planId, PlanIdentity(p), Failed, l.completed, Some(l.completed),
                 Some(l.ended.value.failureClass), false)
    else ExecResult(p.planId, PlanIdentity(p), Completed, l.completed, None, None, false)
  }

  /** The result a run must report: the engine's own when the probe stops, else what the workers did. */
  function RunResult(q: Request, p: Plan, controller: nat -> Controller): ExecResult
    requires Runs(q) ==> forall j :: 0 <= j < |p.steps| ==> RunnableAction(p.steps[j].action)
  {
    if Runs(q) then LoopResult(p, LoopFrom(p, 0, controller, None)) else ExecutionOf(p).result
  }

  /** The trace a run must record, event by event. */
  function RunTrace(q: Request, p: Plan, controller: nat -> Controller): seq<TraceEvent>
    requires Runs(q) ==> forall j :: 0 <= j < |p.steps| ==> RunnableAction(p.steps[j].action)
  {
    if Runs(q) then LoopTrace(p, LoopFrom(p, 0, controller, None)) else ExecutionOf(p).trace
  }

  /** `_build_run`: one event per trace event. */
  method BuildRun(p: Plan, result: ExecResult, trace: seq<TraceEvent>, packetId: string, stage: Option<Stage>,
                  stamp: nat -> Stamp, worker: Option<WorkerState>, stop: Option<StopReason>, state: FinalState)
    returns (r: Result<Run, RunError>)
    ensures r.Ok? ==> r.value == Run(p, result, r.value.events, worker, stop, state) && |r.value.events| == |trace|
    ensures r.Ok? ==> forall i :: 0 <= i < |trace| ==>
              EventFor(trace[i], p, result, packetId, stage, stamp(i)) == Ok(r.value.events[i])
    ensures r.Err? ==>
              exists i :: 0 <= i < |trace| && EventFor(trace[i], p, result, packetId, stage, stamp(i)).Err?
                          && r.error == PayloadRejected(EventFor(trace[i], p, result, packetId, stage, stamp(i)).error)
                          && forall j :: 0 <= j < i ==>
                               EventFor(trace[j], p, result, packetId, stage, stamp(j)).Ok?
  {
    hide EventFor;
    var events := [];
    while |events| < |trace|
      invariant |events| <= |trace|
      invariant forall i :: 0 <= i < |events| ==>
                  EventFor(trace[i], p, result, packetId, stage, stamp(i)) == Ok(events[i])
    {
      var next := EventFor(trace[|events|], p, result, packetId, stage, stamp(|events|));
      if next.Err? {
        return Err(PayloadRejected(next.error));
      }
      events := events + [next.value];
    }
    r := Ok(Run(p, result, events, worker, stop, state));
  }

  /** The events are the trace, event by event, and each extracts back to exactly the payload built for it. */
  ghost predicate RecordsTrace(events: seq<RuntimeEvent>, trace: seq<TraceEvent>, p: Plan, result: ExecResult,
                          stage: Option<Stage>, stamp: nat -> Stamp) {
    && |events| == |trace|
    && forall i :: 0 <= i < |trace| ==>
         && EventFor(trace[i], p, result, p.packetId, stage, stamp(i)) == Ok(events[i])
         && PayloadAt(trace[i], p, result).Ok?
         && Extract(events[i]) == Ok(PayloadAt(trace[i], p, result).value)
  }

  /** Where a run ends: the last worker state, the engine's stop reason, and the final state. */
  ghost predicate EndsAs(q: Request, p: Plan, controller: nat -> Controller, run: Run)
    requires Runs(q) ==> forall j :: 0 <= j < |p.steps| ==> RunnableAction(p.steps[j].action)
  {
    if Runs(q) then
      var loop := LoopFrom(p, 0, controller, None);
      && run.finalWorker == loop.worker && run.stopReason.None?
      && run.finalState == if loop.ended.Some? then RunFailed else RunCompleted
    else
      run.finalWorker.None? && run.stopReason == ExecutionOf(p).stopReason && run.finalState.RunStopped?
  }

  /** A run of the plan the request calls for: result, end and events are what the engine or the workers did, and the
      events are one whole episode of the request's identity and worker that ends with that result's status. */
  ghost predicate FaithfulRun(q: Request, planId: string, stage: Option<Stage>, controller: nat -> Controller,
                              stamp: nat -> Stamp, run: Run) {
    var p := run.plan;
    && BuildPlan(q, planId) == Ok(p)
    && (Runs(q) ==> forall j :: 0 <= j < |p.steps| ==> RunnableAction(p.steps[j].action))
    && run.result == RunResult(q, p, controller)
    && EndsAs(q, p, controller, run)
    && RecordsTrace(run.events, RunTrace(q, p, controller), p, run.result, stage, stamp)
    && Episode(run.events, Identity(q.packetId, q.taskId, q.line, planId), q.workerId)
    && ResultOf(run.events).resultStatus == run.result.status
    && run.events[0].createdAt == stamp(0).createdAt
  }

  /** `ThinOrchestrator.run`: a run exists exactly when the plan can be built, whatever the controller does. */
  method Orchestrate(q: Request, planId: string, stage: Option<Stage>, controller: nat -> Controller,
                     stamp: nat -> Stamp)
    returns (r: Result<Run, RunError>)
    requires !Blank(planId)
    ensures r.Ok? <==> BuildPlan(q, planId).Ok?
    ensures r.Err? ==> r.error == EngineRejected(BuildPlan(q, planId).error)
    ensures r.Ok? ==> FaithfulRun(q, planId, stage, controller, stamp, r.value)
  {
    hide BuildPlan, ExecutionOf, EventFor, FaithfulRun, EpisodeTrace, ValidResult, PayloadAt, ResultOf;
    var built := BuildPlan(q, planId);
    if built.Err? {
      return Err(EngineRejected(built.error));
    }
    var p := built.value;
    BuiltPlanFollowsRequest(q, planId);
    BuiltPlanCompletesExactlyWhen(q, planId);
    RunTraceConverts(q, planId, controller, stage, stamp);
    var probe := ExecutePlan(p);
    if probe.value.finalState.RunStopped? {
      r := BuildRun(p, probe.value.result, probe.value.trace, q.packetId, stage, stamp, None,
                    probe.value.stopReason, RunStopped);
      BuiltRunIsFaithful(q, planId, stage, controller, stamp, r.value);
      return;
    }
    ghost var loop := LoopFrom(p, 0, controller, None);
    var trace := [PlanTrace(PlanCreated, p)];
    var completed: nat := 0;
    var last: Option<WorkerState> := None;
    while completed < |p.steps|
      invariant completed <= |p.steps|
      invariant loop == LoopFrom(p, completed, controller, last)
      invariant trace == [PlanTrace(PlanCreated, p)] + Pairs(p, completed)
    {
      trace := trace + [StepTrace(StepStarted, p, completed)];
      if !RunnableAction(p.steps[completed].action) {
        return Err(UnsupportedStep);
      }
      var reply := StepReply(p.steps[completed].action, controller(completed));
      if reply.ControllerError? {
        var result := ExecResult(p.planId, PlanIdentity(p), Failed, completed, Some(completed),
                                 Some(reply.failureClass), false);
        trace := trace + [StepTrace(StepFailed, p, completed)] + [ResultTrace(p, Failed, None)];
        assert trace == LoopTrace(p, loop);
        r := BuildRun(p, result, trace, q.packetId, stage, stamp, last, None, RunFailed);
        BuiltRunIsFaithful(q, planId, stage, controller, stamp, r.value);
        return;
      }
      last := Some(reply.state);
      trace := trace + [StepTrace(StepCompleted, p, completed)];
      completed := completed + 1;
      assert trace == [PlanTrace(PlanCreated, p)] + Pairs(p, completed);
    }
    var result := ExecResult(p.planId, PlanIdentity(p), Completed, completed, None, None, false);
    trace := trace + [ResultTrace(p, Completed, None)];
    assert trace == LoopTrace(p, loop);
    r := BuildRun(p, result, trace, q.packetId, stage, stamp, last, None, RunCompleted);
    BuiltRunIsFaithful(q, planId, stage, controller, stamp, r.value);
  }

  /** Whatever the controller does, the trace of a run is an episode's trace and every event of it converts. */
  lemma {:induction false} RunTraceConverts(
      q: Request, planId: string, controller: nat -> Controller, stage: Option<Stage>, stamp: nat -> Stamp)
    requires BuildPlan(q, planId).Ok? && !Blank(planId)
    ensures var p := BuildPlan(q, planId).value;
            && (Runs(q) ==> forall j :: 0 <= j < |p.steps| ==> RunnableAction(p.steps[j].action))
            && var trace, result := RunTrace(q, p, controller), RunResult(q, p, controller);
               && EpisodeTrace(trace, p, result) && ValidResult(result) && result.planId == p.planId
               && forall i :: 0 <= i < |trace| ==> EventFor(trace[i], p, result, p.packetId, stage, stamp(i)).Ok?
  {
    hide EventFor, ExecutionOf, BuildPlan, EpisodeTrace, ValidResult, LoopTrace;
    var p := BuildPlan(q, planId).value;
    BuiltPlanFollowsRequest(q, planId);
    if Runs(q) {
      RunningPlanIsSupported(q, planId);
      LoopTraceIsEpisode(q, planId, LoopFrom(p, 0, controller, None), stage, stamp);
    } else {
      StoppedTraceIsEpisode(q, planId, stage, stamp);
    }
  }

  lemma {:induction false} BuiltRunIsFaithful(q: Request, planId: string, stage: Option<Stage>,
                                              controller: nat -> Controller, stamp: nat -> Stamp, run: Run)
    requires BuildPlan(q, planId) == Ok(run.plan) && !Blank(planId)
    requires Runs(q) ==> forall j :: 0 <= j < |run.plan.steps| ==> RunnableAction(run.plan.steps[j].action)
    requires run.result == RunResult(q, run.plan, controller) && EndsAs(q, run.plan, controller, run)
    requires |run.events| == |RunTrace(q, run.plan, controller)|
    requires forall i :: 0 <= i < |run.events| ==>
               EventFor(RunTrace(q, run.plan, controller)[i], run.plan, run.result, q.packetId, stage, stamp(i))
               == Ok(run.events[i])
    ensures FaithfulRun(q, planId, stage, controller, stamp, run)
  {
    hide EventFor, ExecutionOf, BuildPlan, EpisodeTrace, Episode, ValidResult, ValidPlan, RunTrace, RunResult, EndsAs;
    hide RecordsTrace, Decodes, PayloadOf;
    BuiltPlanFollowsRequest(q, planId);
    BuiltPlanIsValid(q, planId);
    RunTraceConverts(q, planId, controller, stage, stamp);
    EventsFormEpisode(RunTrace(q, run.plan, controller), run.plan, run.result, run.events, stage, stamp);
  }

  /** A run completes exactly when its one step may run and the controller answers it. */
  lemma {:induction false} RunCompletesExactlyWhen(q: Request, planId: string, controller: nat -> Controller)
    requires BuildPlan(q, planId).Ok?
    ensures var p := BuildPlan(q, planId).value;
            && |p.steps| == 1
            && (Runs(q) ==> RunnableAction(p.steps[0].action))
            && (RunResult(q, p, controller).status.Completed? <==>
                  Runs(q) && StepReply(p.steps[0].action, controller(0)).Answered?)
  {
    var p := BuildPlan(q, planId).value;
    BuiltPlanFollowsRequest(q, planId);
    BuiltPlanCompletesExactlyWhen(q, planId);
    if Runs(q) {
      RunningPlanIsSupported(q, planId);
      var reply := StepReply(p.steps[0].action, controller(0));
      if reply.Answered? {
        assert LoopFrom(p, 0, controller, None) == LoopFrom(p, 1, controller, Some(reply.state));
      }
    } else {
      CompletesExactlyWhenNothingStops(p);
    }
  }

  // ----- What the events of a run are -----

  /** A whole execution episode: its one plan_created first, its one result last, all of one identity and worker. */
  predicate Episode(events: seq<RuntimeEvent>, id: Identity, worker: Option<string>) {
    && |events| >= 2
    && (forall i :: 0 <= i < |events| ==>
          && Decodes(events[i]) && IdentityOf(events[i]) == id
          && events[i].workerId == PayloadOf(events[i]).workerId == worker
          && (PayloadOf(events[i]).ResultPayload? <==> i == |events| - 1)
          && (TypeOf(PayloadOf(events[i])).PlanCreated? <==> i == 0))
  }

  function ResultOf(events: seq<RuntimeEvent>): Payload
    requires |events| > 0 && Decodes(events[|events| - 1]) && PayloadOf(events[|events| - 1]).ResultPayload?
  {
    PayloadOf(events[|events| - 1])
  }

  /** A trace event the payload conversion accepts. */
  predicate Convertible(t: TraceEvent, p: Plan, result: ExecResult) {
    && t.planId == p.planId && t.taskId == p.taskId && t.workerId == p.workerId
    && (t.eventType.StepStarted? || t.eventType.StepCompleted? || t.eventType.StepFailed? ==>
          && t.stepIndex.Some? && 0 <= t.stepIndex.value < |p.steps|
          && t.action == Some(p.steps[t.stepIndex.value].action))
    && (t.eventType.StepFailed? ==> result.failureClass.Some?)
  }

  predicate EpisodeTrace(trace: seq<TraceEvent>, p: Plan, result: ExecResult) {
    && |trace| >= 2
    && (forall i :: 0 <= i < |trace| ==>
          && Convertible(trace[i], p, result)
          && (trace[i].eventType.ResultRecorded? <==> i == |trace| - 1)
          && (trace[i].eventType.PlanCreated? <==> i == 0))
  }

  lemma {:induction false} MessageIsNotBlank(t: PayloadType)
    ensures !Blank(MessageFor(t))
  {
    assert MessageFor(t)[0] == 'R';
  }

  /** What a payload says about its trace event, plan and result. */
  predicate Describes(payload: Payload, t: TraceEvent, p: Plan, result: ExecResult) {
    && TypeOf(payload) == t.eventType && payload.workerId == p.workerId
    && payload.planId == p.planId && payload.taskId == p.taskId && payload.line == p.line
    && match payload
       case PlanPayload(_, _, _, _, _, intent, gate, next, reasons, count) =>
         && (t.eventType.PlanCreated? || t.eventType.PlanApproved?)
         && intent == p.intent && gate == p.requiresHumanGate && next == p.nextStepToken
         && reasons == p.humanGateReasons && count == Some(|p.steps|)
       case StepPayload(_, _, _, _, _, index, action, target, gate, failure) =>
         && (t.eventType.StepStarted? || t.eventType.StepCompleted? || t.eventType.StepFailed?)
         && Some(index) == t.stepIndex && 0 <= index < |p.steps| && Some(action) == t.action
         && target == p.steps[index].target && gate == p.steps[index].requiresHumanGate
         && failure == if t.eventType.StepFailed? then result.failureClass else None
       case ResultPayload(_, _, _, _, status, count, gate, failed, failure, hint, stop) =>
         && status == result.status && count == result.completedStepCount && gate == result.requiresHumanGate
         && failed == result.failedStepIndex && failure == result.failureClass && hint.None?
         && stop == t.stopReason
  }

  lemma {:induction false} ConvertibleTraceGivesPayload(t: TraceEvent, p: Plan, result: ExecResult)
    requires ValidPlan(p) && !Blank(p.planId) && ValidResult(result) && result.planId == p.planId
    requires Convertible(t, p, result)
    ensures var payload := PayloadAt(t, p, result);
            && payload.Ok? && ValidPayload(payload.value) && Describes(payload.value, t, p, result)
  {
  }

  /** A trace event that fits its plan becomes an event that extracts back to the payload describing it. */
  lemma {:induction false} ConvertibleTraceGivesEvent(
      t: TraceEvent, p: Plan, result: ExecResult, stage: Option<Stage>, s: Stamp)
    requires ValidPlan(p) && !Blank(p.planId) && ValidResult(result) && result.planId == p.planId
    requires Convertible(t, p, result)
    ensures var e := EventFor(t, p, result, p.packetId, stage, s); var payload := PayloadAt(t, p, result);
            && e.Ok? && payload.Ok? && Extract(e.value) == Ok(payload.value)
            && Describes(payload.value, t, p, result)
            && IdentityOf(e.value) == PlanIdentity(p) && e.value.workerId == p.workerId
            && e.value.eventId == s.eventId && e.value.createdAt == s.createdAt && e.value.stage == stage
  {
    ConvertibleTraceGivesPayload(t, p, result);
    MessageIsNotBlank(t.eventType);
    hide PayloadAt, Extract, ValidPayload, ValidPlan, Blank, Dump, KindFor, FailureOf, MessageFor;
    var payload := PayloadAt(t, p, result).value;
    ExtractUndoesWrap(payload, p.packetId, MessageFor(t.eventType), stage, s.eventId, s.createdAt);
  }

  lemma {:induction false} DescribedPayload(payload: Payload, t: TraceEvent, p: Plan, result: ExecResult)
    requires Describes(payload, t, p, result)
    ensures TypeOf(payload) == t.eventType && payload.workerId == p.workerId
    ensures payload.ResultPayload? <==> t.eventType.ResultRecorded?
    ensures t.eventType.ResultRecorded? ==> payload.resultStatus == result.status
  {
  }

  lemma {:induction false} EventsFormEpisode(
      trace: seq<TraceEvent>, p: Plan, result: ExecResult, events: seq<RuntimeEvent>,
      stage: Option<Stage>, stamp: nat -> Stamp)
    requires ValidPlan(p) && !Blank(p.planId) && ValidResult(result) && result.planId == p.planId
    requires EpisodeTrace(trace, p, result) && |events| == |trace|
    requires forall i :: 0 <= i < |trace| ==>
               EventFor(trace[i], p, result, p.packetId, stage, stamp(i)) == Ok(events[i])
    ensures |events| >= 2 && Episode(events, PlanIdentity(p), p.workerId)
    ensures RecordsTrace(events, trace, p, result, stage, stamp)
    ensures ResultOf(events).resultStatus == result.status
    ensures forall i :: 0 <= i < |events| ==> events[i].createdAt == stamp(i).createdAt
  {
    hide Extract, PayloadAt, EventFor, Describes, ValidPlan, ValidResult, Convertible;
    forall i | 0 <= i < |trace|
      ensures && Extract(events[i]).Ok? && PayloadAt(trace[i], p, result).Ok?
              && Extract(events[i]).value == PayloadAt(trace[i], p, result).value
              && IdentityOf(events[i]) == PlanIdentity(p)
              && events[i].workerId == PayloadOf(events[i]).workerId == p.workerId
              && (PayloadOf(events[i]).ResultPayload? <==> i == |events| - 1)
              && TypeOf(PayloadOf(events[i])) == trace[i].eventType
              && (i == |events| - 1 ==> PayloadOf(events[i]).resultStatus == result.status)
              && events[i].createdAt == stamp(i).createdAt
    {
      ConvertibleTraceGivesEvent(trace[i], p, result, stage, stamp(i));
      DescribedPayload(PayloadAt(trace[i], p, result).value, trace[i], p, result);
    }
  }

  lemma {:induction false} BuiltPlanIsValid(q: Request, planId: string)
    requires BuildPlan(q, planId).Ok?
    ensures ValidPlan(BuildPlan(q, planId).value)
  {
  }

  lemma {:induction false} RunningPlanIsSupported(q: Request, planId: string)
    requires BuildPlan(q, planId).Ok? && Runs(q)
    ensures var p := BuildPlan(q, planId).value;
            |p.steps| == 1 && RunnableAction(p.steps[0].action)
  {
    BuiltPlanFollowsRequest(q, planId);
  }

  lemma {:induction false} EpisodeTraceGivesEvents(
      trace: seq<TraceEvent>, p: Plan, result: ExecResult, stage: Option<Stage>,
      stamp: nat -> Stamp)
    requires ValidPlan(p) && !Blank(p.planId) && ValidResult(result) && result.planId == p.planId
    requires EpisodeTrace(trace, p, result)
    ensures forall i :: 0 <= i < |trace| ==> EventFor(trace[i], p, result, p.packetId, stage, stamp(i)).Ok?
  {
    forall i | 0 <= i < |trace|
      ensures EventFor(trace[i], p, result, p.packetId, stage, stamp(i)).Ok?
    {
      ConvertibleTraceGivesEvent(trace[i], p, result, stage, stamp(i));
    }
  }

  lemma {:induction false} StoppedTraceIsEpisode(q: Request, planId: string, stage: Option<Stage>, stamp: nat -> Stamp)
    requires BuildPlan(q, planId).Ok? && !Blank(planId) && !Runs(q)
    ensures var p := BuildPlan(q, planId).value; var x := ExecutionOf(p);
            && EpisodeTrace(x.trace, p, x.result) && ValidResult(x.result) && x.result.planId == p.planId
            && forall i :: 0 <= i < |x.trace| ==>
                 EventFor(x.trace[i], p, x.result, p.packetId, stage, stamp(i)).Ok?
  {
    var p := BuildPlan(q, planId).value;
    BuiltPlanIsValid(q, planId);
    BuiltPlanFollowsRequest(q, planId);
    BuiltPlanStopsInPreflight(q, planId);
    hide BuildPlan, EventFor, ExecutionOf, EpisodeTrace, ValidPlan, PreflightStop, ValidResult;
    StoppedTraceConverts(p);
    EpisodeTraceGivesEvents(ExecutionOf(p).trace, p, ExecutionOf(p).result, stage, stamp);
  }

  lemma {:induction false} StoppedTraceConverts(p: Plan)
    requires PreflightStop(p).Some?
    ensures var x := ExecutionOf(p);
            EpisodeTrace(x.trace, p, x.result) && ValidResult(x.result) && x.result.planId == p.planId
  {
    ValidatorAccepts(p);
    TraceOfStoppedPlan(p);
    var x := ExecutionOf(p);
    TraceEventsConvert(p, x.result, 0, x.stopReason);
    hide ExecutionOf, PreflightStop, Convertible;
  }

  /** The trace events of a plan convert. */
  lemma {:induction false} TraceEventsConvert(p: Plan, result: ExecResult, i: nat, stop: Option<StopReason>)
    ensures Convertible(PlanTrace(PlanCreated, p), p, result) && Convertible(PlanTrace(PlanApproved, p), p, result)
    ensures Convertible(ResultTrace(p, result.status, stop), p, result)
    ensures i < |p.steps| ==>
              && Convertible(StepTrace(StepStarted, p, i), p, result)
              && Convertible(StepTrace(StepCompleted, p, i), p, result)
              && (result.failureClass.Some? ==> Convertible(StepTrace(StepFailed, p, i), p, result))
  {
  }

  lemma {:induction false} LoopTraceIsEpisode(
      q: Request, planId: string, l: Loop, stage: Option<Stage>, stamp: nat -> Stamp)
    requires BuildPlan(q, planId).Ok? && !Blank(planId)
    requires l.completed <= |BuildPlan(q, planId).value.steps|
    requires l.ended.Some? <==> l.completed < |BuildPlan(q, planId).value.steps|
    requires l.ended.Some? ==> l.ended.value.ControllerError?
    ensures var p := BuildPlan(q, planId).value; var trace := LoopTrace(p, l); var result := LoopResult(p, l);
            && EpisodeTrace(trace, p, result) && ValidResult(result)
            && forall i :: 0 <= i < |trace| ==>
                 EventFor(trace[i], p, result, p.packetId, stage, stamp(i)).Ok?
  {
    hide EventFor, ValidPlan, BuildPlan, EpisodeTrace, LoopTrace;
    var p := BuildPlan(q, planId).value;
    BuiltPlanFollowsRequest(q, planId);
    BuiltPlanIsValid(q, planId);
    LoopTraceConverts(p, l);
    EpisodeTraceGivesEvents(LoopTrace(p, l), p, LoopResult(p, l), stage, stamp);
  }

  lemma {:induction false} LoopTraceConverts(p: Plan, l: Loop)
    requires l.completed <= |p.steps| && (l.ended.Some? <==> l.completed < |p.steps|)
    requires l.ended.Some? ==> l.ended.value.ControllerError?
    ensures EpisodeTrace(LoopTrace(p, l), p, LoopResult(p, l))
  {
    hide Convertible, Pairs;
    var trace, result := LoopTrace(p, l), LoopResult(p, l);
    var pairs := Pairs(p, l.completed);
    TraceEventsConvert(p, result, l.completed, None);
    forall i | 0 <= i < |trace|
      ensures && Convertible(trace[i], p, result)
              && (trace[i].eventType.ResultRecorded? <==> i == |trace| - 1)
              && (trace[i].eventType.PlanCreated? <==> i == 0)
    {
      if 0 < i <= |pairs| {
        assert trace[i] == pairs[i - 1];
        TraceEventsConvert(p, result, (i - 1) / 2, None);
      }
    }
  }
}
