/** The promotion bridge and controller: when canonical files may be written, and what is written. */
module Promotion {
  import opened Wrappers
  import opened Text
  import opened Evidence
  import opened EvidenceLogs
  import opened Store
  import opened Sections
  import opened Writer

  // ----- Inputs and tokens -----

  datatype Input = Input(line: string, byController: bool, review: Review, taskSummary: Summary,
                         lineSummary: Summary, latestCompleted: string, nextAction: string)

  predicate ValidReview(r: Review) {
    && !Blank(r.reviewId) && !Blank(r.taskId) && r.identity.taskId == r.taskId
    && forall i :: 0 <= i < |r.reasons| ==> !Blank(r.reasons[i])
  }

  predicate ValidSummary(s: Summary) {
    && s.entityId == EntityIdFor(s.identity, s.subject)
    && (s.kind.LineCheckpoint? <==> s.subject.LineSubject?)
  }

  /** What the promotion input and the records it carries validate on construction. */
  predicate ValidInput(i: Input) {
    && ValidReview(i.review) && ValidSummary(i.taskSummary) && ValidSummary(i.lineSummary)
    && !Blank(i.line) && !Blank(i.latestCompleted) && !Blank(i.nextAction)
    && i.byController
    && i.taskSummary.subject.TaskSubject? && i.taskSummary.kind.TaskHandoff?
    && i.lineSummary.subject.LineSubject? && i.lineSummary.kind.LineCheckpoint?
    && i.review.identity.line == i.line
    && i.taskSummary.identity == i.review.identity
    && i.lineSummary.identity == i.review.identity
  }

  function StatusToken(o: ReviewOutcome): string {
    match o
    case Pass | PassWithNotes => "completed"
    case ReturnForHardening => "in_progress"
    case BlockedByEnvironment => "blocked_by_environment"
    case BlockedByOperatorSafety => "blocked_by_operator_safety"
    case Stopline => "stopline"
    case SplitIntoNewScope => "split_into_new_scope"
    case DeferredWithReason => "deferred_with_reason"
  }

  function PlanToken(o: ReviewOutcome): string {
    match o
    case Pass => "pass"
    case PassWithNotes => "pass_with_notes"
    case ReturnForHardening => "return_for_hardening"
    case BlockedByEnvironment => "blocked_by_environment"
    case BlockedByOperatorSafety => "blocked_by_operator_safety"
    case Stopline => "stopline"
    case SplitIntoNewScope => "split_into_new_scope"
    case DeferredWithReason => "deferred_with_reason"
  }

  function CheckpointToken(line: string, o: ReviewOutcome): string {
    "checkpoint-" + line + "-" + StatusToken(o)
  }

  function JoinLines(lines: seq<string>): string {
    if lines == [] then "" else if |lines| == 1 then lines[0] else lines[0] + "\n" + JoinLines(lines[1..])
  }

  function NotesText(i: Input): string {
    JoinLines(["review_id=" + i.review.reviewId,
               "review_outcome=" + PlanToken(i.review.outcome),
               "identity_packet_id=" + i.review.identity.packetId,
               "identity_task_id=" + i.review.identity.taskId,
               "identity_plan_id=" + i.review.identity.planId,
               "latest_task_summary_id=" + i.taskSummary.summaryId,
               "latest_task_summary_kind=task_handoff",
               "latest_line_summary_id=" + i.lineSummary.summaryId,
               "latest_line_summary_kind=line_checkpoint"]
              + seq(|i.review.reasons|,
                     k requires 0 <= k < |i.review.reasons| => "review_reason=" + i.review.reasons[k]))
  }

  const MARKER := "promotion-bridge:v1"

  function PlanPatch(i: Input): Patch {
    Patch(TaskPlanFile, CurrentStatus, SectionReplace, StatusToken(i.review.outcome), None)
  }

  function ProgressPatches(i: Input): seq<Patch> {
    [Patch(ProgressFile, LatestCompleted, SectionReplace, i.latestCompleted, None),
     Patch(ProgressFile, CurrentState, SectionReplace, StatusToken(i.review.outcome), None),
     Patch(ProgressFile, NextAction, SectionReplace, i.nextAction, None),
     Patch(ProgressFile, LatestCheckpoint, SectionReplace, CheckpointToken(i.line, i.review.outcome), None),
     Patch(ProgressFile, NotesSection, MarkerBlockUpsert, NotesText(i), Some(MARKER))]
  }

  function PatchesOf(i: Input): seq<Patch> {
    [PlanPatch(i)] + ProgressPatches(i)
  }

  /** The write intent: what will be written, and what must still be stored when it is. */
  datatype WriteIntent = WriteIntent(line: string, identity: Identity, reviewId: string, taskEntityId: string,
                           lineEntityId: string, taskSummaryId: string, lineSummaryId: string,
                           checkpointToken: string, patches: seq<Patch>)

  function WriteIntentOf(i: Input): WriteIntent {
    WriteIntent(i.line, i.review.identity, i.review.reviewId, i.taskSummary.entityId, i.lineSummary.entityId,
           i.taskSummary.summaryId, i.lineSummary.summaryId, CheckpointToken(i.line, i.review.outcome), PatchesOf(i))
  }

  predicate ValidWriteIntent(i: WriteIntent) {
    && !Blank(i.line) && !Blank(i.reviewId) && !Blank(i.taskEntityId) && !Blank(i.lineEntityId)
    && !Blank(i.taskSummaryId) && !Blank(i.lineSummaryId) && !Blank(i.checkpointToken)
    && i.patches != [] && forall k :: 0 <= k < |i.patches| ==> ValidPatch(i.patches[k])
  }

  // ----- What a promotion must do, on values -----

  /** Everything promotion reads or writes. */
  datatype World = World(records: Records, files: Files)

  datatype PromotionError =
    | InvalidInput | InvalidIntent | Refused(e: StoreError) | StaleTaskSummary | StaleLineSummary | ReviewChanged
    | WriteFailed(w: WriteError) | InvalidReview

  function SummaryError(r: Records, entityId: string, summaryId: string, stale: PromotionError)
    : Option<PromotionError>
  {
    if entityId !in r.summaries then Some(Refused(NotFound))
    else if r.summaries[entityId].summaryId != summaryId then Some(stale)
    else None
  }

  function First(a: Option<PromotionError>, b: Option<PromotionError>): Option<PromotionError> {
    if a.Some? then a else b
  }

  ghost function PromotableError(r: Records, id: Identity): Option<PromotionError> {
    if Promotable(r.evidence, id).Err? then Some(Refused(Promotable(r.evidence, id).error)) else None
  }

  /** `evaluate_summary_promotion`: the gate before anything is written. */
  ghost function GateError(r: Records, i: Input): Option<PromotionError> {
    First(SummaryError(r, i.taskSummary.entityId, i.taskSummary.summaryId, StaleTaskSummary),
          First(SummaryError(r, i.lineSummary.entityId, i.lineSummary.summaryId, StaleLineSummary),
                First(PromotableError(r, i.review.identity),
                      if ValidWriteIntent(WriteIntentOf(i)) then None else Some(InvalidIntent))))
  }

  /** `_validate_write_intent_freshness`: the check right before the files are written. */
  ghost function FreshnessError(r: Records, i: WriteIntent): Option<PromotionError> {
    var task := i.identity.taskId;
    First(PromotableError(r, i.identity),
          First(if task !in r.reviews then Some(Refused(NotFound))
                else if r.reviews[task].reviewId != i.reviewId || r.reviews[task].identity != i.identity then
                   Some(ReviewChanged)
                else None,
                First(SummaryError(r, i.taskEntityId, i.taskSummaryId, StaleTaskSummary),
                      SummaryError(r, i.lineEntityId, i.lineSummaryId, StaleLineSummary))))
  }

  /** The generated id and clock reading of a receipt. */
  datatype Mint = Mint(receiptId: string, now: string)

  function ReceiptFor(i: WriteIntent, m: Mint): Receipt {
    Receipt(m.receiptId, i.line, i.identity, i.reviewId, i.taskSummaryId, i.lineSummaryId, i.checkpointToken, m.now)
  }

  datatype Promoted = Promoted(world: World, error: Option<PromotionError>)

  /** The second half of a promotion, at any time after its gate: check, write, record the receipt. */
  ghost function Commit(w: World, i: WriteIntent, m: Mint): Promoted {
    var stale := FreshnessError(w.records, i);
    if stale.Some? then Promoted(w, stale)
    else
      var written := Write(w.files, i.line, i.patches);
      if written.error.Some? then Promoted(w.(files := written.files), Some(WriteFailed(written.error.value)))
      else
        Promoted(World(w.records.(receipts := w.records.receipts[m.receiptId := ReceiptFor(i, m)]), written.files),
                  None)
  }

  /** `promote_summary`. */
  ghost function Promote(w: World, i: Input, m: Mint): Promoted {
    if !ValidInput(i) then Promoted(w, Some(InvalidInput))
    else
      var closed := GateError(w.records, i);
      if closed.Some? then Promoted(w, closed) else Commit(w, WriteIntentOf(i), m)
  }

  // ----- Reconcile -----

  datatype Request = Request(episode: Identity, outcome: ReviewOutcome, reasons: seq<string>,
                             latestCompleted: string, nextAction: string)

  datatype Answer =
    | MissingTaskSummary | MissingLineSummary | SummaryDrift
    | AlreadyPromoted(receiptId: string)
    | Written(receiptId: string)
    | Raised(e: PromotionError)

  datatype Reconciled = Reconciled(world: World, answer: Answer)

  function SummaryOf(r: Records, id: Identity, s: Subject): Option<Summary> {
    if EntityIdFor(id, s) in r.summaries then Some(r.summaries[EntityIdFor(id, s)]) else None
  }

  function ReviewFor(q: Request, reviewId: string): Review {
    Review(reviewId, q.episode.taskId, q.episode, q.outcome, q.reasons)
  }

  function InputFor(q: Request, reviewId: string, task: Summary, line: Summary): Input {
    Input(q.episode.line, true, ReviewFor(q, reviewId), task, line, q.latestCompleted, q.nextAction)
  }

  ghost predicate PromotedBefore(r: Records, id: Identity, task: Summary, line: Summary) {
    var latest := LatestReceipt(r.receipts, id);
    latest.Some? && latest.value.taskSummaryId == task.summaryId && latest.value.lineSummaryId == line.summaryId
  }

  function WithReview(w: World, r: Review): World {
    w.(records := w.records.(reviews := w.records.reviews[r.taskId := r]))
  }

  function WithControlEvent(w: World, e: ControlEvent): World {
    w.(records := w.records.(control := Appended(w.records.control, e)))
  }

  /** `reconcile`: nothing when the latest receipt is for the stored summaries; else review, promote, announce. */
  ghost function Reconcile(w: World, q: Request, reviewId: string, m: Mint): Reconciled {
    var task, line := SummaryOf(w.records, q.episode, TaskSubject), SummaryOf(w.records, q.episode, LineSubject);
    if task.None? then Reconciled(w, MissingTaskSummary)
    else if line.None? then Reconciled(w, MissingLineSummary)
    else if task.value.identity != q.episode || line.value.identity != q.episode then Reconciled(w, SummaryDrift)
    else if PromotedBefore(w.records, q.episode, task.value, line.value) then
      Reconciled(w, AlreadyPromoted(LatestReceipt(w.records.receipts, q.episode).value.receiptId))
    else if !ValidReview(ReviewFor(q, reviewId)) then Reconciled(w, Raised(InvalidReview))
    else
      var reviewed := WithReview(w, ReviewFor(q, reviewId));
      var p := Promote(reviewed, InputFor(q, reviewId, task.value, line.value), m);
      if p.error.Some? then Reconciled(p.world, Raised(p.error.value))
      else
        Reconciled(WithControlEvent(p.world, ControlEvent(q.episode, m.receiptId, reviewId, task.value.summaryId,
                                                          line.value.summaryId)),
                   Written(m.receiptId))
  }
}
