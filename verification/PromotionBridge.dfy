/** The promotion bridge and controller as they update the store and the files. */
module PromotionBridge {
  import opened Wrappers
  import opened Evidence
  import opened Store
  import opened Writer
  import opened Promotion

  class Bridge {
    const store: RuntimeStore
    const writer: CanonicalSectionWriter

    constructor (store: RuntimeStore, writer: CanonicalSectionWriter)
      ensures this.store == store && this.writer == writer
    {
      this.store, this.writer := store, writer;
    }

    ghost function View(): World
      reads store, writer
    {
      World(store.View(), writer.files)
    }

    method CheckSummary(entityId: string, summaryId: string, stale: PromotionError)
      returns (r: Option<PromotionError>)
      ensures r == SummaryError(store.View(), entityId, summaryId, stale)
    {
      var current := store.LoadSummary(entityId);
      if current.Err? {
        return Some(Refused(current.error));
      }
      r := if current.value.summaryId != summaryId then Some(stale) else None;
    }

    method CheckPromotable(id: Identity) returns (r: Option<PromotionError>)
      requires store.Valid()
      ensures r == PromotableError(store.View(), id)
    {
      var result := store.ValidatePromotableExecution(id);
      r := if result.Err? then Some(Refused(result.error)) else None;
    }

    method Evaluate(i: Input) returns (r: Result<WriteIntent, PromotionError>)
      requires store.Valid() && ValidInput(i)
      ensures r == var e := GateError(store.View(), i); if e.Some? then Err(e.value) else Ok(WriteIntentOf(i))
    {
      hide ValidInput, ValidWriteIntent, WriteIntentOf, PromotableError;
      var error := CheckSummary(i.taskSummary.entityId, i.taskSummary.summaryId, StaleTaskSummary);
      if error.Some? {
        return Err(error.value);
      }
      error := CheckSummary(i.lineSummary.entityId, i.lineSummary.summaryId, StaleLineSummary);
      if error.Some? {
        return Err(error.value);
      }
      error := CheckPromotable(i.review.identity);
      if error.Some? {
        return Err(error.value);
      }
      r := if ValidWriteIntent(WriteIntentOf(i)) then Ok(WriteIntentOf(i)) else Err(InvalidIntent);
    }

    method CheckFreshness(i: WriteIntent) returns (r: Option<PromotionError>)
      requires store.Valid()
      ensures r == FreshnessError(store.View(), i)
    {
      hide PromotableError;
      r := CheckPromotable(i.identity);
      if r.Some? {
        return;
      }
      var review := store.LoadReview(i.identity.taskId);
      if review.Err? {
        return Some(Refused(review.error));
      }
      if review.value.reviewId != i.reviewId || review.value.identity != i.identity {
        return Some(ReviewChanged);
      }
      r := CheckSummary(i.taskEntityId, i.taskSummaryId, StaleTaskSummary);
      if r.Some? {
        return;
      }
      r := CheckSummary(i.lineEntityId, i.lineSummaryId, StaleLineSummary);
    }

    /** `promote_summary`: gate, freshness check, canonical write, receipt. */
    method PromoteSummary(i: Input, m: Mint) returns (error: Option<PromotionError>)
      requires store.Valid()
      modifies store`receipts, writer
      ensures store.Valid()
      ensures Promoted(View(), error) == Promote(old(View()), i, m)
    {
      hide ValidInput, WriteIntentOf, GateError, FreshnessError, Write;
      if !ValidInput(i) {
        return Some(InvalidInput);
      }
      var gate := Evaluate(i);
      if gate.Err? {
        return Some(gate.error);
      }
      var intent := gate.value;
      error := CheckFreshness(intent);
      if error.Some? {
        return;
      }
      var updated, failure := writer.Apply(intent.line, intent.patches);
      if failure.Some? {
        return Some(WriteFailed(failure.value));
      }
      store.SaveReceipt(ReceiptFor(intent, m));
    }
  }

  class Controller {
    const bridge: Bridge

    constructor (bridge: Bridge)
      ensures this.bridge == bridge
    {
      this.bridge := bridge;
    }

    method LoadSummary(id: Identity, s: Subject) returns (r: Option<Summary>)
      ensures r == SummaryOf(bridge.store.View(), id, s)
    {
      var loaded := bridge.store.LoadSummary(EntityIdFor(id, s));
      r := if loaded.Ok? then Some(loaded.value) else None;
    }

    /** `reconcile`. */
    method Reconcile(q: Request, reviewId: string, m: Mint) returns (answer: Answer)
      requires bridge.store.Valid()
      modifies bridge.store, bridge.writer
      ensures bridge.store.Valid()
      ensures Reconciled(bridge.View(), answer) == Promotion.Reconcile(old(bridge.View()), q, reviewId, m)
    {
      hide Promote, ValidReview, LatestReceipt;
      var task := LoadSummary(q.episode, TaskSubject);
      if task.None? {
        return MissingTaskSummary;
      }
      var line := LoadSummary(q.episode, LineSubject);
      if line.None? {
        return MissingLineSummary;
      }
      if task.value.identity != q.episode || line.value.identity != q.episode {
        return SummaryDrift;
      }
      var latest := bridge.store.LatestPromotionReceipt(q.episode);
      if latest.Some? && latest.value.taskSummaryId == task.value.summaryId
         && latest.value.lineSummaryId == line.value.summaryId
      {
        return AlreadyPromoted(latest.value.receiptId);
      }
      var review := ReviewFor(q, reviewId);
      if !ValidReview(review) {
        return Raised(InvalidReview);
      }
      bridge.store.SaveReview(review);
      var input := InputFor(q, reviewId, task.value, line.value);
      var error := bridge.PromoteSummary(input, m);
      if error.Some? {
        return Raised(error.value);
      }
      bridge.store.AppendControlEvent(ControlEvent(q.episode, m.receiptId, reviewId, task.value.summaryId,
                                                   line.value.summaryId));
      answer := Written(m.receiptId);
    }
  }
}
