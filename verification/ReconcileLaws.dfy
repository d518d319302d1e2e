/** What a promotion or a reconcile answers, stores and writes, read off its request. */
module ReconcileLaws {
  import opened Wrappers
  import opened Text
  import opened Evidence
  import opened EvidenceLogs
  import opened Store
  import opened Sections
  import opened Documents
  import opened SectionLaws
  import opened Notes
  import opened NotesLaws
  import opened Writer
  import opened Promotion
  import opened PromotionRuns
  import opened PromotionText
  import opened WrittenText

  // ----- The texts a promotion writes -----

  lemma {:induction false} StatusTokens(o: ReviewOutcome)
    ensures StatusToken(o) == "completed" <==> o == Pass || o == PassWithNotes
    ensures StatusToken(o) == "in_progress" <==> o == ReturnForHardening
    ensures o != Pass && o != PassWithNotes && o != ReturnForHardening ==> StatusToken(o) == PlanToken(o)
  {
    LongTokens();
  }

  lemma {:induction false} LongTokens()
    ensures "blocked_by_environment" != "completed" && "blocked_by_operator_safety" != "completed"
    ensures "blocked_by_environment" != "in_progress" && "blocked_by_operator_safety" != "in_progress"
    ensures "deferred_with_reason" != "completed" && "deferred_with_reason" != "in_progress"
    ensures "split_into_new_scope" != "completed" && "split_into_new_scope" != "in_progress"
  {
    assert |"blocked_by_environment"| == 22;
    assert |"blocked_by_operator_safety"| == 26;
    assert |"deferred_with_reason"| == 20;
    assert |"split_into_new_scope"| == 20;
    assert |"completed"| == 9;
    assert |"in_progress"| == 11;
  }

  lemma {:induction false} PlanTokens()
    ensures PlanToken(Pass) == "pass" && PlanToken(PassWithNotes) == "pass_with_notes"
    ensures PlanToken(ReturnForHardening) == "return_for_hardening"
    ensures PlanToken(BlockedByEnvironment) == "blocked_by_environment"
    ensures PlanToken(BlockedByOperatorSafety) == "blocked_by_operator_safety"
    ensures PlanToken(Stopline) == "stopline" && PlanToken(SplitIntoNewScope) == "split_into_new_scope"
    ensures PlanToken(DeferredWithReason) == "deferred_with_reason"
  {
  }

  /** One line for every reason. */
  function ReasonLines(reasons: seq<string>): string {
    if reasons == [] then "" else "\n" + ("review_reason=" + reasons[0]) + ReasonLines(reasons[1..])
  }

  /** The notes of a reconcile: who reviewed what with which outcome, from which summaries, and why. */
  function NotesFor(q: Promotion.Request, reviewId: string, taskSummaryId: string, lineSummaryId: string): string {
    ("review_id=" + reviewId) + "\n" +
    ("review_outcome=" + PlanToken(q.outcome)) + "\n" +
    ("identity_packet_id=" + q.episode.packetId) + "\n" +
    ("identity_task_id=" + q.episode.taskId) + "\n" +
    ("identity_plan_id=" + q.episode.planId) + "\n" +
    ("latest_task_summary_id=" + taskSummaryId) + "\n" +
    "latest_task_summary_kind=task_handoff" + "\n" +
    ("latest_line_summary_id=" + lineSummaryId) + "\n" +
    "latest_line_summary_kind=line_checkpoint" +
    ReasonLines(q.reasons)
  }

  function ReasonItems(reasons: seq<string>): seq<string> {
    seq(|reasons|, k requires 0 <= k < |reasons| => "review_reason=" + reasons[k])
  }

  lemma {:induction false} JoinedReasons(line: string, reasons: seq<string>)
    ensures JoinLines([line] + ReasonItems(reasons)) == line + ReasonLines(reasons)
    decreases |reasons|
  {
    hide JoinLines;
    var items := ReasonItems(reasons);
    if reasons != [] {
      var next := "review_reason=" + reasons[0];
      assert items == [next] + ReasonItems(reasons[1..]);
      JoinedReasons(next, reasons[1..]);
      JoinedFirst(line, items);
    } else {
      assert [line] + items == [line];
      JoinedOne(line);
    }
  }

  lemma {:induction false} JoinedOne(line: string)
    ensures JoinLines([line]) == line
  {
  }

  lemma {:induction false} JoinedFirst(line: string, rest: seq<string>)
    requires rest != []
    ensures JoinLines([line] + rest) == line + "\n" + JoinLines(rest)
  {
    assert ([line] + rest)[1..] == rest;
  }

  lemma {:induction false} JoinedLines(lines: seq<string>, reasons: seq<string>)
    requires |lines| == 9
    ensures JoinLines(lines + ReasonItems(reasons)) ==
            lines[0] + "\n" + lines[1] + "\n" + lines[2] + "\n" + lines[3] + "\n" + lines[4] + "\n" + lines[5] + "\n"
            + lines[6] + "\n" + lines[7] + "\n" + lines[8] + ReasonLines(reasons)
  {
    hide JoinLines, ReasonLines, ReasonItems;
    var items := ReasonItems(reasons);
    JoinedReasons(lines[8], reasons);
    assert lines[8..] + items == [lines[8]] + items;
    NextLine(lines, items, 7);
    NextLine(lines, items, 6);
    NextLine(lines, items, 5);
    NextLine(lines, items, 4);
    NextLine(lines, items, 3);
    NextLine(lines, items, 2);
    NextLine(lines, items, 1);
    NextLine(lines, items, 0);
    assert lines[0..] == lines;
  }

  lemma {:induction false} NextLine(lines: seq<string>, items: seq<string>, k: nat)
    requires k + 1 < |lines|
    ensures JoinLines(lines[k..] + items) == lines[k] + "\n" + JoinLines(lines[k + 1..] + items)
  {
    assert lines[k..] + items == [lines[k]] + (lines[k + 1..] + items);
    JoinedFirst(lines[k], lines[k + 1..] + items);
  }

  lemma {:induction false} NotesAreLines(i: Input)
    ensures NotesText(i) ==
            JoinLines(["review_id=" + i.review.reviewId,
                       "review_outcome=" + PlanToken(i.review.outcome),
                       "identity_packet_id=" + i.review.identity.packetId,
                       "identity_task_id=" + i.review.identity.taskId,
                       "identity_plan_id=" + i.review.identity.planId,
                       "latest_task_summary_id=" + i.taskSummary.summaryId,
                       "latest_task_summary_kind=task_handoff",
                       "latest_line_summary_id=" + i.lineSummary.summaryId,
                       "latest_line_summary_kind=line_checkpoint"] + ReasonItems(i.review.reasons))
  {
    hide JoinLines, PlanToken;
    assert ReasonItems(i.review.reasons) ==
           seq(|i.review.reasons|,
               k requires 0 <= k < |i.review.reasons| => "review_reason=" + i.review.reasons[k]);
  }

  /** The notes a reconcile writes are its request's. */
  lemma {:induction false} NotesAreTheRequests(q: Promotion.Request, reviewId: string, task: Summary, line: Summary)
    ensures NotesText(InputFor(q, reviewId, task, line)) == NotesFor(q, reviewId, task.summaryId, line.summaryId)
  {
    hide JoinLines, ReasonLines, PlanToken, ReasonItems, NotesText;
    NotesAreLines(InputFor(q, reviewId, task, line));
    JoinedLines(["review_id=" + reviewId,
                 "review_outcome=" + PlanToken(q.outcome),
                 "identity_packet_id=" + q.episode.packetId,
                 "identity_task_id=" + q.episode.taskId,
                 "identity_plan_id=" + q.episode.planId,
                 "latest_task_summary_id=" + task.summaryId,
                 "latest_task_summary_kind=task_handoff",
                 "latest_line_summary_id=" + line.summaryId,
                 "latest_line_summary_kind=line_checkpoint"], q.reasons);
  }

  // ----- What a reconcile that writes leaves behind -----

  /** The texts of the request, and the notes made of it, go in as they are. */
  ghost predicate PlainReconcile(w: World, q: Promotion.Request, reviewId: string) {
    var task, line := "task:" + q.episode.taskId, "line:" + q.episode.line;
    var progress := File(q.episode.line, ProgressFile);
    && PlainBody(Strip(q.latestCompleted)) && PlainBody(Strip(q.nextAction))
    && PlainBody(Strip("checkpoint-" + q.episode.line + "-" + StatusToken(q.outcome)))
    && task in w.records.summaries && line in w.records.summaries
    && PlainNote(Strip(NotesFor(q, reviewId, w.records.summaries[task].summaryId,
                                w.records.summaries[line].summaryId)), "promotion-bridge:v1")
    && (progress in w.files && FindSection(w.files[progress], "# Notes\n").Some? ==>
          !HeadingAt(NotesOf(w.files[progress]), 0))
  }

  lemma {:induction false} WrittenInput(w: World, q: Promotion.Request, reviewId: string, m: Mint)
    returns (task: Summary, line: Summary)
    requires Reconcile(w, q, reviewId, m).answer.Written?
    ensures "task:" + q.episode.taskId in w.records.summaries && "line:" + q.episode.line in w.records.summaries
    ensures task == w.records.summaries["task:" + q.episode.taskId] && task.identity == q.episode
    ensures line == w.records.summaries["line:" + q.episode.line] && line.identity == q.episode
    ensures var p := Promote(WithReview(w, ReviewFor(q, reviewId)), InputFor(q, reviewId, task, line), m);
            && p.error.None?
            && Reconcile(w, q, reviewId, m) ==
               Reconciled(WithControlEvent(p.world, ControlEvent(q.episode, m.receiptId, reviewId, task.summaryId,
                                                                 line.summaryId)), Written(m.receiptId))
  {
    hide Promote, ValidReview, LatestReceipt, WithControlEvent;
    task := SummaryOf(w.records, q.episode, TaskSubject).value;
    line := SummaryOf(w.records, q.episode, LineSubject).value;
  }

  /** A reconcile of plain texts that writes puts each text of its request under its own heading line, one status
      token under three of them, and its notes into the promotion block; no other file changes. */
  lemma {:induction false} ReconcileWritesItsTexts(w: World, q: Promotion.Request, reviewId: string, m: Mint)
    requires Reconcile(w, q, reviewId, m).answer.Written? && PlainReconcile(w, q, reviewId)
    ensures var files := Reconcile(w, q, reviewId, m).world.files;
            var plan, progress := File(q.episode.line, TaskPlanFile), File(q.episode.line, ProgressFile);
            var token := StatusToken(q.outcome);
            && files.Keys == w.files.Keys && plan in files && progress in files
            && files - {plan, progress} == w.files - {plan, progress}
            && SectionBody(files[plan], "# Current Status\n") == Some(token + "\n\n")
            && SectionBody(files[progress], "# Current State\n") == Some(token + "\n\n")
            && SectionBody(files[progress], "# Latest Checkpoint\n") ==
               Some(Strip("checkpoint-" + q.episode.line + "-" + token) + "\n\n")
            && SectionBody(files[progress], "# Latest Completed\n") == Some(Strip(q.latestCompleted) + "\n\n")
            && SectionBody(files[progress], "# Next Action\n") == Some(Strip(q.nextAction) + "\n\n")
            && SectionBody(files[progress], "# Current Status\n") ==
               SectionBody(w.files[progress], "# Current Status\n")
  {
    var task, line := WrittenInput(w, q, reviewId, m);
    var i := InputFor(q, reviewId, task, line);
    PlainRequestIsPlainInput(w, q, reviewId, task, line);
    hide Promote, Reconcile, PlainReconcile, PlainInput, StatusToken, Patched, SectionBody, Strip;
    PromotionWritesOneToken(WithReview(w, ReviewFor(q, reviewId)), i, m);
  }

  lemma {:induction false} PlainRequestIsPlainInput(
      w: World, q: Promotion.Request, reviewId: string, task: Summary, line: Summary)
    requires PlainReconcile(w, q, reviewId)
    requires task == w.records.summaries["task:" + q.episode.taskId]
    requires line == w.records.summaries["line:" + q.episode.line]
    ensures PlainInput(w.files, InputFor(q, reviewId, task, line))
  {
    NotesAreTheRequests(q, reviewId, task, line);
    hide StatusToken, NotesText, NotesFor, PlainBody, PlainNote, Strip, FindSection, NotesOf;
  }

  /** The notes of that reconcile: every promotion block of the old notes becomes the new one, or the new one is
      appended behind them; the text around the blocks stays. */
  lemma {:induction false} ReconcileWritesItsNotes(w: World, q: Promotion.Request, reviewId: string, m: Mint)
    requires Reconcile(w, q, reviewId, m).answer.Written? && PlainReconcile(w, q, reviewId)
    ensures var progress := File(q.episode.line, ProgressFile); var files := Reconcile(w, q, reviewId, m).world.files;
            var text := NotesFor(q, reviewId, w.records.summaries["task:" + q.episode.taskId].summaryId,
                                 w.records.summaries["line:" + q.episode.line].summaryId);
            && progress in w.files && progress in files
            && var before, after := SectionBody(w.files[progress], "# Notes\n"),
                                    SectionBody(files[progress], "# Notes\n");
               before.Some? && after.Some? && NotesGained(Strip(before.value), after.value, text)
  {
    var task, line := WrittenInput(w, q, reviewId, m);
    PlainRequestIsPlainInput(w, q, reviewId, task, line);
    NotesAreTheRequests(q, reviewId, task, line);
    hide Promote, Reconcile, PlainInput, NotesFor, NotesText, NotesGained, Strip, SectionBody, PlainReconcile;
    PromotionWritesItsNotes(WithReview(w, ReviewFor(q, reviewId)), InputFor(q, reviewId, task, line), m);
  }

  /** The stripped notes `before` became the section body `after` by upserting one promotion block. */
  ghost predicate NotesGained(before: string, after: string, text: string) {
    Gained(before, after, "promotion-bridge:v1",
           "<!-- promotion-bridge:v1:start -->\n" + Strip(text) + "\n<!-- promotion-bridge:v1:end -->")
  }

  ghost predicate Gained(before: string, after: string, marker: string, block: string) {
    if BlocksOf(before, marker) == [] then
      after == (if before == "" then block else before + "\n\n" + block) + "\n\n"
    else exists notes :: after == notes + "\n\n" && Regained(before, notes, marker, block)
  }

  ghost predicate Regained(before: string, notes: string, marker: string, block: string) {
    && GapsOf(notes, marker) == GapsOf(before, marker)
    && |BlocksOf(notes, marker)| == |BlocksOf(before, marker)|
    && forall b :: b in BlocksOf(notes, marker) ==> b == block
  }

  lemma {:induction false} PromotionWritesItsNotes(w: World, i: Input, m: Mint)
    requires Promote(w, i, m).error.None? && PlainInput(w.files, i)
    ensures var progress := File(i.line, ProgressFile); var files := Promote(w, i, m).world.files;
            && progress in w.files && progress in files
            && var before, after := SectionBody(w.files[progress], "# Notes\n"),
                                    SectionBody(files[progress], "# Notes\n");
               before.Some? && after.Some? && NotesGained(Strip(before.value), after.value, NotesText(i))
  {
    PlainNotes(w.files, i);
    hide Promote, PlainInput, NotesText, NotesGained, Strip, SectionBody, Patched;
    PromotionWritesTwoFiles(w, i, m);
    var progress := File(i.line, ProgressFile);
    PromotedNotes(w.files[progress], Promote(w, i, m).world.files[progress], i);
  }

  lemma {:induction false} PlainNotes(files: Files, i: Input)
    requires PlainInput(files, i)
    ensures PlainNote(Strip(NotesText(i)), "promotion-bridge:v1")
  {
    hide PlainNote, PlainBody, NotesText, Strip;
  }

  lemma {:induction false} PromotedNotes(t: string, t': string, i: Input)
    requires Patched(t, t', ProgressPatches(i)) && PlainNote(Strip(NotesText(i)), "promotion-bridge:v1")
    ensures SectionBody(t, NOTES).Some? && SectionBody(t', NOTES).Some?
    ensures NotesGained(Strip(SectionBody(t, NOTES).value), SectionBody(t', NOTES).value, NotesText(i))
  {
    MarkerIsPlain();
    ProgressPatchesAreDistinct(i);
    hide Patched, NotesText, Gained, Strip, UpsertBody, PlainNote, SectionBody, BodyAfter, Block, PlainMarker;
    NotesPatch(t, i);
    var p := ProgressPatches(i)[4];
    BodiesOf(t, t', ProgressPatches(i), p);
    PatchedSectionWasThere(t, t', ProgressPatches(i), p);
    hide ProgressPatches;
    BodyExistsExactlyWhenFound(t);
    UpsertedNotes(NotesOf(t), "promotion-bridge:v1", NotesText(i));
    PromotionBlock(NotesText(i));
  }

  lemma {:induction false} PromotionBlock(text: string)
    ensures Block("promotion-bridge:v1", text) ==
            "<!-- promotion-bridge:v1:start -->\n" + Strip(text) + "\n<!-- promotion-bridge:v1:end -->"
  {
    BlockReads("promotion-bridge:v1", text);
    PromotionStart();
    PromotionEnd();
    hide Strip, Block;
  }

  lemma {:induction false} PromotionStart()
    ensures "<!-- " + "promotion-bridge:v1" + ":start -->\n" == "<!-- promotion-bridge:v1:start -->\n"
  {
  }

  lemma {:induction false} PromotionEnd()
    ensures "\n<!-- " + "promotion-bridge:v1" + ":end -->" == "\n<!-- promotion-bridge:v1:end -->"
  {
  }

  lemma {:induction false} NotesPatch(t: string, i: Input)
    ensures var p := ProgressPatches(i)[4];
            && p.section == NotesSection && HeadFor(p.section) == NOTES
            && (FindSection(t, NOTES).Some? && UpsertBody(NotesOf(t), "promotion-bridge:v1", NotesText(i)).Ok? ==>
                  BodyAfter(t, p) == UpsertBody(NotesOf(t), "promotion-bridge:v1", NotesText(i)).value)
  {
    hide NotesText, UpsertBody, FindSection, NotesOf, StatusToken, CheckpointToken;
  }

  lemma {:induction false} PatchedSectionWasThere(t: string, t': string, ps: seq<Patch>, p: Patch)
    requires Patched(t, t', ps) && p in ps
    ensures FindSection(t, HeadFor(p.section)).Some?
  {
    hide DocOf, IndexOf, HeadFor, FindSection, BodyAfter, SectionBody;
    BodyBySection(t, p.section);
    BodyBySection(t', p.section);
  }

  lemma {:induction false} UpsertedNotes(before: string, marker: string, text: string)
    requires PlainMarker(marker) && PlainNote(Strip(text), marker)
    ensures UpsertBody(before, marker, text).Ok?
    ensures Gained(before, UpsertBody(before, marker, text).value + "\n\n", marker, Block(marker, text))
  {
    hide PlainNote, Strip, NextBlock, Block, PlainMarker;
    BlocksExactlyWhenNext(before, marker);
    if NextBlock(before, marker).Some? {
      NoteIsBackslashFree(text, marker);
      PlainBlockTemplate(marker, text);
      SubRewritesBlocksOnly(before, marker, text);
      hide SubBlocks, GapsOf, BlocksOf;
      assert Regained(before, UpsertBody(before, marker, text).value, marker, Block(marker, text));
    }
  }

  lemma {:induction false} BlocksExactlyWhenNext(t: string, marker: string)
    ensures BlocksOf(t, marker) == [] <==> NextBlock(t, marker).None?
  {
    hide NextBlock;
  }

  /** A reconcile that writes stores its review, one receipt and one control event, and touches no other record. */
  lemma {:induction false} ReconcileRecords(w: World, q: Promotion.Request, reviewId: string, m: Mint)
    requires Reconcile(w, q, reviewId, m).answer.Written?
    ensures var after := Reconcile(w, q, reviewId, m).world.records; var id := q.episode;
            var task, line := "task:" + id.taskId, "line:" + id.line;
            && Reconcile(w, q, reviewId, m).answer == Written(m.receiptId)
            && task in w.records.summaries && line in w.records.summaries
            && var taskId, lineId := w.records.summaries[task].summaryId, w.records.summaries[line].summaryId;
               && after.evidence == w.records.evidence && after.summaries == w.records.summaries
               && after.reviews == w.records.reviews[id.taskId := Review(reviewId, id.taskId, id, q.outcome, q.reasons)]
               && after.receipts == w.records.receipts[m.receiptId :=
                    Receipt(m.receiptId, id.line, id, reviewId, taskId, lineId,
                            "checkpoint-" + id.line + "-" + StatusToken(q.outcome), m.now)]
               && after.control == w.records.control[id.packetId :=
                    (if id.packetId in w.records.control then w.records.control[id.packetId] else [])
                    + [ControlEvent(id, m.receiptId, reviewId, taskId, lineId)]]
  {
    var task, line := WrittenInput(w, q, reviewId, m);
    PromotionRecords(WithReview(w, ReviewFor(q, reviewId)), InputFor(q, reviewId, task, line), m);
    hide Promote, Reconcile, StatusToken, PatchesOf;
  }

  // ----- What is answered, condition by condition -----

  /** A receipt of the episode that no other receipt of it was recorded later than, nor as late under a smaller name. */
  ghost predicate IsNewestReceipt(r: Records, id: Identity, name: string) {
    && name in r.receipts && r.receipts[name].identity == id
    && forall other :: other in r.receipts && r.receipts[other].identity == id ==>
         && !Less(r.receipts[name].recordedAt, r.receipts[other].recordedAt)
         && !(r.receipts[other].recordedAt == r.receipts[name].recordedAt && Less(other, name))
  }

  lemma {:induction false} NewestIsLatest(r: Records, id: Identity, name: string)
    requires NamedReceipts(r.receipts)
    ensures IsNewestReceipt(r, id, name) <==> IsLatestReceipt(r.receipts, id, name)
  {
  }

  lemma {:induction false} LatestReceiptIsNewest(r: Records, id: Identity)
    requires NamedReceipts(r.receipts)
    ensures LatestReceipt(r.receipts, id).None? ==> forall name :: !IsNewestReceipt(r, id, name)
    ensures forall name :: IsNewestReceipt(r, id, name) ==> LatestReceipt(r.receipts, id) == Some(r.receipts[name])
    ensures LatestReceipt(r.receipts, id).Some? ==>
              IsNewestReceipt(r, id, LatestReceipt(r.receipts, id).value.receiptId)
  {
    hide IsNewestReceipt, LatestReceipt, IsLatestReceipt;
    forall name ensures IsNewestReceipt(r, id, name) <==> IsLatestReceipt(r.receipts, id, name) {
      NewestIsLatest(r, id, name);
    }
    forall name | IsLatestReceipt(r.receipts, id, name)
      ensures name in r.receipts && LatestReceipt(r.receipts, id) == Some(r.receipts[name])
    {
      NamedLatest(r.receipts, id, name);
    }
  }

  lemma {:induction false} NamedLatest(receipts: map<string, Receipt>, id: Identity, name: string)
    requires NamedReceipts(receipts) && IsLatestReceipt(receipts, id, name)
    ensures name in receipts && receipts[name].receiptId == name && LatestReceipt(receipts, id) == Some(receipts[name])
  {
    LatestReceiptIsUnique(receipts, id, name);
  }

  /** A reconcile answers by the first condition that holds: a summary of the task or of the line is missing, one is of
      another episode, the newest receipt is for both, the review is blank somewhere; else the promotion decides. */
  lemma {:induction false} ReconcileAnswers(w: World, q: Promotion.Request, reviewId: string, m: Mint)
    requires NamedReceipts(w.records.receipts)
    ensures var r := Reconcile(w, q, reviewId, m); var ss := w.records.summaries; var id := q.episode;
            var task, line := "task:" + id.taskId, "line:" + id.line;
            && (r.answer == MissingTaskSummary <==> task !in ss)
            && (r.answer == MissingLineSummary <==> task in ss && line !in ss)
            && (task in ss && line in ss ==>
                  var drift := ss[task].identity != id || ss[line].identity != id;
                  var done := exists name :: IsNewestReceipt(w.records, id, name)
                                && w.records.receipts[name].taskSummaryId == ss[task].summaryId
                                && w.records.receipts[name].lineSummaryId == ss[line].summaryId;
                  var blank := Strip(reviewId) == "" || Strip(id.taskId) == ""
                               || exists reason :: reason in q.reasons && Strip(reason) == "";
                  && (r.answer == SummaryDrift <==> drift)
                  && (r.answer.AlreadyPromoted? <==> !drift && done)
                  && (r.answer.AlreadyPromoted? ==> IsNewestReceipt(w.records, id, r.answer.receiptId))
                  && (r.answer == Raised(InvalidReview) <==> !drift && !done && blank)
                  && (r.answer.Written? || r.answer.Raised? <==> !drift && !done))
            && ((!r.answer.Written? && !r.answer.Raised?) || r.answer == Raised(InvalidReview) ==> r.world == w)
            && (r.answer.Raised? && r.answer != Raised(InvalidReview) ==>
                  && r.world.records == w.records.(reviews := w.records.reviews[id.taskId :=
                       Review(reviewId, id.taskId, id, q.outcome, q.reasons)])
                  && r.world.files - {File(id.line, TaskPlanFile)} == w.files - {File(id.line, TaskPlanFile)})
  {
    LatestReceiptIsNewest(w.records, q.episode);
    ReviewIsValidExactlyWhen(q, reviewId);
    if CurrentSummaries(w.records, q.episode) {
      RaisedPromotion(w, q, reviewId, m);
    }
    hide Promote, ValidReview, LatestReceipt, IsNewestReceipt, Strip;
  }

  lemma {:induction false} ReviewIsValidExactlyWhen(q: Promotion.Request, reviewId: string)
    ensures ValidReview(ReviewFor(q, reviewId)) <==>
            Strip(reviewId) != "" && Strip(q.episode.taskId) != ""
            && forall reason :: reason in q.reasons ==> Strip(reason) != ""
  {
    hide Strip, Blank;
    forall s: string ensures Strip(s) == "" <==> Blank(s) {
      StripCuts(s);
    }
  }

  lemma {:induction false} RaisedPromotion(w: World, q: Promotion.Request, reviewId: string, m: Mint)
    requires CurrentSummaries(w.records, q.episode)
    ensures var p := Promote(WithReview(w, ReviewFor(q, reviewId)), StoredInput(w.records, q, reviewId), m);
            p.error.Some? ==>
              && p.error != Some(InvalidReview) && p.world.records == WithReview(w, ReviewFor(q, reviewId)).records
              && p.world.files - {File(q.episode.line, TaskPlanFile)} == w.files - {File(q.episode.line, TaskPlanFile)}
  {
    var i := StoredInput(w.records, q, reviewId);
    var before := WithReview(w, ReviewFor(q, reviewId));
    if Promote(before, i, m).error.Some? {
      RefusedPromotionChangesNothing(before, i, m);
    }
    hide ValidInput, ValidWriteIntent, WriteIntentOf, PromotableError, Write;
  }

  /** What a promotion demands of its input: nothing blank, recorded by the controller, a handoff of the review's task
      and a checkpoint of its line, all of the reviewed episode. */
  predicate Promotes(i: Input) {
    var id := i.review.identity;
    && Strip(i.review.reviewId) != "" && Strip(id.taskId) != "" && i.review.taskId == id.taskId
    && (forall reason :: reason in i.review.reasons ==> Strip(reason) != "")
    && Strip(i.line) != "" && Strip(i.latestCompleted) != "" && Strip(i.nextAction) != "" && i.byController
    && id.line == i.line && i.taskSummary.identity == id && i.lineSummary.identity == id
    && i.taskSummary.kind == TaskHandoff && i.taskSummary.subject == TaskSubject
    && i.taskSummary.entityId == "task:" + id.taskId
    && i.lineSummary.kind == LineCheckpoint && i.lineSummary.subject == LineSubject
    && i.lineSummary.entityId == "line:" + i.line
  }

  lemma {:induction false} ValidInputPromotes(i: Input)
    ensures ValidInput(i) <==> Promotes(i)
  {
    hide Strip, Blank;
    forall s: string ensures Strip(s) == "" <==> Blank(s) {
      StripCuts(s);
    }
  }

  /** A valid input's intent is rejected exactly for a summary with a blank id. */
  lemma {:induction false} IntentIsValidExactlyWhen(i: Input)
    requires Promotes(i) && !Blank(NotesText(i))
    ensures ValidWriteIntent(WriteIntentOf(i)) <==>
            Strip(i.taskSummary.summaryId) != "" && Strip(i.lineSummary.summaryId) != ""
  {
    forall s: string ensures Strip(s) == "" <==> Blank(s) {
      StripCuts(s);
    }
    TextsAreNotBlank(i);
    PatchesAreValid(i);
    hide Strip, Blank, PatchesOf, CheckpointToken, ValidPatch, NotesText;
  }

  lemma {:induction false} PatchesAreValid(i: Input)
    requires !Blank(i.latestCompleted) && !Blank(i.nextAction) && !Blank(NotesText(i))
    ensures PatchesOf(i) != [] && forall k :: 0 <= k < |PatchesOf(i)| ==> ValidPatch(PatchesOf(i)[k])
  {
    TextsAreNotBlank(i);
    hide Blank, NotesText, StatusToken, CheckpointToken;
  }

  lemma {:induction false} TextsAreNotBlank(i: Input)
    ensures !Blank(CheckpointToken(i.line, i.review.outcome)) && !Blank(StatusToken(i.review.outcome))
    ensures !Blank("task:" + i.review.identity.taskId) && !Blank("line:" + i.line) && !Blank("promotion-bridge:v1")
  {
    TokensAreWords(i.review.outcome);
    var token := StatusToken(i.review.outcome);
    assert !IsSpace(token[0]);
    hide StatusToken;
    assert CheckpointToken(i.line, i.review.outcome)[0] == 'c';
    assert ("task:" + i.review.identity.taskId)[0] == 't' && ("line:" + i.line)[0] == 'l';
    assert "promotion-bridge:v1"[0] == 'p';
  }

  lemma {:induction false} NotesAreNotBlank(i: Input)
    ensures !Blank(NotesText(i))
  {
    NotesAreLines(i);
    var first := "review_id=" + i.review.reviewId;
    assert first[0] == 'r';
    hide ReasonItems, NotesText, PlanToken;
    assert NotesText(i)[0] == 'r';
  }

  /** Why a promotion does not reach the files: by the first condition that holds. */
  lemma {:induction false} PromotionAnswers(w: World, i: Input, m: Mint)
    ensures var e := Promote(w, i, m).error; var ss, reviews := w.records.summaries, w.records.reviews;
            var id := i.review.identity; var task, line := i.taskSummary.entityId, i.lineSummary.entityId;
            if !Promotes(i) then e == Some(InvalidInput)
            else if task !in ss then e == Some(Refused(NotFound))
            else if ss[task].summaryId != i.taskSummary.summaryId then e == Some(StaleTaskSummary)
            else if line !in ss then e == Some(Refused(NotFound))
            else if ss[line].summaryId != i.lineSummary.summaryId then e == Some(StaleLineSummary)
            else if Promotable(w.records.evidence, id).Err? then
              e == Some(Refused(Promotable(w.records.evidence, id).error))
            else if Strip(i.taskSummary.summaryId) == "" || Strip(i.lineSummary.summaryId) == "" then
              e == Some(InvalidIntent)
            else if id.taskId !in reviews then e == Some(Refused(NotFound))
            else if reviews[id.taskId].reviewId != i.review.reviewId || reviews[id.taskId].identity != id then
              e == Some(ReviewChanged)
            else
              var written := Write(w.files, i.line, PatchesOf(i));
              e == if written.error.Some? then Some(WriteFailed(written.error.value)) else None
  {
    ValidInputPromotes(i);
    NotesAreNotBlank(i);
    if Promotes(i) {
      IntentIsValidExactlyWhen(i);
    }
    hide Promotes, ValidInput, ValidWriteIntent, Promotable, Write, PatchesOf, Strip, CheckpointToken, NotesText;
  }

  /** What a successful promotion records. */
  lemma {:induction false} PromotionRecordsItsReceipt(w: World, i: Input, m: Mint)
    requires Promote(w, i, m).error.None?
    ensures Promote(w, i, m).world.records == w.records.(receipts := w.records.receipts[m.receiptId :=
              Receipt(m.receiptId, i.line, i.review.identity, i.review.reviewId, i.taskSummary.summaryId,
                      i.lineSummary.summaryId, "checkpoint-" + i.line + "-" + StatusToken(i.review.outcome), m.now)])
  {
    hide Promote, PatchesOf, StatusToken;
    PromotionRecords(w, i, m);
  }

  /** The request and the two stored summaries are of one episode and nothing in them is blank. */
  predicate Promising(q: Promotion.Request, reviewId: string, task: Summary, line: Summary) {
    var id := q.episode;
    && Strip(reviewId) != "" && Strip(id.taskId) != "" && Strip(id.line) != ""
    && (forall reason :: reason in q.reasons ==> Strip(reason) != "")
    && Strip(q.latestCompleted) != "" && Strip(q.nextAction) != ""
    && Strip(task.summaryId) != "" && Strip(line.summaryId) != "" && task.identity == id && line.identity == id
    && task.kind == TaskHandoff && task.subject == TaskSubject && task.entityId == "task:" + id.taskId
    && line.kind == LineCheckpoint && line.subject == LineSubject && line.entityId == "line:" + id.line
  }

  /** Both canonical files of the line are there with the sections a promotion writes. */
  predicate Writable(files: Files, line: string) {
    var plan, progress := File(line, TaskPlanFile), File(line, ProgressFile);
    && plan in files && progress in files
    && FindSection(files[plan], "# Current Status\n").Some?
    && forall head :: head in ["# Latest Completed\n", "# Current State\n", "# Next Action\n",
                               "# Latest Checkpoint\n", "# Notes\n"] ==>
         FindSection(files[progress], head).Some?
  }

  /** The newest receipt of the episode, if any, is for other summaries. */
  ghost predicate NotYetPromoted(r: Records, id: Identity, task: Summary, line: Summary) {
    forall name :: IsNewestReceipt(r, id, name) ==>
      r.receipts[name].taskSummaryId != task.summaryId || r.receipts[name].lineSummaryId != line.summaryId
  }

  /** A reconcile of plain texts writes exactly when request and stored summaries fit, no newest receipt is already for
      them, the episode's one result completed and is its owner's, and both canonical files hold their sections. */
  lemma {:induction false} RequestIsWrittenExactlyWhen(w: World, q: Promotion.Request, reviewId: string, m: Mint)
    requires NamedReceipts(w.records.receipts) && PlainReconcile(w, q, reviewId)
    ensures "task:" + q.episode.taskId in w.records.summaries && "line:" + q.episode.line in w.records.summaries
    ensures var task, line := w.records.summaries["task:" + q.episode.taskId],
                              w.records.summaries["line:" + q.episode.line];
            Reconcile(w, q, reviewId, m).answer.Written? <==>
              && Promising(q, reviewId, task, line) && NotYetPromoted(w.records, q.episode, task, line)
              && Certified(w.records.evidence, q.episode) && Writable(w.files, q.episode.line)
  {
    PlainReconcileHolds(w, q, reviewId);
    if CurrentSummaries(w.records, q.episode) {
      CurrentIsWrittenExactlyWhen(w, q, reviewId, m);
    } else {
      ForeignIsNotWritten(w, q, reviewId, m);
    }
    hide PlainReconcile, Promising, NotYetPromoted, Certified, Writable, Reconcile, CurrentSummaries;
  }

  lemma {:induction false} ForeignIsNotWritten(w: World, q: Promotion.Request, reviewId: string, m: Mint)
    requires "task:" + q.episode.taskId in w.records.summaries && "line:" + q.episode.line in w.records.summaries
    requires !CurrentSummaries(w.records, q.episode)
    ensures !Reconcile(w, q, reviewId, m).answer.Written?
    ensures !Promising(q, reviewId, w.records.summaries["task:" + q.episode.taskId],
                       w.records.summaries["line:" + q.episode.line])
  {
    hide Promote, ValidReview, LatestReceipt, Strip;
  }

  lemma {:induction false} CurrentIsWrittenExactlyWhen(w: World, q: Promotion.Request, reviewId: string, m: Mint)
    requires NamedReceipts(w.records.receipts) && PlainReconcile(w, q, reviewId)
    requires "task:" + q.episode.taskId in w.records.summaries && "line:" + q.episode.line in w.records.summaries
    requires CurrentSummaries(w.records, q.episode)
    ensures var task, line := w.records.summaries["task:" + q.episode.taskId],
                              w.records.summaries["line:" + q.episode.line];
            Reconcile(w, q, reviewId, m).answer.Written? <==>
              && Promising(q, reviewId, task, line) && NotYetPromoted(w.records, q.episode, task, line)
              && Certified(w.records.evidence, q.episode) && Writable(w.files, q.episode.line)
  {
    var i := StoredInput(w.records, q, reviewId);
    PlainRequestIsPlainInput(w, q, reviewId, i.taskSummary, i.lineSummary);
    hide PlainReconcile, PlainInput, ValidInput, ValidWriteIntent, Certified, HasSection, WriteIntentOf, Strip;
    hide Reconcile, LatestReceipt, NotYetPromoted, Writable, Promising, PromotedBefore;
    ReconcileWritesExactlyWhen(w, q, reviewId, m);
    InputIsPromising(q, reviewId, i.taskSummary, i.lineSummary);
    NotPromotedExactlyWhen(w.records, q.episode, i.taskSummary, i.lineSummary);
    FilesAreWritable(w.files, q.episode.line);
    WrittenIsWritten(w, q, reviewId, m);
  }

  lemma {:induction false} WrittenIsWritten(w: World, q: Promotion.Request, reviewId: string, m: Mint)
    ensures Reconcile(w, q, reviewId, m).answer.Written? ==> Reconcile(w, q, reviewId, m).answer == Written(m.receiptId)
  {
    hide Promote, ValidReview, LatestReceipt;
  }

  lemma {:induction false} InputIsPromising(q: Promotion.Request, reviewId: string, task: Summary, line: Summary)
    ensures var i := InputFor(q, reviewId, task, line);
            ValidInput(i) && ValidWriteIntent(WriteIntentOf(i)) <==> Promising(q, reviewId, task, line)
  {
    var i := InputFor(q, reviewId, task, line);
    ValidInputPromotes(i);
    NotesAreNotBlank(i);
    if Promotes(i) {
      IntentIsValidExactlyWhen(i);
    }
    hide ValidInput, ValidWriteIntent, NotesText, WriteIntentOf, Strip;
  }

  lemma {:induction false} NotPromotedExactlyWhen(r: Records, id: Identity, task: Summary, line: Summary)
    requires NamedReceipts(r.receipts)
    ensures !PromotedBefore(r, id, task, line) <==> NotYetPromoted(r, id, task, line)
  {
    LatestReceiptIsNewest(r, id);
    if name :| IsNewestReceipt(r, id, name) {
      assert LatestReceipt(r.receipts, id) == Some(r.receipts[name]);
    }
  }

  lemma {:induction false} PlainReconcileHolds(w: World, q: Promotion.Request, reviewId: string)
    requires PlainReconcile(w, q, reviewId)
    ensures "task:" + q.episode.taskId in w.records.summaries && "line:" + q.episode.line in w.records.summaries
  {
  }

  lemma {:induction false} FilesAreWritable(files: Files, line: string)
    ensures var plan, progress := File(line, TaskPlanFile), File(line, ProgressFile);
            Writable(files, line) <==>
              && plan in files && HasSection(files[plan], CurrentStatus) && progress in files
              && forall s: SectionName :: s != CurrentStatus ==> HasSection(files[progress], s)
  {
    forall t: string, s: SectionName ensures HasSection(t, s) <==> FindSection(t, HeadFor(s)).Some? {
      BodyBySection(t, s);
    }
    hide HasSection, FindSection;
    Headings();
    var heads := ["# Latest Completed\n", "# Current State\n", "# Next Action\n", "# Latest Checkpoint\n", "# Notes\n"];
    assert forall s: SectionName :: s == CurrentStatus || HeadFor(s) in heads;
    assert heads == [HeadFor(LatestCompleted), HeadFor(CurrentState), HeadFor(NextAction), HeadFor(LatestCheckpoint),
                     HeadFor(NotesSection)];
  }
}
