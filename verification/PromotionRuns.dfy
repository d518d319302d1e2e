/** Promotion over whole runs: when canonical files change, what a receipt certifies, and repeated reconciles. */
module PromotionRuns {
  import opened Wrappers
  import opened Text
  import opened Evidence
  import opened EvidenceLogs
  import opened EvidenceRuns
  import opened Store
  import opened Writer
  import opened Promotion

  // ----- What a promotable episode is -----

  /** The packet's log holds exactly one result; it completed, its owner reported it, every event belongs to the
      episode, and no other episode of the task is the latest. */
  ghost predicate Certified(logs: Logs, id: Identity) {
    var log := LogOf(logs, id.packetId);
    && AllDecode(logs) && LogDecodes(log)
    && (forall k :: 0 <= k < |log| ==> IdentityOf(log[k]) == id)
    && (exists n :: 0 <= n < |log| && CompletedResult(log[n]) && OnlyResult(log, n)
                    && Owner(log) == Some(PayloadOf(log[n]).workerId) && PayloadOf(log[n]).workerId.Some?)
    && (LatestIdentity(logs, id.taskId) == None || LatestIdentity(logs, id.taskId) == Some(id))
  }

  predicate CompletedResult(e: RuntimeEvent) {
    IsResult(e) && PayloadOf(e).resultStatus.Completed?
  }

  predicate OnlyResult(log: Log, n: int) {
    forall k :: 0 <= k < |log| && IsResult(log[k]) ==> k == n
  }

  lemma {:induction false} PromotableExactlyWhenCertified(logs: Logs, id: Identity)
    ensures Promotable(logs, id).Ok? <==> Certified(logs, id)
  {
    hide Extract, LatestIdentity, Owner;
    var log := LogOf(logs, id.packetId);
    if Promotable(logs, id).Ok? {
      var e := FirstResult(log).value;
      var n :| 0 <= n < |log| && log[n] == e;
      assert CompletedResult(log[n]) && OnlyResult(log, n);
      forall k | 0 <= k < |log| ensures IdentityOf(log[k]) == id {
        assert !ConflictingIdentity(log, id);
      }
    }
    if Certified(logs, id) {
      var n :| 0 <= n < |log| && CompletedResult(log[n]) && OnlyResult(log, n)
               && Owner(log) == Some(PayloadOf(log[n]).workerId) && PayloadOf(log[n]).workerId.Some?;
      assert FirstResult(log).Some?;
      assert FirstResult(log).value == log[n];
    }
  }

  // ----- Canonical writes -----

  /** In these records everything the intent names is current. */
  ghost predicate SafeToWrite(r: Records, i: WriteIntent) {
    && Certified(r.evidence, i.identity)
    && i.identity.taskId in r.reviews
    && r.reviews[i.identity.taskId].reviewId == i.reviewId
    && r.reviews[i.identity.taskId].identity == i.identity
    && i.taskEntityId in r.summaries && r.summaries[i.taskEntityId].summaryId == i.taskSummaryId
    && i.lineEntityId in r.summaries && r.summaries[i.lineEntityId].summaryId == i.lineSummaryId
  }

  lemma {:induction false} FreshExactlyWhenSafe(r: Records, i: WriteIntent)
    ensures FreshnessError(r, i).None? <==> SafeToWrite(r, i)
  {
    hide Promotable, Certified;
    PromotableExactlyWhenCertified(r.evidence, i.identity);
  }

  datatype Action =
    | OfferEvidence(e: RuntimeEvent)
    | SaveReview(r: Review)
    | SaveSummary(s: Summary)
    | PromoteNow(i: Input, m: Mint)
    | CommitLater(i: Input, m: Mint) // the second half of a promotion whose gate was passed at any earlier time
    | ReconcileNow(q: Promotion.Request, reviewId: string, m: Mint)

  ghost function Step(w: World, a: Action): World {
    match a
    case OfferEvidence(e) => w.(records := w.records.(evidence := Offer(w.records.evidence, e)))
    case SaveReview(r) => WithReview(w, r)
    case SaveSummary(s) => w.(records := w.records.(summaries := w.records.summaries[s.entityId := s]))
    case PromoteNow(i, m) => Promote(w, i, m).world
    case CommitLater(i, m) => if ValidInput(i) then Commit(w, WriteIntentOf(i), m).world else w
    case ReconcileNow(q, reviewId, m) => Reconcile(w, q, reviewId, m).world
  }

  ghost function Run(files: Files, actions: seq<Action>): World {
    if actions == [] then World(Records(map[], map[], map[], map[], map[]), files)
    else Step(Run(files, actions[..|actions| - 1]), actions[|actions| - 1])
  }

  /** The records an action's freshness check reads, and the intent it would write, if it would write at all. */
  ghost function Attempt(w: World, a: Action): Option<(Records, WriteIntent)> {
    match a
    case PromoteNow(i, _) => if ValidInput(i) then Some((w.records, WriteIntentOf(i))) else None
    case CommitLater(i, _) => if ValidInput(i) then Some((w.records, WriteIntentOf(i))) else None
    case ReconcileNow(q, reviewId, _) =>
      var task, line := SummaryOf(w.records, q.episode, TaskSubject), SummaryOf(w.records, q.episode, LineSubject);
      if task.Some? && line.Some? then
        Some((WithReview(w, ReviewFor(q, reviewId)).records,
               WriteIntentOf(InputFor(q, reviewId, task.value, line.value))))
      else None
    case _ => None
  }

  /** Whatever happened before, canonical files and receipts change only by an intent that is safe to write in the
      very records its check reads. */
  lemma {:induction false} CanonicalChangesAreSafe(w: World, a: Action)
    requires Step(w, a).files != w.files || Step(w, a).records.receipts != w.records.receipts
    ensures Attempt(w, a).Some?
    ensures SafeToWrite(Attempt(w, a).value.0, Attempt(w, a).value.1)
  {
    hide FreshnessError, SafeToWrite, GateError, ValidInput, WriteIntentOf, Write, LatestReceipt, ValidReview;
    var attempt := Attempt(w, a);
    if attempt.Some? {
      FreshExactlyWhenSafe(attempt.value.0, attempt.value.1);
    }
  }

  /** A promotion refused by its gate or its freshness check changes nothing; one that fails to write changes no
      record, and of the files only the task plan of its line. */
  lemma {:induction false} RefusedPromotionChangesNothing(w: World, i: Input, m: Mint)
    requires Promote(w, i, m).error.Some?
    ensures !Promote(w, i, m).error.value.WriteFailed? ==> Promote(w, i, m).world == w
    ensures Promote(w, i, m).world.records == w.records
    ensures Promote(w, i, m).world.files - {File(i.line, TaskPlanFile)} == w.files - {File(i.line, TaskPlanFile)}
  {
    hide FreshnessError, GateError, ValidInput, Write, PatchesOf, PatchedFile;
    var intent := WriteIntentOf(i);
    if Write(w.files, i.line, intent.patches).error.Some? {
      PromotionPatchesStartWithTaskPlan(i);
      FailedWriteLeavesFirstFilePatched(w.files, i.line, intent.patches);
      PatchedFileTouchesOne(w.files, i.line, intent.patches, TaskPlanFile);
    }
  }

  lemma {:induction false} PromotionPatchesStartWithTaskPlan(i: Input)
    ensures PatchesOf(i) != [] && PatchesOf(i)[0].target.TaskPlanFile?
  {
  }

  lemma {:induction false} PatchedFileTouchesOne(files: Files, line: string, ps: seq<Patch>, t: Target)
    ensures PatchedFile(files, line, ps, t) - {File(line, t)} == files - {File(line, t)}
  {
  }

  // ----- What a receipt certifies, in every reachable state -----

  /** The receipt's episode has its one result in the log, and it completed. */
  ghost predicate Earned(logs: Logs, id: Identity) {
    var log := LogOf(logs, id.packetId);
    exists n :: 0 <= n < |log| && CompletedResult(log[n]) && IdentityOf(log[n]) == id && OnlyResult(log, n)
  }

  ghost predicate GoodWorld(w: World) {
    && Good(w.records.evidence)
    && NamedReceipts(w.records.receipts)
    && forall name :: name in w.records.receipts ==> Earned(w.records.evidence, w.records.receipts[name].identity)
  }

  lemma {:induction false} EarnedStays(before: Logs, e: RuntimeEvent, id: Identity)
    requires Good(before) && Earned(before, id)
    ensures Earned(Offer(before, e), id)
  {
    hide Extract, ResultIsOwned;
    var log := LogOf(before, id.packetId);
    var n :| 0 <= n < |log| && CompletedResult(log[n]) && IdentityOf(log[n]) == id && OnlyResult(log, n);
    var after := LogOf(Offer(before, e), id.packetId);
    if IsResult(e) && e.packetId == id.packetId {
      assert FirstResult(log).Some?;
      ResultBlocksResults(before, e);
    }
    assert after[n] == log[n];
    assert OnlyResult(after, n);
  }

  lemma {:induction false} CertifiedIsEarned(logs: Logs, id: Identity)
    requires Certified(logs, id)
    ensures Earned(logs, id)
  {
    hide Extract;
  }

  lemma {:induction false} CommitKeepsGood(w: World, i: WriteIntent, m: Mint)
    requires GoodWorld(w)
    ensures GoodWorld(Commit(w, i, m).world)
  {
    hide Good, Earned, FreshnessError, Write, Certified;
    FreshExactlyWhenSafe(w.records, i);
    if FreshnessError(w.records, i).None? {
      CertifiedIsEarned(w.records.evidence, i.identity);
    }
  }

  lemma {:induction false} StepKeepsGood(w: World, a: Action)
    requires GoodWorld(w)
    ensures GoodWorld(Step(w, a))
  {
    hide Good, Earned, ValidInput, WriteIntentOf, GateError, Commit, Offer, LatestReceipt, ValidReview;
    match a {
      case OfferEvidence(e) =>
        OfferKeepsGood(w.records.evidence, e);
        forall name | name in w.records.receipts
          ensures Earned(Offer(w.records.evidence, e), w.records.receipts[name].identity)
        {
          EarnedStays(w.records.evidence, e, w.records.receipts[name].identity);
        }
      case SaveReview(_) =>
      case SaveSummary(_) =>
      case PromoteNow(i, m) => CommitKeepsGood(w, WriteIntentOf(i), m);
      case CommitLater(i, m) => CommitKeepsGood(w, WriteIntentOf(i), m);
      case ReconcileNow(q, reviewId, m) =>
        var attempt := Attempt(w, a);
        if attempt.Some? {
          CommitKeepsGood(WithReview(w, ReviewFor(q, reviewId)), attempt.value.1, m);
        }
    }
  }

  /** In every reachable state, every receipt names an episode whose log holds exactly one result, which completed
      and was reported by the plan's owner; no later event of any run takes that away. */
  lemma {:induction false} EveryReceiptIsEarned(files: Files, actions: seq<Action>)
    ensures GoodWorld(Run(files, actions))
  {
    hide GoodWorld, Step;
    if actions == [] {
      EmptyWorldIsGood(files);
    } else {
      EveryReceiptIsEarned(files, actions[..|actions| - 1]);
      StepKeepsGood(Run(files, actions[..|actions| - 1]), actions[|actions| - 1]);
    }
  }

  /** Every reachable state meets what the store's methods ask for. */
  lemma {:induction false} ReachableStoreIsValid(files: Files, actions: seq<Action>)
    ensures var r := Run(files, actions).records;
            Coherent(r.evidence) && AllDecode(r.evidence) && NamedReceipts(r.receipts)
  {
    hide Good;
    EveryReceiptIsEarned(files, actions);
    GoodIsCoherent(Run(files, actions).records.evidence);
  }

  lemma {:induction false} EmptyWorldIsGood(files: Files)
    ensures GoodWorld(World(Records(map[], map[], map[], map[], map[]), files))
  {
  }

  // ----- Repeated reconciles -----

  /** No receipt of the episode under another name is recorded later than now, or now under a smaller name. */
  predicate NothingLater(receipts: map<string, Receipt>, episode: Identity, m: Mint) {
    forall name :: name in receipts && name != m.receiptId && receipts[name].identity == episode ==>
      && !Less(m.now, receipts[name].recordedAt)
      && !(receipts[name].recordedAt == m.now && Less(name, m.receiptId))
  }

  /** The receipt a successful reconcile wrote. */
  lemma {:induction false} ReconcileWrites(w: World, q: Promotion.Request, reviewId: string, m: Mint)
    requires Reconcile(w, q, reviewId, m).answer.Written?
    ensures var w' := Reconcile(w, q, reviewId, m).world;
            && w'.records.summaries == w.records.summaries
            && m.receiptId in w'.records.receipts
            && var r := w'.records.receipts[m.receiptId];
               && w'.records.receipts == w.records.receipts[m.receiptId := r]
               && r.receiptId == m.receiptId && r.identity == q.episode && r.recordedAt == m.now
               && Some(r.taskSummaryId) == SummaryId(w.records, q.episode, TaskSubject)
               && Some(r.lineSummaryId) == SummaryId(w.records, q.episode, LineSubject)
    ensures CurrentSummaries(w.records, q.episode)
  {
    hide Promote, ValidReview, LatestReceipt, EntityIdFor, WriteIntentOf;
    var task, line := SummaryOf(w.records, q.episode, TaskSubject), SummaryOf(w.records, q.episode, LineSubject);
    if task.Some? && line.Some? {
      PromotionRecords(WithReview(w, ReviewFor(q, reviewId)), InputFor(q, reviewId, task.value, line.value), m);
      IntentNames(q, reviewId, task.value, line.value);
    }
  }

  /** A successful promotion records its receipt and no other record. */
  lemma {:induction false} PromotionRecords(w: World, i: Input, m: Mint)
    requires Promote(w, i, m).error.None?
    ensures Promote(w, i, m).world.records ==
            w.records.(receipts := w.records.receipts[m.receiptId := ReceiptFor(WriteIntentOf(i), m)])
  {
    hide FreshnessError, GateError, ValidInput, Write, WriteIntentOf;
  }

  lemma {:induction false} IntentNames(q: Promotion.Request, reviewId: string, task: Summary, line: Summary)
    ensures var intent := WriteIntentOf(InputFor(q, reviewId, task, line));
            && intent.identity == q.episode
            && intent.taskSummaryId == task.summaryId && intent.lineSummaryId == line.summaryId
  {
    hide PatchesOf, CheckpointToken;
  }

  /** Both summaries of the episode are stored, and are the episode's own. */
  predicate CurrentSummaries(r: Records, id: Identity) {
    var task, line := SummaryOf(r, id, TaskSubject), SummaryOf(r, id, LineSubject);
    task.Some? && line.Some? && task.value.identity == id && line.value.identity == id
  }

  function SummaryId(r: Records, id: Identity, s: Subject): Option<string> {
    match SummaryOf(r, id, s)
    case None => None
    case Some(summary) => Some(summary.summaryId)
  }

  /** After a reconcile that wrote, another one answers with the same receipt and changes nothing — exactly when,
      before the first one, no receipt of the episode was recorded later than its clock. */
  lemma {:induction false} ReconcileIsIdempotentExactlyWhen(
      w: World, q: Promotion.Request, reviewId: string, m: Mint, q2: Promotion.Request, reviewId2: string, m2: Mint)
    requires NamedReceipts(w.records.receipts) && Reconcile(w, q, reviewId, m).answer.Written?
    requires q2.episode == q.episode
    ensures var w' := Reconcile(w, q, reviewId, m).world; var again := Reconcile(w', q2, reviewId2, m2);
            && m.receiptId in w'.records.receipts
            && (again.answer == AlreadyPromoted(m.receiptId) <==>
                  NothingLater(w.records.receipts, q.episode, m))
            && (again.answer == AlreadyPromoted(m.receiptId) ==> again.world == w')
  {
    hide Promote, ValidReview, EntityIdFor;
    ReconcileWrites(w, q, reviewId, m);
    var w' := Reconcile(w, q, reviewId, m).world;
    var receipts := w'.records.receipts;
    var new_ := receipts[m.receiptId];
    hide Reconcile;
    LatestExactlyWhenNewest(w.records.receipts, receipts, new_, m);
    AnswerOfLatest(w', q2, reviewId2, m2);
  }

  lemma {:induction false} LatestExactlyWhenNewest(
      before: map<string, Receipt>, after: map<string, Receipt>, new_: Receipt, m: Mint)
    requires NamedReceipts(before) && after == before[new_.receiptId := new_]
    requires new_.receiptId == m.receiptId && new_.recordedAt == m.now
    ensures NothingLater(before, new_.identity, m) ==> LatestReceipt(after, new_.identity) == Some(new_)
    ensures IsReceipt(LatestReceipt(after, new_.identity), new_.receiptId) ==>
              NothingLater(before, new_.identity, m)
  {
    LessIsIrreflexive(new_.recordedAt);
    LessIsIrreflexive(new_.receiptId);
    var latest := LatestReceipt(after, new_.identity);
    if NothingLater(before, new_.identity, m) {
      assert IsLatestReceipt(after, new_.identity, new_.receiptId);
      LatestReceiptIsUnique(after, new_.identity, new_.receiptId);
    }
    if IsReceipt(latest, new_.receiptId) {
      var name :| IsLatestReceipt(after, new_.identity, name) && latest == Some(after[name]);
      forall other | other in before && other != new_.receiptId && before[other].identity == new_.identity
        ensures !Supersedes(before[other], new_)
      {
        assert after[other] == before[other];
      }
    }
  }

  predicate IsReceipt(r: Option<Receipt>, id: string) {
    r.Some? && r.value.receiptId == id
  }

  lemma {:induction false} AnswerOfLatest(w: World, q: Promotion.Request, reviewId: string, m: Mint)
    ensures Reconcile(w, q, reviewId, m).answer.AlreadyPromoted? ==>
              && Reconcile(w, q, reviewId, m).world == w
              && LatestReceipt(w.records.receipts, q.episode).Some?
              && Reconcile(w, q, reviewId, m).answer.receiptId ==
                 LatestReceipt(w.records.receipts, q.episode).value.receiptId
    ensures CurrentSummaries(w.records, q.episode)
            && LatestReceipt(w.records.receipts, q.episode).Some?
            && Some(LatestReceipt(w.records.receipts, q.episode).value.taskSummaryId) ==
               SummaryId(w.records, q.episode, TaskSubject)
            && Some(LatestReceipt(w.records.receipts, q.episode).value.lineSummaryId) ==
               SummaryId(w.records, q.episode, LineSubject) ==>
              Reconcile(w, q, reviewId, m).answer ==
              AlreadyPromoted(LatestReceipt(w.records.receipts, q.episode).value.receiptId)
  {
    hide Promote, ValidReview, LatestReceipt, EntityIdFor;
    var task, line := SummaryOf(w.records, q.episode, TaskSubject), SummaryOf(w.records, q.episode, LineSubject);
  }

  /** With clocks that move forward, any number of further reconciles of the episode change nothing at all and
      answer with the receipt first written. */
  lemma {:induction false} RepeatedReconcilesChangeNothing(
      w: World, q: Promotion.Request, reviewId: string, m: Mint, more: seq<Action>)
    requires NamedReceipts(w.records.receipts) && Reconcile(w, q, reviewId, m).answer.Written?
    requires forall name :: name in w.records.receipts && w.records.receipts[name].identity == q.episode ==>
               Less(w.records.receipts[name].recordedAt, m.now)
    requires forall a :: a in more ==> a.ReconcileNow? && a.q.episode == q.episode
    ensures var w' := Reconcile(w, q, reviewId, m).world;
            && Steps(w', more) == w'
            && forall a :: a in more ==> Reconcile(w', a.q, a.reviewId, a.m).answer == AlreadyPromoted(m.receiptId)
  {
    hide Reconcile;
    var w' := Reconcile(w, q, reviewId, m).world;
    ReconcileWrites(w, q, reviewId, m);
    forall name | name in w.records.receipts && w.records.receipts[name].identity == q.episode
      ensures !Less(m.now, w.records.receipts[name].recordedAt) && w.records.receipts[name].recordedAt != m.now
    {
      LessIsAsymmetric(w.records.receipts[name].recordedAt, m.now);
      LessIsIrreflexive(m.now);
    }
    forall a | a in more
      ensures Reconcile(w', a.q, a.reviewId, a.m) == Reconciled(w', AlreadyPromoted(m.receiptId))
    {
      ReconcileIsIdempotentExactlyWhen(w, q, reviewId, m, a.q, a.reviewId, a.m);
    }
    FixpointOfSteps(w', more);
  }

  ghost function Steps(w: World, actions: seq<Action>): World
    decreases |actions|
  {
    if actions == [] then w else Steps(Step(w, actions[0]), actions[1..])
  }

  lemma {:induction false} FixpointOfSteps(w: World, actions: seq<Action>)
    requires forall a :: a in actions ==> Step(w, a) == w
    ensures Steps(w, actions) == w
  {
    hide Step;
    if actions != [] {
      FixpointOfSteps(w, actions[1..]);
    }
  }
}
