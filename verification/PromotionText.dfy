/** What the canonical files say after a promotion. */
module PromotionText {
  import opened Wrappers
  import opened Text
  import opened Evidence
  import opened Sections
  import opened Store
  import opened Documents
  import opened SectionLaws
  import opened Notes
  import opened NotesLaws
  import opened Writer
  import opened Promotion
  import opened PromotionRuns

  function SectionsOf(t: string): seq<string> { DocOf(t).sections }

  /** The text t' is t with exactly the first section of this heading line rewritten. */
  ghost predicate Rewrites(t: string, t': string, s: SectionName, body: string) {
    var k := IndexOf(SectionsOf(t), HeadFor(s));
    k < |SectionsOf(t)| && DocOf(t') == DocOf(t).(sections := SectionsOf(t)[k := SectionText(HeadFor(s), body)])
  }

  lemma {:induction false} RewriteKeepsIndices(t: string, t': string, s: SectionName, body: string, other: SectionName)
    requires Rewrites(t, t', s, body)
    ensures |SectionsOf(t')| == |SectionsOf(t)|
    ensures IndexOf(SectionsOf(t'), HeadFor(other)) == IndexOf(SectionsOf(t), HeadFor(other))
  {
    hide DocOf, IndexOf, HeadFor;
    var k := IndexOf(SectionsOf(t), HeadFor(s));
    HeadsAreHeads(s);
    HeadsAreHeads(other);
    FirstIndexHasHead(SectionsOf(t), HeadFor(s));
    SectionTextHasHead(HeadFor(s), body);
    if other != s {
      HeadsDiffer(s, other);
      DifferentHeads(SectionsOf(t)[k], HeadFor(s), HeadFor(other));
      DifferentHeads(SectionText(HeadFor(s), body), HeadFor(s), HeadFor(other));
    }
    IndexAfterUpdate(SectionsOf(t), k, SectionText(HeadFor(s), body), HeadFor(other));
  }

  lemma {:induction false} BodyBySection(t: string, s: SectionName)
    ensures FindSection(t, HeadFor(s)).Some? <==> IndexOf(SectionsOf(t), HeadFor(s)) < |SectionsOf(t)|
    ensures SectionBody(t, HeadFor(s)) ==
            var ss, k := SectionsOf(t), IndexOf(SectionsOf(t), HeadFor(s));
            if k < |ss| && |HeadFor(s)| <= |ss[k]| then Some(ss[k][|HeadFor(s)|..]) else None
  {
    hide DocOf, IndexOf, HeadFor, FindSection;
    HeadsAreHeads(s);
    SpliceIsUpdate(t, HeadFor(s), "");
    if IndexOf(SectionsOf(t), HeadFor(s)) < |SectionsOf(t)| {
      SectionIsNoShorterThanHead(SectionsOf(t), HeadFor(s));
    }
  }

  /** A rewrite sets its own section's body and keeps every other's. */
  lemma {:induction false} RewriteSetsOneBody(t: string, t': string, s: SectionName, body: string, other: SectionName)
    requires Rewrites(t, t', s, body)
    ensures SectionBody(t', HeadFor(other)) ==
            if other == s then Some(body + "\n\n") else SectionBody(t, HeadFor(other))
  {
    hide DocOf, IndexOf, HeadFor, SectionBody;
    RewriteKeepsIndices(t, t', s, body, other);
    BodyBySection(t', other);
    BodyBySection(t, other);
    var i, k := IndexOf(SectionsOf(t), HeadFor(other)), IndexOf(SectionsOf(t), HeadFor(s));
    if other == s {
      assert SectionText(HeadFor(s), body)[|HeadFor(s)|..] == body + "\n\n";
    } else if i == k {
      HeadsAreHeads(s);
      HeadsAreHeads(other);
      HeadsDiffer(s, other);
      FirstIndexHasHead(SectionsOf(t), HeadFor(s));
      if i < |SectionsOf(t)| {
        FirstIndexHasHead(SectionsOf(t), HeadFor(other));
        OneHead(SectionsOf(t)[i], HeadFor(s), HeadFor(other));
      }
    }
  }

  // ----- Patches whose text goes in as it is -----

  function MarkerOf(p: Patch): string { if p.marker.Some? then p.marker.value else "" }

  predicate PlainPatch(t: string, p: Patch) {
    if p.shape.SectionReplace? then PlainBody(Strip(p.body))
    else
      && p.section.NotesSection? && PlainMarker(MarkerOf(p)) && PlainNote(Strip(p.body), MarkerOf(p))
      && (FindSection(t, NOTES).Some? ==> !HeadingAt(NotesOf(t), 0))
  }

  /** The body the patched section must have afterwards. */
  function BodyAfter(t: string, p: Patch): string {
    if p.shape.SectionReplace? then Strip(p.body)
    else if FindSection(t, NOTES).Some? && UpsertBody(NotesOf(t), MarkerOf(p), p.body).Ok? then
      UpsertBody(NotesOf(t), MarkerOf(p), p.body).value
    else ""
  }

  lemma {:induction false} PatchRewrites(t: string, p: Patch)
    requires PlainPatch(t, p) && ApplyPatch(t, p).Ok?
    ensures Rewrites(t, ApplyPatch(t, p).value, p.section, BodyAfter(t, p))
  {
    hide PlainBody, PlainMarker, PlainNote, DocOf, IndexOf, FindSection, ReplaceSection, UpsertBody, NotesOf;
    HeadsAreHeads(p.section);
    if p.shape.SectionReplace? {
      ReplaceRewritesOneSection(t, HeadFor(p.section), p.body);
    } else {
      UpsertIsSplice(t, MarkerOf(p), p.body);
      UpsertRewritesOneSection(t, MarkerOf(p), p.body);
    }
  }

  predicate DistinctSections(ps: seq<Patch>) {
    forall i, j :: 0 <= i < j < |ps| ==> ps[i].section != ps[j].section
  }

  /** Exactly the patched sections changed, and each has the body its patch asks for. */
  ghost predicate Patched(t: string, t': string, ps: seq<Patch>) {
    && DocOf(t').preamble == DocOf(t).preamble
    && |SectionsOf(t')| == |SectionsOf(t)|
    && (forall s: SectionName :: IndexOf(SectionsOf(t'), HeadFor(s)) == IndexOf(SectionsOf(t), HeadFor(s)))
    && (forall k :: 0 <= k < |SectionsOf(t)|
                    && (forall p :: p in ps ==> k != IndexOf(SectionsOf(t), HeadFor(p.section))) ==>
          SectionsOf(t')[k] == SectionsOf(t)[k])
    && (forall s: SectionName :: (forall p :: p in ps ==> p.section != s) ==>
          SectionBody(t', HeadFor(s)) == SectionBody(t, HeadFor(s)))
    && (forall p :: p in ps ==> SectionBody(t', HeadFor(p.section)) == Some(BodyAfter(t, p) + "\n\n"))
  }

  lemma {:induction false} SameNotes(t: string, t': string, p: Patch)
    requires SectionBody(t', NOTES) == SectionBody(t, NOTES)
    ensures PlainPatch(t', p) <==> PlainPatch(t, p)
    ensures BodyAfter(t', p) == BodyAfter(t, p)
  {
    hide PlainBody, PlainMarker, PlainNote, UpsertBody;
    BodyExistsExactlyWhenFound(t);
    BodyExistsExactlyWhenFound(t');
  }

  lemma {:induction false} BodyExistsExactlyWhenFound(t: string)
    ensures SectionBody(t, NOTES).Some? <==> FindSection(t, NOTES).Some?
  {
  }

  /** Patches of different sections, whose text goes in as it is, change exactly those sections. */
  lemma {:induction false} PatchesRewriteTheirSections(t: string, ps: seq<Patch>)
    requires DistinctSections(ps) && ApplyAll(t, ps).Ok?
    requires forall p :: p in ps ==> PlainPatch(t, p)
    ensures Patched(t, ApplyAll(t, ps).value, ps)
    decreases |ps|
  {
    hide PlainPatch, BodyAfter, DocOf, IndexOf, HeadFor, SectionBody, ApplyPatch, Rewrites;
    if ps != [] {
      var p, rest := ps[0], ps[1..];
      var next := ApplyPatch(t, p).value;
      PatchRewrites(t, p);
      forall q | q in rest
        ensures PlainPatch(next, q) && BodyAfter(next, q) == BodyAfter(t, q) && q.section != p.section
      {
        LaterPatchIsUnaffected(t, next, ps, q);
      }
      PatchesRewriteTheirSections(next, rest);
      AfterFirstPatch(t, next, ApplyAll(t, ps).value, ps);
    }
  }

  lemma {:induction false} LaterPatchIsUnaffected(t: string, next: string, ps: seq<Patch>, q: Patch)
    requires ps != [] && DistinctSections(ps) && q in ps[1..] && PlainPatch(t, ps[0]) && PlainPatch(t, q)
    requires Rewrites(t, next, ps[0].section, BodyAfter(t, ps[0]))
    ensures PlainPatch(next, q) && BodyAfter(next, q) == BodyAfter(t, q) && q.section != ps[0].section
  {
    hide DocOf, IndexOf, SectionBody, Rewrites, PlainBody, PlainMarker, PlainNote, UpsertBody, NotesOf;
    var j :| 0 <= j < |ps[1..]| && ps[1..][j] == q;
    assert ps[j + 1] == q;
    RewriteSetsOneBody(t, next, ps[0].section, BodyAfter(t, ps[0]), NotesSection);
    if !ps[0].section.NotesSection? {
      SameNotes(t, next, q);
    }
  }

  lemma {:induction false} AfterFirstPatch(t: string, next: string, last: string, ps: seq<Patch>)
    requires ps != [] && Rewrites(t, next, ps[0].section, BodyAfter(t, ps[0]))
    requires forall q :: q in ps[1..] ==> BodyAfter(next, q) == BodyAfter(t, q) && q.section != ps[0].section
    requires Patched(next, last, ps[1..])
    ensures Patched(t, last, ps)
  {
    hide BodyAfter, DocOf, IndexOf, HeadFor, SectionBody;
    var p := ps[0];
    assert forall q :: q in ps <==> q == p || q in ps[1..];
    forall s: SectionName
      ensures IndexOf(SectionsOf(last), HeadFor(s)) == IndexOf(SectionsOf(t), HeadFor(s))
      ensures IndexOf(SectionsOf(next), HeadFor(s)) == IndexOf(SectionsOf(t), HeadFor(s))
      ensures SectionBody(next, HeadFor(s)) ==
              if s == p.section then Some(BodyAfter(t, p) + "\n\n") else SectionBody(t, HeadFor(s))
    {
      RewriteKeepsIndices(t, next, p.section, BodyAfter(t, p), s);
      RewriteSetsOneBody(t, next, p.section, BodyAfter(t, p), s);
    }
  }

  predicate HasSection(t: string, s: SectionName) {
    IndexOf(SectionsOf(t), HeadFor(s)) < |SectionsOf(t)|
  }

  lemma {:induction false} PatchAppliesExactlyWhen(t: string, p: Patch)
    requires PlainPatch(t, p)
    ensures ApplyPatch(t, p).Ok? <==> HasSection(t, p.section)
  {
    hide PlainBody, PlainMarker, PlainNote, DocOf, IndexOf, FindSection, ReplaceSection, UpsertBody, NotesOf, HeadingAt;
    HeadsAreHeads(p.section);
    if p.shape.SectionReplace? {
      ReplaceRewritesOneSection(t, HeadFor(p.section), p.body);
    } else {
      BodyBySection(t, p.section);
      if FindSection(t, NOTES).Some? {
        UpsertIsSplice(t, MarkerOf(p), p.body);
      }
    }
  }

  /** Such patches can be applied exactly when the text holds all their sections. */
  lemma {:induction false} PatchesApplyExactlyWhen(t: string, ps: seq<Patch>)
    requires DistinctSections(ps) && forall p :: p in ps ==> PlainPatch(t, p)
    ensures ApplyAll(t, ps).Ok? <==> forall p :: p in ps ==> HasSection(t, p.section)
    decreases |ps|
  {
    hide PlainPatch, BodyAfter, DocOf, IndexOf, HeadFor, ApplyPatch, Rewrites, HasSection;
    if ps != [] {
      var p, rest := ps[0], ps[1..];
      assert ps == [p] + rest;
      PatchAppliesExactlyWhen(t, p);
      if ApplyPatch(t, p).Ok? {
        var next := ApplyPatch(t, p).value;
        PatchRewrites(t, p);
        forall q | q in rest
          ensures PlainPatch(next, q) && (HasSection(next, q.section) <==> HasSection(t, q.section))
        {
          LaterPatchIsUnaffected(t, next, ps, q);
          SectionStays(t, next, p.section, BodyAfter(t, p), q.section);
        }
        PatchesApplyExactlyWhen(next, rest);
      }
    }
  }

  lemma {:induction false} SectionStays(t: string, t': string, s: SectionName, body: string, other: SectionName)
    requires Rewrites(t, t', s, body)
    ensures HasSection(t', other) <==> HasSection(t, other)
  {
    RewriteKeepsIndices(t, t', s, body, other);
  }

  // ----- A successful promotion -----

  /** The texts a promotion inserts go in as they are. */
  predicate PlainInput(files: Files, i: Input) {
    var progress := File(i.line, ProgressFile);
    && PlainBody(Strip(i.latestCompleted)) && PlainBody(Strip(i.nextAction))
    && PlainBody(Strip(CheckpointToken(i.line, i.review.outcome)))
    && PlainNote(Strip(NotesText(i)), MARKER)
    && (progress in files && FindSection(files[progress], NOTES).Some? ==> !HeadingAt(NotesOf(files[progress]), 0))
  }

  predicate Word(s: string) {
    s != [] && forall k :: 0 <= k < |s| ==> 'a' <= s[k] <= 'z' || s[k] == '_'
  }

  lemma {:induction false} TokensAreWords(o: ReviewOutcome)
    ensures Word(StatusToken(o))
  {
    LongTokensAreWords();
    var token := StatusToken(o);
    if !o.BlockedByEnvironment? && !o.BlockedByOperatorSafety? && !o.DeferredWithReason? {
      forall k | 0 <= k < |token| ensures 'a' <= token[k] <= 'z' || token[k] == '_' {
      }
    }
  }

  lemma {:induction false} LongTokensAreWords()
    ensures Word("blocked_by_environment")
    ensures Word("blocked_by_operator_safety")
    ensures Word("deferred_with_reason")
  {
  }

  lemma {:induction false} WordsArePlain(s: string)
    requires Word(s)
    ensures PlainBody(s) && Strip(s) == s
  {
    assert s[0] != '#';
    StripOfTrimmed(s);
  }

  lemma {:induction false} MarkerIsPlain()
    ensures PlainMarker(MARKER)
  {
  }

  lemma {:induction false} ProgressPatchesAreDistinct(i: Input)
    ensures var ps := ProgressPatches(i);
            && |ps| == 5 && DistinctSections(ps) && (forall p :: p in ps ==> p.target.ProgressFile?)
            && ps[0] in ps && ps[1] in ps && ps[2] in ps && ps[3] in ps && ps[4] in ps
            && forall p :: p in ps ==> p.section != CurrentStatus
  {
    hide StatusToken, CheckpointToken, NotesText;
  }

  lemma {:induction false} PatchesByFile(i: Input)
    ensures PatchesFor(PatchesOf(i), TaskPlanFile) == [PlanPatch(i)]
    ensures PatchesFor(PatchesOf(i), ProgressFile) == ProgressPatches(i)
  {
    hide StatusToken, PatchesFor, ProgressPatches;
    ProgressPatchesAreDistinct(i);
    PatchesForSplit([PlanPatch(i)], ProgressPatches(i), TaskPlanFile);
    PatchesForSplit([PlanPatch(i)], ProgressPatches(i), ProgressFile);
    AllOfOneFile([PlanPatch(i)], TaskPlanFile);
    AllOfOneFile(ProgressPatches(i), ProgressFile);
  }

  lemma {:induction false} AllOfOneFile(ps: seq<Patch>, t: Target)
    requires forall p :: p in ps ==> p.target == t
    ensures PatchesFor(ps, t) == ps
    ensures forall u: Target :: u != t ==> PatchesFor(ps, u) == []
  {
    if ps != [] {
      AllOfOneFile(ps[1..], t);
    }
  }

  lemma {:induction false} PromotionPatchesArePlain(files: Files, i: Input)
    requires PlainInput(files, i)
    ensures var plan, progress := File(i.line, TaskPlanFile), File(i.line, ProgressFile);
            && (plan in files ==> PlainPatch(files[plan], PlanPatch(i)))
            && (progress in files ==> forall p :: p in ProgressPatches(i) ==> PlainPatch(files[progress], p))
  {
    hide NotesText, CheckpointToken, PlainBody, PlainNote, PlainMarker, FindSection, NotesOf, StatusToken;
    TokensAreWords(i.review.outcome);
    WordsArePlain(StatusToken(i.review.outcome));
    MarkerIsPlain();
  }

  /** The two files a promotion writes, and no other. */
  lemma {:induction false} PromotionWritesTwoFiles(w: World, i: Input, m: Mint)
    requires Promote(w, i, m).error.None? && PlainInput(w.files, i)
    ensures var files := Promote(w, i, m).world.files;
            var plan, progress := File(i.line, TaskPlanFile), File(i.line, ProgressFile);
            && files.Keys == w.files.Keys && plan in files && progress in files
            && files - {plan, progress} == w.files - {plan, progress}
            && Patched(w.files[plan], files[plan], [PlanPatch(i)])
            && Patched(w.files[progress], files[progress], ProgressPatches(i))
  {
    hide ValidInput, GateError, FreshnessError, Write, ApplyAll, PlainPatch, Patched, PlanPatch, ProgressPatches;
    hide PatchesOf, PatchesFor, PlainInput;
    var plan, progress := File(i.line, TaskPlanFile), File(i.line, ProgressFile);
    WriteMeaning(w.files, i.line, PatchesOf(i));
    PatchesByFile(i);
    ProgressPatchesAreDistinct(i);
    PromotionPatchesArePlain(w.files, i);
    PatchesRewriteTheirSections(w.files[plan], [PlanPatch(i)]);
    PatchesRewriteTheirSections(w.files[progress], ProgressPatches(i));
  }

  /** After a promotion, Current Status, Current State and the suffix of Latest Checkpoint carry one status token,
      Latest Completed and Next Action hold the given texts, the notes hold the upserted block, and nothing else
      changed: no other section of the two files, and no other file. */
  lemma {:induction false} PromotionWritesOneToken(w: World, i: Input, m: Mint)
    requires Promote(w, i, m).error.None? && PlainInput(w.files, i)
    ensures var files := Promote(w, i, m).world.files;
            var plan, progress := File(i.line, TaskPlanFile), File(i.line, ProgressFile);
            var token := StatusToken(i.review.outcome);
            && files.Keys == w.files.Keys && plan in files && progress in files
            && files - {plan, progress} == w.files - {plan, progress}
            && Patched(w.files[plan], files[plan], [PlanPatch(i)])
            && Patched(w.files[progress], files[progress], ProgressPatches(i))
            && SectionBody(files[plan], "# Current Status\n") == Some(token + "\n\n")
            && SectionBody(files[progress], "# Current State\n") == Some(token + "\n\n")
            && SectionBody(files[progress], "# Latest Checkpoint\n") ==
               Some(Strip("checkpoint-" + i.line + "-" + token) + "\n\n")
            && SectionBody(files[progress], "# Latest Completed\n") == Some(Strip(i.latestCompleted) + "\n\n")
            && SectionBody(files[progress], "# Next Action\n") == Some(Strip(i.nextAction) + "\n\n")
            && SectionBody(files[progress], "# Current Status\n") ==
               SectionBody(w.files[progress], "# Current Status\n")
  {
    Headings();
    hide Promote, PlainInput, Patched, SectionBody, HeadFor, NotesText, StatusToken, Word;
    PromotionWritesTwoFiles(w, i, m);
    TokensAreWords(i.review.outcome);
    WordsArePlain(StatusToken(i.review.outcome));
    ProgressPatchesAreDistinct(i);
    var files := Promote(w, i, m).world.files;
    var plan, progress := File(i.line, TaskPlanFile), File(i.line, ProgressFile);
    BodiesOf(w.files[plan], files[plan], [PlanPatch(i)], PlanPatch(i));
    BodiesOf(w.files[progress], files[progress], ProgressPatches(i), ProgressPatches(i)[0]);
    BodiesOf(w.files[progress], files[progress], ProgressPatches(i), ProgressPatches(i)[1]);
    BodiesOf(w.files[progress], files[progress], ProgressPatches(i), ProgressPatches(i)[2]);
    BodiesOf(w.files[progress], files[progress], ProgressPatches(i), ProgressPatches(i)[3]);
    OtherBody(w.files[progress], files[progress], ProgressPatches(i), CurrentStatus);
  }

  lemma {:induction false} Headings()
    ensures HeadFor(CurrentStatus) == "# Current Status\n" && HeadFor(CurrentState) == "# Current State\n"
    ensures HeadFor(LatestCheckpoint) == "# Latest Checkpoint\n"
    ensures HeadFor(LatestCompleted) == "# Latest Completed\n" && HeadFor(NextAction) == "# Next Action\n"
  {
  }

  /** A promotion whose texts go in as they are succeeds exactly when its input and intent are valid, everything the
      intent names is current, and both canonical files hold the sections to be written. */
  lemma {:induction false} PromotionSucceedsExactlyWhen(w: World, i: Input, m: Mint)
    requires PlainInput(w.files, i)
    ensures var plan, progress := File(i.line, TaskPlanFile), File(i.line, ProgressFile);
            Promote(w, i, m).error.None? <==>
              && ValidInput(i) && ValidWriteIntent(WriteIntentOf(i)) && SafeToWrite(w.records, WriteIntentOf(i))
              && plan in w.files && HasSection(w.files[plan], CurrentStatus)
              && progress in w.files
              && forall s: SectionName :: s != CurrentStatus ==> HasSection(w.files[progress], s)
  {
    hide ValidInput, PlainInput, SafeToWrite, HasSection, Write, PatchesOf, ValidWriteIntent, PromotableError;
    FreshExactlyWhenSafe(w.records, WriteIntentOf(i));
    WriteMeaning(w.files, i.line, PatchesOf(i));
    FilesArePatchableExactlyWhen(w.files, i);
  }

  /** A reconcile of plain texts writes exactly when both summaries of the episode are stored, the latest receipt is not
      already for them, review, input and intent are valid, the episode is certified, and both canonical files hold the
      sections to be written. */
  lemma {:induction false} ReconcileWritesExactlyWhen(w: World, q: Promotion.Request, reviewId: string, m: Mint)
    requires CurrentSummaries(w.records, q.episode)
    requires PlainInput(w.files, StoredInput(w.records, q, reviewId))
    ensures var i := StoredInput(w.records, q, reviewId);
            var plan, progress := File(q.episode.line, TaskPlanFile), File(q.episode.line, ProgressFile);
            Reconcile(w, q, reviewId, m).answer == Written(m.receiptId) <==>
              && !PromotedBefore(w.records, q.episode, i.taskSummary, i.lineSummary)
              && ValidInput(i) && ValidWriteIntent(WriteIntentOf(i)) && Certified(w.records.evidence, q.episode)
              && plan in w.files && HasSection(w.files[plan], CurrentStatus)
              && progress in w.files
              && forall s: SectionName :: s != CurrentStatus ==> HasSection(w.files[progress], s)
  {
    hide Promote, PlainInput, ValidInput, ValidWriteIntent, Certified, HasSection, PromotedBefore, PatchesOf;
    hide CheckpointToken;
    var i := StoredInput(w.records, q, reviewId);
    ValidInputIsCurrent(w.records, q, reviewId);
    PromotionSucceedsExactlyWhen(WithReview(w, i.review), i, m);
    hide ValidReview;
  }

  lemma {:induction false} ValidInputIsCurrent(r: Records, q: Promotion.Request, reviewId: string)
    requires CurrentSummaries(r, q.episode)
    ensures var i := StoredInput(r, q, reviewId);
            ValidInput(i) ==>
              && ValidReview(i.review)
              && i.taskSummary.entityId in r.summaries && r.summaries[i.taskSummary.entityId] == i.taskSummary
              && i.lineSummary.entityId in r.summaries && r.summaries[i.lineSummary.entityId] == i.lineSummary
  {
    hide ValidReview;
  }

  /** The promotion input a reconcile makes of the stored summaries. */
  function StoredInput(r: Records, q: Promotion.Request, reviewId: string): Input
    requires CurrentSummaries(r, q.episode)
  {
    InputFor(q, reviewId, SummaryOf(r, q.episode, TaskSubject).value, SummaryOf(r, q.episode, LineSubject).value)
  }

  lemma {:induction false} FilesArePatchableExactlyWhen(files: Files, i: Input)
    requires PlainInput(files, i)
    ensures var plan, progress := File(i.line, TaskPlanFile), File(i.line, ProgressFile);
            AllPatchable(files, i.line, PatchesOf(i)) <==>
              && plan in files && HasSection(files[plan], CurrentStatus)
              && progress in files
              && forall s: SectionName :: s != CurrentStatus ==> HasSection(files[progress], s)
  {
    hide PlainInput, HasSection, PatchesOf, PatchesFor, PlainPatch, ApplyAll, StatusToken, CheckpointToken, NotesText;
    var plan, progress := File(i.line, TaskPlanFile), File(i.line, ProgressFile);
    PatchesByFile(i);
    ProgressPatchesAreDistinct(i);
    PromotionPatchesArePlain(files, i);
    if plan in files {
      PatchesApplyExactlyWhen(files[plan], [PlanPatch(i)]);
    }
    if progress in files {
      PatchesApplyExactlyWhen(files[progress], ProgressPatches(i));
    }
  }

  lemma {:induction false} OtherBody(t: string, t': string, ps: seq<Patch>, s: SectionName)
    requires Patched(t, t', ps) && forall p :: p in ps ==> p.section != s
    ensures SectionBody(t', HeadFor(s)) == SectionBody(t, HeadFor(s))
  {
    hide DocOf, IndexOf, SectionBody, BodyAfter, HeadFor;
  }

  lemma {:induction false} BodiesOf(t: string, t': string, ps: seq<Patch>, p: Patch)
    requires Patched(t, t', ps) && p in ps
    ensures SectionBody(t', HeadFor(p.section)) == Some(BodyAfter(t, p) + "\n\n")
  {
    hide DocOf, IndexOf, SectionBody, BodyAfter;
  }
}
