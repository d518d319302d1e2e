/** One run that promotes, and a state in which a repeated reconcile does not find its own receipt. */
module PromotionExamples {
  import opened Wrappers
  import opened Text
  import opened Evidence
  import opened EvidenceLogs
  import opened Orchestrator
  import opened Checkpoint
  import opened Store
  import opened Template
  import opened Sections
  import opened Documents
  import opened SectionLaws
  import opened Notes
  import opened NotesLaws
  import opened Writer
  import opened Promotion
  import opened PromotionRuns
  import opened PromotionText

  // ----- Texts that go in as they are -----

  /** No heading, marker or template character. */
  predicate Tame(s: string) {
    forall k :: 0 <= k < |s| ==> s[k] != '#' && s[k] != '<' && s[k] != '\\'
  }

  predicate Letters(s: string) {
    forall k :: 0 <= k < |s| ==> 'a' <= s[k] <= 'z' || s[k] == '_' || s[k] == '='
  }

  lemma {:induction false} TameJoin(lines: seq<string>)
    requires forall line :: line in lines ==> Tame(line)
    ensures Tame(JoinLines(lines))
  {
    if |lines| == 1 {
      assert lines[0] in lines;
    } else if |lines| > 1 {
      TameJoin(lines[1..]);
      assert lines[0] in lines;
      TameSum(lines[0], "\n");
      TameSum(lines[0] + "\n", JoinLines(lines[1..]));
    }
  }

  lemma {:induction false} TameSum(a: string, b: string)
    requires Tame(a) && Tame(b)
    ensures Tame(a + b)
  {
  }

  lemma {:induction false} TameIsPlain(s: string, marker: string)
    requires Tame(s)
    ensures PlainNote(Strip(s), marker) && NoBackslash(Strip(s)) && HeadingFree(Strip(s))
  {
    var a, b := StripIsSlice(s);
    var u := Strip(s);
    assert forall k :: 0 <= k < |u| ==> u[k] == s[a + k];
    hide Strip, Occurs, StartTok, EndTok;
    TokensOpen(marker);
    forall k | 0 <= k <= |u| ensures !Occurs(u, k, StartTok(marker)) && !Occurs(u, k, EndTok(marker)) {
      OpensWithToken(u, k, StartTok(marker));
      OpensWithToken(u, k, EndTok(marker));
    }
  }

  lemma {:induction false} TokensOpen(marker: string)
    ensures StartTok(marker) != [] && StartTok(marker)[0] == '<' && EndTok(marker) != [] && EndTok(marker)[0] == '<'
  {
  }

  lemma {:induction false} OpensWithToken(u: string, k: nat, p: string)
    requires p != [] && p[0] == '<' && Tame(u)
    ensures !Occurs(u, k, p)
  {
    assert k + |p| <= |u| ==> u[k..k + |p|][0] == u[k];
  }

  /** Ids and reasons without those characters make notes that go in as they are. */
  lemma {:induction false} TameNotes(i: Input)
    requires Tame(i.review.reviewId) && Tame(i.review.identity.packetId) && Tame(i.review.identity.taskId)
    requires Tame(i.review.identity.planId) && Tame(i.taskSummary.summaryId) && Tame(i.lineSummary.summaryId)
    requires forall k :: 0 <= k < |i.review.reasons| ==> Tame(i.review.reasons[k])
    ensures PlainNote(Strip(NotesText(i)), MARKER) && !Blank(NotesText(i))
  {
    TameKeys();
    TameLines(i);
    NotesAreLines(i);
    hide Tame, PlainNote, Strip, JoinLines, NotesText, FixedLines;
    var lines := FixedLines(i) + ReasonLines(i);
    forall line | line in lines ensures Tame(line) {
      if line in ReasonLines(i) {
        var k :| 0 <= k < |i.review.reasons| && ReasonLines(i)[k] == line;
        TameSum("review_reason=", i.review.reasons[k]);
      }
    }
    TameJoin(lines);
    TameIsPlain(NotesText(i), MARKER);
  }

  function FixedLines(i: Input): seq<string> {
    ["review_id=" + i.review.reviewId,
     "review_outcome=" + PlanToken(i.review.outcome),
     "identity_packet_id=" + i.review.identity.packetId,
     "identity_task_id=" + i.review.identity.taskId,
     "identity_plan_id=" + i.review.identity.planId,
     "latest_task_summary_id=" + i.taskSummary.summaryId,
     "latest_task_summary_kind=task_handoff",
     "latest_line_summary_id=" + i.lineSummary.summaryId,
     "latest_line_summary_kind=line_checkpoint"]
  }

  function ReasonLines(i: Input): (r: seq<string>)
    ensures |r| == |i.review.reasons|
    ensures forall k :: 0 <= k < |r| ==> r[k] == "review_reason=" + i.review.reasons[k]
  {
    seq(|i.review.reasons|, k requires 0 <= k < |i.review.reasons| => "review_reason=" + i.review.reasons[k])
  }

  lemma {:induction false} NotesAreLines(i: Input)
    ensures NotesText(i) == JoinLines(FixedLines(i) + ReasonLines(i)) && !Blank(NotesText(i))
  {
    hide PlanToken;
    assert ReasonLines(i) == seq(|i.review.reasons|,
                                 k requires 0 <= k < |i.review.reasons| => "review_reason=" + i.review.reasons[k]);
    var lines := FixedLines(i) + ReasonLines(i);
    assert lines[0][0] == 'r' && |lines| > 1;
    hide FixedLines;
    assert JoinLines(lines)[0] == 'r';
  }

  lemma {:induction false} TameLines(i: Input)
    requires Tame(i.review.reviewId) && Tame(i.review.identity.packetId) && Tame(i.review.identity.taskId)
    requires Tame(i.review.identity.planId) && Tame(i.taskSummary.summaryId) && Tame(i.lineSummary.summaryId)
    ensures forall line :: line in FixedLines(i) ==> Tame(line)
  {
    TameTokens(i.review.outcome);
    TameKeys();
    hide Tame, PlanToken;
    TameSum("review_id=", i.review.reviewId);
    TameSum("review_outcome=", PlanToken(i.review.outcome));
    TameSum("identity_packet_id=", i.review.identity.packetId);
    TameSum("identity_task_id=", i.review.identity.taskId);
    TameSum("identity_plan_id=", i.review.identity.planId);
    TameSum("latest_task_summary_id=", i.taskSummary.summaryId);
    TameSum("latest_line_summary_id=", i.lineSummary.summaryId);
  }

  lemma {:induction false} WordIsTame(s: string)
    requires Word(s) || Letters(s)
    ensures Tame(s)
  {
  }

  lemma {:induction false} TameTokens(o: ReviewOutcome)
    ensures Tame(PlanToken(o))
  {
    LongTokensAreWords();
    PassTokensAreWords();
    OtherTokensAreWords();
    hide Word, Tame;
    WordIsTame(PlanToken(o));
  }

  lemma {:induction false} PassTokensAreWords()
    ensures Word("pass") && Word("pass_with_notes") && Word("stopline")
  {
  }

  lemma {:induction false} OtherTokensAreWords()
    ensures Word("return_for_hardening") && Word("split_into_new_scope")
  {
  }

  lemma {:induction false} TameKeys()
    ensures Tame("review_id=") && Tame("review_outcome=") && Tame("identity_packet_id=") && Tame("review_reason=")
    ensures Tame("identity_task_id=") && Tame("identity_plan_id=") && Tame("latest_task_summary_id=")
    ensures Tame("latest_task_summary_kind=task_handoff") && Tame("latest_line_summary_id=")
    ensures Tame("latest_line_summary_kind=line_checkpoint")
  {
    ShortKeysAreLetters();
    LongKeysAreLetters();
    KindsAreLetters();
    hide Letters, Tame;
    WordIsTame("review_id=");
    WordIsTame("review_outcome=");
    WordIsTame("review_reason=");
    WordIsTame("identity_packet_id=");
    WordIsTame("identity_task_id=");
    WordIsTame("identity_plan_id=");
    WordIsTame("latest_task_summary_id=");
    WordIsTame("latest_line_summary_id=");
    WordIsTame("latest_task_summary_kind=task_handoff");
    WordIsTame("latest_line_summary_kind=line_checkpoint");
  }

  lemma {:induction false} ShortKeysAreLetters()
    ensures Letters("review_id=") && Letters("review_outcome=") && Letters("review_reason=")
    ensures Letters("identity_packet_id=")
  {
  }

  lemma {:induction false} LongKeysAreLetters()
    ensures Letters("identity_task_id=") && Letters("identity_plan_id=")
    ensures Letters("latest_task_summary_id=") && Letters("latest_line_summary_id=")
  {
  }

  lemma {:induction false} KindsAreLetters()
    ensures Letters("latest_task_summary_kind=task_handoff")
    ensures Letters("latest_line_summary_kind=line_checkpoint")
  {
  }

  // ----- An episode of two events -----

  function PlanEvent(id: Identity, worker: string): RuntimeEvent {
    Wrap(PlanPayload(PlanCreated, id.planId, id.taskId, id.line, Some(worker), RetrySameWorker, false, "next", [],
                     Some(1)),
         id.packetId, MessageFor(PlanCreated), None, "e0", "1")
  }

  function ResultEvent(id: Identity, worker: string): RuntimeEvent {
    Wrap(ResultPayload(id.planId, id.taskId, id.line, Some(worker), Completed, 1, false, None, None, None, None),
         id.packetId, MessageFor(ResultRecorded), None, "e1", "2")
  }

  predicate NamedIdentity(id: Identity) {
    !Blank(id.packetId) && !Blank(id.taskId) && !Blank(id.line) && !Blank(id.planId)
  }

  lemma {:induction false} EpisodeOfTwo(id: Identity, worker: string)
    requires NamedIdentity(id)
    ensures var events := [PlanEvent(id, worker), ResultEvent(id, worker)];
            Episode(events, id, Some(worker)) && ResultOf(events).resultStatus.Completed?
  {
    MessageIsNotBlank(PlanCreated);
    MessageIsNotBlank(ResultRecorded);
    assert "next"[0] == 'n';
    var plan := PlanPayload(PlanCreated, id.planId, id.taskId, id.line, Some(worker), RetrySameWorker, false, "next",
                            [], Some(1));
    var result := ResultPayload(id.planId, id.taskId, id.line, Some(worker), Completed, 1, false, None, None, None,
                                None);
    ExtractUndoesWrap(plan, id.packetId, MessageFor(PlanCreated), None, "e0", "1");
    ExtractUndoesWrap(result, id.packetId, MessageFor(ResultRecorded), None, "e1", "2");
    hide Extract, Blank, MessageFor;
  }

  /** Offered to an empty store, both events are accepted, and the episode is certified. */
  lemma {:induction false} EvidenceIsStored(id: Identity, worker: string)
    requires NamedIdentity(id)
    ensures var events := [PlanEvent(id, worker), ResultEvent(id, worker)];
            && Offer(Offer(map[], events[0]), events[1]) == map[id.packetId := events]
            && Certified(map[id.packetId := events], id)
  {
    var events, none: Logs := [PlanEvent(id, worker), ResultEvent(id, worker)], map[];
    EpisodeOfTwo(id, worker);
    hide PlanEvent, ResultEvent, Extract, Judge, Promotable, Certified;
    ResultIsAcceptedExactlyWhen(none, events, id, Some(worker));
    EpisodeIsPromotableExactlyWhen(none, events, id, Some(worker));
    EpisodeIsAcceptedUpToItsResult(none, events, id, Some(worker), 0);
    PromotableExactlyWhenCertified(map[id.packetId := events], id);
    OffersInOrder(none, events);
    assert events[..0] == [] && events[..1] == [events[0]];
    assert none[id.packetId := [events[0]]][id.packetId := events] == map[id.packetId := events];
    assert none[id.packetId := events] == map[id.packetId := events];
    AppendedBehind(none[id.packetId := events[..1]], events, id, Some(worker));
  }

  lemma {:induction false} OffersInOrder(logs: Logs, events: seq<RuntimeEvent>)
    requires |events| == 2
    ensures OfferAll(logs, events[..1]) == Offer(logs, events[0])
  {
    hide Judge;
    assert events[..1][..0] == [];
  }

  lemma {:induction false} AppendedBehind(logs: Logs, events: seq<RuntimeEvent>, id: Identity, worker: Option<string>)
    requires Episode(events, id, worker) && |events| == 2
    requires id.packetId in logs && logs[id.packetId] == events[..1] && Judge(logs, events[1]).Append?
    ensures Offer(logs, events[1]) == logs[id.packetId := events]
  {
    FrontOfEpisode(events, id, worker, 1);
    hide Extract, Judge;
    assert events[..1] + [events[1]] == events;
  }

  // ----- The canonical files -----

  function Sheet(names: seq<SectionName>): Doc {
    Doc("", seq(|names|, i requires 0 <= i < |names| => SectionText(HeadFor(names[i]), "x")))
  }

  lemma {:induction false} SheetIsRead(names: seq<SectionName>)
    ensures DocOf(TextOf(Sheet(names))) == Sheet(names)
    ensures forall s :: s in names ==> HasSection(TextOf(Sheet(names)), s)
  {
    hide HeadFor, SectionText, IsSection, Closed, DocOf, TextOf;
    assert HeadingFree("x");
    forall s: SectionName ensures IsSection(SectionText(HeadFor(s), "x")) && Closed(SectionText(HeadFor(s), "x")) {
      HeadsAreHeads(s);
      SectionTextIsSection(HeadFor(s), "x");
    }
    DocOfTextOf(Sheet(names));
    forall s | s in names ensures HasSection(TextOf(Sheet(names)), s) {
      var i :| 0 <= i < |names| && names[i] == s;
      SectionTextHasHead(HeadFor(s), "x");
      assert HasHead(Sheet(names).sections[i], HeadFor(s));
    }
  }

  lemma {:induction false} SheetNotes(names: seq<SectionName>)
    requires NotesSection in names
    ensures var t := TextOf(Sheet(names)); FindSection(t, NOTES).Some? && NotesOf(t) == "x"
  {
    hide HeadFor, IsSection, Closed, DocOf, TextOf, IndexOf, FindSection, SectionText;
    var t, k := TextOf(Sheet(names)), IndexOf(Sheet(names).sections, HeadFor(NotesSection));
    SheetIsRead(names);
    BodyBySection(t, NotesSection);
    NotesHead();
    SectionTextHasHead(HeadFor(names[k]), "x");
    HeadsAreHeads(names[k]);
    HeadsAreHeads(NotesSection);
    OneHead(Sheet(names).sections[k], HeadFor(names[k]), NOTES);
    BodyOfText(NOTES, "x");
    assert SectionBody(t, NOTES) == Some("x" + "\n\n");
    StripOfPadded("", "x", "\n\n");
    assert "" + "x" + "\n\n" == "x" + "\n\n";
  }

  lemma {:induction false} BodyOfText(head: string, body: string)
    ensures |head| <= |SectionText(head, body)| && SectionText(head, body)[|head|..] == body + "\n\n"
  {
  }

  lemma {:induction false} NotesHead()
    ensures HeadFor(NotesSection) == NOTES
  {
  }

  function PlanSections(): seq<SectionName> { [CurrentStatus] }

  function ProgressSections(): seq<SectionName> {
    [LatestCompleted, CurrentState, NextAction, LatestCheckpoint, NotesSection]
  }

  lemma {:induction false} AllSections()
    ensures CurrentStatus in PlanSections() && NotesSection in ProgressSections()
    ensures forall s: SectionName :: s != CurrentStatus ==> s in ProgressSections()
  {
    var names := ProgressSections();
    assert PlanSections()[0] == CurrentStatus;
    assert names[0] == LatestCompleted && names[1] == CurrentState && names[2] == NextAction
           && names[3] == LatestCheckpoint && names[4] == NotesSection;
  }

  function FilesOf(line: string): Files {
    map[File(line, TaskPlanFile) := TextOf(Sheet(PlanSections())),
        File(line, ProgressFile) := TextOf(Sheet(ProgressSections()))]
  }

  lemma {:induction false} FilesHoldTheSections(line: string)
    ensures var plan, progress := File(line, TaskPlanFile), File(line, ProgressFile);
            && plan in FilesOf(line) && HasSection(FilesOf(line)[plan], CurrentStatus)
            && progress in FilesOf(line)
            && (forall s: SectionName :: s != CurrentStatus ==> HasSection(FilesOf(line)[progress], s))
            && FindSection(FilesOf(line)[progress], NOTES).Some? && NotesOf(FilesOf(line)[progress]) == "x"
  {
    AllSections();
    SheetIsRead(PlanSections());
    SheetIsRead(ProgressSections());
    SheetNotes(ProgressSections());
    hide Sheet, TextOf, HasSection, FindSection, NotesOf, PlanSections, ProgressSections;
  }

  // ----- The promotion -----

  function TaskSummary(id: Identity): Summary {
    Summary("s1", TaskHandoff, TaskSubject, id, EntityIdFor(id, TaskSubject))
  }

  function LineSummary(id: Identity): Summary {
    Summary("s2", LineCheckpoint, LineSubject, id, EntityIdFor(id, LineSubject))
  }

  lemma {:induction false} EntityIds(id: Identity)
    ensures EntityIdFor(id, TaskSubject) != EntityIdFor(id, LineSubject)
    ensures !Blank(EntityIdFor(id, TaskSubject)) && !Blank(EntityIdFor(id, LineSubject))
  {
    assert EntityIdFor(id, TaskSubject)[0] == 't' && EntityIdFor(id, LineSubject)[0] == 'l';
  }

  function Episode1(): Identity { Identity("p", "t", "l", "n") }

  function Ask(): Promotion.Request {
    Promotion.Request(Episode1(), Pass, [], "done", "go")
  }

  function Clock(): Mint { Mint("c", "3") }

  /** The state in front of the reconcile, whatever receipts are stored. */
  function Ready(receipts: map<string, Receipt>): World {
    var id := Episode1();
    World(Records(map["p" := [PlanEvent(id, "w"), ResultEvent(id, "w")]], map[],
                  map[EntityIdFor(id, TaskSubject) := TaskSummary(id)][EntityIdFor(id, LineSubject) := LineSummary(id)],
                  receipts, map[]),
          FilesOf("l"))
  }

  lemma {:induction false} ReadySummaries(receipts: map<string, Receipt>)
    ensures CurrentSummaries(Ready(receipts).records, Episode1())
    ensures StoredInput(Ready(receipts).records, Ask(), "r") == AskInput()
    ensures Ready(receipts).records.receipts == receipts && Ready(receipts).files == FilesOf("l")
    ensures Ready(receipts).records.evidence ==
            map["p" := [PlanEvent(Episode1(), "w"), ResultEvent(Episode1(), "w")]]
  {
    EntityIds(Episode1());
    hide FilesOf, PlanEvent, ResultEvent, EntityIdFor;
  }

  lemma {:induction false} LettersAreNotBlank()
    ensures !Blank("p") && !Blank("t") && !Blank("l") && !Blank("n") && !Blank("r") && !Blank("done") && !Blank("go")
    ensures !Blank("s1") && !Blank("s2")
    ensures Tame("p") && Tame("t") && Tame("l") && Tame("n") && Tame("r") && Tame("s1") && Tame("s2")
  {
    assert "p"[0] == 'p' && "t"[0] == 't' && "l"[0] == 'l' && "n"[0] == 'n' && "r"[0] == 'r';
    assert "done"[0] == 'd' && "go"[0] == 'g' && "s1"[0] == 's' && "s2"[0] == 's';
  }

  /** The input the reconcile makes. */
  function AskInput(): Input {
    InputFor(Ask(), "r", TaskSummary(Episode1()), LineSummary(Episode1()))
  }

  lemma {:induction false} AskIsPlain()
    ensures PlainInput(FilesOf("l"), AskInput())
  {
    AskNotes();
    AskWords();
    CheckpointIsPlain();
    FilesHoldTheSections("l");
    assert !HeadingAt("x", 0);
    hide PlainBody, PlainNote, NotesText, Strip, CheckpointToken, NotesOf, FilesOf, FindSection, HeadingAt, HasSection;
  }

  lemma {:induction false} AskNotes()
    ensures PlainNote(Strip(NotesText(AskInput())), MARKER) && !Blank(NotesText(AskInput()))
  {
    LettersAreNotBlank();
    hide Tame, Blank, PlainNote, NotesText, Strip;
    TameNotes(AskInput());
  }

  lemma {:induction false} AskWords()
    ensures PlainBody(Strip("done")) && PlainBody(Strip("go"))
  {
    WordsArePlain("done");
    WordsArePlain("go");
  }

  lemma {:induction false} CheckpointIsPlain()
    ensures PlainBody(Strip(CheckpointToken("l", Pass))) && !Blank(CheckpointToken("l", Pass))
  {
    var token := CheckpointToken("l", Pass);
    assert Word("completed");
    assert token == "checkpoint-l-" + "completed";
    assert Tame("checkpoint-l-");
    WordIsTame("completed");
    TameSum("checkpoint-l-", "completed");
    TameIsPlain(token, MARKER);
    assert token[0] == 'c' && token[|token| - 1] == 'd';
    StripOfTrimmed(token);
  }

  lemma {:induction false} AskIsValid()
    ensures ValidInput(AskInput()) && ValidWriteIntent(WriteIntentOf(AskInput()))
  {
    LettersAreNotBlank();
    CheckpointIsPlain();
    AskNotes();
    EntityIds(Episode1());
    AskPatches();
    hide NotesText, CheckpointToken, Blank, EntityIdFor, Tame, PlainNote, PlainBody, Strip, PatchesOf, ValidPatch;
  }

  lemma {:induction false} AskPatches()
    ensures PatchesOf(AskInput()) != []
    ensures forall k :: 0 <= k < |PatchesOf(AskInput())| ==> ValidPatch(PatchesOf(AskInput())[k])
  {
    LettersAreNotBlank();
    CheckpointIsPlain();
    AskNotes();
    hide Blank, NotesText, CheckpointToken, Tame, PlainNote, PlainBody, PatchesOf, ValidPatch;
    PatchesAreValid(AskInput());
  }

  lemma {:induction false} PatchesAreValid(i: Input)
    requires !Blank(i.latestCompleted) && !Blank(i.nextAction) && !Blank(NotesText(i))
    requires !Blank(CheckpointToken(i.line, i.review.outcome))
    ensures PatchesOf(i) != [] && forall k :: 0 <= k < |PatchesOf(i)| ==> ValidPatch(PatchesOf(i)[k])
  {
    hide NotesText, CheckpointToken, StatusToken, Word, Blank;
    TokensAreWords(i.review.outcome);
    WordIsNotBlank(StatusToken(i.review.outcome));
    MarkerIsNotBlank();
  }

  lemma {:induction false} MarkerIsNotBlank()
    ensures !Blank(MARKER)
  {
    assert MARKER[0] == 'p';
  }

  lemma {:induction false} WordIsNotBlank(s: string)
    requires Word(s)
    ensures !Blank(s)
  {
    assert !IsSpace(s[0]);
  }

  /** The reconcile writes, unless the latest stored receipt is for the stored summaries. */
  lemma {:induction false} ReadyReconcileWrites(receipts: map<string, Receipt>)
    requires !PromotedBefore(Ready(receipts).records, Episode1(), TaskSummary(Episode1()), LineSummary(Episode1()))
    ensures Reconcile(Ready(receipts), Ask(), "r", Clock()).answer == Written("c")
  {
    ReadySummaries(receipts);
    AskIsPlain();
    AskIsValid();
    LettersAreNotBlank();
    EvidenceIsStored(Episode1(), "w");
    FilesHoldTheSections("l");
    hide PlainInput, ValidInput, ValidWriteIntent, Certified, HasSection, Blank, Ready, FilesOf, StoredInput, AskInput;
    hide PromotedBefore, Reconcile, PlanEvent, ResultEvent, TaskSummary, LineSummary, WriteIntentOf, CurrentSummaries;
    ReconcileWritesExactlyWhen(Ready(receipts), Ask(), "r", Clock());
  }

  function Steps4(): seq<PromotionRuns.Action> {
    var id := Episode1();
    [OfferEvidence(PlanEvent(id, "w")), OfferEvidence(ResultEvent(id, "w")), SaveSummary(TaskSummary(id)),
     SaveSummary(LineSummary(id))]
  }

  /** A run of the whole system that ends in a promotion: a plan and its completed result are recorded, both summaries
      are stored, and the reconcile writes. */
  lemma {:induction false} SomeRunPromotes()
    ensures Reconcile(PromotionRuns.Run(FilesOf("l"), Steps4()), Ask(), "r", Clock()).answer == Written("c")
  {
    RunIsReady();
    assert LatestReceipt(map[], Episode1()).None?;
    ReadySummaries(map[]);
    hide Ready, Reconcile, LatestReceipt;
    ReadyReconcileWrites(map[]);
  }

  lemma {:induction false} RunIsReady()
    ensures PromotionRuns.Run(FilesOf("l"), Steps4()) == Ready(map[])
  {
    hide FilesOf, PlanEvent, ResultEvent, Offer, Blank, EntityIdFor, Step, Certified;
    var files, actions := FilesOf("l"), Steps4();
    LettersAreNotBlank();
    EvidenceIsStored(Episode1(), "w");
    assert actions[..0] == [] && actions[..4] == actions;
    RunStep(files, actions, 0);
    RunStep(files, actions, 1);
    RunStep(files, actions, 2);
    RunStep(files, actions, 3);
    var w := World(Records(map[], map[], map[], map[], map[]), files);
    var w1 := RecordingStep(w, actions[0]);
    var w2 := RecordingStep(w1, actions[1]);
    var w3 := RecordingStep(w2, actions[2]);
    var w4 := RecordingStep(w3, actions[3]);
  }

  /** What recording evidence or a summary changes. */
  lemma {:induction false} RecordingStep(w: World, a: PromotionRuns.Action) returns (w': World)
    requires a.OfferEvidence? || a.SaveSummary?
    ensures w' == Step(w, a) && w'.files == w.files
    ensures a.OfferEvidence? ==> w'.records == w.records.(evidence := Offer(w.records.evidence, a.e))
    ensures a.SaveSummary? ==> w'.records == w.records.(summaries := w.records.summaries[a.s.entityId := a.s])
  {
    hide Offer, Promotion.Reconcile, Promote, Commit;
    w' := Step(w, a);
  }

  lemma {:induction false} RunStep(files: Files, actions: seq<PromotionRuns.Action>, n: nat)
    requires n < |actions|
    ensures PromotionRuns.Run(files, actions[..n + 1]) == Step(PromotionRuns.Run(files, actions[..n]), actions[n])
  {
    hide Step;
    assert actions[..n + 1][..n] == actions[..n];
  }

  /** A receipt of the episode for older summaries, recorded later than the clock of the reconcile. */
  function LaterReceipt(): Receipt {
    Receipt("z", "l", Episode1(), "r0", "s0", "s0", "k", "9")
  }

  /** In that state a second reconcile does not find the receipt the first one wrote. */
  lemma {:induction false} LaterReceiptHidesTheNewOne(reviewId: string, m: Mint)
    ensures var first := Reconcile(Ready(map["z" := LaterReceipt()]), Ask(), "r", Clock());
            && first.answer == Written("c")
            && Reconcile(first.world, Ask(), reviewId, m).answer != AlreadyPromoted("c")
  {
    var receipts := map["z" := LaterReceipt()];
    OnlyReceipt();
    ReadySummaries(receipts);
    OldSummaries();
    hide Reconcile, LatestReceipt, Ready, NothingLater, TaskSummary, LineSummary, LaterReceipt, FilesOf;
    hide CurrentSummaries, StoredInput;
    ReadyReconcileWrites(receipts);
    ReconcileIsIdempotentExactlyWhen(Ready(receipts), Ask(), "r", Clock(), Ask(), reviewId, m);
    LaterIsLater();
  }

  lemma {:induction false} OldSummaries()
    ensures LaterReceipt().taskSummaryId != TaskSummary(Episode1()).summaryId
  {
    assert "s0"[1] == '0' && "s1"[1] == '1';
  }

  lemma {:induction false} OnlyReceipt()
    ensures LatestReceipt(map["z" := LaterReceipt()], Episode1()) in {None, Some(LaterReceipt())}
    ensures NamedReceipts(map["z" := LaterReceipt()])
  {
  }

  lemma {:induction false} LaterIsLater()
    ensures !NothingLater(map["z" := LaterReceipt()], Episode1(), Clock())
  {
    var receipts := map["z" := LaterReceipt()];
    assert "9"[0] == '9' && "3"[0] == '3' && "z"[0] == 'z' && "c"[0] == 'c';
    assert "z" in receipts && Less("3", receipts["z"].recordedAt);
  }
}
