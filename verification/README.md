# Verified model of the ControlMesh runtime

ControlMesh runs recovery work in *packets*. A packet's execution is recorded as an append-only log of typed events,
an episode's one result decides whether a summary may be *promoted* into the canonical markdown files of its line, and
several streaming and caching components sit around that core. This project models the runtime in Dafny and proves what
its steps keep over whole runs.

Each component is written in the form the source gives it. Components that change fields or files in place are classes
with `modifies` clauses (`Store.RuntimeStore`, `Writer.CanonicalSectionWriter`, `PromotionBridge.Bridge` and
`Controller`, `Coalescer.StreamCoalescer`, `ThinkingFilter.CodexThinkingFilter`, `ModelCache.CacheFile`,
`LockPools.LockPool`); loops are methods with invariants. Every such method is proved equal to a function on values,
and the laws are lemmas about those functions and about arbitrary sequences of steps. For each operation one law says
what it answers in the terms of its caller: literal headings, tokens, limits and tables, and conditions on the arguments
and the state before (`RunOutcomes`, `ReconcileLaws`, `WrittenText`, `CasePackReports`, and the `...Answers` lemmas).

| part | files |
|---|---|
| strings, sequences, options, sets | Text |
| payloads and the events that carry them | Evidence |
| recovery engine, orchestrator | Engine, Orchestrator, RunOutcomes |
| evidence store | EvidenceLogs, EvidenceRuns, Store |
| replay queries, persisted cycle | Replay, TaskReplay, Checkpoint |
| canonical markdown writer | Template, Sections, Documents, SectionLaws, Notes, NotesLaws, OtherNotes, Writer, WrittenText |
| promotion | Promotion, PromotionBridge, PromotionRuns, PromotionText, ReconcileLaws, PromotionExamples |
| streaming | Coalescer, StderrSplitter, ThinkingFilter |
| supporting cores | ConfigMerge, ModelCache, CodexCatalog, LockPool, LockRuns, CasePackLint, CasePackLaws, CasePackReports |

`dafny verify dfyconfig.toml` checks everything.

## What the source does not keep

Where a promise turned out to fail on some inputs, the code is modelled as it is and the exact condition is proved.

- A section body is spliced into a regex replacement template behind `\1`. A body that starts with a digit is read as
  part of the group number: "42" replaces the heading line by the character `b`, "9" is rejected. For backslash-free
  bodies, `Sections.ReplacesVerbatimExactlyWhen` shows that a leading digit is the only obstacle.
- Replacing a section twice by the same body equals replacing it once exactly when no line of the body opens a section
  (`SectionLaws.ReplaceIsIdempotentExactlyWhen`).
- Upserting a notes block twice equals upserting it once exactly when the stripped notes do not open with a heading
  line and hold no start marker that is never closed (`NotesLaws.UpsertIsIdempotentExactlyWhen`).
- A result offered again is answered with the recorded event only while the reporting worker owns the packet's last plan
  event and no other episode of the task is the latest; else the retry is refused (`EvidenceRuns.RetryAnswers`). Right
  after its acceptance it always is (`EvidenceRuns.RetryAtOnceIsReplayed`).
- A canonical write that fails at the second file leaves the first one written
  (`Writer.FailedWriteLeavesFirstFilePatched`).
- A human-gate reason that is present but blank makes plan building raise (`Engine.PlanIsBuiltExactlyWhen`, and
  `Engine.BlankGateReasonRaises` for one request), and a cycle without a worker id records every event but its result
  (`Checkpoint.ResultIsAcceptedExactlyWhen`).
- A reconcile after one that wrote answers with the same receipt exactly when, before the first one, no receipt of the
  episode was recorded later than its clock (`PromotionRuns.ReconcileIsIdempotentExactlyWhen`);
  `PromotionExamples.LaterReceiptHidesTheNewOne` is a state in which one was.
- A forced flush of the coalescer delivers everything exactly when no callback is in flight or nothing is buffered
  (`Coalescer.ForcedFlushDeliversAllExactlyWhen`).
- What the stderr reader offers to its classifier is independent of how the stream was cut into reads of at most 4096
  bytes exactly when no line is longer than 65536 bytes and what follows the last newline is no longer than 65537
  (`StderrSplitter.CutDoesNotMatterExactlyWhen`). A line of 65537 bytes is lost in one such cut and offered whole in
  another (`StderrSplitter.LongLineDependsOnTheCut`).
- Envelopes of one session are never processed together, in every run over a set of sessions, exactly when there are no
  more of them than the lock pool may hold, or just one (`LockRuns.ExclusionHoldsExactlyWhen`); with one more,
  `LockRuns.EvictionBreaksExclusion` gives a run that does it.

## Model

| member | source | states |
|---|---|---|
| Evidence.ExtractUndoesWrap | controlmesh_runtime/execution_runtime_events.py:16-52 | a payload wrapped into an event shell extracts back unchanged exactly when it satisfies the payload validators |
| Evidence.WrapUndoesExtract | controlmesh_runtime/execution_runtime_events.py:39-82 | re-wrapping what an event carries rebuilds its shell and extracts the same |
| Evidence.DecodesExactlyWhen | controlmesh_runtime/execution_payloads.py:39-165 | a wrapped payload comes back exactly when it names its episode, its type fits its kind, no text it needs is blank, and its counts and indexes are not negative |
| Evidence.ParsesExactlyWhenHeld | controlmesh_runtime/execution_runtime_events.py:39-82 | a dictionary's payload is the one valid payload it holds: every field the entry of its own key, missing optional entries missing fields, no undeclared key |
| Evidence.DecodedEventAgrees | controlmesh_runtime/execution_runtime_events.py:39-60 | kind, worker and failure class of a decodable event are those its payload calls for |
| Evidence.UndecodableBecause | controlmesh_runtime/execution_runtime_events.py:39-52 | which events are malformed, carry no execution evidence, or contradict their payload |
| Evidence.WrappedEntries | controlmesh_runtime/execution_runtime_events.py:16-36 | a wrapped payload is written whole, missing values as null, in a shell with the given id, time, stage and message |
| Engine.ExecutePlan | controlmesh_runtime/engine.py:226-271 | the loop returns the specified execution for every plan; the execution model's validator never raises |
| Engine.ValidatorAccepts | controlmesh_runtime/engine.py:118-148 | for plans of any length every execution satisfies the linear-trace validator |
| Engine.CompletesExactlyWhenNothingStops | controlmesh_runtime/engine.py:226-298 | COMPLETED exactly when the preflight passes and no step has a stop reason; a stop reports 0 completed steps |
| Engine.RunnableStepsIsTheFirstStop | controlmesh_runtime/engine.py:242-245 | the loop ends at the first step that has a stop reason, and at the end when none has |
| Engine.TraceOfStartedPlan | controlmesh_runtime/engine.py:226-271 | plan_created, started/completed pairs in index order up to the first stop, then exactly one result |
| Engine.TraceOfStoppedPlan | controlmesh_runtime/engine.py:278-298 | a preflight stop starts no step and records plan_approved exactly in front of a human gate |
| Engine.PlanIsBuiltExactlyWhen | controlmesh_runtime/engine.py:215-223 | a valid request yields a plan unless a blank human-gate reason would be written into it |
| Engine.BlankGateReasonRaises | controlmesh_runtime/engine.py:367-387 | a concrete request with a gate reason of one blank: no plan is built |
| Engine.BuiltPlanFollowsRequest | controlmesh_runtime/engine.py:308-405 | built plans carry the request's identity, worker and token, and one step |
| Engine.BuiltPlanStopsInPreflight | controlmesh_runtime/engine.py:278-298 | a built plan stops in the preflight exactly when its decision does not run |
| Engine.BuiltPlanCompletesExactlyWhen | controlmesh_runtime/engine.py:210-271 | a built plan completes exactly for a worker-targeted intent with an explicit worker and no human gate; otherwise no step starts |
| RunOutcomes.PlanAnswersRequest | controlmesh_runtime/engine.py:215-405 | for every valid request, the one step, the gate reasons and every other field of the plan it gets |
| RunOutcomes.RequestIsRefusedExactlyWhen | controlmesh_runtime/engine.py:77-104 | which requests are refused before a plan is built |
| RunOutcomes.ExecutionAnswers | controlmesh_runtime/engine.py:226-298 | how executing any plan ends: refused before its first step, all steps run, or stopped at the first step that may not run, each with status and reason |
| RunOutcomes.StepStopsExactlyWhen | controlmesh_runtime/engine.py:407-427 | a step runs exactly when it acts on a worker without arguments, gate, destruction or a forbidden target; else the first reason that holds |
| Orchestrator.Orchestrate | controlmesh_runtime/thin_orchestrator.py:85-214 | a run exists exactly when the plan can be built, whatever the worker controller does; its result, worker state, stop reason and final state are determined, and its events are its trace, event by event, each extracting back to the payload built for it |
| Orchestrator.BuildRun | controlmesh_runtime/thin_orchestrator.py:233-270 | one event per trace event, in order, or the first conversion error |
| Orchestrator.RunCompletesExactlyWhen | controlmesh_runtime/thin_orchestrator.py:85-214 | a run completes exactly when its one step may run and the controller answers it |
| Orchestrator.ConvertibleTraceGivesEvent | controlmesh_runtime/execution_payloads.py:167-270 | a trace event that fits its plan becomes an event that extracts back to the payload describing it: type, identity, worker, step index, action, target, failure class, counts and stop reason |
| Orchestrator.EventsFormEpisode | controlmesh_runtime/thin_orchestrator.py:233-270 | the events of an episode's trace form an episode: plan first, the one result last |
| Orchestrator.LoopTraceIsEpisode | controlmesh_runtime/thin_orchestrator.py:85-195 | however far the step loop gets, its trace is an episode's trace and every trace event converts |
| Orchestrator.StoppedTraceIsEpisode | controlmesh_runtime/thin_orchestrator.py:216-231 | the trace of a plan the engine stops is an episode's trace and every trace event converts |
| Orchestrator.RunTraceConverts | controlmesh_runtime/thin_orchestrator.py:85-270 | whatever the controller does, the trace of a run is an episode's trace and every event of it converts |
| RunOutcomes.RunOutcome | controlmesh_runtime/thin_orchestrator.py:85-214 | from intent and controller alone: retrying is decided by waiting for the worker, restarting by the restart, recreating by the creation; an answer completes the run with that worker, an error fails it at step 0 with its class; any other run stops with its status and reason |
| RunOutcomes.RunEvents | controlmesh_runtime/thin_orchestrator.py:233-315 | the events of every run, one by one: payload, shell and message |
| RunOutcomes.RefusedTraceEvents | controlmesh_runtime/execution_payloads.py:167-270 | which trace events have no payload, by the first check that refuses them |
| EvidenceLogs.LatestPlanExists | controlmesh_runtime/store.py:233-254 | a task with an opened episode has a latest one, and none is newer |
| EvidenceLogs.LatestIdentityIsUnique | controlmesh_runtime/store.py:233-254 | the chosen identity does not depend on the order of files or events |
| EvidenceLogs.LatestIdentityIsNewest | controlmesh_runtime/store.py:233-254 | the latest identity is that of a plan_created event of the task than which no other was created later, nor at the same time for a greater packet |
| EvidenceLogs.OpenedEpisodes | controlmesh_runtime/store.py:238-253 | an episode is opened by a decodable plan_created event of the task |
| EvidenceLogs.OwnerIsOfTheLastPlan | controlmesh_runtime/store.py:202-219 | the owner of a log is the worker of its last plan event |
| EvidenceLogs.AppendAnswers | controlmesh_runtime/store.py:142-173 | what offering any event answers, by the first condition that holds: a result equal to the first recorded one is answered with that event, a different one is a conflict |
| EvidenceLogs.WritebackAnswers | controlmesh_runtime/store.py:202-231 | why a result may not be written back: no plan, another or no owner, an undecodable log, another latest episode |
| EvidenceLogs.PromotableAnswers | controlmesh_runtime/store.py:175-200 | what asking for a promotable result answers, by the first condition that holds |
| EvidenceRuns.PacketLogInvariant | controlmesh_runtime/store.py:142-231 | in every reachable store a packet's events share one identity and there is at most one result, preceded by a plan whose worker reported it |
| EvidenceRuns.OfferKeepsGood | controlmesh_runtime/store.py:142-173 | every offered event, accepted or refused, keeps that invariant |
| EvidenceRuns.ReachableLogsAreCoherent | controlmesh_runtime/store.py:142-173 | in every reachable store each log decodes and has one identity, which is what the store's methods ask for |
| EvidenceRuns.LogsOnlyGrow | controlmesh_runtime/store.py:142-173 | over any continuation of a run every log is extended, never rewritten |
| EvidenceRuns.ResultBlocksResults | controlmesh_runtime/store.py:163-171 | offering a further result to a packet that has one changes no log |
| EvidenceRuns.ResultIsFinal | controlmesh_runtime/store.py:163-173 | once recorded, a packet's result is its only result in every later state |
| EvidenceRuns.FenceNeverFalls | controlmesh_runtime/store.py:233-254 | the (created_at, packet_id) key of a task's latest plan never decreases in any run |
| EvidenceRuns.AcceptedResultOwnsTheFence | controlmesh_runtime/store.py:202-231 | a new result is appended only for the episode that is the task's latest, when there is one |
| EvidenceRuns.ResultsNeverGoBackwards | controlmesh_runtime/store.py:142-254 | a later accepted result of the same task belongs to a strictly later episode |
| EvidenceRuns.LaterResultIsOfAnotherPacket | controlmesh_runtime/store.py:163-171 | two accepted results of one run belong to different packets |
| EvidenceRuns.RetryAnswers | controlmesh_runtime/store.py:163-171 | in every run, after a result was accepted: a result of its episode from the owner of the last plan, with no other episode the latest, is answered with exactly the accepted event if its payload is equal and is a conflict otherwise |
| EvidenceRuns.RetryAtOnceIsReplayed | controlmesh_runtime/store.py:163-171 | an accepted result offered again at once is answered with the event just recorded |
| Store.RuntimeStore.AppendExecutionEvidence | controlmesh_runtime/store.py:142-173 | the new store and the answer for any offered event: appended, the recorded result again, or the right error and no change |
| Store.RuntimeStore.ValidatePromotableExecution | controlmesh_runtime/store.py:175-200 | the episode's single completed result, or the first error of the source's checks |
| Store.RuntimeStore.ValidateResultWriteback | controlmesh_runtime/store.py:202-231 | plan, owner and fence checks, in the source's order |
| Store.RuntimeStore.LatestExecutionIdentity | controlmesh_runtime/store.py:233-254 | visiting files in any order gives the identity of the latest plan |
| Store.RuntimeStore.LoadExecutionEvidence | controlmesh_runtime/store.py:256-264 | the whole log, or a decode failure when any event of it no longer extracts |
| Store.RuntimeStore.LatestPromotionReceipt | controlmesh_runtime/store.py:310-328 | the latest receipt of an episode by recording time, ties to the smaller name |
| Store.EpisodesOpened | controlmesh_runtime/store.py:238-253 | exactly the plan_created events of a task in one log |
| Store.FirstMaximum | controlmesh_runtime/store.py:254 | a candidate that no other candidate exceeds |
| Store.OneResultExactlyWhen | controlmesh_runtime/store.py:178-193 | the collected results number one exactly when the log holds one result event |
| Store.LatestReceiptIsUnique | controlmesh_runtime/store.py:310-328 | the latest receipt of an episode is determined by the stored receipts |
| Store.AppendKeepsCoherent | controlmesh_runtime/store.py:142-173 | appending an event of the packet's identity keeps every log of one identity |
| Replay.Anomalies | controlmesh_runtime/execution_evidence_replay_query.py:165-179 | each anomaly is reported exactly when it holds; none exactly for a whole episode |
| Replay.CountMeaning | controlmesh_runtime/execution_evidence_replay_query.py:172-176 | the result count is 0 or above 1 exactly when no or two result events occur |
| Replay.ReachableReplay | controlmesh_runtime/execution_evidence_replay_query.py:128-153 | every packet of a reachable store decodes, has one identity and never two results |
| Replay.ViewShows | controlmesh_runtime/execution_evidence_replay_query.py:128-153 | a view shows the identity and worker of every event and the event types in order |
| Replay.ViewShowsTheLastResult | controlmesh_runtime/execution_evidence_replay_query.py:138-153 | a view shows the status of the last result, if there is one |
| Replay.ViewIsRefusedExactlyWhen | controlmesh_runtime/execution_evidence_replay_query.py:67-153 | when a packet has no view, by the first condition that holds |
| TaskReplay.QueryTaskEpisodes | controlmesh_runtime/execution_evidence_replay_query.py:85-125 | refused exactly for a bad limit or an unreplayable packet of any task; otherwise exactly the latest episodes up to the limit, latest first, with their counts |
| TaskReplay.TopIsUnique | controlmesh_runtime/execution_evidence_replay_query.py:104-117 | that answer is unique, so it does not depend on the order in which files are visited |
| Checkpoint.Run | controlmesh_runtime/runtime_execution_checkpoint.py:55-81 | a cycle is recorded whole and replays cleanly exactly when the packet is fresh, the plan can be built, a worker is named, every log decodes and no newer episode is open; what each refusal leaves behind; the saved worker states; the episode may then be promoted exactly when its result completed |
| Checkpoint.AppendAll | controlmesh_runtime/runtime_execution_checkpoint.py:66-72 | events are offered in order until the first refusal |
| Checkpoint.EpisodeIsAcceptedUpToItsResult | controlmesh_runtime/store.py:142-173 | all events of a fresh episode before its result are appended, whatever else the store holds |
| Checkpoint.ResultIsAcceptedExactlyWhen | controlmesh_runtime/store.py:202-231 | the answer to a fresh episode's result: owner, decode, fence |
| Checkpoint.FenceOfFreshEpisode | controlmesh_runtime/store.py:233-254 | a fresh episode is the task's latest exactly when no stored plan is newer |
| Checkpoint.AcceptedEpisodeReplays | controlmesh_runtime/execution_evidence_replay_query.py:128-179 | an accepted episode replays without anomaly and with the run's terminal status |
| Checkpoint.EpisodeIsPromotableExactlyWhen | controlmesh_runtime/store.py:175-200 | a fresh episode, once stored whole, may be promoted exactly when its result completed |
| Checkpoint.OffersOfEpisode | controlmesh_runtime/runtime_execution_checkpoint.py:66-72 | what offering a fresh episode until the first refusal leaves in the store |
| Checkpoint.FaithfulRunIsEpisode | controlmesh_runtime/thin_orchestrator.py:85-270 | every run's events form an episode of the request's identity that replays with the run's result status |
| Template.PlainTemplate | controlmesh_runtime/canonical_section_writer.py:135-170 | a backslash-free replacement template is inserted as it is |
| Template.LetterEscapes | controlmesh_runtime/canonical_section_writer.py:139-145 | what a backslash in front of any character but a digit or g means in a template |
| Template.DigitEscapes | controlmesh_runtime/canonical_section_writer.py:139-145 | when backslash and digits are an octal character, a group, or rejected |
| Template.NumberIsDecimal | controlmesh_runtime/canonical_section_writer.py:139-145 | a group number is read as a decimal number |
| Template.NamedGroups | controlmesh_runtime/canonical_section_writer.py:139-145 | which group a bracketed reference means, and when it is rejected |
| Sections.ReplacesVerbatimExactlyWhen | controlmesh_runtime/canonical_section_writer.py:135-145 | for a backslash-free body the new section is exactly heading, stripped body and blank line, all else unchanged, if and only if the body starts with no digit |
| Sections.DigitBodiesFail | controlmesh_runtime/canonical_section_writer.py:139-145 | bodies "42" and "9": the heading line is lost, the template is rejected |
| Sections.DigitBodyTemplate | controlmesh_runtime/canonical_section_writer.py:139-145 | every digit-first body is either rejected or loses the heading line and its first two characters |
| Sections.ReferencesInsertOldText | controlmesh_runtime/canonical_section_writer.py:135-145 | a body may insert the old body, or the old section with its heading line, in the place of its reference |
| WrittenText.SectionIsBetweenHeadings | controlmesh_runtime/canonical_section_writer.py:135-145 | a section begins at its first heading line and ends in front of the next line that starts with "# " |
| Documents.TextOfDocOf | controlmesh_runtime/canonical_section_writer.py:135-145 | splitting a text at its heading lines loses nothing |
| Documents.DocOfTextOf | controlmesh_runtime/canonical_section_writer.py:135-145 | a well-formed list of sections is read back from its text |
| Documents.FindInDoc | controlmesh_runtime/canonical_section_writer.py:135-145 | the regex scan finds the first section with the heading line and ends at the next heading |
| Documents.SpliceIsUpdate | controlmesh_runtime/canonical_section_writer.py:135-145 | splicing at the scanned span updates one section of the list |
| SectionLaws.ReplaceRewritesOneSection | controlmesh_runtime/canonical_section_writer.py:135-145 | a replacement changes the first section with the heading and no other character |
| SectionLaws.LastReplacementWins | controlmesh_runtime/canonical_section_writer.py:135-145 | of two replacements of one section the last one wins |
| SectionLaws.ReplacementsCommute | controlmesh_runtime/canonical_section_writer.py:135-145 | replacements of two different headings commute, in success and failure |
| SectionLaws.ReplaceIsIdempotentExactlyWhen | controlmesh_runtime/canonical_section_writer.py:135-145 | twice equals once if and only if the body opens no section |
| Notes.SubRewritesBlocksOnly | controlmesh_runtime/canonical_section_writer.py:148-170 | every block of the marker becomes the new block, all text between them stays |
| Notes.SubIsIdempotent | controlmesh_runtime/canonical_section_writer.py:148-170 | substituting the blocks twice equals substituting them once |
| Notes.AppendedBlock | controlmesh_runtime/canonical_section_writer.py:148-170 | without a block, one is appended behind the existing notes |
| WrittenText.BlockIsBetweenMarkers | controlmesh_runtime/canonical_section_writer.py:148-170 | a block runs from the first start marker, as it stands in the file, to the first end marker behind it |
| WrittenText.BlocksMakeUpTheText | controlmesh_runtime/canonical_section_writer.py:148-170 | the blocks and the texts around them, taken in turns, are the notes |
| WrittenText.BlockReads | controlmesh_runtime/canonical_section_writer.py:148-170 | the text of the block written for a marker |
| Notes.OpenMarkerIsSwallowed | controlmesh_runtime/canonical_section_writer.py:148-170 | after an upsert behind an open start marker, the next upsert swallows text |
| NotesLaws.UpsertRewritesOneSection | controlmesh_runtime/canonical_section_writer.py:148-170 | an upsert changes the first Notes section and nothing else |
| NotesLaws.UpsertLeavesOneBlock | controlmesh_runtime/canonical_section_writer.py:148-170 | with at most one block of the marker before there is exactly one after, with the new body; all text around the marker's blocks survives |
| NotesLaws.NotesAfterUpsert | controlmesh_runtime/canonical_section_writer.py:148-170 | the notes read back after an upsert are the upserted notes |
| NotesLaws.UpsertIsIdempotentExactlyWhen | controlmesh_runtime/canonical_section_writer.py:148-170 | upserting twice equals once if and only if the notes open with no heading line and hold no open marker |
| NotesLaws.HeadingNotesAreLost | controlmesh_runtime/canonical_section_writer.py:148-170 | notes that open with a heading line make the next upsert add another block |
| OtherNotes.UpsertKeepsOtherBlocks | controlmesh_runtime/canonical_section_writer.py:148-170 | an upsert keeps the blocks of every other marker whose tokens occur in no block of this one and whose blocks enclose none |
| OtherNotes.BlocksAreForeign | controlmesh_runtime/canonical_section_writer.py:148-170 | a different marker's tokens occur in a block only if they occur in its body |
| Writer.CanonicalSectionWriter.Apply | controlmesh_runtime/canonical_section_writer.py:86-107 | the updated files and their order, or the error and what was written before it |
| Writer.GroupByFile | controlmesh_runtime/canonical_section_writer.py:86-107 | the patches of each file in order, files in the order they are first named |
| Writer.PatchText | controlmesh_runtime/canonical_section_writer.py:86-121 | one file's patches applied in order, up to the first error |
| Writer.WriteMeaning | controlmesh_runtime/canonical_section_writer.py:86-107 | a write succeeds exactly when every named file takes its patches, and then writes exactly those |
| Writer.OneByOneMeaning | controlmesh_runtime/canonical_section_writer.py:86-121 | the same for patching one patch at a time |
| Writer.GroupingChangesNothing | controlmesh_runtime/canonical_section_writer.py:86-121 | grouping by file gives the same files as one patch at a time, and succeeds exactly when that does |
| Writer.FailedWriteLeavesFirstFilePatched | controlmesh_runtime/canonical_section_writer.py:86-107 | exactly what a failed write leaves on disk, whichever file is named first |
| WrittenText.WrittenUnderItsHeading | controlmesh_runtime/canonical_section_writer.py:86-145 | after a write of plain texts every replaced section holds its stripped text and a blank line under its own heading line, spelled out |
| WrittenText.WriteFailsWith | controlmesh_runtime/canonical_section_writer.py:86-122 | the error of a failed write is that of the first file named, or else that of the other one |
| WrittenText.ReplacementFailsWith | controlmesh_runtime/canonical_section_writer.py:135-145 | a replacement is refused for its template before its heading line is missed |
| PromotionBridge.Bridge.Evaluate | controlmesh_runtime/promotion_bridge.py:231-254 | the gate's first error, or the write intent |
| PromotionBridge.Bridge.CheckFreshness | controlmesh_runtime/promotion_bridge.py:308-318 | the freshness check's first error |
| PromotionBridge.Bridge.PromoteSummary | controlmesh_runtime/promotion_bridge.py:256-290 | the whole new state of records and files, and the error |
| PromotionBridge.Controller.Reconcile | controlmesh_runtime/promotion_controller.py:41-121 | the whole new state and answer of a reconcile |
| PromotionRuns.PromotableExactlyWhenCertified | controlmesh_runtime/store.py:175-200 | promotable exactly when the log holds one result, completed, owned, of this identity, and the episode is the latest opened one, if any is opened |
| PromotionRuns.FreshExactlyWhenSafe | controlmesh_runtime/promotion_bridge.py:308-318 | fresh exactly when the episode is certified and the stored review and both summaries are the intent's |
| PromotionRuns.CanonicalChangesAreSafe | controlmesh_runtime/promotion_bridge.py:231-318 | canonical files and receipts change only by an intent that is safe in the very records its check reads |
| PromotionRuns.RefusedPromotionChangesNothing | controlmesh_runtime/promotion_bridge.py:256-290 | a gate or freshness rejection changes nothing; a failed write changes at most one line's first file and no record |
| PromotionRuns.StepKeepsGood | controlmesh_runtime/promotion_bridge.py:231-318 | every step of evidence, review, summary, promotion or reconcile keeps every receipt earned |
| PromotionRuns.EveryReceiptIsEarned | controlmesh_runtime/promotion_bridge.py:231-318 | in every reachable state every receipt names an episode whose one result completed |
| PromotionRuns.ReachableStoreIsValid | controlmesh_runtime/promotion_bridge.py:231-318 | in every reachable state the store meets what its methods ask for |
| PromotionRuns.ReconcileIsIdempotentExactlyWhen | controlmesh_runtime/promotion_controller.py:41-121 | a reconcile after one that wrote answers with its receipt and changes nothing, if and only if no receipt of the episode stored before the first one is later than its clock |
| PromotionRuns.RepeatedReconcilesChangeNothing | controlmesh_runtime/promotion_controller.py:41-121 | with clocks moving forward any number of further reconciles change nothing and return the first receipt |
| PromotionText.PatchesRewriteTheirSections | controlmesh_runtime/canonical_section_writer.py:118-121 | patches of different sections change exactly those sections |
| PromotionText.PatchesApplyExactlyWhen | controlmesh_runtime/canonical_section_writer.py:86-121 | patches of different sections apply exactly when the text holds all of those sections |
| PromotionText.PromotionSucceedsExactlyWhen | controlmesh_runtime/promotion_bridge.py:231-318 | a promotion of plain texts succeeds if and only if input and intent are valid, everything named is current and both files hold the sections |
| PromotionText.ReconcileWritesExactlyWhen | controlmesh_runtime/promotion_controller.py:41-121 | with both summaries stored, a reconcile of plain texts writes if and only if the latest receipt is not already for them, the input is valid, the episode is certified and both files hold the sections |
| PromotionText.PromotionWritesTwoFiles | controlmesh_runtime/promotion_bridge.py:429-500 | a promotion writes the two canonical files of its line and no other |
| PromotionText.PromotionWritesOneToken | controlmesh_runtime/promotion_bridge.py:429-500 | under their heading lines, spelled out, status, state and checkpoint suffix carry one token and the given texts are in place; no other section changed |
| ReconcileLaws.ReconcileWritesItsTexts | controlmesh_runtime/promotion_controller.py:41-121 | over the request alone: each of its texts stands under its own heading line, the token of its outcome under three of them, and no other file changed |
| ReconcileLaws.ReconcileWritesItsNotes | controlmesh_runtime/promotion_bridge.py:429-500 | the notes made of the request line by line: they take the place of every promotion block, or are appended, and the text around stays |
| ReconcileLaws.ReconcileRecords | controlmesh_runtime/promotion_controller.py:72-121 | the review, receipt and control event a writing reconcile stores, field by field, and that it touches no other record |
| ReconcileLaws.ReconcileAnswers | controlmesh_runtime/promotion_controller.py:41-121 | what a reconcile answers, by the first condition that holds, and what it leaves unchanged |
| ReconcileLaws.RequestIsWrittenExactlyWhen | controlmesh_runtime/promotion_controller.py:41-121 | a reconcile of plain texts writes if and only if request and stored summaries fit, the newest receipt is not for them, the episode is certified and both files hold their sections |
| ReconcileLaws.PromotionAnswers | controlmesh_runtime/promotion_bridge.py:231-318 | why a promotion does not reach the files, by the first check that refuses it |
| ReconcileLaws.PromotionRecordsItsReceipt | controlmesh_runtime/promotion_bridge.py:256-290 | the receipt of a promotion, field by field, and that it records nothing else |
| ReconcileLaws.StatusTokens | controlmesh_runtime/promotion_bridge.py:368-378 | the status token is completed for the two passing outcomes, in_progress for a return, and the outcome itself otherwise |
| PromotionExamples.TameNotes | controlmesh_runtime/promotion_bridge.py:429-500 | ids and reasons without heading, marker and template characters make notes that go in as they are |
| PromotionExamples.SomeRunPromotes | controlmesh_runtime/promotion_controller.py:41-121 | a concrete run from an empty store whose reconcile writes |
| PromotionExamples.LaterReceiptHidesTheNewOne | controlmesh_runtime/promotion_controller.py:41-121 | a concrete state in which a second reconcile does not find the first one's receipt |
| Coalescer.FindSentenceBreak | controlmesh/cli/coalescer.py:81-88 | the left-to-right regex scan finds the last sentence break |
| Coalescer.StreamCoalescer.Feed | controlmesh/cli/coalescer.py:42-69 | buffer, flags and handed text up to the await |
| Coalescer.StreamCoalescer.Flush | controlmesh/cli/coalescer.py:71-75 | buffer, flags and handed text up to the await |
| Coalescer.StreamCoalescer.DoFlushUpTo | controlmesh/cli/coalescer.py:90-101 | hands over a prefix unless a callback is in flight |
| Coalescer.StreamCoalescer.DoFlush | controlmesh/cli/coalescer.py:103-114 | hands over the whole buffer unless a callback is in flight |
| Coalescer.FeedCutsAtTheLastBreak | controlmesh/cli/coalescer.py:42-69 | when a feed hands text over, that it ends in the last enabled break, and that the kept text has no further break of that kind |
| Coalescer.FeedBoundsTheBuffer | controlmesh/cli/coalescer.py:42-69 | after a feed that finds no flush in flight the buffer is below max_chars or empty |
| Coalescer.FeedAnswers | controlmesh/cli/coalescer.py:42-69 | when any feed hands text over, where it cuts, what it keeps, and when it arms the timer |
| Coalescer.FlushAnswers | controlmesh/cli/coalescer.py:71-75 | a flush hands over the whole buffer exactly when it is forced or long enough and no callback is in flight |
| Coalescer.StepKeepsGood | controlmesh/cli/coalescer.py:42-128 | each event keeps conservation and at most one callback in flight |
| Coalescer.EveryRunConservesText | controlmesh/cli/coalescer.py:42-128 | over every interleaving, text handed over followed by the buffer is all text fed |
| Coalescer.ForcedFlushDeliversAllExactlyWhen | controlmesh/cli/coalescer.py:71-75 | a forced flush delivers everything if and only if no callback is in flight or nothing is buffered |
| StderrSplitter.ReadErrors | controlmesh/cli/executor.py:478-497 | the lines given to the classifier, and the abort or the bytes returned |
| StderrSplitter.ReadOneChunk | controlmesh/cli/executor.py:478-497 | what reading one chunk behind any pending bytes offers and keeps, which fixes every reading |
| StderrSplitter.LinesMakeUpTheBytes | controlmesh/cli/executor.py:484-489 | the ended lines and the rest make up the bytes and hold no newline |
| StderrSplitter.JudgedUpToTheFirstRecognised | controlmesh/cli/executor.py:484-489 | the classifier is given every line up to the first it recognises and none behind it |
| StderrSplitter.OfferedIsSettled | controlmesh/cli/executor.py:478-497 | of a settled stream the reader offers every ended line and a rest that fits, however it is read |
| StderrSplitter.ChunkingDoesNotMatter | controlmesh/cli/executor.py:478-497 | two ways to read one settled stream classify the same lines and give the same result |
| StderrSplitter.CutDoesNotMatterExactlyWhen | controlmesh/cli/executor.py:478-497 | all readings of a stream in chunks of 1 to 4096 bytes offer the same lines if and only if no ended line exceeds 65536 bytes and the rest does not exceed 65537 |
| StderrSplitter.TwoCuts | controlmesh/cli/executor.py:490-492 | for every other stream, two readings that offer different lines |
| StderrSplitter.AbortIsTheFirstRecognisedLine | controlmesh/cli/executor.py:483-497 | all bytes come back exactly when no line is recognised; otherwise the first recognised line's response |
| StderrSplitter.LongLineDependsOnTheCut | controlmesh/cli/executor.py:490-492 | a line of 65537 bytes is offered as an empty line when read byte by byte, and whole when its last byte comes with its newline |
| ThinkingFilter.CodexThinkingFilter.Process | controlmesh/cli/codex_events.py:293-309 | events put out and buffer kept for one event |
| ThinkingFilter.CodexThinkingFilter.Flush | controlmesh/cli/codex_events.py:311-315 | the buffered events, leaving the buffer empty |
| ThinkingFilter.NonTextPassesThrough | controlmesh/cli/codex_events.py:281-315 | every event that is no text comes out once and in order |
| ThinkingFilter.TextIsDroppedExactlyBeforeTools | controlmesh/cli/codex_events.py:281-315 | text keeps its order, and is dropped exactly when the next event that is neither text nor thinking is a tool use |
| ThinkingFilter.FilterIsRendering | controlmesh/cli/codex_events.py:281-315 | the stateful filter equals a segment-by-segment reading of the stream |
| ConfigMerge.DeepMergeConfig | controlmesh/config.py:686-711 | the merged map whatever the key order, and changed exactly when it differs from the user's |
| ConfigMerge.MergeOpencodeConfig | controlmesh/cli/auth.py:408-418 | the overlaid map whatever the key order |
| ConfigMerge.MergesAreMirrored | controlmesh/config.py:686-711 | filling defaults equals the overlay merge with its arguments swapped, at every depth |
| ConfigMerge.MergeIsIdempotent | controlmesh/config.py:686-711 | a second merge of the same defaults changes nothing |
| ConfigMerge.MergedAtPath | controlmesh/config.py:686-711 | what the merged configuration holds at any path: the user's value, else the default unless the user's value stops the path |
| ModelCache.CacheFile.LoadOrRefresh | controlmesh/cli/model_cache.py:65-108 | new disk content and returned cache for every combination of disk, clock, discovery and save |
| ModelCache.CacheFile.RefreshAndSave | controlmesh/cli/model_cache.py:110-170 | new disk content and returned cache of a refresh |
| ModelCache.LoadChoosesExactly | controlmesh/cli/model_cache.py:65-170 | when a load returns the stored, the discovered or the fallback catalogue, for caches younger than 24 hours and others, and what it leaves on disk |
| ModelCache.DiskComesFromDiscovery | controlmesh/cli/model_cache.py:65-182 | over any run the disk holds what it held or what a load discovered and saved; a non-empty catalogue never becomes empty |
| ModelCache.EveryLoadHasModels | controlmesh/cli/model_cache.py:151-159 | a provider with a fallback always gets a non-empty catalogue |
| ModelCache.StockOutlivesDiscovery | controlmesh/cli/model_cache.py:140-149 | without discovery a stocked disk is returned and kept by every load |
| CodexCatalog.MergeWithFallbackCatalog | controlmesh/cli/codex_cache.py:68-117 | the merged catalogue, or the input where the merge does not apply |
| CodexCatalog.Combine | controlmesh/cli/codex_cache.py:93-106 | the two loops: built-in models as last discovered, then first occurrences of the others |
| CodexCatalog.MergedIds | controlmesh/cli/codex_cache.py:68-117 | ids are distinct, equal to built-in and discovered ones together, and begin with the built-in ones |
| CodexCatalog.MergedCatalog | controlmesh/cli/codex_cache.py:68-117 | where it applies, exactly one default, the first model |
| CodexCatalog.MergeIsIdempotent | controlmesh/cli/codex_cache.py:68-117 | merging a merged catalogue changes nothing |
| CodexCatalog.MergedModels | controlmesh/cli/codex_cache.py:68-117 | the merged catalogue model by model: only the default flag of a model changes |
| CodexCatalog.PreferredIsLast | controlmesh/cli/codex_cache.py:93-99 | a built-in model is replaced by the last discovered one of its id |
| CodexCatalog.ExtrasAreFirsts | controlmesh/cli/codex_cache.py:101-106 | the other models are the first ones of their ids, in the order discovered |
| CodexCatalog.AppliesExactlyWhen | controlmesh/cli/codex_cache.py:68-92 | the merge applies exactly when a discovered model has a built-in id or is of the gpt-5 family |
| LockPools.LockPool.Get | controlmesh/bus/lock_pool.py:26-36 | the key's lock and the new pool, keys and locks staying distinct |
| LockPools.LockPool.EvictIfNeeded | controlmesh/bus/lock_pool.py:56-61 | a full pool loses its oldest idle half, at least one if any is idle |
| LockPools.GotIsValid | controlmesh/bus/lock_pool.py:26-61 | eviction never removes a held lock |
| LockPools.GotAnswers | controlmesh/bus/lock_pool.py:26-61 | a pooled key gets its lock and changes nothing; any other gets a new lock behind the others, and a full pool first loses exactly its oldest idle locks, half of the idle ones but at least one |
| LockPools.GotIsBounded | controlmesh/bus/lock_pool.py:56-61 | one request grows the pool beyond its maximum only when every lock is held |
| LockPools.PoolSizeIsBounded | controlmesh/bus/lock_pool.py:26-61 | over any run the size is at most max(max_locks, peak held + 1) |
| LockRuns.RunIsGood | controlmesh/bus/bus.py:122-127 | in every run a lock is held by one envelope at a time |
| LockRuns.QuietRunsExclude | controlmesh/bus/bus.py:122-127 | while no request evicts a freed lock that is still awaited, two envelopes of one session are never processed together |
| LockRuns.FewKeysExclude | controlmesh/bus/bus.py:122-127 | with at most max_locks distinct keys requested each key keeps one lock and exclusion holds |
| LockRuns.OneKeyExcludes | controlmesh/bus/bus.py:122-127 | requests for a single session exclude each other whatever the maximum |
| LockRuns.EvictionBreaksExclusion | controlmesh/bus/lock_pool.py:56-61 | for any larger set of sessions, a run over them that processes two envelopes of one session together |
| LockRuns.ExclusionHoldsExactlyWhen | controlmesh/bus/bus.py:122-127 | over a set of sessions exclusion holds in every run if and only if there are at most max_locks of them, or one |
| CasePackLint.BuildAnchorIndex | controlmesh/case_pack/lint.py:65-80 | all anchors, and an error for each repetition |
| CasePackLint.LintEvidenceRefs | controlmesh/case_pack/lint.py:83-94 | one error for each unsupported or unknown reference, in order |
| CasePackLint.LintToolEvents | controlmesh/case_pack/lint.py:97-108 | unknown linked events and missing reasons, in order |
| CasePackLint.LintTimeline | controlmesh/case_pack/lint.py:111-130 | duplicate ids, broken order and unknown references, in order |
| CasePackLint.LintTurningPoints | controlmesh/case_pack/lint.py:143-162 | missing and unknown references, in order |
| CasePackLint.LintLifted | controlmesh/case_pack/lint.py:165-192 | missing and unknown references of one lifted collection, in order |
| CasePackLint.LintCasePack | controlmesh/case_pack/lint.py:32-46 | all errors of all parts, in order |
| CasePackLaws.AnchorIsInjective | controlmesh/case_pack/lint.py:65-80 | an anchor text tells its collection and its id |
| CasePackLaws.IndexedExactlyWhenResolved | controlmesh/case_pack/lint.py:83-94 | a reference is in the index exactly when it names an item of the pack |
| CasePackLaws.NoTimelineErrors | controlmesh/case_pack/lint.py:111-140 | no timeline error exactly for unique ids, continuous orders and known references |
| CasePackLaws.NoErrorsExactlyWhenWellFormed | controlmesh/case_pack/lint.py:32-192 | the linter lists no error if and only if the pack is well formed |
| CasePackReports.ReportsExactly | controlmesh/case_pack/lint.py:32-192 | an error is listed if and only if the pack has that defect, every defect read off the items of the pack |
| CasePackReports.ReportsComeInOrder | controlmesh/case_pack/lint.py:32-46 | the errors come check by check, in the order the checks are made |

## Left out

- File and JSON plumbing: a log is a sequence, a saved record a map entry; packet ids are taken to be usable as file names, and saves other than the model cache's do not fail.
- Enum spellings and pydantic coercions: payload leaves are typed, so an event whose payload misses a field is modelled, one whose field has a foreign JSON type is not.
- Policy snapshots, retry counters, result notes and payload timestamps, which no modelled decision reads.
- The recovery policy and the summary runtime; plans, results and summaries hold only the fields the modelled code uses. `recovery` and `summary` are not part of this model.
- Generated ids and clock readings: parameters of the methods, with plan ids taken to be non-blank.
- The read surface a finished cycle returns besides its events, and task-packet and plain event files of the store.
- The older entry point `promote` of the promotion bridge: it patches the same six sections, under another notes marker, from an in-memory result, and neither reads the store nor records a receipt.
- Stored reviews or summaries that fail their own validation when loaded.
- Templates with backslashes in bodies: `Template.Parse` covers them and `Sections.ReferencesInsertOldText` says what a reference to the old text does; the other section and notes laws are stated for backslash-free bodies, and markers without `<`, backslash and line breaks.
- Coalescer, lock pool, bus: event-loop scheduling beyond the await points; cancelled lock waiters; which of several waiters a freed lock goes to (any may get it).
- LockPools.LockPool.Get: locks are numbers and the set of held ones is a parameter, where the source asks each lock object.
- TaskReplay.QueryTaskEpisodes: does not fix which of several unreplayable packets is reported, because the visiting order is left open.
- StderrSplitter.ReadErrors: the classifier gets a line's bytes, decoding being part of it.
- OtherNotes.UpsertKeepsOtherBlocks: is stated for other markers without `>`, so that a token cannot run out of a block.
- ConfigMerge.DeepMergeConfig: does not capture the order of keys in the result; values that are no objects are opaque.
- ModelCache.CacheFile.LoadOrRefresh: a cache file is missing, unreadable or readable for a whole call; a file that becomes unreadable between two reads of one call is not modelled.
- CasePackLint.LintCasePack: errors are values instead of message texts.
- Subprocesses, timeouts, Docker, transports, HTTP and WebSocket servers, cron and team packages, logging and message texts.
