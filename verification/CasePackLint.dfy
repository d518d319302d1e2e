/** The linter of case packs: the errors it lists, and the packs it lists none for. */
module CasePackLint {
  import opened Sequences
  import opened Text
  import opened Wrappers

  // ----- Case packs, as far as the linter reads them -----

  datatype Source = Source(id: string, evidenceRefs: seq<string>)

  datatype ToolEvent = ToolEvent(
    id: string, evidenceRefs: seq<string>, kept: bool, linkedEventIds: seq<string>, whyItMatters: Option<string>)

  datatype Kind = OfEvent | OfToolEvent

  datatype TimelineEntry = TimelineEntry(
    id: string, evidenceRefs: seq<string>, order: int, kind: Kind, refId: string)

  datatype TurningPoint = TurningPoint(
    id: string, evidenceRefs: seq<string>, eventIds: seq<string>, toolEventIds: seq<string>)

  datatype LiftedItem = LiftedItem(
    id: string, evidenceRefs: seq<string>, timelineRefs: seq<string>, turningPointRefs: seq<string>)

  datatype CasePack = CasePack(
    messages: seq<Source>, links: seq<string>, artifacts: seq<Source>, events: seq<Source>,
    toolEvents: seq<ToolEvent>, timeline: seq<TimelineEntry>, turningPoints: seq<TurningPoint>,
    questions: seq<LiftedItem>, misconceptions: seq<LiftedItem>, resolutions: seq<LiftedItem>)

  datatype Collection = Messages | Artifacts | Events | ToolEvents | Timeline | TurningPoints | Questions
                      | Misconceptions | Resolutions

  /** The linter's messages, by what they report. */
  datatype LintError =
    | DuplicateAnchor(anchor: string)
    | UnsupportedPrefix(where: Collection, id: string, ref: string)
    | UnknownEvidence(where: Collection, id: string, ref: string)
    | UnknownEvent(where: Collection, id: string, ref: string)
    | UnknownToolEvent(where: Collection, id: string, ref: string)
    | WhyMissing(id: string)
    | DuplicateTimelineId(id: string)
    | OrderBroken(id: string, expected: int, got: int)
    | TurningPointWithoutRefs(id: string)
    | LiftedWithoutRefs(where: Collection, id: string)
    | UnknownTimelineRef(where: Collection, id: string, ref: string)
    | UnknownTurningPoint(where: Collection, id: string, ref: string)

  // ----- Anchors -----

  datatype Prefix = Msg | Event | Tool | Artifact | Link

  const PREFIXES := [Msg, Event, Tool, Artifact, Link]

  function PrefixText(p: Prefix): string {
    match p
    case Msg => "msg"
    case Event => "event"
    case Tool => "tool"
    case Artifact => "artifact"
    case Link => "link"
  }

  function Anchor(p: Prefix, id: string): string {
    PrefixText(p) + ":" + id
  }

  function AnchoredIds(c: CasePack, p: Prefix): seq<string> {
    match p
    case Msg => seq(|c.messages|, i requires 0 <= i < |c.messages| => c.messages[i].id)
    case Event => seq(|c.events|, i requires 0 <= i < |c.events| => c.events[i].id)
    case Tool => seq(|c.toolEvents|, i requires 0 <= i < |c.toolEvents| => c.toolEvents[i].id)
    case Artifact => seq(|c.artifacts|, i requires 0 <= i < |c.artifacts| => c.artifacts[i].id)
    case Link => c.links
  }

  function Anchors(p: Prefix, ids: seq<string>): (r: seq<string>)
    ensures |r| == |ids| && forall i :: 0 <= i < |ids| ==> r[i] == Anchor(p, ids[i])
  {
    seq(|ids|, i requires 0 <= i < |ids| => Anchor(p, ids[i]))
  }

  /** All anchors, in the order the index is filled. */
  function AllAnchors(c: CasePack, ps: seq<Prefix>): seq<string> {
    if ps == [] then [] else Anchors(ps[0], AnchoredIds(c, ps[0])) + AllAnchors(c, ps[1..])
  }

  function DuplicateErrors(anchors: seq<string>, index: set<string>): seq<LintError>
    decreases |anchors|
  {
    if anchors == [] then []
    else (if anchors[0] in index then [DuplicateAnchor(anchors[0])] else [])
         + DuplicateErrors(anchors[1..], index + {anchors[0]})
  }

  function Members(s: seq<string>): set<string> {
    set x | x in s
  }

  method BuildAnchorIndex(c: CasePack) returns (index: set<string>, errors: seq<LintError>)
    ensures index == Members(AllAnchors(c, PREFIXES)) && errors == DuplicateErrors(AllAnchors(c, PREFIXES), {})
  {
    index, errors := {}, [];
    ghost var all := AllAnchors(c, PREFIXES);
    var i := 0;
    assert PREFIXES[0..] == PREFIXES;
    while i < |PREFIXES|
      invariant 0 <= i <= |PREFIXES|
      invariant errors + DuplicateErrors(AllAnchors(c, PREFIXES[i..]), index) == DuplicateErrors(all, {})
      invariant index + Members(AllAnchors(c, PREFIXES[i..])) == Members(all)
    {
      assert PREFIXES[i..][0] == PREFIXES[i] && PREFIXES[i..][1..] == PREFIXES[i + 1..];
      var anchors := Anchors(PREFIXES[i], AnchoredIds(c, PREFIXES[i]));
      ghost var later := AllAnchors(c, PREFIXES[i + 1..]);
      index, errors := AddAnchors(anchors, later, index, errors);
      i := i + 1;
    }
    assert PREFIXES[i..] == [];
  }

  /** Adds the anchors of one collection; `later` are those of the collections to come. */
  method AddAnchors(anchors: seq<string>, ghost later: seq<string>, index0: set<string>, errors0: seq<LintError>)
    returns (index: set<string>, errors: seq<LintError>)
    ensures errors + DuplicateErrors(later, index) == errors0 + DuplicateErrors(anchors + later, index0)
    ensures index + Members(later) == index0 + Members(anchors + later)
  {
    index, errors := index0, errors0;
    assert anchors[0..] == anchors;
    for k := 0 to |anchors|
      invariant errors + DuplicateErrors(anchors[k..] + later, index)
             == errors0 + DuplicateErrors(anchors + later, index0)
      invariant index + Members(anchors[k..] + later) == index0 + Members(anchors + later)
    {
      var anchor := anchors[k];
      ghost var rest := anchors[k + 1..] + later;
      assert anchors[k..] + later == [anchor] + rest;
      assert ([anchor] + rest)[1..] == rest;
      if anchor in index {
        errors := errors + [DuplicateAnchor(anchor)];
      }
      index := index + {anchor};
    }
    assert anchors[|anchors|..] + later == later;
  }

  // ----- Evidence references -----

  datatype Backed = Backed(where: Collection, id: string, refs: seq<string>)

  function SourcesBacked(where: Collection, s: seq<Source>): seq<Backed> {
    seq(|s|, i requires 0 <= i < |s| => Backed(where, s[i].id, s[i].evidenceRefs))
  }

  function LiftedBacked(where: Collection, s: seq<LiftedItem>): seq<Backed> {
    seq(|s|, i requires 0 <= i < |s| => Backed(where, s[i].id, s[i].evidenceRefs))
  }

  /** Every item that cites evidence. */
  function EvidenceBacked(c: CasePack): seq<Backed> {
    SourcesBacked(Messages, c.messages) + SourcesBacked(Artifacts, c.artifacts) + SourcesBacked(Events, c.events)
    + seq(|c.toolEvents|, i requires 0 <= i < |c.toolEvents| =>
            Backed(ToolEvents, c.toolEvents[i].id, c.toolEvents[i].evidenceRefs))
    + seq(|c.timeline|, i requires 0 <= i < |c.timeline| =>
            Backed(Timeline, c.timeline[i].id, c.timeline[i].evidenceRefs))
    + seq(|c.turningPoints|, i requires 0 <= i < |c.turningPoints| =>
            Backed(TurningPoints, c.turningPoints[i].id, c.turningPoints[i].evidenceRefs))
    + LiftedBacked(Questions, c.questions) + LiftedBacked(Misconceptions, c.misconceptions)
    + LiftedBacked(Resolutions, c.resolutions)
  }

  function BeforeColon(s: string): string {
    if s == "" || s[0] == ':' then "" else [s[0]] + BeforeColon(s[1..])
  }

  predicate Supported(prefix: string) {
    prefix == "msg" || prefix == "event" || prefix == "tool" || prefix == "artifact" || prefix == "link"
  }

  function RefErrors(b: Backed, ref: string, index: set<string>): seq<LintError> {
    if !Supported(BeforeColon(ref)) then [UnsupportedPrefix(b.where, b.id, ref)]
    else if ref !in index then [UnknownEvidence(b.where, b.id, ref)]
    else []
  }

  function EvidenceErrors(b: Backed, refs: seq<string>, index: set<string>): seq<LintError> {
    if refs == [] then [] else RefErrors(b, refs[0], index) + EvidenceErrors(b, refs[1..], index)
  }

  method LintEvidenceRefs(b: Backed, index: set<string>) returns (errors: seq<LintError>)
    ensures errors == EvidenceErrors(b, b.refs, index)
  {
    hide BeforeColon, Supported, EvidenceErrors;
    errors := [];
    assert b.refs[0..] == b.refs;
    for i := 0 to |b.refs|
      invariant errors + EvidenceErrors(b, b.refs[i..], index) == EvidenceErrors(b, b.refs, index)
    {
      EvidenceStep(b, b.refs, i, index);
      Regroup3(errors, RefErrors(b, b.refs[i], index), EvidenceErrors(b, b.refs[i + 1..], index));
      var ref := b.refs[i];
      if !Supported(BeforeColon(ref)) {
        errors := errors + [UnsupportedPrefix(b.where, b.id, ref)];
        continue;
      }
      if ref !in index {
        errors := errors + [UnknownEvidence(b.where, b.id, ref)];
      }
    }
    NoRefs(b, b.refs[|b.refs|..], index);
  }

  lemma {:induction false} EvidenceStep(b: Backed, refs: seq<string>, i: nat, index: set<string>)
    requires i < |refs|
    ensures EvidenceErrors(b, refs[i..], index)
         == RefErrors(b, refs[i], index) + EvidenceErrors(b, refs[i + 1..], index)
  {
    assert refs[i..][1..] == refs[i + 1..];
  }

  lemma {:induction false} NoRefs(b: Backed, refs: seq<string>, index: set<string>)
    requires refs == []
    ensures EvidenceErrors(b, refs, index) == []
  {
  }

  // ----- References between items -----

  /** One error for each reference that is not known. */
  function Unknown(refs: seq<string>, known: set<string>, error: string -> LintError): seq<LintError> {
    if refs == [] then []
    else (if refs[0] in known then [] else [error(refs[0])]) + Unknown(refs[1..], known, error)
  }

  method ListUnknown(refs: seq<string>, known: set<string>, error: string -> LintError)
    returns (errors: seq<LintError>)
    ensures errors == Unknown(refs, known, error)
  {
    hide Unknown;
    errors := [];
    assert refs[0..] == refs;
    for i := 0 to |refs|
      invariant errors + Unknown(refs[i..], known, error) == Unknown(refs, known, error)
    {
      UnknownStep(refs, i, known, error);
      if refs[i] !in known {
        Regroup3(errors, [error(refs[i])], Unknown(refs[i + 1..], known, error));
        errors := errors + [error(refs[i])];
      }
    }
    NothingUnknown(refs[|refs|..], known, error);
  }

  lemma {:induction false} UnknownStep(refs: seq<string>, i: nat, known: set<string>, error: string -> LintError)
    requires i < |refs|
    ensures Unknown(refs[i..], known, error) ==
            if refs[i] in known then Unknown(refs[i + 1..], known, error)
            else [error(refs[i])] + Unknown(refs[i + 1..], known, error)
  {
    assert refs[i..][1..] == refs[i + 1..];
  }

  lemma {:induction false} NothingUnknown(refs: seq<string>, known: set<string>, error: string -> LintError)
    requires refs == []
    ensures Unknown(refs, known, error) == []
  {
  }

  function EventIds(c: CasePack): set<string> {
    Members(AnchoredIds(c, Event))
  }

  function ToolIds(c: CasePack): set<string> {
    Members(AnchoredIds(c, Tool))
  }

  function AsEvent(where: Collection, id: string): string -> LintError {
    ref => UnknownEvent(where, id, ref)
  }

  function AsToolEvent(where: Collection, id: string): string -> LintError {
    ref => UnknownToolEvent(where, id, ref)
  }

  function AsTimelineRef(where: Collection, id: string): string -> LintError {
    ref => UnknownTimelineRef(where, id, ref)
  }

  function AsTurningPoint(where: Collection, id: string): string -> LintError {
    ref => UnknownTurningPoint(where, id, ref)
  }

  predicate WhyGiven(t: ToolEvent) {
    t.whyItMatters.Some? && Strip(t.whyItMatters.value) != ""
  }

  function ToolEventErrors(t: ToolEvent, eventIds: set<string>): seq<LintError> {
    Unknown(t.linkedEventIds, eventIds, AsEvent(ToolEvents, t.id))
    + if t.kept && !WhyGiven(t) then [WhyMissing(t.id)] else []
  }

  function ToolErrors(ts: seq<ToolEvent>, eventIds: set<string>): seq<LintError> {
    if ts == [] then [] else ToolEventErrors(ts[0], eventIds) + ToolErrors(ts[1..], eventIds)
  }

  method LintToolEvents(c: CasePack) returns (errors: seq<LintError>)
    ensures errors == ToolErrors(c.toolEvents, EventIds(c))
  {
    hide Unknown, WhyGiven, EventIds, AsEvent;
    errors := [];
    var eventIds := EventIds(c);
    for i := 0 to |c.toolEvents|
      invariant errors + ToolErrors(c.toolEvents[i..], eventIds) == ToolErrors(c.toolEvents, eventIds)
    {
      assert c.toolEvents[i..][1..] == c.toolEvents[i + 1..];
      var item := c.toolEvents[i];
      var unknown := ListUnknown(item.linkedEventIds, eventIds, AsEvent(ToolEvents, item.id));
      ghost var before := errors;
      errors := errors + unknown;
      if item.kept && !WhyGiven(item) {
        errors := errors + [WhyMissing(item.id)];
      }
      assert errors == before + ToolEventErrors(item, eventIds);
      Regroup3(before, ToolEventErrors(item, eventIds), ToolErrors(c.toolEvents[i + 1..], eventIds));
    }
  }

  // ----- The timeline -----

  function TimelineRefErrors(e: TimelineEntry, eventIds: set<string>, toolIds: set<string>): seq<LintError> {
    if e.kind.OfEvent? && e.refId !in eventIds then [UnknownEvent(Timeline, e.id, e.refId)]
    else if e.kind.OfToolEvent? && e.refId !in toolIds then [UnknownToolEvent(Timeline, e.id, e.refId)]
    else []
  }

  function EntryErrors(
      e: TimelineEntry, expected: int, seen: set<string>, eventIds: set<string>, toolIds: set<string>): seq<LintError>
  {
    (if e.id in seen then [DuplicateTimelineId(e.id)] else [])
    + (if e.order != expected then [OrderBroken(e.id, expected, e.order)] else [])
    + TimelineRefErrors(e, eventIds, toolIds)
  }

  /** After an entry out of order the count goes on from that entry. */
  function TimelineErrors(es: seq<TimelineEntry>, expected: int, seen: set<string>, eventIds: set<string>,
                          toolIds: set<string>): seq<LintError>
    decreases |es|
  {
    if es == [] then []
    else EntryErrors(es[0], expected, seen, eventIds, toolIds)
         + TimelineErrors(es[1..], es[0].order + 1, seen + {es[0].id}, eventIds, toolIds)
  }

  method LintTimeline(c: CasePack) returns (errors: seq<LintError>)
    ensures errors == TimelineErrors(c.timeline, 1, {}, EventIds(c), ToolIds(c))
  {
    hide TimelineErrors, TimelineRefErrors, EventIds, ToolIds;
    errors := [];
    var eventIds, toolIds := EventIds(c), ToolIds(c);
    var expectedOrder := 1;
    assert c.timeline[0..] == c.timeline;
    var seen: set<string> := {};
    for i := 0 to |c.timeline|
      invariant errors + TimelineErrors(c.timeline[i..], expectedOrder, seen, eventIds, toolIds)
             == TimelineErrors(c.timeline, 1, {}, eventIds, toolIds)
    {
      TimelineStep(c.timeline, i, expectedOrder, seen, eventIds, toolIds);
      var entry := c.timeline[i];
      ghost var before := errors;
      ghost var own := EntryErrors(entry, expectedOrder, seen, eventIds, toolIds);
      if entry.id in seen {
        errors := errors + [DuplicateTimelineId(entry.id)];
      }
      seen := seen + {entry.id};
      if entry.order != expectedOrder {
        errors := errors + [OrderBroken(entry.id, expectedOrder, entry.order)];
        expectedOrder := entry.order + 1;
      } else {
        expectedOrder := expectedOrder + 1;
      }
      errors := errors + TimelineRefErrors(entry, eventIds, toolIds);
      assert errors == before + own;
      Regroup3(before, own, TimelineErrors(c.timeline[i + 1..], expectedOrder, seen, eventIds, toolIds));
    }
    NoEntries(c.timeline[|c.timeline|..], expectedOrder, seen, eventIds, toolIds);
  }

  lemma {:induction false} TimelineStep(es: seq<TimelineEntry>, i: nat, expected: int, seen: set<string>,
                                        eventIds: set<string>, toolIds: set<string>)
    requires i < |es|
    ensures TimelineErrors(es[i..], expected, seen, eventIds, toolIds)
         == EntryErrors(es[i], expected, seen, eventIds, toolIds)
            + TimelineErrors(es[i + 1..], es[i].order + 1, seen + {es[i].id}, eventIds, toolIds)
  {
    assert es[i..][1..] == es[i + 1..];
  }

  lemma {:induction false} NoEntries(es: seq<TimelineEntry>, expected: int, seen: set<string>,
                                     eventIds: set<string>, toolIds: set<string>)
    requires es == []
    ensures TimelineErrors(es, expected, seen, eventIds, toolIds) == []
  {
  }

  // ----- Turning points and lifted items -----

  function TurningPointErrors(t: TurningPoint, eventIds: set<string>, toolIds: set<string>): seq<LintError> {
    (if t.eventIds == [] && t.toolEventIds == [] then [TurningPointWithoutRefs(t.id)] else [])
    + Unknown(t.eventIds, eventIds, AsEvent(TurningPoints, t.id))
    + Unknown(t.toolEventIds, toolIds, AsToolEvent(TurningPoints, t.id))
  }

  function TurningErrors(ts: seq<TurningPoint>, eventIds: set<string>, toolIds: set<string>): seq<LintError> {
    if ts == [] then [] else TurningPointErrors(ts[0], eventIds, toolIds) + TurningErrors(ts[1..], eventIds, toolIds)
  }

  method LintTurningPoints(c: CasePack) returns (errors: seq<LintError>)
    ensures errors == TurningErrors(c.turningPoints, EventIds(c), ToolIds(c))
  {
    hide Unknown, EventIds, ToolIds, AsEvent, AsToolEvent;
    errors := [];
    var eventIds, toolIds := EventIds(c), ToolIds(c);
    for i := 0 to |c.turningPoints|
      invariant errors + TurningErrors(c.turningPoints[i..], eventIds, toolIds)
             == TurningErrors(c.turningPoints, eventIds, toolIds)
    {
      assert c.turningPoints[i..][1..] == c.turningPoints[i + 1..];
      var item := c.turningPoints[i];
      ghost var before := errors;
      if item.eventIds == [] && item.toolEventIds == [] {
        errors := errors + [TurningPointWithoutRefs(item.id)];
      }
      var events := ListUnknown(item.eventIds, eventIds, AsEvent(TurningPoints, item.id));
      var tools := ListUnknown(item.toolEventIds, toolIds, AsToolEvent(TurningPoints, item.id));
      errors := errors + events;
      errors := errors + tools;
      assert errors == before + TurningPointErrors(item, eventIds, toolIds);
      Regroup3(before, TurningPointErrors(item, eventIds, toolIds),
               TurningErrors(c.turningPoints[i + 1..], eventIds, toolIds));
    }
  }

  function TimelineIds(c: CasePack): set<string> {
    set e | e in c.timeline :: e.id
  }

  function TurningPointIds(c: CasePack): set<string> {
    set t | t in c.turningPoints :: t.id
  }

  function LiftedItemErrors(where: Collection, l: LiftedItem, timelineIds: set<string>, turningIds: set<string>)
    : seq<LintError>
  {
    (if l.timelineRefs == [] && l.turningPointRefs == [] then [LiftedWithoutRefs(where, l.id)] else [])
    + Unknown(l.timelineRefs, timelineIds, AsTimelineRef(where, l.id))
    + Unknown(l.turningPointRefs, turningIds, AsTurningPoint(where, l.id))
  }

  function LiftedErrors(where: Collection, ls: seq<LiftedItem>, timelineIds: set<string>, turningIds: set<string>)
    : seq<LintError>
  {
    if ls == [] then []
    else LiftedItemErrors(where, ls[0], timelineIds, turningIds) + LiftedErrors(where, ls[1..], timelineIds, turningIds)
  }

  method LintLifted(where: Collection, items: seq<LiftedItem>, timelineIds: set<string>, turningIds: set<string>)
    returns (errors: seq<LintError>)
    ensures errors == LiftedErrors(where, items, timelineIds, turningIds)
  {
    hide Unknown, AsTimelineRef, AsTurningPoint;
    errors := [];
    for i := 0 to |items|
      invariant errors + LiftedErrors(where, items[i..], timelineIds, turningIds)
             == LiftedErrors(where, items, timelineIds, turningIds)
    {
      assert items[i..][1..] == items[i + 1..];
      var item := items[i];
      ghost var before := errors;
      if item.timelineRefs == [] && item.turningPointRefs == [] {
        errors := errors + [LiftedWithoutRefs(where, item.id)];
      }
      var timeline := ListUnknown(item.timelineRefs, timelineIds, AsTimelineRef(where, item.id));
      var turning := ListUnknown(item.turningPointRefs, turningIds, AsTurningPoint(where, item.id));
      errors := errors + timeline;
      errors := errors + turning;
      assert errors == before + LiftedItemErrors(where, item, timelineIds, turningIds);
      Regroup3(before, LiftedItemErrors(where, item, timelineIds, turningIds),
               LiftedErrors(where, items[i + 1..], timelineIds, turningIds));
    }
  }

  // ----- The whole pack -----

  function AllEvidenceErrors(bs: seq<Backed>, index: set<string>): seq<LintError> {
    if bs == [] then [] else EvidenceErrors(bs[0], bs[0].refs, index) + AllEvidenceErrors(bs[1..], index)
  }

  function AllLiftedErrors(c: CasePack): seq<LintError> {
    LiftedErrors(Questions, c.questions, TimelineIds(c), TurningPointIds(c))
    + LiftedErrors(Misconceptions, c.misconceptions, TimelineIds(c), TurningPointIds(c))
    + LiftedErrors(Resolutions, c.resolutions, TimelineIds(c), TurningPointIds(c))
  }

  function Lint(c: CasePack): seq<LintError> {
    var anchors := AllAnchors(c, PREFIXES);
    DuplicateErrors(anchors, {})
    + AllEvidenceErrors(EvidenceBacked(c), Members(anchors))
    + ToolErrors(c.toolEvents, EventIds(c))
    + TimelineErrors(c.timeline, 1, {}, EventIds(c), ToolIds(c))
    + TurningErrors(c.turningPoints, EventIds(c), ToolIds(c))
    + AllLiftedErrors(c)
  }

  method LintCasePack(c: CasePack) returns (errors: seq<LintError>)
    ensures errors == Lint(c)
  {
    hide AllAnchors, DuplicateErrors, EvidenceBacked, ToolErrors, TimelineErrors, TurningErrors, LiftedErrors;
    var index;
    index, errors := BuildAnchorIndex(c);
    ghost var duplicates := errors;
    var backed := EvidenceBacked(c);
    assert backed[0..] == backed;
    for i := 0 to |backed|
      invariant errors + AllEvidenceErrors(backed[i..], index) == duplicates + AllEvidenceErrors(backed, index)
    {
      assert backed[i..][1..] == backed[i + 1..];
      var found := LintEvidenceRefs(backed[i], index);
      Regroup3(errors, found, AllEvidenceErrors(backed[i + 1..], index));
      errors := errors + found;
    }
    var more := LintToolEvents(c);
    errors := errors + more;
    more := LintTimeline(c);
    errors := errors + more;
    more := LintTurningPoints(c);
    errors := errors + more;
    more := LintLiftedItems(c);
    errors := errors + more;
  }

  method LintLiftedItems(c: CasePack) returns (errors: seq<LintError>)
    ensures errors == AllLiftedErrors(c)
  {
    hide LiftedErrors;
    var timelineIds, turningIds := TimelineIds(c), TurningPointIds(c);
    errors := LintLifted(Questions, c.questions, timelineIds, turningIds);
    var more := LintLifted(Misconceptions, c.misconceptions, timelineIds, turningIds);
    errors := errors + more;
    more := LintLifted(Resolutions, c.resolutions, timelineIds, turningIds);
    errors := errors + more;
  }
}
