/** Which errors the linter lists for a case pack, read off its items. */
module CasePackReports {
  import opened CasePackLint
  import opened CasePackLaws
  import opened Text
  import opened Wrappers

  // ----- What is reported -----

  predicate IsEvent(c: CasePack, id: string) {
    exists x :: x in c.events && x.id == id
  }

  predicate IsToolEvent(c: CasePack, id: string) {
    exists x :: x in c.toolEvents && x.id == id
  }

  /** The reference is a prefix, a colon and the id of an item of that prefix's collection. */
  ghost predicate NamesAnItem(c: CasePack, ref: string) {
    || (exists x :: x in c.messages && ref == "msg:" + x.id)
    || (exists x :: x in c.events && ref == "event:" + x.id)
    || (exists x :: x in c.toolEvents && ref == "tool:" + x.id)
    || (exists x :: x in c.artifacts && ref == "artifact:" + x.id)
    || (exists link :: link in c.links && ref == "link:" + link)
  }

  /** The reference is the prefix, alone or in front of a colon. */
  predicate HasPrefix(ref: string, p: string) {
    ref == p || p + ":" <= ref
  }

  predicate HasKnownPrefix(ref: string) {
    || HasPrefix(ref, "msg") || HasPrefix(ref, "event") || HasPrefix(ref, "tool") || HasPrefix(ref, "artifact")
    || HasPrefix(ref, "link")
  }

  /** An item of the collection cites the reference as its evidence. */
  predicate Cites(c: CasePack, where: Collection, id: string, ref: string) {
    match where
    case Messages => exists x :: x in c.messages && x.id == id && ref in x.evidenceRefs
    case Artifacts => exists x :: x in c.artifacts && x.id == id && ref in x.evidenceRefs
    case Events => exists x :: x in c.events && x.id == id && ref in x.evidenceRefs
    case ToolEvents => exists x :: x in c.toolEvents && x.id == id && ref in x.evidenceRefs
    case Timeline => exists x :: x in c.timeline && x.id == id && ref in x.evidenceRefs
    case TurningPoints => exists x :: x in c.turningPoints && x.id == id && ref in x.evidenceRefs
    case Questions => exists x :: x in c.questions && x.id == id && ref in x.evidenceRefs
    case Misconceptions => exists x :: x in c.misconceptions && x.id == id && ref in x.evidenceRefs
    case Resolutions => exists x :: x in c.resolutions && x.id == id && ref in x.evidenceRefs
  }

  /** The id of two items of one collection, behind that collection's prefix. */
  ghost predicate NamesTwoItems(c: CasePack, anchor: string) {
    || (exists i, j :: 0 <= i < j < |c.messages| && c.messages[i].id == c.messages[j].id
                       && anchor == "msg:" + c.messages[i].id)
    || (exists i, j :: 0 <= i < j < |c.events| && c.events[i].id == c.events[j].id
                       && anchor == "event:" + c.events[i].id)
    || (exists i, j :: 0 <= i < j < |c.toolEvents| && c.toolEvents[i].id == c.toolEvents[j].id
                       && anchor == "tool:" + c.toolEvents[i].id)
    || (exists i, j :: 0 <= i < j < |c.artifacts| && c.artifacts[i].id == c.artifacts[j].id
                       && anchor == "artifact:" + c.artifacts[i].id)
    || (exists i, j :: 0 <= i < j < |c.links| && c.links[i] == c.links[j] && anchor == "link:" + c.links[i])
  }

  function LiftedItems(c: CasePack, where: Collection): seq<LiftedItem> {
    match where
    case Questions => c.questions
    case Misconceptions => c.misconceptions
    case Resolutions => c.resolutions
    case _ => []
  }

  /** The order expected of the i-th timeline entry. */
  function ExpectedOrder(c: CasePack, i: int): int
    requires 0 <= i < |c.timeline|
  {
    if i == 0 then 1 else c.timeline[i - 1].order + 1
  }

  /** Exactly these errors are reported of a case pack. */
  ghost predicate Reported(c: CasePack, e: LintError) {
    match e
    case DuplicateAnchor(anchor) => NamesTwoItems(c, anchor)
    case UnsupportedPrefix(where, id, ref) => Cites(c, where, id, ref) && !HasKnownPrefix(ref)
    case UnknownEvidence(where, id, ref) => Cites(c, where, id, ref) && HasKnownPrefix(ref) && !NamesAnItem(c, ref)
    case UnknownEvent(where, id, ref) =>
      !IsEvent(c, ref)
      && (match where
          case ToolEvents => exists t :: t in c.toolEvents && t.id == id && ref in t.linkedEventIds
          case Timeline => exists t :: t in c.timeline && t.id == id && t.kind == OfEvent && t.refId == ref
          case TurningPoints => exists t :: t in c.turningPoints && t.id == id && ref in t.eventIds
          case _ => false)
    case UnknownToolEvent(where, id, ref) =>
      !IsToolEvent(c, ref)
      && (match where
          case Timeline => exists t :: t in c.timeline && t.id == id && t.kind == OfToolEvent && t.refId == ref
          case TurningPoints => exists t :: t in c.turningPoints && t.id == id && ref in t.toolEventIds
          case _ => false)
    case WhyMissing(id) =>
      exists t :: t in c.toolEvents && t.id == id && t.kept
                  && (t.whyItMatters == None || Strip(t.whyItMatters.value) == "")
    case DuplicateTimelineId(id) =>
      exists i, j :: 0 <= i < j < |c.timeline| && c.timeline[i].id == c.timeline[j].id == id
    case OrderBroken(id, expected, got) =>
      exists i :: 0 <= i < |c.timeline| && c.timeline[i].id == id && c.timeline[i].order == got
                  && expected == ExpectedOrder(c, i) && got != expected
    case TurningPointWithoutRefs(id) =>
      exists t :: t in c.turningPoints && t.id == id && t.eventIds == [] && t.toolEventIds == []
    case LiftedWithoutRefs(where, id) =>
      exists l :: l in LiftedItems(c, where) && l.id == id && l.timelineRefs == [] && l.turningPointRefs == []
    case UnknownTimelineRef(where, id, ref) =>
      (exists l :: l in LiftedItems(c, where) && l.id == id && ref in l.timelineRefs)
      && !exists t :: t in c.timeline && t.id == ref
    case UnknownTurningPoint(where, id, ref) =>
      (exists l :: l in LiftedItems(c, where) && l.id == id && ref in l.turningPointRefs)
      && !exists t :: t in c.turningPoints && t.id == ref
  }

  // ----- References between items -----

  lemma {:induction false} UnknownMeans(refs: seq<string>, known: set<string>, error: string -> LintError, e: LintError)
    ensures e in Unknown(refs, known, error) <==> exists ref :: ref in refs && ref !in known && e == error(ref)
  {
    if refs != [] {
      UnknownMeans(refs[1..], known, error, e);
      assert refs == [refs[0]] + refs[1..];
    }
  }

  predicate ToolReports(t: ToolEvent, eventIds: set<string>, e: LintError) {
    || (e.UnknownEvent? && e.where == ToolEvents && e.id == t.id && e.ref in t.linkedEventIds && e.ref !in eventIds)
    || (e == WhyMissing(t.id) && t.kept && (t.whyItMatters == None || Strip(t.whyItMatters.value) == ""))
  }

  lemma {:induction false} ToolErrorsMean(ts: seq<ToolEvent>, eventIds: set<string>, e: LintError)
    ensures e in ToolErrors(ts, eventIds) <==> exists t :: t in ts && ToolReports(t, eventIds, e)
  {
    hide Strip;
    if ts != [] {
      UnknownMeans(ts[0].linkedEventIds, eventIds, AsEvent(ToolEvents, ts[0].id), e);
      ToolErrorsMean(ts[1..], eventIds, e);
      hide Unknown;
      assert e in ToolEventErrors(ts[0], eventIds) <==> ToolReports(ts[0], eventIds, e);
      hide ToolReports, ToolEventErrors;
      assert ts == [ts[0]] + ts[1..];
    }
  }

  predicate TurningReports(t: TurningPoint, eventIds: set<string>, toolIds: set<string>, e: LintError) {
    || (e == TurningPointWithoutRefs(t.id) && t.eventIds == [] && t.toolEventIds == [])
    || (e.UnknownEvent? && e.where == TurningPoints && e.id == t.id && e.ref in t.eventIds && e.ref !in eventIds)
    || (e.UnknownToolEvent? && e.where == TurningPoints && e.id == t.id && e.ref in t.toolEventIds && e.ref !in toolIds)
  }

  lemma {:induction false} TurningErrorsMean(
      ts: seq<TurningPoint>, eventIds: set<string>, toolIds: set<string>, e: LintError)
    ensures e in TurningErrors(ts, eventIds, toolIds) <==>
            exists t :: t in ts && TurningReports(t, eventIds, toolIds, e)
  {
    if ts != [] {
      UnknownMeans(ts[0].eventIds, eventIds, AsEvent(TurningPoints, ts[0].id), e);
      UnknownMeans(ts[0].toolEventIds, toolIds, AsToolEvent(TurningPoints, ts[0].id), e);
      TurningErrorsMean(ts[1..], eventIds, toolIds, e);
      hide Unknown;
      assert e in TurningPointErrors(ts[0], eventIds, toolIds) <==> TurningReports(ts[0], eventIds, toolIds, e);
      hide TurningReports, TurningPointErrors;
      assert ts == [ts[0]] + ts[1..];
    }
  }

  predicate LiftedReports(
      where: Collection, l: LiftedItem, timelineIds: set<string>, turningIds: set<string>, e: LintError)
  {
    || (e == LiftedWithoutRefs(where, l.id) && l.timelineRefs == [] && l.turningPointRefs == [])
    || (e.UnknownTimelineRef? && e.where == where && e.id == l.id && e.ref in l.timelineRefs && e.ref !in timelineIds)
    || (e.UnknownTurningPoint? && e.where == where && e.id == l.id && e.ref in l.turningPointRefs
        && e.ref !in turningIds)
  }

  lemma {:induction false} LiftedErrorsMean(
      where: Collection, ls: seq<LiftedItem>, timelineIds: set<string>, turningIds: set<string>, e: LintError)
    ensures e in LiftedErrors(where, ls, timelineIds, turningIds) <==>
            exists l :: l in ls && LiftedReports(where, l, timelineIds, turningIds, e)
  {
    if ls != [] {
      UnknownMeans(ls[0].timelineRefs, timelineIds, AsTimelineRef(where, ls[0].id), e);
      UnknownMeans(ls[0].turningPointRefs, turningIds, AsTurningPoint(where, ls[0].id), e);
      LiftedErrorsMean(where, ls[1..], timelineIds, turningIds, e);
      hide Unknown;
      assert e in LiftedItemErrors(where, ls[0], timelineIds, turningIds) <==>
             LiftedReports(where, ls[0], timelineIds, turningIds, e);
      hide LiftedReports, LiftedItemErrors;
      assert ls == [ls[0]] + ls[1..];
    }
  }

  // ----- The timeline -----

  predicate EntryReports(es: seq<TimelineEntry>, i: int, expected: int, seen: set<string>, eventIds: set<string>,
                         toolIds: set<string>, e: LintError)
    requires 0 <= i < |es|
  {
    || (e == DuplicateTimelineId(es[i].id) && (es[i].id in seen || exists j :: 0 <= j < i && es[j].id == es[i].id))
    || (var want := if i == 0 then expected else es[i - 1].order + 1;
        e == OrderBroken(es[i].id, want, es[i].order) && es[i].order != want)
    || (e == UnknownEvent(Timeline, es[i].id, es[i].refId) && es[i].kind == OfEvent && es[i].refId !in eventIds)
    || (e == UnknownToolEvent(Timeline, es[i].id, es[i].refId) && es[i].kind == OfToolEvent && es[i].refId !in toolIds)
  }

  lemma {:induction false} TimelineErrorsMean(es: seq<TimelineEntry>, expected: int, seen: set<string>,
                                              eventIds: set<string>, toolIds: set<string>, e: LintError)
    ensures e in TimelineErrors(es, expected, seen, eventIds, toolIds) <==>
            exists i :: 0 <= i < |es| && EntryReports(es, i, expected, seen, eventIds, toolIds, e)
    decreases |es|
  {
    if es != [] {
      var rest, next, seen' := es[1..], es[0].order + 1, seen + {es[0].id};
      TimelineErrorsMean(rest, next, seen', eventIds, toolIds, e);
      assert e in EntryErrors(es[0], expected, seen, eventIds, toolIds) <==>
             EntryReports(es, 0, expected, seen, eventIds, toolIds, e);
      forall i | 0 <= i < |rest|
        ensures EntryReports(rest, i, next, seen', eventIds, toolIds, e) <==>
                EntryReports(es, i + 1, expected, seen, eventIds, toolIds, e)
      {
        LaterEntryReports(es, i, expected, seen, eventIds, toolIds, e);
      }
      hide EntryReports, EntryErrors;
      if i :| 0 <= i < |es| && EntryReports(es, i, expected, seen, eventIds, toolIds, e) {
        assert i > 0 ==> EntryReports(rest, i - 1, next, seen', eventIds, toolIds, e);
      }
    }
  }

  lemma {:induction false} LaterEntryReports(es: seq<TimelineEntry>, i: nat, expected: int, seen: set<string>,
                                             eventIds: set<string>, toolIds: set<string>, e: LintError)
    requires i + 1 < |es|
    ensures EntryReports(es[1..], i, es[0].order + 1, seen + {es[0].id}, eventIds, toolIds, e) <==>
            EntryReports(es, i + 1, expected, seen, eventIds, toolIds, e)
  {
    var rest := es[1..];
    assert forall j :: 0 <= j < |rest| ==> rest[j] == es[j + 1];
    assert (exists j :: 0 <= j < i + 1 && es[j].id == es[i + 1].id) <==>
           es[0].id == es[i + 1].id || exists j :: 0 <= j < i && rest[j].id == rest[i].id by {
      if j :| 0 <= j < i + 1 && es[j].id == es[i + 1].id {
        assert j > 0 ==> rest[j - 1].id == rest[i].id;
      }
    }
  }

  // ----- Evidence -----

  lemma {:induction false} EvidenceErrorsMean(b: Backed, refs: seq<string>, index: set<string>, e: LintError)
    ensures e in EvidenceErrors(b, refs, index) <==>
            || (e.UnsupportedPrefix? && e.where == b.where && e.id == b.id && e.ref in refs
                && !Supported(BeforeColon(e.ref)))
            || (e.UnknownEvidence? && e.where == b.where && e.id == b.id && e.ref in refs
                && Supported(BeforeColon(e.ref)) && e.ref !in index)
  {
    hide Supported, BeforeColon;
    if refs != [] {
      EvidenceErrorsMean(b, refs[1..], index, e);
      assert refs == [refs[0]] + refs[1..];
    }
  }

  lemma {:induction false} AllEvidenceErrorsMean(bs: seq<Backed>, index: set<string>, e: LintError)
    ensures e in AllEvidenceErrors(bs, index) <==> exists b :: b in bs && e in EvidenceErrors(b, b.refs, index)
  {
    hide EvidenceErrors;
    if bs != [] {
      AllEvidenceErrorsMean(bs[1..], index, e);
      assert bs == [bs[0]] + bs[1..];
    }
  }

  lemma {:induction false} KnownPrefixes(ref: string)
    ensures Supported(BeforeColon(ref)) <==> HasKnownPrefix(ref)
  {
    PrefixIs(ref, "msg");
    PrefixIs(ref, "event");
    PrefixIs(ref, "tool");
    PrefixIs(ref, "artifact");
    PrefixIs(ref, "link");
    hide BeforeColon, HasPrefix;
  }

  lemma {:induction false} PrefixIs(ref: string, p: string)
    requires ':' !in p
    ensures BeforeColon(ref) == p <==> HasPrefix(ref, p)
  {
    BeforeColonIsAPrefix(ref);
    if p + ":" <= ref {
      PrefixBeforeColon(p, ref[|p| + 1..]);
      assert ref == p + ":" + ref[|p| + 1..];
    }
    NoColon(p);
  }

  lemma {:induction false} NoColon(p: string)
    requires ':' !in p
    ensures BeforeColon(p) == p
  {
    if p != "" {
      NoColon(p[1..]);
    }
  }

  lemma {:induction false} BeforeColonIsAPrefix(ref: string)
    ensures ref == BeforeColon(ref) || BeforeColon(ref) + ":" <= ref
  {
    if ref != "" && ref[0] != ':' {
      BeforeColonIsAPrefix(ref[1..]);
      var p := BeforeColon(ref[1..]);
      assert ref == [ref[0]] + ref[1..];
      assert ([ref[0]] + p) + ":" == [ref[0]] + (p + ":");
    }
  }

  lemma {:induction false} SourcesBackedAre(where: Collection, s: seq<Source>, b: Backed)
    ensures b in SourcesBacked(where, s) <==> exists x :: x in s && b == Backed(where, x.id, x.evidenceRefs)
  {
    var bs := SourcesBacked(where, s);
    forall x | x in s ensures Backed(where, x.id, x.evidenceRefs) in bs {
      var i :| 0 <= i < |s| && s[i] == x;
      assert bs[i] == Backed(where, x.id, x.evidenceRefs);
    }
  }

  lemma {:induction false} LiftedBackedAre(where: Collection, s: seq<LiftedItem>, b: Backed)
    ensures b in LiftedBacked(where, s) <==> exists x :: x in s && b == Backed(where, x.id, x.evidenceRefs)
  {
    var bs := LiftedBacked(where, s);
    forall x | x in s ensures Backed(where, x.id, x.evidenceRefs) in bs {
      var i :| 0 <= i < |s| && s[i] == x;
      assert bs[i] == Backed(where, x.id, x.evidenceRefs);
    }
  }

  function ToolsBacked(s: seq<ToolEvent>): seq<Backed> {
    seq(|s|, i requires 0 <= i < |s| => Backed(ToolEvents, s[i].id, s[i].evidenceRefs))
  }

  lemma {:induction false} ToolsBackedAre(s: seq<ToolEvent>, b: Backed)
    ensures b in ToolsBacked(s) <==> exists x :: x in s && b == Backed(ToolEvents, x.id, x.evidenceRefs)
  {
    var bs := ToolsBacked(s);
    forall x | x in s ensures Backed(ToolEvents, x.id, x.evidenceRefs) in bs {
      var i :| 0 <= i < |s| && s[i] == x;
      assert bs[i] == Backed(ToolEvents, x.id, x.evidenceRefs);
    }
  }

  function EntriesBacked(s: seq<TimelineEntry>): seq<Backed> {
    seq(|s|, i requires 0 <= i < |s| => Backed(Timeline, s[i].id, s[i].evidenceRefs))
  }

  lemma {:induction false} EntriesBackedAre(s: seq<TimelineEntry>, b: Backed)
    ensures b in EntriesBacked(s) <==> exists x :: x in s && b == Backed(Timeline, x.id, x.evidenceRefs)
  {
    var bs := EntriesBacked(s);
    forall x | x in s ensures Backed(Timeline, x.id, x.evidenceRefs) in bs {
      var i :| 0 <= i < |s| && s[i] == x;
      assert bs[i] == Backed(Timeline, x.id, x.evidenceRefs);
    }
  }

  function TurningBacked(s: seq<TurningPoint>): seq<Backed> {
    seq(|s|, i requires 0 <= i < |s| => Backed(TurningPoints, s[i].id, s[i].evidenceRefs))
  }

  lemma {:induction false} TurningBackedAre(s: seq<TurningPoint>, b: Backed)
    ensures b in TurningBacked(s) <==> exists x :: x in s && b == Backed(TurningPoints, x.id, x.evidenceRefs)
  {
    var bs := TurningBacked(s);
    forall x | x in s ensures Backed(TurningPoints, x.id, x.evidenceRefs) in bs {
      var i :| 0 <= i < |s| && s[i] == x;
      assert bs[i] == Backed(TurningPoints, x.id, x.evidenceRefs);
    }
  }

  lemma {:induction false} EvidenceBackedParts(c: CasePack)
    ensures EvidenceBacked(c) ==
            SourcesBacked(Messages, c.messages) + SourcesBacked(Artifacts, c.artifacts)
            + SourcesBacked(Events, c.events) + ToolsBacked(c.toolEvents) + EntriesBacked(c.timeline)
            + TurningBacked(c.turningPoints)
            + LiftedBacked(Questions, c.questions) + LiftedBacked(Misconceptions, c.misconceptions)
            + LiftedBacked(Resolutions, c.resolutions)
  {
    hide SourcesBacked, LiftedBacked;
    assert ToolsBacked(c.toolEvents) == seq(|c.toolEvents|, i requires 0 <= i < |c.toolEvents| =>
                                              Backed(ToolEvents, c.toolEvents[i].id, c.toolEvents[i].evidenceRefs));
    assert EntriesBacked(c.timeline) == seq(|c.timeline|, i requires 0 <= i < |c.timeline| =>
                                              Backed(Timeline, c.timeline[i].id, c.timeline[i].evidenceRefs));
    assert TurningBacked(c.turningPoints)
        == seq(|c.turningPoints|, i requires 0 <= i < |c.turningPoints| =>
                 Backed(TurningPoints, c.turningPoints[i].id, c.turningPoints[i].evidenceRefs));
  }

  lemma {:induction false} BackedIs(c: CasePack, b: Backed)
    ensures b in EvidenceBacked(c) <==>
            match b.where
            case Messages => exists x :: x in c.messages && b == Backed(Messages, x.id, x.evidenceRefs)
            case Artifacts => exists x :: x in c.artifacts && b == Backed(Artifacts, x.id, x.evidenceRefs)
            case Events => exists x :: x in c.events && b == Backed(Events, x.id, x.evidenceRefs)
            case ToolEvents => exists x :: x in c.toolEvents && b == Backed(ToolEvents, x.id, x.evidenceRefs)
            case Timeline => exists x :: x in c.timeline && b == Backed(Timeline, x.id, x.evidenceRefs)
            case TurningPoints => exists x :: x in c.turningPoints && b == Backed(TurningPoints, x.id, x.evidenceRefs)
            case Questions => exists x :: x in c.questions && b == Backed(Questions, x.id, x.evidenceRefs)
            case Misconceptions =>
              exists x :: x in c.misconceptions && b == Backed(Misconceptions, x.id, x.evidenceRefs)
            case Resolutions => exists x :: x in c.resolutions && b == Backed(Resolutions, x.id, x.evidenceRefs)
  {
    EvidenceBackedParts(c);
    SourcesBackedAre(Messages, c.messages, b);
    SourcesBackedAre(Artifacts, c.artifacts, b);
    SourcesBackedAre(Events, c.events, b);
    ToolsBackedAre(c.toolEvents, b);
    EntriesBackedAre(c.timeline, b);
    TurningBackedAre(c.turningPoints, b);
    LiftedBackedAre(Questions, c.questions, b);
    LiftedBackedAre(Misconceptions, c.misconceptions, b);
    LiftedBackedAre(Resolutions, c.resolutions, b);
    hide EvidenceBacked, SourcesBacked, LiftedBacked, ToolsBacked, EntriesBacked, TurningBacked;
  }

  /** An item's evidence is looked at exactly when the item cites it. */
  lemma {:induction false} BackedExactlyWhenCited(c: CasePack, where: Collection, id: string, ref: string)
    ensures (exists b :: b in EvidenceBacked(c) && b.where == where && b.id == id && ref in b.refs) <==>
            Cites(c, where, id, ref)
  {
    hide EvidenceBacked;
    if Cites(c, where, id, ref) {
      var b := CitedBy(c, where, id, ref);
      BackedIs(c, b);
    }
    if b :| b in EvidenceBacked(c) && b.where == where && b.id == id && ref in b.refs {
      BackedIs(c, b);
    }
  }

  lemma {:induction false} CitedBy(c: CasePack, where: Collection, id: string, ref: string) returns (b: Backed)
    requires Cites(c, where, id, ref)
    ensures b in EvidenceBacked(c) && b.where == where && b.id == id && ref in b.refs
  {
    hide EvidenceBacked;
    var refs: seq<string>;
    match where {
      case Messages =>
        var x :| x in c.messages && x.id == id && ref in x.evidenceRefs;
        refs := x.evidenceRefs;
      case Artifacts =>
        var x :| x in c.artifacts && x.id == id && ref in x.evidenceRefs;
        refs := x.evidenceRefs;
      case Events =>
        var x :| x in c.events && x.id == id && ref in x.evidenceRefs;
        refs := x.evidenceRefs;
      case ToolEvents =>
        var x :| x in c.toolEvents && x.id == id && ref in x.evidenceRefs;
        refs := x.evidenceRefs;
      case Timeline =>
        var x :| x in c.timeline && x.id == id && ref in x.evidenceRefs;
        refs := x.evidenceRefs;
      case TurningPoints =>
        var x :| x in c.turningPoints && x.id == id && ref in x.evidenceRefs;
        refs := x.evidenceRefs;
      case Questions =>
        var x :| x in c.questions && x.id == id && ref in x.evidenceRefs;
        refs := x.evidenceRefs;
      case Misconceptions =>
        var x :| x in c.misconceptions && x.id == id && ref in x.evidenceRefs;
        refs := x.evidenceRefs;
      case Resolutions =>
        var x :| x in c.resolutions && x.id == id && ref in x.evidenceRefs;
        refs := x.evidenceRefs;
    }
    b := Backed(where, id, refs);
    BackedIs(c, b);
  }

  // ----- Anchors -----

  lemma {:induction false} AnchoredIdsAre(c: CasePack, id: string)
    ensures id in AnchoredIds(c, Msg) <==> exists x :: x in c.messages && x.id == id
    ensures id in AnchoredIds(c, Event) <==> IsEvent(c, id)
    ensures id in AnchoredIds(c, Tool) <==> IsToolEvent(c, id)
    ensures id in AnchoredIds(c, Artifact) <==> exists x :: x in c.artifacts && x.id == id
    ensures id in AnchoredIds(c, Link) <==> id in c.links
  {
    var messages, events := AnchoredIds(c, Msg), AnchoredIds(c, Event);
    var tools, artifacts := AnchoredIds(c, Tool), AnchoredIds(c, Artifact);
    assert forall i :: 0 <= i < |messages| ==> messages[i] == c.messages[i].id && messages[i] in messages;
    assert forall i :: 0 <= i < |events| ==> events[i] == c.events[i].id && events[i] in events;
    assert forall i :: 0 <= i < |tools| ==> tools[i] == c.toolEvents[i].id && tools[i] in tools;
    assert forall i :: 0 <= i < |artifacts| ==> artifacts[i] == c.artifacts[i].id && artifacts[i] in artifacts;
  }

  lemma {:induction false} AnchorTexts(id: string)
    ensures Anchor(Msg, id) == "msg:" + id && Anchor(Event, id) == "event:" + id && Anchor(Tool, id) == "tool:" + id
    ensures Anchor(Artifact, id) == "artifact:" + id && Anchor(Link, id) == "link:" + id
  {
    assert "msg" + ":" == "msg:" && "event" + ":" == "event:" && "tool" + ":" == "tool:";
    assert "artifact" + ":" == "artifact:" && "link" + ":" == "link:";
  }

  lemma {:induction false} ResolvedExactlyWhenNamed(c: CasePack, ref: string)
    ensures Resolves(c, ref) <==> NamesAnItem(c, ref)
  {
    hide AnchoredIds, Anchor, NamesAnItem;
    if Resolves(c, ref) {
      var p: Prefix, id: string :| id in AnchoredIds(c, p) && ref == Anchor(p, id);
      AnchorNamesAnItem(c, p, id);
    }
    if NamesAnItem(c, ref) {
      NamedResolves(c, ref);
    }
  }

  lemma {:induction false} AnchorNamesAnItem(c: CasePack, p: Prefix, id: string)
    requires id in AnchoredIds(c, p)
    ensures NamesAnItem(c, Anchor(p, id))
  {
    AnchoredIdsAre(c, id);
    AnchorTexts(id);
    hide AnchoredIds, Anchor;
    match p
    case Msg =>
    case Event =>
    case Tool =>
    case Artifact =>
    case Link =>
  }

  lemma {:induction false} NamedResolves(c: CasePack, ref: string)
    requires NamesAnItem(c, ref)
    ensures Resolves(c, ref)
  {
    hide Resolves, AnchoredIds, Anchor;
    if x :| x in c.messages && ref == "msg:" + x.id {
      AnchoredResolves(c, Msg, x.id);
    } else if x :| x in c.events && ref == "event:" + x.id {
      AnchoredResolves(c, Event, x.id);
    } else if x :| x in c.toolEvents && ref == "tool:" + x.id {
      AnchoredResolves(c, Tool, x.id);
    } else if x :| x in c.artifacts && ref == "artifact:" + x.id {
      AnchoredResolves(c, Artifact, x.id);
    } else {
      var link :| link in c.links && ref == "link:" + link;
      AnchoredResolves(c, Link, link);
    }
  }

  lemma {:induction false} AnchoredResolves(c: CasePack, p: Prefix, id: string)
    ensures match p
            case Msg => (exists x :: x in c.messages && x.id == id) ==> Resolves(c, "msg:" + id)
            case Event => IsEvent(c, id) ==> Resolves(c, "event:" + id)
            case Tool => IsToolEvent(c, id) ==> Resolves(c, "tool:" + id)
            case Artifact => (exists x :: x in c.artifacts && x.id == id) ==> Resolves(c, "artifact:" + id)
            case Link => id in c.links ==> Resolves(c, "link:" + id)
  {
    AnchoredIdsAre(c, id);
    AnchorTexts(id);
    hide AnchoredIds, Anchor;
    assert id in AnchoredIds(c, p) ==> Resolves(c, Anchor(p, id));
  }

  // ----- Repeated anchors -----

  predicate Twice(s: seq<string>, x: string) {
    exists i, j :: 0 <= i < j < |s| && s[i] == s[j] == x
  }

  lemma {:induction false} DuplicateErrorsMean(anchors: seq<string>, index: set<string>, e: LintError)
    ensures e in DuplicateErrors(anchors, index) <==>
            e.DuplicateAnchor? && (Twice(anchors, e.anchor) || (e.anchor in anchors && e.anchor in index))
    decreases |anchors|
  {
    if anchors != [] {
      var first, rest := anchors[0], anchors[1..];
      DuplicateErrorsMean(rest, index + {first}, e);
      assert anchors == [first] + rest;
      if e.DuplicateAnchor? {
        TwiceInConcat([first], rest, e.anchor);
      }
      hide Twice;
    }
  }

  lemma {:induction false} TwiceInConcat(a: seq<string>, b: seq<string>, x: string)
    ensures Twice(a + b, x) <==> Twice(a, x) || Twice(b, x) || (x in a && x in b)
    ensures |a| <= 1 ==> !Twice(a, x)
  {
    var s := a + b;
    assert forall i :: 0 <= i < |a| ==> s[i] == a[i];
    assert forall i :: 0 <= i < |b| ==> s[|a| + i] == b[i];
    if Twice(s, x) {
      var i, j :| 0 <= i < j < |s| && s[i] == s[j] == x;
      assert i >= |a| ==> b[i - |a|] == b[j - |a|] == x;
      assert i < |a| <= j ==> a[i] == b[j - |a|] == x;
    }
  }

  /** An anchor occurs twice exactly when one collection has an id twice. */
  lemma {:induction false} TwiceInAnchors(c: CasePack, ps: seq<Prefix>, anchor: string)
    requires forall i, j :: 0 <= i < j < |ps| ==> ps[i] != ps[j]
    ensures Twice(AllAnchors(c, ps), anchor) <==>
            exists p, id :: p in ps && Twice(AnchoredIds(c, p), id) && anchor == Anchor(p, id)
  {
    hide Anchor, AnchoredIds, Twice;
    if ps == [] {
      TwiceInConcat([], [], anchor);
      assert [] + [] == AllAnchors(c, ps);
    } else {
      var p, later := ps[0], ps[1..];
      assert ps == [p] + later;
      TwiceInAnchors(c, later, anchor);
      TwiceInConcat(Anchors(p, AnchoredIds(c, p)), AllAnchors(c, later), anchor);
      TwiceWithin(p, AnchoredIds(c, p), anchor);
      NotInLater(c, p, later, anchor);
    }
  }

  lemma {:induction false} TwiceWithin(p: Prefix, ids: seq<string>, anchor: string)
    ensures Twice(Anchors(p, ids), anchor) <==> exists id :: Twice(ids, id) && anchor == Anchor(p, id)
  {
    forall i: string, j: string { AnchorIsInjective(p, i, p, j); }
    hide Anchor;
    var anchors := Anchors(p, ids);
    if Twice(anchors, anchor) {
      var i, j :| 0 <= i < j < |anchors| && anchors[i] == anchors[j] == anchor;
      assert Twice(ids, ids[i]);
    }
    if id :| Twice(ids, id) && anchor == Anchor(p, id) {
      var i, j :| 0 <= i < j < |ids| && ids[i] == ids[j] == id;
      assert anchors[i] == anchors[j] == anchor;
    }
  }

  lemma {:induction false} NotInLater(c: CasePack, p: Prefix, later: seq<Prefix>, anchor: string)
    requires p !in later
    ensures !(anchor in Anchors(p, AnchoredIds(c, p)) && anchor in AllAnchors(c, later))
  {
    AnchorsOf(c, later, anchor);
    hide AnchoredIds, AllAnchors;
    var ids := AnchoredIds(c, p);
    forall q, i, j | q in later && j in AnchoredIds(c, q) && anchor == Anchor(q, j) && 0 <= i < |ids|
      ensures anchor != Anchor(p, ids[i])
    {
      AnchorIsInjective(p, ids[i], q, j);
    }
  }

  lemma {:induction false} TwiceNamed(c: CasePack, anchor: string)
    ensures Twice(AllAnchors(c, PREFIXES), anchor) <==> NamesTwoItems(c, anchor)
  {
    TwiceInAnchors(c, PREFIXES, anchor);
    hide AllAnchors, AnchoredIds, Anchor, Twice, NamesTwoItems;
    if p, id :| p in PREFIXES && Twice(AnchoredIds(c, p), id) && anchor == Anchor(p, id) {
      TwiceIds(c, p, id);
      AnchorTexts(id);
    }
    if NamesTwoItems(c, anchor) {
      var p, id := RepeatedItem(c, anchor);
      AllPrefixes(p);
    }
  }

  lemma {:induction false} TwiceIds(c: CasePack, p: Prefix, id: string)
    requires Twice(AnchoredIds(c, p), id)
    ensures NamesTwoItems(c, Anchor(p, id))
  {
    AnchorTexts(id);
    hide Anchor;
    var ids := AnchoredIds(c, p);
    var i, j :| 0 <= i < j < |ids| && ids[i] == ids[j] == id;
    match p
    case Msg => assert c.messages[i].id == c.messages[j].id == id;
    case Event => assert c.events[i].id == c.events[j].id == id;
    case Tool => assert c.toolEvents[i].id == c.toolEvents[j].id == id;
    case Artifact => assert c.artifacts[i].id == c.artifacts[j].id == id;
    case Link => assert c.links[i] == c.links[j] == id;
  }

  lemma {:induction false} RepeatedItem(c: CasePack, anchor: string) returns (p: Prefix, id: string)
    requires NamesTwoItems(c, anchor)
    ensures Twice(AnchoredIds(c, p), id) && anchor == Anchor(p, id)
  {
    hide Twice, Anchor;
    if i, j :| 0 <= i < j < |c.messages| && c.messages[i].id == c.messages[j].id
               && anchor == "msg:" + c.messages[i].id {
      p, id := Msg, c.messages[i].id;
      TwiceAt(AnchoredIds(c, Msg), i, j);
    } else if i, j :| 0 <= i < j < |c.events| && c.events[i].id == c.events[j].id
                      && anchor == "event:" + c.events[i].id {
      p, id := Event, c.events[i].id;
      TwiceAt(AnchoredIds(c, Event), i, j);
    } else if i, j :| 0 <= i < j < |c.toolEvents| && c.toolEvents[i].id == c.toolEvents[j].id
                      && anchor == "tool:" + c.toolEvents[i].id {
      p, id := Tool, c.toolEvents[i].id;
      TwiceAt(AnchoredIds(c, Tool), i, j);
    } else if i, j :| 0 <= i < j < |c.artifacts| && c.artifacts[i].id == c.artifacts[j].id
                      && anchor == "artifact:" + c.artifacts[i].id {
      p, id := Artifact, c.artifacts[i].id;
      TwiceAt(AnchoredIds(c, Artifact), i, j);
    } else {
      var i, j :| 0 <= i < j < |c.links| && c.links[i] == c.links[j] && anchor == "link:" + c.links[i];
      p, id := Link, c.links[i];
      TwiceAt(AnchoredIds(c, Link), i, j);
    }
    AnchorTexts(id);
  }

  lemma {:induction false} TwiceAt(s: seq<string>, i: nat, j: nat)
    requires i < j < |s| && s[i] == s[j]
    ensures Twice(s, s[i])
  {
  }

  // ----- The whole linter -----

  /** The linter reports exactly what is wrong: an error is in its list if and only if the pack has that defect. */
  lemma {:induction false} ReportsExactly(c: CasePack, e: LintError)
    ensures e in Lint(c) <==> Reported(c, e)
  {
    AnchorReports(c, e);
    EvidenceReports(c, e);
    ToolEventReports(c, e);
    TimelineReports(c, e);
    TurningPointReports(c, e);
    LiftedItemReports(c, e);
    if Reported(c, e) {
      ReportedWhere(c, e);
    }
    hide AllAnchors, DuplicateErrors, AllEvidenceErrors, ToolErrors, TimelineErrors, TurningErrors, AllLiftedErrors;
    hide Reported, EvidenceBacked, EventIds, ToolIds, Members;
  }

  lemma {:induction false} ReportedWhere(c: CasePack, e: LintError)
    requires Reported(c, e)
    ensures e.UnknownEvent? ==> e.where == ToolEvents || e.where == Timeline || e.where == TurningPoints
    ensures e.UnknownToolEvent? ==> e.where == Timeline || e.where == TurningPoints
  {
  }

  lemma {:induction false} AnchorReports(c: CasePack, e: LintError)
    ensures e in DuplicateErrors(AllAnchors(c, PREFIXES), {}) <==> e.DuplicateAnchor? && Reported(c, e)
  {
    DuplicateErrorsMean(AllAnchors(c, PREFIXES), {}, e);
    hide DuplicateErrors, AllAnchors, Twice, NamesTwoItems;
    if e.DuplicateAnchor? {
      TwiceNamed(c, e.anchor);
    }
  }

  lemma {:induction false} EvidenceReports(c: CasePack, e: LintError)
    ensures e in AllEvidenceErrors(EvidenceBacked(c), Members(AllAnchors(c, PREFIXES))) <==>
            (e.UnsupportedPrefix? || e.UnknownEvidence?) && Reported(c, e)
  {
    var index := Members(AllAnchors(c, PREFIXES));
    AllEvidenceErrorsMean(EvidenceBacked(c), index, e);
    forall b: Backed { EvidenceErrorsMean(b, b.refs, index, e); }
    if e.UnsupportedPrefix? || e.UnknownEvidence? {
      BackedExactlyWhenCited(c, e.where, e.id, e.ref);
      KnownPrefixes(e.ref);
      IndexedExactlyWhenResolved(c, e.ref);
      ResolvedExactlyWhenNamed(c, e.ref);
    }
    hide AllEvidenceErrors, EvidenceErrors, EvidenceBacked, AllAnchors, Supported, BeforeColon, HasKnownPrefix, Cites;
    hide NamesAnItem, Resolves;
  }

  lemma {:induction false} IdsAre(c: CasePack)
    ensures forall id :: id in EventIds(c) <==> IsEvent(c, id)
    ensures forall id :: id in ToolIds(c) <==> IsToolEvent(c, id)
  {
    forall id ensures id in EventIds(c) <==> IsEvent(c, id) {
      AnchoredIdsAre(c, id);
    }
    forall id ensures id in ToolIds(c) <==> IsToolEvent(c, id) {
      AnchoredIdsAre(c, id);
    }
  }

  lemma {:induction false} ToolEventReports(c: CasePack, e: LintError)
    ensures e in ToolErrors(c.toolEvents, EventIds(c)) <==>
            ((e.UnknownEvent? && e.where == ToolEvents) || e.WhyMissing?) && Reported(c, e)
  {
    ToolErrorsMean(c.toolEvents, EventIds(c), e);
    IdsAre(c);
    hide ToolErrors, EventIds, ToolIds, Strip, IsEvent;
  }

  lemma {:induction false} TimelineReports(c: CasePack, e: LintError)
    ensures e in TimelineErrors(c.timeline, 1, {}, EventIds(c), ToolIds(c)) <==>
            ((e.UnknownEvent? && e.where == Timeline) || (e.UnknownToolEvent? && e.where == Timeline)
             || e.DuplicateTimelineId? || e.OrderBroken?) && Reported(c, e)
  {
    TimelineErrorsMean(c.timeline, 1, {}, EventIds(c), ToolIds(c), e);
    hide TimelineErrors, Reported, EntryReports, EventIds, ToolIds;
    forall i | 0 <= i < |c.timeline| && EntryReports(c.timeline, i, 1, {}, EventIds(c), ToolIds(c), e)
      ensures Reported(c, e) && OfTimeline(e)
    {
      EntryIsReported(c, i, e);
    }
    if Reported(c, e) && OfTimeline(e) {
      var i := ReportedEntry(c, e);
    }
  }

  predicate OfTimeline(e: LintError) {
    || (e.UnknownEvent? && e.where == Timeline) || (e.UnknownToolEvent? && e.where == Timeline)
    || e.DuplicateTimelineId? || e.OrderBroken?
  }

  lemma {:induction false} EntryIsReported(c: CasePack, i: int, e: LintError)
    requires 0 <= i < |c.timeline| && EntryReports(c.timeline, i, 1, {}, EventIds(c), ToolIds(c), e)
    ensures Reported(c, e) && OfTimeline(e)
  {
    IdsAre(c);
    hide EventIds, ToolIds, IsEvent, IsToolEvent;
    assert c.timeline[i] in c.timeline;
  }

  lemma {:induction false} ReportedEntry(c: CasePack, e: LintError) returns (i: int)
    requires Reported(c, e) && OfTimeline(e)
    ensures 0 <= i < |c.timeline| && EntryReports(c.timeline, i, 1, {}, EventIds(c), ToolIds(c), e)
  {
    IdsAre(c);
    hide EventIds, ToolIds, IsEvent, IsToolEvent;
    var es := c.timeline;
    match e {
      case DuplicateTimelineId(id) =>
        var k, j :| 0 <= k < j < |es| && es[k].id == es[j].id == id;
        i := j;
      case UnknownEvent(where, id, ref) =>
        var t :| t in es && t.id == id && t.kind == OfEvent && t.refId == ref;
        i :| 0 <= i < |es| && es[i] == t;
      case UnknownToolEvent(where, id, ref) =>
        var t :| t in es && t.id == id && t.kind == OfToolEvent && t.refId == ref;
        i :| 0 <= i < |es| && es[i] == t;
      case OrderBroken(id, expected, got) =>
        i :| 0 <= i < |es| && es[i].id == id && es[i].order == got && expected == ExpectedOrder(c, i)
             && got != expected;
    }
  }

  lemma {:induction false} TurningPointReports(c: CasePack, e: LintError)
    ensures e in TurningErrors(c.turningPoints, EventIds(c), ToolIds(c)) <==>
            ((e.UnknownEvent? && e.where == TurningPoints) || (e.UnknownToolEvent? && e.where == TurningPoints)
             || e.TurningPointWithoutRefs?) && Reported(c, e)
  {
    TurningErrorsMean(c.turningPoints, EventIds(c), ToolIds(c), e);
    IdsAre(c);
    hide TurningErrors, EventIds, ToolIds, IsEvent, IsToolEvent;
  }

  lemma {:induction false} LiftedItemReports(c: CasePack, e: LintError)
    ensures e in AllLiftedErrors(c) <==>
            (e.LiftedWithoutRefs? || e.UnknownTimelineRef? || e.UnknownTurningPoint?) && Reported(c, e)
  {
    LiftedErrorsMean(Questions, c.questions, TimelineIds(c), TurningPointIds(c), e);
    LiftedErrorsMean(Misconceptions, c.misconceptions, TimelineIds(c), TurningPointIds(c), e);
    LiftedErrorsMean(Resolutions, c.resolutions, TimelineIds(c), TurningPointIds(c), e);
    hide LiftedErrors;
    assert forall id :: id in TimelineIds(c) <==> exists t :: t in c.timeline && t.id == id;
    assert forall id :: id in TurningPointIds(c) <==> exists t :: t in c.turningPoints && t.id == id;
    hide TimelineIds, TurningPointIds;
  }

  /** The check an error comes from, in the order the checks are made. */
  function CheckOf(e: LintError): int {
    match e
    case DuplicateAnchor(_) => 0
    case UnsupportedPrefix(_, _, _) | UnknownEvidence(_, _, _) => 1
    case WhyMissing(_) => 2
    case DuplicateTimelineId(_) | OrderBroken(_, _, _) => 3
    case UnknownEvent(where, _, _) => if where == ToolEvents then 2 else if where == Timeline then 3 else 4
    case UnknownToolEvent(where, _, _) => if where == Timeline then 3 else 4
    case TurningPointWithoutRefs(_) => 4
    case LiftedWithoutRefs(where, _) => if where == Questions then 5 else if where == Misconceptions then 6 else 7
    case UnknownTimelineRef(where, _, _) => if where == Questions then 5 else if where == Misconceptions then 6 else 7
    case UnknownTurningPoint(where, _, _) => if where == Questions then 5 else if where == Misconceptions then 6 else 7
  }

  predicate InOrder(es: seq<LintError>, first: int, last: int) {
    && (forall e :: e in es ==> first <= CheckOf(e) <= last)
    && (forall i, j :: 0 <= i < j < |es| ==> CheckOf(es[i]) <= CheckOf(es[j]))
  }

  lemma {:induction false} OfOneCheck(es: seq<LintError>, k: int)
    requires forall e :: e in es ==> CheckOf(e) == k
    ensures InOrder(es, k, k)
  {
    hide CheckOf;
    assert forall i :: 0 <= i < |es| ==> es[i] in es;
  }

  lemma {:induction false} ChecksInOrder(a: seq<LintError>, b: seq<LintError>, k: int)
    requires 0 <= k && InOrder(a, 0, k) && InOrder(b, k + 1, k + 1)
    ensures InOrder(a + b, 0, k + 1)
  {
    hide CheckOf;
    var es := a + b;
    assert forall i :: 0 <= i < |a| ==> es[i] == a[i] && a[i] in a;
    assert forall i :: |a| <= i < |es| ==> es[i] == b[i - |a|] && b[i - |a|] in b;
    forall e | e in es ensures 0 <= CheckOf(e) <= k + 1 {
      assert e in a || e in b;
    }
    forall i, j | 0 <= i < j < |es| ensures CheckOf(es[i]) <= CheckOf(es[j]) {
      assert es[i] in a || i >= |a|;
      assert es[j] in b || j < |a|;
    }
  }

  /** The errors come check by check: anchors, evidence, tool events, timeline, turning points, and the three lifted
      collections. */
  lemma {:induction false} ReportsComeInOrder(c: CasePack)
    ensures forall i, j :: 0 <= i < j < |Lint(c)| ==> CheckOf(Lint(c)[i]) <= CheckOf(Lint(c)[j])
  {
    var anchors := DuplicateErrors(AllAnchors(c, PREFIXES), {});
    var evidence := AllEvidenceErrors(EvidenceBacked(c), Members(AllAnchors(c, PREFIXES)));
    var tools := ToolErrors(c.toolEvents, EventIds(c));
    var timeline := TimelineErrors(c.timeline, 1, {}, EventIds(c), ToolIds(c));
    var turning := TurningErrors(c.turningPoints, EventIds(c), ToolIds(c));
    PartsAreOfOneCheck(c);
    var questions := LiftedErrors(Questions, c.questions, TimelineIds(c), TurningPointIds(c));
    var misconceptions := LiftedErrors(Misconceptions, c.misconceptions, TimelineIds(c), TurningPointIds(c));
    var resolutions := LiftedErrors(Resolutions, c.resolutions, TimelineIds(c), TurningPointIds(c));
    hide AllAnchors, DuplicateErrors, AllEvidenceErrors, ToolErrors, TimelineErrors, TurningErrors, LiftedErrors;
    hide EvidenceBacked, EventIds, ToolIds, Members, CheckOf, InOrder;
    ChecksInOrder(anchors, evidence, 0);
    ChecksInOrder(anchors + evidence, tools, 1);
    ChecksInOrder(anchors + evidence + tools, timeline, 2);
    ChecksInOrder(anchors + evidence + tools + timeline, turning, 3);
    ChecksInOrder(anchors + evidence + tools + timeline + turning, questions, 4);
    ChecksInOrder(anchors + evidence + tools + timeline + turning + questions, misconceptions, 5);
    ChecksInOrder(anchors + evidence + tools + timeline + turning + questions + misconceptions, resolutions, 6);
    assert Lint(c) == anchors + evidence + tools + timeline + turning + questions + misconceptions + resolutions;
    OrderOfAll(Lint(c), 7);
  }

  lemma {:induction false} OrderOfAll(es: seq<LintError>, last: int)
    requires InOrder(es, 0, last)
    ensures forall i, j :: 0 <= i < j < |es| ==> CheckOf(es[i]) <= CheckOf(es[j])
  {
  }

  lemma {:induction false} PartsAreOfOneCheck(c: CasePack)
    ensures InOrder(DuplicateErrors(AllAnchors(c, PREFIXES), {}), 0, 0)
    ensures InOrder(AllEvidenceErrors(EvidenceBacked(c), Members(AllAnchors(c, PREFIXES))), 1, 1)
    ensures InOrder(ToolErrors(c.toolEvents, EventIds(c)), 2, 2)
    ensures InOrder(TimelineErrors(c.timeline, 1, {}, EventIds(c), ToolIds(c)), 3, 3)
    ensures InOrder(TurningErrors(c.turningPoints, EventIds(c), ToolIds(c)), 4, 4)
    ensures InOrder(LiftedErrors(Questions, c.questions, TimelineIds(c), TurningPointIds(c)), 5, 5)
    ensures InOrder(LiftedErrors(Misconceptions, c.misconceptions, TimelineIds(c), TurningPointIds(c)), 6, 6)
    ensures InOrder(LiftedErrors(Resolutions, c.resolutions, TimelineIds(c), TurningPointIds(c)), 7, 7)
  {
    forall e {:trigger CheckOf(e)}
      ensures e in DuplicateErrors(AllAnchors(c, PREFIXES), {}) ==> CheckOf(e) == 0
      ensures e in AllEvidenceErrors(EvidenceBacked(c), Members(AllAnchors(c, PREFIXES))) ==> CheckOf(e) == 1
      ensures e in ToolErrors(c.toolEvents, EventIds(c)) ==> CheckOf(e) == 2
      ensures e in TimelineErrors(c.timeline, 1, {}, EventIds(c), ToolIds(c)) ==> CheckOf(e) == 3
      ensures e in TurningErrors(c.turningPoints, EventIds(c), ToolIds(c)) ==> CheckOf(e) == 4
    {
      AnchorReports(c, e);
      EvidenceReports(c, e);
      ToolEventReports(c, e);
      TimelineReports(c, e);
      TurningPointReports(c, e);
      hide AllAnchors, DuplicateErrors, AllEvidenceErrors, ToolErrors, TimelineErrors, TurningErrors, Reported;
    }
    hide AllAnchors, DuplicateErrors, AllEvidenceErrors, ToolErrors, TimelineErrors, TurningErrors, Reported;
    hide EvidenceBacked, EventIds, ToolIds, Members, CheckOf, InOrder;
    OfOneCheck(DuplicateErrors(AllAnchors(c, PREFIXES), {}), 0);
    OfOneCheck(AllEvidenceErrors(EvidenceBacked(c), Members(AllAnchors(c, PREFIXES))), 1);
    OfOneCheck(ToolErrors(c.toolEvents, EventIds(c)), 2);
    OfOneCheck(TimelineErrors(c.timeline, 1, {}, EventIds(c), ToolIds(c)), 3);
    OfOneCheck(TurningErrors(c.turningPoints, EventIds(c), ToolIds(c)), 4);
    LiftedOfOneCheck(Questions, c.questions, TimelineIds(c), TurningPointIds(c), 5);
    LiftedOfOneCheck(Misconceptions, c.misconceptions, TimelineIds(c), TurningPointIds(c), 6);
    LiftedOfOneCheck(Resolutions, c.resolutions, TimelineIds(c), TurningPointIds(c), 7);
  }

  lemma {:induction false} LiftedOfOneCheck(
      where: Collection, ls: seq<LiftedItem>, timelineIds: set<string>, turningIds: set<string>, k: int)
    requires k == if where == Questions then 5 else if where == Misconceptions then 6 else 7
    ensures InOrder(LiftedErrors(where, ls, timelineIds, turningIds), k, k)
  {
    forall e | e in LiftedErrors(where, ls, timelineIds, turningIds) ensures CheckOf(e) == k {
      LiftedErrorsMean(where, ls, timelineIds, turningIds, e);
      hide LiftedErrors;
    }
    OfOneCheck(LiftedErrors(where, ls, timelineIds, turningIds), k);
  }
}
