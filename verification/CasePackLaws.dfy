/** The linter finds no error exactly in well-formed case packs. */
module CasePackLaws {
  import opened CasePackLint
  import opened Text

  // ----- Well-formed case packs -----

  predicate Distinct(ids: seq<string>) {
    forall i, j :: 0 <= i < j < |ids| ==> ids[i] != ids[j]
  }

  predicate AnchorsAreUnique(c: CasePack) {
    forall p: Prefix :: Distinct(AnchoredIds(c, p))
  }

  /** The reference is the anchor of some item of the pack. */
  ghost predicate Resolves(c: CasePack, ref: string) {
    exists p: Prefix, id: string :: id in AnchoredIds(c, p) && ref == Anchor(p, id)
  }

  ghost predicate EvidenceResolves(c: CasePack) {
    forall b :: b in EvidenceBacked(c) ==> forall ref :: ref in b.refs ==> Resolves(c, ref)
  }

  predicate AllKnown(refs: seq<string>, known: set<string>) {
    forall ref :: ref in refs ==> ref in known
  }

  predicate ToolsAreComplete(c: CasePack) {
    forall t :: t in c.toolEvents ==>
      && AllKnown(t.linkedEventIds, EventIds(c))
      && (t.kept ==> t.whyItMatters.Some? && !Blank(t.whyItMatters.value))
  }

  predicate DistinctEntries(es: seq<TimelineEntry>) {
    forall i, j :: 0 <= i < j < |es| ==> es[i].id != es[j].id
  }

  predicate CountFrom(es: seq<TimelineEntry>, first: int) {
    forall i :: 0 <= i < |es| ==> es[i].order == first + i
  }

  predicate EntriesResolve(es: seq<TimelineEntry>, eventIds: set<string>, toolIds: set<string>) {
    forall e :: e in es ==> e.refId in if e.kind.OfEvent? then eventIds else toolIds
  }

  /** Timeline ids are unique, orders count from 1, and each entry points at an item of its kind. */
  predicate TimelineIsSound(c: CasePack) {
    DistinctEntries(c.timeline) && CountFrom(c.timeline, 1) && EntriesResolve(c.timeline, EventIds(c), ToolIds(c))
  }

  predicate TurningPointsResolve(c: CasePack) {
    forall t :: t in c.turningPoints ==>
      && (t.eventIds != [] || t.toolEventIds != [])
      && AllKnown(t.eventIds, EventIds(c)) && AllKnown(t.toolEventIds, ToolIds(c))
  }

  predicate LiftedResolve(ls: seq<LiftedItem>, timelineIds: set<string>, turningIds: set<string>) {
    forall l :: l in ls ==>
      && (l.timelineRefs != [] || l.turningPointRefs != [])
      && AllKnown(l.timelineRefs, timelineIds) && AllKnown(l.turningPointRefs, turningIds)
  }

  ghost predicate WellFormed(c: CasePack) {
    && AnchorsAreUnique(c) && EvidenceResolves(c) && ToolsAreComplete(c) && TimelineIsSound(c)
    && TurningPointsResolve(c)
    && LiftedResolve(c.questions, TimelineIds(c), TurningPointIds(c))
    && LiftedResolve(c.misconceptions, TimelineIds(c), TurningPointIds(c))
    && LiftedResolve(c.resolutions, TimelineIds(c), TurningPointIds(c))
  }

  // ----- Anchors -----

  lemma {:induction false} PrefixBeforeColon(prefix: string, id: string)
    requires ':' !in prefix
    ensures BeforeColon(prefix + ":" + id) == prefix
  {
    if prefix == "" {
      assert prefix + ":" + id == ":" + id;
    } else {
      assert (prefix + ":" + id)[1..] == prefix[1..] + ":" + id;
      PrefixBeforeColon(prefix[1..], id);
    }
  }

  lemma {:induction false} PrefixesDiffer(p: Prefix, q: Prefix)
    ensures ':' !in PrefixText(p) && Supported(PrefixText(p))
    ensures PrefixText(p) == PrefixText(q) ==> p == q
  {
  }

  /** An anchor tells its collection and its id. */
  lemma {:induction false} AnchorIsInjective(p: Prefix, i: string, q: Prefix, j: string)
    ensures Supported(BeforeColon(Anchor(p, i)))
    ensures Anchor(p, i) == Anchor(q, j) <==> p == q && i == j
  {
    PrefixesDiffer(p, q);
    PrefixesDiffer(q, p);
    PrefixBeforeColon(PrefixText(p), i);
    PrefixBeforeColon(PrefixText(q), j);
    hide BeforeColon, Supported, PrefixText;
    if Anchor(p, i) == Anchor(q, j) {
      var n := |PrefixText(p)| + 1;
      assert Anchor(p, i)[n..] == i && Anchor(q, j)[n..] == j;
    }
  }

  lemma {:induction false} AnchorsOf(c: CasePack, ps: seq<Prefix>, anchor: string)
    ensures anchor in AllAnchors(c, ps)
       <==> exists p, id :: p in ps && id in AnchoredIds(c, p) && anchor == Anchor(p, id)
  {
    hide Anchor, AnchoredIds;
    if ps != [] {
      AnchorsOf(c, ps[1..], anchor);
      assert ps == [ps[0]] + ps[1..];
      var ids := AnchoredIds(c, ps[0]);
      var own := Anchors(ps[0], ids);
      assert anchor in own <==> exists id :: id in ids && anchor == Anchor(ps[0], id) by {
        if anchor in own {
          var i :| 0 <= i < |own| && own[i] == anchor;
          assert ids[i] in ids;
        }
        if id :| id in ids && anchor == Anchor(ps[0], id) {
          var i :| 0 <= i < |ids| && ids[i] == id;
          assert own[i] == anchor;
        }
      }
    }
  }

  lemma {:induction false} AllPrefixes(p: Prefix)
    ensures p in PREFIXES
  {
  }

  lemma {:induction false} IndexedExactlyWhenResolved(c: CasePack, ref: string)
    ensures ref in AllAnchors(c, PREFIXES) <==> Resolves(c, ref)
    ensures Resolves(c, ref) ==> Supported(BeforeColon(ref))
  {
    AnchorsOf(c, PREFIXES, ref);
    forall p: Prefix { AllPrefixes(p); }
    if Resolves(c, ref) {
      var p: Prefix, id: string :| id in AnchoredIds(c, p) && ref == Anchor(p, id);
      AnchorIsInjective(p, id, p, id);
    }
  }

  // ----- Each part of the linter -----

  lemma {:induction false} NoDuplicateAnchors(anchors: seq<string>, index: set<string>)
    ensures DuplicateErrors(anchors, index) == [] <==> Distinct(anchors) && forall a :: a in anchors ==> a !in index
    decreases |anchors|
  {
    if anchors != [] {
      var rest := anchors[1..];
      assert anchors == [anchors[0]] + rest;
      NoDuplicateAnchors(rest, index + {anchors[0]});
      assert Distinct(anchors) <==> Distinct(rest) && anchors[0] !in rest;
    }
  }

  lemma {:induction false} DistinctAnchors(c: CasePack, ps: seq<Prefix>)
    requires forall i, j :: 0 <= i < j < |ps| ==> ps[i] != ps[j]
    ensures Distinct(AllAnchors(c, ps)) <==> forall p :: p in ps ==> Distinct(AnchoredIds(c, p))
  {
    if ps != [] {
      var p, ids, rest := ps[0], AnchoredIds(c, ps[0]), AllAnchors(c, ps[1..]);
      assert ps == [p] + ps[1..];
      DistinctAnchors(c, ps[1..]);
      DistinctWithin(p, ids);
      forall a | a in rest ensures a !in Anchors(p, ids) {
        AnchorsOf(c, ps[1..], a);
        var q, j :| q in ps[1..] && j in AnchoredIds(c, q) && a == Anchor(q, j);
        forall i: string { AnchorIsInjective(p, i, q, j); }
      }
      DistinctConcat(Anchors(p, ids), rest);
    }
  }

  lemma {:induction false} DistinctWithin(p: Prefix, ids: seq<string>)
    ensures Distinct(Anchors(p, ids)) <==> Distinct(ids)
  {
    forall i: string, j: string { AnchorIsInjective(p, i, p, j); }
    hide Anchor, BeforeColon, Supported;
    var anchors := Anchors(p, ids);
    assert forall i, j :: 0 <= i < j < |ids| ==> (anchors[i] == anchors[j] <==> ids[i] == ids[j]);
  }

  lemma {:induction false} DistinctConcat(a: seq<string>, b: seq<string>)
    requires forall x :: x in b ==> x !in a
    ensures Distinct(a + b) <==> Distinct(a) && Distinct(b)
  {
    var s := a + b;
    assert forall i :: 0 <= i < |a| ==> s[i] == a[i] && a[i] in a;
    assert forall i :: 0 <= i < |b| ==> s[|a| + i] == b[i] && b[i] in b;
  }

  lemma {:induction false} NoAnchorErrors(c: CasePack)
    ensures DuplicateErrors(AllAnchors(c, PREFIXES), {}) == [] <==> AnchorsAreUnique(c)
  {
    NoDuplicateAnchors(AllAnchors(c, PREFIXES), {});
    DistinctAnchors(c, PREFIXES);
    forall p: Prefix { AllPrefixes(p); }
    hide AllAnchors, AnchoredIds, Distinct, DuplicateErrors;
  }

  lemma {:induction false} NoEvidenceErrorsIn(c: CasePack, b: Backed, refs: seq<string>)
    ensures EvidenceErrors(b, refs, Members(AllAnchors(c, PREFIXES))) == []
       <==> forall ref :: ref in refs ==> Resolves(c, ref)
  {
    hide AllAnchors, Resolves, BeforeColon, Supported;
    if refs != [] {
      IndexedExactlyWhenResolved(c, refs[0]);
      NoEvidenceErrorsIn(c, b, refs[1..]);
      assert refs == [refs[0]] + refs[1..];
    }
  }

  lemma {:induction false} NoEvidenceErrors(c: CasePack, bs: seq<Backed>)
    ensures AllEvidenceErrors(bs, Members(AllAnchors(c, PREFIXES))) == []
       <==> forall b :: b in bs ==> forall ref :: ref in b.refs ==> Resolves(c, ref)
  {
    hide AllAnchors, Resolves, EvidenceErrors;
    if bs != [] {
      NoEvidenceErrorsIn(c, bs[0], bs[0].refs);
      NoEvidenceErrors(c, bs[1..]);
      assert bs == [bs[0]] + bs[1..];
    }
  }

  lemma {:induction false} NoUnknown(refs: seq<string>, known: set<string>, error: string -> LintError)
    ensures Unknown(refs, known, error) == [] <==> AllKnown(refs, known)
  {
    if refs != [] {
      NoUnknown(refs[1..], known, error);
      assert refs == [refs[0]] + refs[1..];
    }
  }

  lemma {:induction false} NoToolErrors(ts: seq<ToolEvent>, eventIds: set<string>)
    ensures ToolErrors(ts, eventIds) == []
       <==> forall t :: t in ts ==> AllKnown(t.linkedEventIds, eventIds)
                                    && (t.kept ==> t.whyItMatters.Some? && !Blank(t.whyItMatters.value))
  {
    if ts != [] {
      var t := ts[0];
      NoUnknown(t.linkedEventIds, eventIds, AsEvent(ToolEvents, t.id));
      NoToolErrors(ts[1..], eventIds);
      assert ts == [t] + ts[1..];
      if t.whyItMatters.Some? {
        StripCuts(t.whyItMatters.value);
      }
      hide Unknown, Strip, Blank, AllKnown;
    }
  }

  lemma {:induction false} NoTimelineErrors(
      es: seq<TimelineEntry>, expected: int, seen: set<string>, eventIds: set<string>, toolIds: set<string>)
    ensures TimelineErrors(es, expected, seen, eventIds, toolIds) == []
       <==> DistinctEntries(es) && CountFrom(es, expected) && EntriesResolve(es, eventIds, toolIds)
            && Unseen(es, seen)
    decreases |es|
  {
    if es != [] {
      hide DistinctEntries, CountFrom, EntriesResolve, Unseen, TimelineErrors, TimelineRefErrors;
      var e, rest := es[0], es[1..];
      NoTimelineErrors(rest, e.order + 1, seen + {e.id}, eventIds, toolIds);
      TimelineErrorsStep(es, expected, seen, eventIds, toolIds);
      assert es == [e] + rest;
      DistinctStep(e, rest);
      CountStep(e, rest, expected);
      ResolveStep(e, rest, eventIds, toolIds);
      UnseenStep(e, rest, seen);
    }
  }

  predicate Unseen(es: seq<TimelineEntry>, seen: set<string>) {
    forall e :: e in es ==> e.id !in seen
  }

  lemma {:induction false} TimelineErrorsStep(
      es: seq<TimelineEntry>, expected: int, seen: set<string>, eventIds: set<string>, toolIds: set<string>)
    requires es != []
    ensures TimelineErrors(es, expected, seen, eventIds, toolIds) == []
       <==> && es[0].id !in seen && es[0].order == expected && TimelineRefErrors(es[0], eventIds, toolIds) == []
            && TimelineErrors(es[1..], es[0].order + 1, seen + {es[0].id}, eventIds, toolIds) == []
  {
  }

  lemma {:induction false} ResolveStep(
      e: TimelineEntry, rest: seq<TimelineEntry>, eventIds: set<string>, toolIds: set<string>)
    ensures EntriesResolve([e] + rest, eventIds, toolIds)
       <==> TimelineRefErrors(e, eventIds, toolIds) == [] && EntriesResolve(rest, eventIds, toolIds)
  {
    var es := [e] + rest;
    assert e in es && forall f :: f in es <==> f == e || f in rest;
  }

  lemma {:induction false} UnseenStep(e: TimelineEntry, rest: seq<TimelineEntry>, seen: set<string>)
    ensures Unseen([e] + rest, seen) && (forall f :: f in rest ==> f.id != e.id)
       <==> e.id !in seen && Unseen(rest, seen + {e.id})
  {
    var es := [e] + rest;
    assert e in es && forall f :: f in es <==> f == e || f in rest;
  }

  lemma {:induction false} DistinctStep(e: TimelineEntry, rest: seq<TimelineEntry>)
    ensures DistinctEntries([e] + rest) <==> DistinctEntries(rest) && forall f :: f in rest ==> f.id != e.id
  {
    var es := [e] + rest;
    assert es[0] == e;
    assert forall i :: 0 < i < |es| ==> es[i] == rest[i - 1] && rest[i - 1] in rest;
    if DistinctEntries(es) {
      assert forall i :: 0 <= i < |rest| ==> rest[i] == es[i + 1];
    }
  }

  lemma {:induction false} CountStep(e: TimelineEntry, rest: seq<TimelineEntry>, expected: int)
    ensures CountFrom([e] + rest, expected) <==> e.order == expected && CountFrom(rest, e.order + 1)
  {
    var es := [e] + rest;
    assert es[0] == e;
    assert forall i :: 0 < i < |es| ==> es[i] == rest[i - 1];
    if CountFrom(es, expected) {
      assert forall i :: 0 <= i < |rest| ==> rest[i] == es[i + 1];
    }
  }

  lemma {:induction false} NoTurningErrors(ts: seq<TurningPoint>, eventIds: set<string>, toolIds: set<string>)
    ensures TurningErrors(ts, eventIds, toolIds) == []
       <==> forall t :: t in ts ==> (t.eventIds != [] || t.toolEventIds != [])
                                    && AllKnown(t.eventIds, eventIds) && AllKnown(t.toolEventIds, toolIds)
  {
    if ts != [] {
      var t := ts[0];
      NoUnknown(t.eventIds, eventIds, AsEvent(TurningPoints, t.id));
      NoUnknown(t.toolEventIds, toolIds, AsToolEvent(TurningPoints, t.id));
      NoTurningErrors(ts[1..], eventIds, toolIds);
      assert ts == [t] + ts[1..];
      hide Unknown, AllKnown;
    }
  }

  lemma {:induction false} NoLiftedErrors(
      where: Collection, ls: seq<LiftedItem>, timelineIds: set<string>, turningIds: set<string>)
    ensures LiftedErrors(where, ls, timelineIds, turningIds) == [] <==> LiftedResolve(ls, timelineIds, turningIds)
  {
    if ls != [] {
      var l := ls[0];
      NoUnknown(l.timelineRefs, timelineIds, AsTimelineRef(where, l.id));
      NoUnknown(l.turningPointRefs, turningIds, AsTurningPoint(where, l.id));
      NoLiftedErrors(where, ls[1..], timelineIds, turningIds);
      assert ls == [l] + ls[1..];
      hide Unknown, AllKnown;
    }
  }

  // ----- The whole linter -----

  /** Sound and complete: a pack has no lint error exactly when it is well formed. */
  lemma {:induction false} NoErrorsExactlyWhenWellFormed(c: CasePack)
    ensures Lint(c) == [] <==> WellFormed(c)
  {
    NoAnchorErrors(c);
    NoEvidenceErrors(c, EvidenceBacked(c));
    NoToolErrors(c.toolEvents, EventIds(c));
    NoTimelineErrors(c.timeline, 1, {}, EventIds(c), ToolIds(c));
    NoTurningErrors(c.turningPoints, EventIds(c), ToolIds(c));
    NoLiftedErrors(Questions, c.questions, TimelineIds(c), TurningPointIds(c));
    NoLiftedErrors(Misconceptions, c.misconceptions, TimelineIds(c), TurningPointIds(c));
    NoLiftedErrors(Resolutions, c.resolutions, TimelineIds(c), TurningPointIds(c));
    hide AllAnchors, DuplicateErrors, AllEvidenceErrors, ToolErrors, TimelineErrors, TurningErrors, LiftedErrors;
    hide EvidenceBacked, EventIds, ToolIds, TimelineIds, TurningPointIds, Resolves, AnchorsAreUnique, LiftedResolve;
  }
}
