/** What the canonical files say after a write, read by the heading lines and markers as they stand in the files. */
module WrittenText {
  import opened Wrappers
  import opened Text
  import opened Sections
  import opened Notes
  import opened Writer
  import opened PromotionText

  predicate ReadsAt(t: string, i: int, p: string) {
    0 <= i && i + |p| <= |t| && t[i..i + |p|] == p
  }

  predicate OpensLine(t: string, i: int)
    requires i <= |t|
  {
    i <= 0 || t[i - 1] == '\n'
  }

  // ----- Where a section is -----

  /** A section begins at its first heading line and ends in front of the next line that starts with "# ". */
  lemma {:induction false} SectionIsBetweenHeadings(t: string, head: string)
    ensures match FindSection(t, head)
            case None => forall i :: ReadsAt(t, i, head) ==> !OpensLine(t, i)
            case Some(s) =>
              && OpensLine(t, s.start) && ReadsAt(t, s.start, head) && s.body == s.start + |head|
              && (forall i :: ReadsAt(t, i, head) && OpensLine(t, i) ==> s.start <= i)
              && (s.end == |t| || (OpensLine(t, s.end) && ReadsAt(t, s.end, "# ")))
              && (forall j :: s.body <= j < s.end && ReadsAt(t, j, "# ") ==> !OpensLine(t, j))
              && SectionBody(t, head) == Some(t[s.body..s.end])
  {
    forall i | 0 <= i <= |t| ensures SectionAt(t, i, head) <==> ReadsAt(t, i, head) && OpensLine(t, i) {
    }
    forall i | 0 <= i <= |t| ensures HeadingAt(t, i) <==> ReadsAt(t, i, "# ") && OpensLine(t, i) {
      HeadingReads(t, i);
    }
  }

  lemma {:induction false} HeadingReads(t: string, i: nat)
    requires i <= |t|
    ensures HeadingAt(t, i) <==> ReadsAt(t, i, "# ") && OpensLine(t, i)
  {
    if i + 2 <= |t| {
      assert t[i..i + 2] == [t[i], t[i + 1]];
    }
  }

  // ----- Where a marker's blocks are -----

  /** A block runs from the first start marker to the first end marker behind it. */
  lemma {:induction false} BlockIsBetweenMarkers(t: string, marker: string)
    ensures var open, close := "<!-- " + marker + ":start -->", "<!-- " + marker + ":end -->";
            match NextBlock(t, marker)
            case None => forall i, j :: ReadsAt(t, i, open) && i + |open| <= j ==> !ReadsAt(t, j, close)
            case Some(b) =>
              && ReadsAt(t, b.start, open) && b.start + |open| <= b.end - |close| && ReadsAt(t, b.end - |close|, close)
              && (forall i :: ReadsAt(t, i, open) ==> b.start <= i)
              && (forall j :: b.start + |open| <= j && ReadsAt(t, j, close) ==> b.end - |close| <= j)
  {
    var open, close := "<!-- " + marker + ":start -->", "<!-- " + marker + ":end -->";
    forall i, p ensures Occurs(t, i, p) <==> ReadsAt(t, i, p) {
    }
    FindTokFacts(t, open, 0);
    if FindTok(t, open, 0).Some? {
      FindTokFacts(t, close, FindTok(t, open, 0).value + |open|);
    }
  }

  /** The block written for a marker. */
  lemma {:induction false} BlockReads(marker: string, body: string)
    ensures Block(marker, body) ==
            ("<!-- " + marker + ":start -->\n") + Strip(body) + ("\n<!-- " + marker + ":end -->")
  {
    var b := Strip(body);
    hide Strip;
    assert "<!-- " + marker + ":start -->\n" == StartTok(marker) + "\n";
    assert "\n<!-- " + marker + ":end -->" == "\n" + EndTok(marker);
    assert (StartTok(marker) + "\n") + b + ("\n" + EndTok(marker)) == Block(marker, body);
  }

  /** The texts around the blocks and the blocks, taken in turns. */
  function InTurns(gaps: seq<string>, blocks: seq<string>): string
    requires |gaps| == |blocks| + 1
  {
    if blocks == [] then gaps[0] else gaps[0] + (blocks[0] + InTurns(gaps[1..], blocks[1..]))
  }

  /** A text is its blocks and what stands around them, which holds no further block in front of the last one. */
  lemma {:induction false} BlocksMakeUpTheText(t: string, marker: string)
    ensures |GapsOf(t, marker)| == |BlocksOf(t, marker)| + 1
    ensures InTurns(GapsOf(t, marker), BlocksOf(t, marker)) == t
    decreases |t|
  {
    hide NextBlock;
    var next := NextBlock(t, marker);
    if next.Some? {
      var b := next.value;
      BlocksMakeUpTheText(t[b.end..], marker);
      var gaps, blocks := GapsOf(t[b.end..], marker), BlocksOf(t[b.end..], marker);
      assert ([t[..b.start]] + gaps)[1..] == gaps && ([t[b.start..b.end]] + blocks)[1..] == blocks;
      assert t == t[..b.start] + (t[b.start..b.end] + t[b.end..]);
    }
  }

  // ----- What a write leaves under each heading line -----

  /** After a write whose texts go in as they are, every replaced section holds its patch's stripped text and a blank
      line under its own heading line. */
  lemma {:induction false} WrittenUnderItsHeading(files: Files, line: string, ps: seq<Patch>, p: Patch)
    requires Write(files, line, ps).error.None? && p in ps && p.shape == SectionReplace
    requires File(line, p.target) in files && DistinctSections(PatchesFor(ps, p.target))
    requires forall q :: q in PatchesFor(ps, p.target) ==> PlainPatch(files[File(line, p.target)], q)
    ensures File(line, p.target) in Write(files, line, ps).files
    ensures var t := Write(files, line, ps).files[File(line, p.target)]; var text := Some(Strip(p.body) + "\n\n");
            match p.section
            case CurrentStatus => SectionBody(t, "# Current Status\n") == text
            case CurrentState => SectionBody(t, "# Current State\n") == text
            case LatestCheckpoint => SectionBody(t, "# Latest Checkpoint\n") == text
            case LatestCompleted => SectionBody(t, "# Latest Completed\n") == text
            case NextAction => SectionBody(t, "# Next Action\n") == text
            case NotesSection => SectionBody(t, "# Notes\n") == text
  {
    hide ApplyAll, PlainPatch, Patched, SectionBody, Strip;
    var mine := PatchesFor(ps, p.target);
    OwnPatches(ps, p);
    WriteMeaning(files, line, ps);
    PatchesRewriteTheirSections(files[File(line, p.target)], mine);
    BodiesOf(files[File(line, p.target)], ApplyAll(files[File(line, p.target)], mine).value, mine, p);
  }

  lemma {:induction false} OwnPatches(ps: seq<Patch>, p: Patch)
    requires p in ps
    ensures p in PatchesFor(ps, p.target)
  {
    if ps[0] != p {
      OwnPatches(ps[1..], p);
    }
  }

  /** The error of a failed write is that of the first file named, or else that of the other one. */
  lemma {:induction false} WriteFailsWith(files: Files, line: string, ps: seq<Patch>)
    requires Write(files, line, ps).error.Some?
    ensures ps != []
    ensures var e := Write(files, line, ps).error.value; var first := ps[0].target;
            var other := if first == TaskPlanFile then ProgressFile else TaskPlanFile;
            if FailsWith(files, line, ps, first).Some? then Some(e) == FailsWith(files, line, ps, first)
            else (exists p :: p in ps && p.target == other) && Some(e) == FailsWith(files, line, ps, other)
  {
    TargetsMeaning(ps);
    TwoTargets(files, line, TargetsOf(ps), ps);
    NoTargets(ps);
    if ps != [] {
      FirstTarget(ps);
      hide ApplyAll, TargetsOf, PatchesFor;
      if |TargetsOf(ps)| == 2 {
        var other := TargetsOf(ps)[1];
        assert other in TargetsOf(ps);
        SomePatch(ps, other);
      }
    }
  }

  lemma {:induction false} SomePatch(ps: seq<Patch>, t: Target)
    requires PatchesFor(ps, t) != []
    ensures exists p :: p in ps && p.target == t
  {
    if ps[0].target == t {
      assert ps[0] in ps;
    } else {
      SomePatch(ps[1..], t);
    }
  }

  /** The file is missing, or refuses one of its patches. */
  function FailsWith(files: Files, line: string, ps: seq<Patch>, t: Target): Option<WriteError> {
    if File(line, t) !in files then Some(MissingFile)
    else if ApplyAll(files[File(line, t)], PatchesFor(ps, t)).Err? then
      Some(ApplyAll(files[File(line, t)], PatchesFor(ps, t)).error)
    else None
  }

  /** A replacement is refused for its template before its heading line is missed. */
  lemma {:induction false} ReplacementFailsWith(t: string, p: Patch)
    requires p.shape == SectionReplace
    ensures var head := match p.section
                        case CurrentStatus => "# Current Status\n"
                        case CurrentState => "# Current State\n"
                        case LatestCheckpoint => "# Latest Checkpoint\n"
                        case LatestCompleted => "# Latest Completed\n"
                        case NextAction => "# Next Action\n"
                        case NotesSection => "# Notes\n";
            var template := Template.Parse("\\1" + Strip(p.body) + "\\n\\n", 2);
            && (ApplyPatch(t, p) == Err(MissingSection) <==>
                  template.Ok? && forall i :: ReadsAt(t, i, head) ==> !OpensLine(t, i))
            && (ApplyPatch(t, p).Err? && ApplyPatch(t, p).error != MissingSection ==>
                  template.Err? && ApplyPatch(t, p) == Err(TemplateRejected(template.error)))
  {
    SectionIsBetweenHeadings(t, HeadFor(p.section));
    hide Strip, FindSection, Template.Parse;
    assert forall s: Span :: Some(s) == FindSection(t, HeadFor(p.section)) ==> ReadsAt(t, s.start, HeadFor(p.section));
  }
}
