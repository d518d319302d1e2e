/** The canonical section writer: bounded patches, grouped by file. */
module Writer {
  import opened Wrappers
  import opened Text
  import opened Sections
  import opened Notes

  datatype Target = TaskPlanFile | ProgressFile

  datatype SectionName = CurrentStatus | CurrentState | LatestCheckpoint | LatestCompleted | NextAction | NotesSection

  datatype Shape = SectionReplace | MarkerBlockUpsert

  datatype Patch = Patch(target: Target, section: SectionName, shape: Shape, body: string, marker: Option<string>)

  /** What the patch model validates on construction. */
  predicate ValidPatch(p: Patch) {
    && !Blank(p.body)
    && (p.target.TaskPlanFile? ==> p.section.CurrentStatus? && p.shape.SectionReplace?)
    && (p.target.ProgressFile? && p.section.NotesSection? ==>
          p.shape.MarkerBlockUpsert? && p.marker.Some? && !Blank(p.marker.value))
    && (p.target.ProgressFile? && !p.section.NotesSection? && !p.section.CurrentStatus? ==> p.shape.SectionReplace?)
  }

  function HeadFor(s: SectionName): string {
    match s
    case CurrentStatus => "# Current Status\n"
    case LatestCompleted => "# Latest Completed\n"
    case CurrentState => "# Current State\n"
    case NextAction => "# Next Action\n"
    case LatestCheckpoint => "# Latest Checkpoint\n"
    case NotesSection => NOTES
  }

  lemma {:induction false} HeadsAreHeads(s: SectionName)
    ensures IsHead(HeadFor(s))
  {
  }

  lemma {:induction false} HeadsDiffer(s: SectionName, other: SectionName)
    requires s != other
    ensures HeadFor(s) != HeadFor(other)
  {
    assert |HeadFor(s)| != |HeadFor(other)|;
  }

  function ApplyPatch(text: string, p: Patch): Result<string, WriteError> {
    if p.shape.SectionReplace? then ReplaceSection(text, HeadFor(p.section), p.body)
    else UpsertNotes(text, if p.marker.Some? then p.marker.value else "", p.body)
  }

  function ApplyAll(text: string, ps: seq<Patch>): Result<string, WriteError>
    decreases |ps|
  {
    if ps == [] then Ok(text)
    else
      match ApplyPatch(text, ps[0])
      case Err(e) => Err(e)
      case Ok(next) => ApplyAll(next, ps[1..])
  }

  // ----- Files -----

  datatype File = File(line: string, target: Target)

  type Files = map<File, string>

  function PatchesFor(ps: seq<Patch>, t: Target): seq<Patch> {
    if ps == [] then []
    else (if ps[0].target == t then [ps[0]] else []) + PatchesFor(ps[1..], t)
  }

  /** The files the patches name, in the order a dictionary filled patch by patch lists them. */
  function TargetsOf(ps: seq<Patch>): seq<Target> {
    if ps == [] then []
    else
      var before := TargetsOf(ps[..|ps| - 1]);
      var t := ps[|ps| - 1].target;
      if t in before then before else before + [t]
  }

  datatype Outcome = Outcome(files: Files, error: Option<WriteError>)

  /** Read, patch and write one file. */
  function WriteFile(files: Files, f: File, ps: seq<Patch>): Outcome {
    if f !in files then Outcome(files, Some(MissingFile))
    else
      match ApplyAll(files[f], ps)
      case Err(e) => Outcome(files, Some(e))
      case Ok(text) => Outcome(files[f := text], None)
  }

  function WriteTargets(files: Files, line: string, targets: seq<Target>, ps: seq<Patch>): Outcome {
    if targets == [] then Outcome(files, None)
    else
      var first := WriteFile(files, File(line, targets[0]), PatchesFor(ps, targets[0]));
      if first.error.Some? then first else WriteTargets(first.files, line, targets[1..], ps)
  }

  /** `write`, once the check before it has passed. */
  function Write(files: Files, line: string, ps: seq<Patch>): Outcome {
    WriteTargets(files, line, TargetsOf(ps), ps)
  }

  /** The canonical files on disk. */
  class CanonicalSectionWriter {
    var files: Files

    constructor (initial: Files)
      ensures files == initial
    {
      files := initial;
    }

    /** `write`, once the check before it has passed: the updated files, or the error that stopped it. */
    method Apply(line: string, ps: seq<Patch>) returns (updated: seq<File>, error: Option<WriteError>)
      modifies this
      ensures Outcome(files, error) == Write(old(files), line, ps)
      ensures error.None? ==> |updated| == |TargetsOf(ps)|
      ensures error.None? ==> forall i :: 0 <= i < |updated| ==> updated[i] == File(line, TargetsOf(ps)[i])
    {
      hide ApplyAll, TargetsOf, PatchesFor;
      var order, grouped := GroupByFile(ps);
      updated, error := [], None;
      for i := 0 to |order|
        invariant WriteTargets(old(files), line, order, ps) == WriteTargets(files, line, order[i..], ps)
        invariant |updated| == i && forall j :: 0 <= j < i ==> updated[j] == File(line, order[j])
      {
        assert order[i..][0] == order[i] && order[i..][1..] == order[i + 1..];
        var path := File(line, order[i]);
        assert order[i] in order;
        if path !in files {
          error := Some(MissingFile);
          return;
        }
        var patched := PatchText(files[path], grouped[order[i]]);
        if patched.Err? {
          error := Some(patched.error);
          return;
        }
        files := files[path := patched.value];
        updated := updated + [path];
      }
    }
  }

  /** The patches of each file, files in the order they are first named. */
  method GroupByFile(ps: seq<Patch>) returns (order: seq<Target>, grouped: map<Target, seq<Patch>>)
    ensures order == TargetsOf(ps)
    ensures forall t :: t in order ==> t in grouped && grouped[t] == PatchesFor(ps, t)
  {
    hide PatchesFor, TargetsOf;
    order, grouped := [], map[];
    NoPatchYet(ps, TaskPlanFile);
    forall t: Target {
      NoPatchYet(ps, t);
    }
    for i := 0 to |ps|
      invariant order == TargetsOf(ps[..i])
      invariant forall t :: t in order <==> t in grouped
      invariant forall t :: t in grouped ==> grouped[t] == PatchesFor(ps[..i], t)
      invariant forall t :: t !in grouped ==> PatchesFor(ps[..i], t) == []
    {
      var t := ps[i].target;
      forall u: Target {
        NextPatch(ps, i, u);
      }
      if t !in grouped {
        order := order + [t];
        grouped := grouped[t := []];
      }
      grouped := grouped[t := grouped[t] + [ps[i]]];
    }
    assert ps[..|ps|] == ps;
  }

  lemma {:induction false} NoPatchYet(ps: seq<Patch>, t: Target)
    ensures TargetsOf(ps[..0]) == [] && PatchesFor(ps[..0], t) == []
  {
  }

  lemma {:induction false} NextPatch(ps: seq<Patch>, i: nat, t: Target)
    requires i < |ps|
    ensures var before, next := TargetsOf(ps[..i]), ps[i].target;
            TargetsOf(ps[..i + 1]) == if next in before then before else before + [next]
    ensures PatchesFor(ps[..i + 1], t) ==
            if ps[i].target == t then PatchesFor(ps[..i], t) + [ps[i]] else PatchesFor(ps[..i], t)
  {
    assert ps[..i + 1][..i] == ps[..i];
    PatchesForLast(ps[..i + 1], t);
  }

  method PatchText(text: string, ps: seq<Patch>) returns (r: Result<string, WriteError>)
    ensures r == ApplyAll(text, ps)
  {
    hide ApplyPatch;
    var patched := text;
    for k := 0 to |ps|
      invariant ApplyAll(text, ps) == ApplyAll(patched, ps[k..])
    {
      assert ps[k..][1..] == ps[k + 1..];
      var next := ApplyPatch(patched, ps[k]);
      if next.Err? {
        return Err(next.error);
      }
      patched := next.value;
    }
    r := Ok(patched);
  }

  // ----- Grouping by file is applying patch by patch -----

  function WriteOneByOne(files: Files, line: string, ps: seq<Patch>): Outcome {
    if ps == [] then Outcome(files, None)
    else
      var first := WriteFile(files, File(line, ps[0].target), [ps[0]]);
      if first.error.Some? then first else WriteOneByOne(first.files, line, ps[1..])
  }

  /** Every file the patches name is there and takes all its patches. */
  predicate Patchable(files: Files, line: string, ps: seq<Patch>, t: Target) {
    PatchesFor(ps, t) != [] ==> File(line, t) in files && ApplyAll(files[File(line, t)], PatchesFor(ps, t)).Ok?
  }

  /** The files after all patches: each named file patched, every other as it was. */
  function PatchedFile(files: Files, line: string, ps: seq<Patch>, t: Target): Files {
    if PatchesFor(ps, t) != [] && Patchable(files, line, ps, t) then
      files[File(line, t) := ApplyAll(files[File(line, t)], PatchesFor(ps, t)).value]
    else files
  }

  function PatchedFiles(files: Files, line: string, ps: seq<Patch>): Files {
    PatchedFile(PatchedFile(files, line, ps, TaskPlanFile), line, ps, ProgressFile)
  }

  predicate AllPatchable(files: Files, line: string, ps: seq<Patch>) {
    Patchable(files, line, ps, TaskPlanFile) && Patchable(files, line, ps, ProgressFile)
  }

  lemma {:induction false} OneByOneMeaning(files: Files, line: string, ps: seq<Patch>)
    ensures WriteOneByOne(files, line, ps).error.None? <==> AllPatchable(files, line, ps)
    ensures AllPatchable(files, line, ps) ==> WriteOneByOne(files, line, ps).files == PatchedFiles(files, line, ps)
  {
    if ps != [] {
      var first := WriteFile(files, File(line, ps[0].target), [ps[0]]);
      OneByOneMeaning(first.files, line, ps[1..]);
      FirstPatch(files, line, ps);
    }
  }

  lemma {:induction false} PatchesAfterFirst(ps: seq<Patch>, t: Target)
    requires ps != []
    ensures PatchesFor(ps, t) == if ps[0].target == t then [ps[0]] + PatchesFor(ps[1..], t) else PatchesFor(ps[1..], t)
  {
  }

  lemma {:induction false} ApplyFirst(text: string, p: Patch, rest: seq<Patch>)
    ensures ApplyAll(text, [p]) == ApplyPatch(text, p)
    ensures ApplyAll(text, [p] + rest) ==
            if ApplyPatch(text, p).Err? then ApplyPatch(text, p) else ApplyAll(ApplyPatch(text, p).value, rest)
  {
    hide ApplyPatch;
    assert ([p] + rest)[1..] == rest && [p][1..] == [];
    if ApplyPatch(text, p).Ok? {
      assert ApplyAll(ApplyPatch(text, p).value, []) == ApplyPatch(text, p);
    }
  }

  lemma {:induction false} FirstPatch(files: Files, line: string, ps: seq<Patch>)
    requires ps != []
    ensures var first := WriteFile(files, File(line, ps[0].target), [ps[0]]);
            && (first.error.Some? ==> !AllPatchable(files, line, ps))
            && (first.error.None? ==>
                  && (AllPatchable(files, line, ps) <==> AllPatchable(first.files, line, ps[1..]))
                  && (AllPatchable(files, line, ps) ==>
                        PatchedFiles(first.files, line, ps[1..]) == PatchedFiles(files, line, ps)))
  {
    hide ApplyPatch, PatchesFor, ApplyAll;
    PatchesAfterFirst(ps, TaskPlanFile);
    PatchesAfterFirst(ps, ProgressFile);
    var t := ps[0].target;
    var f := File(line, t);
    if f in files {
      ApplyFirst(files[f], ps[0], PatchesFor(ps[1..], t));
      NoPatches(ApplyAll(files[f], [ps[0]]));
    }
  }

  lemma {:induction false} NoPatches(r: Result<string, WriteError>)
    ensures r.Ok? ==> ApplyAll(r.value, []) == r
  {
  }

  lemma {:induction false} TargetsMeaning(ps: seq<Patch>)
    ensures forall t :: t in TargetsOf(ps) <==> PatchesFor(ps, t) != []
    ensures forall i, j :: 0 <= i < j < |TargetsOf(ps)| ==> TargetsOf(ps)[i] != TargetsOf(ps)[j]
    ensures |TargetsOf(ps)| <= 2
  {
    if ps != [] {
      TargetsMeaning(ps[..|ps| - 1]);
      PatchesForLast(ps, TaskPlanFile);
      PatchesForLast(ps, ProgressFile);
    }
    AtMostTwo(TargetsOf(ps));
  }

  lemma {:induction false} AtMostTwo(ts: seq<Target>)
    requires forall i, j :: 0 <= i < j < |ts| ==> ts[i] != ts[j]
    ensures |ts| <= 2
  {
    assert |ts| > 2 ==> ts[0] != ts[1] && ts[1] != ts[2] && ts[0] != ts[2];
  }

  lemma {:induction false} PatchesForLast(ps: seq<Patch>, t: Target)
    requires ps != []
    ensures var front, last := ps[..|ps| - 1], ps[|ps| - 1];
            PatchesFor(ps, t) == PatchesFor(front, t) + if last.target == t then [last] else []
  {
    var front, last := ps[..|ps| - 1], ps[|ps| - 1];
    assert front + [last] == ps && [last][1..] == [];
    PatchesForSplit(front, [last], t);
    assert PatchesFor([last], t) == if last.target == t then [last] else [];
  }

  lemma {:induction false} PatchesForSplit(a: seq<Patch>, b: seq<Patch>, t: Target)
    ensures PatchesFor(a + b, t) == PatchesFor(a, t) + PatchesFor(b, t)
  {
    if a == [] {
      assert a + b == b;
    } else {
      assert (a + b)[1..] == a[1..] + b;
      PatchesForSplit(a[1..], b, t);
    }
  }

  lemma {:induction false} WriteMeaning(files: Files, line: string, ps: seq<Patch>)
    ensures Write(files, line, ps).error.None? <==> AllPatchable(files, line, ps)
    ensures AllPatchable(files, line, ps) ==> Write(files, line, ps).files == PatchedFiles(files, line, ps)
  {
    hide ApplyAll, TargetsOf, PatchesFor;
    var ts := TargetsOf(ps);
    TargetsMeaning(ps);
    TwoTargets(files, line, ts, ps);
    assert TaskPlanFile in ts <==> PatchesFor(ps, TaskPlanFile) != [];
    assert ProgressFile in ts <==> PatchesFor(ps, ProgressFile) != [];
    if |ts| == 1 {
      assert ts[0] in ts && forall t :: t in ts ==> t == ts[0];
    } else if |ts| == 2 {
      assert ts[0] in ts && ts[1] in ts && ts[0] != ts[1];
    }
  }

  /** Writing at most two files, spelled out. */
  lemma {:induction false} TwoTargets(files: Files, line: string, ts: seq<Target>, ps: seq<Patch>)
    requires |ts| <= 2
    ensures |ts| == 0 ==> WriteTargets(files, line, ts, ps) == Outcome(files, None)
    ensures |ts| > 0 ==>
              var first := WriteFile(files, File(line, ts[0]), PatchesFor(ps, ts[0]));
              WriteTargets(files, line, ts, ps) ==
              if first.error.Some? || |ts| == 1 then first
              else WriteFile(first.files, File(line, ts[1]), PatchesFor(ps, ts[1]))
  {
    hide WriteFile, PatchesFor;
    if |ts| > 0 {
      var first := WriteFile(files, File(line, ts[0]), PatchesFor(ps, ts[0]));
      if |ts| == 2 {
        assert ts[1..] == [ts[1]];
        assert [ts[1]][1..] == [];
        assert WriteTargets(first.files, line, [ts[1]], ps) ==
               var second := WriteFile(first.files, File(line, ts[1]), PatchesFor(ps, ts[1]));
               if second.error.Some? then second else WriteTargets(second.files, line, [], ps);
      }
    }
  }

  /** Reading and writing each file once gives the same files as patching file after file, one patch at a time,
      and succeeds exactly when that does. */
  lemma {:induction false} GroupingChangesNothing(files: Files, line: string, ps: seq<Patch>)
    ensures Write(files, line, ps).error.None? <==> WriteOneByOne(files, line, ps).error.None?
    ensures Write(files, line, ps).error.None? ==>
              Write(files, line, ps).files == WriteOneByOne(files, line, ps).files
  {
    WriteMeaning(files, line, ps);
    OneByOneMeaning(files, line, ps);
  }

  /** A failed write is not undone: it leaves the files unchanged unless the first file named took its patches, whose
      text is then already written; the other file never changes. */
  lemma {:induction false} FailedWriteLeavesFirstFilePatched(files: Files, line: string, ps: seq<Patch>)
    requires Write(files, line, ps).error.Some?
    ensures ps != []
    ensures var first := ps[0].target;
            && Write(files, line, ps).files == PatchedFile(files, line, ps, first)
            && (Write(files, line, ps).files != files <==>
                  && File(line, first) in files
                  && var text := files[File(line, first)];
                     ApplyAll(text, PatchesFor(ps, first)).Ok? && ApplyAll(text, PatchesFor(ps, first)) != Ok(text))
  {
    TargetsMeaning(ps);
    TwoTargets(files, line, TargetsOf(ps), ps);
    NoTargets(ps);
    if ps != [] {
      FirstTarget(ps);
      assert TargetsOf(ps)[0] in TargetsOf(ps);
      hide ApplyAll, TargetsOf, PatchesFor;
    }
  }

  lemma {:induction false} NoTargets(ps: seq<Patch>)
    ensures ps == [] ==> TargetsOf(ps) == []
  {
  }

  lemma {:induction false} FirstTarget(ps: seq<Patch>)
    requires ps != []
    ensures TargetsOf(ps) != [] && TargetsOf(ps)[0] == ps[0].target
  {
    if |ps| > 1 {
      FirstTarget(ps[..|ps| - 1]);
    } else {
      assert ps[..0] == [];
      assert TargetsOf(ps[..0]) == [];
    }
  }
}
