/** A markdown text as a preamble and its sections, and section replacement as an update of that list. */
module Documents {
  import opened Wrappers
  import opened Sequences
  import opened Sections

  datatype Doc = Doc(preamble: string, sections: seq<string>)

  function TextOf(d: Doc): string {
    d.preamble + Flatten(d.sections)
  }

  /** Split a text that is empty or starts with a heading line before every later heading line. */
  function SplitSections(t: string): seq<string>
    requires t == [] || HeadingAt(t, 0)
    decreases |t|
  {
    if t == [] then []
    else
      var j := SectionEnd(t, 1);
      assert j < |t| ==> HeadingAt(t[j..], 0);
      [t[..j]] + SplitSections(t[j..])
  }

  function DocOf(t: string): Doc {
    var j := SectionEnd(t, 0);
    assert j < |t| ==> HeadingAt(t[j..], 0);
    Doc(t[..j], SplitSections(t[j..]))
  }

  /** No line of s opens a section. */
  predicate HeadingFree(s: string) {
    forall k :: 0 <= k < |s| ==> !HeadingAt(s, k)
  }

  /** s is one section: it opens with a heading line and has no other. */
  predicate IsSection(s: string) {
    HeadingAt(s, 0) && forall k :: 0 < k < |s| ==> !HeadingAt(s, k)
  }

  predicate Closed(s: string) {
    s == [] || s[|s| - 1] == '\n'
  }

  predicate WellFormedSections(ss: seq<string>) {
    && (forall i :: 0 <= i < |ss| ==> IsSection(ss[i]))
    && (forall i :: 0 <= i < |ss| - 1 ==> Closed(ss[i]))
  }

  predicate WellFormed(d: Doc) {
    HeadingFree(d.preamble) && (d.sections != [] ==> Closed(d.preamble)) && WellFormedSections(d.sections)
  }

  // ----- Texts and well-formed documents are the same thing -----

  lemma {:induction false} ConcatOfSplit(t: string)
    requires t == [] || HeadingAt(t, 0)
    ensures Flatten(SplitSections(t)) == t && WellFormedSections(SplitSections(t))
    decreases |t|
  {
    if t != [] {
      var j := SectionEnd(t, 1);
      assert j < |t| ==> HeadingAt(t[j..], 0);
      ConcatOfSplit(t[j..]);
      var first, rest := t[..j], SplitSections(t[j..]);
      assert SplitSections(t) == [first] + rest;
      assert ([first] + rest)[1..] == rest;
      assert forall k :: 0 <= k < |first| ==> (HeadingAt(first, k) ==> HeadingAt(t, k));
      assert IsSection(first);
    }
  }

  lemma {:induction false} TextOfDocOf(t: string)
    ensures TextOf(DocOf(t)) == t && WellFormed(DocOf(t))
  {
    var j := SectionEnd(t, 0);
    assert j < |t| ==> HeadingAt(t[j..], 0);
    ConcatOfSplit(t[j..]);
    assert forall k :: 0 <= k < j ==> (HeadingAt(t[..j], k) ==> HeadingAt(t, k));
  }

  /** The section scan stops at the end of a leading part that has no heading behind `from`. */
  lemma {:induction false} SectionEndOfPart(part: string, rest: string, from: nat)
    requires from <= |part| && Closed(part) && (rest == [] || HeadingAt(rest, 0))
    requires forall k :: from <= k < |part| ==> !HeadingAt(part, k)
    ensures SectionEnd(part + rest, from) == |part|
  {
    var t := part + rest;
    forall k | from <= k < |part|
      ensures !HeadingAt(t, k)
    {
      assert !HeadingAt(part, k);
    }
    if rest != [] {
      assert t[|part|] == rest[0] && t[|part| + 1] == rest[1];
      assert HeadingAt(t, |part|);
    }
  }

  lemma {:induction false} ConcatStartsWithHeading(ss: seq<string>)
    requires WellFormedSections(ss)
    ensures Flatten(ss) == [] <==> ss == []
    ensures ss != [] ==> HeadingAt(Flatten(ss), 0)
  {
    if ss != [] {
      assert IsSection(ss[0]);
    }
  }

  lemma {:induction false} SplitOfConcat(ss: seq<string>)
    requires WellFormedSections(ss)
    ensures Flatten(ss) == [] || HeadingAt(Flatten(ss), 0)
    ensures SplitSections(Flatten(ss)) == ss
  {
    ConcatStartsWithHeading(ss);
    if ss != [] {
      ConcatStartsWithHeading(ss[1..]);
      SplitOfConcat(ss[1..]);
      assert IsSection(ss[0]);
      SplitStep(ss[0], Flatten(ss[1..]));
    }
  }

  lemma {:induction false} SplitStep(s: string, rest: string)
    requires IsSection(s) && (rest == [] || (Closed(s) && HeadingAt(rest, 0)))
    ensures HeadingAt(s + rest, 0)
    ensures SplitSections(s + rest) == [s] + SplitSections(rest)
  {
    var t := s + rest;
    if rest == [] {
      assert t == s;
      assert SectionEnd(t, 1) == |s|;
    } else {
      SectionEndOfPart(s, rest, 1);
    }
    assert t[..|s|] == s && t[|s|..] == rest;
  }

  lemma {:induction false} DocOfTextOf(d: Doc)
    requires WellFormed(d)
    ensures DocOf(TextOf(d)) == d
  {
    var rest := Flatten(d.sections);
    ConcatStartsWithHeading(d.sections);
    SplitOfConcat(d.sections);
    if rest == [] {
      assert TextOf(d) == d.preamble;
      assert SectionEnd(d.preamble, 0) == |d.preamble|;
    } else {
      SectionEndOfPart(d.preamble, rest, 0);
    }
    var t := TextOf(d);
    assert t[..|d.preamble|] == d.preamble && t[|d.preamble|..] == rest;
  }

  // ----- The scan finds the first section with the heading line -----

  predicate HasHead(s: string, head: string) { head <= s }

  function IndexOf(ss: seq<string>, head: string): (k: nat)
    ensures k <= |ss|
    ensures k < |ss| ==> HasHead(ss[k], head)
    ensures forall i :: 0 <= i < k ==> !HasHead(ss[i], head)
  {
    if ss == [] || HasHead(ss[0], head) then 0
    else
      assert forall i :: 0 < i < |ss| ==> ss[i] == ss[1..][i - 1];
      1 + IndexOf(ss[1..], head)
  }

  lemma {:induction false} HeadsAreHeadings(t: string, i: int, head: string)
    requires IsHead(head) && SectionAt(t, i, head)
    ensures HeadingAt(t, i)
  {
    assert t[i..i + |head|][0] == head[0] && t[i..i + |head|][1] == head[1];
  }

  lemma {:induction false} FindFromIs(t: string, head: string, i: nat)
    requires i <= |t| && SectionAt(t, i, head) && forall k :: 0 <= k < i ==> !SectionAt(t, k, head)
    ensures FindFrom(t, head, 0) == Some(i)
  {
  }

  lemma {:induction false} SectionEndIs(t: string, k: nat, j: nat)
    requires k <= j <= |t| && (j < |t| ==> HeadingAt(t, j)) && forall m :: k <= m < j ==> !HeadingAt(t, m)
    ensures SectionEnd(t, k) == j
  {
  }

  lemma {:induction false} SectionFits(t: string, head: string, i: nat)
    requires SectionAt(t, i, head)
    ensures i + |head| <= |t|
  {
  }

  lemma {:induction false} ShiftedScan(part: string, rest: string, head: string, k: nat)
    requires IsHead(head) && Closed(part) && (rest == [] || HeadingAt(rest, 0)) && k <= |rest|
    ensures SectionAt(part + rest, |part| + k, head) <==> SectionAt(rest, k, head)
    ensures HeadingAt(part + rest, |part| + k) <==> HeadingAt(rest, k)
  {
    var t := part + rest;
    assert LineStart(t, |part| + k) <==> LineStart(rest, k) || (k == 0 && part != []);
    if k + |head| <= |rest| {
      assert t[|part| + k..|part| + k + |head|] == rest[k..k + |head|];
    }
  }

  function Shift(n: nat, s: Option<Span>): Option<Span> {
    if s.None? then None else Some(Span(n + s.value.start, n + s.value.body, n + s.value.end))
  }

  /** A leading part in which the heading line does not start shifts the scan. */
  lemma {:induction false} FindBehind(part: string, rest: string, head: string)
    requires IsHead(head) && Closed(part) && (rest == [] || HeadingAt(rest, 0))
    requires forall k :: 0 <= k < |part| ==> !SectionAt(part + rest, k, head)
    ensures FindSection(part + rest, head) == Shift(|part|, FindSection(rest, head))
  {
    hide SectionAt, HeadingAt, LineStart, IsHead, Closed;
    var t := part + rest;
    var found := FindFrom(rest, head, 0);
    if found.None? {
      forall k | 0 <= k <= |t|
        ensures !SectionAt(t, k, head)
      {
        if k >= |part| {
          ShiftedScan(part, rest, head, k - |part|);
        }
      }
    } else {
      var i := found.value;
      SectionFits(rest, head, i);
      forall k | 0 <= k < |part| + i
        ensures !SectionAt(t, k, head)
      {
        if k >= |part| {
          ShiftedScan(part, rest, head, k - |part|);
        }
      }
      ShiftedScan(part, rest, head, i);
      FindFromIs(t, head, |part| + i);
      var j := SectionEnd(rest, i + |head|);
      forall m | |part| + i + |head| <= m < |part| + j
        ensures !HeadingAt(t, m)
      {
        ShiftedScan(part, rest, head, m - |part|);
      }
      ShiftedScan(part, rest, head, j);
      SectionEndIs(t, |part| + i + |head|, |part| + j);
    }
  }

  lemma {:induction false} HeadAtStart(s: string, rest: string, head: string)
    requires IsHead(head) && Closed(s) && s != []
    ensures SectionAt(s + rest, 0, head) <==> HasHead(s, head)
  {
    var t := s + rest;
    if |head| <= |s| {
      assert t[0..|head|] == s[..|head|];
    } else if |head| <= |t| {
      assert t[0..|head|][|s| - 1] == '\n' && head[|s| - 1] != '\n';
    }
  }

  lemma {:induction false} HeadingsOfPart(s: string, rest: string, k: int)
    requires Closed(s) && 0 <= k < |s|
    ensures HeadingAt(s + rest, k) <==> HeadingAt(s, k)
  {
  }

  lemma {:induction false} NoHeadInFreePart(s: string, rest: string, head: string)
    requires IsHead(head) && Closed(s) && HeadingFree(s)
    ensures forall k :: 0 <= k < |s| ==> !SectionAt(s + rest, k, head)
  {
    forall k | 0 <= k < |s|
      ensures !SectionAt(s + rest, k, head)
    {
      HeadingsOfPart(s, rest, k);
      if SectionAt(s + rest, k, head) {
        HeadsAreHeadings(s + rest, k, head);
      }
    }
  }

  lemma {:induction false} NoHeadInOtherSection(s: string, rest: string, head: string)
    requires IsHead(head) && Closed(s) && IsSection(s) && !HasHead(s, head)
    ensures forall k :: 0 <= k < |s| ==> !SectionAt(s + rest, k, head)
  {
    forall k | 0 <= k < |s|
      ensures !SectionAt(s + rest, k, head)
    {
      HeadingsOfPart(s, rest, k);
      HeadAtStart(s, rest, head);
      if SectionAt(s + rest, k, head) {
        HeadsAreHeadings(s + rest, k, head);
      }
    }
  }

  lemma {:induction false} HeadFirst(s: string, rest: string, head: string)
    requires IsHead(head) && IsSection(s) && HasHead(s, head)
    requires rest == [] || (HeadingAt(rest, 0) && Closed(s))
    ensures FindSection(s + rest, head) == Some(Span(0, |head|, |s|))
  {
    var t := s + rest;
    assert t[0..|head|] == head;
    FindFromIs(t, head, 0);
    if rest == [] {
      assert t == s;
      SectionEndIs(t, |head|, |s|);
    } else {
      SectionEndOfPart(s, rest, |head|);
    }
  }

  lemma {:induction false} LastWithoutHead(s: string, head: string)
    requires IsHead(head) && (HeadingFree(s) || (IsSection(s) && !HasHead(s, head)))
    ensures FindSection(s, head) == None
  {
    forall k | 0 <= k <= |s|
      ensures !SectionAt(s, k, head)
    {
      assert SectionAt(s, 0, head) ==> HasHead(s, head);
      if SectionAt(s, k, head) {
        HeadsAreHeadings(s, k, head);
      }
    }
  }

  /** Where the section of index k lies in the concatenation. */
  function SpanOf(ss: seq<string>, k: nat, head: string): Option<Span>
    requires k <= |ss|
  {
    var n := |Flatten(ss[..k])|;
    if k == |ss| then None else Some(Span(n, n + |head|, n + |ss[k]|))
  }

  lemma {:induction false} SpanOfTail(ss: seq<string>, k: nat, head: string)
    requires 0 < k <= |ss|
    ensures SpanOf(ss, k, head) == Shift(|ss[0]|, SpanOf(ss[1..], k - 1, head))
  {
    assert ss[..k][1..] == ss[1..][..k - 1];
  }

  lemma {:induction false} FindInSections(ss: seq<string>, head: string)
    requires IsHead(head) && WellFormedSections(ss)
    ensures FindSection(Flatten(ss), head) == SpanOf(ss, IndexOf(ss, head), head)
  {
    if ss == [] {
      assert !SectionAt([], 0, head);
    } else {
      var rest := Flatten(ss[1..]);
      ConcatStartsWithHeading(ss[1..]);
      assert IsSection(ss[0]);
      if HasHead(ss[0], head) {
        HeadFirst(ss[0], rest, head);
        assert ss[..0] == [];
      } else {
        FindInSections(ss[1..], head);
        SpanOfTail(ss, IndexOf(ss, head), head);
        if rest == [] {
          LastWithoutHead(ss[0], head);
          assert Flatten(ss) == ss[0];
        } else {
          NoHeadInOtherSection(ss[0], rest, head);
          FindBehind(ss[0], rest, head);
        }
      }
    }
  }

  lemma {:induction false} FindInDoc(d: Doc, head: string)
    requires IsHead(head) && WellFormed(d)
    ensures FindSection(TextOf(d), head) == Shift(|d.preamble|, SpanOf(d.sections, IndexOf(d.sections, head), head))
  {
    var rest := Flatten(d.sections);
    FindInSections(d.sections, head);
    ConcatStartsWithHeading(d.sections);
    if rest == [] {
      LastWithoutHead(d.preamble, head);
      assert TextOf(d) == d.preamble;
    } else {
      NoHeadInFreePart(d.preamble, rest, head);
      FindBehind(d.preamble, rest, head);
    }
  }

  lemma {:induction false} ConcatAround(ss: seq<string>, k: nat)
    requires k < |ss|
    ensures Flatten(ss) == Flatten(ss[..k]) + ss[k] + Flatten(ss[k + 1..])
  {
    ConcatOfUpdate(ss, k, ss[k]);
    assert ss[k := ss[k]] == ss;
  }

  lemma {:induction false} TextAround(d: Doc, k: nat, section: string)
    requires k < |d.sections|
    ensures var i := |d.preamble| + |Flatten(d.sections[..k])|; var j := i + |d.sections[k]|; var t := TextOf(d);
            && j <= |t| && t[i..j] == d.sections[k]
            && TextOf(d.(sections := d.sections[k := section])) == t[..i] + section + t[j..]
  {
    ConcatAround(d.sections, k);
    ConcatOfUpdate(d.sections, k, section);
    hide Flatten;
    var p, before, behind := d.preamble, Flatten(d.sections[..k]), Flatten(d.sections[k + 1..]);
    Regroup(p, before, d.sections[k], behind);
    Regroup(p, before, section, behind);
    Cut(p + before, d.sections[k], behind);
  }

  lemma {:induction false} Regroup(a: string, b: string, c: string, d: string)
    ensures a + (b + c + d) == (a + b) + c + d
  {
  }

  lemma {:induction false} Cut(before: string, mid: string, behind: string)
    ensures var t := before + mid + behind; var j := |before| + |mid|;
            && |t| == j + |behind|
            && t[..|before|] == before && t[|before|..j] == mid && t[j..] == behind
  {
  }

  lemma {:induction false} SectionIsNoShorterThanHead(ss: seq<string>, head: string)
    requires IndexOf(ss, head) < |ss|
    ensures |head| <= |ss[IndexOf(ss, head)]|
  {
  }

  /** Splicing at the scanned span is updating the first section with that heading line; the scanned body is the
      rest of that section. */
  lemma {:induction false} SpliceIsUpdate(t: string, head: string, section: string)
    requires IsHead(head)
    ensures FindSection(t, head).Some? <==> IndexOf(DocOf(t).sections, head) < |DocOf(t).sections|
    ensures FindSection(t, head).Some? ==>
              var d, k := DocOf(t), IndexOf(DocOf(t).sections, head);
              && SectionBody(t, head) == Some(d.sections[k][|head|..])
              && Splice(t, head, section) == Some(TextOf(d.(sections := d.sections[k := section])))
  {
    hide DocOf, IndexOf, FindFrom, SectionEnd, TextOf, Flatten, WellFormed, IsHead;
    var d := DocOf(t);
    var k := IndexOf(d.sections, head);
    TextOfDocOf(t);
    FindInDoc(d, head);
    if k < |d.sections| {
      SectionIsNoShorterThanHead(d.sections, head);
      TextAround(d, k, section);
      var s := FindSection(t, head).value;
      assert t[s.body..s.end] == t[s.start..s.end][|head|..];
    }
  }

  lemma {:induction false} ConcatOfUpdate(ss: seq<string>, k: nat, s: string)
    requires k < |ss|
    ensures Flatten(ss[k := s]) == Flatten(ss[..k]) + s + Flatten(ss[k + 1..])
  {
    if k == 0 {
      assert ss[0 := s][1..] == ss[1..];
    } else {
      ConcatOfUpdate(ss[1..], k - 1, s);
      assert ss[k := s][1..] == ss[1..][k - 1 := s];
      assert ss[1..][..k - 1] == ss[..k][1..] && ss[1..][k..] == ss[k + 1..];
    }
  }
}
