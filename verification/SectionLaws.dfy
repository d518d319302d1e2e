/** Laws of section replacement: what it changes, repetition, overwriting, and independent headings. */
module SectionLaws {
  import opened Wrappers
  import opened Text
  import opened Template
  import opened Sections
  import opened Documents

  /** A stripped body the writer inserts as it is and that opens no section of its own. */
  predicate PlainBody(b: string) {
    NoBackslash(b) && !DigitFirst(b) && HeadingFree(b)
  }

  function SectionText(head: string, body: string): string {
    head + body + "\n\n"
  }

  lemma {:induction false} SectionTextIsSection(head: string, body: string)
    requires IsHead(head) && HeadingFree(body)
    ensures var s := SectionText(head, body);
            && IsSection(s) && Closed(s) && HasHead(s, head)
            && s[|head|..] == body + "\n\n"
  {
    var s := SectionText(head, body);
    forall k | 0 < k < |s|
      ensures !HeadingAt(s, k)
    {
      if |head| <= k < |head| + |body| {
        assert s[k] == body[k - |head|];
        assert k > |head| ==> s[k - 1] == body[k - |head| - 1];
        assert k + 1 < |head| + |body| ==> s[k + 1] == body[k - |head| + 1];
        assert !HeadingAt(body, k - |head|);
      }
    }
  }

  lemma {:induction false} UpdatedDocIsWellFormed(d: Doc, k: nat, s: string)
    requires WellFormed(d) && k < |d.sections| && IsSection(s) && Closed(s)
    ensures WellFormed(d.(sections := d.sections[k := s]))
  {
  }

  /** Replacement rewrites exactly the first section with the heading: the preamble and every other section,
      before and behind, stay as they are. */
  lemma {:induction false} ReplaceRewritesOneSection(t: string, head: string, body: string)
    requires IsHead(head) && PlainBody(Strip(body))
    ensures ReplaceSection(t, head, body).Ok? <==> IndexOf(DocOf(t).sections, head) < |DocOf(t).sections|
    ensures ReplaceSection(t, head, body).Ok? ==>
              var d := DocOf(t); var k := IndexOf(d.sections, head);
              DocOf(ReplaceSection(t, head, body).value) ==
              d.(sections := d.sections[k := SectionText(head, Strip(body))])
  {
    hide DocOf, IndexOf, HeadingFree, FindSection, Parse, Fill, IsSection, WellFormed;
    var b := Strip(body);
    SpliceIsUpdate(t, head, SectionText(head, b));
    PlainBodyTemplate(b);
    if FindSection(t, head).Some? {
      var d, k := DocOf(t), IndexOf(DocOf(t).sections, head);
      ReplacesVerbatimExactlyWhen(t, head, body);
      TextOfDocOf(t);
      SectionTextIsSection(head, b);
      UpdatedDocIsWellFormed(d, k, SectionText(head, b));
      DocOfTextOf(d.(sections := d.sections[k := SectionText(head, b)]));
    }
  }

  lemma {:induction false} IndexAfterUpdate(ss: seq<string>, k: nat, s: string, head: string)
    requires k < |ss| && (HasHead(ss[k], head) <==> HasHead(s, head))
    ensures IndexOf(ss[k := s], head) == IndexOf(ss, head)
  {
    var i := IndexOf(ss, head);
    var updated := ss[k := s];
    assert i < |ss| ==> HasHead(updated[i], head);
    assert forall j :: 0 <= j < i ==> !HasHead(updated[j], head);
    var u := IndexOf(updated, head);
    assert u < |ss| ==> HasHead(ss[u], head);
  }

  /** A text opens with at most one heading line. */
  lemma {:induction false} OneHead(s: string, head: string, other: string)
    requires IsHead(head) && IsHead(other) && HasHead(s, head) && HasHead(s, other)
    ensures head == other
  {
    assert s[|head| - 1] == '\n' && s[|other| - 1] == '\n';
    assert forall i :: 0 <= i < |head| - 1 ==> s[i] == head[i];
    assert forall i :: 0 <= i < |other| - 1 ==> s[i] == other[i];
    assert |head| == |other|;
    assert s[..|head|] == head && s[..|other|] == other;
  }

  lemma {:induction false} DifferentHeads(s: string, head: string, other: string)
    requires IsHead(head) && IsHead(other) && head != other && HasHead(s, head)
    ensures !HasHead(s, other)
  {
    hide IsHead, HasHead;
    if HasHead(s, other) {
      OneHead(s, head, other);
    }
  }

  /** Of two replacements of one section, the last one wins. */
  lemma {:induction false} LastReplacementWins(t: string, head: string, first: string, last: string)
    requires IsHead(head) && PlainBody(Strip(first)) && PlainBody(Strip(last))
    requires ReplaceSection(t, head, first).Ok?
    ensures ReplaceSection(ReplaceSection(t, head, first).value, head, last) == ReplaceSection(t, head, last)
  {
    hide DocOf, IndexOf, HeadingFree, FindSection, Parse, Fill, ReplaceSection, PlainBody, IsHead;
    var d := DocOf(t);
    var k := IndexOf(d.sections, head);
    var t' := ReplaceSection(t, head, first).value;
    ReplaceRewritesOneSection(t, head, first);
    SectionTextHasHead(head, Strip(first));
    assert HasHead(d.sections[k], head) by {
      FirstIndexHasHead(d.sections, head);
    }
    IndexAfterUpdate(d.sections, k, SectionText(head, Strip(first)), head);
    ReplaceRewritesOneSection(t, head, last);
    ReplaceRewritesOneSection(t', head, last);
    SameDocSameText(ReplaceSection(t', head, last), ReplaceSection(t, head, last));
  }

  lemma {:induction false} SectionTextHasHead(head: string, body: string)
    ensures HasHead(SectionText(head, body), head)
  {
  }

  lemma {:induction false} FirstIndexHasHead(ss: seq<string>, head: string)
    requires IndexOf(ss, head) < |ss|
    ensures HasHead(ss[IndexOf(ss, head)], head)
  {
  }

  lemma {:induction false} SameDocSameText(a: Result<string, WriteError>, b: Result<string, WriteError>)
    requires a.Ok? && b.Ok? && DocOf(a.value) == DocOf(b.value)
    ensures a == b
  {
    hide DocOf, TextOf;
    TextOfDocOf(a.value);
    TextOfDocOf(b.value);
  }

  /** Replacements of two different headings commute, and one is possible after the other exactly when it was
      possible before. */
  lemma {:induction false} ReplacementsCommute(t: string, head: string, body: string, other: string, text: string)
    requires IsHead(head) && IsHead(other) && head != other && PlainBody(Strip(body)) && PlainBody(Strip(text))
    requires ReplaceSection(t, head, body).Ok?
    ensures ReplaceSection(ReplaceSection(t, head, body).value, other, text).Ok? <==> ReplaceSection(t, other, text).Ok?
    ensures ReplaceSection(t, other, text).Ok? ==>
              ReplaceSection(ReplaceSection(t, head, body).value, other, text) ==
              ReplaceSection(ReplaceSection(t, other, text).value, head, body)
  {
    hide DocOf, IndexOf, HeadingFree, FindSection, Parse, Fill, ReplaceSection, PlainBody, IsHead, SectionText;
    ReplaceRewritesOneSection(t, head, body);
    OtherIndexIsKept(t, head, body, other);
    ReplaceRewritesOneSection(ReplaceSection(t, head, body).value, other, text);
    ReplaceRewritesOneSection(t, other, text);
    if ReplaceSection(t, other, text).Ok? {
      OtherIndexIsKept(t, other, text, head);
      ReplaceRewritesOneSection(ReplaceSection(t, other, text).value, head, body);
      var d := DocOf(t);
      var i, j := IndexOf(d.sections, head), IndexOf(d.sections, other);
      assert i != j by {
        FirstIndexHasHead(d.sections, head);
        FirstIndexHasHead(d.sections, other);
        if i == j {
          DifferentHeads(d.sections[i], head, other);
        }
      }
      var a, b := SectionText(head, Strip(body)), SectionText(other, Strip(text));
      assert d.sections[i := a][j := b] == d.sections[j := b][i := a];
      SameDocSameText(ReplaceSection(ReplaceSection(t, head, body).value, other, text),
                      ReplaceSection(ReplaceSection(t, other, text).value, head, body));
    }
  }

  lemma {:induction false} OtherIndexIsKept(t: string, head: string, body: string, other: string)
    requires IsHead(head) && IsHead(other) && head != other && PlainBody(Strip(body))
    requires ReplaceSection(t, head, body).Ok?
    ensures IndexOf(DocOf(ReplaceSection(t, head, body).value).sections, other) == IndexOf(DocOf(t).sections, other)
    ensures |DocOf(ReplaceSection(t, head, body).value).sections| == |DocOf(t).sections|
  {
    hide DocOf, IndexOf, HeadingFree, FindSection, Parse, Fill, ReplaceSection, PlainBody, IsHead;
    ReplaceRewritesOneSection(t, head, body);
    var ss := DocOf(t).sections;
    var k := IndexOf(ss, head);
    FirstIndexHasHead(ss, head);
    SectionTextHasHead(head, Strip(body));
    DifferentHeads(ss[k], head, other);
    DifferentHeads(SectionText(head, Strip(body)), head, other);
    IndexAfterUpdate(ss, k, SectionText(head, Strip(body)), other);
  }

  /** Replacing a section twice by the same body equals replacing it once — for a body inserted as it is, exactly
      when no line of it opens a section. */
  lemma {:induction false} ReplaceIsIdempotentExactlyWhen(t: string, head: string, body: string)
    requires IsHead(head) && NoBackslash(Strip(body)) && !DigitFirst(Strip(body))
    requires ReplaceSection(t, head, body).Ok?
    ensures var once := ReplaceSection(t, head, body).value;
            ReplaceSection(once, head, body) == Ok(once) <==> HeadingFree(Strip(body))
  {
    var b := Strip(body);
    if HeadingFree(b) {
      LastReplacementWins(t, head, body, body);
    } else {
      SecondReplacementGrows(t, head, body);
    }
  }

  lemma {:induction false} HeadingIn(b: string) returns (m: int)
    requires !HeadingFree(b)
    ensures 0 <= m < |b| && HeadingAt(b, m)
  {
    m :| 0 <= m < |b| && HeadingAt(b, m);
  }

  lemma {:induction false} SecondReplacementGrows(t: string, head: string, body: string)
    requires IsHead(head) && NoBackslash(Strip(body)) && !DigitFirst(Strip(body)) && !HeadingFree(Strip(body))
    requires ReplaceSection(t, head, body).Ok?
    ensures var once := ReplaceSection(t, head, body).value;
            ReplaceSection(once, head, body).Ok? ==> |ReplaceSection(once, head, body).value| > |once|
  {
    hide Parse, Fill, DocOf, HeadingFree;
    var b := Strip(body);
    PlainBodyTemplate(b);
    ReplacesVerbatimExactlyWhen(t, head, body);
    var once := ReplaceSection(t, head, body).value;
    var s := FindSection(t, head).value;
    assert once == t[..s.start] + SectionText(head, b) + t[s.end..];
    var m := HeadingIn(b);
    SpanAfterReplacement(t, once, head, b, s, m);
    ReplacesVerbatimExactlyWhen(once, head, body);
    assert ReplaceSection(once, head, body).value ==
           once[..s.start] + SectionText(head, b) + once[FindSection(once, head).value.end..];
  }

  lemma {:induction false} SectionAtInFront(front: string, x: string, y: string, head: string, k: nat)
    requires k + |head| <= |front|
    ensures SectionAt(front + x, k, head) <==> SectionAt(front + y, k, head)
  {
    assert (front + x)[k..k + |head|] == front[k..k + |head|] == (front + y)[k..k + |head|];
  }

  lemma {:induction false} HeadingBehindFront(front: string, b: string, rest: string, m: int)
    requires front != [] && front[|front| - 1] == '\n' && HeadingAt(b, m)
    ensures HeadingAt(front + (b + rest), |front| + m)
  {
    var t := front + (b + rest);
    assert t[|front| + m] == b[m] && t[|front| + m + 1] == b[m + 1];
    assert m > 0 ==> t[|front| + m - 1] == b[m - 1];
  }

  lemma {:induction false} FoundHead(t: string, head: string)
    requires IsHead(head) && FindSection(t, head).Some?
    ensures var s := FindSection(t, head).value; s.start <= s.body <= |t| && t[s.start..s.body] == head
    ensures head != [] && head[|head| - 1] == '\n'
  {
    hide HeadingAt;
  }

  /** After inserting a body that opens a section, the scan finds the same heading and stops inside the body. */
  lemma {:induction false} SpanAfterReplacement(t: string, once: string, head: string, b: string, s: Span, m: int)
    requires IsHead(head) && 0 <= m < |b| && HeadingAt(b, m) && FindSection(t, head) == Some(s)
    requires once == t[..s.start] + SectionText(head, b) + t[s.end..]
    ensures var f := FindSection(once, head);
            && f.Some? && f.value.start == s.start && f.value.body == s.body
            && f.value.end <= s.body + m
  {
    hide SectionAt, HeadingAt, IsHead, FindFrom;
    var front := t[..s.start] + head;
    var x, rest := t[s.body..], "\n\n" + t[s.end..];
    FoundHead(t, head);
    assert t == front + x;
    assert once == front + (b + rest);
    HeadingBehindFront(front, b, rest, m);
    HeadStaysFirst(front, x, b + rest, head, s.start);
  }

  /** What lies behind the first heading line does not matter for where it is found. */
  lemma {:induction false} HeadStaysFirst(front: string, x: string, y: string, head: string, i: nat)
    requires FindFrom(front + x, head, 0) == Some(i) && i + |head| == |front|
    ensures FindFrom(front + y, head, 0) == Some(i)
  {
    hide HeadingAt, LineStart;
    forall k | 0 <= k <= i
      ensures SectionAt(front + y, k, head) <==> SectionAt(front + x, k, head)
    {
      SectionAtInFront(front, x, y, head, k);
    }
    FindFromIs(front + y, head, i);
  }
}
