/** Replacing one section of a markdown text: the regex scan, and the document it amounts to. */
module Sections {
  import opened Wrappers
  import opened Text
  import opened Template

  // ----- The regex (^# Heading\n)(.*?)(?=^# |\Z), as a scan -----

  predicate LineStart(t: string, i: int) {
    0 <= i <= |t| && (i == 0 || t[i - 1] == '\n')
  }

  /** A line that opens some section starts at i. */
  predicate HeadingAt(t: string, i: int) {
    LineStart(t, i) && i + 1 < |t| && t[i] == '#' && t[i + 1] == ' '
  }

  /** The heading line `head` starts at i. */
  predicate SectionAt(t: string, i: int, head: string) {
    LineStart(t, i) && i + |head| <= |t| && t[i..i + |head|] == head
  }

  /** A heading line as it is searched for: "# ", the heading, and the only line break. */
  predicate IsHead(head: string) {
    && |head| > 2 && head[0] == '#' && head[1] == ' ' && head[|head| - 1] == '\n'
    && forall i :: 0 <= i < |head| - 1 ==> head[i] != '\n'
  }

  function FindFrom(t: string, head: string, i: nat): (r: Option<nat>)
    requires i <= |t|
    ensures r.Some? ==> i <= r.value && SectionAt(t, r.value, head)
    ensures r.Some? ==> forall k :: i <= k < r.value ==> !SectionAt(t, k, head)
    ensures r.None? ==> forall k :: i <= k <= |t| ==> !SectionAt(t, k, head)
    decreases |t| - i
  {
    if SectionAt(t, i, head) then Some(i) else if i < |t| then FindFrom(t, head, i + 1) else None
  }

  /** The first heading line at or behind k, else the end of the text. */
  function SectionEnd(t: string, k: nat): (j: nat)
    requires k <= |t|
    ensures k <= j <= |t|
    ensures j < |t| ==> HeadingAt(t, j)
    ensures forall m :: k <= m < j ==> !HeadingAt(t, m)
    decreases |t| - k
  {
    if k == |t| || HeadingAt(t, k) then k else SectionEnd(t, k + 1)
  }

  /** Where the first section with this heading line begins, and where its body begins and ends. */
  datatype Span = Span(start: nat, body: nat, end: nat)

  function FindSection(t: string, head: string): (r: Option<Span>)
    ensures r.Some? ==> r.value.start <= r.value.body <= r.value.end <= |t|
  {
    match FindFrom(t, head, 0)
    case None => None
    case Some(i) => Some(Span(i, i + |head|, SectionEnd(t, i + |head|)))
  }

  /** The text with the matched section, heading line included, replaced. */
  function Splice(t: string, head: string, new_: string): Option<string> {
    match FindSection(t, head)
    case None => None
    case Some(s) => Some(t[..s.start] + new_ + t[s.end..])
  }

  function SectionBody(t: string, head: string): Option<string> {
    match FindSection(t, head)
    case None => None
    case Some(s) => Some(t[s.body..s.end])
  }

  datatype WriteError = MissingSection | TemplateRejected(e: TemplateError) | MissingFile | InvalidPatch

  /** `_replace_markdown_section`: the stripped body is spliced into the template "\1...\n\n", which is parsed
      before the text is searched. */
  function ReplaceSection(t: string, head: string, body: string): Result<string, WriteError> {
    match Parse("\\1" + Strip(body) + "\\n\\n", 2)
    case Err(e) => Err(TemplateRejected(e))
    case Ok(pieces) =>
      match FindSection(t, head)
      case None => Err(MissingSection)
      case Some(s) =>
        var groups := [t[s.start..s.end], t[s.start..s.body], t[s.body..s.end]];
        Ok(t[..s.start] + Fill(pieces, groups) + t[s.end..])
  }

  // ----- When the template inserts the body as it is -----

  predicate DigitFirst(s: string) {
    s != [] && IsDigit(s[0])
  }

  lemma {:induction false} TailTemplate(groups: nat)
    ensures Parse("\\n\\n", groups) == Ok([Lit('\n'), Lit('\n')])
  {
    assert "\\n\\n"[2..] == "\\n" && "\\n"[2..] == [];
    assert [Lit('\n')] + [] == [Lit('\n')] && [Lit('\n')] + [Lit('\n')] == [Lit('\n'), Lit('\n')];
    assert Escape("\\n", groups) == Ok(([Lit('\n')], 2)) && Escape("\\n\\n", groups) == Ok(([Lit('\n')], 2));
    assert Parse("\\n", groups) == Prepend([Lit('\n')], Parse([], groups));
    assert Parse("\\n\\n", groups) == Prepend([Lit('\n')], Parse("\\n", groups));
  }

  lemma {:induction false} PlainBodyTemplate(body: string)
    requires NoBackslash(body) && !DigitFirst(body)
    ensures Parse("\\1" + body + "\\n\\n", 2) == Ok([Group(1)] + (Lits(body) + [Lit('\n'), Lit('\n')]))
  {
    var t := "\\1" + body + "\\n\\n";
    assert t[0] == '\\' && t[1] == '1';
    assert t[2..] == body + "\\n\\n";
    assert !NextIs(t, 2, IsDigit) by {
      assert t[2] == if body == [] then '\\' else body[0];
    }
    assert Escape(t, 2) == Ok(([Group(1)], 2));
    PlainTextParses(body, "\\n\\n", 2);
    TailTemplate(2);
  }

  lemma {:induction false} FillOfPlainBody(body: string, groups: seq<string>)
    requires |groups| == 3
    ensures Fill([Group(1)] + (Lits(body) + [Lit('\n'), Lit('\n')]), groups) == groups[1] + body + "\n\n"
  {
    var rest := Lits(body) + [Lit('\n'), Lit('\n')];
    assert ([Group(1)] + rest)[1..] == rest;
    FillOfPlain(body, [Lit('\n'), Lit('\n')], groups);
    assert [Lit('\n'), Lit('\n')][1..] == [Lit('\n')] && [Lit('\n')][1..] == [];
    assert Fill([Lit('\n')], groups) == ['\n'] + [];
    assert Fill([Lit('\n'), Lit('\n')], groups) == "\n\n";
    assert groups[1] + (body + "\n\n") == groups[1] + body + "\n\n";
  }

  /** "\\1" followed by a digit is a group beyond 2, or the first two digits complete an octal character. */
  lemma {:induction false} DigitEscape(t: string)
    requires |t| >= 4 && t[0] == '\\' && t[1] == '1' && IsDigit(t[2])
    ensures var e := Escape(t, 2);
            if IsOctal(t[2]) && IsOctal(t[3]) then
              e == Ok(([Lit((64 + 8 * DigitValue(t[2]) + DigitValue(t[3])) as char)], 4))
            else e == Err(BadGroup)
  {
  }

  /** A body that starts with a digit is read as part of the group number: either the template is rejected, or
      the heading line is lost to an octal character. */
  lemma {:induction false} DigitBodyTemplate(body: string)
    requires NoBackslash(body) && DigitFirst(body)
    ensures var p := Parse("\\1" + body + "\\n\\n", 2);
            p.Ok? ==> |body| >= 2 && exists c :: p.value == [Lit(c)] + (Lits(body[2..]) + [Lit('\n'), Lit('\n')])
  {
    hide Escape;
    var t := "\\1" + body + "\\n\\n";
    assert t[0] == '\\' && t[1] == '1' && t[2] == body[0] && t[3] == if |body| >= 2 then body[1] else '\\';
    DigitEscape(t);
    if Escape(t, 2).Ok? {
      assert t[4..] == body[2..] + "\\n\\n";
      PlainTextParses(body[2..], "\\n\\n", 2);
      TailTemplate(2);
    }
  }

  lemma {:induction false} FillOfLits(s: string, groups: seq<string>)
    ensures Fill(Lits(s), groups) == s
  {
    FillOfPlain(s, [], groups);
    assert Lits(s) + [] == Lits(s);
  }

  /** The new section is exactly the heading line, the stripped body and a blank line, with everything else
      unchanged — for a backslash-free body, exactly when it does not start with a digit. */
  lemma {:induction false} ReplacesVerbatimExactlyWhen(t: string, head: string, body: string)
    requires NoBackslash(Strip(body)) && FindSection(t, head).Some? && |head| > 2
    ensures ReplaceSection(t, head, body) == Ok(Splice(t, head, head + Strip(body) + "\n\n").value) <==>
            !DigitFirst(Strip(body))
  {
    var b := Strip(body);
    var s := FindSection(t, head).value;
    var groups := [t[s.start..s.end], t[s.start..s.body], t[s.body..s.end]];
    if !DigitFirst(b) {
      PlainBodyTemplate(b);
      FillOfPlainBody(b, groups);
    } else {
      DigitBodyTemplate(b);
      var p := Parse("\\1" + b + "\\n\\n", 2);
      if p.Ok? {
        var c :| p.value == [Lit(c)] + (Lits(b[2..]) + [Lit('\n'), Lit('\n')]);
        FillOfDigitBody(c, b, groups);
        assert |ReplaceSection(t, head, body).value| < |Splice(t, head, head + b + "\n\n").value|;
      }
    }
  }

  lemma {:induction false} FillOfDigitBody(c: char, body: string, groups: seq<string>)
    requires |body| >= 2
    ensures Fill([Lit(c)] + (Lits(body[2..]) + [Lit('\n'), Lit('\n')]), groups) == [c] + (body[2..] + "\n\n")
  {
    var rest := Lits(body[2..]) + [Lit('\n'), Lit('\n')];
    assert ([Lit(c)] + rest)[1..] == rest;
    FillOfPlain(body[2..], [Lit('\n'), Lit('\n')], groups);
    FillOfLits("\n\n", groups);
    assert Lits("\n\n") == [Lit('\n'), Lit('\n')];
  }

  /** Concrete bodies the writer loses: "42" replaces the heading line itself by the octal character \142, and
      "9" is rejected as group 19. */
  lemma {:induction false} DigitBodiesFail(t: string, head: string)
    requires FindSection(t, head).Some?
    ensures var s := FindSection(t, head).value;
            ReplaceSection(t, head, "42") == Ok(t[..s.start] + "b\n\n" + t[s.end..])
    ensures ReplaceSection(t, head, "9") == Err(TemplateRejected(BadGroup))
  {
    StripOfTrimmed("42");
    StripOfTrimmed("9");
    OctalTemplate();
    GroupTemplate();
    var s := FindSection(t, head).value;
    FillOfOctal([t[s.start..s.end], t[s.start..s.body], t[s.body..s.end]]);
    hide Template.Parse, Fill, Strip, FindSection;
  }

  /** The template of body "42" is the character \142 and two line breaks. */
  lemma {:induction false} OctalTemplate()
    ensures Parse("\\1" + "42" + "\\n\\n", 2) == Ok([Lit('b'), Lit('\n'), Lit('\n')])
  {
    hide Escape;
    var octal := "\\1" + "42" + "\\n\\n";
    assert octal[0] == '\\' && octal[1] == '1' && octal[2] == '4' && octal[3] == '2';
    assert octal[4..] == "\\n\\n";
    DigitEscape(octal);
    TailTemplate(2);
    assert (64 + 8 * DigitValue('4') + DigitValue('2')) as char == 'b';
    assert [Lit('b')] + [Lit('\n'), Lit('\n')] == [Lit('b'), Lit('\n'), Lit('\n')];
  }

  lemma {:induction false} FillOfOctal(groups: seq<string>)
    ensures Fill([Lit('b'), Lit('\n'), Lit('\n')], groups) == "b\n\n"
  {
    FillOfLits("b\n\n", groups);
    assert Lits("b\n\n") == [Lit('b'), Lit('\n'), Lit('\n')];
  }

  /** The template of body "9" names group 19. */
  lemma {:induction false} GroupTemplate()
    ensures Parse("\\1" + "9" + "\\n\\n", 2) == Err(BadGroup)
  {
    hide Escape;
    var group := "\\1" + "9" + "\\n\\n";
    assert group[0] == '\\' && group[1] == '1' && group[2] == '9';
    DigitEscape(group);
  }

  // ----- Bodies that refer to the old text -----

  lemma {:induction false} ReferenceTemplate(a: string, ref: string, k: nat, b: string)
    requires NoBackslash(a) && NoBackslash(b) && !DigitFirst(a)
    requires (ref == "\\2" && k == 2 && !DigitFirst(b)) || (ref == "\\g<0>" && k == 0)
    ensures Parse("\\1" + (a + ref + b) + "\\n\\n", 2) ==
            Ok([Group(1)] + (Lits(a) + ([Group(k)] + (Lits(b) + [Lit('\n'), Lit('\n')]))))
  {
    var end := b + "\\n\\n";
    var t := "\\1" + (a + ref + b) + "\\n\\n";
    assert t[0] == '\\' && t[1] == '1' && t[2..] == a + (ref + end);
    assert !NextIs(t, 2, IsDigit) by {
      assert t[2] == if a == [] then '\\' else a[0];
    }
    assert Escape(t, 2) == Ok(([Group(1)], 2));
    PlainTextParses(a, ref + end, 2);
    ReferenceEscape(ref, k, end);
    assert (ref + end)[|ref|..] == end;
    PlainTextParses(b, "\\n\\n", 2);
    TailTemplate(2);
    hide Escape;
  }

  lemma {:induction false} ReferenceEscape(ref: string, k: nat, end: string)
    requires (ref == "\\2" && k == 2 && end != [] && !IsDigit(end[0])) || (ref == "\\g<0>" && k == 0)
    ensures ref + end != [] && (ref + end)[0] == '\\' && Escape(ref + end, 2) == Ok(([Group(k)], |ref|))
  {
    var t := ref + end;
    if k == 2 {
      assert t[0] == '\\' && t[1] == '2' && t[2] == end[0];
      DigitEscapes(t, 2);
    } else {
      assert t[0] == '\\' && t[1] == 'g' && t[2] == '<' && t[3] == '0' && t[4] == '>';
      assert t[3..4] == "0" && "0"[..0] == [];
      assert Number("0") == 0;
      NamedGroups(t, 2);
      assert NamesGroup(t, 1, 2);
      forall n | NamesGroup(t, n, 2) ensures n == 1 {
        assert !('0' <= t[4] <= '9');
      }
    }
  }

  lemma {:induction false} FillOfReference(a: string, k: nat, b: string, groups: seq<string>)
    requires |groups| == 3 && k <= 2
    ensures Fill([Group(1)] + (Lits(a) + ([Group(k)] + (Lits(b) + [Lit('\n'), Lit('\n')]))), groups) ==
            groups[1] + a + groups[k] + b + "\n\n"
  {
    var last := Lits(b) + [Lit('\n'), Lit('\n')];
    var rest := Lits(a) + ([Group(k)] + last);
    assert ([Group(1)] + rest)[1..] == rest && ([Group(k)] + last)[1..] == last;
    FillOfPlain(a, [Group(k)] + last, groups);
    FillOfPlain(b, [Lit('\n'), Lit('\n')], groups);
    FillOfLits("\n\n", groups);
    assert Lits("\n\n") == [Lit('\n'), Lit('\n')];
    hide Fill, Lits;
    assert groups[1] + (a + (groups[k] + (b + "\n\n"))) == groups[1] + a + groups[k] + b + "\n\n";
  }

  /** A body may refer to the text it replaces: "\\2" is the old body, "\\g<0>" the old section with its heading. */
  lemma {:induction false} ReferencesInsertOldText(
      t: string, head: string, body: string, a: string, ref: string, b: string)
    requires Strip(body) == a + ref + b && NoBackslash(a) && NoBackslash(b) && !DigitFirst(a)
    requires (ref == "\\2" && !DigitFirst(b)) || ref == "\\g<0>"
    requires FindSection(t, head).Some?
    ensures var s := FindSection(t, head).value; var old_ := SectionBody(t, head).value;
            ReplaceSection(t, head, body) ==
            Ok(t[..s.start] + (head + a + (if ref == "\\2" then old_ else head + old_) + b + "\n\n") + t[s.end..])
  {
    var s := FindSection(t, head).value;
    var k := if ref == "\\2" then 2 else 0;
    assert "\\2" != "\\g<0>" by { assert |"\\2"| == 2 && |"\\g<0>"| == 5; }
    ReferenceTemplate(a, ref, k, b);
    FillOfReference(a, k, b, [t[s.start..s.end], t[s.start..s.body], t[s.body..s.end]]);
    assert t[s.start..s.end] == t[s.start..s.body] + t[s.body..s.end] && t[s.start..s.body] == head;
    hide Fill, Template.Parse, Strip;
  }
}
