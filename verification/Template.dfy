/** Regex replacement templates, as Python's `re` module parses and fills them. */
module Template {
  import opened Wrappers

  /** A template is a list of literal characters and group references. */
  datatype Piece = Lit(c: char) | Group(k: nat)

  datatype TemplateError = BadEscape | BadGroup

  predicate IsDigit(c: char) { '0' <= c <= '9' }

  predicate IsOctal(c: char) { '0' <= c <= '7' }

  predicate IsLetter(c: char) { 'a' <= c <= 'z' || 'A' <= c <= 'Z' }

  function DigitValue(c: char): nat
    requires IsDigit(c)
  {
    (c - '0') as nat
  }

  function NextIs(t: string, i: nat, p: char -> bool): bool { i < |t| && p(t[i]) }

  function Escaped(c: char): Option<char> {
    match c
    case 'a' => Some('\U{07}')
    case 'b' => Some('\U{08}')
    case 'f' => Some('\U{0C}')
    case 'n' => Some('\n')
    case 'r' => Some('\r')
    case 't' => Some('\t')
    case 'v' => Some('\U{0B}')
    case '\\' => Some('\\')
    case _ => None
  }

  /** How many leading characters of t are digits. */
  function Digits(t: string): (n: nat)
    ensures n <= |t| && forall i :: 0 <= i < n ==> IsDigit(t[i])
  {
    if t != [] && IsDigit(t[0]) then 1 + Digits(t[1..]) else 0
  }

  function Number(t: string): nat
    requires forall i :: 0 <= i < |t| ==> IsDigit(t[i])
  {
    if t == [] then 0 else 10 * Number(t[..|t| - 1]) + DigitValue(t[|t| - 1])
  }

  /** The escape at the head of t, for a pattern with `groups` groups: its pieces and its length. */
  function Escape(t: string, groups: nat): Result<(seq<Piece>, nat), TemplateError>
    requires t != [] && t[0] == '\\'
    ensures Escape(t, groups).Ok? ==> 0 < Escape(t, groups).value.1 <= |t|
  {
    if |t| == 1 then Err(BadEscape)
    else
      var c := t[1];
      if c == 'g' then
        var n := if |t| > 3 then Digits(t[3..]) else 0;
        if NextIs(t, 2, x => x == '<') && n > 0 && NextIs(t, 3 + n, x => x == '>') then
          var k := Number(t[3..][..n]);
          if k <= groups then Ok(([Group(k)], 4 + n)) else Err(BadGroup)
        else Err(BadGroup)
      else if c == '0' then
        var n := if !NextIs(t, 2, IsOctal) then 2 else if !NextIs(t, 3, IsOctal) then 3 else 4;
        var value := if n == 2 then 0 else if n == 3 then DigitValue(t[2]) else 8 * DigitValue(t[2]) + DigitValue(t[3]);
        Ok(([Lit(value as char)], n))
      else if IsDigit(c) then
        if NextIs(t, 2, IsDigit) then
          if IsOctal(c) && IsOctal(t[2]) && NextIs(t, 3, IsOctal) then
            var value := 64 * DigitValue(c) + 8 * DigitValue(t[2]) + DigitValue(t[3]);
            if value > 255 then Err(BadEscape) else Ok(([Lit(value as char)], 4))
          else
            var k := 10 * DigitValue(c) + DigitValue(t[2]);
            if k <= groups then Ok(([Group(k)], 3)) else Err(BadGroup)
        else
          if DigitValue(c) <= groups then Ok(([Group(DigitValue(c))], 2)) else Err(BadGroup)
      else if Escaped(c).Some? then Ok(([Lit(Escaped(c).value)], 2))
      else if IsLetter(c) then Err(BadEscape)
      else Ok(([Lit('\\'), Lit(c)], 2))
  }

  function Parse(t: string, groups: nat): Result<seq<Piece>, TemplateError> {
    if t == [] then Ok([])
    else if t[0] != '\\' then Prepend([Lit(t[0])], Parse(t[1..], groups))
    else
      match Escape(t, groups)
      case Err(e) => Err(e)
      case Ok((pieces, n)) => Prepend(pieces, Parse(t[n..], groups))
  }

  function Prepend(pieces: seq<Piece>, rest: Result<seq<Piece>, TemplateError>): Result<seq<Piece>, TemplateError> {
    if rest.Ok? then Ok(pieces + rest.value) else rest
  }

  /** The text of a parsed template; groups[0] is the whole match. */
  function Fill(pieces: seq<Piece>, groups: seq<string>): string {
    if pieces == [] then []
    else
      (match pieces[0]
       case Lit(c) => [c]
       case Group(k) => if k < |groups| then groups[k] else [])
      + Fill(pieces[1..], groups)
  }

  // ----- Text that passes through a template unchanged -----

  predicate NoBackslash(s: string) {
    forall i :: 0 <= i < |s| ==> s[i] != '\\'
  }

  function Lits(s: string): (pieces: seq<Piece>)
    ensures |pieces| == |s|
  {
    if s == [] then [] else [Lit(s[0])] + Lits(s[1..])
  }

  lemma {:induction false} PlainTextParses(s: string, rest: string, groups: nat)
    requires NoBackslash(s)
    ensures Parse(s + rest, groups) == Prepend(Lits(s), Parse(rest, groups))
  {
    if s == [] {
      assert s + rest == rest;
      assert Parse(rest, groups).Ok? ==> [] + Parse(rest, groups).value == Parse(rest, groups).value;
    } else {
      assert (s + rest)[1..] == s[1..] + rest;
      PlainTextParses(s[1..], rest, groups);
      if Parse(rest, groups).Ok? {
        var more := Parse(rest, groups).value;
        assert [Lit(s[0])] + (Lits(s[1..]) + more) == Lits(s) + more;
      }
    }
  }

  lemma {:induction false} FillOfPlain(s: string, rest: seq<Piece>, groups: seq<string>)
    ensures Fill(Lits(s) + rest, groups) == s + Fill(rest, groups)
  {
    hide Fill;
    if s == [] {
      assert Lits(s) + rest == rest;
    } else {
      FillOfPlain(s[1..], rest, groups);
      FillOfLiteral(s[0], Lits(s[1..]) + rest, groups);
      assert Lits(s) + rest == [Lit(s[0])] + (Lits(s[1..]) + rest);
      assert [s[0]] + (s[1..] + Fill(rest, groups)) == s + Fill(rest, groups);
    }
  }

  lemma {:induction false} FillOfLiteral(c: char, rest: seq<Piece>, groups: seq<string>)
    ensures Fill([Lit(c)] + rest, groups) == [c] + Fill(rest, groups)
  {
    var pieces := [Lit(c)] + rest;
    assert pieces[0] == Lit(c) && pieces[1..] == rest;
  }

  /** `sub` of a backslash-free template inserts it as it is. */
  lemma {:induction false} PlainTemplate(s: string, groups: seq<string>)
    requires NoBackslash(s)
    ensures Parse(s, 0) == Ok(Lits(s)) && Fill(Lits(s), groups) == s
  {
    PlainTextParses(s, [], 0);
    assert s + [] == s && Lits(s) + [] == Lits(s);
    FillOfPlain(s, [], groups);
  }

  // ----- What each escape means -----

  /** The single-character escapes stand for one control character or a backslash; no other letter may be escaped, and
      any other character that is no digit keeps its backslash. */
  lemma {:induction false} LetterEscapes(c: char, rest: string, groups: nat)
    ensures var e := Escape(['\\', c] + rest, groups); var known := "abfnrtv\\";
            && (forall k :: 0 <= k < 8 && known[k] == c ==>
                  e == Ok(([Lit("\U{07}\U{08}\U{0C}\n\r\t\U{0B}\\"[k])], 2)))
            && (c !in known && c != 'g' && ('a' <= c <= 'z' || 'A' <= c <= 'Z') ==> e == Err(BadEscape))
            && (c !in known && !('a' <= c <= 'z' || 'A' <= c <= 'Z' || '0' <= c <= '9') ==>
                  e == Ok(([Lit('\\'), Lit(c)], 2)))
    ensures Escape("\\", groups) == Err(BadEscape)
  {
    var t := ['\\', c] + rest;
    assert t[0] == '\\' && t[1] == c;
    var known, meant := "abfnrtv\\", "\U{07}\U{08}\U{0C}\n\r\t\U{0B}\\";
    assert known == ['a', 'b', 'f', 'n', 'r', 't', 'v', '\\'];
    assert meant == ['\U{07}', '\U{08}', '\U{0C}', '\n', '\r', '\t', '\U{0B}', '\\'];
  }

  predicate OctalAt(t: string, i: nat) {
    i < |t| && '0' <= t[i] <= '7'
  }

  /** A zero starts an octal character of up to two more digits; three octal digits are one too, up to 255; else one or
      two digits refer to a group. */
  lemma {:induction false} DigitEscapes(t: string, groups: nat)
    requires |t| >= 2 && t[0] == '\\' && '0' <= t[1] <= '9'
    ensures var e := Escape(t, groups);
            var d := (i: nat) requires i < |t| && '0' <= t[i] <= '9' => t[i] as int - 48;
            if t[1] == '0' then
              e == if !OctalAt(t, 2) then Ok(([Lit('\U{00}')], 2))
                   else if !OctalAt(t, 3) then Ok(([Lit(d(2) as char)], 3))
                   else Ok(([Lit((8 * d(2) + d(3)) as char)], 4))
            else if |t| == 2 || !('0' <= t[2] <= '9') then
              e == if d(1) <= groups then Ok(([Group(d(1))], 2)) else Err(BadGroup)
            else if OctalAt(t, 1) && OctalAt(t, 2) && OctalAt(t, 3) then
              e == if 64 * d(1) + 8 * d(2) + d(3) > 255 then Err(BadEscape)
                   else Ok(([Lit((64 * d(1) + 8 * d(2) + d(3)) as char)], 4))
            else e == if 10 * d(1) + d(2) <= groups then Ok(([Group(10 * d(1) + d(2))], 3)) else Err(BadGroup)
  {
  }

  /** A named group is a number between angle brackets, and a group the pattern has. */
  lemma {:induction false} NamedGroups(t: string, groups: nat)
    requires |t| >= 2 && t[0] == '\\' && t[1] == 'g'
    ensures var e := Escape(t, groups);
            if exists n :: NamesGroup(t, n, groups) then
              exists n :: NamesGroup(t, n, groups) && e == Ok(([Group(Number(t[3..3 + n]))], 4 + n))
            else e == Err(BadGroup)
  {
    var n := if |t| > 3 then Digits(t[3..]) else 0;
    assert n > 0 ==> t[3..][..n] == t[3..3 + n];
    assert forall i :: 0 <= i < n ==> t[3 + i] == t[3..][i];
    forall m | NamesGroup(t, m, groups) ensures m == n {
      MostDigits(t[3..], m);
    }
    if n > 0 && 3 + n < |t| && t[2] == '<' && t[3 + n] == '>' && Number(t[3..3 + n]) <= groups {
      assert NamesGroup(t, n, groups);
    }
  }

  predicate NamesGroup(t: string, n: int, groups: nat) {
    && 0 < n && 3 + n < |t| && t[2] == '<' && t[3 + n] == '>'
    && (forall i :: 3 <= i < 3 + n ==> '0' <= t[i] <= '9')
    && Number(t[3..3 + n]) <= groups
  }

  /** Digits are read as a decimal number. */
  lemma {:induction false} NumberIsDecimal(t: string, c: char)
    requires (forall i :: 0 <= i < |t| ==> IsDigit(t[i])) && '0' <= c <= '9'
    ensures forall i :: 0 <= i < |t + [c]| ==> IsDigit((t + [c])[i])
    ensures Number(t + [c]) == 10 * Number(t) + (c as int - 48)
    ensures Number("") == 0
  {
    assert (t + [c])[..|t|] == t;
  }

  lemma {:induction false} MostDigits(t: string, n: nat)
    requires n < |t| && (forall i :: 0 <= i < n ==> IsDigit(t[i])) && !IsDigit(t[n])
    ensures Digits(t) == n
  {
    if n > 0 {
      MostDigits(t[1..], n - 1);
    }
  }
}
