/** Upserting one marker block in the Notes section. */
module Notes {
  import opened Wrappers
  import opened Sequences
  import opened Text
  import opened Template
  import opened Sections
  import opened Documents
  import opened SectionLaws

  const NOTES := "# Notes\n"

  function StartTok(marker: string): string { "<!-- " + marker + ":start -->" }

  function EndTok(marker: string): string { "<!-- " + marker + ":end -->" }

  function Block(marker: string, body: string): string {
    StartTok(marker) + ("\n" + Strip(body) + "\n") + EndTok(marker)
  }

  // ----- Searching -----

  predicate Occurs(t: string, k: int, p: string) {
    0 <= k && k + |p| <= |t| && t[k..k + |p|] == p
  }

  function FindTok(t: string, p: string, i: nat): (r: Option<nat>)
    requires i <= |t|
    ensures r.Some? ==> i <= r.value && Occurs(t, r.value, p)
    ensures r.Some? ==> forall k :: i <= k < r.value ==> !Occurs(t, k, p)
    ensures r.None? ==> forall k :: i <= k ==> !Occurs(t, k, p)
    decreases |t| - i
  {
    if Occurs(t, i, p) then Some(i) else if i < |t| then FindTok(t, p, i + 1) else None
  }

  datatype Extent = Extent(start: nat, end: nat)

  /** The first match of start.*?end: the first start marker, up to the first end marker behind it. */
  function NextBlock(t: string, marker: string): (r: Option<Extent>)
    ensures r.Some? ==> r.value.start < r.value.end <= |t|
  {
    match FindTok(t, StartTok(marker), 0)
    case None => None
    case Some(i) =>
      match FindTok(t, EndTok(marker), i + |StartTok(marker)|)
      case None => None
      case Some(j) => Some(Extent(i, j + |EndTok(marker)|))
  }

  /** `sub`: fill the template for every match, left to right. */
  function SubBlocks(t: string, marker: string, pieces: seq<Piece>): string
    decreases |t|
  {
    match NextBlock(t, marker)
    case None => t
    case Some(b) =>
      t[..b.start] + (Fill(pieces, [t[b.start..b.end]]) + SubBlocks(t[b.end..], marker, pieces))
  }

  function UpsertBody(existing: string, marker: string, body: string): Result<string, WriteError> {
    var block := Block(marker, body);
    if NextBlock(existing, marker).Some? then
      match Template.Parse(block, 0)
      case Err(e) => Err(TemplateRejected(e))
      case Ok(pieces) => Ok(SubBlocks(existing, marker, pieces))
    else if existing != "" then Ok(existing + "\n\n" + block)
    else Ok(block)
  }

  /** `_upsert_notes_block`. */
  function UpsertNotes(t: string, marker: string, body: string): Result<string, WriteError> {
    match FindSection(t, NOTES)
    case None => Err(MissingSection)
    case Some(s) =>
      match UpsertBody(Strip(t[s.body..s.end]), marker, body)
      case Err(e) => Err(e)
      case Ok(notes) => Ok(t[..s.start] + SectionText(NOTES, notes) + t[s.end..])
  }

  // ----- What a text holds for one marker: its blocks, and the text around them -----

  function BlocksOf(t: string, marker: string): seq<string>
    decreases |t|
  {
    match NextBlock(t, marker)
    case None => []
    case Some(b) => [t[b.start..b.end]] + BlocksOf(t[b.end..], marker)
  }

  function GapsOf(t: string, marker: string): seq<string>
    decreases |t|
  {
    match NextBlock(t, marker)
    case None => [t]
    case Some(b) => [t[..b.start]] + GapsOf(t[b.end..], marker)
  }

  /** A marker the tokens cannot overlap with themselves for. */
  predicate PlainMarker(marker: string) {
    forall i :: 0 <= i < |marker| ==> marker[i] != '<' && marker[i] != '\n' && marker[i] != '\\'
  }

  /** A stripped body inserted as it is, that opens no section and holds no marker of this block. */
  predicate PlainNote(b: string, marker: string) {
    && NoBackslash(b) && HeadingFree(b)
    && forall k :: 0 <= k <= |b| ==> !Occurs(b, k, StartTok(marker)) && !Occurs(b, k, EndTok(marker))
  }

  predicate IsToken(p: string) {
    && |p| > 9 && p[0] == '<' && p[|p| - 1] == '>'
    && (forall i :: 0 < i < |p| ==> p[i] != '<')
    && (forall i :: 0 <= i < |p| ==> p[i] != '\n' && p[i] != '\\')
  }

  lemma {:induction false} TokensAreTokens(marker: string)
    requires PlainMarker(marker)
    ensures IsToken(StartTok(marker)) && IsToken(EndTok(marker))
  {
    TokenAround(marker, ":start -->");
    TokenAround(marker, ":end -->");
  }

  lemma {:induction false} TokenAround(marker: string, tail: string)
    requires PlainMarker(marker) && |tail| > 4 && tail[|tail| - 1] == '>'
    requires forall i :: 0 <= i < |tail| ==> tail[i] != '<' && tail[i] != '\n' && tail[i] != '\\'
    ensures IsToken("<!-- " + marker + tail)
  {
    var open := "<!-- ";
    var p := open + marker + tail;
    assert forall i :: 0 <= i < |open| ==> p[i] == open[i];
    assert forall i :: |open| <= i < |open| + |marker| ==> p[i] == marker[i - |open|];
    assert forall i :: |open| + |marker| <= i < |p| ==> p[i] == tail[i - |open| - |marker|];
  }

  /** A token does not run across a line break or the start of another token. */
  lemma {:induction false} TokenStaysInFront(a: string, b: string, p: string, k: nat)
    requires IsToken(p) && k < |a| && (b == [] || b[0] == '<' || b[0] == '\n')
    ensures Occurs(a + b, k, p) <==> Occurs(a, k, p)
  {
    var t := a + b;
    if k + |p| <= |a| {
      assert t[k..k + |p|] == a[k..k + |p|];
    } else if k + |p| <= |t| {
      assert t[k..k + |p|][|a| - k] == b[0];
    }
  }

  lemma {:induction false} TokenBehind(a: string, b: string, p: string, k: nat)
    ensures Occurs(a + b, |a| + k, p) <==> Occurs(b, k, p)
  {
    if k + |p| <= |b| {
      assert (a + b)[|a| + k..|a| + k + |p|] == b[k..k + |p|];
    }
  }

  lemma {:induction false} FindTokIs(t: string, p: string, i: nat, j: nat)
    requires i <= j <= |t| && Occurs(t, j, p) && forall k :: i <= k < j ==> !Occurs(t, k, p)
    ensures FindTok(t, p, i) == Some(j)
  {
  }

  /** A front without the token, then the token: that is where it is found. */
  lemma {:induction false} FindTokBehindFront(a: string, p: string, rest: string)
    requires IsToken(p) && forall k :: 0 <= k <= |a| ==> !Occurs(a, k, p)
    ensures FindTok(a + (p + rest), p, 0) == Some(|a|)
  {
    hide IsToken;
    var t := a + (p + rest);
    forall k | 0 <= k < |a|
      ensures !Occurs(t, k, p)
    {
      assert (p + rest)[0] == '<' by { TokenOpens(p); }
      TokenStaysInFront(a, p + rest, p, k);
    }
    assert (p + rest)[0..|p|] == p;
    assert Occurs(p + rest, 0, p);
    TokenBehind(a, p + rest, p, 0);
    FindTokIs(t, p, 0, |a|);
  }

  lemma {:induction false} TokenOpens(p: string)
    requires IsToken(p)
    ensures p != [] && p[0] == '<'
  {
  }

  lemma {:induction false} FindTokShift(a: string, b: string, p: string, i: nat)
    requires i <= |b|
    ensures var f := FindTok(b, p, i);
            FindTok(a + b, p, |a| + i) == if f.None? then None else Some(|a| + f.value)
  {
    var t := a + b;
    var f := FindTok(b, p, i);
    var g := FindTok(t, p, |a| + i);
    if f.Some? {
      TokenBehind(a, b, p, f.value);
    }
    if g.Some? {
      TokenBehind(a, b, p, g.value - |a|);
    }
  }

  /** A gap without the start marker, then a block: that block is the first match. */
  lemma {:induction false} NextBlockBehindGap(gap: string, marker: string, body: string, rest: string)
    requires PlainMarker(marker) && PlainNote(Strip(body), marker)
    requires forall k :: 0 <= k <= |gap| ==> !Occurs(gap, k, StartTok(marker))
    ensures NextBlock(gap + (Block(marker, body) + rest), marker) ==
            Some(Extent(|gap|, |gap| + |Block(marker, body)|))
  {
    hide FindTok, IsToken, PlainMarker, StartTok, EndTok, Occurs, Strip;
    TokensAreTokens(marker);
    var s, e, b := StartTok(marker), EndTok(marker), "\n" + Strip(body) + "\n";
    var t := gap + (Block(marker, body) + rest);
    var tail := b + (e + rest);
    Regroup3(s, b, e);
    Regroup3(s + b, e, rest);
    Regroup3(s, b, e + rest);
    Regroup3(gap, s, tail);
    assert Block(marker, body) + rest == s + tail;
    FindTokBehindFront(gap, s, tail);
    EndNotInBody(Strip(body), e, marker);
    FindTokBehindFront(b, e, rest);
    FindTokShift(gap + s, tail, e, 0);
  }

  lemma {:induction false} EndNotInBody(b: string, p: string, marker: string)
    requires IsToken(p) && forall k :: 0 <= k <= |b| ==> !Occurs(b, k, p)
    ensures var c := "\n" + b + "\n"; forall k :: 0 <= k <= |c| ==> !Occurs(c, k, p)
  {
    var c := "\n" + b + "\n";
    forall k | 0 <= k <= |c| ensures !Occurs(c, k, p) {
      if 0 < k <= |b| {
        TokenStaysInFront("\n" + b, "\n", p, k);
        TokenBehind("\n", b, p, k - 1);
      } else if k + |p| <= |c| {
        assert c[k..k + |p|][0] == c[k] == '\n';
      }
    }
  }

  // ----- Substituting all blocks -----

  lemma {:induction false} PlainBlockTemplate(marker: string, body: string)
    requires PlainMarker(marker) && NoBackslash(Strip(body))
    ensures Template.Parse(Block(marker, body), 0) == Ok(Lits(Block(marker, body)))
    ensures forall groups :: Fill(Lits(Block(marker, body)), groups) == Block(marker, body)
  {
    TokensAreTokens(marker);
    assert NoBackslash(Block(marker, body));
    forall groups ensures Fill(Lits(Block(marker, body)), groups) == Block(marker, body) {
      PlainTemplate(Block(marker, body), groups);
    }
    PlainTemplate(Block(marker, body), []);
  }

  lemma {:induction false} GapHasNoStart(t: string, marker: string)
    requires NextBlock(t, marker).Some? && PlainMarker(marker)
    ensures var gap := t[..NextBlock(t, marker).value.start];
            forall k :: 0 <= k <= |gap| ==> !Occurs(gap, k, StartTok(marker))
  {
    var s := StartTok(marker);
    var i := NextBlock(t, marker).value.start;
    var gap := t[..i];
    forall k | 0 <= k <= |gap| ensures !Occurs(gap, k, s) {
      if k < i && k + |s| <= i {
        assert gap[k..k + |s|] == t[k..k + |s|];
        assert !Occurs(t, k, s);
      }
    }
  }

  /** Every block of the marker becomes the new block; every other character stays. */
  lemma {:induction false} SubRewritesBlocksOnly(t: string, marker: string, body: string)
    requires PlainMarker(marker) && PlainNote(Strip(body), marker)
    ensures var new_ := SubBlocks(t, marker, Lits(Block(marker, body)));
            && GapsOf(new_, marker) == GapsOf(t, marker)
            && |BlocksOf(new_, marker)| == |BlocksOf(t, marker)|
            && forall b :: b in BlocksOf(new_, marker) ==> b == Block(marker, body)
    decreases |t|
  {
    hide NextBlock, Block, Lits, PlainNote, PlainMarker, Fill;
    var next := NextBlock(t, marker);
    if next.Some? {
      var gap, rest := t[..next.value.start], t[next.value.end..];
      var block := Block(marker, body);
      var more := SubBlocks(rest, marker, Lits(block));
      SubRewritesBlocksOnly(rest, marker, body);
      NoteIsBackslashFree(body, marker);
      PlainBlockTemplate(marker, body);
      GapHasNoStart(t, marker);
      NextBlockBehindGap(gap, marker, body, more);
      BlockBetween(gap, block, more);
    }
  }

  lemma {:induction false} NoteIsBackslashFree(body: string, marker: string)
    requires PlainNote(Strip(body), marker)
    ensures NoBackslash(Strip(body))
  {
  }

  lemma {:induction false} BlockBetween(gap: string, block: string, rest: string)
    ensures var t := gap + (block + rest); var j := |gap| + |block|;
            t[..|gap|] == gap && t[|gap|..j] == block && t[j..] == rest
  {
  }

  /** Substituting twice is substituting once. */
  lemma {:induction false} SubIsIdempotent(t: string, marker: string, body: string)
    requires PlainMarker(marker) && PlainNote(Strip(body), marker)
    ensures var pieces := Lits(Block(marker, body)); var once := SubBlocks(t, marker, pieces);
            SubBlocks(once, marker, pieces) == once
    decreases |t|
  {
    hide NextBlock, Block, Lits, PlainNote, PlainMarker, Fill, SubBlocks;
    var block := Block(marker, body);
    if NextBlock(t, marker).None? {
      SubOfNone(t, marker, Lits(block));
    } else {
      var next := NextBlock(t, marker).value;
      var gap, rest := t[..next.start], t[next.end..];
      var more := SubBlocks(rest, marker, Lits(block));
      NoteIsBackslashFree(body, marker);
      PlainBlockTemplate(marker, body);
      SubOfSome(t, marker, block, Lits(block));
      SubIsIdempotent(rest, marker, body);
      GapHasNoStart(t, marker);
      NextBlockBehindGap(gap, marker, body, more);
      SubOfBlock(gap, block, more, marker, Lits(block));
    }
  }

  lemma {:induction false} SubOfNone(t: string, marker: string, pieces: seq<Piece>)
    requires NextBlock(t, marker).None?
    ensures SubBlocks(t, marker, pieces) == t
  {
  }

  lemma {:induction false} SubOfSome(t: string, marker: string, block: string, pieces: seq<Piece>)
    requires NextBlock(t, marker).Some? && forall groups :: Fill(pieces, groups) == block
    ensures var next := NextBlock(t, marker).value;
            SubBlocks(t, marker, pieces) == t[..next.start] + (block + SubBlocks(t[next.end..], marker, pieces))
  {
    hide NextBlock, Fill;
  }

  lemma {:induction false} SubOfBlock(gap: string, block: string, more: string, marker: string, pieces: seq<Piece>)
    requires NextBlock(gap + (block + more), marker) == Some(Extent(|gap|, |gap| + |block|))
    requires forall groups :: Fill(pieces, groups) == block
    ensures SubBlocks(gap + (block + more), marker, pieces) == gap + (block + SubBlocks(more, marker, pieces))
  {
    hide NextBlock, Fill;
    BlockBetween(gap, block, more);
  }

  // ----- The body of the section after an upsert -----

  /** A start marker is open: it occurs, but no block is ever closed. */
  predicate OpenMarker(t: string, marker: string) {
    NextBlock(t, marker).None? && FindTok(t, StartTok(marker), 0).Some?
  }

  /** Without an open marker, the first upsert leaves exactly one block, behind the text that was there. */
  lemma {:induction false} AppendedBlock(existing: string, marker: string, body: string)
    requires PlainMarker(marker) && PlainNote(Strip(body), marker)
    requires NextBlock(existing, marker).None? && !OpenMarker(existing, marker)
    ensures var new_ := UpsertBody(existing, marker, body).value;
            && BlocksOf(new_, marker) == [Block(marker, body)]
            && GapsOf(new_, marker) == [if existing == "" then "" else existing + "\n\n", ""]
            && SubBlocks(new_, marker, Lits(Block(marker, body))) == new_
            && NextBlock(new_, marker).Some?
  {
    hide NextBlock, Block, Lits, PlainNote, PlainMarker, Fill, StartTok, EndTok, IsToken;
    var s := StartTok(marker);
    var gap := if existing == "" then "" else existing + "\n\n";
    var block := Block(marker, body);
    TokensAreTokens(marker);
    forall k | 0 <= k <= |gap| ensures !Occurs(gap, k, s) {
      GapOfExisting(existing, s, k);
    }
    NextBlockBehindGap(gap, marker, body, "");
    NoBlockInEmpty(marker);
    BlockBetween(gap, block, "");
    assert block + "" == block;
    assert UpsertBody(existing, marker, body).value == gap + block;
    NoteIsBackslashFree(body, marker);
    PlainBlockTemplate(marker, body);
    assert gap + (block + SubBlocks("", marker, Lits(block))) == gap + block;
  }

  lemma {:induction false} NoBlockInEmpty(marker: string)
    ensures NextBlock("", marker) == None
  {
    assert StartTok(marker)[0] == '<';
    assert !Occurs("", 0, StartTok(marker));
  }

  lemma {:induction false} GapOfExisting(existing: string, s: string, k: nat)
    requires IsToken(s) && FindTok(existing, s, 0).None?
    ensures var gap := if existing == "" then "" else existing + "\n\n";
            k <= |gap| ==> !Occurs(gap, k, s)
  {
    if existing != "" && k < |existing| {
      TokenStaysInFront(existing, "\n\n", s, k);
    }
  }

  /** The upsert an open marker spoils: the next one swallows the text from the open marker on. */
  lemma {:induction false} OpenMarkerIsSwallowed(existing: string, marker: string, body: string)
    requires PlainMarker(marker) && PlainNote(Strip(body), marker)
    requires OpenMarker(existing, marker) && existing != ""
    ensures var new_ := UpsertBody(existing, marker, body).value;
            && NextBlock(new_, marker).Some?
            && |SubBlocks(new_, marker, Lits(Block(marker, body)))| < |new_|
  {
    hide PlainNote, PlainMarker, Fill, IsToken, StartTok, EndTok, Lits, Block, SubBlocks, NextBlock;
    var s, e := StartTok(marker), EndTok(marker);
    var block := Block(marker, body);
    var new_ := existing + "\n\n" + block;
    var i := FindTok(existing, s, 0).value;
    TokensAreTokens(marker);
    SwallowedExtent(existing, marker, body, i);
    NoteIsBackslashFree(body, marker);
    PlainBlockTemplate(marker, body);
    NoBlockInEmpty(marker);
    SubOfNone("", marker, Lits(block));
    assert new_[|new_|..] == "";
    SubOfSome(new_, marker, block, Lits(block));
  }

  lemma {:induction false} SwallowedExtent(existing: string, marker: string, body: string, i: nat)
    requires PlainMarker(marker) && PlainNote(Strip(body), marker)
    requires FindTok(existing, StartTok(marker), 0) == Some(i) && OpenMarker(existing, marker)
    ensures var new_ := existing + "\n\n" + Block(marker, body);
            NextBlock(new_, marker) == Some(Extent(i, |new_|)) && i < |existing|
  {
    hide IsToken, PlainMarker, StartTok, EndTok, FindTok, Occurs;
    var s, e, b := StartTok(marker), EndTok(marker), Strip(body);
    TokensAreTokens(marker);
    FindTokFacts(existing, s, 0);
    StartFits(existing, s, i);
    var tail := "\n\n" + Block(marker, body);
    var new_ := existing + tail;
    assert new_ == existing + "\n\n" + Block(marker, body);
    forall k | 0 <= k <= i ensures Occurs(new_, k, s) <==> k == i {
      TokenStaysInFront(existing, tail, s, k);
    }
    FindTokIs(new_, s, 0, i);
    FindTokFacts(existing, e, i + |s|);
    EndOfNewBlock(marker, body);
    forall k | i + |s| <= k < |new_| - |e| ensures !Occurs(new_, k, e) {
      if k < |existing| {
        TokenStaysInFront(existing, tail, e, k);
      } else {
        TokenBehind(existing, tail, e, k - |existing|);
      }
    }
    TokenBehind(existing, tail, e, |tail| - |e|);
    FindTokIs(new_, e, i + |s|, |new_| - |e|);
  }

  lemma {:induction false} StartFits(t: string, p: string, i: nat)
    requires Occurs(t, i, p) && IsToken(p)
    ensures i < i + |p| <= |t|
  {
  }

  /** Behind an open start marker, the first end marker is the one of the appended block. */
  lemma {:induction false} EndOfNewBlock(marker: string, body: string)
    requires PlainMarker(marker) && PlainNote(Strip(body), marker)
    ensures var tail := "\n\n" + Block(marker, body); var e := EndTok(marker);
            && |e| <= |tail| && Occurs(tail, |tail| - |e|, e)
            && forall k :: 0 <= k < |tail| - |e| ==> !Occurs(tail, k, e)
  {
    hide IsToken, PlainMarker, StartTok, EndTok, FindTok;
    var s, e, b := StartTok(marker), EndTok(marker), Strip(body);
    TokensAreTokens(marker);
    var mid := "\n\n" + (s + ("\n" + b + "\n"));
    assert "\n\n" + Block(marker, body) == mid + (e + "");
    NoEndInFrontOfBlock(b, marker);
    FindTokBehindFront(mid, e, "");
    FindTokFacts(mid + (e + ""), e, 0);
  }

  lemma {:induction false} FindTokFacts(t: string, p: string, i: nat)
    requires i <= |t|
    ensures var r := FindTok(t, p, i);
            && (r.Some? ==> i <= r.value && Occurs(t, r.value, p) && forall k :: i <= k < r.value ==> !Occurs(t, k, p))
            && (r.None? ==> forall k :: i <= k ==> !Occurs(t, k, p))
  {
  }

  lemma {:induction false} EndIsNotStart(marker: string)
    requires PlainMarker(marker)
    ensures !Occurs("\n\n" + StartTok(marker), 2, EndTok(marker))
  {
    var s, e := "\n\n" + StartTok(marker), EndTok(marker);
    var n := 5 + |marker| + 1;
    assert e[n] == 'e' && s[2 + n] == 's';
    if 2 + |e| <= |s| {
      assert s[2..2 + |e|][n] == s[2 + n];
    }
  }

  lemma {:induction false} NoEndInFrontOfBlock(b: string, marker: string)
    requires PlainMarker(marker) && forall k :: 0 <= k <= |b| ==> !Occurs(b, k, EndTok(marker))
    ensures var mid := "\n\n" + (StartTok(marker) + ("\n" + b + "\n"));
            forall k :: 0 <= k <= |mid| ==> !Occurs(mid, k, EndTok(marker))
  {
    hide StartTok, EndTok;
    var s, e := StartTok(marker), EndTok(marker);
    TokensAreTokens(marker);
    var front, c := "\n\n" + s, "\n" + b + "\n";
    var mid := "\n\n" + (s + c);
    assert mid == front + c;
    EndNotInBody(b, e, marker);
    EndIsNotStart(marker);
    forall k | 0 <= k <= |mid| ensures !Occurs(mid, k, e) {
      if k < |front| {
        TokenStaysInFront(front, c, e, k);
      } else {
        TokenBehind(front, c, e, k - |front|);
      }
    }
  }
}
