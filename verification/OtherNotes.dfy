/** What upserting a block does to the blocks of other markers. */
module OtherNotes {
  import opened Wrappers
  import opened Sequences
  import opened Text
  import opened Sections
  import opened Template
  import opened Notes
  import opened NotesLaws

  // ----- Texts that tokens of a marker do not touch -----

  /** A marker none of whose tokens has a '>' before its last character. */
  predicate ClosedMarker(marker: string) {
    PlainMarker(marker) && '>' !in marker
  }

  predicate Token(p: string, marker: string) {
    p == StartTok(marker) || p == EndTok(marker)
  }

  /** No token of the marker occurs in s. */
  predicate Foreign(s: string, marker: string) {
    forall k :: 0 <= k <= |s| ==> !Occurs(s, k, StartTok(marker)) && !Occurs(s, k, EndTok(marker))
  }

  /** A piece of text that no token of the marker occurs in or runs into or out of. */
  predicate Wall(s: string, marker: string) {
    && s != [] && (s[0] == '<' || s[0] == '\n') && (s[|s| - 1] == '>' || s[|s| - 1] == '\n')
    && Foreign(s, marker)
  }

  lemma {:induction false} TokenIsClosed(p: string, marker: string)
    requires ClosedMarker(marker) && Token(p, marker)
    ensures IsToken(p) && forall i :: 0 <= i < |p| - 1 ==> p[i] != '>'
  {
    TokensAreTokens(marker);
    ClosedAround(marker, ":start --");
    ClosedAround(marker, ":end --");
    assert StartTok(marker) == ("<!-- " + marker + ":start --") + ">";
    assert EndTok(marker) == ("<!-- " + marker + ":end --") + ">";
  }

  lemma {:induction false} ClosedAround(marker: string, tail: string)
    requires '>' !in marker && '>' !in tail
    ensures '>' !in "<!-- " + marker + tail
  {
  }

  /** The tokens of a text with a wall in it are those in front of the wall and those behind it. */
  lemma {:induction false} TokensAroundWall(
      front: string, wall: string, rest: string, p: string, marker: string, k: nat)
    requires ClosedMarker(marker) && Token(p, marker) && Wall(wall, marker)
    ensures k < |front| ==> (Occurs(front + (wall + rest), k, p) <==> Occurs(front, k, p))
    ensures |front| <= k < |front| + |wall| ==> !Occurs(front + (wall + rest), k, p)
  {
    TokenIsClosed(p, marker);
    hide StartTok, EndTok, PlainMarker;
    if k < |front| {
      TokenStaysInFront(front, wall + rest, p, k);
    } else if k < |front| + |wall| {
      var i := k - |front|;
      TokenBehind(front, wall + rest, p, i);
      TokenInWall(wall, rest, p, i);
    }
  }

  lemma {:induction false} TokenInWall(wall: string, rest: string, p: string, i: nat)
    requires IsToken(p) && (forall j :: 0 <= j < |p| - 1 ==> p[j] != '>') && i < |wall|
    requires wall[|wall| - 1] == '>' || wall[|wall| - 1] == '\n'
    ensures Occurs(wall + rest, i, p) ==> Occurs(wall, i, p)
  {
    OccursChar(wall + rest, i, p, |wall| - 1 - i);
    if i + |p| <= |wall| {
      assert (wall + rest)[i..i + |p|] == wall[i..i + |p|];
    }
  }

  lemma {:induction false} OccursChar(t: string, k: nat, p: string, i: int)
    ensures Occurs(t, k, p) && 0 <= i < |p| ==> k + i < |t| && t[k + i] == p[i]
  {
    if Occurs(t, k, p) && 0 <= i < |p| {
      assert t[k..k + |p|][i] == t[k + i];
    }
  }

  function Shifted(n: nat, r: Option<nat>): Option<nat> {
    match r case None => None case Some(i) => Some(n + i)
  }

  /** A search that starts in front of a wall. */
  lemma {:induction false} FindAcrossWall(front: string, wall: string, rest: string, p: string, marker: string, i: nat)
    requires ClosedMarker(marker) && Token(p, marker) && Wall(wall, marker) && i <= |front|
    ensures FindTok(front + (wall + rest), p, i) ==
            if FindTok(front, p, i).Some? then FindTok(front, p, i)
            else Shifted(|front| + |wall|, FindTok(rest, p, 0))
  {
    hide Wall, ClosedMarker, Token, Occurs;
    var t, n := front + (wall + rest), |front| + |wall|;
    var found, behind := FindTok(front, p, i), FindTok(rest, p, 0);
    forall k: nat | k < n
      ensures k < |front| ==> (Occurs(t, k, p) <==> Occurs(front, k, p))
      ensures |front| <= k ==> !Occurs(t, k, p)
    {
      TokensAroundWall(front, wall, rest, p, marker, k);
    }
    if found.Some? {
      TokenFits(front, p, found.value, marker);
      FindTokIs(t, p, i, found.value);
    } else {
      Regroup3(front, wall, rest);
      FindTokShift(front + wall, rest, p, 0);
      FindFromLater(t, p, i, n);
    }
  }

  lemma {:induction false} TokenFits(t: string, p: string, k: nat, marker: string)
    requires Occurs(t, k, p) && Token(p, marker)
    ensures k < k + |p| <= |t|
  {
  }

  lemma {:induction false} FindFromLater(t: string, p: string, i: nat, n: nat)
    requires i <= n <= |t| && forall k :: i <= k < n ==> !Occurs(t, k, p)
    ensures FindTok(t, p, i) == FindTok(t, p, n)
    decreases n - i
  {
    if i < n {
      FindFromLater(t, p, i + 1, n);
    }
  }

  // ----- Blocks around a wall -----

  /** Behind the blocks of s, a start marker is left open. */
  predicate Dangles(s: string, marker: string)
    decreases |s|
  {
    match NextBlock(s, marker)
    case Some(b) => Dangles(s[b.end..], marker)
    case None => FindTok(s, StartTok(marker), 0).Some?
  }

  /** The first block of the text in front of a wall is the first block of the whole text. */
  lemma {:induction false} BlockInFront(front: string, wall: string, rest: string, marker: string)
    requires ClosedMarker(marker) && Wall(wall, marker) && NextBlock(front, marker).Some?
    ensures NextBlock(front + (wall + rest), marker) == NextBlock(front, marker)
    ensures var t, end := front + (wall + rest), NextBlock(front, marker).value.end;
            t[end..] == front[end..] + (wall + rest)
            && t[NextBlock(front, marker).value.start..end] == front[NextBlock(front, marker).value.start..end]
  {
    hide Wall, ClosedMarker, FindTok, StartTok, EndTok;
    var s, e := StartTok(marker), EndTok(marker);
    var i := FindTok(front, s, 0).value;
    TokenFits(front, s, i, marker);
    FindAcrossWall(front, wall, rest, s, marker, 0);
    FindAcrossWall(front, wall, rest, e, marker, i + |s|);
  }

  /** Without a block in front of the wall, the first block starts behind it, unless an open start marker in front
      takes an end marker from behind. */
  lemma {:induction false} BlockBehind(front: string, wall: string, rest: string, marker: string)
    requires ClosedMarker(marker) && Wall(wall, marker) && NextBlock(front, marker).None?
    ensures var t, n := front + (wall + rest), |front| + |wall|;
            var start, next := FindTok(front, StartTok(marker), 0), NextBlock(t, marker);
            && (start.None? ==> next == ShiftedExtent(n, NextBlock(rest, marker)))
            && (start.Some? && FindTok(rest, EndTok(marker), 0).None? ==> next.None?)
            && (start.Some? && FindTok(rest, EndTok(marker), 0).Some? ==>
                  next.Some? && next.value.start == start.value < |front| && n <= next.value.end)
  {
    hide Wall, ClosedMarker, FindTok, StartTok, EndTok;
    var s, e, n := StartTok(marker), EndTok(marker), |front| + |wall|;
    FindAcrossWall(front, wall, rest, s, marker, 0);
    var start := FindTok(front, s, 0);
    if start.Some? {
      TokenFits(front, s, start.value, marker);
      FindAcrossWall(front, wall, rest, e, marker, start.value + |s|);
    } else {
      Regroup3(front, wall, rest);
      NextBlockShifted(front + wall, rest, marker);
    }
  }

  lemma {:induction false} NextBlockShifted(a: string, rest: string, marker: string)
    requires FindTok(a + rest, StartTok(marker), 0) == Shifted(|a|, FindTok(rest, StartTok(marker), 0))
    ensures NextBlock(a + rest, marker) == ShiftedExtent(|a|, NextBlock(rest, marker))
  {
    hide FindTok, StartTok, EndTok;
    var start := FindTok(rest, StartTok(marker), 0);
    if start.Some? {
      TokenFits(rest, StartTok(marker), start.value, marker);
      FindTokShift(a, rest, EndTok(marker), start.value + |StartTok(marker)|);
    }
  }

  function ShiftedExtent(n: nat, e: Option<Extent>): Option<Extent> {
    match e case None => None case Some(b) => Some(Extent(n + b.start, n + b.end))
  }

  lemma {:induction false} NoEndNoBlock(t: string, marker: string)
    requires FindTok(t, EndTok(marker), 0).None?
    ensures BlocksOf(t, marker) == [] && NextBlock(t, marker).None?
  {
    var start := FindTok(t, StartTok(marker), 0);
    if start.Some? {
      TokenFits(t, StartTok(marker), start.value, marker);
      assert forall k :: start.value + |StartTok(marker)| <= k ==> !Occurs(t, k, EndTok(marker));
    }
  }

  lemma {:induction false} BlocksOfShifted(a: string, rest: string, marker: string)
    requires NextBlock(a + rest, marker) == ShiftedExtent(|a|, NextBlock(rest, marker))
    ensures BlocksOf(a + rest, marker) == BlocksOf(rest, marker)
  {
    hide NextBlock;
    if NextBlock(rest, marker).Some? {
      var b := NextBlock(rest, marker).value;
      assert (a + rest)[|a| + b.start..|a| + b.end] == rest[b.start..b.end];
      assert (a + rest)[|a| + b.end..] == rest[b.end..];
    }
  }

  /** The blocks of a text with a wall in it are those in front of the wall and those behind it. */
  lemma {:induction false} BlocksAroundWall(front: string, wall: string, rest: string, marker: string)
    requires ClosedMarker(marker) && Wall(wall, marker)
    requires Dangles(front, marker) ==> FindTok(rest, EndTok(marker), 0).None?
    ensures BlocksOf(front + (wall + rest), marker) == BlocksOf(front, marker) + BlocksOf(rest, marker)
    decreases |front|
  {
    hide Wall, ClosedMarker, NextBlock, FindTok;
    var t := front + (wall + rest);
    if NextBlock(front, marker).Some? {
      var b := NextBlock(front, marker).value;
      BlockInFront(front, wall, rest, marker);
      BlocksAroundWall(front[b.end..], wall, rest, marker);
      Regroup3([front[b.start..b.end]], BlocksOf(front[b.end..], marker), BlocksOf(rest, marker));
    } else {
      BlockBehind(front, wall, rest, marker);
      assert [] + BlocksOf(rest, marker) == BlocksOf(rest, marker);
      if FindTok(front, StartTok(marker), 0).None? {
        Regroup3(front, wall, rest);
        BlocksOfShifted(front + wall, rest, marker);
      } else {
        NoEndNoBlock(rest, marker);
      }
    }
  }

  // ----- No block of the other marker encloses a block of this one -----

  /** The two markers' blocks lie apart: no token of `other` occurs in a block of `marker`, and no block of `other`
      has a start marker of `marker` in it. */
  predicate Apart(t: string, marker: string, other: string) {
    && (forall b :: b in BlocksOf(t, marker) ==> Foreign(b, other))
    && (forall x :: x in BlocksOf(t, other) ==> FindTok(x, StartTok(marker), 0).None?)
  }

  predicate NoneEncloses(t: string, marker: string, other: string) {
    forall x :: x in BlocksOf(t, other) ==> FindTok(x, StartTok(marker), 0).None?
  }

  lemma {:induction false} OpenFrontIsNeverClosed(
      front: string, wall: string, rest: string, marker: string, other: string)
    requires ClosedMarker(other) && Wall(wall, other) && Occurs(wall, 0, StartTok(marker))
    requires NoneEncloses(front + (wall + rest), marker, other)
    ensures Dangles(front, other) ==> FindTok(rest, EndTok(other), 0).None?
    decreases |front|
  {
    hide Wall, ClosedMarker, NextBlock, FindTok, Occurs;
    var t := front + (wall + rest);
    if NextBlock(front, other).Some? {
      var b := NextBlock(front, other).value;
      BlockInFront(front, wall, rest, other);
      LaterBlocks(t, other);
      OpenFrontIsNeverClosed(front[b.end..], wall, rest, marker, other);
    } else {
      BlockBehind(front, wall, rest, other);
      if FindTok(front, StartTok(other), 0).Some? && FindTok(rest, EndTok(other), 0).Some? {
        var x := NextBlock(t, other).value;
        LaterBlocks(t, other);
        EnclosedToken(front, wall, rest, StartTok(marker), x.start, x.end);
        assert false;
      }
    }
  }

  lemma {:induction false} LaterBlocks(t: string, marker: string)
    requires NextBlock(t, marker).Some?
    ensures var b := NextBlock(t, marker).value;
            && t[b.start..b.end] in BlocksOf(t, marker)
            && forall x :: x in BlocksOf(t[b.end..], marker) ==> x in BlocksOf(t, marker)
  {
    hide NextBlock;
  }

  lemma {:induction false} EnclosedToken(front: string, wall: string, rest: string, p: string, i: nat, j: nat)
    requires Occurs(wall, 0, p) && i < |front| && |front| + |wall| <= j <= |front + (wall + rest)|
    ensures FindTok((front + (wall + rest))[i..j], p, 0).Some?
  {
    var t := front + (wall + rest);
    var x, k := t[i..j], |front| - i;
    SliceOfSlice(t, i, j, k, k + |p|);
    assert t[|front|..|front| + |p|] == wall[0..|p|];
    assert Occurs(x, k, p);
  }

  // ----- Substituting and appending -----

  lemma {:induction false} BlockIsWall(t: string, marker: string, other: string)
    requires NextBlock(t, marker).Some?
    requires var b := NextBlock(t, marker).value; Foreign(t[b.start..b.end], other)
    ensures var b := NextBlock(t, marker).value;
            Wall(t[b.start..b.end], other) && Occurs(t[b.start..b.end], 0, StartTok(marker))
  {
    var b, s, e := NextBlock(t, marker).value, StartTok(marker), EndTok(marker);
    BlockEnds(t, marker);
    hide NextBlock, FindTok, Foreign;
    var block := t[b.start..b.end];
    assert block[0..|s|] == s && block[|block| - |e|..] == e;
    assert block[0] == s[0] == '<' && block[|block| - 1] == e[|e| - 1] == '>';
  }

  lemma {:induction false} BlockEnds(t: string, marker: string)
    requires NextBlock(t, marker).Some?
    ensures var b, s, e := NextBlock(t, marker).value, StartTok(marker), EndTok(marker);
            && b.start + |s| + |e| <= b.end
            && t[b.start..b.start + |s|] == s && t[b.end - |e|..b.end] == e
  {
    hide StartTok, EndTok;
  }

  lemma {:induction false} NewBlockIsWall(marker: string, body: string, other: string)
    requires PlainMarker(marker) && PlainNote(Strip(body), marker) && Foreign(Block(marker, body), other)
    ensures Wall(Block(marker, body), other)
  {
    BlockIsInnerFree(marker, body);
    hide Block;
  }

  /** Substituting the blocks of one marker brings in no end marker of another. */
  lemma {:induction false} SubBringsNoEnd(t: string, marker: string, body: string, other: string)
    requires PlainMarker(marker) && PlainNote(Strip(body), marker) && ClosedMarker(other)
    requires Foreign(Block(marker, body), other) && forall b :: b in BlocksOf(t, marker) ==> Foreign(b, other)
    requires FindTok(t, EndTok(other), 0).None?
    ensures FindTok(SubBlocks(t, marker, Lits(Block(marker, body))), EndTok(other), 0).None?
    decreases |t|
  {
    hide NextBlock, Block, Lits, PlainNote, PlainMarker, ClosedMarker, Fill, SubBlocks, Wall, Foreign, FindTok;
    var block := Block(marker, body);
    if NextBlock(t, marker).None? {
      SubOfNone(t, marker, Lits(block));
    } else {
      var b := NextBlock(t, marker).value;
      var front, old_, rest := t[..b.start], t[b.start..b.end], t[b.end..];
      Replaced(t, marker, body);
      LaterBlocks(t, marker);
      BlockIsWall(t, marker, other);
      NewBlockIsWall(marker, body, other);
      FindAcrossWall(front, old_, rest, EndTok(other), other, 0);
      SubBringsNoEnd(rest, marker, body, other);
      FindAcrossWall(front, block, SubBlocks(rest, marker, Lits(block)), EndTok(other), other, 0);
    }
  }

  /** A text with a block, and what substituting gives, cut at the first block. */
  lemma {:induction false} Replaced(t: string, marker: string, body: string)
    requires PlainMarker(marker) && PlainNote(Strip(body), marker) && NextBlock(t, marker).Some?
    ensures var b, block := NextBlock(t, marker).value, Block(marker, body);
            && t == t[..b.start] + (t[b.start..b.end] + t[b.end..])
            && SubBlocks(t, marker, Lits(block)) == t[..b.start] + (block + SubBlocks(t[b.end..], marker, Lits(block)))
  {
    hide NextBlock, Block, Lits, PlainNote, PlainMarker, Fill, SubBlocks;
    NoteIsBackslashFree(body, marker);
    PlainBlockTemplate(marker, body);
    SubOfSome(t, marker, Block(marker, body), Lits(Block(marker, body)));
  }

  lemma {:induction false} SubKeepsOtherBlocks(t: string, marker: string, body: string, other: string)
    requires PlainMarker(marker) && PlainNote(Strip(body), marker) && ClosedMarker(other)
    requires Foreign(Block(marker, body), other) && Apart(t, marker, other)
    ensures BlocksOf(SubBlocks(t, marker, Lits(Block(marker, body))), other) == BlocksOf(t, other)
    decreases |t|
  {
    hide NextBlock, Block, Lits, PlainNote, PlainMarker, ClosedMarker, Fill, SubBlocks, Wall, Foreign, FindTok, Dangles;
    hide Occurs;
    var block := Block(marker, body);
    if NextBlock(t, marker).None? {
      SubOfNone(t, marker, Lits(block));
    } else {
      var b := NextBlock(t, marker).value;
      var front, old_, rest := t[..b.start], t[b.start..b.end], t[b.end..];
      var more := SubBlocks(rest, marker, Lits(block));
      Replaced(t, marker, body);
      LaterBlocks(t, marker);
      BlockIsWall(t, marker, other);
      NewBlockIsWall(marker, body, other);
      OpenFrontIsNeverClosed(front, old_, rest, marker, other);
      BlocksAroundWall(front, old_, rest, other);
      SubKeepsOtherBlocks(rest, marker, body, other);
      if Dangles(front, other) {
        SubBringsNoEnd(rest, marker, body, other);
      }
      BlocksAroundWall(front, block, more, other);
    }
  }

  lemma {:induction false} AppendKeepsOtherBlocks(existing: string, marker: string, body: string, other: string)
    requires PlainMarker(marker) && PlainNote(Strip(body), marker) && ClosedMarker(other)
    requires Foreign(Block(marker, body), other)
    ensures BlocksOf(existing + ("\n\n" + Block(marker, body)), other) == BlocksOf(existing, other)
    ensures BlocksOf(Block(marker, body), other) == []
  {
    hide Block, PlainMarker, PlainNote, BlocksOf;
    var block := Block(marker, body);
    assert FindTok(block, EndTok(other), 0).None?;
    NoEndNoBlock(block, other);
    BreakIsWall(other);
    BlocksAroundWall(existing, "\n\n", block, other);
  }

  lemma {:induction false} BreakIsWall(other: string)
    ensures Wall("\n\n", other)
  {
    assert |StartTok(other)| > 2 && |EndTok(other)| > 2;
  }

  /** An upsert keeps the blocks of every other marker, unless they enclose blocks of this one. */
  lemma {:induction false} UpsertKeepsOtherBlocks(t: string, marker: string, body: string, other: string)
    requires PlainMarker(marker) && PlainNote(Strip(body), marker) && FindSection(t, NOTES).Some?
    requires !HeadingAt(NotesOf(t), 0)
    requires ClosedMarker(other) && Foreign(Block(marker, body), other) && Apart(NotesOf(t), marker, other)
    ensures UpsertNotes(t, marker, body).Ok? && FindSection(UpsertNotes(t, marker, body).value, NOTES).Some?
    ensures BlocksOf(NotesOf(UpsertNotes(t, marker, body).value), other) == BlocksOf(NotesOf(t), other)
  {
    var existing, block := NotesOf(t), Block(marker, body);
    NotesAfterUpsert(t, marker, body);
    NoteIsBackslashFree(body, marker);
    PlainBlockTemplate(marker, body);
    NoEndInEmpty(other);
    hide Block, PlainMarker, PlainNote, BlocksOf, Apart, Foreign, ClosedMarker, NotesOf, FindSection, SubBlocks;
    hide NextBlock;
    SubKeepsOtherBlocks(existing, marker, body, other);
    AppendKeepsOtherBlocks(existing, marker, body, other);
    Regroup3(existing, "\n\n", block);
  }

  lemma {:induction false} NoEndInEmpty(marker: string)
    ensures BlocksOf("", marker) == []
  {
    NoBlockInEmpty(marker);
  }

  // ----- Different markers -----

  /** A block of one marker is foreign to another one when its body is. */
  lemma {:induction false} BlocksAreForeign(marker: string, body: string, other: string)
    requires ClosedMarker(marker) && ClosedMarker(other) && marker != other && Foreign(Strip(body), other)
    ensures Foreign(Block(marker, body), other)
  {
    hide StartTok, EndTok, PlainMarker, Strip;
    var s, e := StartTok(marker), EndTok(marker);
    TokenIsClosed(s, marker);
    TokenIsClosed(e, marker);
    forall k: nat, p | Token(p, other) ensures !Occurs(Block(marker, body), k, p) {
      TokenIsClosed(p, other);
      TokensDiffer(p, s, marker, other);
      TokensDiffer(p, e, marker, other);
      TokenNotInBlock(s, Strip(body), e, p, k);
    }
  }

  lemma {:induction false} TokenNotInBlock(s: string, b: string, e: string, p: string, k: nat)
    requires IsToken(s) && IsToken(e) && IsToken(p) && p != s && p != e
    requires (forall i :: 0 <= i < |s| - 1 ==> s[i] != '>') && (forall i :: 0 <= i < |e| - 1 ==> e[i] != '>')
    requires forall i :: 0 <= i <= |b| ==> !Occurs(b, i, p)
    ensures !Occurs(s + ("\n" + b + "\n") + e, k, p)
  {
    hide IsToken, Occurs;
    var inner := "\n" + b + "\n";
    Regroup3(s, inner, e);
    if k < |s| {
      TokenStaysInFront(s, inner + e, p, k);
      TokenInToken(s, p, k);
    } else {
      TokenBehind(s, inner + e, p, k - |s|);
      TokenInInner(b, e, p, k - |s|);
      if k - |s| >= |inner| {
        TokenBehind(inner, e, p, k - |s| - |inner|);
        TokenInToken(e, p, k - |s| - |inner|);
      }
    }
  }

  lemma {:induction false} TokensDiffer(p: string, s: string, marker: string, other: string)
    requires Token(p, other) && Token(s, marker) && marker != other
    ensures p != s
  {
    var n := |"<!-- "|;
    assert StartTok(marker)[|StartTok(marker)| - 5] == 't' && StartTok(other)[|StartTok(other)| - 5] == 't';
    assert EndTok(marker)[|EndTok(marker)| - 5] == 'd' && EndTok(other)[|EndTok(other)| - 5] == 'd';
    assert StartTok(marker)[n..|StartTok(marker)| - |":start -->"|] == marker;
    assert StartTok(other)[n..|StartTok(other)| - |":start -->"|] == other;
    assert EndTok(marker)[n..|EndTok(marker)| - |":end -->"|] == marker;
    assert EndTok(other)[n..|EndTok(other)| - |":end -->"|] == other;
  }

  lemma {:induction false} TokenInToken(s: string, p: string, k: nat)
    requires IsToken(s) && IsToken(p) && (forall i :: 0 <= i < |s| - 1 ==> s[i] != '>') && p != s
    ensures !Occurs(s, k, p)
  {
    OccursChar(s, k, p, 0);
    OccursChar(s, k, p, |p| - 1);
    assert s[0..|s|] == s;
  }

  lemma {:induction false} TokenInInner(b: string, e: string, p: string, k: nat)
    requires IsToken(p) && IsToken(e) && forall i :: 0 <= i <= |b| ==> !Occurs(b, i, p)
    ensures k < |b| + 2 ==> !Occurs("\n" + b + "\n" + e, k, p)
  {
    var inner := "\n" + b + "\n";
    if k < |inner| {
      TokenStaysInFront(inner, e, p, k);
      if 0 < k <= |b| {
        TokenStaysInFront("\n" + b, "\n", p, k);
        TokenBehind("\n", b, p, k - 1);
      } else if k + |p| <= |inner| {
        assert inner[k..k + |p|][0] == inner[k] == '\n';
      }
    }
  }
}
