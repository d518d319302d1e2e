/** What upserting a marker block does to the Notes section and to the rest of the text. */
module NotesLaws {
  import opened Wrappers
  import opened Text
  import opened Template
  import opened Sections
  import opened Documents
  import opened SectionLaws
  import opened Notes

  /** The stripped body of the Notes section. */
  function NotesOf(t: string): string
    requires FindSection(t, NOTES).Some?
  {
    Strip(SectionBody(t, NOTES).value)
  }

  lemma {:induction false} NotesIsHead()
    ensures IsHead(NOTES)
  {
  }

  // ----- An upsert opens no section of its own -----

  /** No line behind the first opens a section. */
  predicate InnerFree(s: string) {
    forall k :: 0 < k < |s| ==> !HeadingAt(s, k)
  }

  lemma {:induction false} JoinedIsInnerFree(gap: string, block: string, rest: string)
    requires InnerFree(gap) && InnerFree(block) && InnerFree(rest)
    requires |block| > 0 && block[0] == '<' && block[|block| - 1] == '>'
    ensures InnerFree(gap + (block + rest))
  {
    var t := gap + (block + rest);
    var n := |gap| + |block|;
    forall k | 0 < k < |t| ensures !HeadingAt(t, k) {
      if k < |gap| {
        assert !HeadingAt(gap, k);
      } else if k < n {
        assert k > |gap| ==> !HeadingAt(block, k - |gap|);
      } else {
        assert k > n ==> !HeadingAt(rest, k - n);
      }
    }
  }

  lemma {:induction false} BlockIsInnerFree(marker: string, body: string)
    requires PlainMarker(marker) && PlainNote(Strip(body), marker)
    ensures var block := Block(marker, body);
            |block| > 0 && block[0] == '<' && block[|block| - 1] == '>' && InnerFree(block)
  {
    var s, e, b := StartTok(marker), EndTok(marker), Strip(body);
    TokensAreTokens(marker);
    hide StartTok, EndTok;
    var block := Block(marker, body);
    var front := s + "\n";
    assert block == front + (b + ("\n" + e));
    forall k | 0 < k < |block| ensures !HeadingAt(block, k) {
      if |front| <= k < |front| + |b| {
        assert !HeadingAt(b, k - |front|);
        assert block[k] == b[k - |front|];
      } else if k < |front| {
        assert k < |s| ==> block[k - 1] == s[k - 1];
      } else if k > |front| + |b| {
        assert block[k] == e[k - |front| - |b| - 1];
        assert k - 1 > |front| + |b| ==> block[k - 1] == e[k - |front| - |b| - 2];
      }
    }
  }

  lemma {:induction false} SubIsInnerFree(t: string, marker: string, body: string)
    requires PlainMarker(marker) && PlainNote(Strip(body), marker) && InnerFree(t)
    ensures var new_ := SubBlocks(t, marker, Lits(Block(marker, body)));
            && InnerFree(new_)
            && (HeadingAt(new_, 0) <==> HeadingAt(t, 0))
            && (Trimmed(t) ==> Trimmed(new_))
            && (t != [] ==> new_ != [])
            && (t != [] && !IsSpace(t[|t| - 1]) ==> !IsSpace(new_[|new_| - 1]))
    decreases |t|
  {
    hide NextBlock, Block, Lits, PlainNote, PlainMarker, Fill, HeadingAt, IsSpace, Strip, SubBlocks, InnerFree;
    var next := NextBlock(t, marker);
    if next.Some? {
      var gap, rest := t[..next.value.start], t[next.value.end..];
      var block := Block(marker, body);
      var more := SubBlocks(rest, marker, Lits(block));
      PartsAreInnerFree(t, next.value.start, next.value.end);
      NothingToSub(rest, marker, Lits(block));
      SubIsInnerFree(rest, marker, body);
      NoteIsBackslashFree(body, marker);
      PlainBlockTemplate(marker, body);
      BlockIsInnerFree(marker, body);
      JoinedIsInnerFree(gap, block, more);
      BlockOpensWithToken(t, marker);
      SubOfSome(t, marker, block, Lits(block));
      JoinedKeepsEnds(t, next.value.start, next.value.end, block, more);
    } else {
      SubOfNone(t, marker, Lits(Block(marker, body)));
    }
  }

  lemma {:induction false} NothingToSub(t: string, marker: string, pieces: seq<Piece>)
    ensures t == [] ==> SubBlocks(t, marker, pieces) == []
  {
    if t == [] {
      NoBlockInEmpty(marker);
    }
  }

  /** Putting a block in the place of another one keeps how the text begins and ends. */
  lemma {:induction false} JoinedKeepsEnds(t: string, i: nat, j: nat, block: string, more: string)
    requires i < j <= |t| && t[i] == '<' && block != [] && block[0] == '<' && block[|block| - 1] == '>'
    requires j < |t| ==> more != [] && (!IsSpace(t[|t| - 1]) ==> !IsSpace(more[|more| - 1]))
    requires j == |t| ==> more == []
    ensures var new_ := t[..i] + (block + more);
            && new_ != [] && (HeadingAt(new_, 0) <==> HeadingAt(t, 0)) && (Trimmed(t) ==> Trimmed(new_))
            && (!IsSpace(t[|t| - 1]) ==> !IsSpace(new_[|new_| - 1]))
  {
    var new_ := t[..i] + (block + more);
    assert new_[i] == '<';
    assert i > 0 ==> new_[0] == t[0];
    assert i > 1 ==> new_[1] == t[1];
    assert !IsSpace('<') && !IsSpace('>');
    assert j < |t| ==> new_[|new_| - 1] == more[|more| - 1];
    assert j == |t| ==> new_[|new_| - 1] == '>';
  }

  lemma {:induction false} PartsAreInnerFree(t: string, i: nat, j: nat)
    requires InnerFree(t) && i <= j <= |t|
    ensures InnerFree(t[..i]) && InnerFree(t[j..])
  {
    forall k | 0 < k < |t[..i]| ensures !HeadingAt(t[..i], k) {
      assert !HeadingAt(t, k);
    }
    forall k | 0 < k < |t[j..]| ensures !HeadingAt(t[j..], k) {
      assert !HeadingAt(t, j + k);
    }
  }

  lemma {:induction false} BlockOpensWithToken(t: string, marker: string)
    requires NextBlock(t, marker).Some?
    ensures t[NextBlock(t, marker).value.start] == '<'
  {
    var i, s := NextBlock(t, marker).value.start, StartTok(marker);
    assert t[i..i + |s|][0] == s[0];
  }

  /** The notes after an upsert are trimmed and not empty, and open a section exactly if they did before. */
  lemma {:induction false} UpsertedBodyIsPlain(existing: string, marker: string, body: string)
    requires PlainMarker(marker) && PlainNote(Strip(body), marker) && Trimmed(existing) && InnerFree(existing)
    ensures UpsertBody(existing, marker, body).Ok?
    ensures var new_ := UpsertBody(existing, marker, body).value;
            && new_ != [] && Trimmed(new_) && InnerFree(new_)
            && (HeadingAt(new_, 0) <==> HeadingAt(existing, 0))
  {
    hide NextBlock, Block, Lits, PlainNote, PlainMarker, Fill, SubBlocks;
    var block := Block(marker, body);
    NoteIsBackslashFree(body, marker);
    PlainBlockTemplate(marker, body);
    BlockIsInnerFree(marker, body);
    if NextBlock(existing, marker).Some? {
      BlockIsNotEmpty(existing, marker);
      SubIsInnerFree(existing, marker, body);
    } else if existing != "" {
      var gap := existing + "\n\n";
      forall k | 0 < k < |gap| ensures !HeadingAt(gap, k) {
        assert k < |existing| ==> !HeadingAt(existing, k);
      }
      JoinedIsInnerFree(gap, block, "");
      assert gap + (block + "") == existing + "\n\n" + block;
    }
  }

  lemma {:induction false} BlockIsNotEmpty(t: string, marker: string)
    requires NextBlock(t, marker).Some?
    ensures t != []
  {
  }

  lemma {:induction false} NotesAreInnerFree(t: string)
    requires FindSection(t, NOTES).Some?
    ensures Trimmed(NotesOf(t)) && InnerFree(NotesOf(t))
  {
    hide HeadingAt, Strip, FindFrom, SectionEnd, Trimmed, Blank, InnerFree;
    var s := FindSection(t, NOTES).value;
    var old_ := t[s.body..s.end];
    StripCuts(old_);
    var a, b := StripIsSlice(old_);
    SliceIsInnerFree(t, s.body + a, s.body + b);
    SliceOfSlice(t, s.body, s.end, a, b);
  }

  lemma {:induction false} SliceIsInnerFree(t: string, i: nat, j: nat)
    requires i <= j <= |t| && forall k :: i <= k < j ==> !HeadingAt(t, k)
    ensures InnerFree(t[i..j])
  {
    var u := t[i..j];
    forall k | 0 < k < |u| ensures !HeadingAt(u, k) {
      assert !HeadingAt(t, i + k);
    }
  }

  // ----- The whole text -----

  /** An upsert is the section replacement by the upserted notes. */
  lemma {:induction false} UpsertIsSplice(t: string, marker: string, body: string)
    requires PlainMarker(marker) && PlainNote(Strip(body), marker) && FindSection(t, NOTES).Some?
    ensures UpsertBody(NotesOf(t), marker, body).Ok?
    ensures UpsertNotes(t, marker, body) ==
            Ok(Splice(t, NOTES, SectionText(NOTES, UpsertBody(NotesOf(t), marker, body).value)).value)
  {
    NotesAreInnerFree(t);
    UpsertedBodyIsPlain(NotesOf(t), marker, body);
  }

  /** An upsert rewrites exactly the first Notes section, provided its stripped text does not itself open with a
      heading line; every other section and the preamble stay as they are. */
  lemma {:induction false} UpsertRewritesOneSection(t: string, marker: string, body: string)
    requires PlainMarker(marker) && PlainNote(Strip(body), marker) && FindSection(t, NOTES).Some?
    requires !HeadingAt(NotesOf(t), 0)
    ensures UpsertNotes(t, marker, body).Ok?
    ensures var d := DocOf(t); var k := IndexOf(d.sections, NOTES);
            && k < |d.sections|
            && DocOf(UpsertNotes(t, marker, body).value) ==
               d.(sections := d.sections[k := SectionText(NOTES, UpsertBody(NotesOf(t), marker, body).value)])
  {
    hide DocOf, IndexOf, FindSection, UpsertBody, UpsertNotes, PlainNote, PlainMarker, IsSection, WellFormed, NotesOf;
    NotesIsHead();
    NotesAreInnerFree(t);
    UpsertedBodyIsPlain(NotesOf(t), marker, body);
    var notes := UpsertBody(NotesOf(t), marker, body).value;
    FreeExactlyWhen(notes);
    UpsertIsSplice(t, marker, body);
    var section := SectionText(NOTES, notes);
    SpliceIsUpdate(t, NOTES, section);
    TextOfDocOf(t);
    SectionTextIsSection(NOTES, notes);
    var d, k := DocOf(t), IndexOf(DocOf(t).sections, NOTES);
    UpdatedDocIsWellFormed(d, k, section);
    DocOfTextOf(d.(sections := d.sections[k := section]));
  }

  lemma {:induction false} FreeExactlyWhen(s: string)
    requires InnerFree(s)
    ensures HeadingFree(s) <==> !HeadingAt(s, 0)
  {
  }

  /** The notes read back after an upsert are the upserted notes. */
  lemma {:induction false} NotesAfterUpsert(t: string, marker: string, body: string)
    requires PlainMarker(marker) && PlainNote(Strip(body), marker) && FindSection(t, NOTES).Some?
    requires !HeadingAt(NotesOf(t), 0)
    ensures UpsertNotes(t, marker, body).Ok?
    ensures UpsertBody(NotesOf(t), marker, body).Ok?
    ensures var once := UpsertNotes(t, marker, body).value;
            && FindSection(once, NOTES).Some?
            && NotesOf(once) == UpsertBody(NotesOf(t), marker, body).value
            && SectionBody(once, NOTES) == Some(NotesOf(once) + "\n\n")
  {
    hide DocOf, IndexOf, FindSection, UpsertBody, UpsertNotes, PlainNote, PlainMarker, SectionBody;
    NotesIsHead();
    NotesAreInnerFree(t);
    UpsertedBodyIsPlain(NotesOf(t), marker, body);
    var notes := UpsertBody(NotesOf(t), marker, body).value;
    FreeExactlyWhen(notes);
    UpsertRewritesOneSection(t, marker, body);
    var once := UpsertNotes(t, marker, body).value;
    var d, k := DocOf(t), IndexOf(DocOf(t).sections, NOTES);
    var section := SectionText(NOTES, notes);
    SectionTextIsSection(NOTES, notes);
    FirstIndexHasHead(d.sections, NOTES);
    IndexAfterUpdate(d.sections, k, section, NOTES);
    SpliceIsUpdate(once, NOTES, section);
    assert SectionBody(once, NOTES) == Some(notes + "\n\n");
    StripOfPadded([], notes, "\n\n");
    assert [] + notes + "\n\n" == notes + "\n\n";
  }

  /** The upsert keeps all text around the marker's blocks: when the section held blocks of the marker, each becomes
      the new block; otherwise one block is added behind the text. With at most one block before, there is exactly
      one afterwards. */
  lemma {:induction false} UpsertLeavesOneBlock(t: string, marker: string, body: string)
    requires PlainMarker(marker) && PlainNote(Strip(body), marker) && FindSection(t, NOTES).Some?
    requires !HeadingAt(NotesOf(t), 0) && !OpenMarker(NotesOf(t), marker)
    ensures UpsertNotes(t, marker, body).Ok? && FindSection(UpsertNotes(t, marker, body).value, NOTES).Some?
    ensures var old_, new_ := NotesOf(t), NotesOf(UpsertNotes(t, marker, body).value);
            && (forall b :: b in BlocksOf(new_, marker) ==> b == Block(marker, body))
            && |BlocksOf(new_, marker)| == (if BlocksOf(old_, marker) == [] then 1 else |BlocksOf(old_, marker)|)
            && GapsOf(new_, marker) ==
               (if BlocksOf(old_, marker) != [] then GapsOf(old_, marker)
                else [if old_ == "" then "" else old_ + "\n\n", ""])
  {
    hide FindSection, PlainNote, PlainMarker, NextBlock, NotesOf, Block;
    NotesAfterUpsert(t, marker, body);
    var existing := NotesOf(t);
    if NextBlock(existing, marker).Some? {
      SubRewritesBlocksOnly(existing, marker, body);
      NoteIsBackslashFree(body, marker);
      PlainBlockTemplate(marker, body);
    } else {
      AppendedBlock(existing, marker, body);
    }
  }

  /** Upserting the same block twice equals upserting it once — exactly when the stripped notes do not open with a
      heading line and hold no open marker in front of which the next upsert would swallow text. */
  lemma {:induction false} UpsertIsIdempotentExactlyWhen(t: string, marker: string, body: string)
    requires PlainMarker(marker) && PlainNote(Strip(body), marker) && FindSection(t, NOTES).Some?
    ensures UpsertNotes(t, marker, body).Ok?
    ensures var once := UpsertNotes(t, marker, body).value;
            UpsertNotes(once, marker, body) == Ok(once) <==>
            !HeadingAt(NotesOf(t), 0) && !OpenMarker(NotesOf(t), marker)
  {
    hide FindSection, PlainNote, PlainMarker, NextBlock, Block, UpsertNotes, NotesOf, UpsertBody, SectionBody, Splice;
    hide OpenMarker;
    UpsertIsSplice(t, marker, body);
    if HeadingAt(NotesOf(t), 0) {
      HeadingNotesAreLost(t, marker, body);
    } else {
      NotesAfterUpsert(t, marker, body);
      var once := UpsertNotes(t, marker, body).value;
      UpsertIsSplice(once, marker, body);
      RepeatedUpsertOfBody(NotesOf(t), marker, body);
      SpliceSame(once, NotesOf(once), UpsertBody(NotesOf(once), marker, body).value);
    }
  }

  /** Splicing in notes leaves the text as it is exactly when they are the notes it has. */
  lemma {:induction false} SpliceSame(t: string, notes: string, x: string)
    requires SectionBody(t, NOTES) == Some(notes + "\n\n")
    ensures Splice(t, NOTES, SectionText(NOTES, x)).Some?
    ensures Splice(t, NOTES, SectionText(NOTES, x)) == Some(t) <==> x == notes
  {
    var s := FindSection(t, NOTES).value;
    assert t[s.start..s.body] == NOTES;
    hide FindSection;
    assert t[s.start..s.end] == NOTES + (notes + "\n\n") == NOTES + notes + "\n\n";
    assert t == t[..s.start] + t[s.start..s.end] + t[s.end..];
    Sandwich(t[..s.start], NOTES, "\n\n", t[s.end..], x, notes);
  }

  lemma {:induction false} Sandwich(a: string, b: string, c: string, d: string, x: string, y: string)
    ensures a + (b + x + c) + d == a + (b + y + c) + d <==> x == y
  {
    var n := |a| + |b|;
    var u, v := a + (b + x + c) + d, a + (b + y + c) + d;
    if u == v {
      assert u[n..n + |x|] == x && v[n..n + |y|] == y;
    }
  }

  lemma {:induction false} RepeatedUpsertOfBody(existing: string, marker: string, body: string)
    requires PlainMarker(marker) && PlainNote(Strip(body), marker)
    requires UpsertBody(existing, marker, body).Ok?
    ensures var new_ := UpsertBody(existing, marker, body).value;
            UpsertBody(new_, marker, body) == Ok(new_) <==> !OpenMarker(existing, marker)
  {
    hide PlainNote, PlainMarker, NextBlock, Block, SubBlocks;
    NoteIsBackslashFree(body, marker);
    PlainBlockTemplate(marker, body);
    if NextBlock(existing, marker).Some? {
      SubIsIdempotent(existing, marker, body);
      SubKeepsBlocks(existing, marker, body);
    } else if OpenMarker(existing, marker) {
      OpenMarkerNotEmpty(existing, marker);
      OpenMarkerIsSwallowed(existing, marker, body);
    } else {
      AppendedBlock(existing, marker, body);
    }
  }

  lemma {:induction false} OpenMarkerNotEmpty(existing: string, marker: string)
    requires OpenMarker(existing, marker)
    ensures existing != ""
  {
    assert StartTok(marker)[0] == '<';
  }

  lemma {:induction false} SubKeepsBlocks(t: string, marker: string, body: string)
    requires PlainMarker(marker) && PlainNote(Strip(body), marker) && NextBlock(t, marker).Some?
    ensures NextBlock(SubBlocks(t, marker, Lits(Block(marker, body))), marker).Some?
  {
    hide PlainNote, PlainMarker, Block, NextBlock;
    SubRewritesBlocksOnly(t, marker, body);
  }

  /** Notes that open with a heading line become a section of their own: the next upsert adds another block. */
  lemma {:induction false} HeadingNotesAreLost(t: string, marker: string, body: string)
    requires PlainMarker(marker) && PlainNote(Strip(body), marker) && FindSection(t, NOTES).Some?
    requires HeadingAt(NotesOf(t), 0) && UpsertNotes(t, marker, body).Ok?
    ensures var once := UpsertNotes(t, marker, body).value; UpsertNotes(once, marker, body) != Ok(once)
  {
    NotesIsHead();
    NotesAreInnerFree(t);
    UpsertedBodyIsPlain(NotesOf(t), marker, body);
    UpsertIsSplice(t, marker, body);
    hide PlainNote, PlainMarker, NextBlock, Block, UpsertNotes, UpsertBody, NotesOf, FindSection, IsHead;
    var notes := UpsertBody(NotesOf(t), marker, body).value;
    var once := UpsertNotes(t, marker, body).value;
    var s := FindSection(t, NOTES).value;
    SpanAfterReplacement(t, once, NOTES, notes, s, 0);
    UpsertIsSplice(once, marker, body);
    var f := FindSection(once, NOTES).value;
    var more := UpsertBody(NotesOf(once), marker, body).value;
    assert Splice(once, NOTES, SectionText(NOTES, more)).value ==
           once[..f.start] + SectionText(NOTES, more) + once[f.end..];
  }
}
