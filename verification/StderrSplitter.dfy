/** The reader that splits a provider's error stream into lines while it drains it. */
module StderrSplitter {
  import opened Sequences
  import opened Wrappers

  newtype Byte = x: int | 0 <= x < 256

  const NEWLINE: Byte := 10
  const PENDING_LIMIT := 65536

  /** The most bytes one read returns. */
  const CHUNK_LIMIT := 4096

  /** What the drained stream gives: all its bytes, or the error a classifier recognised in one line. */
  datatype Drained<R> = Returned(bytes: seq<Byte>) | Aborted(response: R)

  // ----- Lines of a byte string -----

  function FirstNewline(s: seq<Byte>): (n: nat)
    ensures n <= |s|
    ensures NEWLINE !in s[..n]
    ensures n < |s| ==> s[n] == NEWLINE
  {
    if s == [] || s[0] == NEWLINE then 0
    else
      var n := 1 + FirstNewline(s[1..]);
      assert s[..n] == [s[0]] + s[1..][..n - 1];
      n
  }

  /** The lines a newline ends. */
  function EndedLines(s: seq<Byte>): seq<seq<Byte>>
    decreases |s|
  {
    var n := FirstNewline(s);
    if n == |s| then [] else [s[..n]] + EndedLines(s[n + 1..])
  }

  /** What follows the last newline. */
  function Tail(s: seq<Byte>): seq<Byte>
    decreases |s|
  {
    var n := FirstNewline(s);
    if n == |s| then s else Tail(s[n + 1..])
  }

  // ----- Reading in chunks -----

  function Bounded(pending: seq<Byte>): seq<Byte> {
    if |pending| > PENDING_LIMIT then [] else pending
  }

  /** The lines the reader offers to the classifier until one is recognised. */
  function Offered(pending: seq<Byte>, chunks: seq<seq<Byte>>): seq<seq<Byte>>
    decreases |chunks|
  {
    if chunks == [] then if pending == [] then [] else [pending]
    else EndedLines(pending + chunks[0]) + Offered(Bounded(Tail(pending + chunks[0])), chunks[1..])
  }

  /** The lines up to the first one the classifier recognises. */
  function Judged<R>(classify: seq<Byte> -> Option<R>, lines: seq<seq<Byte>>): seq<seq<Byte>> {
    if lines == [] then []
    else if classify(lines[0]).Some? then [lines[0]]
    else [lines[0]] + Judged(classify, lines[1..])
  }

  function Verdict<R>(classify: seq<Byte> -> Option<R>, lines: seq<seq<Byte>>, bytes: seq<Byte>): Drained<R> {
    if lines == [] then Returned(bytes)
    else if classify(lines[0]).Some? then Aborted(classify(lines[0]).value)
    else Verdict(classify, lines[1..], bytes)
  }

  predicate Unrecognised<R>(classify: seq<Byte> -> Option<R>, lines: seq<seq<Byte>>) {
    forall line :: line in lines ==> classify(line).None?
  }

  lemma {:induction false} VerdictAt<R>(classify: seq<Byte> -> Option<R>, before: seq<seq<Byte>>, line: seq<Byte>,
                                        after: seq<seq<Byte>>, bytes: seq<Byte>)
    requires Unrecognised(classify, before)
    ensures classify(line).Some? ==> Verdict(classify, before + [line] + after, bytes) == Aborted(classify(line).value)
    ensures classify(line).Some? ==> Judged(classify, before + [line] + after) == before + [line]
    ensures classify(line).None? ==> Unrecognised(classify, before + [line])
  {
    if before != [] {
      VerdictAt(classify, before[1..], line, after, bytes);
      assert (before + [line] + after)[1..] == before[1..] + [line] + after;
      assert before == [before[0]] + before[1..];
    } else {
      assert [] + [line] + after == [line] + after;
    }
  }

  lemma {:induction false} VerdictAtEnd<R>(
      classify: seq<Byte> -> Option<R>, lines: seq<seq<Byte>>, bytes: seq<Byte>)
    requires Unrecognised(classify, lines)
    ensures Verdict(classify, lines, bytes) == Returned(bytes) && Judged(classify, lines) == lines
  {
    if lines != [] {
      VerdictAtEnd(classify, lines[1..], bytes);
    }
  }

  /** Reads the chunks that come before the end of the stream; `judged` are the lines the classifier was given. */
  method ReadErrors<R>(chunks: seq<seq<Byte>>, classify: seq<Byte> -> Option<R>)
    returns (result: Drained<R>, judged: seq<seq<Byte>>)
    ensures result == Verdict(classify, Offered([], chunks), Flatten(chunks))
    ensures judged == Judged(classify, Offered([], chunks))
  {
    hide EndedLines, Tail, Offered, Verdict, Judged, FirstNewline;
    var read: seq<seq<Byte>> := [];
    var pending: seq<Byte> := [];
    judged := [];
    var i := 0;
    assert chunks[0..] == chunks && judged + Offered(pending, chunks) == Offered(pending, chunks);
    while i < |chunks|
      invariant 0 <= i <= |chunks| && read == chunks[..i]
      invariant Unrecognised(classify, judged) && judged + Offered(pending, chunks[i..]) == Offered([], chunks)
    {
      ghost var later := chunks[i + 1..];
      TakeChunk(pending, chunks[i..], later);
      read := read + [chunks[i]];
      pending := pending + chunks[i];
      while NEWLINE in pending
        invariant Unrecognised(classify, judged)
        invariant judged + (EndedLines(pending) + Offered(Bounded(Tail(pending)), later)) == Offered([], chunks)
        decreases |pending|
      {
        var n := FirstNewline(pending);
        var line := pending[..n];
        TakeLine(judged, pending, later);
        VerdictAt(classify, judged, line,
                  EndedLines(pending[n + 1..]) + Offered(Bounded(Tail(pending)), later), Flatten(chunks));
        pending := pending[n + 1..];
        judged := judged + [line];
        var response := classify(line);
        if response.Some? {
          return Aborted(response.value), judged;
        }
      }
      NoLine(pending);
      pending := Bounded(pending);
      i := i + 1;
    }
    OfferedAtEnd(pending, chunks[i..]);
    VerdictAtEnd(classify, judged, Flatten(chunks));
    assert read == chunks && judged + [] == judged;
    if pending != [] {
      VerdictAt(classify, judged, pending, [], Flatten(chunks));
      judged := judged + [pending];
      assert judged + [] == judged;
      var response := classify(pending);
      if response.Some? {
        return Aborted(response.value), judged;
      }
      VerdictAtEnd(classify, judged, Flatten(chunks));
    }
    result := Returned(Flatten(read));
  }

  lemma {:induction false} TakeChunk(pending: seq<Byte>, chunks: seq<seq<Byte>>, later: seq<seq<Byte>>)
    requires chunks != [] && chunks[1..] == later
    ensures Offered(pending, chunks)
         == EndedLines(pending + chunks[0]) + Offered(Bounded(Tail(pending + chunks[0])), later)
  {
  }

  lemma {:induction false} OfferedAtEnd(pending: seq<Byte>, chunks: seq<seq<Byte>>)
    requires chunks == []
    ensures Offered(pending, chunks) == if pending == [] then [] else [pending]
  {
  }

  lemma {:induction false} TakeLine(judged: seq<seq<Byte>>, pending: seq<Byte>, later: seq<seq<Byte>>)
    requires NEWLINE in pending
    ensures var n := FirstNewline(pending);
            && n < |pending| && Tail(pending) == Tail(pending[n + 1..])
            && judged + (EndedLines(pending) + Offered(Bounded(Tail(pending)), later))
            == judged + [pending[..n]] + (EndedLines(pending[n + 1..]) + Offered(Bounded(Tail(pending)), later))
  {
    var n := FirstNewline(pending);
    assert n < |pending| by {
      assert pending[..|pending|] == pending;
    }
    var line, rest, others := [pending[..n]], EndedLines(pending[n + 1..]), Offered(Bounded(Tail(pending)), later);
    Regroup3(line, rest, others);
    Regroup3(judged, line, rest + others);
  }

  lemma {:induction false} NoLine(pending: seq<Byte>)
    requires NEWLINE !in pending
    ensures EndedLines(pending) == [] && Tail(pending) == pending
  {
    assert FirstNewline(pending) == |pending|;
  }

  // ----- What one chunk does -----

  function Rejoined(lines: seq<seq<Byte>>, rest: seq<Byte>): seq<Byte> {
    if lines == [] then rest else lines[0] + ([10] + Rejoined(lines[1..], rest))
  }

  /** The ended lines, each with its newline, and what follows the last one make up the bytes, and no piece holds a
      newline. */
  lemma {:induction false} LinesMakeUpTheBytes(s: seq<Byte>)
    ensures Rejoined(EndedLines(s), Tail(s)) == s
    ensures (10 as Byte) !in Tail(s) && forall line :: line in EndedLines(s) ==> (10 as Byte) !in line
    decreases |s|
  {
    var n := FirstNewline(s);
    if n < |s| {
      LinesMakeUpTheBytes(s[n + 1..]);
      assert s == s[..n] + ([10] + s[n + 1..]);
      assert ([s[..n]] + EndedLines(s[n + 1..]))[1..] == EndedLines(s[n + 1..]);
    } else {
      assert s[..n] == s;
    }
  }

  /** Reading one chunk behind what is pending: its first line is offered and the rest is read on as if it came next;
      without a newline the bytes are kept while there are no more than 65536 of them, else forgotten; at the end what
      is pending is offered unless it is empty. */
  lemma {:induction false} ReadOneChunk(pending: seq<Byte>, chunk: seq<Byte>, later: seq<seq<Byte>>)
    requires 10 !in pending
    ensures Offered(pending, []) == if pending == [] then [] else [pending]
    ensures 10 !in chunk ==>
              Offered(pending, [chunk] + later) ==
              Offered(if |pending + chunk| <= 65536 then pending + chunk else [], later)
    ensures forall i :: 0 <= i < |chunk| && chunk[i] == 10 && 10 !in chunk[..i] ==>
              Offered(pending, [chunk] + later) == [pending + chunk[..i]] + Offered([], [chunk[i + 1..]] + later)
  {
    var chunks, s := [chunk] + later, pending + chunk;
    hide EndedLines, Tail, Offered, FirstNewline;
    assert chunks[1..] == later;
    OfferedAtEnd(pending, []);
    TakeChunk(pending, chunks, later);
    if 10 !in chunk {
      NoLine(s);
      assert [] + Offered(Bounded(s), later) == Offered(Bounded(s), later);
    }
    forall i | 0 <= i < |chunk| && chunk[i] == 10 && 10 !in chunk[..i]
      ensures Offered(pending, chunks) == [pending + chunk[..i]] + Offered([], [chunk[i + 1..]] + later)
    {
      var line, rest := pending + chunk[..i], chunk[i + 1..];
      assert s == line + ([NEWLINE] + rest);
      FirstLine(line, rest);
      assert ([rest] + later)[1..] == later && [] + rest == rest;
      TakeChunk([], [rest] + later, later);
      Regroup3([line], EndedLines(rest), Offered(Bounded(Tail(rest)), later));
    }
  }

  // ----- When chunking does not matter -----

  lemma {:induction false} NewlineOf(a: seq<Byte>, b: seq<Byte>)
    ensures FirstNewline(a + b) == if FirstNewline(a) < |a| then FirstNewline(a) else |a| + FirstNewline(b)
  {
    if a == [] {
      assert a + b == b;
    } else if a[0] != NEWLINE {
      assert (a + b)[1..] == a[1..] + b;
      NewlineOf(a[1..], b);
    }
  }

  lemma {:induction false} SplitAcross(a: seq<Byte>, b: seq<Byte>)
    ensures EndedLines(a + b) == EndedLines(a) + EndedLines(Tail(a) + b)
    ensures Tail(a + b) == Tail(Tail(a) + b)
    decreases |a|
  {
    hide EndedLines, Tail;
    var n := FirstNewline(a);
    if n < |a| {
      var line, rest := a[..n], a[n + 1..];
      assert a == line + ([NEWLINE] + rest) && a + b == line + ([NEWLINE] + (rest + b));
      SplitAcross(rest, b);
      hide FirstNewline;
      FirstLine(line, rest);
      FirstLine(line, rest + b);
      Regroup3([line], EndedLines(rest), EndedLines(Tail(rest) + b));
    } else {
      assert a[..n] == a;
      NoLine(a);
      assert [] + EndedLines(a + b) == EndedLines(a + b);
    }
  }

  lemma {:induction false} FirstLine(line: seq<Byte>, rest: seq<Byte>)
    requires NEWLINE !in line
    ensures var s := line + ([NEWLINE] + rest);
            EndedLines(s) == [line] + EndedLines(rest) && Tail(s) == Tail(rest)
  {
    var s := line + ([NEWLINE] + rest);
    FirstNewlineOf(line, rest);
    assert s[..|line|] == line && s[|line| + 1..] == rest;
  }

  lemma {:induction false} FirstNewlineOf(line: seq<Byte>, rest: seq<Byte>)
    requires NEWLINE !in line
    ensures FirstNewline(line + ([NEWLINE] + rest)) == |line|
  {
    assert line[..|line|] == line;
    NewlineOf(line, [NEWLINE] + rest);
  }

  lemma {:induction false} TailHasNoNewline(s: seq<Byte>)
    ensures NEWLINE !in Tail(s) && FirstNewline(Tail(s)) == |Tail(s)|
    decreases |s|
  {
    var n := FirstNewline(s);
    if n < |s| {
      TailHasNoNewline(s[n + 1..]);
    } else {
      assert s[..n] == s;
    }
  }

  /** A way to read the stream: no chunk is empty or longer than one read returns. */
  predicate Cut(s: seq<Byte>, chunks: seq<seq<Byte>>) {
    Flatten(chunks) == s && forall chunk :: chunk in chunks ==> 1 <= |chunk| <= CHUNK_LIMIT
  }

  /** No ended line is longer than the limit, and the rest is longer by one byte at most. */
  predicate Settled(s: seq<Byte>) {
    && (forall line :: line in EndedLines(s) ==> |line| <= PENDING_LIMIT)
    && |Tail(s)| <= PENDING_LIMIT + 1
  }

  /** What is then offered: every ended line, and what follows the last newline unless it is empty or too long. */
  function SettledLines(s: seq<Byte>): seq<seq<Byte>> {
    EndedLines(s) + if Bounded(Tail(s)) == [] then [] else [Tail(s)]
  }

  /** A piece with no newline that is too long to keep is the whole rest of a settled stream. */
  lemma {:induction false} TooLongIsTheRest(tail: seq<Byte>, rest: seq<Byte>)
    requires FirstNewline(tail) == |tail| && |tail| > PENDING_LIMIT && Settled(tail + rest)
    ensures rest == []
  {
    NewlineOf(tail, rest);
    FirstEndedLine(tail + rest);
    hide EndedLines;
  }

  lemma {:induction false} FirstEndedLine(s: seq<Byte>)
    ensures FirstNewline(s) < |s| ==> s[..FirstNewline(s)] in EndedLines(s)
    ensures FirstNewline(s) == |s| ==> Tail(s) == s
  {
    if FirstNewline(s) < |s| {
      assert EndedLines(s)[0] == s[..FirstNewline(s)];
    }
  }

  lemma {:induction false} SettledAcross(a: seq<Byte>, b: seq<Byte>)
    ensures SettledLines(a + b) == EndedLines(a) + SettledLines(Tail(a) + b)
    ensures Settled(a + b) ==> Settled(Tail(a) + b)
  {
    SplitAcross(a, b);
    hide EndedLines, Tail;
    var s := Tail(a) + b;
    Regroup3(EndedLines(a), EndedLines(s), if Bounded(Tail(s)) == [] then [] else [Tail(s)]);
    assert forall line :: line in EndedLines(s) ==> line in EndedLines(a) + EndedLines(s);
  }

  lemma {:induction false} OfferedIsSettled(pending: seq<Byte>, chunks: seq<seq<Byte>>)
    requires FirstNewline(pending) == |pending| <= PENDING_LIMIT && Settled(pending + Flatten(chunks))
    requires forall chunk :: chunk in chunks ==> chunk != []
    ensures Offered(pending, chunks) == SettledLines(pending + Flatten(chunks))
    decreases |chunks|
  {
    hide FirstNewline, Tail, EndedLines, Offered, Settled, SettledLines, Flatten, Bounded;
    if chunks == [] {
      OfferedAtEnd(pending, chunks);
      SettledPending(pending, chunks);
    } else {
      var rest, later := Flatten(chunks[1..]), chunks[1..];
      var s := pending + chunks[0];
      var tail := Tail(s);
      assert forall chunk :: chunk in later ==> chunk in chunks;
      TakeChunk(pending, chunks, later);
      TailHasNoNewline(s);
      SettledAcross(s, rest);
      FlattenFirst(pending, chunks);
      if |tail| <= PENDING_LIMIT {
        OfferedIsSettled(tail, later);
        IsBounded(tail);
      } else {
        TooLongIsTheRest(tail, rest);
        TooLongIsNotOffered(tail, later);
      }
    }
  }

  lemma {:induction false} FlattenFirst(pending: seq<Byte>, chunks: seq<seq<Byte>>)
    requires chunks != []
    ensures pending + Flatten(chunks) == pending + chunks[0] + Flatten(chunks[1..])
  {
    Regroup3(pending, chunks[0], Flatten(chunks[1..]));
  }

  lemma {:induction false} IsBounded(pending: seq<Byte>)
    requires |pending| <= PENDING_LIMIT
    ensures Bounded(pending) == pending
  {
  }

  lemma {:induction false} SettledPending(pending: seq<Byte>, chunks: seq<seq<Byte>>)
    requires FirstNewline(pending) == |pending| <= PENDING_LIMIT && chunks == []
    ensures SettledLines(pending + Flatten(chunks)) == if pending == [] then [] else [pending]
  {
    assert pending + [] == pending;
  }

  /** A rest that is too long is forgotten when it has been read. */
  lemma {:induction false} TooLongIsNotOffered(tail: seq<Byte>, later: seq<seq<Byte>>)
    requires FirstNewline(tail) == |tail| && |tail| > PENDING_LIMIT
    requires Flatten(later) == [] && forall chunk :: chunk in later ==> chunk != []
    ensures SettledLines(tail + Flatten(later)) == [] == Offered(Bounded(tail), later)
  {
    ChunksHaveBytes(later);
    assert tail + [] == tail;
  }

  lemma {:induction false} ChunksHaveBytes(chunks: seq<seq<Byte>>)
    requires forall chunk :: chunk in chunks ==> chunk != []
    ensures Flatten(chunks) == [] ==> chunks == []
  {
    if chunks != [] {
      assert chunks[0] in chunks;
      assert Flatten(chunks) == chunks[0] + Flatten(chunks[1..]);
    }
  }

  /** Two ways to read a settled stream give the same verdict from the same lines, and without an abort all its
      bytes. */
  lemma {:induction false} ChunkingDoesNotMatter<R>(
      s: seq<Byte>, a: seq<seq<Byte>>, b: seq<seq<Byte>>, classify: seq<Byte> -> Option<R>)
    requires Settled(s) && Cut(s, a) && Cut(s, b)
    ensures Offered([], a) == SettledLines(s) == Offered([], b)
    ensures Verdict(classify, Offered([], a), Flatten(a)) == Verdict(classify, Offered([], b), Flatten(b))
    ensures Judged(classify, Offered([], a)) == Judged(classify, Offered([], b))
  {
    assert [] + s == s;
    OfferedIsSettled([], a);
    OfferedIsSettled([], b);
  }

  // ----- When it does -----

  /** The stream read byte by byte. */
  function Singles(s: seq<Byte>): seq<seq<Byte>> {
    if s == [] then [] else [[s[0]]] + Singles(s[1..])
  }

  lemma {:induction false} SinglesAreACut(s: seq<Byte>)
    ensures Cut(s, Singles(s))
  {
    if s != [] {
      SinglesAreACut(s[1..]);
      assert Singles(s)[1..] == Singles(s[1..]);
    }
  }

  lemma {:induction false} OneChunkIsACut(chunk: seq<Byte>)
    requires 1 <= |chunk| <= CHUNK_LIMIT
    ensures Cut(chunk, [chunk])
  {
    FlattenOne(chunk);
  }

  lemma {:induction false} CutSplit(s: seq<Byte>, a: seq<seq<Byte>>, t: seq<Byte>, b: seq<seq<Byte>>)
    requires Cut(s, a) && Cut(t, b)
    ensures Cut(s + t, a + b)
  {
    FlattenSplit(a, b);
  }

  /** One more byte. */
  lemma {:induction false} OneByte(pending: seq<Byte>, c: Byte, later: seq<seq<Byte>>)
    requires NEWLINE !in pending
    ensures Offered(pending, [[c]] + later) ==
            if c == NEWLINE then [pending] + Offered([], later) else Offered(Bounded(pending + [c]), later)
  {
    var chunks := [[c]] + later;
    TakeChunk(pending, chunks, later);
    if c == NEWLINE {
      OneLine(pending);
    } else {
      NoLine(pending + [c]);
      var kept := Offered(Bounded(pending + [c]), later);
      assert EndedLines(pending + [c]) + kept == kept;
    }
  }

  /** Bytes that fit are just kept. */
  lemma {:induction false} BytesAreKept(pending: seq<Byte>, s: seq<Byte>, later: seq<seq<Byte>>)
    requires NEWLINE !in pending + s && |pending + s| <= PENDING_LIMIT
    ensures Offered(pending, Singles(s) + later) == Offered(pending + s, later)
    decreases |s|
  {
    if s == [] {
      assert pending + s == pending && Singles(s) + later == later;
    } else {
      assert Singles(s) + later == [[s[0]]] + (Singles(s[1..]) + later);
      assert pending + s == pending + [s[0]] + s[1..];
      OneByte(pending, s[0], Singles(s[1..]) + later);
      BytesAreKept(pending + [s[0]], s[1..], later);
    }
  }

  /** Two pending pieces of different lengths show in what is offered, whatever follows. */
  lemma {:induction false} PendingShows(a: seq<Byte>, b: seq<Byte>, s: seq<Byte>)
    requires NEWLINE !in a && NEWLINE !in b && |a| <= PENDING_LIMIT && |b| <= PENDING_LIMIT && |a| != |b|
    ensures Offered(a, Singles(s)) != Offered(b, Singles(s))
    decreases |s|
  {
    if s == [] {
      OfferedAtEnd(a, []);
      OfferedAtEnd(b, []);
    } else {
      OneByte(a, s[0], Singles(s[1..]));
      OneByte(b, s[0], Singles(s[1..]));
      if s[0] != NEWLINE {
        PendingShows(Bounded(a + [s[0]]), Bounded(b + [s[0]]), s[1..]);
      } else {
        hide Offered;
        assert ([a] + Offered([], Singles(s[1..])))[0] == a && ([b] + Offered([], Singles(s[1..])))[0] == b;
      }
    }
  }

  /** The byte-by-byte reading, but for one chunk of two bytes across the limit. */
  function PairedAtLimit(s: seq<Byte>): seq<seq<Byte>>
    requires |s| >= PENDING_LIMIT + 2
  {
    var n := PENDING_LIMIT;
    Singles(s[..n]) + ([s[n..n + 2]] + Singles(s[n + 2..]))
  }

  lemma {:induction false} PairedIsACut(s: seq<Byte>)
    requires |s| >= PENDING_LIMIT + 2
    ensures Cut(s, PairedAtLimit(s))
  {
    var n := PENDING_LIMIT;
    SinglesAreACut(s[..n]);
    SinglesAreACut(s[n + 2..]);
    OneChunkIsACut(s[n..n + 2]);
    CutSplit(s[n..n + 2], [s[n..n + 2]], s[n + 2..], Singles(s[n + 2..]));
    CutSplit(s[..n], Singles(s[..n]), s[n..n + 2] + s[n + 2..], [s[n..n + 2]] + Singles(s[n + 2..]));
    assert s == s[..n] + (s[n..n + 2] + s[n + 2..]);
  }

  /** A stretch beyond the limit with a byte behind it shows in which of the two readings it was. */
  lemma {:induction false} LongStretchShows(s: seq<Byte>)
    requires |s| >= PENDING_LIMIT + 2 && NEWLINE !in s[..PENDING_LIMIT + 1]
    ensures Offered([], Singles(s)) != Offered([], PairedAtLimit(s))
  {
    var n := PENDING_LIMIT;
    var front, c, d, rest := s[..n], s[n], s[n + 1], s[n + 2..];
    var singly, paired := [[c]] + ([[d]] + Singles(rest)), [s[n..n + 2]] + Singles(rest);
    assert s[..n + 1] == front + [c] && s[n..n + 2] == [c, d];
    SinglesInParts(s, n);
    assert [] + front == front;
    BytesAreKept([], front, singly);
    BytesAreKept([], front, paired);
    OneByte(front, c, [[d]] + Singles(rest));
    OneByte([], d, Singles(rest));
    TwoBytes(front, c, d, Singles(rest));
    hide Offered, Singles;
    if d == NEWLINE {
      assert ([[]] + Offered([], Singles(rest)))[0] == [];
      assert ([front + [c]] + Offered([], Singles(rest)))[0] == front + [c];
    } else {
      assert [] + [d] == [d];
      PendingShows([d], [], rest);
    }
  }

  lemma {:induction false} SinglesSplit(a: seq<Byte>, b: seq<Byte>)
    ensures Singles(a + b) == Singles(a) + Singles(b)
    decreases |a|
  {
    if a == [] {
      assert a + b == b;
    } else {
      assert (a + b)[0] == a[0] && (a + b)[1..] == a[1..] + b;
      SinglesSplit(a[1..], b);
    }
  }

  lemma {:induction false} SinglesInParts(s: seq<Byte>, n: nat)
    requires n + 2 <= |s|
    ensures Singles(s) == Singles(s[..n]) + ([[s[n]]] + ([[s[n + 1]]] + Singles(s[n + 2..])))
  {
    hide Singles;
    var c, d, rest := [s[n]], [s[n + 1]], s[n + 2..];
    assert s == s[..n] + (c + (d + rest));
    SinglesSplit(s[..n], c + (d + rest));
    SinglesSplit(c, d + rest);
    SinglesSplit(d, rest);
    SingleByte(s[n]);
    SingleByte(s[n + 1]);
  }

  lemma {:induction false} SingleByte(c: Byte)
    ensures Singles([c]) == [[c]]
  {
    assert [c][1..] == [] && Singles([]) == [];
  }

  /** Two bytes in one chunk: a line ended by the second is offered whole, however long. */
  lemma {:induction false} TwoBytes(pending: seq<Byte>, c: Byte, d: Byte, later: seq<seq<Byte>>)
    requires NEWLINE !in pending && c != NEWLINE && |pending| == PENDING_LIMIT
    ensures Offered(pending, [[c, d]] + later) ==
            if d == NEWLINE then [pending + [c]] + Offered([], later) else Offered([], later)
  {
    var line := pending + [c];
    assert pending + [c, d] == line + [d];
    TakeChunk(pending, [[c, d]] + later, later);
    if d == NEWLINE {
      OneLine(line);
    } else {
      NoLine(line + [d]);
      assert [] + Offered([], later) == Offered([], later);
    }
  }

  /** Every stream that is not settled can be read in two ways that offer different lines. */
  lemma {:induction false} TwoCuts(s: seq<Byte>) returns (a: seq<seq<Byte>>, b: seq<seq<Byte>>)
    requires !Settled(s)
    ensures Cut(s, a) && Cut(s, b) && Offered([], a) != Offered([], b)
    decreases |s|
  {
    hide Settled, EndedLines, Tail, Offered, Cut, Flatten, Singles, FirstNewline, PairedAtLimit;
    var n := FirstNewline(s);
    if n > PENDING_LIMIT {
      LongStretch(s);
      a, b := Singles(s), PairedAtLimit(s);
    } else {
      RestIsUnsettled(s, n);
      var a', b' := TwoCuts(s[n + 1..]);
      CutBehindALine(s, n, a');
      CutBehindALine(s, n, b');
      a, b := Singles(s[..n]) + [[NEWLINE]] + a', Singles(s[..n]) + [[NEWLINE]] + b';
      DifferBehind(s[..n], Offered([], a'), Offered([], b'));
    }
  }

  lemma {:induction false} DifferBehind(line: seq<Byte>, a: seq<seq<Byte>>, b: seq<seq<Byte>>)
    requires a != b
    ensures [line] + a != [line] + b
  {
    assert ([line] + a)[1..] == a && ([line] + b)[1..] == b;
  }

  lemma {:induction false} LongStretch(s: seq<Byte>)
    requires !Settled(s) && FirstNewline(s) > PENDING_LIMIT
    ensures |s| >= PENDING_LIMIT + 2 && Cut(s, Singles(s)) && Cut(s, PairedAtLimit(s))
    ensures Offered([], Singles(s)) != Offered([], PairedAtLimit(s))
  {
    LongStretchHasMore(s);
    hide Offered, Cut, Singles, PairedAtLimit, Settled, FirstNewline;
    SinglesAreACut(s);
    PairedIsACut(s);
    LongStretchShows(s);
  }

  lemma {:induction false} LongStretchHasMore(s: seq<Byte>)
    requires !Settled(s) && FirstNewline(s) > PENDING_LIMIT
    ensures |s| >= PENDING_LIMIT + 2 && NEWLINE !in s[..PENDING_LIMIT + 1]
  {
    FirstEndedLine(s);
    assert FirstNewline(s) == |s| ==> EndedLines(s) == [];
    hide EndedLines, Tail;
    assert s[..PENDING_LIMIT + 1] == s[..FirstNewline(s)][..PENDING_LIMIT + 1];
  }

  lemma {:induction false} RestIsUnsettled(s: seq<Byte>, n: nat)
    requires !Settled(s) && n == FirstNewline(s) <= PENDING_LIMIT
    ensures n < |s| && !Settled(s[n + 1..])
  {
    FirstEndedLine(s);
    if n < |s| {
      assert EndedLines(s) == [s[..n]] + EndedLines(s[n + 1..]) && Tail(s) == Tail(s[n + 1..]);
    }
  }

  lemma {:induction false} CutBehindALine(s: seq<Byte>, n: nat, later: seq<seq<Byte>>)
    requires n == FirstNewline(s) <= PENDING_LIMIT && n < |s| && Cut(s[n + 1..], later)
    ensures Cut(s, Singles(s[..n]) + [[NEWLINE]] + later)
    ensures Offered([], Singles(s[..n]) + [[NEWLINE]] + later) == [s[..n]] + Offered([], later)
  {
    hide Cut, Flatten, Singles, Offered, FirstNewline;
    var line, end := s[..n], [NEWLINE];
    LineInFront(line, later);
    SinglesAreACut(line);
    OneChunkIsACut(end);
    CutSplit(line, Singles(line), end, [end]);
    CutSplit(line + end, Singles(line) + [end], s[n + 1..], later);
    assert s == line + end + s[n + 1..];
  }

  lemma {:induction false} LineInFront(line: seq<Byte>, later: seq<seq<Byte>>)
    requires NEWLINE !in line && |line| <= PENDING_LIMIT
    ensures Offered([], Singles(line) + [[NEWLINE]] + later) == [line] + Offered([], later)
  {
    assert [] + line == line;
    Regroup3(Singles(line), [[NEWLINE]], later);
    BytesAreKept([], line, [[NEWLINE]] + later);
    OneByte(line, NEWLINE, later);
  }

  /** What the reader offers does not depend on how the stream is read, exactly when no ended line is longer than the
      limit and what follows the last newline is longer by one byte at most. */
  lemma {:induction false} CutDoesNotMatterExactlyWhen(s: seq<Byte>)
    ensures (forall a, b :: Cut(s, a) && Cut(s, b) ==> Offered([], a) == Offered([], b)) <==>
            (forall line :: line in EndedLines(s) ==> |line| <= 65536) && |Tail(s)| <= 65537
  {
    if Settled(s) {
      assert [] + s == s;
      forall a, b | Cut(s, a) && Cut(s, b) ensures Offered([], a) == Offered([], b) {
        OfferedIsSettled([], a);
        OfferedIsSettled([], b);
      }
    } else {
      var a, b := TwoCuts(s);
    }
  }

  /** The reader aborts exactly when some line is recognised, and with the response to the first such line. */
  lemma {:induction false} AbortIsTheFirstRecognisedLine<R>(
      classify: seq<Byte> -> Option<R>, lines: seq<seq<Byte>>, bytes: seq<Byte>)
    ensures Verdict(classify, lines, bytes) == Returned(bytes)
       <==> forall line :: line in lines ==> classify(line).None?
    ensures forall k :: 0 <= k < |lines| && classify(lines[k]).Some?
                        && (forall j :: 0 <= j < k ==> classify(lines[j]).None?)
              ==> Verdict(classify, lines, bytes) == Aborted(classify(lines[k]).value)
  {
    if lines != [] {
      AbortIsTheFirstRecognisedLine(classify, lines[1..], bytes);
      assert lines == [lines[0]] + lines[1..];
      forall k | 0 <= k < |lines| && classify(lines[k]).Some? && (forall j :: 0 <= j < k ==> classify(lines[j]).None?)
        ensures Verdict(classify, lines, bytes) == Aborted(classify(lines[k]).value)
      {
        if k > 0 {
          assert lines[k] == lines[1..][k - 1];
          assert forall j :: 0 <= j < k - 1 ==> lines[1..][j] == lines[j + 1];
        }
      }
    }
  }

  /** The classifier is given the lines up to the first one it recognises, and no line behind that. */
  lemma {:induction false} JudgedUpToTheFirstRecognised<R>(
      classify: seq<Byte> -> Option<R>, lines: seq<seq<Byte>>, k: nat)
    requires k <= |lines| && (forall j :: 0 <= j < k ==> classify(lines[j]).None?)
    requires k < |lines| ==> classify(lines[k]).Some?
    ensures Judged(classify, lines) == if k < |lines| then lines[..k + 1] else lines
  {
    if k > 0 {
      var rest := lines[1..];
      JudgedUpToTheFirstRecognised(classify, rest, k - 1);
      assert lines == [lines[0]] + rest;
      if k < |lines| {
        assert lines[..k + 1] == [lines[0]] + rest[..k];
      }
    }
  }

  /** A line of 65537 bytes: forgotten, leaving an empty line, when it is read byte by byte, and offered whole when its
      last byte comes in one chunk with its newline. */
  lemma {:induction false} LongLineDependsOnTheCut()
    ensures var line := seq(PENDING_LIMIT + 1, _ => 97 as Byte);
            var s := line + [NEWLINE];
            && Cut(s, Singles(s)) && Offered([], Singles(s)) == [[]]
            && Cut(s, PairedAtLimit(s)) && Offered([], PairedAtLimit(s)) == [line]
  {
    hide Offered, Singles, PairedAtLimit, Cut;
    var line := seq(PENDING_LIMIT + 1, _ => 97 as Byte);
    var s := line + [NEWLINE];
    SinglesAreACut(s);
    PairedIsACut(s);
    LongLineReadSingly(line);
    LongLineReadPaired(line);
  }

  lemma {:induction false} LongLineReadSingly(line: seq<Byte>)
    requires NEWLINE !in line && |line| == PENDING_LIMIT + 1
    ensures Offered([], Singles(line + [NEWLINE])) == [[]]
  {
    var n, s := PENDING_LIMIT, line + [NEWLINE];
    var front, c, end := line[..n], line[n], Singles([]);
    SinglesInParts(s, n);
    hide Offered, Singles;
    assert s[..n] == front && s[n + 2..] == [] && front + [c] == line && [] + front == front;
    BytesAreKept([], front, [[c]] + ([[NEWLINE]] + end));
    OneByte(front, c, [[NEWLINE]] + end);
    OneByte([], NEWLINE, end);
    NothingMore();
  }

  lemma {:induction false} LongLineReadPaired(line: seq<Byte>)
    requires NEWLINE !in line && |line| == PENDING_LIMIT + 1
    ensures Offered([], PairedAtLimit(line + [NEWLINE])) == [line]
  {
    hide Offered, Singles;
    var n, s := PENDING_LIMIT, line + [NEWLINE];
    var front, c, end := line[..n], line[n], Singles([]);
    assert s[..n] == front && s[n..n + 2] == [c, NEWLINE] && s[n + 2..] == [];
    assert front + [c] == line && [] + front == front;
    BytesAreKept([], front, [[c, NEWLINE]] + end);
    TwoBytes(front, c, NEWLINE, end);
    NothingMore();
  }

  lemma {:induction false} NothingMore()
    ensures Offered([], Singles([])) == []
  {
  }

  lemma {:induction false} OneLine(line: seq<Byte>)
    requires NEWLINE !in line
    ensures EndedLines(line + [NEWLINE]) == [line] && Tail(line + [NEWLINE]) == []
  {
    var s := line + [NEWLINE];
    assert FirstNewline(line) == |line|;
    NewlineOf(line, [NEWLINE]);
    assert s[..|line|] == line && s[|line| + 1..] == [];
  }
}
