/** The coalescer that buffers streamed text and hands it to a callback at readable boundaries. Its methods are cut at
    their one await: each runs up to the callback, and `CallbackDone` is the resumption, by return or by exception. */
module Coalescer {
  import opened Sequences
  import opened Text
  import opened Wrappers

  datatype Config = Config(minChars: int, maxChars: int, paragraphBreak: bool, sentenceBreak: bool)

  datatype Break = Paragraph | Sentence

  /** A break of the given kind takes the two characters at position i. */
  predicate BreakAt(kind: Break, s: string, i: nat)
    requires i + 1 < |s|
  {
    match kind
    case Paragraph => s[i] == '\n' && s[i + 1] == '\n'
    case Sentence => (s[i] == '.' || s[i] == '!' || s[i] == '?') && IsSpace(s[i + 1])
  }

  predicate HasBreak(kind: Break, s: string) {
    exists i: nat :: i + 1 < |s| && BreakAt(kind, s, i)
  }

  /** The position behind the last break within s[..n]. */
  function LastBreak(kind: Break, s: string, n: nat): (r: Option<nat>)
    requires n <= |s|
    ensures r.Some? ==> 2 <= r.value <= n && BreakAt(kind, s, r.value - 2)
    ensures forall i: nat :: i + 1 < n && BreakAt(kind, s, i) ==> r.Some? && i + 2 <= r.value
  {
    if n < 2 then None
    else if BreakAt(kind, s, n - 2) then Some(n)
    else LastBreak(kind, s, n - 1)
  }

  /** A sentence break cannot overlap another, so a search may go on behind it. */
  lemma {:induction false} PastASentenceBreak(s: string, i: nat)
    requires i + 1 < |s| && BreakAt(Sentence, s, i)
    ensures LastBreak(Sentence, s, if i + 2 < |s| then i + 3 else |s|) == Some(i + 2)
  {
    assert !IsSpace('.') && !IsSpace('!') && !IsSpace('?');
    assert LastBreak(Sentence, s, i + 2) == Some(i + 2);
    if i + 2 < |s| {
      assert !BreakAt(Sentence, s, i + 1);
    }
  }

  /** The regular expression finds breaks from left to right, each search starting behind the last match. */
  method FindSentenceBreak(s: string) returns (last: Option<nat>)
    ensures last == LastBreak(Sentence, s, |s|)
  {
    last := None;
    var i := 0;
    while i + 1 < |s|
      invariant 0 <= i <= |s|
      invariant last == LastBreak(Sentence, s, if i < |s| then i + 1 else |s|)
    {
      if BreakAt(Sentence, s, i) {
        PastASentenceBreak(s, i);
        last := Some(i + 2);
        i := i + 2;
      } else {
        i := i + 1;
      }
    }
  }

  // ----- What one call does up to its await -----

  /** The fields of a coalescer: its text, whether a callback is awaited, whether the idle timer is armed. */
  datatype State = State(buffer: string, flushing: bool, idle: bool)

  /** The state at the await, and the text handed to the callback, if any. */
  datatype Started = Started(state: State, handed: Option<string>)

  function FlushUpTo(s: State, pos: nat): Started
    requires pos <= |s.buffer|
  {
    if s.buffer == "" || s.flushing || pos == 0 then Started(s, None)
    else Started(State(s.buffer[pos..], true, s.idle), Some(s.buffer[..pos]))
  }

  function FlushAll(s: State): Started {
    FlushUpTo(s, |s.buffer|)
  }

  /** How much of the buffer a feed tries to hand over: all of it when it is too long, else, when it is long enough,
      what ends in its last paragraph break or else in its last sentence break. */
  function FlushPosition(c: Config, b: string): (pos: Option<nat>)
    ensures pos.Some? ==> pos.value <= |b|
  {
    if |b| >= c.maxChars then Some(|b|)
    else if |b| < c.minChars then None
    else if c.paragraphBreak && LastBreak(Paragraph, b, |b|).Some? then LastBreak(Paragraph, b, |b|)
    else if c.sentenceBreak then LastBreak(Sentence, b, |b|)
    else None
  }

  function FeedStart(c: Config, s: State, text: string): Started {
    var b := s.buffer + text;
    match FlushPosition(c, b)
    case None => Started(State(b, s.flushing, |b| >= c.minChars), None)
    case Some(pos) => FlushUpTo(State(b, s.flushing, false), pos)
  }

  function FlushStart(c: Config, s: State, force: bool): Started {
    var s' := s.(idle := false);
    if s.buffer != "" && (force || |s.buffer| >= c.minChars) then FlushAll(s') else Started(s', None)
  }

  class StreamCoalescer {
    const config: Config
    var buffer: string
    var flushing: bool
    var idle: bool

    ghost function Abstract(): State
      reads this
    {
      State(buffer, flushing, idle)
    }

    constructor (config: Config)
      ensures this.config == config && Abstract() == State("", false, false)
    {
      this.config := config;
      buffer, flushing, idle := "", false, false;
    }

    method Feed(text: string) returns (handed: Option<string>)
      modifies this
      ensures Started(Abstract(), handed) == FeedStart(config, old(Abstract()), text)
    {
      buffer := buffer + text;
      idle := false;
      var length := |buffer|;
      if length >= config.maxChars {
        handed := DoFlush();
        return;
      }
      var paragraph := LastBreak(Paragraph, buffer, |buffer|);
      if config.paragraphBreak && paragraph.Some? && length >= config.minChars {
        handed := DoFlushUpTo(paragraph.value);
        return;
      }
      if config.sentenceBreak && length >= config.minChars {
        var sentence := FindSentenceBreak(buffer);
        if sentence.Some? {
          handed := DoFlushUpTo(sentence.value);
          return;
        }
      }
      handed := None;
      if length >= config.minChars {
        idle := true;
      }
    }

    method Flush(force: bool) returns (handed: Option<string>)
      modifies this
      ensures Started(Abstract(), handed) == FlushStart(config, old(Abstract()), force)
    {
      idle := false;
      handed := None;
      if buffer != "" && (force || |buffer| >= config.minChars) {
        handed := DoFlush();
      }
    }

    method Stop()
      modifies this
      ensures Abstract() == old(Abstract()).(idle := false)
    {
      idle := false;
    }

    method DoFlushUpTo(pos: nat) returns (handed: Option<string>)
      requires pos <= |buffer|
      modifies this
      ensures Started(Abstract(), handed) == FlushUpTo(old(Abstract()), pos)
    {
      if buffer == "" || flushing || pos == 0 {
        return None;
      }
      flushing := true;
      handed := Some(buffer[..pos]);
      buffer := buffer[pos..];
    }

    method DoFlush() returns (handed: Option<string>)
      modifies this
      ensures Started(Abstract(), handed) == FlushAll(old(Abstract()))
    {
      if buffer == "" || flushing {
        return None;
      }
      flushing := true;
      handed := Some(buffer);
      assert buffer[..|buffer|] == buffer && buffer[|buffer|..] == "";
      buffer := "";
    }

    /** The awaited callback returned or raised. */
    method CallbackDone()
      modifies this
      ensures Abstract() == old(Abstract()).(flushing := false)
    {
      flushing := false;
    }

    /** The timer went off; the flush it schedules is a later `DoFlush`. */
    method IdleFired()
      modifies this
      ensures Abstract() == old(Abstract()).(idle := false)
    {
      idle := false;
    }
  }

  // ----- What one feed achieves -----

  /** The break a feed cuts at when the buffer is long enough to cut but not too long to keep. */
  predicate Cuts(c: Config, kind: Break, b: string) {
    match kind
    case Paragraph => c.paragraphBreak && HasBreak(Paragraph, b)
    case Sentence => c.sentenceBreak && HasBreak(Sentence, b) && !(c.paragraphBreak && HasBreak(Paragraph, b))
  }

  lemma {:induction false} CutKeepsNoBreak(kind: Break, b: string)
    ensures var last := LastBreak(kind, b, |b|);
            && (last.Some? <==> HasBreak(kind, b))
            && (last.Some? ==> !HasBreak(kind, b[last.value..]))
  {
    var last := LastBreak(kind, b, |b|);
    if last.Some? {
      var kept := b[last.value..];
      assert last.value - 2 + 1 < |b|;
      forall i: nat | i + 1 < |kept| ensures !BreakAt(kind, kept, i) {
        assert kept[i] == b[last.value + i] && kept[i + 1] == b[last.value + i + 1];
        assert BreakAt(kind, kept, i) == BreakAt(kind, b, last.value + i);
      }
    }
  }

  /** What is handed over ends in the last enabled break, unless the buffer is too long to look for one. */
  lemma {:induction false} PositionIsTheLastBreak(c: Config, b: string)
    ensures var pos := FlushPosition(c, b);
            && (pos.Some? <==> |b| >= c.maxChars || (|b| >= c.minChars && exists kind :: Cuts(c, kind, b)))
            && (|b| >= c.maxChars ==> pos == Some(|b|))
            && (forall kind :: pos.Some? && |b| < c.maxChars && Cuts(c, kind, b) ==>
                  && pos.value >= 2 && BreakAt(kind, b[..pos.value], pos.value - 2) && !HasBreak(kind, b[pos.value..]))
  {
    CutKeepsNoBreak(Paragraph, b);
    CutKeepsNoBreak(Sentence, b);
    assert (exists kind :: Cuts(c, kind, b)) <==> Cuts(c, Paragraph, b) || Cuts(c, Sentence, b);
  }

  /** A feed that finds no callback in flight: when it hands text over and what it keeps. */
  lemma {:induction false} FeedCutsAtTheLastBreak(c: Config, s: State, text: string)
    requires !s.flushing
    ensures var b := s.buffer + text;
            var r := FeedStart(c, s, text);
            var long := |b| >= c.maxChars;
            && (r.handed.Some? <==> b != "" && (long || (|b| >= c.minChars && exists kind :: Cuts(c, kind, b))))
            && (r.state.flushing <==> r.handed.Some?)
            && (r.handed.Some? ==> r.handed.value + r.state.buffer == b && r.handed.value != "")
            && (r.handed.None? ==> r.state.buffer == b)
            && (r.state.idle <==> r.handed.None? && !long && |b| >= c.minChars)
            && (long ==> r.state.buffer == "")
            && (forall kind :: r.handed.Some? && !long && Cuts(c, kind, b) ==>
                  && |r.handed.value| >= 2 && BreakAt(kind, r.handed.value, |r.handed.value| - 2)
                  && !HasBreak(kind, r.state.buffer))
  {
    var b := s.buffer + text;
    PositionIsTheLastBreak(c, b);
    assert Cuts(c, Paragraph, b) || Cuts(c, Sentence, b) || (forall kind :: !Cuts(c, kind, b));
    assert forall kind :: Cuts(c, kind, b) ==> |b| >= 2 by {
      hide BreakAt, LastBreak;
      assert HasBreak(Paragraph, b) || HasBreak(Sentence, b) ==> |b| >= 2;
    }
    hide HasBreak, BreakAt, LastBreak, FlushPosition, Cuts;
    assert b[..|b|] == b && b[|b|..] == "";
  }

  /** After such a feed the buffer is below the maximum. */
  lemma {:induction false} FeedBoundsTheBuffer(c: Config, s: State, text: string)
    requires !s.flushing
    ensures var kept := FeedStart(c, s, text).state.buffer;
            |kept| < c.maxChars || kept == ""
  {
    hide HasBreak;
    FeedCutsAtTheLastBreak(c, s, text);
  }

  // ----- What a call answers, condition by condition -----

  predicate BlankLineAt(s: string, i: int) {
    0 <= i && i + 2 <= |s| && s[i..i + 2] == "\n\n"
  }

  predicate SentenceEndAt(s: string, i: int) {
    0 <= i && i + 2 <= |s| && s[i] in ".!?" && IsSpace(s[i + 1])
  }

  lemma {:induction false} BreaksAre(s: string)
    ensures HasBreak(Paragraph, s) <==> exists i :: BlankLineAt(s, i)
    ensures HasBreak(Sentence, s) <==> exists i :: SentenceEndAt(s, i)
    ensures |s| >= 2 ==> (BreakAt(Paragraph, s, |s| - 2) <==> BlankLineAt(s, |s| - 2))
    ensures |s| >= 2 ==> (BreakAt(Sentence, s, |s| - 2) <==> SentenceEndAt(s, |s| - 2))
  {
    forall i: nat | i + 1 < |s|
      ensures BreakAt(Paragraph, s, i) <==> BlankLineAt(s, i)
      ensures BreakAt(Sentence, s, i) <==> SentenceEndAt(s, i)
    {
      assert s[i..i + 2] == [s[i], s[i + 1]];
    }
    hide BreakAt;
    forall i | BlankLineAt(s, i) ensures HasBreak(Paragraph, s) {
      var k: nat := i;
      assert BreakAt(Paragraph, s, k);
    }
    forall i | SentenceEndAt(s, i) ensures HasBreak(Sentence, s) {
      var k: nat := i;
      assert BreakAt(Sentence, s, k);
    }
  }

  /** A feed hands over when no callback is in flight and the buffer is too long, or long enough and an enabled break is
      in it: everything when it is too long, else up to the last blank line, or the last end of a sentence when blank
      lines are off or missing. The timer is armed when the buffer is long enough but nothing calls for a flush. */
  lemma {:induction false} FeedAnswers(c: Config, s: State, text: string)
    ensures var b, r := s.buffer + text, FeedStart(c, s, text);
            var paragraph := c.paragraphBreak && exists i :: BlankLineAt(b, i);
            var sentence := c.sentenceBreak && exists i :: SentenceEndAt(b, i);
            var calls := |b| >= c.maxChars || (|b| >= c.minChars && (paragraph || sentence));
            if s.flushing || b == "" || !calls then
              r == Started(State(b, s.flushing, !calls && |b| >= c.minChars), None)
            else
              && r.handed.Some? && r.state.flushing && !r.state.idle && r.handed.value + r.state.buffer == b
              && (if |b| >= c.maxChars then r.handed.value == b
                  else if paragraph then
                    BlankLineAt(r.handed.value, |r.handed.value| - 2) && forall i :: !BlankLineAt(r.state.buffer, i)
                  else
                    && SentenceEndAt(r.handed.value, |r.handed.value| - 2)
                    && forall i :: !SentenceEndAt(r.state.buffer, i))
  {
    var b, r := s.buffer + text, FeedStart(c, s, text);
    BreaksAre(b);
    BreaksAre(r.state.buffer);
    if r.handed.Some? {
      BreaksAre(r.handed.value);
    }
    PositionIsTheLastBreak(c, b);
    assert (exists kind :: Cuts(c, kind, b)) <==> Cuts(c, Paragraph, b) || Cuts(c, Sentence, b);
    if !s.flushing {
      FeedCutsAtTheLastBreak(c, s, text);
    }
    hide HasBreak, BreakAt, LastBreak, FlushPosition, BlankLineAt, SentenceEndAt;
  }

  /** A flush hands over the whole buffer when it is forced or long enough and no callback is in flight. */
  lemma {:induction false} FlushAnswers(c: Config, s: State, force: bool)
    ensures FlushStart(c, s, force) ==
            if s.buffer != "" && !s.flushing && (force || |s.buffer| >= c.minChars) then
              Started(State("", true, false), Some(s.buffer))
            else Started(State(s.buffer, s.flushing, false), None)
  {
    assert s.buffer[..|s.buffer|] == s.buffer && s.buffer[|s.buffer|..] == "";
  }

  // ----- Every interleaving -----

  /** The coalescer with its surroundings: flushes the timer scheduled, text handed over, callbacks still awaited, and
      all text fed. */
  datatype World = World(state: State, scheduled: nat, sent: seq<string>, inFlight: nat, fed: string)

  const START := World(State("", false, false), 0, [], 0, "")

  datatype Event = Feed(text: string) | Flush(force: bool) | Stop | IdleFires | ScheduledFlushRuns | CallbackEnds

  function After(w: World, r: Started): World {
    match r.handed
    case None => w.(state := r.state)
    case Some(text) => w.(state := r.state, sent := w.sent + [text], inFlight := w.inFlight + 1)
  }

  /** One event; the timer fires only when armed, a scheduled flush runs only when there is one, and only an awaited
      callback ends. */
  function Next(c: Config, w: World, e: Event): World {
    match e
    case Feed(text) => After(w.(fed := w.fed + text), FeedStart(c, w.state, text))
    case Flush(force) => After(w, FlushStart(c, w.state, force))
    case Stop => w.(state := w.state.(idle := false))
    case IdleFires =>
      if w.state.idle then w.(state := w.state.(idle := false), scheduled := w.scheduled + 1) else w
    case ScheduledFlushRuns =>
      if w.scheduled > 0 then After(w.(scheduled := w.scheduled - 1), FlushAll(w.state)) else w
    case CallbackEnds =>
      if w.inFlight > 0 then w.(state := w.state.(flushing := false), inFlight := w.inFlight - 1) else w
  }

  function Run(c: Config, w: World, es: seq<Event>): World
    decreases |es|
  {
    if es == [] then w else Run(c, Next(c, w, es[0]), es[1..])
  }

  /** No text is lost, doubled or reordered, the callback never gets an empty text, and it is never re-entered. */
  predicate Good(w: World) {
    && Flatten(w.sent) + w.state.buffer == w.fed
    && (forall text :: text in w.sent ==> text != "")
    && w.inFlight == (if w.state.flushing then 1 else 0)
  }

  /** A call that had `added` fed to it keeps all text and starts a callback only when none is awaited. */
  predicate HandsOver(s: State, added: string, r: Started) {
    if r.handed.None? then r.state.buffer == s.buffer + added && r.state.flushing == s.flushing
    else !s.flushing && r.state.flushing && r.handed.value != "" && r.handed.value + r.state.buffer == s.buffer + added
  }

  lemma {:induction false} HandingOverKeepsGood(w: World, r: Started, added: string)
    requires Good(w) && HandsOver(w.state, added, r)
    ensures Good(After(w.(fed := w.fed + added), r))
  {
    Regroup3(Flatten(w.sent), w.state.buffer, added);
    if r.handed.Some? {
      FlattenSplit(w.sent, [r.handed.value]);
      FlattenOne(r.handed.value);
      Regroup3(Flatten(w.sent), r.handed.value, r.state.buffer);
    }
  }

  lemma {:induction false} FlushUpToHandsOver(s: State, added: string, s': State, pos: nat)
    requires s'.buffer == s.buffer + added && s'.flushing == s.flushing && pos <= |s'.buffer|
    ensures HandsOver(s, added, FlushUpTo(s', pos))
  {
  }

  lemma {:induction false} FeedHandsOver(c: Config, s: State, text: string)
    ensures HandsOver(s, text, FeedStart(c, s, text))
  {
    var b := s.buffer + text;
    var s' := State(b, s.flushing, false);
    if FlushPosition(c, b).Some? {
      FlushUpToHandsOver(s, text, s', FlushPosition(c, b).value);
    }
    hide FlushUpTo, FlushPosition;
  }

  lemma {:induction false} FlushHandsOver(c: Config, s: State, force: bool)
    ensures HandsOver(s, "", FlushStart(c, s, force))
    ensures HandsOver(s, "", FlushAll(s))
  {
    assert s.buffer + "" == s.buffer;
    FlushUpToHandsOver(s, "", s, |s.buffer|);
    FlushUpToHandsOver(s, "", s.(idle := false), |s.buffer|);
    hide FlushUpTo;
  }

  lemma {:induction false} StepKeepsGood(c: Config, w: World, e: Event)
    requires Good(w)
    ensures Good(Next(c, w, e))
  {
    hide FlushAll, FeedStart, FlushStart;
    assert w.fed + "" == w.fed && w.(fed := w.fed + "") == w;
    match e
    case Feed(text) =>
      FeedHandsOver(c, w.state, text);
      HandingOverKeepsGood(w, FeedStart(c, w.state, text), text);
    case Flush(force) =>
      FlushHandsOver(c, w.state, force);
      HandingOverKeepsGood(w, FlushStart(c, w.state, force), "");
    case ScheduledFlushRuns =>
      if w.scheduled > 0 {
        var w' := w.(scheduled := w.scheduled - 1);
        FlushHandsOver(c, w.state, true);
        HandingOverKeepsGood(w', FlushAll(w.state), "");
        assert w'.(fed := w'.fed + "") == w';
      }
    case _ =>
  }

  /** Conservation, in every interleaving of feeds, flushes, timers and callbacks. */
  lemma {:induction false} TextIsConserved(c: Config, w: World, es: seq<Event>)
    requires Good(w)
    ensures Good(Run(c, w, es))
    decreases |es|
  {
    if es != [] {
      StepKeepsGood(c, w, es[0]);
      TextIsConserved(c, Next(c, w, es[0]), es[1..]);
    }
  }

  lemma {:induction false} EveryRunConservesText(c: Config, es: seq<Event>)
    ensures var w := Run(c, START, es);
            && Flatten(w.sent) + w.state.buffer == w.fed && w.inFlight <= 1
            && (w.inFlight == 1 <==> w.state.flushing)
  {
    TextIsConserved(c, START, es);
  }

  /** A forced flush at the end of a stream delivers everything exactly when no callback is in flight or nothing is
      buffered; with one in flight it does nothing. */
  lemma {:induction false} ForcedFlushDeliversAllExactlyWhen(c: Config, es: seq<Event>)
    ensures var w := Run(c, START, es);
            Flatten(Next(c, w, Flush(true)).sent) == w.fed <==> !w.state.flushing || w.state.buffer == ""
  {
    var w := Run(c, START, es);
    TextIsConserved(c, START, es);
    StepKeepsGood(c, w, Flush(true));
    var w' := Next(c, w, Flush(true));
    assert |Flatten(w'.sent)| + |w'.state.buffer| == |w'.fed|;
    assert Flatten(w'.sent) + "" == Flatten(w'.sent);
  }
}
