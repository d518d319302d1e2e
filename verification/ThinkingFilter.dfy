/** The filter that drops agent text leading up to a tool call, and what it means for a whole stream. */
module ThinkingFilter {
  import opened Sequences

  datatype Event = TextDelta(text: string) | ToolUse(tool: string) | Thinking(thought: string) | Other(payload: string)

  predicate AllText(es: seq<Event>) {
    forall e :: e in es ==> e.TextDelta?
  }

  // ----- One event at a time -----

  function Emitted(buffered: seq<Event>, e: Event): seq<Event> {
    if e.TextDelta? then [] else if e.Other? then buffered + [e] else [e]
  }

  function Kept(buffered: seq<Event>, e: Event): seq<Event> {
    if e.TextDelta? then buffered + [e] else if e.Thinking? then buffered else []
  }

  class CodexThinkingFilter {
    var buffered: seq<Event>

    constructor ()
      ensures buffered == []
    {
      buffered := [];
    }

    method Process(e: Event) returns (out: seq<Event>)
      modifies this
      ensures out == Emitted(old(buffered), e) && buffered == Kept(old(buffered), e)
      ensures AllText(old(buffered)) ==> AllText(buffered)
    {
      if e.TextDelta? {
        buffered := buffered + [e];
        return [];
      }
      if e.ToolUse? {
        buffered := [];
        return [e];
      }
      if e.Thinking? {
        return [e];
      }
      out := buffered;
      buffered := [];
      out := out + [e];
    }

    method Flush() returns (out: seq<Event>)
      modifies this
      ensures out == old(buffered) && buffered == []
    {
      out := buffered;
      buffered := [];
    }

    /** A whole stream, flushed at its end. */
    method FilterStream(es: seq<Event>) returns (out: seq<Event>)
      modifies this
      ensures out == Filtered(old(buffered), es) && buffered == []
    {
      out := [];
      ghost var before := buffered;
      var i := 0;
      while i < |es|
        invariant 0 <= i <= |es|
        invariant out + Filtered(buffered, es[i..]) == Filtered(before, es)
      {
        var step := Process(es[i]);
        assert es[i..][1..] == es[i + 1..];
        out := out + step;
        i := i + 1;
      }
      var rest := Flush();
      out := out + rest;
    }
  }

  // ----- A whole stream -----

  /** What the stream es puts out when the filter starts with some text buffered and is flushed at the end. */
  function Filtered(buffered: seq<Event>, es: seq<Event>): seq<Event>
    decreases |es|
  {
    if es == [] then buffered
    else Emitted(buffered, es[0]) + Filtered(Kept(buffered, es[0]), es[1..])
  }

  function NonText(es: seq<Event>): seq<Event> {
    if es == [] then [] else (if es[0].TextDelta? then [] else [es[0]]) + NonText(es[1..])
  }

  function Texts(es: seq<Event>): seq<Event> {
    if es == [] then [] else (if es[0].TextDelta? then [es[0]] else []) + Texts(es[1..])
  }

  /** The next event of es that is neither text nor thinking, if there is one, is a tool use. */
  predicate ToolComes(es: seq<Event>) {
    es != [] && (es[0].ToolUse? || (!es[0].Other? && ToolComes(es[1..])))
  }

  /** The text deltas no tool use cancels, in their order. */
  function Survivors(es: seq<Event>): seq<Event> {
    if es == [] then []
    else (if es[0].TextDelta? && !ToolComes(es[1..]) then [es[0]] else []) + Survivors(es[1..])
  }

  lemma {:induction false} NonTextSplit(a: seq<Event>, b: seq<Event>)
    ensures NonText(a + b) == NonText(a) + NonText(b)
  {
    if a == [] {
      assert a + b == b;
    } else {
      assert (a + b)[1..] == a[1..] + b;
      NonTextSplit(a[1..], b);
    }
  }

  lemma {:induction false} TextsSplit(a: seq<Event>, b: seq<Event>)
    ensures Texts(a + b) == Texts(a) + Texts(b)
  {
    if a == [] {
      assert a + b == b;
    } else {
      assert (a + b)[1..] == a[1..] + b;
      TextsSplit(a[1..], b);
    }
  }

  lemma {:induction false} OfAllText(es: seq<Event>)
    requires AllText(es)
    ensures NonText(es) == [] && Texts(es) == es
  {
    if es != [] {
      OfAllText(es[1..]);
    }
  }

  lemma {:induction false} EmittedParts(buffered: seq<Event>, e: Event)
    requires AllText(buffered)
    ensures AllText(Kept(buffered, e))
    ensures NonText(Emitted(buffered, e)) == NonText([e])
    ensures Texts(Emitted(buffered, e)) == if e.Other? then buffered else []
  {
    OfAllText(buffered);
    NonTextSplit(buffered, [e]);
    TextsSplit(buffered, [e]);
  }

  /** Every event that is not text comes out once and in order. */
  lemma {:induction false} NonTextPassesThrough(buffered: seq<Event>, es: seq<Event>)
    requires AllText(buffered)
    ensures NonText(Filtered(buffered, es)) == NonText(es)
    decreases |es|
  {
    if es == [] {
      OfAllText(buffered);
    } else {
      var out, kept := Emitted(buffered, es[0]), Kept(buffered, es[0]);
      EmittedParts(buffered, es[0]);
      NonTextPassesThrough(kept, es[1..]);
      NonTextSplit(out, Filtered(kept, es[1..]));
      NonTextSplit([es[0]], es[1..]);
      assert [es[0]] + es[1..] == es;
    }
  }

  /** Text keeps its order, and a delta is dropped exactly when the next event that is neither text nor thinking is
      a tool use. */
  lemma {:induction false} TextIsDroppedExactlyBeforeTools(buffered: seq<Event>, es: seq<Event>)
    requires AllText(buffered)
    ensures Texts(Filtered(buffered, es)) == (if ToolComes(es) then [] else buffered) + Survivors(es)
    decreases |es|
  {
    if es == [] {
      OfAllText(buffered);
    } else {
      var e, rest := es[0], es[1..];
      var later := Survivors(rest);
      EmittedParts(buffered, e);
      TextIsDroppedExactlyBeforeTools(Kept(buffered, e), rest);
      TextsSplit(Emitted(buffered, e), Filtered(Kept(buffered, e), rest));
      assert Texts(Filtered(buffered, es)) == (if e.Other? then buffered else [])
        + ((if ToolComes(rest) then [] else Kept(buffered, e)) + later);
      assert Survivors(es) == (if e.TextDelta? && !ToolComes(rest) then [e] else []) + later;
      hide Texts, Filtered, Survivors;
      Regroup3(buffered, [e], later);
    }
  }

  // ----- Where surviving text comes out -----

  /** The position of the first event that is neither text nor thinking. */
  function Barrier(es: seq<Event>): (n: nat)
    ensures n <= |es|
    ensures forall i :: 0 <= i < n ==> es[i].TextDelta? || es[i].Thinking?
    ensures n < |es| ==> es[n].ToolUse? || es[n].Other?
  {
    if es == [] || es[0].ToolUse? || es[0].Other? then 0 else 1 + Barrier(es[1..])
  }

  /** The stream read one segment at a time: the thinking of the segment, then its text unless a tool use ends it,
      then the event that ends it. */
  function Rendered(es: seq<Event>): seq<Event>
    decreases |es|
  {
    var n := Barrier(es);
    if n == |es| then NonText(es) + Texts(es)
    else NonText(es[..n]) + (if es[n].ToolUse? then [] else Texts(es[..n])) + [es[n]] + Rendered(es[n + 1..])
  }

  predicate Unending(es: seq<Event>) {
    forall e :: e in es ==> e.TextDelta? || e.Thinking?
  }

  lemma {:induction false} WithinASegment(buffered: seq<Event>, segment: seq<Event>, rest: seq<Event>)
    requires Unending(segment)
    ensures Filtered(buffered, segment + rest) == NonText(segment) + Filtered(buffered + Texts(segment), rest)
    decreases segment
  {
    if segment == [] {
      assert segment + rest == rest && buffered + [] == buffered;
    } else {
      var e, later := segment[0], segment[1..];
      assert (segment + rest)[1..] == later + rest;
      WithinASegment(Kept(buffered, e), later, rest);
      HeadOfSegment(buffered, segment + rest, segment);
      hide Texts, Filtered, NonText;
      if e.TextDelta? {
        Regroup3(buffered, [e], Texts(later));
      } else {
        Regroup3([e], NonText(later), Filtered(buffered + Texts(later), rest));
      }
    }
  }

  /** The first event of a stream whose first events are `segment`, as the projections and the filter see it. */
  lemma {:induction false} HeadOfSegment(buffered: seq<Event>, es: seq<Event>, segment: seq<Event>)
    requires es != [] && segment != [] && es[0] == segment[0] && (es[0].TextDelta? || es[0].Thinking?)
    ensures es[0].TextDelta? ==>
              && Texts(segment) == [es[0]] + Texts(segment[1..]) && NonText(segment) == NonText(segment[1..])
              && Filtered(buffered, es) == Filtered(buffered + [es[0]], es[1..])
    ensures es[0].Thinking? ==>
              && Texts(segment) == Texts(segment[1..]) && NonText(segment) == [es[0]] + NonText(segment[1..])
              && Filtered(buffered, es) == [es[0]] + Filtered(buffered, es[1..])
  {
  }

  /** The stateful filter is the segment reading of the stream. */
  lemma {:induction false} FilterIsRendering(es: seq<Event>)
    ensures Filtered([], es) == Rendered(es)
    decreases |es|
  {
    var n := Barrier(es);
    var segment, rest := es[..n], es[n..];
    var texts := Texts(segment);
    assert es == segment + rest && [] + texts == texts;
    WithinASegment([], segment, rest);
    if n == |es| {
      assert segment == es && rest == [];
    } else {
      FilterIsRendering(es[n + 1..]);
      assert rest[0] == es[n] && rest[1..] == es[n + 1..];
      AtTheBarrier(texts, rest);
      Regroup3(NonText(segment), (if es[n].ToolUse? then [] else texts) + [es[n]], Filtered([], rest[1..]));
      Regroup3(NonText(segment), if es[n].ToolUse? then [] else texts, [es[n]]);
    }
  }

  lemma {:induction false} AtTheBarrier(texts: seq<Event>, es: seq<Event>)
    requires es != [] && (es[0].ToolUse? || es[0].Other?)
    ensures Filtered(texts, es) == (if es[0].ToolUse? then [] else texts) + [es[0]] + Filtered([], es[1..])
  {
  }
}
