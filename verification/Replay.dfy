/** Compaction of a replayed history (src/chat/replay.ts).

    `CompactHistory` says what compaction yields: within one turn the first chunk of a kind carries the
    text of all of them, and text chunks vanish from a turn that has a message.  The methods below are
    the program's loops, proved to compute it.
 */
module Replay {
  import opened Options
  import opened Frames

  // ---- Looking ahead within the current turn -------------------------------------------------

  predicate EndsTurn(e: Event) { e.body.TurnEnd? }

  /** Whether the current turn still holds a message. */
  predicate HasMessage(events: seq<Event>) {
    events != [] && (events[0].body.Message? || (!EndsTurn(events[0]) && HasMessage(events[1..])))
  }

  /** The text of all chunks of one kind in the rest of the current turn. */
  function TextOf(events: seq<Event>, kind: string): string {
    if events == [] || EndsTurn(events[0]) then ""
    else (if IsChunk(events[0]) && ChunkKind(events[0]) == kind then ChunkText(events[0]) else "")
         + TextOf(events[1..], kind)
  }

  // ---- Compaction ----------------------------------------------------------------------------

  function Merged(e: Event, text: string): Event {
    Event(e.seqNo, Streamed(Some(Chunk(ChunkKind(e), text))))
  }

  predicate Dropped(kind: string, seen: set<string>, hasMessage: bool) {
    kind in seen || (kind == TEXT && hasMessage)
  }

  /** Compacts the rest of a turn, in which the kinds `seen` already have their merged chunk, and all
      turns after it. */
  function CompactRest(events: seq<Event>, seen: set<string>, hasMessage: bool): seq<Event>
    decreases |events|, 0
  {
    if events == [] then []
    else
      var e, rest := events[0], events[1..];
      if EndsTurn(e) then [e] + CompactHistory(rest)
      else if !IsChunk(e) then [e] + CompactRest(rest, seen, hasMessage)
      else if Dropped(ChunkKind(e), seen, hasMessage) then CompactRest(rest, seen, hasMessage)
      else
        [Merged(e, ChunkText(e) + TextOf(rest, ChunkKind(e)))] + CompactRest(rest, seen + {ChunkKind(e)}, hasMessage)
  }

  function CompactHistory(events: seq<Event>): seq<Event>
    decreases |events|, 1
  {
    CompactRest(events, {}, HasMessage(events))
  }

  // ---- Segments ------------------------------------------------------------------------------

  ghost predicate NoTurnEnd(events: seq<Event>) { forall e | e in events :: !EndsTurn(e) }

  /** One turn: nothing after its `turn_end`, which only a turn still in flight lacks. */
  ghost predicate OneTurn(segment: seq<Event>) {
    segment != [] && NoTurnEnd(segment[..|segment| - 1])
  }

  ghost predicate Complete(segment: seq<Event>) {
    OneTurn(segment) && EndsTurn(segment[|segment| - 1])
  }

  function SegmentLength(events: seq<Event>): (n: nat)
    ensures n <= |events| && (events != [] ==> 0 < n)
  {
    if events == [] then 0 else if EndsTurn(events[0]) then 1 else 1 + SegmentLength(events[1..])
  }

  function Segments(events: seq<Event>): seq<seq<Event>> {
    if events == [] then []
    else var n := SegmentLength(events); [events[..n]] + Segments(events[n..])
  }

  function Concat(segments: seq<seq<Event>>): seq<Event> {
    if segments == [] then [] else segments[0] + Concat(segments[1..])
  }

  lemma {:induction false} FirstSegment(events: seq<Event>)
    requires events != []
    ensures var n := SegmentLength(events);
            && OneTurn(events[..n])
            && (n < |events| ==> Complete(events[..n]))
  {
    if !EndsTurn(events[0]) && |events| > 1 {
      FirstSegment(events[1..]);
      var n := SegmentLength(events);
      assert events[..n] == [events[0]] + events[1..][..n - 1];
      assert events[..n - 1] == [events[0]] + events[1..][..n - 2];
    }
  }

  lemma {:induction false} SegmentLengthOf(segment: seq<Event>, rest: seq<Event>)
    requires OneTurn(segment) && (rest == [] || Complete(segment))
    ensures SegmentLength(segment + rest) == |segment|
  {
    if |segment| == 1 {
      assert (segment + rest)[1..] == rest;
      assert rest == [] || EndsTurn(segment[0]);
    } else {
      assert segment[0] in segment[..|segment| - 1];
      assert (segment + rest)[1..] == segment[1..] + rest;
      assert segment[1..][..|segment| - 2] == segment[..|segment| - 1][1..];
      SegmentLengthOf(segment[1..], rest);
    }
  }

  lemma {:induction false} SegmentsPartition(events: seq<Event>)
    ensures Concat(Segments(events)) == events
    ensures forall s | s in Segments(events) :: OneTurn(s)
    ensures forall i | 0 <= i < |Segments(events)| - 1 :: Complete(Segments(events)[i])
  {
    if events != [] {
      var n := SegmentLength(events);
      FirstSegment(events);
      SegmentsPartition(events[n..]);
      assert events == events[..n] + events[n..];
    }
  }

  // ---- Compaction works turn by turn ---------------------------------------------------------

  lemma {:induction false} LookAheadStopsAt(segment: seq<Event>, rest: seq<Event>, kind: string)
    requires segment == [] || Complete(segment)
    ensures segment != [] ==> TextOf(segment + rest, kind) == TextOf(segment, kind)
    ensures segment != [] ==> HasMessage(segment + rest) == HasMessage(segment)
  {
    if segment != [] {
      assert (segment + rest)[1..] == segment[1..] + rest;
      if |segment| > 1 {
        assert segment[1..][..|segment| - 2] == segment[..|segment| - 1][1..];
        LookAheadStopsAt(segment[1..], rest, kind);
      }
    }
  }

  lemma {:induction false} CompactRestOf(segment: seq<Event>, rest: seq<Event>, seen: set<string>, hasMessage: bool)
    requires Complete(segment)
    ensures CompactRest(segment + rest, seen, hasMessage)
            == CompactRest(segment, seen, hasMessage) + CompactHistory(rest)
  {
    var e, tail := segment[0], segment[1..];
    assert (segment + rest)[1..] == tail + rest;
    if |segment| == 1 {
      assert tail == [] && tail + rest == rest && CompactHistory([]) == [];
      assert EndsTurn(e);
      assert CompactRest(segment, seen, hasMessage) == [e];
    } else {
      assert e in segment[..|segment| - 1];
      assert tail[..|tail| - 1] == segment[..|segment| - 1][1..];
      if !IsChunk(e) || Dropped(ChunkKind(e), seen, hasMessage) {
        CompactRestOf(tail, rest, seen, hasMessage);
      } else {
        LookAheadStopsAt(tail, rest, ChunkKind(e));
        CompactRestOf(tail, rest, seen + {ChunkKind(e)}, hasMessage);
      }
    }
  }

  lemma {:induction false} CompactByTurn(segment: seq<Event>, rest: seq<Event>)
    requires Complete(segment)
    ensures CompactHistory(segment + rest) == CompactHistory(segment) + CompactHistory(rest)
  {
    LookAheadStopsAt(segment, rest, "");
    CompactRestOf(segment, rest, {}, HasMessage(segment));
  }

  // ---- The loops -----------------------------------------------------------------------------

  lemma {:induction false} SegmentsStep(segment: seq<Event>, rest: seq<Event>)
    requires OneTurn(segment) && (rest == [] || Complete(segment))
    ensures Segments(segment + rest) == [segment] + Segments(rest)
  {
    SegmentLengthOf(segment, rest);
    assert (segment + rest)[..|segment|] == segment && (segment + rest)[|segment|..] == rest;
  }

  /** The state of the loop of `segments` after `n` events. */
  ghost predicate SplitAt(events: seq<Event>, n: nat, out: seq<seq<Event>>, current: seq<Event>)
    requires n <= |events|
  {
    NoTurnEnd(current) && Segments(events) == out + Segments(current + events[n..])
  }

  lemma {:induction false} SplitStep(events: seq<Event>, n: nat, out: seq<seq<Event>>, current: seq<Event>)
    requires n < |events| && SplitAt(events, n, out, current)
    ensures !EndsTurn(events[n]) ==> SplitAt(events, n + 1, out, current + [events[n]])
    ensures EndsTurn(events[n]) ==> SplitAt(events, n + 1, out + [current + [events[n]]], [])
  {
    var next, rest := current + [events[n]], events[n + 1..];
    assert current + events[n..] == next + rest;
    if EndsTurn(events[n]) {
      assert next[..|next| - 1] == current;
      SegmentsStep(next, rest);
      assert [] + rest == rest;
      assert out + ([next] + Segments(rest)) == out + [next] + Segments(rest);
    }
  }

  lemma {:induction false} SplitDone(events: seq<Event>, out: seq<seq<Event>>, current: seq<Event>)
    requires SplitAt(events, |events|, out, current)
    ensures Segments(events) == if current == [] then out else out + [current]
  {
    assert current + events[|events|..] == current + [];
    if current != [] {
      SegmentsStep(current, []);
      assert Segments([]) == [];
    }
  }

  /** `segments`. */
  method SplitTurns(events: seq<Event>) returns (out: seq<seq<Event>>)
    ensures out == Segments(events)
  {
    out := [];
    var current: seq<Event> := [];
    assert current + events[0..] == events;
    for i := 0 to |events|
      invariant SplitAt(events, i, out, current)
    {
      SplitStep(events, i, out, current);
      current := current + [events[i]];
      if EndsTurn(events[i]) {
        out := out + [current];
        current := [];
      }
    }
    SplitDone(events, out, current);
    if current != [] {
      out := out + [current];
    }
  }

  /** Adds text to the merged chunk of a kind. */
  function AppendTo(out: seq<Event>, kind: string, text: string): seq<Event> {
    if out == [] then []
    else if IsChunk(out[0]) && ChunkKind(out[0]) == kind then [Merged(out[0], ChunkText(out[0]) + text)] + out[1..]
    else [out[0]] + AppendTo(out[1..], kind, text)
  }

  predicate OfKind(e: Event, kind: string) { IsChunk(e) && ChunkKind(e) == kind }

  predicate Mentions(events: seq<Event>, kind: string) {
    events != [] && (OfKind(events[0], kind) || Mentions(events[1..], kind))
  }

  lemma {:induction false} MentionsSnoc(events: seq<Event>, e: Event, kind: string)
    ensures Mentions(events + [e], kind) <==> Mentions(events, kind) || OfKind(e, kind)
  {
    if events == [] {
      assert [e][1..] == [];
    } else {
      assert (events + [e])[1..] == events[1..] + [e];
      MentionsSnoc(events[1..], e, kind);
    }
  }

  lemma {:induction false} TextSnoc(events: seq<Event>, e: Event, kind: string)
    requires NoTurnEnd(events)
    ensures TextOf(events + [e], kind)
            == TextOf(events, kind) + if IsChunk(e) && ChunkKind(e) == kind then ChunkText(e) else ""
  {
    if events == [] {
      assert [e][1..] == [];
    } else {
      assert (events + [e])[1..] == events[1..] + [e];
      TextSnoc(events[1..], e, kind);
    }
  }

  /** What one more event does to the compaction of a turn. */
  ghost predicate Snoc(events: seq<Event>, e: Event, seen: set<string>, hasMessage: bool) {
    var before := CompactRest(events, seen, hasMessage);
    CompactRest(events + [e], seen, hasMessage)
    == if !IsChunk(e) then before + [e]
       else if Dropped(ChunkKind(e), seen, hasMessage) then before
       else if Mentions(events, ChunkKind(e)) then AppendTo(before, ChunkKind(e), ChunkText(e))
       else before + [Merged(e, ChunkText(e))]
  }

  lemma {:induction false} CompactSnoc(events: seq<Event>, e: Event, seen: set<string>, hasMessage: bool)
    requires NoTurnEnd(events)
    ensures Snoc(events, e, seen, hasMessage)
    decreases |events|, 1
  {
    if events == [] {
      assert events + [e] == [e] && [e][1..] == [] && CompactHistory([]) == [];
      assert ChunkText(e) + TextOf([], ChunkKind(e)) == ChunkText(e);
      assert CompactRest([e], seen, hasMessage)
          == if IsChunk(e) && Dropped(ChunkKind(e), seen, hasMessage) then []
             else if IsChunk(e) then [Merged(e, ChunkText(e))] else [e];
    } else {
      var first, rest, kind := events[0], events[1..], ChunkKind(events[0]);
      assert (events + [e])[1..] == rest + [e];
      assert !EndsTurn(first);
      if !IsChunk(first) {
        CompactSnoc(rest, e, seen, hasMessage);
        AppendPast(first, CompactRest(rest, seen, hasMessage), ChunkKind(e), ChunkText(e));
      } else if Dropped(kind, seen, hasMessage) {
        CompactSnoc(rest, e, seen, hasMessage);
      } else {
        KeptSnoc(events, e, seen, hasMessage);
      }
    }
  }

  lemma {:induction false} AppendPast(first: Event, out: seq<Event>, kind: string, text: string)
    ensures AppendTo([first] + out, kind, text)
            == if IsChunk(first) && ChunkKind(first) == kind then [Merged(first, ChunkText(first) + text)] + out
               else [first] + AppendTo(out, kind, text)
  {
  }

  lemma {:induction false} UnfoldKept(e: Event, rest: seq<Event>, seen: set<string>, hasMessage: bool)
    requires IsChunk(e) && !Dropped(ChunkKind(e), seen, hasMessage)
    ensures CompactRest([e] + rest, seen, hasMessage)
            == [Merged(e, ChunkText(e) + TextOf(rest, ChunkKind(e)))]
               + CompactRest(rest, seen + {ChunkKind(e)}, hasMessage)
  {
  }

  /** Both compactions, before and after one more event, when the first event is a kept chunk. */
  lemma {:induction false} KeptUnfolds(first: Event, rest: seq<Event>, e: Event, seen: set<string>, hasMessage: bool)
    requires NoTurnEnd(rest)
    requires IsChunk(first) && !Dropped(ChunkKind(first), seen, hasMessage)
    ensures var kind := ChunkKind(first);
            var text := ChunkText(first) + TextOf(rest, kind);
            && CompactRest([first] + rest, seen, hasMessage)
               == [Merged(first, text)] + CompactRest(rest, seen + {kind}, hasMessage)
            && CompactRest([first] + (rest + [e]), seen, hasMessage)
               == [Merged(first, text + if OfKind(e, kind) then ChunkText(e) else "")]
                  + CompactRest(rest + [e], seen + {kind}, hasMessage)
  {
    var kind := ChunkKind(first);
    TextSnoc(rest, e, kind);
    UnfoldKept(first, rest, seen, hasMessage);
    UnfoldKept(first, rest + [e], seen, hasMessage);
    var more := if OfKind(e, kind) then ChunkText(e) else "";
    assert ChunkText(first) + (TextOf(rest, kind) + more) == ChunkText(first) + TextOf(rest, kind) + more;
  }

  lemma {:induction false} KeptSnoc(events: seq<Event>, e: Event, seen: set<string>, hasMessage: bool)
    requires events != [] && NoTurnEnd(events)
    requires IsChunk(events[0]) && !Dropped(ChunkKind(events[0]), seen, hasMessage)
    ensures Snoc(events, e, seen, hasMessage)
    decreases |events|, 0
  {
    var first, rest, kind := events[0], events[1..], ChunkKind(events[0]);
    CompactSnoc(rest, e, seen + {kind}, hasMessage);
    assert events == [first] + rest && events + [e] == [first] + (rest + [e]);
    KeptUnfolds(first, rest, e, seen, hasMessage);
    var text := ChunkText(first) + TextOf(rest, kind);
    var merged := Merged(first, text);
    assert text + "" == text;
    if OfKind(e, kind) {
      AppendPast(merged, CompactRest(rest, seen + {kind}, hasMessage), kind, ChunkText(e));
    } else {
      SnocPast(merged, rest, e, seen, kind, hasMessage);
    }
  }

  /** The merged chunk in front of a compaction is left alone by a chunk of another kind. */
  lemma {:induction false} SnocPast(first: Event, rest: seq<Event>, e: Event, seen: set<string>, kind: string, hasMessage: bool)
    requires Snoc(rest, e, seen + {kind}, hasMessage)
    requires OfKind(first, kind) && !OfKind(e, kind)
    ensures var before := [first] + CompactRest(rest, seen + {kind}, hasMessage);
            [first] + CompactRest(rest + [e], seen + {kind}, hasMessage)
            == if !IsChunk(e) then before + [e]
               else if Dropped(ChunkKind(e), seen, hasMessage) then before
               else if Mentions(rest, ChunkKind(e)) then AppendTo(before, ChunkKind(e), ChunkText(e))
               else before + [Merged(e, ChunkText(e))]
  {
  }

  /** Each merged chunk is where the map says it is, and is alone of its kind. */
  ghost predicate Indexed(out: seq<Event>, merged: map<string, nat>) {
    && (forall kind | kind in merged :: merged[kind] < |out| && IsChunk(out[merged[kind]])
                                        && ChunkKind(out[merged[kind]]) == kind)
    && (forall i | 0 <= i < |out| && IsChunk(out[i]) :: ChunkKind(out[i]) in merged && merged[ChunkKind(out[i])] == i)
  }

  lemma {:induction false} AppendAt(out: seq<Event>, k: nat, text: string)
    requires k < |out| && IsChunk(out[k])
    requires forall i | 0 <= i < k && IsChunk(out[i]) :: ChunkKind(out[i]) != ChunkKind(out[k])
    ensures AppendTo(out, ChunkKind(out[k]), text) == out[k := Merged(out[k], ChunkText(out[k]) + text)]
  {
    if k > 0 {
      AppendAt(out[1..], k - 1, text);
    }
  }

  /** The state of the loop of `compactSegment` after `n` events. */
  ghost predicate CompactedUpTo(segment: seq<Event>, n: nat, hasMessage: bool, out: seq<Event>, merged: map<string, nat>)
    requires n <= |segment|
  {
    && out == CompactRest(segment[..n], {}, hasMessage)
    && Indexed(out, merged)
    && forall kind :: kind in merged <==> Mentions(segment[..n], kind) && !Dropped(kind, {}, hasMessage)
  }

  lemma {:induction false} PrefixStep(segment: seq<Event>, n: nat)
    requires OneTurn(segment) && n < |segment|
    ensures segment[..n + 1] == segment[..n] + [segment[n]] && NoTurnEnd(segment[..n])
    ensures forall kind :: Mentions(segment[..n + 1], kind)
                           <==> Mentions(segment[..n], kind) || OfKind(segment[n], kind)
  {
    assert segment[..n] == segment[..|segment| - 1][..n];
    forall kind
      ensures Mentions(segment[..n] + [segment[n]], kind) <==> Mentions(segment[..n], kind) || OfKind(segment[n], kind)
    {
      MentionsSnoc(segment[..n], segment[n], kind);
    }
  }

  lemma {:induction false} KeepStep(segment: seq<Event>, n: nat, hasMessage: bool, out: seq<Event>, merged: map<string, nat>)
    requires OneTurn(segment) && n < |segment| && CompactedUpTo(segment, n, hasMessage, out, merged)
    requires !IsChunk(segment[n])
    ensures CompactedUpTo(segment, n + 1, hasMessage, out + [segment[n]], merged)
  {
    PrefixStep(segment, n);
    CompactSnoc(segment[..n], segment[n], {}, hasMessage);
  }

  lemma {:induction false} DropStep(segment: seq<Event>, n: nat, hasMessage: bool, out: seq<Event>, merged: map<string, nat>)
    requires OneTurn(segment) && n < |segment| && CompactedUpTo(segment, n, hasMessage, out, merged)
    requires IsChunk(segment[n]) && ChunkKind(segment[n]) == TEXT && hasMessage
    ensures CompactedUpTo(segment, n + 1, hasMessage, out, merged)
  {
    PrefixStep(segment, n);
    CompactSnoc(segment[..n], segment[n], {}, hasMessage);
  }

  lemma {:induction false} IndexedPush(out: seq<Event>, merged: map<string, nat>, e: Event)
    requires Indexed(out, merged) && IsChunk(e) && ChunkKind(e) !in merged
    ensures Indexed(out + [e], merged[ChunkKind(e) := |out|])
  {
  }

  lemma {:induction false} IndexedSet(out: seq<Event>, merged: map<string, nat>, k: nat, e: Event)
    requires Indexed(out, merged) && k < |out| && IsChunk(out[k]) && OfKind(e, ChunkKind(out[k]))
    ensures Indexed(out[k := e], merged)
  {
  }

  lemma {:induction false} FirstStep(segment: seq<Event>, n: nat, hasMessage: bool, out: seq<Event>, merged: map<string, nat>)
    requires OneTurn(segment) && n < |segment| && CompactedUpTo(segment, n, hasMessage, out, merged)
    requires IsChunk(segment[n]) && !(ChunkKind(segment[n]) == TEXT && hasMessage) && ChunkKind(segment[n]) !in merged
    ensures CompactedUpTo(segment, n + 1, hasMessage, out + [Merged(segment[n], ChunkText(segment[n]))],
                          merged[ChunkKind(segment[n]) := |out|])
  {
    PrefixStep(segment, n);
    CompactSnoc(segment[..n], segment[n], {}, hasMessage);
    IndexedPush(out, merged, Merged(segment[n], ChunkText(segment[n])));
  }

  lemma {:induction false} AppendStep(segment: seq<Event>, n: nat, hasMessage: bool, out: seq<Event>, merged: map<string, nat>)
    requires OneTurn(segment) && n < |segment| && CompactedUpTo(segment, n, hasMessage, out, merged)
    requires IsChunk(segment[n]) && ChunkKind(segment[n]) in merged
    ensures var k := merged[ChunkKind(segment[n])];
            k < |out| && CompactedUpTo(segment, n + 1, hasMessage,
                                       out[k := Merged(out[k], ChunkText(out[k]) + ChunkText(segment[n]))], merged)
  {
    var kind := ChunkKind(segment[n]);
    var k := merged[kind];
    PrefixStep(segment, n);
    assert !Dropped(kind, {}, hasMessage) && Mentions(segment[..n], kind);
    CompactSnoc(segment[..n], segment[n], {}, hasMessage);
    AppendAt(out, k, ChunkText(segment[n]));
    IndexedSet(out, merged, k, Merged(out[k], ChunkText(out[k]) + ChunkText(segment[n])));
  }

  /** `compactSegment`. */
  method CompactSegment(segment: seq<Event>) returns (out: seq<Event>)
    requires OneTurn(segment)
    ensures out == CompactHistory(segment)
  {
    var hasMessage := HasMessage(segment);
    var merged: map<string, nat> := map[];
    out := [];
    for i := 0 to |segment|
      invariant CompactedUpTo(segment, i, hasMessage, out, merged)
    {
      var event := segment[i];
      if !IsChunk(event) {
        KeepStep(segment, i, hasMessage, out, merged);
        out := out + [event];
        continue;
      }
      var kind := ChunkKind(event);
      if kind == TEXT && hasMessage {
        DropStep(segment, i, hasMessage, out, merged);
        continue;
      }
      if kind !in merged {
        FirstStep(segment, i, hasMessage, out, merged);
        merged := merged[kind := |out|];
        out := out + [Merged(event, ChunkText(event))];
        continue;
      }
      AppendStep(segment, i, hasMessage, out, merged);
      var k := merged[kind];
      out := out[k := Merged(out[k], ChunkText(out[k]) + ChunkText(event))];
    }
    assert segment[..|segment|] == segment;
  }

  /** `compactHistory`. */
  method Compact(events: seq<Event>) returns (out: seq<Event>)
    ensures out == CompactHistory(events)
  {
    var turns := SplitTurns(events);
    SegmentsPartition(events);
    out := [];
    for i := 0 to |turns|
      invariant CompactHistory(events) == out + CompactHistory(Concat(turns[i..]))
    {
      var compacted := CompactSegment(turns[i]);
      assert turns[i..][1..] == turns[i + 1..];
      if i < |turns| - 1 {
        CompactByTurn(turns[i], Concat(turns[i + 1..]));
      } else {
        assert Concat(turns[i..]) == turns[i];
      }
      out := out + compacted;
    }
  }
}
