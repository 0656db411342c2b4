/** Exactly when a compacted history is drawn like the history itself: the translation-correctness theorem
    of src/chat/replay.ts, for every history.
 */
module Faithful {
  import opened Options
  import opened Sequences
  import opened Frames
  import opened Reducer
  import opened Replay
  import opened Transcript

  predicate MessageIn(frames: seq<Event>) {
    frames != [] && (frames[0].body.Message? || MessageIn(frames[1..]))
  }

  /** Whether compaction leaves a frame that opens a block. */
  predicate StaysOpening(frames: seq<Event>, seen: set<string>, hasMessage: bool) {
    frames != [] &&
    ((if IsChunk(frames[0]) then !Dropped(ChunkKind(frames[0]), seen, hasMessage) else Opens(frames[0].body))
     || StaysOpening(frames[1..], seen, hasMessage))
  }

  /** The streamed text compaction leaves a block: none in a turn with a message; otherwise the first block
      of the turn that streams text gets all of the turn's. */
  function TailLeft(frames: seq<Event>, rest: seq<Event>, seen: set<string>, hasMessage: bool): string {
    if hasMessage || TEXT in seen || !Mentions(frames, TEXT) then "" else TextOf(frames + rest, TEXT)
  }

  /** The condition on one block: it keeps a frame to open it, and its body is settled by a message or is
      the streamed text it had. */
  predicate StretchFaithful(frames: seq<Event>, rest: seq<Event>, seen: set<string>, hasMessage: bool) {
    && (OpensIn(frames) <==> StaysOpening(frames, seen, hasMessage))
    && (OpensIn(frames) ==>
          MessageText(frames) != "" || StreamedAfter("", frames) == TailLeft(frames, rest, seen, hasMessage))
  }

  /** The condition on the rest of a turn and on all turns after it, checked block by block. */
  ghost predicate FaithfulRest(events: seq<Event>, seen: set<string>, hasMessage: bool)
    decreases |events|, 0
  {
    if events == [] then true
    else if events[0].body.User? then FaithfulRest(events[1..], seen, hasMessage)
    else
      TakeStretch(events);
      var n := StretchLength(events);
      var frames, rest := events[..n], events[n..];
      && StretchFaithful(frames, rest, seen, hasMessage)
      && if EndsTurn(frames[n - 1]) then FaithfulHistory(rest)
         else FaithfulRest(rest, SeenAfter(frames, seen, hasMessage), hasMessage)
  }

  ghost predicate FaithfulHistory(events: seq<Event>)
    decreases |events|, 1
  {
    FaithfulRest(events, {}, HasMessage(events))
  }

  // ---- One stretch ---------------------------------------------------------------------------

  lemma {:induction false} OpeningLeft(frames: seq<Event>, rest: seq<Event>, seen: set<string>, hasMessage: bool)
    ensures OpensIn(CompactStretch(frames, rest, seen, hasMessage)) <==> StaysOpening(frames, seen, hasMessage)
    decreases |frames|
  {
    if frames != [] {
      var e, after := frames[0], frames[1..];
      assert frames == [e] + after;
      UnfoldStretch(e, after, rest, seen, hasMessage);
      var tail := CompactStretch(after, rest, NextSeen(e, seen, hasMessage), hasMessage);
      assert Emitted(e, after + rest, seen, hasMessage) != [] ==>
        ([Emitted(e, after + rest, seen, hasMessage)[0]] + tail)[1..] == tail;
      if NextSeen(e, seen, hasMessage) == seen {
        OpeningLeft(after, rest, seen, hasMessage);
      }
    }
  }

  /** With text chunks ruled out, only messages touch the streamed text. */
  lemma {:induction false} NoTextLeft(
      before: string, frames: seq<Event>, rest: seq<Event>, seen: set<string>, hasMessage: bool)
    requires hasMessage || TEXT in seen
    ensures StreamedAfter(before, CompactStretch(frames, rest, seen, hasMessage))
            == if MessageIn(frames) then "" else before
    decreases |frames|
  {
    if frames != [] {
      var e, after := frames[0], frames[1..];
      var next := NextSeen(e, seen, hasMessage);
      var tail := CompactStretch(after, rest, next, hasMessage);
      assert frames == [e] + after;
      UnfoldStretch(e, after, rest, seen, hasMessage);
      NoTextLeft(if e.body.Message? then "" else before, after, rest, next, hasMessage);
      if Emitted(e, after + rest, seen, hasMessage) != [] {
        StreamedCons(before, Emitted(e, after + rest, seen, hasMessage)[0], tail);
      }
    }
  }

  lemma {:induction false} StreamedCons(before: string, e: Event, tail: seq<Event>)
    ensures StreamedAfter(before, [e] + tail)
            == StreamedAfter(if e.body.Message? then "" else if OfKind(e, TEXT) then before + ChunkText(e) else before, tail)
  {
  }

  lemma {:induction false} TextCons(e: Event, rest: seq<Event>, kind: string)
    requires !EndsTurn(e)
    ensures TextOf([e] + rest, kind) == (if OfKind(e, kind) then ChunkText(e) else "") + TextOf(rest, kind)
  {
  }

  lemma {:induction false} AllTextLeft(before: string, frames: seq<Event>, rest: seq<Event>, seen: set<string>)
    requires Stretch(frames) && TEXT !in seen && !MessageIn(frames)
    ensures StreamedAfter(before, CompactStretch(frames, rest, seen, false))
            == before + TailLeft(frames, rest, seen, false)
    decreases |frames|
  {
    if frames != [] {
      var e, after := frames[0], frames[1..];
      assert frames == [e] + after;
      if Closes(e) {
        assert frames == [e];
        ClosingHasNoText(before, e, rest, seen);
      } else if OfKind(e, TEXT) {
        FirstTextTakesAll(before, e, after, rest, seen);
      } else {
        AllTextLeft(before, after, rest, NextSeen(e, seen, false));
        NoTextInFront(before, e, after, rest, seen);
      }
    }
  }

  lemma {:induction false} ClosingHasNoText(before: string, e: Event, rest: seq<Event>, seen: set<string>)
    requires Closes(e)
    ensures StreamedAfter(before, CompactStretch([e], rest, seen, false)) == before + TailLeft([e], rest, seen, false)
  {
    assert [e][1..] == [];
    assert CompactStretch([e], rest, seen, false) == [e] + [];
    assert !Mentions([e], TEXT);
    StreamedCons(before, e, []);
    assert before + "" == before;
  }

  lemma {:induction false} FirstTextTakesAll(
      before: string, e: Event, after: seq<Event>, rest: seq<Event>, seen: set<string>)
    requires OfKind(e, TEXT) && TEXT !in seen && !MessageIn(after)
    ensures StreamedAfter(before, CompactStretch([e] + after, rest, seen, false))
            == before + TailLeft([e] + after, rest, seen, false)
  {
    var text := ChunkText(e) + TextOf(after + rest, TEXT);
    UnfoldStretch(e, after, rest, seen, false);
    StreamedCons(before, Merged(e, text), CompactStretch(after, rest, seen + {TEXT}, false));
    NoTextLeft(before + text, after, rest, seen + {TEXT}, false);
    Assoc([e], after, rest);
    TextCons(e, after + rest, TEXT);
  }

  lemma {:induction false} NoTextInFront(
      before: string, e: Event, after: seq<Event>, rest: seq<Event>, seen: set<string>)
    requires !Closes(e) && !OfKind(e, TEXT) && !e.body.Message? && TEXT !in seen
    ensures TailLeft([e] + after, rest, seen, false) == TailLeft(after, rest, NextSeen(e, seen, false), false)
    ensures StreamedAfter(before, CompactStretch([e] + after, rest, seen, false))
            == StreamedAfter(before, CompactStretch(after, rest, NextSeen(e, seen, false), false))
  {
    assert ([e] + after)[1..] == after;
    Assoc([e], after, rest);
    TextCons(e, after + rest, TEXT);
    assert "" + TextOf(after + rest, TEXT) == TextOf(after + rest, TEXT);
    UnfoldStretch(e, after, rest, seen, false);
    var out := Emitted(e, after + rest, seen, false);
    if out != [] {
      assert out == [out[0]];
      StreamedCons(before, out[0], CompactStretch(after, rest, NextSeen(e, seen, false), false));
    } else {
      assert out + CompactStretch(after, rest, NextSeen(e, seen, false), false)
          == CompactStretch(after, rest, NextSeen(e, seen, false), false);
    }
  }

  lemma {:induction false} MessageAhead(frames: seq<Event>, rest: seq<Event>)
    requires Stretch(frames)
    ensures MessageIn(frames) ==> HasMessage(frames + rest)
    ensures frames == [] || !EndsTurn(frames[|frames| - 1]) ==> (HasMessage(rest) ==> HasMessage(frames + rest))
  {
    if frames == [] {
      assert frames + rest == rest;
    } else {
      assert (frames + rest)[1..] == frames[1..] + rest;
      if Closes(frames[0]) {
        assert frames == [frames[0]] && frames[1..] + rest == rest;
        assert frames[|frames| - 1] == frames[0] && !MessageIn(frames[1..]);
      } else {
        MessageAhead(frames[1..], rest);
      }
    }
  }

  /** What a stretch draws survives compaction iff the stretch is faithful. */
  lemma {:induction false} StretchExact(frames: seq<Event>, rest: seq<Event>, seen: set<string>, hasMessage: bool)
    requires Stretch(frames) && (MessageIn(frames) ==> hasMessage)
    ensures StretchDrawn(CompactStretch(frames, rest, seen, hasMessage)) == StretchDrawn(frames)
            <==> StretchFaithful(frames, rest, seen, hasMessage)
  {
    var left := CompactStretch(frames, rest, seen, hasMessage);
    OpeningLeft(frames, rest, seen, hasMessage);
    CompactStretchShape(frames, rest, seen, hasMessage);
    SameBlock(frames, left);
    if hasMessage || TEXT in seen {
      NoTextLeft("", frames, rest, seen, hasMessage);
    } else {
      AllTextLeft("", frames, rest, seen);
    }
    assert StreamedAfter("", left) == TailLeft(frames, rest, seen, hasMessage);
  }

  // ---- Stretch after stretch -----------------------------------------------------------------

  /** Two histories that go on alike after a stretch are drawn alike iff the stretch and the rest are. */
  lemma {:induction false} DrawnApart(
      afterUser: bool, a: seq<Event>, b: seq<Event>, restA: seq<Event>, restB: seq<Event>)
    requires Stretch(a) && EndsAt(a, restA) && Stretch(b) && EndsAt(b, restB)
    requires OpensIn(a) != OpensIn(b) ==> !(a != [] && Closes(a[|a| - 1])) && !(b != [] && Closes(b[|b| - 1]))
    ensures DrawnOf(afterUser, a + restA) == DrawnOf(afterUser, b + restB)
            <==> StretchDrawn(a) == StretchDrawn(b)
                 && DrawnOf(afterUser && !OpensIn(a), restA) == DrawnOf(afterUser && !OpensIn(b), restB)
  {
    DrawnSplit(afterUser, a, restA);
    DrawnSplit(afterUser, b, restB);
    var x, y := DrawnOf(afterUser && !OpensIn(a), restA), DrawnOf(afterUser && !OpensIn(b), restB);
    if OpensIn(a) != OpensIn(b) {
      NoAgentFirst(afterUser && !OpensIn(a), restA);
      NoAgentFirst(afterUser && !OpensIn(b), restB);
    }
    ConsApart(StretchDrawn(a), StretchDrawn(b), x, y);
  }

  lemma {:induction false} NoAgentFirst(afterUser: bool, rest: seq<Event>)
    requires rest == [] || rest[0].body.User?
    ensures DrawnOf(afterUser, rest) == [] || DrawnOf(afterUser, rest)[0].DrawnUser?
  {
  }

  lemma {:induction false} ConsApart(a: seq<Drawn>, b: seq<Drawn>, x: seq<Drawn>, y: seq<Drawn>)
    requires |a| <= 1 && |b| <= 1 && (a != [] ==> a[0].DrawnAgent?) && (b != [] ==> b[0].DrawnAgent?)
    requires |a| != |b| ==> (x == [] || x[0].DrawnUser?) && (y == [] || y[0].DrawnUser?)
    ensures a + x == b + y <==> a == b && x == y
  {
    if |a| == |b| {
      if a + x == b + y {
        assert (a + x)[..|a|] == a && (b + y)[..|b|] == b;
        assert (a + x)[|a|..] == x && (b + y)[|b|..] == y;
      }
    } else if a != [] {
      assert (a + x)[0] == a[0] && b + y == y;
    } else {
      assert (b + y)[0] == b[0] && a + x == x;
    }
  }

  lemma {:induction false} RestStartsAlike(rest: seq<Event>, seen: set<string>, hasMessage: bool)
    requires rest == [] || rest[0].body.User?
    ensures var left := CompactRest(rest, seen, hasMessage); left == [] || left[0].body.User?
  {
  }

  /** The rest of the turn, or the next turn. */
  ghost predicate FaithfulAfter(frames: seq<Event>, rest: seq<Event>, seen: set<string>, hasMessage: bool) {
    if frames != [] && EndsTurn(frames[|frames| - 1]) then FaithfulHistory(rest)
    else FaithfulRest(rest, SeenAfter(frames, seen, hasMessage), hasMessage)
  }

  lemma {:induction false} FaithfulStep(events: seq<Event>, seen: set<string>, hasMessage: bool)
    requires events != [] && !events[0].body.User?
    ensures var n := StretchLength(events);
            var frames, rest := events[..n], events[n..];
            FaithfulRest(events, seen, hasMessage)
            <==> StretchFaithful(frames, rest, seen, hasMessage) && FaithfulAfter(frames, rest, seen, hasMessage)
  {
  }

  lemma {:induction false} UserFirst(afterUser: bool, e: Event, rest: seq<Event>)
    requires e.body.User?
    ensures DrawnOf(afterUser, [e] + rest)
            == [DrawnUser(e.body.text, Injected(e.body.text, afterUser), e.body.at)] + DrawnOf(true, rest)
    ensures DrawnOf(afterUser, [e] + rest)[1..] == DrawnOf(true, rest)
  {
  }

  /** A closing frame is not a chunk, so compaction neither adds nor moves one. */
  lemma {:induction false} NonChunkLast(frames: seq<Event>, left: seq<Event>)
    requires Stretch(frames) && Stretch(left) && NonChunks(left) == NonChunks(frames)
    requires left != [] && Closes(left[|left| - 1])
    ensures frames != [] && Closes(frames[|frames| - 1])
  {
    LastNonChunk(left);
    NonChunksFrom(frames);
    var last := left[|left| - 1];
    assert last in NonChunks(frames);
    assert last in frames;
    ClosingIsLast(frames, last);
  }

  lemma {:induction false} LastNonChunk(frames: seq<Event>)
    requires frames != [] && !IsChunk(frames[|frames| - 1])
    ensures frames[|frames| - 1] in NonChunks(frames)
  {
    if |frames| > 1 {
      LastNonChunk(frames[1..]);
    }
  }

  lemma {:induction false} NonChunksFrom(frames: seq<Event>)
    ensures forall e | e in NonChunks(frames) :: e in frames
  {
    if frames != [] {
      NonChunksFrom(frames[1..]);
    }
  }

  lemma {:induction false} ClosingIsLast(frames: seq<Event>, e: Event)
    requires Stretch(frames) && e in frames && Closes(e)
    ensures Closes(frames[|frames| - 1])
  {
    if !Closes(frames[0]) {
      ClosingIsLast(frames[1..], e);
    }
  }

  // ---- A history that goes on ----------------------------------------------------------------

  /** The frames of the block that goes on at the end of a history. */
  function NextStretch(more: seq<Event>): seq<Event> { more[..StretchLength(more)] }

  predicate Chunks(frames: seq<Event>) { frames == [] || (IsChunk(frames[0]) && Chunks(frames[1..])) }

  /** The condition on a block that the history leaves open and `next` goes on with, when the chunks `again` are
      given to the compacted history a second time. */
  predicate OpenFaithful(
    frames: seq<Event>, again: seq<Event>, next: seq<Event>, seen: set<string>, hasMessage: bool)
  {
    && (OpensIn(frames) || OpensIn(next) <==> StaysOpening(frames, seen, hasMessage) || OpensIn(again) || OpensIn(next))
    && (OpensIn(frames) || OpensIn(next) ==>
          MessageText(frames) != "" || MessageIn(next)
          || StreamedAfter("", frames) == TailLeft(frames, [], seen, hasMessage) + TextOf(again, TEXT))
  }

  predicate LeftOpen(frames: seq<Event>) { frames == [] || !Closes(frames[|frames| - 1]) }

  /** The condition on a history that goes on with `more`, checked block by block. */
  ghost predicate FaithfulUpTo(
    events: seq<Event>, again: seq<Event>, more: seq<Event>, seen: set<string>, hasMessage: bool)
    decreases |events|
  {
    if events == [] then OpenFaithful([], again, NextStretch(more), seen, hasMessage)
    else if events[0].body.User? then FaithfulUpTo(events[1..], again, more, seen, hasMessage)
    else
      TakeStretch(events);
      var n := StretchLength(events);
      var frames, rest := events[..n], events[n..];
      if rest == [] && LeftOpen(frames) then OpenFaithful(frames, again, NextStretch(more), seen, hasMessage)
      else
        && StretchFaithful(frames, rest, seen, hasMessage)
        && if EndsTurn(frames[n - 1]) then FaithfulUpTo(rest, again, more, {}, HasMessage(rest))
           else FaithfulUpTo(rest, again, more, SeenAfter(frames, seen, hasMessage), hasMessage)
  }

  lemma {:induction false} StretchConcat(a: seq<Event>, b: seq<Event>)
    requires Stretch(a) && LeftOpen(a) && Stretch(b)
    ensures Stretch(a + b)
    ensures OpensIn(a + b) <==> OpensIn(a) || OpensIn(b)
    ensures NonChunks(a + b) == NonChunks(a) + NonChunks(b)
    ensures MessageText(a + b) == MessageText(a) + MessageText(b)
  {
    if a == [] {
      assert a + b == b;
    } else {
      assert (a + b)[0] == a[0] && (a + b)[1..] == a[1..] + b;
      assert a == [a[0]] + a[1..];
      assert |a| > 1 || a[|a| - 1] == a[0];
      StretchConcat(a[1..], b);
      Assoc(if IsChunk(a[0]) then [] else [a[0]], NonChunks(a[1..]), NonChunks(b));
      Assoc(if a[0].body.Message? then a[0].body.text else "", MessageText(a[1..]), MessageText(b));
    }
  }

  lemma {:induction false} StreamedConcat(before: string, a: seq<Event>, b: seq<Event>)
    ensures StreamedAfter(before, a + b) == StreamedAfter(StreamedAfter(before, a), b)
    decreases |a|
  {
    if a == [] {
      assert a + b == b;
    } else {
      assert (a + b)[0] == a[0] && (a + b)[1..] == a[1..] + b;
      StreamedConcat(
        if a[0].body.Message? then "" else if OfKind(a[0], TEXT) then before + ChunkText(a[0]) else before, a[1..], b);
    }
  }

  lemma {:induction false} SameSuffix(x: string, y: string, tail: string)
    ensures x + tail == y + tail <==> x == y
  {
    if x + tail == y + tail {
      assert |x| == |y|;
      assert (x + tail)[..|x|] == x && (y + tail)[..|y|] == y;
    }
  }

  /** What was streamed before stays visible in what is streamed until a message comes. */
  lemma {:induction false} StreamedOn(x: string, y: string, next: seq<Event>)
    ensures StreamedAfter(x, next) == StreamedAfter(y, next) <==> MessageIn(next) || x == y
    decreases |next|
  {
    if next != [] && !next[0].body.Message? {
      if OfKind(next[0], TEXT) {
        StreamedOn(x + ChunkText(next[0]), y + ChunkText(next[0]), next[1..]);
        SameSuffix(x, y, ChunkText(next[0]));
      } else {
        StreamedOn(x, y, next[1..]);
      }
    }
  }

  lemma {:induction false} NoMessageNoText(frames: seq<Event>)
    requires !MessageIn(frames)
    ensures MessageText(frames) == ""
  {
    if frames != [] {
      NoMessageNoText(frames[1..]);
    }
  }

  lemma {:induction false} ChunksAre(chunks: seq<Event>)
    requires Chunks(chunks)
    ensures Stretch(chunks) && LeftOpen(chunks) && NonChunks(chunks) == [] && MessageText(chunks) == ""
  {
    if chunks != [] {
      ChunksAre(chunks[1..]);
      assert |chunks| > 1 ==> chunks[|chunks| - 1] == chunks[1..][|chunks| - 2];
      assert NonChunks(chunks) == [] + NonChunks(chunks[1..]);
      assert MessageText(chunks) == "" + MessageText(chunks[1..]);
    }
  }

  lemma {:induction false} ChunksStream(chunks: seq<Event>, before: string)
    requires Chunks(chunks)
    ensures StreamedAfter(before, chunks) == before + TextOf(chunks, TEXT)
    decreases |chunks|
  {
    if chunks == [] {
      assert before + "" == before;
    } else {
      var e, rest := chunks[0], chunks[1..];
      var text := if OfKind(e, TEXT) then ChunkText(e) else "";
      assert before + "" == before;
      ChunksStream(rest, before + text);
      Assoc(before, text, TextOf(rest, TEXT));
    }
  }

  /** What compaction leaves of an open stretch, with the chunks given again. */
  lemma {:induction false} LeftWithAgain(
      frames: seq<Event>, again: seq<Event>, seen: set<string>, hasMessage: bool) returns (left: seq<Event>)
    requires Stretch(frames) && LeftOpen(frames) && Chunks(again) && (MessageIn(frames) ==> hasMessage)
    ensures left == CompactStretch(frames, [], seen, hasMessage) + again
    ensures Stretch(left) && LeftOpen(left) && NonChunks(left) == NonChunks(frames)
    ensures OpensIn(left) <==> StaysOpening(frames, seen, hasMessage) || OpensIn(again)
    ensures StreamedAfter("", left) == TailLeft(frames, [], seen, hasMessage) + TextOf(again, TEXT)
  {
    var out := CompactStretch(frames, [], seen, hasMessage);
    left := out + again;
    CompactStretchShape(frames, [], seen, hasMessage);
    OpeningLeft(frames, [], seen, hasMessage);
    CompactedText(frames, [], seen, hasMessage);
    if !LeftOpen(out) {
      NonChunkLast(frames, out);
      assert false;
    }
    ChunksAre(again);
    ChunksStream(again, TailLeft(frames, [], seen, hasMessage));
    StretchConcat(out, again);
    StreamedConcat("", out, again);
    assert NonChunks(out) + [] == NonChunks(out);
    assert again == [] ==> left == out;
    assert again != [] ==> left[|left| - 1] == again[|again| - 1];
  }

  lemma {:induction false} CompactedText(frames: seq<Event>, rest: seq<Event>, seen: set<string>, hasMessage: bool)
    requires Stretch(frames) && (MessageIn(frames) ==> hasMessage)
    ensures StreamedAfter("", CompactStretch(frames, rest, seen, hasMessage)) == TailLeft(frames, rest, seen, hasMessage)
  {
    if hasMessage || TEXT in seen {
      NoTextLeft("", frames, rest, seen, hasMessage);
    } else {
      AllTextLeft("", frames, rest, seen);
    }
  }

  /** What an open block draws in the end survives iff it is faithful. */
  lemma {:induction false} OpenExact(
      frames: seq<Event>, again: seq<Event>, next: seq<Event>, seen: set<string>, hasMessage: bool)
    requires Stretch(frames) && LeftOpen(frames) && Chunks(again) && Stretch(next) && (MessageIn(frames) ==> hasMessage)
    ensures var left := CompactStretch(frames, [], seen, hasMessage) + again;
            && Stretch(left + next) && Stretch(frames + next)
            && (StretchDrawn(left + next) == StretchDrawn(frames + next)
                <==> OpenFaithful(frames, again, next, seen, hasMessage))
  {
    var left := LeftWithAgain(frames, again, seen, hasMessage);
    StretchConcat(left, next);
    StretchConcat(frames, next);
    StreamedConcat("", left, next);
    StreamedConcat("", frames, next);
    StreamedOn(StreamedAfter("", left), StreamedAfter("", frames), next);
    SameBlock(frames + next, left + next);
    if !MessageIn(next) {
      NoMessageNoText(next);
    }
  }

  lemma {:induction false} OpenParts(
      frames: seq<Event>, again: seq<Event>, more: seq<Event>, seen: set<string>, hasMessage: bool)
    returns (left: seq<Event>, tail: seq<Event>)
    requires Stretch(frames) && LeftOpen(frames) && Chunks(again) && (MessageIn(frames) ==> hasMessage)
    ensures var next := NextStretch(more);
            && Stretch(left) && LeftOpen(left) && Stretch(next) && EndsAt(next, tail)
            && CompactStretch(frames, [], seen, hasMessage) + (again + more) == (left + next) + tail
            && frames + more == (frames + next) + tail
            && (StretchDrawn(left + next) == StretchDrawn(frames + next)
                <==> OpenFaithful(frames, again, next, seen, hasMessage))
  {
    var next := NextStretch(more);
    TakeStretch(more);
    tail := more[StretchLength(more)..];
    assert more == next + tail;
    OpenExact(frames, again, next, seen, hasMessage);
    left := LeftWithAgain(frames, again, seen, hasMessage);
    Regroup(CompactStretch(frames, [], seen, hasMessage), again, next, tail);
    Assoc(frames, next, tail);
  }

  lemma {:induction false} OpenStep(
      afterUser: bool, frames: seq<Event>, again: seq<Event>, more: seq<Event>, seen: set<string>, hasMessage: bool)
    requires Stretch(frames) && LeftOpen(frames) && Chunks(again) && (MessageIn(frames) ==> hasMessage)
    ensures DrawnOf(afterUser, CompactStretch(frames, [], seen, hasMessage) + (again + more))
            == DrawnOf(afterUser, frames + more)
            <==> OpenFaithful(frames, again, NextStretch(more), seen, hasMessage)
  {
    var left, tail := OpenParts(frames, again, more, seen, hasMessage);
    OpenApart(afterUser, left, frames, NextStretch(more), tail);
  }

  lemma {:induction false} Regroup<T>(a: seq<T>, b: seq<T>, c: seq<T>, d: seq<T>)
    ensures a + (b + (c + d)) == ((a + b) + c) + d
  {
  }

  lemma {:induction false} OpenEnds(frames: seq<Event>, next: seq<Event>, tail: seq<Event>)
    requires EndsAt(next, tail)
    ensures EndsAt(frames + next, tail)
  {
    if next != [] {
      assert (frames + next)[|frames + next| - 1] == next[|next| - 1];
    }
  }

  lemma {:induction false} OpenApart(
      afterUser: bool, left: seq<Event>, frames: seq<Event>, next: seq<Event>, tail: seq<Event>)
    requires Stretch(left) && LeftOpen(left) && Stretch(frames) && LeftOpen(frames)
    requires Stretch(next) && EndsAt(next, tail)
    ensures DrawnOf(afterUser, (left + next) + tail) == DrawnOf(afterUser, (frames + next) + tail)
            <==> StretchDrawn(left + next) == StretchDrawn(frames + next)
  {
    StretchConcat(left, next);
    StretchConcat(frames, next);
    OpenEnds(left, next, tail);
    OpenEnds(frames, next, tail);
    if next != [] && Closes(next[|next| - 1]) {
      RunCloses(NEW_AGENT, next);
    } else if next == [] {
      assert left + next == left && frames + next == frames;
    }
    DrawnApart(afterUser, left + next, frames + next, tail, tail);
  }

  /** A stretch that is over, and what follows it. */
  lemma {:induction false} OverStep(
      afterUser: bool, frames: seq<Event>, rest: seq<Event>, after: seq<Event>, more: seq<Event>,
      seen: set<string>, hasMessage: bool)
    requires frames != [] && Stretch(frames) && EndsAt(frames, rest) && !(rest == [] && LeftOpen(frames))
    requires MessageIn(frames) ==> hasMessage
    ensures DrawnOf(afterUser, CompactRest(frames + rest, seen, hasMessage) + after)
            == DrawnOf(afterUser, frames + rest + more)
            <==> StretchFaithful(frames, rest, seen, hasMessage)
                 && DrawnOf(afterUser && !OpensIn(frames), CompactAfter(frames, rest, seen, hasMessage) + after)
                    == DrawnOf(afterUser && !OpensIn(frames), rest + more)
  {
    var left, compacted := CompactStretch(frames, rest, seen, hasMessage), CompactAfter(frames, rest, seen, hasMessage);
    CompactSplit(frames, rest, seen, hasMessage);
    CompactStretchShape(frames, rest, seen, hasMessage);
    StretchExact(frames, rest, seen, hasMessage);
    Assoc(left, compacted, after);
    Assoc(frames, rest, more);
    if Closes(frames[|frames| - 1]) {
      RunCloses(NEW_AGENT, frames);
      RunCloses(NEW_AGENT, left);
    } else {
      RestStartsAlike(rest, SeenAfter(frames, seen, hasMessage), hasMessage);
      CompactsToSome(rest, SeenAfter(frames, seen, hasMessage), hasMessage);
      if left != [] && Closes(left[|left| - 1]) {
        NonChunkLast(frames, left);
      }
    }
    DrawnApart(afterUser, left, frames, compacted + after, rest + more);
  }

  lemma {:induction false} CompactsToSome(rest: seq<Event>, seen: set<string>, hasMessage: bool)
    requires rest != [] && rest[0].body.User?
    ensures CompactRest(rest, seen, hasMessage) != []
  {
  }

  lemma {:induction false} UserStep(
      afterUser: bool, e: Event, rest: seq<Event>, after: seq<Event>, more: seq<Event>,
      seen: set<string>, hasMessage: bool)
    requires e.body.User?
    ensures DrawnOf(afterUser, CompactRest([e] + rest, seen, hasMessage) + after) == DrawnOf(afterUser, [e] + rest + more)
            <==> DrawnOf(true, CompactRest(rest, seen, hasMessage) + after) == DrawnOf(true, rest + more)
  {
    UnfoldRest(e, rest, seen, hasMessage);
    Assoc([e], CompactRest(rest, seen, hasMessage), after);
    Assoc([e], rest, more);
    UserFirst(afterUser, e, rest + more);
    UserFirst(afterUser, e, CompactRest(rest, seen, hasMessage) + after);
  }

  lemma {:induction false} UpToStep(
      events: seq<Event>, again: seq<Event>, more: seq<Event>, seen: set<string>, hasMessage: bool)
    requires events != [] && !events[0].body.User?
    ensures var n := StretchLength(events);
            var frames, rest := events[..n], events[n..];
            FaithfulUpTo(events, again, more, seen, hasMessage)
            <==> if rest == [] && LeftOpen(frames) then OpenFaithful(frames, again, NextStretch(more), seen, hasMessage)
                 else StretchFaithful(frames, rest, seen, hasMessage)
                      && if EndsTurn(frames[n - 1]) then FaithfulUpTo(rest, again, more, {}, HasMessage(rest))
                         else FaithfulUpTo(rest, again, more, SeenAfter(frames, seen, hasMessage), hasMessage)
  {
  }

  lemma {:induction false} LastStep(
      afterUser: bool, frames: seq<Event>, again: seq<Event>, more: seq<Event>, seen: set<string>, hasMessage: bool)
    requires Stretch(frames) && LeftOpen(frames) && Chunks(again) && (MessageIn(frames) ==> hasMessage)
    ensures DrawnOf(afterUser, CompactRest(frames, seen, hasMessage) + (again + more)) == DrawnOf(afterUser, frames + more)
            <==> OpenFaithful(frames, again, NextStretch(more), seen, hasMessage)
  {
    CompactSplit(frames, [], seen, hasMessage);
    assert frames + [] == frames;
    var out := CompactStretch(frames, [], seen, hasMessage);
    assert CompactAfter(frames, [], seen, hasMessage) == [] && out + [] == out;
    OpenStep(afterUser, frames, again, more, seen, hasMessage);
  }

  /** What is drawn of the compacted history that goes on is what is drawn of the history that goes on. */
  ghost predicate DrawnAlike(
    afterUser: bool, events: seq<Event>, again: seq<Event>, more: seq<Event>, seen: set<string>, hasMessage: bool)
  {
    DrawnOf(afterUser, CompactRest(events, seen, hasMessage) + (again + more)) == DrawnOf(afterUser, events + more)
  }

  /** The state of compaction past a stretch. */
  lemma {:induction false} StateAfter(frames: seq<Event>, rest: seq<Event>, seen: set<string>, hasMessage: bool)
    returns (seen': set<string>, hasMessage': bool)
    requires frames != [] && Stretch(frames) && (HasMessage(frames + rest) ==> hasMessage)
    ensures CompactAfter(frames, rest, seen, hasMessage) == CompactRest(rest, seen', hasMessage')
    ensures HasMessage(rest) ==> hasMessage'
    ensures if EndsTurn(frames[|frames| - 1]) then seen' == {} && hasMessage' == HasMessage(rest)
            else seen' == SeenAfter(frames, seen, hasMessage) && hasMessage' == hasMessage
  {
    MessageAhead(frames, rest);
    if EndsTurn(frames[|frames| - 1]) {
      seen', hasMessage' := {}, HasMessage(rest);
    } else {
      seen', hasMessage' := SeenAfter(frames, seen, hasMessage), hasMessage;
    }
  }

  lemma {:induction false} FirstStretch(events: seq<Event>) returns (frames: seq<Event>, rest: seq<Event>)
    requires events != [] && !events[0].body.User?
    ensures frames == events[..StretchLength(events)] && rest == events[StretchLength(events)..]
    ensures events == frames + rest && frames != [] && Stretch(frames) && EndsAt(frames, rest)
    ensures rest == [] ==> frames == events
  {
    TakeStretch(events);
    var n := StretchLength(events);
    frames, rest := events[..n], events[n..];
  }

  lemma {:induction false} PastDrawn(
      afterUser: bool, frames: seq<Event>, rest: seq<Event>, again: seq<Event>, more: seq<Event>,
      seen: set<string>, hasMessage: bool, seen': set<string>, hasMessage': bool)
    requires frames != [] && Stretch(frames) && EndsAt(frames, rest) && !(rest == [] && LeftOpen(frames))
    requires MessageIn(frames) ==> hasMessage
    requires CompactAfter(frames, rest, seen, hasMessage) == CompactRest(rest, seen', hasMessage')
    ensures DrawnAlike(afterUser, frames + rest, again, more, seen, hasMessage)
            <==> StretchFaithful(frames, rest, seen, hasMessage)
                 && DrawnAlike(afterUser && !OpensIn(frames), rest, again, more, seen', hasMessage')
  {
    OverStep(afterUser, frames, rest, again + more, more, seen, hasMessage);
  }

  /** Past a stretch that is over; `ok` says whether it is faithful itself. */
  lemma {:induction false} PastStretch(
      afterUser: bool, events: seq<Event>, again: seq<Event>, more: seq<Event>, seen: set<string>, hasMessage: bool)
    returns (ok: bool, afterUser': bool, rest: seq<Event>, seen': set<string>, hasMessage': bool)
    requires events != [] && !events[0].body.User? && (HasMessage(events) ==> hasMessage)
    requires StretchLength(events) == |events| ==> !LeftOpen(events)
    ensures |rest| < |events| && (HasMessage(rest) ==> hasMessage')
    ensures DrawnAlike(afterUser, events, again, more, seen, hasMessage)
            <==> ok && DrawnAlike(afterUser', rest, again, more, seen', hasMessage')
    ensures FaithfulUpTo(events, again, more, seen, hasMessage)
            <==> ok && FaithfulUpTo(rest, again, more, seen', hasMessage')
  {
    var frames;
    frames, rest := FirstStretch(events);
    MessageAhead(frames, rest);
    seen', hasMessage' := StateAfter(frames, rest, seen, hasMessage);
    UpToStep(events, again, more, seen, hasMessage);
    ok, afterUser' := StretchFaithful(frames, rest, seen, hasMessage), afterUser && !OpensIn(frames);
    PastDrawn(afterUser, frames, rest, again, more, seen, hasMessage, seen', hasMessage');
  }

  /** A compacted history that goes on, with some chunks given again, is drawn like the history that goes on
      if and only if it is faithful up to there. */
  lemma {:induction false} GoesOnExact(
      afterUser: bool, events: seq<Event>, again: seq<Event>, more: seq<Event>, seen: set<string>, hasMessage: bool)
    requires Chunks(again) && (HasMessage(events) ==> hasMessage)
    ensures DrawnAlike(afterUser, events, again, more, seen, hasMessage)
            <==> FaithfulUpTo(events, again, more, seen, hasMessage)
    decreases |events|
  {
    if events == [] {
      LastStep(afterUser, [], again, more, seen, hasMessage);
    } else if events[0].body.User? {
      assert events == [events[0]] + events[1..];
      UserStep(afterUser, events[0], events[1..], again + more, more, seen, hasMessage);
      GoesOnExact(true, events[1..], again, more, seen, hasMessage);
    } else if StretchLength(events) == |events| && LeftOpen(events) {
      TakeStretch(events);
      assert events[..|events|] == events && events[|events|..] == [];
      assert events + [] == events;
      MessageAhead(events, []);
      UpToStep(events, again, more, seen, hasMessage);
      LastStep(afterUser, events, again, more, seen, hasMessage);
    } else {
      var _, afterUser', rest, seen', hasMessage' := PastStretch(afterUser, events, again, more, seen, hasMessage);
      GoesOnExact(afterUser', rest, again, more, seen', hasMessage');
    }
  }

  // ---- Whole histories -----------------------------------------------------------------------

  lemma {:induction false} DrawnFromScratch(events: seq<Event>)
    ensures Draw(Fold([], events)) == DrawnOf(false, events)
  {
    FoldDraws([], events);
    assert Draw([]) == [];
  }

  /** A history with nothing after it is faithful up to its end iff it is faithful. */
  lemma {:induction false} UpToTheEnd(events: seq<Event>, seen: set<string>, hasMessage: bool)
    ensures FaithfulUpTo(events, [], [], seen, hasMessage) <==> FaithfulRest(events, seen, hasMessage)
    decreases |events|
  {
    assert NextStretch([]) == [];
    if events != [] && events[0].body.User? {
      UpToTheEnd(events[1..], seen, hasMessage);
    } else if events != [] {
      TakeStretch(events);
      var n := StretchLength(events);
      var frames, rest := events[..n], events[n..];
      UpToStep(events, [], [], seen, hasMessage);
      FaithfulStep(events, seen, hasMessage);
      if rest == [] && LeftOpen(frames) {
        NothingMore(frames, seen, hasMessage);
      } else if EndsTurn(frames[n - 1]) {
        UpToTheEnd(rest, {}, HasMessage(rest));
      } else {
        UpToTheEnd(rest, SeenAfter(frames, seen, hasMessage), hasMessage);
      }
    }
  }

  lemma {:induction false} NothingMore(frames: seq<Event>, seen: set<string>, hasMessage: bool)
    requires LeftOpen(frames)
    ensures OpenFaithful(frames, [], [], seen, hasMessage) <==> StretchFaithful(frames, [], seen, hasMessage)
    ensures FaithfulAfter(frames, [], seen, hasMessage)
  {
    var text := TailLeft(frames, [], seen, hasMessage);
    assert text + "" == text;
  }

  /** Compaction preserves what is drawn of a history if and only if the history is faithful. */
  lemma {:induction false} CompactionExact(events: seq<Event>)
    ensures Draw(Fold([], CompactHistory(events))) == Draw(Fold([], events)) <==> FaithfulHistory(events)
  {
    DrawnFromScratch(events);
    DrawnFromScratch(CompactHistory(events));
    GoesOnExact(false, events, [], [], {}, HasMessage(events));
    UpToTheEnd(events, {}, HasMessage(events));
    assert events + [] == events && CompactHistory(events) + ([] + []) == CompactHistory(events);
  }
}
