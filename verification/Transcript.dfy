/** Compaction as a translation: exactly which histories are drawn the same before and after it
    (src/chat/replay.ts against public/assets/chat-reducer.js).

    What is drawn of a block is what public/assets/chat-render.js shows of it.  The reasoning text, which
    nothing renders, and the flag of a reply still streaming are not part of it.
 */
module Transcript {
  import opened Options
  import opened Sequences
  import opened Frames
  import opened Reducer
  import opened Replay
  import opened ReplayLaws

  datatype Drawn =
    | DrawnUser(text: string, injected: bool, at: Option<int>)
    | DrawnAgent(body: string, tools: seq<Tool>, usage: Option<Usage>, reason: Option<string>,
                 error: Option<ErrorText>, awaiting: Option<Awaiting>)

  function DrawAgent(a: Agent): Drawn {
    DrawnAgent(if a.text != "" then a.text else a.streamed, a.tools, a.usage, a.reason, a.error, a.awaiting)
  }

  function DrawBlock(block: Block): Drawn {
    match block
    case UserBlock(text, injected, at) => DrawnUser(text, injected, at)
    case AgentBlock(a) => DrawAgent(a)
  }

  function Draw(list: seq<Block>): seq<Drawn> {
    seq(|list|, i requires 0 <= i < |list| => DrawBlock(list[i]))
  }

  lemma {:induction false} DrawConcat(a: seq<Block>, b: seq<Block>)
    ensures Draw(a + b) == Draw(a) + Draw(b)
  {
  }

  // ---- Stretches: what one agent block is made of --------------------------------------------

  predicate Closes(e: Event) { e.body.TurnEnd? || e.body.TurnDone? }

  /** How many frames the next agent block takes up: up to a user's words, or to the frame that closes it. */
  function StretchLength(events: seq<Event>): (n: nat)
    ensures n <= |events|
  {
    if events == [] || events[0].body.User? then 0
    else if Closes(events[0]) then 1
    else 1 + StretchLength(events[1..])
  }

  predicate Stretch(frames: seq<Event>) {
    frames == [] ||
    (!frames[0].body.User? && if Closes(frames[0]) then |frames| == 1 else Stretch(frames[1..]))
  }

  predicate OpensIn(frames: seq<Event>) {
    frames != [] && (Opens(frames[0].body) || OpensIn(frames[1..]))
  }

  /** A stretch that ends where `rest` begins. */
  predicate EndsAt(frames: seq<Event>, rest: seq<Event>) {
    rest == [] || rest[0].body.User? || (frames != [] && Closes(frames[|frames| - 1]))
  }

  function Run(a: Agent, frames: seq<Event>): Agent
    decreases |frames|
  {
    if frames == [] then a else Run(Step(a, frames[0].body), frames[1..])
  }

  lemma {:induction false} TakeStretch(events: seq<Event>)
    ensures var n := StretchLength(events);
            Stretch(events[..n]) && EndsAt(events[..n], events[n..])
    ensures events != [] && !events[0].body.User? ==> StretchLength(events) > 0
  {
    var n := StretchLength(events);
    if events != [] && !events[0].body.User? && !Closes(events[0]) {
      TakeStretch(events[1..]);
      assert events[..n] == [events[0]] + events[1..][..n - 1];
      assert events[..n][1..] == events[1..][..n - 1];
      assert events[n..] == events[1..][n - 1..];
    }
  }

  lemma {:induction false} StretchLengthOf(frames: seq<Event>, rest: seq<Event>)
    requires Stretch(frames) && EndsAt(frames, rest)
    ensures StretchLength(frames + rest) == |frames|
  {
    if frames == [] {
      assert frames + rest == rest;
    } else {
      assert (frames + rest)[1..] == frames[1..] + rest;
      if !Closes(frames[0]) {
        StretchLengthOf(frames[1..], rest);
      }
    }
  }

  lemma {:induction false} StepStaysOpen(a: Agent, body: Body)
    requires a.reason.None? && !body.TurnEnd? && !body.TurnDone?
    ensures Step(a, body).reason.None?
  {
  }

  lemma {:induction false} FoldIntoOpen(base: seq<Block>, a: Agent, frames: seq<Event>)
    requires a.reason.None? && Stretch(frames)
    ensures Fold(base + [AgentBlock(a)], frames) == base + [AgentBlock(Run(a, frames))]
    decreases |frames|
  {
    if frames != [] {
      var list, body := base + [AgentBlock(a)], frames[0].body;
      assert list[..|list| - 1] == base;
      assert Reduce(list, body) == base + [AgentBlock(Step(a, body))];
      if Closes(frames[0]) {
        assert frames[1..] == [];
      } else {
        StepStaysOpen(a, body);
        FoldIntoOpen(base, Step(a, body), frames[1..]);
      }
    }
  }

  lemma {:induction false} FoldStretch(base: seq<Block>, frames: seq<Event>)
    requires !IsOpen(base) && Stretch(frames)
    ensures Fold(base, frames) == base + if OpensIn(frames) then [AgentBlock(Run(NEW_AGENT, frames))] else []
    decreases |frames|
  {
    if frames != [] {
      var body := frames[0].body;
      if Opens(body) {
        if Closes(frames[0]) {
          assert frames[1..] == [];
        } else {
          StepStaysOpen(NEW_AGENT, body);
          FoldIntoOpen(base, Step(NEW_AGENT, body), frames[1..]);
        }
      } else {
        assert Step(NEW_AGENT, body) == NEW_AGENT;
        FoldStretch(base, frames[1..]);
      }
    }
  }

  // ---- The transcript, stretch by stretch ----------------------------------------------------

  function StretchDrawn(frames: seq<Event>): seq<Drawn> {
    if OpensIn(frames) then [DrawAgent(Run(NEW_AGENT, frames))] else []
  }

  /** What a history adds to a transcript with no open agent block. */
  function DrawnOf(afterUser: bool, events: seq<Event>): seq<Drawn>
    decreases |events|
  {
    if events == [] then []
    else if events[0].body.User? then
      [DrawnUser(events[0].body.text, Injected(events[0].body.text, afterUser), events[0].body.at)]
      + DrawnOf(true, events[1..])
    else
      TakeStretch(events);
      var n := StretchLength(events);
      StretchDrawn(events[..n]) + DrawnOf(afterUser && !OpensIn(events[..n]), events[n..])
  }

  lemma {:induction false} RunCloses(a: Agent, frames: seq<Event>)
    requires Stretch(frames) && frames != [] && Closes(frames[|frames| - 1])
    ensures Run(a, frames).reason.Some? && OpensIn(frames)
    decreases |frames|
  {
    if !Closes(frames[0]) {
      RunCloses(Step(a, frames[0].body), frames[1..]);
    } else {
      assert frames[1..] == [];
    }
  }

  /** The reducer draws what `DrawnOf` says. */
  lemma {:induction false} FoldDraws(base: seq<Block>, events: seq<Event>)
    requires !IsOpen(base)
    ensures Draw(Fold(base, events)) == Draw(base) + DrawnOf(AfterUser(base), events)
    decreases |events|
  {
    if events == [] || events[0].body.User? {
      FoldDrawsAtUser(base, events, AfterUser(base));
    } else {
      TakeStretch(events);
      var n := StretchLength(events);
      var frames, rest := events[..n], events[n..];
      assert events == frames + rest;
      DrawStretch(base, frames);
      if rest == [] || rest[0].body.User? {
        FoldDrawsAtUser(Fold(base, frames), rest, AfterUser(base) && !OpensIn(frames));
      } else {
        FoldDraws(Fold(base, frames), rest);
      }
      FoldDrawsStretch(base, frames, rest);
    }
  }

  /** What is drawn of a stretch and then of the rest, the drawings side by side. */
  lemma {:induction false} DrawsBoth(base: seq<Block>, frames: seq<Event>, rest: seq<Event>, drawnRest: seq<Drawn>)
    requires !IsOpen(base) && Stretch(frames)
    requires Draw(Fold(Fold(base, frames), rest)) == Draw(Fold(base, frames)) + drawnRest
    ensures Draw(Fold(base, frames + rest)) == Draw(base) + (StretchDrawn(frames) + drawnRest)
  {
    FoldConcat(base, frames, rest);
    DrawStretch(base, frames);
    Assoc(Draw(base), StretchDrawn(frames), drawnRest);
  }

  lemma {:induction false} FoldDrawsStretch(base: seq<Block>, frames: seq<Event>, rest: seq<Event>)
    requires !IsOpen(base) && Stretch(frames) && EndsAt(frames, rest)
    requires Draw(Fold(Fold(base, frames), rest))
             == Draw(Fold(base, frames)) + DrawnOf(AfterUser(base) && !OpensIn(frames), rest)
    ensures Draw(Fold(base, frames + rest)) == Draw(base) + DrawnOf(AfterUser(base), frames + rest)
  {
    DrawsBoth(base, frames, rest, DrawnOf(AfterUser(base) && !OpensIn(frames), rest));
    DrawnSplit(AfterUser(base), frames, rest);
  }

  lemma {:induction false} DrawStretch(base: seq<Block>, frames: seq<Event>)
    requires !IsOpen(base) && Stretch(frames)
    ensures Draw(Fold(base, frames)) == Draw(base) + StretchDrawn(frames)
    ensures AfterUser(Fold(base, frames)) <==> AfterUser(base) && !OpensIn(frames)
    ensures frames != [] && Closes(frames[|frames| - 1]) ==> !IsOpen(Fold(base, frames))
  {
    FoldStretch(base, frames);
    if frames != [] && Closes(frames[|frames| - 1]) {
      RunCloses(NEW_AGENT, frames);
    }
    DrawConcat(base, if OpensIn(frames) then [AgentBlock(Run(NEW_AGENT, frames))] else []);
  }

  /** A user's words are drawn after an open block as after a closed one. */
  lemma {:induction false} FoldDrawsAtUser(list: seq<Block>, events: seq<Event>, afterUser: bool)
    requires events == [] || events[0].body.User?
    requires afterUser == AfterUser(list)
    ensures Draw(Fold(list, events)) == Draw(list) + DrawnOf(afterUser, events)
    decreases |events|, 0
  {
    if events != [] {
      var body := events[0].body;
      FoldDraws(Reduce(list, body), events[1..]);
      DrawConcat(list, [UserBlock(body.text, Injected(body.text, afterUser), body.at)]);
    }
  }

  lemma {:induction false} DrawnSplit(afterUser: bool, frames: seq<Event>, rest: seq<Event>)
    requires Stretch(frames) && EndsAt(frames, rest)
    ensures DrawnOf(afterUser, frames + rest)
            == StretchDrawn(frames) + DrawnOf(afterUser && !OpensIn(frames), rest)
  {
    if frames == [] {
      assert frames + rest == rest;
    } else {
      StretchLengthOf(frames, rest);
      assert (frames + rest)[..|frames|] == frames && (frames + rest)[|frames|..] == rest;
    }
  }

  // ---- One agent block under compaction ------------------------------------------------------

  /** The text of the messages of a stretch, and what is still streamed at its end. */
  function MessageText(frames: seq<Event>): string {
    if frames == [] then ""
    else (if frames[0].body.Message? then frames[0].body.text else "") + MessageText(frames[1..])
  }

  function StreamedAfter(before: string, frames: seq<Event>): string
    decreases |frames|
  {
    if frames == [] then before
    else if frames[0].body.Message? then StreamedAfter("", frames[1..])
    else if OfKind(frames[0], TEXT) then StreamedAfter(before + ChunkText(frames[0]), frames[1..])
    else StreamedAfter(before, frames[1..])
  }

  lemma {:induction false} RunTexts(a: Agent, frames: seq<Event>)
    ensures Run(a, frames).text == a.text + MessageText(frames)
    ensures Run(a, frames).streamed == StreamedAfter(a.streamed, frames)
    decreases |frames|
  {
    if frames != [] {
      var next := Step(a, frames[0].body);
      RunTexts(next, frames[1..]);
      if frames[0].body.Message? {
        assert a.text + frames[0].body.text + MessageText(frames[1..]) == a.text + MessageText(frames);
      } else {
        assert next.text == a.text;
      }
    }
  }

  /** An agent block without what chunks write. */
  function Settled(a: Agent): Agent {
    a.(streamed := "", streaming := false, reasoning := "")
  }

  lemma {:induction false} StepSettled(a: Agent, b: Agent, body: Body)
    requires Settled(a) == Settled(b)
    ensures Settled(Step(a, body)) == Settled(Step(b, body))
    ensures body.Streamed? ==> Settled(Step(a, body)) == Settled(a)
  {
  }

  /** Chunks leave no other mark on a block than its streamed text and its reasoning. */
  lemma {:induction false} RunSettled(a: Agent, b: Agent, frames: seq<Event>)
    requires Settled(a) == Settled(b)
    ensures Settled(Run(a, frames)) == Settled(Run(b, NonChunks(frames)))
    decreases |frames|
  {
    if frames != [] {
      StepSettled(a, b, frames[0].body);
      if IsChunk(frames[0]) {
        RunSettled(Step(a, frames[0].body), b, frames[1..]);
        assert NonChunks(frames) == NonChunks(frames[1..]);
      } else {
        RunSettled(Step(a, frames[0].body), Step(b, frames[0].body), frames[1..]);
        assert ([frames[0]] + NonChunks(frames[1..]))[1..] == NonChunks(frames[1..]);
      }
    }
  }

  /** Two runs of frames that differ in chunks only draw the same block iff its body is the same. */
  lemma {:induction false} SameBlock(a: seq<Event>, b: seq<Event>)
    requires NonChunks(a) == NonChunks(b)
    ensures MessageText(a) == MessageText(b)
    ensures DrawAgent(Run(NEW_AGENT, a)) == DrawAgent(Run(NEW_AGENT, b))
            <==> MessageText(a) != "" || StreamedAfter("", a) == StreamedAfter("", b)
  {
    RunSettled(NEW_AGENT, NEW_AGENT, a);
    RunSettled(NEW_AGENT, NEW_AGENT, b);
    RunTexts(NEW_AGENT, a);
    RunTexts(NEW_AGENT, b);
    var x, y := Run(NEW_AGENT, a), Run(NEW_AGENT, b);
    assert Settled(x) == Settled(y);
    assert x.text == Settled(x).text && y.text == Settled(y).text;
    assert x.tools == Settled(x).tools && y.tools == Settled(y).tools;
    assert "" + MessageText(a) == MessageText(a) && "" + MessageText(b) == MessageText(b);
  }

  /** What compaction leaves of a stretch, `rest` being what follows it. */
  function CompactStretch(frames: seq<Event>, rest: seq<Event>, seen: set<string>, hasMessage: bool): seq<Event>
    decreases |frames|
  {
    if frames == [] then []
    else
      var e, after := frames[0], frames[1..];
      if !IsChunk(e) then [e] + CompactStretch(after, rest, seen, hasMessage)
      else if Dropped(ChunkKind(e), seen, hasMessage) then CompactStretch(after, rest, seen, hasMessage)
      else
        [Merged(e, ChunkText(e) + TextOf(after + rest, ChunkKind(e)))]
        + CompactStretch(after, rest, seen + {ChunkKind(e)}, hasMessage)
  }

  function SeenAfter(frames: seq<Event>, seen: set<string>, hasMessage: bool): set<string>
    decreases |frames|
  {
    if frames == [] then seen
    else if IsChunk(frames[0]) && !Dropped(ChunkKind(frames[0]), seen, hasMessage)
    then SeenAfter(frames[1..], seen + {ChunkKind(frames[0])}, hasMessage)
    else SeenAfter(frames[1..], seen, hasMessage)
  }

  /** The compaction of what follows a stretch. */
  function CompactAfter(frames: seq<Event>, rest: seq<Event>, seen: set<string>, hasMessage: bool): seq<Event> {
    if frames != [] && EndsTurn(frames[|frames| - 1]) then CompactHistory(rest)
    else CompactRest(rest, SeenAfter(frames, seen, hasMessage), hasMessage)
  }

  lemma {:induction false} CompactSplit(frames: seq<Event>, rest: seq<Event>, seen: set<string>, hasMessage: bool)
    requires Stretch(frames)
    ensures CompactRest(frames + rest, seen, hasMessage)
            == CompactStretch(frames, rest, seen, hasMessage) + CompactAfter(frames, rest, seen, hasMessage)
    decreases |frames|
  {
    if frames == [] {
      assert frames + rest == rest;
    } else {
      var e, after := frames[0], frames[1..];
      assert frames == [e] + after;
      if Closes(e) {
        assert frames == [e];
        CompactSplitClosing(e, rest, seen, hasMessage);
      } else {
        CompactSplit(after, rest, NextSeen(e, seen, hasMessage), hasMessage);
        CompactSplitCons(e, after, rest, seen, hasMessage);
        Assoc([e], after, rest);
      }
    }
  }

  /** What compaction makes of one event, and the kinds it has seen then. */
  function Emitted(e: Event, following: seq<Event>, seen: set<string>, hasMessage: bool): seq<Event> {
    if !IsChunk(e) then [e]
    else if Dropped(ChunkKind(e), seen, hasMessage) then []
    else [Merged(e, ChunkText(e) + TextOf(following, ChunkKind(e)))]
  }

  function NextSeen(e: Event, seen: set<string>, hasMessage: bool): set<string> {
    if IsChunk(e) && !Dropped(ChunkKind(e), seen, hasMessage) then seen + {ChunkKind(e)} else seen
  }

  lemma {:induction false} UnfoldRest(e: Event, rest: seq<Event>, seen: set<string>, hasMessage: bool)
    ensures CompactRest([e] + rest, seen, hasMessage)
            == Emitted(e, rest, seen, hasMessage)
               + if EndsTurn(e) then CompactHistory(rest) else CompactRest(rest, NextSeen(e, seen, hasMessage), hasMessage)
  {
  }

  lemma {:induction false} UnfoldStretch(e: Event, after: seq<Event>, rest: seq<Event>, seen: set<string>, hasMessage: bool)
    ensures CompactStretch([e] + after, rest, seen, hasMessage)
            == Emitted(e, after + rest, seen, hasMessage)
               + CompactStretch(after, rest, NextSeen(e, seen, hasMessage), hasMessage)
  {
  }

  lemma {:induction false} CompactAfterCons(e: Event, after: seq<Event>, rest: seq<Event>, seen: set<string>, hasMessage: bool)
    requires !Closes(e)
    ensures CompactAfter([e] + after, rest, seen, hasMessage)
            == CompactAfter(after, rest, NextSeen(e, seen, hasMessage), hasMessage)
  {
  }

  lemma {:induction false} CompactSplitCons(e: Event, after: seq<Event>, rest: seq<Event>, seen: set<string>, hasMessage: bool)
    requires !Closes(e)
    requires var next := NextSeen(e, seen, hasMessage);
             CompactRest(after + rest, next, hasMessage)
             == CompactStretch(after, rest, next, hasMessage) + CompactAfter(after, rest, next, hasMessage)
    ensures CompactRest([e] + (after + rest), seen, hasMessage)
            == CompactStretch([e] + after, rest, seen, hasMessage) + CompactAfter([e] + after, rest, seen, hasMessage)
  {
    var next := NextSeen(e, seen, hasMessage);
    UnfoldRest(e, after + rest, seen, hasMessage);
    UnfoldStretch(e, after, rest, seen, hasMessage);
    CompactAfterCons(e, after, rest, seen, hasMessage);
    Assoc(Emitted(e, after + rest, seen, hasMessage), CompactStretch(after, rest, next, hasMessage),
            CompactAfter(after, rest, next, hasMessage));
  }

  lemma {:induction false} CompactSplitClosing(e: Event, rest: seq<Event>, seen: set<string>, hasMessage: bool)
    requires Closes(e)
    ensures CompactRest([e] + rest, seen, hasMessage)
            == CompactStretch([e], rest, seen, hasMessage) + CompactAfter([e], rest, seen, hasMessage)
  {
    UnfoldRest(e, rest, seen, hasMessage);
    assert [e][1..] == [];
    assert SeenAfter([e], seen, hasMessage) == seen;
    assert CompactStretch([e], rest, seen, hasMessage) == [e];
  }

  /** Compaction of a stretch changes chunks only and keeps its end. */
  predicate SameShape(frames: seq<Event>, out: seq<Event>) {
    && Stretch(out)
    && NonChunks(out) == NonChunks(frames)
    && (frames != [] && Closes(frames[|frames| - 1]) ==> out != [] && Closes(out[|out| - 1]))
  }

  lemma {:induction false} StretchCons(e: Event, tail: seq<Event>)
    requires !Closes(e) && !e.body.User? && Stretch(tail)
    ensures Stretch([e] + tail)
    ensures NonChunks([e] + tail) == (if IsChunk(e) then [] else [e]) + NonChunks(tail)
  {
    assert ([e] + tail)[1..] == tail;
  }

  lemma {:induction false} LastOfCons(e: Event, tail: seq<Event>)
    requires !Closes(e)
    ensures var whole := [e] + tail;
            Closes(whole[|whole| - 1]) <==> tail != [] && Closes(tail[|tail| - 1])
  {
  }

  /** A frame in front, with what compaction leaves of it. */
  lemma {:induction false} ShapeCons(e: Event, left: seq<Event>, after: seq<Event>, tail: seq<Event>)
    requires !Closes(e) && !e.body.User? && Stretch(after) && SameShape(after, tail)
    requires left == [e] || (IsChunk(e) && (left == [] || (|left| == 1 && IsChunk(left[0]))))
    ensures SameShape([e] + after, left + tail)
  {
    StretchCons(e, after);
    LastOfCons(e, after);
    if left == [] {
      assert left + tail == tail;
      assert NonChunks([e] + after) == [] + NonChunks(after) == NonChunks(after);
    } else {
      assert left == [left[0]];
      StretchCons(left[0], tail);
      LastOfCons(left[0], tail);
    }
  }

  lemma {:induction false} CompactStretchShape(
      frames: seq<Event>, rest: seq<Event>, seen: set<string>, hasMessage: bool)
    requires Stretch(frames)
    ensures SameShape(frames, CompactStretch(frames, rest, seen, hasMessage))
    decreases |frames|
  {
    if frames != [] {
      var e, after := frames[0], frames[1..];
      assert frames == [e] + after;
      UnfoldStretch(e, after, rest, seen, hasMessage);
      var next := NextSeen(e, seen, hasMessage);
      if Closes(e) {
        assert after == [] && CompactStretch(after, rest, next, hasMessage) == [];
      } else {
        CompactStretchShape(after, rest, next, hasMessage);
        ShapeCons(e, Emitted(e, after + rest, seen, hasMessage), after, CompactStretch(after, rest, next, hasMessage));
      }
    }
  }
}
