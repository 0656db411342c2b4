/** The logs the hosts write are drawn the same after compaction, and two logs that are not
    (src/chat/replay.ts:54-94).
 */
module CleanLogs {
  import opened Options
  import opened Frames
  import opened Reducer
  import opened Replay
  import opened Transcript
  import opened Faithful

  /** A frame the reducer and the compaction both pass over. */
  predicate Neutral(e: Event) { !Opens(e.body) && !IsChunk(e) && !e.body.User? }

  predicate NoUser(frames: seq<Event>) {
    frames == [] || (!frames[0].body.User? && NoUser(frames[1..]))
  }

  /** The user's words, injected context included, come before everything the agent does. */
  predicate UsersFirst(turn: seq<Event>) {
    turn == [] || if Neutral(turn[0]) || turn[0].body.User? then UsersFirst(turn[1..]) else NoUser(turn)
  }

  predicate NoTurnDone(turn: seq<Event>) {
    turn == [] || (!turn[0].body.TurnDone? && NoTurnDone(turn[1..]))
  }

  /** A finished turn as the session log holds it; if it has messages, they have text. */
  ghost predicate CleanTurn(turn: seq<Event>) {
    Complete(turn) && NoTurnDone(turn) && UsersFirst(turn) && (HasMessage(turn) ==> MessageText(turn) != "")
  }

  lemma {:induction false} CompleteTail(turn: seq<Event>)
    requires Complete(turn) && |turn| > 1
    ensures Complete(turn[1..]) && !EndsTurn(turn[0])
  {
  }

  /** The agent's part of a turn is one stretch, and it opens a block. */
  lemma {:induction false} AgentPart(turn: seq<Event>, hasMessage: bool)
    requires Complete(turn) && NoTurnDone(turn) && NoUser(turn)
    ensures Stretch(turn) && OpensIn(turn) && StaysOpening(turn, {}, hasMessage)
  {
    if |turn| > 1 {
      CompleteTail(turn);
      AgentPart(turn[1..], hasMessage);
    }
  }

  lemma {:induction false} PlainStream(before: string, frames: seq<Event>)
    requires Stretch(frames) && !MessageIn(frames)
    ensures StreamedAfter(before, frames) == before + TextOf(frames, TEXT)
    ensures !Mentions(frames, TEXT) ==> TextOf(frames, TEXT) == ""
    decreases |frames|
  {
    if frames != [] {
      var e := frames[0];
      assert frames == [e] + frames[1..];
      StreamedCons(before, e, frames[1..]);
      if Closes(e) {
        assert frames[1..] == [] && before + "" == before;
      } else {
        PlainStream(if OfKind(e, TEXT) then before + ChunkText(e) else before, frames[1..]);
        TextCons(e, frames[1..], TEXT);
      }
    }
  }

  lemma {:induction false} AgentPartFaithful(turn: seq<Event>, rest: seq<Event>, hasMessage: bool)
    requires Complete(turn) && NoTurnDone(turn) && NoUser(turn)
    requires hasMessage ==> MessageText(turn) != ""
    requires !hasMessage ==> !MessageIn(turn)
    requires FaithfulHistory(rest)
    ensures FaithfulRest(turn + rest, {}, hasMessage)
  {
    AgentPart(turn, hasMessage);
    StretchLengthOf(turn, rest);
    assert (turn + rest)[..|turn|] == turn && (turn + rest)[|turn|..] == rest;
    AgentPartStretch(turn, rest, hasMessage);
    FaithfulStep(turn + rest, {}, hasMessage);
  }

  lemma {:induction false} AgentPartStretch(turn: seq<Event>, rest: seq<Event>, hasMessage: bool)
    requires Complete(turn) && NoTurnDone(turn) && NoUser(turn)
    requires hasMessage ==> MessageText(turn) != ""
    requires !hasMessage ==> !MessageIn(turn)
    ensures StretchFaithful(turn, rest, {}, hasMessage)
  {
    AgentPart(turn, hasMessage);
    if !hasMessage {
      PlainStream("", turn);
      LookAheadStopsAt(turn, rest, TEXT);
      assert "" + TextOf(turn, TEXT) == TextOf(turn, TEXT);
    }
  }

  /** Passing a neutral frame before a user's words changes nothing. */
  lemma {:induction false} LeadIn(turn: seq<Event>, rest: seq<Event>)
    requires UsersFirst(turn) && !NoUser(turn) && !turn[0].body.User?
    ensures var n := StretchLength(turn + rest);
            && 0 < n < |turn|
            && turn[n].body.User? && UsersFirst(turn[n..])
            && !OpensIn(turn[..n]) && !Closes(turn[n - 1])
            && (forall hasMessage :: !StaysOpening(turn[..n], {}, hasMessage))
            && (forall hasMessage :: SeenAfter(turn[..n], {}, hasMessage) == {})
            && MessageText(turn) == MessageText(turn[n..])
            && (MessageIn(turn[n..]) ==> MessageIn(turn))
            && (NoTurnDone(turn) ==> NoTurnDone(turn[n..]))
  {
    assert (turn + rest)[0] == turn[0] && (turn + rest)[1..] == turn[1..] + rest;
    assert Neutral(turn[0]) && !Closes(turn[0]);
    var n := StretchLength(turn + rest);
    if turn[1].body.User? {
      assert (turn[1..] + rest)[0] == turn[1] && StretchLength(turn[1..] + rest) == 0;
      assert n == 1 + StretchLength(turn[1..] + rest);
      assert turn[..1] == [turn[0]];
    } else {
      LeadIn(turn[1..], rest);
      assert turn[..n] == [turn[0]] + turn[1..][..n - 1];
      assert turn[..n][1..] == turn[1..][..n - 1];
      assert turn[n..] == turn[1..][n - 1..];
    }
  }

  lemma {:induction false} CompleteFrom(turn: seq<Event>, n: nat)
    requires Complete(turn) && n < |turn|
    ensures Complete(turn[n..])
  {
  }

  lemma {:induction false} UserFaithful(e: Event, rest: seq<Event>, hasMessage: bool)
    requires e.body.User? && FaithfulRest(rest, {}, hasMessage)
    ensures FaithfulRest([e] + rest, {}, hasMessage)
  {
  }

  lemma {:induction false} LeadInFaithful(turn: seq<Event>, rest: seq<Event>, hasMessage: bool)
    requires UsersFirst(turn) && !NoUser(turn) && !turn[0].body.User?
    requires var n := StretchLength(turn + rest); n <= |turn| && FaithfulRest(turn[n..] + rest, {}, hasMessage)
    ensures FaithfulRest(turn + rest, {}, hasMessage)
  {
    LeadIn(turn, rest);
    var n := StretchLength(turn + rest);
    assert (turn + rest)[..n] == turn[..n] && (turn + rest)[n..] == turn[n..] + rest;
    assert turn[..n][n - 1] == turn[n - 1];
    FaithfulStep(turn + rest, {}, hasMessage);
  }

  /** The rest of a clean turn from somewhere in its users' words on. */
  ghost predicate CleanPart(part: seq<Event>, hasMessage: bool) {
    && Complete(part) && NoTurnDone(part) && UsersFirst(part)
    && if hasMessage then MessageText(part) != "" else !MessageIn(part)
  }

  lemma {:induction false} PastUser(part: seq<Event>, hasMessage: bool)
    requires CleanPart(part, hasMessage) && part[0].body.User?
    ensures CleanPart(part[1..], hasMessage)
  {
    assert !EndsTurn(part[0]) && |part| > 1;
    CompleteTail(part);
  }

  lemma {:induction false} PastLeadIn(part: seq<Event>, rest: seq<Event>, hasMessage: bool)
    requires CleanPart(part, hasMessage) && !NoUser(part) && !part[0].body.User?
    ensures var n := StretchLength(part + rest); 0 < n < |part| && CleanPart(part[n..], hasMessage)
  {
    LeadIn(part, rest);
    CompleteFrom(part, StretchLength(part + rest));
  }

  lemma {:induction false} UserTakes(part: seq<Event>, rest: seq<Event>, hasMessage: bool)
    requires part != [] && part[0].body.User? && FaithfulRest(part[1..] + rest, {}, hasMessage)
    ensures FaithfulRest(part + rest, {}, hasMessage)
  {
    UserFaithful(part[0], part[1..] + rest, hasMessage);
    assert part + rest == [part[0]] + (part[1..] + rest);
  }

  lemma {:induction false} CleanPartFaithful(part: seq<Event>, rest: seq<Event>, hasMessage: bool)
    requires CleanPart(part, hasMessage) && FaithfulHistory(rest)
    ensures FaithfulRest(part + rest, {}, hasMessage)
    decreases |part|
  {
    if NoUser(part) {
      AgentPartFaithful(part, rest, hasMessage);
    } else if part[0].body.User? {
      CleanUserFaithful(part, rest, hasMessage);
    } else {
      CleanLeadInFaithful(part, rest, hasMessage);
    }
  }

  lemma {:induction false} CleanUserFaithful(part: seq<Event>, rest: seq<Event>, hasMessage: bool)
    requires CleanPart(part, hasMessage) && FaithfulHistory(rest) && part[0].body.User?
    ensures FaithfulRest(part + rest, {}, hasMessage)
    decreases |part|, 0
  {
    PastUser(part, hasMessage);
    CleanPartFaithful(part[1..], rest, hasMessage);
    UserTakes(part, rest, hasMessage);
  }

  lemma {:induction false} CleanLeadInFaithful(part: seq<Event>, rest: seq<Event>, hasMessage: bool)
    requires CleanPart(part, hasMessage) && FaithfulHistory(rest) && !NoUser(part) && !part[0].body.User?
    ensures FaithfulRest(part + rest, {}, hasMessage)
    decreases |part|, 0
  {
    PastLeadIn(part, rest, hasMessage);
    CleanPartFaithful(part[StretchLength(part + rest)..], rest, hasMessage);
    LeadInFaithful(part, rest, hasMessage);
  }

  lemma {:induction false} MessageSeen(turn: seq<Event>)
    requires turn != [] && NoTurnEnd(turn[..|turn| - 1])
    ensures MessageIn(turn) <==> HasMessage(turn)
  {
    if |turn| > 1 {
      assert turn[0] in turn[..|turn| - 1];
      assert turn[1..][..|turn| - 2] == turn[..|turn| - 1][1..];
      MessageSeen(turn[1..]);
    }
  }

  lemma {:induction false} CleanIsFaithful(events: seq<Event>)
    requires forall turn | turn in Segments(events) :: CleanTurn(turn)
    ensures FaithfulHistory(events)
    decreases |events|
  {
    if events != [] {
      var n := SegmentLength(events);
      var turn, rest := events[..n], events[n..];
      assert events == turn + rest;
      assert Segments(events) == [turn] + Segments(rest);
      assert turn in Segments(events);
      assert forall t | t in Segments(rest) :: t in Segments(events);
      CleanIsFaithful(rest);
      MessageSeen(turn);
      LookAheadStopsAt(turn, rest, "");
      CleanPartFaithful(turn, rest, HasMessage(turn));
    }
  }

  /** Compacting a log of clean turns does not change what is drawn of it. */
  lemma {:induction false} CleanLogPreserved(events: seq<Event>)
    requires forall turn | turn in Segments(events) :: CleanTurn(turn)
    ensures Draw(Fold([], CompactHistory(events))) == Draw(Fold([], events))
  {
    CleanIsFaithful(events);
    CompactionExact(events);
  }

  // ---- Logs that change ----------------------------------------------------------------------

  function Text(text: string): Event { Event(0, Streamed(Some(Chunk(TEXT, text)))) }

  const ENDED := Event(0, TurnEnd("completed", None))

  const MID_TURN := [Text("a")] + ([Event(0, User("and?", None))] + ([Text("b")] + [ENDED]))

  lemma {:induction false} MidTurnText()
    ensures TextOf(MID_TURN, TEXT) == "ab"
  {
    var user := Event(0, User("and?", None));
    assert TextOf([ENDED], TEXT) == "";
    TextCons(Text("b"), [ENDED], TEXT);
    assert TextOf([Text("b")] + [ENDED], TEXT) == "b" + "" == "b";
    TextCons(user, [Text("b")] + [ENDED], TEXT);
    assert TextOf([user] + ([Text("b")] + [ENDED]), TEXT) == "" + "b" == "b";
    TextCons(Text("a"), [user] + ([Text("b")] + [ENDED]), TEXT);
    assert "a" + "b" == "ab";
  }

  lemma {:induction false} NoMessageCons(e: Event, rest: seq<Event>)
    requires !e.body.Message? && !HasMessage(rest)
    ensures !HasMessage([e] + rest)
  {
    assert ([e] + rest)[1..] == rest;
  }

  lemma {:induction false} MidTurnNoMessage()
    ensures !HasMessage(MID_TURN)
  {
    NoMessageCons(Text("b"), [ENDED]);
    NoMessageCons(Event(0, User("and?", None)), [Text("b")] + [ENDED]);
    NoMessageCons(Text("a"), [Event(0, User("and?", None))] + ([Text("b")] + [ENDED]));
  }

  lemma {:induction false} FirstStretch(e: Event, user: Event, rest: seq<Event>)
    requires !e.body.User? && !Closes(e) && user.body.User?
    ensures var log := [e] + ([user] + rest);
            StretchLength(log) == 1 && log[..1] == [e] && log[1..] == [user] + rest
  {
    assert ([e] + ([user] + rest))[1..] == [user] + rest;
  }

  /** A user's words in the middle of a turn: the first block takes the second one's text. */
  lemma {:induction false} MidTurnUserChanges()
    ensures Draw(Fold([], CompactHistory(MID_TURN))) != Draw(Fold([], MID_TURN))
  {
    var frames := [Text("a")];
    FirstStretch(Text("a"), Event(0, User("and?", None)), [Text("b")] + [ENDED]);
    MidTurnText();
    MidTurnNoMessage();
    StreamedCons("", Text("a"), []);
    assert frames == [Text("a")] + [] && "" + "a" == "a";
    assert StreamedAfter("", frames) == "a" && MessageText(frames) == "" && Mentions(frames, TEXT) && OpensIn(frames);
    assert !StretchFaithful(frames, MID_TURN[1..], {}, false) by {
      assert frames + MID_TURN[1..] == MID_TURN;
    }
    FaithfulStep(MID_TURN, {}, false);
    CompactionExact(MID_TURN);
  }

  /** A turn whose only message is empty: compaction drops the reply that was streamed. */
  lemma {:induction false} EmptyMessageLosesReply()
    ensures var log := [Event(0, Message("", "", None)), Text("a"), ENDED];
            Draw(Fold([], CompactHistory(log))) != Draw(Fold([], log))
  {
    var empty := Event(0, Message("", "", None));
    var log := [empty, Text("a"), ENDED];
    assert log == [empty] + [Text("a"), ENDED] && [Text("a"), ENDED] == [Text("a")] + [ENDED] && [ENDED] == [ENDED] + [];
    assert StretchLength(log) == 3 by {
      assert StretchLength([ENDED]) == 1;
      assert [Text("a"), ENDED][1..] == [ENDED] && StretchLength([Text("a"), ENDED]) == 2;
      assert log[1..] == [Text("a"), ENDED];
    }
    assert log[..3] == log && log[3..] == [];
    assert StreamedAfter("", log) == "a" by {
      StreamedCons("a", ENDED, []);
      StreamedCons("", Text("a"), [ENDED]);
      StreamedCons("", empty, [Text("a"), ENDED]);
    }
    assert HasMessage(log);
    assert OpensIn(log);
    assert MessageText(log) == "" by {
      assert [ENDED][1..] == [] && MessageText([ENDED]) == "";
      assert [Text("a"), ENDED][1..] == [ENDED] && MessageText([Text("a"), ENDED]) == "";
      assert log[1..] == [Text("a"), ENDED];
    }
    FaithfulStep(log, {}, true);
    CompactionExact(log);
  }
}
