/** A page that loads a compacted history, as the server sends it, and listens to the stream: exactly when it
    draws what the log says (public/assets/chat-wire.js:167-239, 263-325; src/chat/replay.ts:67-98).
 */
module CompactedLoads {
  import opened Options
  import opened Sequences
  import opened Frames
  import opened Reducer
  import opened Replay
  import opened ReplayLaws
  import opened Transcript
  import opened Faithful
  import opened CleanLogs
  import opened Wire
  import opened WireLaws
  import opened WireEdges

  // ---- What is taken a second time -----------------------------------------------------------

  /** The chunks of a compacted history that the page takes again, because they are behind its reach: those in
      the live list, and those set aside. */
  function Again(log: seq<Event>, m: Moment, reach: nat): seq<Event>
    requires m.h <= |log| && m.a <= m.h && reach <= m.h
  {
    var first, second := Max(m.a, reach), Max(m.b, Max(m.c, reach));
    log[first..Max(first, Min(m.b, m.h))] + log[Min(m.h, second)..m.h]
  }

  lemma {:induction false} LogEventsConcat(a: seq<Frame>, b: seq<Frame>)
    ensures LogEvents(a + b) == LogEvents(a) + LogEvents(b)
  {
    if a == [] {
      assert a + b == b;
    } else {
      assert (a + b)[0] == a[0] && (a + b)[1..] == a[1..] + b;
      LogEventsConcat(a[1..], b);
    }
  }

  lemma {:induction false} ChunksCarried(events: seq<Event>)
    requires forall k | 0 <= k < |events| :: IsChunk(events[k])
    ensures Chunks(events) && Carried(events) == events
  {
    if events != [] {
      ChunksCarried(events[1..]);
    }
  }

  lemma {:induction false} ChunkRun(log: seq<Event>, i: nat, j: nat)
    requires i <= j <= |log| && forall k | i <= k < j :: IsChunk(log[k])
    ensures LogEvents(RunOf(log, i, j)) == log[i..j] && Chunks(log[i..j])
  {
    RunEvents(log, i, j);
    ChunksCarried(log[i..j]);
  }

  lemma {:induction false} ChunksConcat(a: seq<Event>, b: seq<Event>)
    requires Chunks(a) && Chunks(b)
    ensures Chunks(a + b)
  {
    if a == [] {
      assert a + b == b;
    } else {
      assert (a + b)[0] == a[0] && (a + b)[1..] == a[1..] + b;
      ChunksConcat(a[1..], b);
    }
  }

  lemma {:induction false} ChunksAreSilent(chunks: seq<Event>)
    requires Chunks(chunks)
    ensures Spoken(chunks) == []
  {
    if chunks != [] {
      ChunksAreSilent(chunks[1..]);
    }
  }

  lemma {:induction false} ChunksThenRun(log: seq<Event>, i: nat, h: nat, d: nat)
    requires i <= h <= d <= |log| && forall k | i <= k < h :: IsChunk(log[k])
    ensures LogEvents(RunOf(log, i, d)) == log[i..h] + Carried(log[h..d]) && Chunks(log[i..h])
  {
    RunsJoin(log, i, h, d);
    LogEventsConcat(RunOf(log, i, h), RunOf(log, h, d));
    ChunkRun(log, i, h);
    RunEvents(log, h, d);
  }

  /** The frames taken: those chunks, and then what is carried behind the history. */
  lemma {:induction false} AgainRuns(log: seq<Event>, m: Moment, reach: nat)
    requires In(log, m) && Covers(m) && InStep(m) && reach <= m.h && m.a <= Max(m.c, reach)
    requires forall k | reach <= k < m.h :: IsChunk(log[k])
    ensures LogEvents(Unique(RunOf(log, Max(m.a, reach), m.b) + RunOf(log, Max(m.c, reach), m.d), {}))
            == Again(log, m, reach) + Carried(log[m.h..m.d])
    ensures Chunks(Again(log, m, reach)) && Spoken(Again(log, m, reach)) == []
  {
    var first, second := Max(m.a, reach), Max(m.b, Max(m.c, reach));
    TwoRuns(log, first, m.b, Max(m.c, reach), m.d);
    LogEventsConcat(RunOf(log, first, m.b), RunOf(log, second, m.d));
    if m.b <= m.h {
      if first <= m.b {
        ChunkRun(log, first, m.b);
      }
      ChunksThenRun(log, second, m.h, m.d);
      Assoc(log[first..Max(first, m.b)], log[second..m.h], Carried(log[m.h..m.d]));
    } else {
      RunsJoin(log, first, m.b, m.d);
      LogEventsConcat(RunOf(log, first, m.b), RunOf(log, m.b, m.d));
      ChunksThenRun(log, first, m.h, m.d);
      assert log[first..m.h] + log[m.h..m.h] == log[first..m.h];
    }
    ChunksConcat(log[first..Max(first, Min(m.b, m.h))], log[Min(m.h, second)..m.h]);
    ChunksAreSilent(Again(log, m, reach));
  }

  /** What the page shows: on top of the compacted history and the echo, the chunks taken again and then what is
      carried behind it.  The live list begins no later than the frames set aside, or the reach. */
  lemma {:induction false} CompactedSession(p: Page, x: Delivery, log: seq<Event>, m: Moment)
    returns (again: seq<Event>)
    requires In(log, m) && Delivers(x, log, m) && Covers(m) && InStep(m) && m.a <= Max(m.c, Reach(log[..m.h]))
    requires x.response.events == CompactHistory(log[..m.h])
    requires AllHeld(Fold([], x.response.events), p.pending)
    ensures again == Again(log, m, Reach(log[..m.h])) && Chunks(again) && Spoken(again) == []
    ensures Session(p, x).blocks
            == Fold(Greeted(Fold([], x.response.events), x.echo), again + Carried(log[m.h..m.e]))
  {
    var reach := Reach(log[..m.h]);
    again := Again(log, m, reach);
    SessionDraws(p, x, log, m);
    NoBubbles(Fold([], x.response.events), p.pending);
    ReachExact(log, m.h);
    EchoNotLogged(x.echo, x.live);
    LogsPending(x.response, x.buffered, Start(p, x));
    TakenRuns(log, x.response.(live := RunOf(log, m.a, m.b)), reach, m.a, m.b, m.c, m.d, Start(p, x));
    forall k | reach <= k < m.h ensures IsChunk(log[k]) {
      assert IsChunk(log[..m.h][k]);
    }
    AgainRuns(log, m, reach);
    Slices(log, m.h, m.d, m.e);
    CarriedConcat(log[m.h..m.d], log[m.d..m.e]);
    Assoc(again, Carried(log[m.h..m.d]), Carried(log[m.d..m.e]));
  }

  // ---- What is drawn of it -------------------------------------------------------------------

  /** Lists drawn alike show the same words. */
  lemma {:induction false} DrawnWords(a: seq<Block>, b: seq<Block>)
    requires Draw(a) == Draw(b)
    ensures Words(a) == Words(b)
  {
    assert |Draw(a)| == |a| == |b|;
    if a != [] {
      var n := |a| - 1;
      assert Draw(a)[..n] == Draw(a[..n]) && Draw(b)[..n] == Draw(b[..n]);
      assert Draw(a)[n] == DrawBlock(a[n]) && Draw(b)[n] == DrawBlock(b[n]);
      DrawnWords(a[..n], b[..n]);
    }
  }

  lemma {:induction false} ChunksSayNothing(events: seq<Event>)
    ensures Spoken(NonChunks(events)) == Spoken(events)
  {
    if events != [] {
      ChunksSayNothing(events[1..]);
      if !IsChunk(events[0]) {
        assert ([events[0]] + NonChunks(events[1..]))[1..] == NonChunks(events[1..]);
      } else {
        assert NonChunks(events) == NonChunks(events[1..]);
      }
    }
  }

  lemma {:induction false} CompactedWords(events: seq<Event>)
    ensures Words(Fold([], CompactHistory(events))) == Spoken(events)
  {
    FoldSpeaks([], CompactHistory(events));
    KeepsNonChunks(events);
    ChunksSayNothing(events);
    ChunksSayNothing(CompactHistory(events));
    assert [] + Spoken(events) == Spoken(events);
  }

  lemma {:induction false} DrawnFrom(events: seq<Event>, again: seq<Event>, more: seq<Event>)
    requires Chunks(again)
    ensures Draw(Fold(Fold([], CompactHistory(events)), again + more)) == Draw(Fold([], events + more))
            <==> FaithfulUpTo(events, again, more, {}, HasMessage(events))
  {
    FoldConcat([], CompactHistory(events), again + more);
    DrawnFromScratch(CompactHistory(events) + (again + more));
    DrawnFromScratch(events + more);
    GoesOnExact(false, events, again, more, {}, HasMessage(events));
  }

  lemma {:induction false} SpokenConcat(a: seq<Event>, b: seq<Event>)
    ensures Spoken(a + b) == Spoken(a) + Spoken(b)
  {
    if a == [] {
      assert a + b == b;
    } else {
      assert (a + b)[0] == a[0] && (a + b)[1..] == a[1..] + b;
      SpokenConcat(a[1..], b);
    }
  }

  lemma {:induction false} WordsOf(events: seq<Event>, more: seq<Event>)
    ensures Words(Fold([], events + more)) == Spoken(events) + Spoken(more)
  {
    FoldSpeaks([], events + more);
    SpokenConcat(events, more);
    assert [] + (Spoken(events) + Spoken(more)) == Spoken(events) + Spoken(more);
  }

  /** A page that loads a compacted history, at any moment of a session, draws what the log says if and only if
      nobody speaks behind the history and it is faithful up to there, with the chunks taken again. */
  lemma {:induction false} CompactedLoadDrawsLog(p: Page, x: Delivery, log: seq<Event>, m: Moment)
    requires In(log, m) && Delivers(x, log, m) && Covers(m) && InStep(m) && m.a <= Max(m.c, Reach(log[..m.h]))
    requires x.response.events == CompactHistory(log[..m.h])
    requires AllHeld(Fold([], x.response.events), p.pending) && !EchoShown(Fold([], x.response.events), x.echo)
    ensures Draw(Session(p, x).blocks) == Draw(Fold([], log[..m.e]))
            <==> Spoken(log[m.h..m.e]) == []
                 && FaithfulUpTo(
                      log[..m.h], Again(log, m, Reach(log[..m.h])), log[m.h..m.e], {}, HasMessage(log[..m.h]))
  {
    var history, more := log[..m.h], log[m.h..m.e];
    var again := CompactedSession(p, x, log, m);
    Slices(log, m.h, m.h, m.e);
    CarriedSays(more);
    CarriedWords(history, again, more);
    if Draw(Session(p, x).blocks) == Draw(Fold([], log[..m.e])) {
      DrawnWords(Session(p, x).blocks, Fold([], log[..m.e]));
      SameWords(Spoken(history), Spoken(more));
    }
    DrawnFrom(history, again, more);
  }

  lemma {:induction false} CarriedWords(history: seq<Event>, again: seq<Event>, more: seq<Event>)
    requires Spoken(again) == []
    ensures Words(Fold(Fold([], CompactHistory(history)), again + Carried(more))) == Spoken(history) + []
    ensures Words(Fold([], history + more)) == Spoken(history) + Spoken(more)
  {
    CompactedWords(history);
    FoldSpeaks(Fold([], CompactHistory(history)), again + Carried(more));
    SpokenConcat(again, Carried(more));
    CarriedSays(more);
    WordsOf(history, more);
  }

  // ---- With the echo -------------------------------------------------------------------------

  /** With the echo in the place of the user's words: if and only if the words and their time are the echo's,
      nobody speaks after them, and the history is faithful up to there. */
  lemma {:induction false} EchoedLoadDrawsLog(p: Page, x: Delivery, log: seq<Event>, m: Moment, u: nat)
    requires In(log, m) && Delivers(x, log, m) && Covers(m) && InStep(m) && m.a <= Max(m.c, Reach(log[..m.h]))
    requires x.response.events == CompactHistory(log[..m.h])
    requires AllHeld(Fold([], x.response.events), p.pending) && EchoShown(Fold([], x.response.events), x.echo)
    requires m.h <= u < m.e && NothingDrawn(log[m.h..u]) && log[u].body.User? && Again(log, m, Reach(log[..m.h])) == []
    ensures Draw(Session(p, x).blocks) == Draw(Fold([], log[..m.e]))
            <==> log[u].body == x.echo.value && Spoken(log[u + 1..m.e]) == []
                 && FaithfulUpTo(log[..m.h], [], log[m.h..m.e], {}, HasMessage(log[..m.h]))
  {
    var again := CompactedSession(p, x, log, m);
    assert again + Carried(log[m.h..m.e]) == Carried(log[m.h..m.e]);
    EchoedExact(log, m.h, u, m.e, x.echo.value);
  }

  lemma {:induction false} EchoedExact(log: seq<Event>, h: nat, u: nat, e: nat, echo: Body)
    requires h <= u < e <= |log| && NothingDrawn(log[h..u]) && log[u].body.User? && echo.User?
    ensures Draw(Fold(Reduce(Fold([], CompactHistory(log[..h])), echo), Carried(log[h..e]))) == Draw(Fold([], log[..e]))
            <==> log[u].body == echo && Spoken(log[u + 1..e]) == []
                 && FaithfulUpTo(log[..h], [], log[h..e], {}, HasMessage(log[..h]))
  {
    var history, more, rest := log[..h], log[h..e], log[u + 1..e];
    var list := Fold([], CompactHistory(history));
    var shown := Fold(Reduce(list, echo), Carried(more));
    EchoedWords(log, h, u, e, list, echo);
    CompactedWords(history);
    WordsOf(history, more);
    Slices(log, h, h, e);
    if Draw(shown) == Draw(Fold([], log[..e])) {
      DrawnWords(shown, Fold([], log[..e]));
      Assoc(Spoken(history), [log[u].body], Spoken(rest));
      SameMore(Spoken(history), echo, [], log[u].body, Spoken(rest));
    }
    DrawnFrom(history, [], more);
    assert [] + more == more;
  }

  lemma {:induction false} EchoedWords(log: seq<Event>, h: nat, u: nat, e: nat, list: seq<Block>, echo: Body)
    requires h <= u < e <= |log| && NothingDrawn(log[h..u]) && log[u].body.User? && echo.User?
    ensures Words(Fold(Reduce(list, echo), Carried(log[h..e]))) == Words(list) + [echo] + []
    ensures Spoken(log[h..e]) == [log[u].body] + Spoken(log[u + 1..e])
    ensures log[u].body == echo && Spoken(log[u + 1..e]) == [] ==>
              Fold(Reduce(list, echo), Carried(log[h..e])) == Fold(list, log[h..e])
  {
    var rest := log[u + 1..e];
    WordsApart(log, h, u, e);
    CarriedSays(log[h..e]);
    HeardWords(list, echo, Carried(log[h..e]));
    Slices(log, h, u, e);
    assert log[u..e][0] == log[u] && log[u..e][1..] == rest;
    NothingChanges(list, log[h..u]);
    NothingChanges(Reduce(list, echo), log[h..u]);
    SpokenConcat(log[h..u], log[u..e]);
    FoldConcat(list, log[h..u], log[u..e]);
    CarriedSays(rest);
    FoldConcat(Reduce(list, echo), log[h..u], Carried(rest));
  }

  // ---- After whole turns ---------------------------------------------------------------------

  /** A history of finished turns is faithful up to any more if and only if it is faithful. */
  lemma {:induction false} FinishedTurns(events: seq<Event>, more: seq<Event>, seen: set<string>, hasMessage: bool)
    requires Ended(events)
    ensures FaithfulUpTo(events, [], more, seen, hasMessage) <==> FaithfulRest(events, seen, hasMessage)
    decreases |events|
  {
    if events == [] {
      assert TailLeft([], [], seen, hasMessage) + "" == "";
    } else if events[0].body.User? {
      assert events[1..] != [] ==> events[1..][|events| - 2] == events[|events| - 1];
      FinishedTurns(events[1..], more, seen, hasMessage);
    } else {
      TakeStretch(events);
      var n := StretchLength(events);
      var frames, rest := events[..n], events[n..];
      assert rest != [] ==> rest[|rest| - 1] == events[|events| - 1];
      assert rest == [] ==> frames == events;
      UpToStep(events, [], more, seen, hasMessage);
      FaithfulStep(events, seen, hasMessage);
      if EndsTurn(frames[n - 1]) {
        FinishedTurns(rest, more, {}, HasMessage(rest));
      } else {
        FinishedTurns(rest, more, SeenAfter(frames, seen, hasMessage), hasMessage);
      }
    }
  }

  /** A log whose turns so far are all over. */
  predicate AtTurnEnd(log: seq<Event>, h: nat)
    requires h <= |log|
  {
    h == 0 || EndsTurn(log[h - 1])
  }

  /** After whole turns nothing is taken again, and the history's own faithfulness is all there is to it. */
  lemma {:induction false} FinishedLoadDrawsLog(p: Page, x: Delivery, log: seq<Event>, m: Moment)
    requires In(log, m) && Delivers(x, log, m) && Covers(m) && InStep(m) && AtTurnEnd(log, m.h)
    requires x.response.events == CompactHistory(log[..m.h])
    requires AllHeld(Fold([], x.response.events), p.pending) && !EchoShown(Fold([], x.response.events), x.echo)
    ensures Draw(Session(p, x).blocks) == Draw(Fold([], log[..m.e]))
            <==> Spoken(log[m.h..m.e]) == [] && FaithfulHistory(log[..m.h])
  {
    FinishedReach(log, m);
    CompactedLoadDrawsLog(p, x, log, m);
    FinishedTurns(log[..m.h], log[m.h..m.e], {}, HasMessage(log[..m.h]));
  }

  lemma {:induction false} FinishedReach(log: seq<Event>, m: Moment)
    requires In(log, m) && Covers(m) && AtTurnEnd(log, m.h)
    ensures Ended(log[..m.h]) && Reach(log[..m.h]) == m.h && Again(log, m, m.h) == []
  {
    assert OpenTurn(log[..m.h]) == [];
  }

  // ---- In mid-turn ---------------------------------------------------------------------------

  function StreamedBlock(text: string): Block { AgentBlock(NEW_AGENT.(streamed := text, streaming := true)) }

  /** A history compacted in the middle of a turn: its merged chunk carries the first one's number, so the
      live list's later chunks count as new and their text is drawn twice. */
  lemma {:induction false} CompactedMidTurnRepeats(p: Page, goal: Option<string>)
    requires p.pending == []
    ensures var log := [Text("a"), Event(1, Text("b").body)];
            var r := Response(CompactHistory(log), RunOf(log, 0, 2), goal);
            && Session(p, Delivery(r, None, r.live, [], [])).blocks == [StreamedBlock("abb")]
            && Fold([], log) == [StreamedBlock("ab")]
  {
    var e0, e1 := Text("a"), Event(1, Text("b").body);
    MergesTwo(e0, e1);
    assert ChunkText(e0) + ChunkText(e1) == "ab";
    RepeatsOnLoad(p, goal, e0, e1);
    DrawnOnce(e0, e1);
  }

  lemma {:induction false} RepeatsOnLoad(p: Page, goal: Option<string>, e0: Event, e1: Event)
    requires p.pending == [] && e0 == Text("a") && e1 == Event(1, Text("b").body)
    ensures var r := Response([Text("ab")], RunOf([e0, e1], 0, 2), goal);
            Session(p, Delivery(r, None, r.live, [], [])).blocks == [StreamedBlock("abb")]
  {
    var log := [e0, e1];
    assert MaxSeq([Text("ab")]) == 0 by {
      assert [Text("ab")][..0] == [];
    }
    var r := Response([Text("ab")], RunOf(log, 0, 2), goal);
    var x, m := Delivery(r, None, r.live, [], []), Moment(1, 0, 2, 0, 0, 0);
    TwoDelivered(x, log, m);
    SessionShows(p, x, log, m);
    StreamsOne("ab");
    StreamsMore("ab", "b", e1);
    assert "ab" + "b" == "abb";
  }

  lemma {:induction false} TwoDelivered(x: Delivery, log: seq<Event>, m: Moment)
    requires Numbered(log) && |log| == 2 && IsChunk(log[0]) && IsChunk(log[1]) && m == Moment(1, 0, 2, 0, 0, 0)
    requires x.live == x.response.live == RunOf(log, 0, 2) && x.echo == None && x.buffered == [] && x.after == []
    ensures In(log, m) && Covers(m) && Delivers(x, log, m)
    ensures Carried(log[1..2]) + Carried(log[0..0]) == [log[1]]
  {
    TwoFrames(log);
    assert [] + x.live == x.live;
    assert log[1..2] == [log[1]] && log[0..0] == [] && [log[1]][1..] == [];
    assert Carried([log[1]]) == [log[1]] + Carried([]);
  }

  lemma {:induction false} TwoFrames(log: seq<Event>)
    requires |log| == 2 && IsChunk(log[0]) && IsChunk(log[1])
    ensures RunOf(log, 0, 2) == [Logged(log[0]), Logged(log[1])] && Logs(RunOf(log, 0, 2)) == RunOf(log, 0, 2)
    ensures RunOf(log, 0, 0) == []
  {
    assert RunOf(log, 1, 2) == [Logged(log[1])] + RunOf(log, 2, 2);
    var f, g := Logged(log[0]), Logged(log[1]);
    assert RunOf(log, 0, 2) == [f] + [g] == [f, g];
    assert [f, g][1..] == [g] && [g][1..] == [];
    assert Logs([g]) == [g] + Logs([]);
  }

  lemma {:induction false} DrawnOnce(e0: Event, e1: Event)
    requires e0 == Text("a") && e1 == Event(1, Text("b").body)
    ensures Fold([], [e0, e1]) == [StreamedBlock("ab")]
  {
    StreamsOne("a");
    FoldConcat([], [e0], [e1]);
    assert [e0, e1] == [e0] + [e1];
    StreamsMore("a", "b", e1);
    assert "a" + "b" == "ab";
  }

  lemma {:induction false} MergesTwo(e0: Event, e1: Event)
    requires OfKind(e0, TEXT) && OfKind(e1, TEXT)
    ensures CompactHistory([e0, e1]) == [Merged(e0, ChunkText(e0) + ChunkText(e1))]
  {
    assert [e0, e1][1..] == [e1] && [e1][1..] == [];
    assert !HasMessage([e1]) && !HasMessage([e0, e1]);
    assert TextOf([e1], TEXT) == ChunkText(e1) by {
      assert TextOf([], TEXT) == "" && ChunkText(e1) + "" == ChunkText(e1);
    }
    assert CompactRest([e1], {TEXT}, false) == CompactRest([], {TEXT}, false);
    assert {} + {TEXT} == {TEXT};
  }

  lemma {:induction false} StreamsOne(text: string)
    ensures Fold([], [Text(text)]) == [StreamedBlock(text)]
  {
    assert [Text(text)][1..] == [] && "" + text == text;
    assert Fold([], [Text(text)]) == Fold(Reduce([], Text(text).body), []);
  }

  lemma {:induction false} StreamsMore(before: string, text: string, e: Event)
    requires e.body == Text(text).body
    ensures Reduce([StreamedBlock(before)], e.body) == [StreamedBlock(before + text)]
    ensures Fold([StreamedBlock(before)], [e]) == [StreamedBlock(before + text)]
  {
  }
}
