/** Where a loaded history ends (public/assets/chat-wire.js:205-230; src/chat/replay.ts:67-94): how far a
    compacted history tells the page it reaches, and which goal is shown after a load.
 */
module WireEdges {
  import opened Options
  import opened Sequences
  import opened Frames
  import opened Reducer
  import opened Replay
  import opened Wire
  import opened WireLaws

  // ---- The turn in flight --------------------------------------------------------------------

  predicate Ended(events: seq<Event>) { events == [] || EndsTurn(events[|events| - 1]) }

  /** What follows the last `turn_end`. */
  function OpenTurn(events: seq<Event>): seq<Event> {
    if events == [] || EndsTurn(events[|events| - 1]) then []
    else OpenTurn(events[..|events| - 1]) + [events[|events| - 1]]
  }

  lemma {:induction false} OpenTurnSplits(events: seq<Event>) returns (done: seq<Event>)
    ensures events == done + OpenTurn(events) && Ended(done) && NoTurnEnd(OpenTurn(events))
  {
    if events == [] || EndsTurn(events[|events| - 1]) {
      done := events;
    } else {
      var init, last := events[..|events| - 1], events[|events| - 1];
      assert events == init + [last];
      done := OpenTurnSplits(init);
      Assoc(done, OpenTurn(init), [last]);
    }
  }

  /** The newest event leaves its number in the compacted history: it is no chunk, or it is the first of its
      kind in the turn in flight and not text beside a message. */
  predicate LastCounts(events: seq<Event>) {
    var turn := OpenTurn(events);
    turn == [] ||
    var e := turn[|turn| - 1];
    !IsChunk(e) ||
    (!Dropped(ChunkKind(e), {}, HasMessage(turn)) && !Mentions(turn[..|turn| - 1], ChunkKind(e)))
  }

  /** Finished turns compact apart from what follows them. */
  lemma {:induction false} CompactByTurns(done: seq<Event>, more: seq<Event>)
    requires Ended(done)
    ensures CompactHistory(done + more) == CompactHistory(done) + CompactHistory(more)
    decreases |done|
  {
    if done == [] {
      assert done + more == more && CompactHistory(done) == [];
    } else {
      var n := SegmentLength(done);
      var turn, rest := done[..n], done[n..];
      FirstSegment(done);
      assert done == turn + rest;
      assert rest == [] ==> turn == done;
      assert rest != [] ==> rest[|rest| - 1] == done[|done| - 1];
      CompactByTurns(rest, more);
      CompactByTurn(turn, rest + more);
      CompactByTurn(turn, rest);
      assert turn + (rest + more) == done + more;
      Assoc(CompactHistory(turn), CompactHistory(rest), CompactHistory(more));
    }
  }

  lemma {:induction false} LastIsChunk(events: seq<Event>)
    requires !LastCounts(events)
    ensures events != [] && IsChunk(events[|events| - 1])
  {
    assert OpenTurn(events)[|OpenTurn(events)| - 1] == events[|events| - 1];
  }

  /** How far a compacted history says it reaches: behind its newest event that leaves its number.  Only chunks
      of the turn in flight come after that. */
  function Reach(events: seq<Event>): (n: nat)
    ensures n <= |events| && forall k | n <= k < |events| :: IsChunk(events[k])
    ensures n == |events| <==> LastCounts(events)
  {
    if LastCounts(events) then |events|
    else
      LastIsChunk(events);
      var init := events[..|events| - 1];
      assert forall k | 0 <= k < |init| :: init[k] == events[k];
      Reach(init)
  }

  // ---- Numbers -------------------------------------------------------------------------------

  ghost predicate NumbersUpTo(events: seq<Event>, top: int) { forall e | e in events :: e.seqNo <= top }

  lemma {:induction false} CompactKeepsBound(events: seq<Event>, seen: set<string>, hasMessage: bool, top: int)
    requires NumbersUpTo(events, top)
    ensures NumbersUpTo(CompactRest(events, seen, hasMessage), top)
    decreases |events|
  {
    if events != [] {
      var e, rest := events[0], events[1..];
      assert e in events;
      if EndsTurn(e) {
        CompactKeepsBound(rest, {}, HasMessage(rest), top);
      } else {
        CompactKeepsBound(rest, seen, hasMessage, top);
        CompactKeepsBound(rest, seen + {ChunkKind(e)}, hasMessage, top);
      }
    }
  }

  lemma {:induction false} MaxSeqBounds(events: seq<Event>, top: int)
    requires NumbersUpTo(events, top) && -1 <= top
    ensures MaxSeq(events) <= top
    ensures events != [] ==> events[|events| - 1].seqNo <= MaxSeq(events)
  {
    if events != [] {
      assert events[|events| - 1] in events;
      MaxSeqBounds(events[..|events| - 1], top);
    }
  }

  lemma {:induction false} BoundConcat(a: seq<Event>, b: seq<Event>, top: int)
    requires NumbersUpTo(a, top) && NumbersUpTo(b, top)
    ensures NumbersUpTo(a + b, top)
  {
  }

  lemma {:induction false} BoundMore(a: seq<Event>, top: int, more: int)
    requires NumbersUpTo(a, top) && top <= more
    ensures NumbersUpTo(a, more)
  {
  }

  /** The highest number of events that end in `last`, which is above all others. */
  lemma {:induction false} MaxIsLast(events: seq<Event>, last: Event, top: int)
    requires NumbersUpTo(events, top) && top < last.seqNo && 0 <= last.seqNo
    ensures MaxSeq(events + [last]) == last.seqNo
  {
    BoundMore(events, top, last.seqNo);
    BoundConcat(events, [last], last.seqNo);
    MaxSeqBounds(events + [last], last.seqNo);
  }

  lemma {:induction false} SameNumbers(a: seq<Event>, b: seq<Event>)
    requires |a| == |b| && forall i | 0 <= i < |a| :: a[i].seqNo == b[i].seqNo
    ensures MaxSeq(a) == MaxSeq(b)
  {
    if a != [] {
      SameNumbers(a[..|a| - 1], b[..|b| - 1]);
    }
  }

  lemma {:induction false} AppendKeepsNumbers(out: seq<Event>, kind: string, text: string)
    ensures |AppendTo(out, kind, text)| == |out|
    ensures forall i | 0 <= i < |out| :: AppendTo(out, kind, text)[i].seqNo == out[i].seqNo
  {
    if out != [] && !(IsChunk(out[0]) && ChunkKind(out[0]) == kind) {
      AppendKeepsNumbers(out[1..], kind, text);
    }
  }

  lemma {:induction false} AppendKeepsMax(before: seq<Event>, out: seq<Event>, kind: string, text: string)
    ensures MaxSeq(before + AppendTo(out, kind, text)) == MaxSeq(before + out)
  {
    AppendKeepsNumbers(out, kind, text);
    SameNumbers(before + AppendTo(out, kind, text), before + out);
  }

  /** One more event of the turn in flight, its number above all others: it is the highest number of the
      compacted turn if it counts, and changes nothing otherwise. */
  lemma {:induction false} TurnMax(before: seq<Event>, init: seq<Event>, e: Event, hasMessage: bool)
    requires NoTurnEnd(init) && 0 <= e.seqNo
    requires NumbersUpTo(before, e.seqNo - 1) && NumbersUpTo(init, e.seqNo - 1)
    ensures MaxSeq(before + CompactRest(init + [e], {}, hasMessage))
            == if !IsChunk(e) || (!Dropped(ChunkKind(e), {}, hasMessage) && !Mentions(init, ChunkKind(e))) then e.seqNo
               else MaxSeq(before + CompactRest(init, {}, hasMessage))
  {
    var left, top := CompactRest(init, {}, hasMessage), e.seqNo - 1;
    CompactKeepsBound(init, {}, hasMessage, top);
    CompactSnoc(init, e, {}, hasMessage);
    BoundConcat(before, left, top);
    if !IsChunk(e) {
      Assoc(before, left, [e]);
      MaxIsLast(before + left, e, top);
    } else if !Dropped(ChunkKind(e), {}, hasMessage) {
      if Mentions(init, ChunkKind(e)) {
        AppendKeepsMax(before, left, ChunkKind(e), ChunkText(e));
      } else {
        Assoc(before, left, [Merged(e, ChunkText(e))]);
        MaxIsLast(before + left, Merged(e, ChunkText(e)), top);
      }
    }
  }

  lemma {:induction false} PrefixBound(log: seq<Event>, k: nat)
    requires Numbered(log) && k < |log|
    ensures NumbersUpTo(log[..k], log[k].seqNo - 1)
  {
    forall e | e in log[..k] ensures e.seqNo <= log[k].seqNo - 1 {
      var j :| 0 <= j < k && log[j] == e;
    }
  }

  lemma {:induction false} OpenTurnParts(log: seq<Event>, h: nat) returns (done: seq<Event>, init: seq<Event>, e: Event)
    requires Numbered(log) && h <= |log| && OpenTurn(log[..h]) != []
    ensures log[..h] == done + (init + [e]) && OpenTurn(log[..h]) == init + [e]
    ensures Ended(done) && NoTurnEnd(init) && e == log[h - 1] && 0 <= e.seqNo
    ensures NumbersUpTo(done, e.seqNo - 1) && NumbersUpTo(init, e.seqNo - 1)
  {
    done := OpenTurnSplits(log[..h]);
    var turn := OpenTurn(log[..h]);
    init, e := turn[..|turn| - 1], turn[|turn| - 1];
    assert done + init == log[..h - 1];
    PrefixBound(log, h - 1);
    assert forall x | x in done || x in init :: x in done + init;
  }

  lemma {:induction false} LastCountsIs(events: seq<Event>, init: seq<Event>, e: Event)
    requires OpenTurn(events) == init + [e]
    ensures LastCounts(events)
            <==> !IsChunk(e)
                 || (!Dropped(ChunkKind(e), {}, HasMessage(init + [e])) && !Mentions(init, ChunkKind(e)))
  {
    assert (init + [e])[..|init|] == init;
  }

  lemma {:induction false} MessageSnoc(init: seq<Event>, e: Event)
    requires NoTurnEnd(init) && !e.body.Message?
    ensures HasMessage(init + [e]) == HasMessage(init)
  {
    if init == [] {
      assert [] + [e] == [e] && [e][1..] == [];
    } else {
      assert (init + [e])[0] == init[0] && (init + [e])[1..] == init[1..] + [e];
      MessageSnoc(init[1..], e);
    }
  }

  lemma {:induction false} InFlightMax(done: seq<Event>, init: seq<Event>, e: Event)
    requires Ended(done) && NoTurnEnd(init + [e]) && 0 <= e.seqNo
    requires NumbersUpTo(done, e.seqNo - 1) && NumbersUpTo(init, e.seqNo - 1)
    ensures MaxSeq(CompactHistory(done + (init + [e])))
            == if !IsChunk(e) || (!Dropped(ChunkKind(e), {}, HasMessage(init + [e])) && !Mentions(init, ChunkKind(e)))
               then e.seqNo else MaxSeq(CompactHistory(done + init))
  {
    forall x | x in init ensures !EndsTurn(x) {
      assert x in init + [e];
    }
    CompactByTurns(done, init + [e]);
    CompactKeepsBound(done, {}, HasMessage(done), e.seqNo - 1);
    TurnMax(CompactHistory(done), init, e, HasMessage(init + [e]));
    if IsChunk(e) {
      MessageSnoc(init, e);
      CompactByTurns(done, init);
    }
  }

  lemma {:induction false} LastMax(log: seq<Event>, h: nat)
    requires Numbered(log) && h <= |log| && OpenTurn(log[..h]) != []
    ensures h > 0
    ensures MaxSeq(CompactHistory(log[..h]))
            == if LastCounts(log[..h]) then log[h - 1].seqNo else MaxSeq(CompactHistory(log[..h - 1]))
  {
    var done, init, e := OpenTurnParts(log, h);
    LastCountsIs(log[..h], init, e);
    InFlightMax(done, init, e);
    assert log[..h - 1] == done + init by {
      assert (done + (init + [e]))[..|done| + |init|] == done + init;
    }
  }

  /** The highest number of a compacted history tells how far it reaches. */
  ghost predicate Tells(log: seq<Event>, h: nat)
    requires h <= |log|
  {
    MaxSeq(CompactHistory(log[..h])) == SeqBefore(log, Reach(log[..h]))
  }

  lemma {:induction false} ReachStep(log: seq<Event>, h: nat)
    requires h <= |log|
    ensures LastCounts(log[..h]) ==> Reach(log[..h]) == h
    ensures !LastCounts(log[..h]) ==>
              h > 0 && OpenTurn(log[..h]) != [] && Reach(log[..h]) == Reach(log[..h - 1])
  {
    if h > 0 {
      assert log[..h][..h - 1] == log[..h - 1];
    }
  }

  lemma {:induction false} TellsStep(log: seq<Event>, h: nat)
    requires Numbered(log) && h <= |log|
    ensures LastCounts(log[..h]) ==> Tells(log, h)
    ensures !LastCounts(log[..h]) ==> h > 0 && (Tells(log, h - 1) ==> Tells(log, h))
  {
    ReachStep(log, h);
    if OpenTurn(log[..h]) == [] {
      EndedReaches(log, h);
    } else {
      LastMax(log, h);
    }
  }

  /** For every log, whatever is in flight. */
  lemma {:induction false} ReachExact(log: seq<Event>, h: nat)
    requires Numbered(log) && h <= |log|
    ensures MaxSeq(CompactHistory(log[..h])) == SeqBefore(log, Reach(log[..h]))
  {
    TellsStep(log, h);
    if !LastCounts(log[..h]) {
      ReachExact(log, h - 1);
    }
  }

  lemma {:induction false} EndedReaches(log: seq<Event>, h: nat)
    requires Numbered(log) && h <= |log| && OpenTurn(log[..h]) == []
    ensures MaxSeq(CompactHistory(log[..h])) == SeqBefore(log, h)
  {
    if h == 0 {
      assert log[..h] == [];
    } else {
      var events, top := log[..h], log[h - 1].seqNo;
      assert EndsTurn(events[h - 1]);
      CompactKeepsEnd(events, {}, HasMessage(events));
      assert NumbersUpTo(events, top);
      CompactKeepsBound(events, {}, HasMessage(events), top);
      MaxSeqBounds(CompactHistory(events), top);
    }
  }

  lemma {:induction false} CompactKeepsEnd(events: seq<Event>, seen: set<string>, hasMessage: bool)
    requires events != [] && EndsTurn(events[|events| - 1])
    ensures var out := CompactRest(events, seen, hasMessage);
            out != [] && out[|out| - 1] == events[|events| - 1]
    decreases |events|
  {
    var e, rest := events[0], events[1..];
    if rest == [] {
      assert CompactHistory([]) == [];
    } else {
      assert rest[|rest| - 1] == events[|events| - 1];
      if EndsTurn(e) {
        CompactKeepsEnd(rest, {}, HasMessage(rest));
      } else if IsChunk(e) && !Dropped(ChunkKind(e), seen, hasMessage) {
        CompactKeepsEnd(rest, seen + {ChunkKind(e)}, hasMessage);
      } else {
        CompactKeepsEnd(rest, seen, hasMessage);
      }
    }
  }

  // ---- Each event once -----------------------------------------------------------------------

  predicate Within(k: nat, i: nat, j: nat) { i <= k < j }

  /** Of what is carried, a page with a compacted history takes what it has not counted as loaded. */
  lemma {:induction false} TakesExact(
      log: seq<Event>, r: Response, buffered: seq<Frame>, h: nat, a: nat, b: nat, c: nat, d: nat, list: seq<Block>,
      k: nat)
    requires Numbered(log) && h <= |log| && b <= |log| && d <= |log| && r.events == CompactHistory(log[..h])
    requires Logs(r.live) == RunOf(log, a, b) && Logs(buffered) == RunOf(log, c, d) && k < |log| && !log[k].body.User?
    ensures Logged(log[k]) in Logs(PendingFrames(r, buffered, list))
            <==> Reach(log[..h]) <= k && (Within(k, a, b) || Within(k, c, d))
  {
    var f, frames := Logged(log[k]), RunOf(log, a, b) + RunOf(log, c, d);
    ReachExact(log, h);
    LogsPending(r, buffered, list);
    NotLoadedHas(Unique(frames, {}), MaxSeq(r.events), list, f);
    UniqueHas(frames, {}, f);
    LoadedBefore(log, k, Reach(log[..h]), list);
    RunHas(log, a, b, k);
    RunHas(log, c, d, k);
  }

  lemma {:induction false} RunHas(log: seq<Event>, i: nat, j: nat, k: nat)
    requires Numbered(log) && j <= |log| && k < |log| && !log[k].body.User?
    ensures Logged(log[k]) in RunOf(log, i, j) <==> Within(k, i, j)
  {
    if Within(k, i, j) {
      RunIncludes(log, i, j, k);
    } else {
      RunExcludes(log, i, j, k);
    }
  }

  lemma {:induction false} NothingBetween(log: seq<Event>, reach: nat, h: nat, i: nat, j: nat)
    requires reach <= h <= |log| && j <= |log| && forall k | reach <= k < h :: !Within(k, i, j)
    ensures RunOf(log, Max(i, reach), j) == RunOf(log, Max(i, h), j)
  {
    var k := Max(i, reach);
    assert reach <= k < h ==> !Within(k, i, j);
  }

  /** A page that loads the compacted history of the first `h` events takes from its frames exactly what follows
      them, in order and each once, if and only if no chunk behind the history's reach is still in the live list
      or the frames set aside. */
  lemma {:induction false} MidTurnExact(
      log: seq<Event>, r: Response, buffered: seq<Frame>, h: nat, a: nat, b: nat, c: nat, d: nat, list: seq<Block>)
    requires Numbered(log) && h <= |log| && r.events == CompactHistory(log[..h])
    requires a <= b <= |log| && c <= d <= |log| && Logs(r.live) == RunOf(log, a, b) && Logs(buffered) == RunOf(log, c, d)
    requires a <= h && c <= Max(b, h)
    ensures Logs(PendingFrames(r, buffered, list)) == RunOf(log, h, Max(b, d))
            <==> forall k | Reach(log[..h]) <= k < h :: !Within(k, a, b) && !Within(k, c, d)
  {
    var reach := Reach(log[..h]);
    if k :| reach <= k < h && (Within(k, a, b) || Within(k, c, d)) {
      assert IsChunk(log[..h][k]);
      TakesExact(log, r, buffered, h, a, b, c, d, list, k);
      RunExcludes(log, h, Max(b, d), k);
    } else {
      ReachExact(log, h);
      LogsPending(r, buffered, list);
      TakenRuns(log, r.(live := RunOf(log, a, b)), reach, a, b, c, d, list);
      NothingBetween(log, reach, h, a, b);
      NothingBetween(log, reach, h, c, d);
      RunsBehind(log, h, a, b, c, d);
    }
  }

  // ---- The goal ------------------------------------------------------------------------------

  lemma {:induction false} NoGoalKeeps(p: Page, frames: seq<Frame>)
    requires forall f | f in frames :: !f.Goal?
    ensures ApplyAll(p, frames).goal == p.goal
    decreases |frames|
  {
    if frames != [] {
      assert frames[0] in frames && forall f | f in frames[1..] :: f in frames;
      NoGoalKeeps(Apply(p, frames[0]), frames[1..]);
    }
  }

  lemma {:induction false} UniqueSnoc(frames: seq<Frame>, f: Frame, seen: set<Frame>)
    requires f !in frames && f !in seen
    ensures Unique(frames + [f], seen) == Unique(frames, seen) + [f]
  {
    if frames == [] {
      assert frames + [f] == [f] && [f][1..] == [];
    } else {
      var first, rest := frames[0], frames[1..];
      assert (frames + [f])[1..] == rest + [f];
      UniqueSnoc(rest, f, if first in seen then seen else seen + {first});
    }
  }

  /** No goal among these frames is behind the history, or it is one of `known`. */
  ghost predicate NoNewGoal(frames: seq<Frame>, maxSeq: int, known: seq<Frame>) {
    forall f | f in frames && f.Goal? :: f.seqNo <= maxSeq || f in known
  }

  lemma {:induction false} UniqueAppend(a: seq<Frame>, b: seq<Frame>, seen: set<Frame>) returns (rest: seq<Frame>)
    ensures Unique(a + b, seen) == Unique(a, seen) + rest
    ensures forall f | f in rest :: f in b && f !in a && f !in seen
  {
    if a == [] {
      assert a + b == b;
      rest := Unique(b, seen);
      forall f | f in rest ensures f in b && f !in seen {
        UniqueHas(b, seen, f);
      }
    } else {
      assert (a + b)[0] == a[0] && (a + b)[1..] == a[1..] + b && a == [a[0]] + a[1..];
      rest := UniqueAppend(a[1..], b, if a[0] in seen then seen else seen + {a[0]});
    }
  }

  /** The goal changed while a page was loading, to `goal` with the number `n`; goals the page hears of before
      it are older, and after it there come none but older ones and copies.  It is shown if and only if its number
      is above the history's or the response has it already.  A change without a number has 0 and is lost on any
      page with a history. */
  lemma {:induction false} GoalExact(
      p: Page, r: Response, before: seq<Frame>, after: seq<Frame>, n: int, goal: Option<string>)
    requires r.live + p.buffered == before + [Goal(n, goal)] + after && Goal(n, goal) !in before
    requires forall f | f in before && f.Goal? && f.seqNo > MaxSeq(r.events) :: f.seqNo < n
    requires NoNewGoal(after, MaxSeq(r.events), before + [Goal(n, goal)])
    ensures EndLoad(p, r).goal == goal <==> n > MaxSeq(r.events) || r.goal == goal
  {
    var list, change, maxSeq := Rebuilt(r, p.pending), Goal(n, goal), MaxSeq(r.events);
    var late := UniqueAppend(before + [change], after, {});
    UniqueSnoc(before, change, {});
    var unique := Unique(before, {});
    NotLoadedConcat(unique + [change], late, maxSeq, list);
    NotLoadedConcat(unique, [change], maxSeq, list);
    assert [change][1..] == [] && NotLoaded([], maxSeq, list) == [];
    var early, shown := NotLoaded(unique, maxSeq, list), NotLoaded([change], maxSeq, list);
    var rest := NotLoaded(late, maxSeq, list);
    forall f | f in rest ensures !f.Goal? {
      NotLoadedHas(late, maxSeq, list, f);
    }
    forall f | f in early ensures f.Goal? ==> maxSeq < f.seqNo < n {
      NotLoadedHas(unique, maxSeq, list, f);
      UniqueHas(before, {}, f);
    }
    var start := Page(list, false, [], p.queued, StillPending(Fold([], r.events), p.pending), r.goal);
    LastGoal(start, early, shown, rest);
    if n > maxSeq {
      assert shown == [change];
      ApplyOne(ApplyAll(start, early), change);
    } else {
      assert shown == [];
      NoGoalKeeps(start, early);
    }
  }

  lemma {:induction false} LastGoal(start: Page, early: seq<Frame>, shown: seq<Frame>, rest: seq<Frame>)
    requires forall f | f in rest :: !f.Goal?
    ensures ApplyAll(start, early + shown + rest).goal == ApplyAll(ApplyAll(start, early), shown).goal
  {
    ApplyConcat(start, early + shown, rest);
    ApplyConcat(start, early, shown);
    NoGoalKeeps(ApplyAll(start, early + shown), rest);
  }
}
