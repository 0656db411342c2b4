/** A page that loads a history and listens to the stream draws the session's log (public/assets/chat-wire.js:
    167-239, 263-325): exactly when, and what goes wrong otherwise.

    Of the log's events the stream and the live list carry all but the users' words (src/chat/turn-runner.ts:
    107-111, src/routes/internal.ts:288-291): for these there is the manager's echo, a frame of its own without
    a number (src/routes/chat.ts:521-523).
 */
module WireLaws {
  import opened Options
  import opened Sequences
  import opened Frames
  import opened Reducer
  import opened Wire

  // ---- What the stream carries ---------------------------------------------------------------

  /** The events of a stretch of the log that are carried. */
  function Carried(events: seq<Event>): seq<Event> {
    if events == [] then []
    else if events[0].body.User? then Carried(events[1..])
    else [events[0]] + Carried(events[1..])
  }

  /** Their frames. */
  function RunOf(log: seq<Event>, i: nat, j: nat): seq<Frame>
    requires j <= |log|
    decreases j - i
  {
    if i >= j then []
    else if log[i].body.User? then RunOf(log, i + 1, j)
    else [Logged(log[i])] + RunOf(log, i + 1, j)
  }

  /** The frames of the log among others. */
  function Logs(frames: seq<Frame>): seq<Frame> {
    if frames == [] then []
    else if frames[0].Logged? then [frames[0]] + Logs(frames[1..])
    else Logs(frames[1..])
  }

  function LogEvents(frames: seq<Frame>): seq<Event> {
    if frames == [] then []
    else if frames[0].Logged? then [frames[0].event] + LogEvents(frames[1..])
    else LogEvents(frames[1..])
  }

  /** Frames that leave the block list alone: goals, queued messages, cards. */
  predicate Silent(f: Frame) { (f.Goal? || f.Queued? || f.Own?) && !BodyOf(f).User? && !Opens(BodyOf(f)) }

  ghost predicate Quiet(frames: seq<Frame>) { forall f | f in frames :: f.Logged? || Silent(f) }

  ghost predicate Numbered(log: seq<Event>) {
    && (forall i | 0 <= i < |log| :: 0 <= log[i].seqNo)
    && forall i, j | 0 <= i < j < |log| :: log[i].seqNo < log[j].seqNo
  }

  function Max(a: nat, b: nat): nat { if a < b then b else a }

  function Min(a: nat, b: nat): nat { if a < b then a else b }

  /** The number up to which a history of the first `h` events counts as loaded. */
  function SeqBefore(log: seq<Event>, h: nat): int
    requires h <= |log|
  {
    if h == 0 then -1 else log[h - 1].seqNo
  }

  lemma {:induction false} CarriedConcat(a: seq<Event>, b: seq<Event>)
    ensures Carried(a + b) == Carried(a) + Carried(b)
  {
    if a == [] {
      assert a + b == b;
    } else {
      assert (a + b)[0] == a[0] && (a + b)[1..] == a[1..] + b;
      CarriedConcat(a[1..], b);
    }
  }

  lemma {:induction false} RunEvents(log: seq<Event>, i: nat, j: nat)
    requires i <= j <= |log|
    ensures LogEvents(RunOf(log, i, j)) == Carried(log[i..j])
    decreases j - i
  {
    if i < j {
      RunEvents(log, i + 1, j);
      assert log[i..j][0] == log[i] && log[i..j][1..] == log[i + 1..j];
      if !log[i].body.User? {
        assert ([Logged(log[i])] + RunOf(log, i + 1, j))[1..] == RunOf(log, i + 1, j);
      }
    }
  }

  lemma {:induction false} LogEventsOf(frames: seq<Frame>)
    ensures LogEvents(frames) == LogEvents(Logs(frames))
  {
    if frames != [] {
      LogEventsOf(frames[1..]);
      if frames[0].Logged? {
        assert ([frames[0]] + Logs(frames[1..]))[1..] == Logs(frames[1..]);
      }
    }
  }

  lemma {:induction false} LogsConcat(a: seq<Frame>, b: seq<Frame>)
    ensures Logs(a + b) == Logs(a) + Logs(b)
  {
    if a == [] {
      assert a + b == b;
    } else {
      assert (a + b)[0] == a[0] && (a + b)[1..] == a[1..] + b;
      LogsConcat(a[1..], b);
    }
  }

  // ---- Deliveries ----------------------------------------------------------------------------

  lemma {:induction false} DeliverLoading(p: Page, frames: seq<Frame>)
    requires p.loading && forall f | f in frames :: !f.Aside?
    ensures ReceiveAll(p, frames) == p.(buffered := p.buffered + frames)
    decreases |frames|
  {
    if frames != [] {
      assert frames[0] in frames && forall f | f in frames[1..] :: f in frames;
      DeliverLoading(Receive(p, frames[0]), frames[1..]);
      Assoc(p.buffered, [frames[0]], frames[1..]);
      assert [frames[0]] + frames[1..] == frames;
    } else {
      assert p.buffered + [] == p.buffered;
    }
  }

  lemma {:induction false} ReceivesApply(p: Page, frames: seq<Frame>)
    requires !p.loading
    ensures ReceiveAll(p, frames) == ApplyAll(p, frames) && !ApplyAll(p, frames).loading
    decreases |frames|
  {
    if frames != [] {
      ReceivesApply(Receive(p, frames[0]), frames[1..]);
    }
  }

  lemma {:induction false} ApplyQuiet(p: Page, frames: seq<Frame>)
    requires Quiet(frames)
    ensures ApplyAll(p, frames).blocks == Fold(p.blocks, LogEvents(frames))
    decreases |frames|
  {
    if frames != [] {
      var f, rest := frames[0], frames[1..];
      assert f in frames && forall x | x in rest :: x in frames;
      ApplyQuiet(Apply(p, f), rest);
      if f.Logged? {
        assert ([f.event] + LogEvents(rest))[1..] == LogEvents(rest);
      }
    }
  }

  // ---- Which frames are new ------------------------------------------------------------------

  lemma {:induction false} MaxSeqOfPrefix(log: seq<Event>, h: nat)
    requires Numbered(log) && h <= |log|
    ensures MaxSeq(log[..h]) == SeqBefore(log, h)
  {
    if h > 0 {
      assert log[..h][..h - 1] == log[..h - 1];
      MaxSeqOfPrefix(log, h - 1);
      assert h > 1 ==> log[h - 2].seqNo < log[h - 1].seqNo;
    }
  }

  lemma {:induction false} LoadedBefore(log: seq<Event>, i: nat, h: nat, list: seq<Block>)
    requires Numbered(log) && i < |log| && h <= |log|
    ensures AlreadyLoaded(Logged(log[i]), SeqBefore(log, h), list) <==> i < h
  {
    assert h > 0 && i < h - 1 ==> log[i].seqNo < log[h - 1].seqNo;
    assert h > 0 && h - 1 < i ==> log[h - 1].seqNo < log[i].seqNo;
  }

  lemma {:induction false} NewInRun(log: seq<Event>, i: nat, j: nat, h: nat, list: seq<Block>)
    requires Numbered(log) && j <= |log| && h <= |log|
    ensures NotLoaded(RunOf(log, i, j), SeqBefore(log, h), list) == RunOf(log, Max(i, h), j)
    decreases j - i
  {
    if i < j {
      var rest := RunOf(log, i + 1, j);
      NewInRun(log, i + 1, j, h, list);
      if !log[i].body.User? {
        NotLoadedCons(Logged(log[i]), rest, SeqBefore(log, h), list);
        LoadedBefore(log, i, h, list);
      }
    }
  }

  lemma {:induction false} NotLoadedConcat(a: seq<Frame>, b: seq<Frame>, maxSeq: int, list: seq<Block>)
    ensures NotLoaded(a + b, maxSeq, list) == NotLoaded(a, maxSeq, list) + NotLoaded(b, maxSeq, list)
  {
    if a == [] {
      assert a + b == b;
    } else {
      assert (a + b)[1..] == a[1..] + b;
      NotLoadedConcat(a[1..], b, maxSeq, list);
    }
  }

  /** Two sets of seen frames that differ in loaded ones only. */
  ghost predicate SameNew(seen: set<Frame>, seen': set<Frame>, maxSeq: int, list: seq<Block>) {
    forall f: Frame | !AlreadyLoaded(f, maxSeq, list) :: f in seen <==> f in seen'
  }

  lemma {:induction false} FilterFirst(
      frames: seq<Frame>, seen: set<Frame>, seen': set<Frame>, maxSeq: int, list: seq<Block>)
    requires SameNew(seen, seen', maxSeq, list)
    ensures NotLoaded(Unique(frames, seen), maxSeq, list) == Unique(NotLoaded(frames, maxSeq, list), seen')
  {
    if frames != [] {
      var f, rest := frames[0], frames[1..];
      var new_ := NotLoaded(rest, maxSeq, list);
      if AlreadyLoaded(f, maxSeq, list) {
        FilterFirst(rest, if f in seen then seen else seen + {f}, seen', maxSeq, list);
        assert NotLoaded(frames, maxSeq, list) == new_;
        var tail := Unique(rest, seen + {f});
        assert ([f] + tail)[1..] == tail;
      } else if f in seen {
        FilterFirst(rest, seen, seen', maxSeq, list);
        assert ([f] + new_)[1..] == new_;
      } else {
        FilterFirst(rest, seen + {f}, seen' + {f}, maxSeq, list);
        assert ([f] + new_)[1..] == new_;
        var tail := Unique(rest, seen + {f});
        assert ([f] + tail)[1..] == tail;
      }
    }
  }

  ghost function Seen(log: seq<Event>, h: nat, k: nat): set<Frame>
    requires k <= |log|
  {
    set j | h <= j < k && !log[j].body.User? :: Logged(log[j])
  }

  lemma {:induction false} SeenNext(log: seq<Event>, h: nat, k: nat)
    requires Numbered(log) && h <= k < |log|
    ensures Seen(log, h, k + 1) == Seen(log, h, k) + if log[k].body.User? then {} else {Logged(log[k])}
    ensures Logged(log[k]) !in Seen(log, h, k)
  {
  }

  lemma {:induction false} UniqueCons(frame: Frame, rest: seq<Frame>, seen: set<Frame>)
    ensures Unique([frame] + rest, seen)
            == if frame in seen then Unique(rest, seen) else [frame] + Unique(rest, seen + {frame})
  {
    assert ([frame] + rest)[1..] == rest;
  }

  lemma {:induction false} UniqueRun(log: seq<Event>, h: nat, i: nat, j: nat, more: seq<Frame>)
    requires Numbered(log) && h <= i <= j <= |log|
    ensures Unique(RunOf(log, i, j) + more, Seen(log, h, i)) == RunOf(log, i, j) + Unique(more, Seen(log, h, j))
    decreases j - i
  {
    if i < j {
      SeenNext(log, h, i);
      UniqueRun(log, h, i + 1, j, more);
      if log[i].body.User? {
        assert Seen(log, h, i + 1) == Seen(log, h, i);
        assert RunOf(log, i, j) == RunOf(log, i + 1, j);
      } else {
        Assoc([Logged(log[i])], RunOf(log, i + 1, j), more);
        UniqueCons(Logged(log[i]), RunOf(log, i + 1, j) + more, Seen(log, h, i));
        Assoc([Logged(log[i])], RunOf(log, i + 1, j), Unique(more, Seen(log, h, j)));
      }
    } else {
      assert RunOf(log, i, j) + more == more;
    }
  }

  lemma {:induction false} UniqueOverlap(log: seq<Event>, h: nat, i: nat, j: nat, k: nat)
    requires Numbered(log) && h <= i <= k <= |log| && j <= |log|
    ensures Unique(RunOf(log, i, j), Seen(log, h, k)) == RunOf(log, k, j)
    decreases j - i
  {
    if i >= j {
      assert RunOf(log, k, j) == [];
    } else if i < k {
      UniqueOverlap(log, h, i + 1, j, k);
      if log[i].body.User? {
        assert RunOf(log, i, j) == RunOf(log, i + 1, j);
      } else {
        UniqueCons(Logged(log[i]), RunOf(log, i + 1, j), Seen(log, h, k));
      }
    } else {
      UniqueRun(log, h, i, j, []);
      assert RunOf(log, i, j) + [] == RunOf(log, i, j);
    }
  }

  lemma {:induction false} RunsJoin(log: seq<Event>, i: nat, j: nat, k: nat)
    requires i <= j <= |log| && k <= |log|
    ensures RunOf(log, i, j) + RunOf(log, j, k) == RunOf(log, i, Max(j, k))
    decreases j - i
  {
    if i < j {
      RunsJoin(log, i + 1, j, k);
      Assoc([Logged(log[i])], RunOf(log, i + 1, j), RunOf(log, j, k));
    } else {
      assert [] + RunOf(log, j, k) == RunOf(log, j, k);
    }
  }

  /** Frames seen that are none of a run's do not matter to it. */
  lemma {:induction false} UniqueAnyway(log: seq<Event>, seen: set<Frame>, i: nat, j: nat)
    requires Numbered(log) && j <= |log|
    requires forall k | i <= k < j :: Logged(log[k]) !in seen
    ensures Unique(RunOf(log, i, j), seen) == RunOf(log, i, j)
    decreases j - i
  {
    if i < j {
      if log[i].body.User? {
        UniqueAnyway(log, seen, i + 1, j);
      } else {
        UniqueAnyway(log, seen + {Logged(log[i])}, i + 1, j);
        UniqueCons(Logged(log[i]), RunOf(log, i + 1, j), seen);
      }
    }
  }

  /** Two runs, the second beginning no earlier than the first: each frame once. */
  lemma {:induction false} TwoRuns(log: seq<Event>, i: nat, j: nat, k: nat, l: nat)
    requires Numbered(log) && i <= k && j <= |log| && l <= |log|
    ensures Unique(RunOf(log, i, j) + RunOf(log, k, l), {}) == RunOf(log, i, j) + RunOf(log, Max(j, k), l)
  {
    if i >= j {
      UniqueAnyway(log, {}, k, l);
      assert [] + RunOf(log, k, l) == RunOf(log, k, l);
    } else {
      assert Seen(log, i, i) == {};
      UniqueRun(log, i, i, j, RunOf(log, k, l));
      if k <= j {
        UniqueOverlap(log, i, k, l, j);
      } else {
        UniqueAnyway(log, Seen(log, i, j), k, l);
      }
    }
  }

  /** What a page takes that counts the first `h` events as loaded: of the live list and the frames set aside
      what is behind them, each frame once. */
  lemma {:induction false} TakenRuns(log: seq<Event>, r: Response, h: nat, a: nat, b: nat, c: nat, d: nat, list: seq<Block>)
    requires Numbered(log) && h <= |log| && MaxSeq(r.events) == SeqBefore(log, h)
    requires b <= |log| && d <= |log| && r.live == RunOf(log, a, b)
    ensures PendingFrames(r, RunOf(log, c, d), list) == Unique(RunOf(log, Max(a, h), b) + RunOf(log, Max(c, h), d), {})
  {
    var maxSeq := SeqBefore(log, h);
    FilterFirst(r.live + RunOf(log, c, d), {}, {}, maxSeq, list);
    NotLoadedConcat(r.live, RunOf(log, c, d), maxSeq, list);
    NewInRun(log, a, b, h, list);
    NewInRun(log, c, d, h, list);
  }

  /** What follows the first `h` events, in order and each once. */
  lemma {:induction false} RunsBehind(log: seq<Event>, h: nat, a: nat, b: nat, c: nat, d: nat)
    requires Numbered(log) && h <= |log| && b <= |log| && d <= |log| && a <= h && c <= Max(b, h)
    ensures Unique(RunOf(log, Max(a, h), b) + RunOf(log, Max(c, h), d), {}) == RunOf(log, h, Max(b, d))
  {
    TwoRuns(log, h, b, Max(c, h), d);
    if h <= b {
      RunsJoin(log, h, b, d);
    } else {
      assert [] + RunOf(log, Max(c, h), d) == RunOf(log, h, d);
    }
  }

  // ---- Other frames in between ---------------------------------------------------------------

  lemma {:induction false} LogsNotLoaded(frames: seq<Frame>, maxSeq: int, list: seq<Block>)
    ensures Logs(NotLoaded(frames, maxSeq, list)) == NotLoaded(Logs(frames), maxSeq, list)
  {
    if frames != [] {
      var f, rest := frames[0], frames[1..];
      LogsNotLoaded(rest, maxSeq, list);
      assert frames == [f] + rest;
      NotLoadedCons(f, rest, maxSeq, list);
      LogsConcat([f], NotLoaded(rest, maxSeq, list));
      NotLoadedCons(f, Logs(rest), maxSeq, list);
      assert Logs([f]) == if f.Logged? then [f] + Logs([]) else Logs([]);
    }
  }

  lemma {:induction false} LogsUnique(frames: seq<Frame>, seen: set<Frame>, seen': set<Frame>)
    requires forall f: Frame | f.Logged? :: f in seen <==> f in seen'
    ensures Logs(Unique(frames, seen)) == Unique(Logs(frames), seen')
  {
    if frames != [] {
      var f, rest := frames[0], frames[1..];
      if f in seen {
        LogsUnique(rest, seen, seen');
      } else {
        LogsUnique(rest, seen + {f}, if f.Logged? then seen' + {f} else seen');
        LogsConcat([f], Unique(rest, seen + {f}));
        assert Logs([f]) == if f.Logged? then [f] + Logs([]) else Logs([]);
      }
      if f.Logged? {
        UniqueCons(f, Logs(rest), seen');
      }
    }
  }

  /** Other frames in between do not matter to the log's. */
  lemma {:induction false} LogsPending(r: Response, buffered: seq<Frame>, list: seq<Block>)
    ensures Logs(PendingFrames(r, buffered, list))
            == PendingFrames(r.(live := Logs(r.live)), Logs(buffered), list)
  {
    LogsNotLoaded(Unique(r.live + buffered, {}), MaxSeq(r.events), list);
    LogsUnique(r.live + buffered, {}, {});
    LogsConcat(r.live, buffered);
  }

  /** The new frames of a response that knows the first `h` events, with the live list `a..b` and the frames
      `c..d` that arrived meanwhile: what is carried of the log behind the history, in order and each once. */
  lemma {:induction false} NewFrames(
      log: seq<Event>, r: Response, buffered: seq<Frame>, h: nat, a: nat, b: nat, c: nat, d: nat, list: seq<Block>)
    requires Numbered(log) && h <= |log| && MaxSeq(r.events) == SeqBefore(log, h)
    requires a <= b <= |log| && c <= d <= |log| && Logs(r.live) == RunOf(log, a, b) && Logs(buffered) == RunOf(log, c, d)
    requires a <= h && c <= Max(b, h)
    ensures Logs(PendingFrames(r, buffered, list)) == RunOf(log, h, Max(b, d))
  {
    LogsPending(r, buffered, list);
    TakenRuns(log, r.(live := RunOf(log, a, b)), h, a, b, c, d, list);
    RunsBehind(log, h, a, b, c, d);
  }

  // ---- The echo ------------------------------------------------------------------------------

  lemma {:induction false} UniqueHas(frames: seq<Frame>, seen: set<Frame>, f: Frame)
    ensures f in Unique(frames, seen) <==> f in frames && f !in seen
  {
    if frames != [] {
      assert frames == [frames[0]] + frames[1..];
      UniqueHas(frames[1..], if frames[0] in seen then seen else seen + {frames[0]}, f);
    }
  }

  lemma {:induction false} NotLoadedHas(frames: seq<Frame>, maxSeq: int, list: seq<Block>, f: Frame)
    ensures f in NotLoaded(frames, maxSeq, list) <==> f in frames && !AlreadyLoaded(f, maxSeq, list)
  {
    if frames != [] {
      assert frames == [frames[0]] + frames[1..];
      NotLoadedHas(frames[1..], maxSeq, list, f);
    }
  }

  /** The words of the user the turn in flight began with, if a message from the page began it: their echo is
      the first of its live list. */
  type Echo = Option<Body>

  function EchoFrames(echo: Echo): seq<Frame> { if echo.Some? then [Own(echo.value)] else [] }

  /** The echo is drawn on top of a list. */
  predicate EchoShown(list: seq<Block>, echo: Echo) {
    echo.Some? && echo.value.User? && NewestUser(list) != Some(echo.value.text)
  }

  function Greeted(list: seq<Block>, echo: Echo): seq<Block> {
    if EchoShown(list, echo) then Reduce(list, echo.value) else list
  }

  ghost predicate QuietBut(frames: seq<Frame>, echo: Echo) {
    forall f | f in frames :: f.Logged? || Silent(f) || f in EchoFrames(echo)
  }

  /** The echo is among the new frames if and only if the newest user block has other words; it comes first and
      once, and the rest is quiet. */
  lemma {:induction false} EchoFirst(r: Response, live: seq<Frame>, buffered: seq<Frame>, echo: Echo, list: seq<Block>)
    returns (rest: seq<Frame>)
    requires (echo.Some? ==> echo.value.User?) && r.live == EchoFrames(echo) + live
    requires QuietBut(live, echo) && QuietBut(buffered, echo)
    ensures PendingFrames(r, buffered, list)
            == (if EchoShown(list, echo) then EchoFrames(echo) else []) + rest
    ensures Quiet(rest)
  {
    var maxSeq, frames := MaxSeq(r.events), live + buffered;
    Assoc(EchoFrames(echo), live, buffered);
    NotLoadedConcat(EchoFrames(echo), frames, maxSeq, list);
    FilterFirst(EchoFrames(echo) + frames, {}, {}, maxSeq, list);
    var new_ := NotLoaded(frames, maxSeq, list);
    var seen: set<Frame> := if EchoShown(list, echo) then {Own(echo.value)} else {};
    rest := Unique(new_, seen);
    if echo.Some? {
      assert [Own(echo.value)][1..] == [] && NotLoaded([], maxSeq, list) == [];
      UniqueCons(Own(echo.value), new_, {});
      assert {} + {Own(echo.value)} == {Own(echo.value)};
    }
    assert [] + new_ == new_ && [] + rest == rest;
    forall f | f in rest ensures f.Logged? || Silent(f) {
      UniqueHas(new_, seen, f);
      NotLoadedHas(frames, maxSeq, list, f);
    }
  }

  // ---- A load and the stream after it --------------------------------------------------------

  /** Where in the log a load stands: its history is the first `h` events, its live list carries `a..b`, the
      stream carries `c..d` during the load and `d..e` after it. */
  datatype Moment = Moment(h: nat, a: nat, b: nat, c: nat, d: nat, e: nat)

  ghost predicate In(log: seq<Event>, m: Moment) {
    Numbered(log) && m.h <= |log| && m.a <= m.b <= |log| && m.c <= m.d <= m.e <= |log|
  }

  /** The history is not older than the live list's beginning, nor than that of the stream and the live list
      together. */
  predicate Covers(m: Moment) { m.a <= m.h && m.c <= Max(m.b, m.h) }

  /** The stream that goes on after the load is not behind the response. */
  predicate InStep(m: Moment) { m.h <= m.d && m.b <= m.d }

  /** What a page gets: the response to its load, with the live list `echo` begins if there is one, the frames
      set aside during the load and those received after it. */
  datatype Delivery = Delivery(response: Response, echo: Echo, live: seq<Frame>, buffered: seq<Frame>, after: seq<Frame>)

  ghost predicate Delivers(x: Delivery, log: seq<Event>, m: Moment)
    requires In(log, m)
  {
    && (x.echo.Some? ==> x.echo.value.User?)
    && x.response.live == EchoFrames(x.echo) + x.live
    && Logs(x.live) == RunOf(log, m.a, m.b) && QuietBut(x.live, x.echo)
    && Logs(x.buffered) == RunOf(log, m.c, m.d) && QuietBut(x.buffered, x.echo)
    && Logs(x.after) == RunOf(log, m.d, m.e) && Quiet(x.after)
  }

  function Session(p: Page, x: Delivery): Page {
    ReceiveAll(EndLoad(ReceiveAll(BeginLoad(p), x.buffered), x.response), x.after)
  }

  /** The list a load begins with, and the frames it finds new. */
  function Start(p: Page, x: Delivery): seq<Block> { Rebuilt(x.response, p.pending) }

  function Taken(p: Page, x: Delivery): seq<Frame> { PendingFrames(x.response, x.buffered, Start(p, x)) }

  /** What the page shows then: its new frames and those received later, on top of the history, the bubbles and
      the echo, whatever it showed before. */
  lemma {:induction false} SessionDraws(p: Page, x: Delivery, log: seq<Event>, m: Moment)
    requires In(log, m) && Delivers(x, log, m)
    ensures Session(p, x).blocks
            == Fold(Greeted(Start(p, x), x.echo), LogEvents(Logs(Taken(p, x))) + Carried(log[m.d..m.e]))
  {
    var begun, list := BeginLoad(p), Start(p, x);
    DeliverLoading(begun, x.buffered);
    assert [] + x.buffered == x.buffered;
    var start := Page(list, false, [], p.queued, StillPending(Fold([], x.response.events), p.pending), x.response.goal);
    var taken := Taken(p, x);
    var rest := EchoFirst(x.response, x.live, x.buffered, x.echo, list);
    var ended := ApplyAll(start, taken);
    TakesEcho(start, x.echo, rest);
    ReceivesApply(start, taken);
    ReceivesApply(ended, x.after);
    ApplyQuiet(ended, x.after);
    LogEventsOf(x.after);
    RunEvents(log, m.d, m.e);
    FoldConcat(Greeted(list, x.echo), LogEvents(Logs(taken)), Carried(log[m.d..m.e]));
  }

  lemma {:induction false} TakesEcho(start: Page, echo: Echo, rest: seq<Frame>)
    requires Quiet(rest) && (echo.Some? ==> echo.value.User?)
    ensures var taken := (if EchoShown(start.blocks, echo) then EchoFrames(echo) else []) + rest;
            ApplyAll(start, taken).blocks == Fold(Greeted(start.blocks, echo), LogEvents(Logs(taken)))
  {
    LogEventsOf(rest);
    if EchoShown(start.blocks, echo) {
      ApplyConcat(start, EchoFrames(echo), rest);
      ApplyOne(start, Own(echo.value));
      ApplyQuiet(Apply(start, Own(echo.value)), rest);
      LogsConcat(EchoFrames(echo), rest);
      assert Logs(EchoFrames(echo)) == Logs([]);
      assert [] + Logs(rest) == Logs(rest);
    } else {
      ApplyQuiet(start, rest);
      assert [] + rest == rest;
    }
  }

  lemma {:induction false} EchoNotLogged(echo: Echo, live: seq<Frame>)
    ensures Logs(EchoFrames(echo) + live) == Logs(live)
  {
    LogsConcat(EchoFrames(echo), live);
    assert echo.Some? ==> Logs(EchoFrames(echo)) == Logs([]);
    assert [] + Logs(live) == Logs(live);
  }

  /** With a history that knows its end: what is carried of the log behind the history, and then what the stream
      brings. */
  lemma {:induction false} SessionShows(p: Page, x: Delivery, log: seq<Event>, m: Moment)
    requires In(log, m) && Delivers(x, log, m) && Covers(m)
    requires MaxSeq(x.response.events) == SeqBefore(log, m.h)
    ensures var upTo := Max(m.h, Max(m.b, m.d));
            Session(p, x).blocks
            == Fold(Greeted(Start(p, x), x.echo), Carried(log[m.h..upTo]) + Carried(log[m.d..m.e]))
  {
    SessionDraws(p, x, log, m);
    EchoNotLogged(x.echo, x.live);
    NewFrames(log, x.response, x.buffered, m.h, m.a, m.b, m.c, m.d, Start(p, x));
    var upTo := Max(m.h, Max(m.b, m.d));
    assert RunOf(log, m.h, Max(m.b, m.d)) == RunOf(log, m.h, upTo);
    RunEvents(log, m.h, upTo);
  }

  // ---- Each event once -----------------------------------------------------------------------

  lemma {:induction false} RunIncludes(log: seq<Event>, i: nat, j: nat, k: nat)
    requires i <= k < j <= |log| && !log[k].body.User?
    ensures Logged(log[k]) in RunOf(log, i, j)
    decreases j - i
  {
    if i < k {
      RunIncludes(log, i + 1, j, k);
    }
  }

  lemma {:induction false} RunExcludes(log: seq<Event>, i: nat, j: nat, k: nat)
    requires Numbered(log) && k < |log| && (k < i || j <= k) && j <= |log|
    ensures Logged(log[k]) !in RunOf(log, i, j)
    decreases j - i
  {
    if i < j {
      RunExcludes(log, i + 1, j, k);
    }
  }

  lemma {:induction false} MoreCopies(a: seq<Frame>, b: seq<Frame>, f: Frame)
    ensures multiset(a + b)[f] == multiset(a)[f] + multiset(b)[f]
  {
    assert multiset(a + b) == multiset(a) + multiset(b);
  }

  lemma {:induction false} OneMore(first: Frame, rest: seq<Frame>, f: Frame)
    requires first !in rest && multiset(rest)[f] <= 1
    ensures multiset([first] + rest)[f] <= 1
  {
    MoreCopies([first], rest, f);
  }

  lemma {:induction false} RunOnce(log: seq<Event>, i: nat, j: nat, f: Frame)
    requires Numbered(log) && j <= |log|
    ensures multiset(RunOf(log, i, j))[f] <= 1
    decreases j - i
  {
    if i < j {
      var rest := RunOf(log, i + 1, j);
      RunOnce(log, i + 1, j, f);
      if log[i].body.User? {
        assert RunOf(log, i, j) == rest;
      } else {
        RunExcludes(log, i + 1, j, i);
        OneMore(Logged(log[i]), rest, f);
        assert RunOf(log, i, j) == [Logged(log[i])] + rest;
      }
    }
  }

  lemma {:induction false} EmptyRun(log: seq<Event>, i: nat, j: nat) returns (k: nat)
    requires j <= |log| && RunOf(log, i, j) != []
    ensures i <= k < j && !log[k].body.User?
    decreases j - i
  {
    if log[i].body.User? {
      k := EmptyRun(log, i + 1, j);
    } else {
      k := i;
    }
  }

  /** What the page is given behind the history is a run of the log, each event once, if and only if the stream
      that goes on after the load carries nothing the page has. */
  lemma {:induction false} EachOnce(log: seq<Event>, m: Moment)
    requires In(log, m)
    ensures var upTo := Max(m.h, Max(m.b, m.d));
            (exists n | m.h <= n <= |log| :: RunOf(log, m.h, upTo) + RunOf(log, m.d, m.e) == RunOf(log, m.h, n))
            <==> RunOf(log, m.d, Min(upTo, m.e)) == []
  {
    var upTo := Max(m.h, Max(m.b, m.d));
    if RunOf(log, m.d, Min(upTo, m.e)) == [] {
      RunsJoin(log, m.d, Min(upTo, m.e), m.e);
      assert [] + RunOf(log, upTo, m.e) == RunOf(log, upTo, m.e);
      RunsJoin(log, m.h, upTo, m.e);
      assert RunOf(log, m.h, upTo) + RunOf(log, m.d, m.e) == RunOf(log, m.h, Max(upTo, m.e));
    } else {
      var k := EmptyRun(log, m.d, Min(upTo, m.e));
      var f := Logged(log[k]);
      RunIncludes(log, m.d, m.e, k);
      var given := RunOf(log, m.h, upTo) + RunOf(log, m.d, m.e);
      MoreCopies(RunOf(log, m.h, upTo), RunOf(log, m.d, m.e), f);
      assert f in given;
      if m.h <= k {
        RunIncludes(log, m.h, upTo, k);
        assert multiset(given)[f] >= 2;
      }
      forall n | m.h <= n <= |log| ensures given != RunOf(log, m.h, n) {
        if k < m.h {
          RunExcludes(log, m.h, n, k);
        } else {
          RunOnce(log, m.h, n, f);
        }
      }
    }
  }

  // ---- The live view -------------------------------------------------------------------------

  /** What users say in the log, and what a block list shows of it. */
  function Spoken(events: seq<Event>): seq<Body> {
    if events == [] then []
    else if events[0].body.User? then [events[0].body] + Spoken(events[1..])
    else Spoken(events[1..])
  }

  function Words(list: seq<Block>): seq<Body> {
    if list == [] then []
    else
      Words(list[..|list| - 1])
      + if list[|list| - 1].UserBlock? then [User(list[|list| - 1].text, list[|list| - 1].at)] else []
  }

  lemma {:induction false} WordsSnoc(list: seq<Block>, block: Block)
    ensures Words(list + [block]) == Words(list) + if block.UserBlock? then [User(block.text, block.at)] else []
  {
    assert (list + [block])[..|list|] == list;
  }

  lemma {:induction false} ReduceSpeaks(list: seq<Block>, body: Body)
    ensures Words(Reduce(list, body)) == Words(list) + if body.User? then [body] else []
  {
    if body.User? || !IsOpen(list) {
      if body.User? || Opens(body) {
        WordsSnoc(list, Reduce(list, body)[|list|]);
      }
    } else if Opens(body) {
      var init, last := list[..|list| - 1], list[|list| - 1];
      assert list == init + [last];
      WordsSnoc(init, last);
      WordsSnoc(init, AgentBlock(Step(last.agent, body)));
    }
  }

  /** A list shows what users said, each time and in order. */
  lemma {:induction false} FoldSpeaks(list: seq<Block>, events: seq<Event>)
    ensures Words(Fold(list, events)) == Words(list) + Spoken(events)
    decreases |events|
  {
    if events != [] {
      ReduceSpeaks(list, events[0].body);
      FoldSpeaks(Reduce(list, events[0].body), events[1..]);
      if events[0].body.User? {
        Assoc(Words(list), [events[0].body], Spoken(events[1..]));
      }
    }
  }

  lemma {:induction false} CarriedSays(events: seq<Event>)
    ensures Spoken(Carried(events)) == []
    ensures Spoken(events) == [] ==> Carried(events) == events
  {
    if events != [] {
      CarriedSays(events[1..]);
      if !events[0].body.User? {
        assert ([events[0]] + Carried(events[1..]))[1..] == Carried(events[1..]);
      }
    }
  }

  /** The history holds the messages the page sent. */
  ghost predicate AllHeld(list: seq<Block>, pending: seq<Item>) { forall item | item in pending :: Holds(list, item.text) }

  lemma {:induction false} NoBubbles(list: seq<Block>, pending: seq<Item>)
    requires AllHeld(list, pending)
    ensures WithBubbles(list, pending) == list
    decreases |pending|
  {
    if pending != [] {
      assert pending[0] in pending && forall item | item in pending[1..] :: item in pending;
      NoBubbles(list, pending[1..]);
    }
  }

  lemma {:induction false} Slices(log: seq<Event>, h: nat, d: nat, e: nat)
    requires h <= d <= e <= |log|
    ensures log[h..d] + log[d..e] == log[h..e] && log[..h] + log[h..e] == log[..e]
  {
  }

  /** What a page shows that loads the log's first `h` events as they are: behind them, what is carried. */
  lemma {:induction false} PlainSession(p: Page, x: Delivery, log: seq<Event>, m: Moment)
    requires In(log, m) && Delivers(x, log, m) && Covers(m) && InStep(m)
    requires x.response.events == log[..m.h] && AllHeld(Fold([], log[..m.h]), p.pending)
    ensures Session(p, x).blocks == Fold(Greeted(Fold([], log[..m.h]), x.echo), Carried(log[m.h..m.e]))
  {
    MaxSeqOfPrefix(log, m.h);
    SessionShows(p, x, log, m);
    NoBubbles(Fold([], log[..m.h]), p.pending);
    CarriedOn(log, m);
  }

  lemma {:induction false} CarriedOn(log: seq<Event>, m: Moment)
    requires In(log, m) && InStep(m)
    ensures Max(m.h, Max(m.b, m.d)) == m.d
    ensures Carried(log[m.h..m.d]) + Carried(log[m.d..m.e]) == Carried(log[m.h..m.e])
  {
    Slices(log, m.h, m.d, m.e);
    CarriedConcat(log[m.h..m.d], log[m.d..m.e]);
  }

  /** The live view is the rebuilt view, the fold of the whole log, if and only if nobody speaks behind the
      history; unless the echo comes in. */
  lemma {:induction false} LiveIsRebuilt(p: Page, x: Delivery, log: seq<Event>, m: Moment)
    requires In(log, m) && Delivers(x, log, m) && Covers(m) && InStep(m)
    requires x.response.events == log[..m.h] && AllHeld(Fold([], log[..m.h]), p.pending)
    requires !EchoShown(Fold([], log[..m.h]), x.echo)
    ensures Session(p, x).blocks == Fold([], log[..m.e]) <==> Spoken(log[m.h..m.e]) == []
  {
    var list, rest := Fold([], log[..m.h]), log[m.h..m.e];
    PlainSession(p, x, log, m);
    Slices(log, m.h, m.h, m.e);
    FoldConcat([], log[..m.h], rest);
    CarriedSays(rest);
    FoldSpeaks(list, rest);
    FoldSpeaks(list, Carried(rest));
    SameWords(Words(list), Spoken(rest));
  }

  lemma {:induction false} SameWords(words: seq<Body>, more: seq<Body>)
    ensures words + [] == words + more <==> more == []
  {
    assert |words + more| == |words| + |more|;
  }

  /** Frames that open no block change none that is closed by a user's words, and none at all before that. */
  predicate NothingDrawn(events: seq<Event>) {
    events == [] || (!events[0].body.User? && !Opens(events[0].body) && NothingDrawn(events[1..]))
  }

  lemma {:induction false} NothingChanges(list: seq<Block>, events: seq<Event>)
    requires NothingDrawn(events)
    ensures Fold(list, events) == list && Carried(events) == events && Spoken(events) == []
    decreases |events|
  {
    if events != [] {
      NothingChanges(list, events[1..]);
    }
  }

  /** The echo in the place of the user's words: the live view is the rebuilt view if and only if the words and
      their time are the echo's, and nobody speaks after them. */
  lemma {:induction false} EchoStandsIn(p: Page, x: Delivery, log: seq<Event>, m: Moment, u: nat)
    requires In(log, m) && Delivers(x, log, m) && Covers(m) && InStep(m)
    requires x.response.events == log[..m.h] && AllHeld(Fold([], log[..m.h]), p.pending)
    requires EchoShown(Fold([], log[..m.h]), x.echo)
    requires m.h <= u < m.e && NothingDrawn(log[m.h..u]) && log[u].body.User?
    ensures Session(p, x).blocks == Fold([], log[..m.e])
            <==> log[u].body == x.echo.value && Spoken(log[u + 1..m.e]) == []
  {
    var list, rest := Fold([], log[..m.h]), log[u + 1..m.e];
    PlainSession(p, x, log, m);
    WordsApart(log, m.h, u, m.e);
    var said, heard := Reduce(list, log[u].body), Reduce(list, x.echo.value);
    NothingChanges(list, log[m.h..u]);
    NothingChanges(heard, log[m.h..u]);
    FoldConcat(heard, log[m.h..u], Carried(rest));
    EchoBehind(list, log[u].body, x.echo.value, rest);
  }

  lemma {:induction false} WordsApart(log: seq<Event>, h: nat, u: nat, e: nat)
    requires h <= u < e <= |log| && NothingDrawn(log[h..u]) && log[u].body.User?
    ensures Carried(log[h..e]) == log[h..u] + Carried(log[u + 1..e])
    ensures Fold([], log[..e]) == Fold(Reduce(Fold([], log[..h]), log[u].body), log[u + 1..e])
  {
    var list := Fold([], log[..h]);
    Slices(log, h, u, e);
    NothingChanges(list, log[h..u]);
    CarriedConcat(log[h..u], log[u..e]);
    assert log[u..e][0] == log[u] && log[u..e][1..] == log[u + 1..e];
    assert [] + Carried(log[u + 1..e]) == Carried(log[u + 1..e]);
    Slices(log, h, h, e);
    FoldConcat([], log[..h], log[h..e]);
    FoldConcat(list, log[h..u], log[u..e]);
  }

  lemma {:induction false} EchoBehind(list: seq<Block>, said: Body, heard: Body, rest: seq<Event>)
    requires said.User? && heard.User?
    ensures Fold(Reduce(list, heard), Carried(rest)) == Fold(Reduce(list, said), rest)
            <==> said == heard && Spoken(rest) == []
  {
    CarriedSays(rest);
    HeardWords(list, heard, Carried(rest));
    HeardWords(list, said, rest);
    SameMore(Words(list), heard, [], said, Spoken(rest));
  }

  lemma {:induction false} HeardWords(list: seq<Block>, body: Body, rest: seq<Event>)
    requires body.User?
    ensures Words(Fold(Reduce(list, body), rest)) == Words(list) + [body] + Spoken(rest)
  {
    ReduceSpeaks(list, body);
    FoldSpeaks(Reduce(list, body), rest);
  }

  lemma {:induction false} SameMore(words: seq<Body>, a: Body, x: seq<Body>, b: Body, y: seq<Body>)
    ensures words + [a] + x == words + [b] + y <==> a == b && x == y
  {
    if words + [a] + x == words + [b] + y {
      assert (words + [a] + x)[|words|] == a && (words + [b] + y)[|words|] == b;
      assert (words + [a] + x)[|words| + 1..] == x && (words + [b] + y)[|words| + 1..] == y;
    }
  }

  // ---- A stream behind the response ----------------------------------------------------------

  /** A frame of the stream that comes late is drawn on top of a history that has its event: live frames are not
      checked against what is loaded. */
  lemma {:induction false} LateStreamRedraws(p: Page, log: seq<Event>, goal: Option<string>, h: nat, d: nat)
    requires Numbered(log) && d < h <= |log| && !log[d].body.User? && AllHeld(Fold([], log[..h]), p.pending)
    ensures Session(p, Delivery(Response(log[..h], [], goal), None, [], [], [Logged(log[d])])).blocks
            == Reduce(Fold([], log[..h]), log[d].body)
  {
    var x := Delivery(Response(log[..h], [], goal), None, [], [], [Logged(log[d])]);
    var m := Moment(h, 0, 0, d, d, d + 1);
    MaxSeqOfPrefix(log, h);
    LateDelivery(x, log, m);
    SessionShows(p, x, log, m);
    NoBubbles(Fold([], log[..h]), p.pending);
    OneCarried(log, h, d);
  }

  lemma {:induction false} LateDelivery(x: Delivery, log: seq<Event>, m: Moment)
    requires In(log, m) && m.a == m.b && m.c == m.d && m.e == m.d + 1 && !log[m.d].body.User?
    requires x.response.live == [] && x.echo == None && x.live == [] && x.buffered == [] && x.after == [Logged(log[m.d])]
    ensures Delivers(x, log, m)
  {
    var f := Logged(log[m.d]);
    assert RunOf(log, m.d, m.e) == [f] + RunOf(log, m.e, m.e);
    assert Logs([f]) == [f] + Logs([]);
    assert [] + x.live == [];
  }

  lemma {:induction false} OneCarried(log: seq<Event>, h: nat, d: nat)
    requires d < h <= |log| && !log[d].body.User?
    ensures Carried(log[h..h]) + Carried(log[d..d + 1]) == [log[d]]
    ensures forall list :: Fold(list, [log[d]]) == Reduce(list, log[d].body)
  {
    assert log[h..h] == [] && log[d..d + 1] == [log[d]] && [log[d]][1..] == [];
    assert Carried([log[d]]) == [log[d]] + Carried([]);
  }

  /** So a call that comes late stands twice in its block, the second time without a result. */
  lemma {:induction false} LateCallTwice(list: seq<Block>, call: Body)
    requires call.ToolCall? && IsOpen(list)
    ensures var a, b := list[|list| - 1].agent, Reduce(list, call)[|list| - 1].agent;
            |Reduce(list, call)| == |list| && b.tools == a.tools + [Tool(call.name, call.arguments, false, false, "")]
  {
  }

  /** And a user's words are drawn a second time when their echo comes by the stream after the load, though in
      the live list it would have been left out. */
  lemma {:induction false} LateEchoRedraws(p: Page, events: seq<Event>, goal: Option<string>, echo: Body)
    requires echo.User? && p.pending == [] && NewestUser(Fold([], events)) == Some(echo.text)
    ensures var list := Fold([], events);
            && EndLoad(BeginLoad(p), Response(events, [Own(echo)], goal)).blocks == list
            && ReceiveAll(EndLoad(BeginLoad(p), Response(events, [], goal)), [Own(echo)]).blocks
               == list + [UserBlock(echo.text, Injected(echo.text, AfterUser(list)), echo.at)]
  {
    EchoExact(p, events, echo.text, echo.at, goal);
    var start := Page(Fold([], events), false, [], p.queued, [], goal);
    assert EndLoad(BeginLoad(p), Response(events, [], goal)) == start;
    ReceivesApply(start, [Own(echo)]);
    ApplyOne(start, Own(echo));
  }

  // ---- The manager's own frames --------------------------------------------------------------

  /** Applying a `turn_done` a second time adds an empty block, on any page. */
  lemma {:induction false} DoneTwiceAddsBlock(list: seq<Block>, done: Body)
    requires done.TurnDone?
    ensures var once := Reduce(list, done);
            && !IsOpen(once)
            && Reduce(once, done) == once + [AgentBlock(Step(NEW_AGENT, done))]
  {
  }

  lemma {:induction false} FoldSnoc(list: seq<Block>, events: seq<Event>)
    requires events != []
    ensures Fold(list, events) == Reduce(Fold(list, events[..|events| - 1]), events[|events| - 1].body)
  {
    var init, last := events[..|events| - 1], events[|events| - 1];
    assert events == init + [last];
    FoldConcat(list, init, [last]);
    assert Fold(Reduce(Fold(list, init), last.body), []) == Reduce(Fold(list, init), last.body);
  }

  /** The echo of a user's message after a load: left out if and only if the newest user block has its words. */
  lemma {:induction false} EchoExact(p: Page, events: seq<Event>, text: string, at: Option<int>, goal: Option<string>)
    requires p.pending == []
    ensures var list := Fold([], events);
            EndLoad(BeginLoad(p), Response(events, [Own(User(text, at))], goal)).blocks
            == if NewestUser(list) == Some(text) then list
               else list + [UserBlock(text, Injected(text, AfterUser(list)), at)]
  {
    var list := Fold([], events);
    var echo := Own(User(text, at));
    var r := Response(events, [echo], goal);
    assert [echo] + [] == [echo] && [echo][1..] == [];
    assert Unique([echo], {}) == [echo];
    assert NotLoaded([], MaxSeq(events), list) == [];
    var start := Page(list, false, [], p.queued, [], goal);
    assert ApplyAll(start, []) == start;
    if NewestUser(list) != Some(text) {
      assert NotLoaded([echo], MaxSeq(events), list) == [echo];
      assert ApplyAll(start, [echo]) == ApplyAll(Apply(start, echo), []);
    }
  }

  /** A message the history holds is drawn again by its echo when the host has put context behind it. */
  lemma {:induction false} EchoAfterContext(
      p: Page, events: seq<Event>, text: string, note: string, at: Option<int>, goal: Option<string>)
    requires p.pending == [] && text != note
    ensures var log := events + [Event(0, User(text, at)), Event(1, User(note, None))];
            var list := Fold([], log);
            EndLoad(BeginLoad(p), Response(log, [Own(User(text, at))], goal)).blocks
            == list + [UserBlock(text, true, at)]
  {
    var user, context := Event(0, User(text, at)), Event(1, User(note, None));
    var log := events + [user, context];
    FoldSnoc([], log);
    EchoExact(p, log, text, at, goal);
  }
}
