/** The messages a page waits with (public/assets/chat-wire.js:200-239, 280-307): those queued behind a running
    turn, in the dock, and those whose turn has begun, until the history has them.  None is lost.
 */
module Dock {
  import opened Options
  import opened Sequences
  import opened Frames
  import opened Reducer
  import opened Wire
  import opened WireLaws

  /** The messages of a page, in the order they were queued. */
  function Waiting(p: Page): seq<Item> { p.pending + p.queued }

  predicate StartsTurn(f: Frame) {
    (f.Logged? && f.event.body.TurnStart?) || (f.Own? && f.body.TurnStart?)
  }

  function QueuedBy(frames: seq<Frame>): seq<Item> {
    if frames == [] then []
    else if frames[0].Queued? then [Item(frames[0].text, None)] + QueuedBy(frames[1..])
    else QueuedBy(frames[1..])
  }

  // ---- Frames --------------------------------------------------------------------------------

  /** A frame leaves the waiting messages as they are, but for a queued one, which comes last; the start of a turn
      takes the first of the dock out of it. */
  lemma {:induction false} FrameKeepsWaiting(p: Page, f: Frame)
    ensures Waiting(Apply(p, f)) == Waiting(p) + QueuedBy([f])
    ensures |Apply(p, f).queued|
            == if f.Queued? then |p.queued| + 1 else if StartsTurn(f) && p.queued != [] then |p.queued| - 1 else |p.queued|
  {
    assert QueuedBy([f]) == if f.Queued? then [Item(f.text, None)] + QueuedBy([]) else QueuedBy([]);
  }

  lemma {:induction false} FramesKeepWaiting(p: Page, frames: seq<Frame>)
    ensures Waiting(ApplyAll(p, frames)) == Waiting(p) + QueuedBy(frames)
    decreases |frames|
  {
    if frames != [] {
      var f, rest := frames[0], frames[1..];
      FrameKeepsWaiting(p, f);
      FramesKeepWaiting(Apply(p, f), rest);
      QueuedCons(f, rest);
      assert frames == [f] + rest;
      Assoc(Waiting(p), QueuedBy([f]), QueuedBy(rest));
    }
  }

  lemma {:induction false} QueuedCons(f: Frame, rest: seq<Frame>)
    ensures QueuedBy([f] + rest) == QueuedBy([f]) + QueuedBy(rest)
  {
    assert ([f] + rest)[1..] == rest;
    assert QueuedBy([f]) == if f.Queued? then [Item(f.text, None)] + QueuedBy([]) else QueuedBy([]);
  }

  lemma {:induction false} QueuedHas(frames: seq<Frame>, id: string, text: string)
    requires Queued(id, text) in frames
    ensures Item(text, None) in QueuedBy(frames)
  {
    assert frames == [frames[0]] + frames[1..];
    if frames[0] != Queued(id, text) {
      QueuedHas(frames[1..], id, text);
    }
  }

  lemma {:induction false} ReduceHolds(list: seq<Block>, body: Body, text: string)
    requires Holds(list, text)
    ensures Holds(Reduce(list, body), text)
  {
    if body.User? || (Opens(body) && !IsOpen(list)) {
      HoldsSnoc(list, Reduce(list, body)[|list|], text);
    } else if Opens(body) {
      var init, last := list[..|list| - 1], list[|list| - 1];
      assert list == init + [last];
      HoldsSnoc(init, last, text);
      HoldsSnoc(init, AgentBlock(Step(last.agent, body)), text);
    }
  }

  lemma {:induction false} FramesHold(p: Page, frames: seq<Frame>, text: string)
    requires Holds(p.blocks, text)
    ensures Holds(ApplyAll(p, frames).blocks, text)
    decreases |frames|
  {
    if frames != [] {
      ReduceHolds(p.blocks, BodyOf(frames[0]), text);
      FramesHold(Apply(p, frames[0]), frames[1..], text);
    }
  }

  // ---- Frames and loads ----------------------------------------------------------------------

  datatype Op = Gets(frame: Frame) | Loads | Answered(response: Response)

  /** Loads come one after another. */
  predicate Enabled(p: Page, op: Op) {
    match op
    case Gets(_) => true
    case Loads => !p.loading
    case Answered(_) => p.loading
  }

  function Act(p: Page, op: Op): Page {
    match op
    case Gets(frame) => Receive(p, frame)
    case Loads => BeginLoad(p)
    case Answered(response) => EndLoad(p, response)
  }

  predicate Allowed(p: Page, ops: seq<Op>)
    decreases |ops|
  {
    ops == [] || (Enabled(p, ops[0]) && Allowed(Act(p, ops[0]), ops[1..]))
  }

  function After(p: Page, ops: seq<Op>): Page
    decreases |ops|
  {
    if ops == [] then p else After(Act(p, ops[0]), ops[1..])
  }

  /** The history of the newest response. */
  function Known(history: seq<Event>, op: Op): seq<Event> { if op.Answered? then op.response.events else history }

  /** Histories do not forget what users said. */
  ghost predicate Grows(history: seq<Event>, ops: seq<Op>)
    decreases |ops|
  {
    ops == [] ||
    ((forall text | Holds(Fold([], history), text) :: Holds(Fold([], Known(history, ops[0])), text))
     && Grows(Known(history, ops[0]), ops[1..]))
  }

  /** A message is waiting, or a load under way has set its frame aside, or the history has it. */
  ghost predicate Tracked(p: Page, history: seq<Event>, text: string) {
    || text in Texts(Waiting(p))
    || (p.loading && exists id :: Queued(id, text) in p.buffered)
    || Holds(Fold([], history), text)
  }

  /** The page shows what the history it was last given has. */
  ghost predicate Shows(p: Page, history: seq<Event>) {
    forall text | Holds(Fold([], history), text) :: Holds(p.blocks, text)
  }

  lemma {:induction false} TextsConcat(a: seq<Item>, b: seq<Item>)
    ensures Texts(a + b) == Texts(a) + Texts(b)
  {
  }

  lemma {:induction false} FrameTracks(p: Page, history: seq<Event>, f: Frame, text: string)
    requires Shows(p, history) && (Tracked(p, history, text) || (f.Queued? && f.text == text))
    ensures Shows(Receive(p, f), history) && Tracked(Receive(p, f), history, text)
  {
    if p.loading {
      assert f in p.buffered + [f] && forall g | g in p.buffered :: g in p.buffered + [f];
    } else {
      FrameKeepsWaiting(p, f);
      TextsConcat(Waiting(p), QueuedBy([f]));
      if f.Queued? && f.text == text {
        QueuedHas([f], f.id, text);
      }
      forall t | Holds(Fold([], history), t) ensures Holds(Apply(p, f).blocks, t) {
        ReduceHolds(p.blocks, BodyOf(f), t);
      }
    }
  }

  /** A load keeps what waits for the history, and takes up what was queued during it. */
  lemma {:induction false} LoadTracks(p: Page, history: seq<Event>, r: Response, text: string)
    requires p.loading && Tracked(p, history, text)
    requires Holds(Fold([], history), text) ==> Holds(Fold([], r.events), text)
    ensures Shows(EndLoad(p, r), r.events) && Tracked(EndLoad(p, r), r.events, text)
  {
    var base, list := Fold([], r.events), Rebuilt(r, p.pending);
    var frames := PendingFrames(r, p.buffered, list);
    var start := Page(list, false, [], p.queued, StillPending(base, p.pending), r.goal);
    BubblesComplete(base, p.pending);
    FramesKeepWaiting(start, frames);
    TextsConcat(p.pending, p.queued);
    TextsConcat(start.pending, start.queued);
    TextsConcat(Waiting(start), QueuedBy(frames));
    if p.loading && exists id :: Queued(id, text) in p.buffered {
      var id :| Queued(id, text) in p.buffered;
      UniqueHas(r.live + p.buffered, {}, Queued(id, text));
      NotLoadedHas(Unique(r.live + p.buffered, {}), MaxSeq(r.events), list, Queued(id, text));
      QueuedHas(frames, id, text);
    }
    forall t | Holds(base, t) ensures Holds(EndLoad(p, r).blocks, t) {
      FramesHold(start, frames, t);
    }
  }

  lemma {:induction false} StepTracks(p: Page, history: seq<Event>, op: Op, text: string)
    requires Shows(p, history) && Tracked(p, history, text) && Enabled(p, op)
    requires Holds(Fold([], history), text) ==> Holds(Fold([], Known(history, op)), text)
    ensures Shows(Act(p, op), Known(history, op)) && Tracked(Act(p, op), Known(history, op), text)
  {
    match op
    case Gets(f) => FrameTracks(p, history, f, text);
    case Loads =>
    case Answered(r) => LoadTracks(p, history, r, text);
  }

  lemma {:induction false} RunTracks(p: Page, history: seq<Event>, ops: seq<Op>, text: string)
    requires Shows(p, history) && Tracked(p, history, text) && Allowed(p, ops) && Grows(history, ops)
    ensures var p' := After(p, ops);
            !p'.loading ==> text in Texts(p'.pending) || text in Texts(p'.queued) || Holds(p'.blocks, text)
    decreases |ops|
  {
    if ops == [] {
      TextsConcat(p.pending, p.queued);
    } else {
      StepTracks(p, history, ops[0], text);
      RunTracks(Act(p, ops[0]), Known(history, ops[0]), ops[1..], text);
    }
  }

  /** No message is lost: after a frame that queues it, and any frames and loads that follow, a page that is not
      loading has it in the dock, among those it waits for, or in its blocks. */
  lemma {:induction false} QueuedIsKept(
      p: Page, history: seq<Event>, id: string, text: string, ops: seq<Op>)
    requires Shows(p, history)
    requires Allowed(Act(p, Gets(Queued(id, text))), ops) && Grows(history, ops)
    ensures var p' := After(Act(p, Gets(Queued(id, text))), ops);
            !p'.loading ==> text in Texts(p'.pending) || text in Texts(p'.queued) || Holds(p'.blocks, text)
  {
    FrameTracks(p, history, Queued(id, text), text);
    RunTracks(Act(p, Gets(Queued(id, text))), history, ops, text);
  }

  /** And so for a message that waits already. */
  lemma {:induction false} WaitingIsKept(p: Page, history: seq<Event>, text: string, ops: seq<Op>)
    requires Shows(p, history) && (text in Texts(p.pending) || text in Texts(p.queued))
    requires Allowed(p, ops) && Grows(history, ops)
    ensures var p' := After(p, ops);
            !p'.loading ==> text in Texts(p'.pending) || text in Texts(p'.queued) || Holds(p'.blocks, text)
  {
    TextsConcat(p.pending, p.queued);
    RunTracks(p, history, ops, text);
  }

  /** What still waits and is not in the history is drawn after a load. */
  lemma {:induction false} WaitingIsDrawn(p: Page, r: Response, text: string)
    requires text in Texts(p.pending)
    ensures Holds(EndLoad(p, r).blocks, text)
  {
    var list := Rebuilt(r, p.pending);
    BubblesComplete(Fold([], r.events), p.pending);
    FramesHold(Page(list, false, [], p.queued, StillPending(Fold([], r.events), p.pending), r.goal),
               PendingFrames(r, p.buffered, list), text);
  }
}
