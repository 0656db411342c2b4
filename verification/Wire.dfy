/** A chat page's wire layer (public/assets/chat-wire.js, public/assets/ui.js:146-155): a fetched history
    and the frames of a live stream brought together into one block list.

    The run rows attached to the blocks after a rebuild, the cards and the drawing itself are not part of
    this model.
 */
module Wire {
  import opened Options
  import opened Sequences
  import opened Frames
  import opened Reducer

  /** A frame of the stream: an event of the session's log with its sequence number, one of the manager's own
      without one, a change of the goal, which is numbered too (0 where the host gives no number), or a frame
      about something else. */
  datatype Frame =
    | Logged(event: Event)
    | Own(body: Body)
    | Queued(id: string, text: string)
    | Goal(seqNo: int, goal: Option<string>)
    | Aside                              // hello, composer_state, delegation_done

  datatype Item = Item(text: string, at: Option<int>)

  datatype Response = Response(events: seq<Event>, live: seq<Frame>, goal: Option<string>)

  function BodyOf(frame: Frame): Body {
    match frame
    case Logged(event) => event.body
    case Own(body) => body
    case Queued(_, _) => Other("turn_queued")
    case Goal(_, _) => Other("goal")
    case Aside => Other("")
  }

  // ---- Which frames of a response are new ----------------------------------------------------

  function MaxSeq(events: seq<Event>): int {
    if events == [] then -1
    else
      var max := MaxSeq(events[..|events| - 1]);
      var e := events[|events| - 1];
      if e.seqNo > max then e.seqNo else max
  }

  /** The text of the newest user block. */
  function NewestUser(list: seq<Block>): Option<string> {
    if list == [] then None
    else if list[|list| - 1].UserBlock? then Some(list[|list| - 1].text)
    else NewestUser(list[..|list| - 1])
  }

  predicate AlreadyLoaded(frame: Frame, maxSeq: int, list: seq<Block>) {
    match frame
    case Logged(event) => event.seqNo <= maxSeq
    case Goal(seqNo, _) => seqNo <= maxSeq
    case Own(User(text, _)) => NewestUser(list) == Some(text)
    case _ => false
  }

  /** The frames not in `seen`, each once, at its first place. */
  function Unique(frames: seq<Frame>, seen: set<Frame>): seq<Frame> {
    if frames == [] then []
    else if frames[0] in seen then Unique(frames[1..], seen)
    else [frames[0]] + Unique(frames[1..], seen + {frames[0]})
  }

  function NotLoaded(frames: seq<Frame>, maxSeq: int, list: seq<Block>): seq<Frame> {
    if frames == [] then []
    else (if AlreadyLoaded(frames[0], maxSeq, list) then [] else [frames[0]]) + NotLoaded(frames[1..], maxSeq, list)
  }

  predicate Holds(list: seq<Block>, text: string) {
    list != [] && ((list[0].UserBlock? && list[0].text == text) || Holds(list[1..], text))
  }

  /** The rebuilt list with the bubbles of messages the history does not hold yet. */
  function WithBubbles(list: seq<Block>, pending: seq<Item>): seq<Block>
    decreases |pending|
  {
    if pending == [] then list
    else if Holds(list, pending[0].text) then WithBubbles(list, pending[1..])
    else WithBubbles(list + [UserBlock(pending[0].text, false, pending[0].at)], pending[1..])
  }

  function Rebuilt(r: Response, pending: seq<Item>): seq<Block> {
    WithBubbles(Fold([], r.events), pending)
  }

  function PendingFrames(r: Response, buffered: seq<Frame>, list: seq<Block>): seq<Frame> {
    NotLoaded(Unique(r.live + buffered, {}), MaxSeq(r.events), list)
  }

  /** The bubbles that are still needed. */
  function StillPending(list: seq<Block>, pending: seq<Item>): seq<Item>
    decreases |pending|
  {
    if pending == [] then []
    else if Holds(list, pending[0].text) then StillPending(list, pending[1..])
    else
      [pending[0]] + StillPending(list + [UserBlock(pending[0].text, false, pending[0].at)], pending[1..])
  }

  lemma {:induction false} HoldsSnoc(list: seq<Block>, block: Block, text: string)
    ensures Holds(list + [block], text) <==> Holds(list, text) || (block.UserBlock? && block.text == text)
  {
    if list == [] {
      assert [] + [block] == [block] && [block][1..] == [];
    } else {
      assert (list + [block])[1..] == list[1..] + [block];
      HoldsSnoc(list[1..], block, text);
    }
  }

  function Texts(items: seq<Item>): set<string> { set item | item in items :: item.text }

  /** No message sent from the page goes missing in a rebuild: every text is in the list, and those still
      pending afterwards are the ones the history does not hold, each text once. */
  lemma {:induction false} BubblesComplete(list: seq<Block>, pending: seq<Item>)
    ensures forall text :: Holds(WithBubbles(list, pending), text) <==> Holds(list, text) || text in Texts(pending)
    ensures forall text :: text in Texts(StillPending(list, pending)) <==> text in Texts(pending) && !Holds(list, text)
    ensures |WithBubbles(list, pending)| == |list| + |StillPending(list, pending)|
    ensures |StillPending(list, pending)| == |Texts(StillPending(list, pending))|
    decreases |pending|
  {
    if pending == [] {
      assert Texts(pending) == {};
    } else {
      var p, rest := pending[0], pending[1..];
      assert pending == [p] + rest;
      assert Texts(pending) == {p.text} + Texts(rest);
      if Holds(list, p.text) {
        BubblesComplete(list, rest);
      } else {
        var bubble := UserBlock(p.text, false, p.at);
        BubblesComplete(list + [bubble], rest);
        forall text ensures Holds(list + [bubble], text) <==> Holds(list, text) || text == p.text {
          HoldsSnoc(list, bubble, text);
        }
        var still := StillPending(list + [bubble], rest);
        assert StillPending(list, pending) == [p] + still;
        assert Texts([p] + still) == {p.text} + Texts(still);
        assert p.text !in Texts(still);
      }
    }
  }

  // ---- The page ------------------------------------------------------------------------------

  /** What the wire layer writes: the blocks, the buffer of a load under way, the messages queued behind a
      running turn, those sent but not in the history yet, and the goal line. */
  datatype Page = Page(
    blocks: seq<Block>, loading: bool, buffered: seq<Frame>, queued: seq<Item>, pending: seq<Item>, goal: Option<string>)

  /** One frame on a page that is not loading. */
  function Apply(p: Page, frame: Frame): Page {
    match frame
    case Queued(_, text) => p.(queued := p.queued + [Item(text, None)])
    case Goal(_, goal) => p.(goal := goal)
    case Aside => p
    case _ =>
      var p' := p.(blocks := Reduce(p.blocks, BodyOf(frame)));
      if BodyOf(frame).TurnStart? && p.queued != []
      then p'.(queued := p.queued[1..], pending := p.pending + [p.queued[0]])
      else p'
  }

  function ApplyAll(p: Page, frames: seq<Frame>): Page
    decreases |frames|
  {
    if frames == [] then p else ApplyAll(Apply(p, frames[0]), frames[1..])
  }

  /** `handleFrame`. */
  function Receive(p: Page, frame: Frame): Page {
    if p.loading && !frame.Aside? then p.(buffered := p.buffered + [frame]) else Apply(p, frame)
  }

  function ReceiveAll(p: Page, frames: seq<Frame>): Page
    decreases |frames|
  {
    if frames == [] then p else ReceiveAll(Receive(p, frames[0]), frames[1..])
  }

  /** The two halves of `load`, before and after its request. */
  function BeginLoad(p: Page): Page { p.(loading := true, buffered := []) }

  function EndLoad(p: Page, r: Response): Page {
    var rebuilt := Rebuilt(r, p.pending);
    ApplyAll(
      Page(rebuilt, false, [], p.queued, StillPending(Fold([], r.events), p.pending), r.goal),
      PendingFrames(r, p.buffered, rebuilt))
  }

  // ---- The program ---------------------------------------------------------------------------

  lemma {:induction false} ApplyConcat(p: Page, a: seq<Frame>, b: seq<Frame>)
    ensures ApplyAll(p, a + b) == ApplyAll(ApplyAll(p, a), b)
    decreases |a|
  {
    if a == [] {
      assert a + b == b;
    } else {
      assert (a + b)[1..] == a[1..] + b;
      ApplyConcat(Apply(p, a[0]), a[1..], b);
    }
  }

  lemma {:induction false} ApplyOne(p: Page, frame: Frame)
    ensures ApplyAll(p, [frame]) == Apply(p, frame)
  {
  }

  /** `uniqueFrames`. */
  method UniqueFrames(frames: seq<Frame>) returns (out: seq<Frame>)
    ensures out == Unique(frames, {})
  {
    out := [];
    var seen: set<Frame> := {};
    for i := 0 to |frames|
      invariant Unique(frames, {}) == out + Unique(frames[i..], seen)
    {
      assert frames[i..][0] == frames[i] && frames[i..][1..] == frames[i + 1..];
      if frames[i] !in seen {
        seen := seen + {frames[i]};
        out := out + [frames[i]];
      }
    }
  }

  lemma {:induction false} NotLoadedCons(frame: Frame, rest: seq<Frame>, maxSeq: int, list: seq<Block>)
    ensures NotLoaded([frame] + rest, maxSeq, list)
            == if AlreadyLoaded(frame, maxSeq, list) then NotLoaded(rest, maxSeq, list)
               else [frame] + NotLoaded(rest, maxSeq, list)
  {
  }

  method FilterNew(frames: seq<Frame>, maxSeq: int, list: seq<Block>) returns (out: seq<Frame>)
    ensures out == NotLoaded(frames, maxSeq, list)
  {
    out := [];
    for i := 0 to |frames|
      invariant NotLoaded(frames, maxSeq, list) == out + NotLoaded(frames[i..], maxSeq, list)
    {
      assert frames[i..] == [frames[i]] + frames[i + 1..];
      NotLoadedCons(frames[i], frames[i + 1..], maxSeq, list);
      if !AlreadyLoaded(frames[i], maxSeq, list) {
        Assoc(out, [frames[i]], NotLoaded(frames[i + 1..], maxSeq, list));
        out := out + [frames[i]];
      }
    }
  }

  method HighestSeq(events: seq<Event>) returns (max: int)
    ensures max == MaxSeq(events)
  {
    max := -1;
    for i := 0 to |events|
      invariant max == MaxSeq(events[..i])
    {
      assert events[..i + 1][..i] == events[..i];
      if events[i].seqNo > max {
        max := events[i].seqNo;
      }
    }
    assert events[..|events|] == events;
  }

  /** The boxes the wire layer writes to. */
  class ChatPage {
    var blocks: seq<Block>
    var loading: bool
    var buffered: seq<Frame>
    var queuedItems: seq<Item>
    var pendingUserTexts: seq<Item>
    var goal: Option<string>

    function View(): Page
      reads this
    {
      Page(blocks, loading, buffered, queuedItems, pendingUserTexts, goal)
    }

    constructor ()
      ensures View() == Page([], false, [], [], [], None)
    {
      blocks, loading, buffered, queuedItems, pendingUserTexts, goal := [], false, [], [], [], None;
    }

    method ApplyFrame(frame: Frame)
      modifies this
      ensures View() == Apply(old(View()), frame)
    {
      if frame.Queued? {
        queuedItems := queuedItems + [Item(frame.text, None)];
      } else if frame.Goal? {
        goal := frame.goal;
      } else if !frame.Aside? {
        if BodyOf(frame).TurnStart? && queuedItems != [] {
          pendingUserTexts := pendingUserTexts + [queuedItems[0]];
          queuedItems := queuedItems[1..];
        }
        blocks := Reduce(blocks, BodyOf(frame));
      }
    }

    /** `handleFrame`; a `turn_done` also asks for a reload, which is `StartLoad` again. */
    method HandleFrame(frame: Frame)
      modifies this
      ensures View() == Receive(old(View()), frame)
    {
      if loading && !frame.Aside? {
        buffered := buffered + [frame];
        return;
      }
      ApplyFrame(frame);
    }

    method StartLoad()
      modifies this`loading, this`buffered
      ensures View() == BeginLoad(old(View()))
    {
      loading := true;
      buffered := [];
    }

    /** The rest of `load`, once the response is there. */
    method FinishLoad(r: Response)
      modifies this
      ensures View() == EndLoad(old(View()), r)
    {
      var maxSeq := HighestSeq(r.events);
      var rebuilt := BuildWithBubbles(r.events);
      var all := UniqueFrames(r.live + buffered);
      var frames := FilterNew(all, maxSeq, rebuilt);
      blocks, goal, buffered, loading := rebuilt, r.goal, [], false;
      ApplyFrames(frames);
    }

    method ApplyFrames(frames: seq<Frame>)
      modifies this
      ensures View() == ApplyAll(old(View()), frames)
    {
      ghost var start := View();
      for i := 0 to |frames|
        invariant View() == ApplyAll(start, frames[..i])
      {
        assert frames[..i + 1] == frames[..i] + [frames[i]];
        ApplyConcat(start, frames[..i], [frames[i]]);
        ApplyOne(ApplyAll(start, frames[..i]), frames[i]);
        ApplyFrame(frames[i]);
      }
      assert frames[..|frames|] == frames;
    }

    method BuildWithBubbles(events: seq<Event>) returns (rebuilt: seq<Block>)
      modifies this`pendingUserTexts
      ensures rebuilt == WithBubbles(Fold([], events), old(pendingUserTexts))
      ensures pendingUserTexts == StillPending(Fold([], events), old(pendingUserTexts))
    {
      var built := Fold([], events);
      rebuilt := built;
      var pending := pendingUserTexts;
      var stillPending: seq<Item> := [];
      for i := 0 to |pending|
        invariant WithBubbles(rebuilt, pending[i..]) == WithBubbles(built, pending)
        invariant StillPending(built, pending) == stillPending + StillPending(rebuilt, pending[i..])
      {
        assert pending[i..][0] == pending[i] && pending[i..][1..] == pending[i + 1..];
        if !Holds(rebuilt, pending[i].text) {
          rebuilt := rebuilt + [UserBlock(pending[i].text, false, pending[i].at)];
          stillPending := stillPending + [pending[i]];
        }
      }
      pendingUserTexts := stillPending;
    }
  }
}
