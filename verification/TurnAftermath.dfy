/** Two decisions of a turn that hang on its counts: whether a reconnect keeps it alive
    (src/runner.ts:619-640), and what may still happen to it once it is over (src/runner.ts:280-311,
    413-425, 651-659).
 */
module TurnAftermath {
  import opened TurnBackstop

  lemma {:induction false} UnfoldRun(t: Turn, step: Step, rest: seq<Step>)
    ensures After(t, [step] + rest) == After(Do(t, step), rest)
    ensures Allowed(t, [step] + rest) <==> Enabled(t, step) && Allowed(Do(t, step), rest)
  {
  }

  // ---- Reconnect -----------------------------------------------------------------------------

  /** A turn kept alive has an ask that nothing the manager saw has resolved. */
  lemma {:induction false} ReconnectSound(t: Turn, asks: seq<string>)
    requires Right(t) && !t.finished && Enabled(t, Recovered(asks))
    ensures var t' := Do(t, Recovered(asks));
            && t'.unresolved == t.unresolved + Fresh(t.seen, asks)
            && (!t'.finished ==> t'.unresolved != {} || t'.unnamed > 0)
  {
    var before := t.(reconnects := Less(t.reconnects));
    AsksAdd(before, asks);
    StepKeepsRight(t, Recovered(asks));
    var t' := Do(t, Recovered(asks));
    assert t'.unresolved == HandleAsks(before, asks).unresolved;
    assert CountRight(t');
    assert |t'.unresolved| == 0 <==> t'.unresolved == {};
  }

  /** The manager's view agrees with the host: of the asks it saw, the unresolved ones are those still open. */
  predicate InStep(t: Turn) { t.unresolved == t.open * t.seen && t.unnamed == 0 }

  /** The count is exact: what is waited for are the unresolved asks, each once. */
  ghost predicate Counted(t: Turn) { t.awaiting == |t.unresolved| + t.unnamed }

  /** It stays so until an ask is resolved that is not unresolved: one never seen, or, on an outward turn, one
      counted off twice, by its decline and by its frame. */
  predicate Straight(t: Turn, step: Step) {
    match step
    case Deliver(Resolved(id)) => if id == "" then t.unnamed > 0 else id in t.unresolved
    case Declined(id, ok) => ok ==> id in t.unresolved
    case Deliver(TurnEnd) => false
    case _ => true
  }

  lemma {:induction false} HandleCounted(t: Turn, frame: Frame)
    requires Right(t) && Counted(t) && Straight(t, Deliver(frame))
    ensures Counted(Handle(t, frame))
  {
    match frame
    case Asked(id) =>
      AskAdds(t, id);
      AskLeaves(t, id);
    case Resolved(id) =>
      RemoveCount(t.unresolved, id);
      assert Counted(Track(t, frame));
    case _ =>
  }

  lemma {:induction false} StepCounted(t: Turn, step: Step)
    requires Right(t) && Counted(t) && Enabled(t, step) && Straight(t, step)
    ensures Counted(Do(t, step))
  {
    match step
    case Deliver(frame) => HandleCounted(t, frame);
    case Started(asks) => AsksCounted(t, asks);
    case Recovered(asks) => AsksCounted(t.(reconnects := Less(t.reconnects)), asks);
    case Declined(id, _) => RemoveCount(t.unresolved, id);
    case _ =>
  }

  lemma {:induction false} AsksCounted(t: Turn, asks: seq<string>)
    requires Right(t) && Counted(t)
    ensures Counted(HandleAsks(t, asks))
  {
    AsksAdd(t, asks);
    AsksLeave(t, asks);
  }

  predicate StraightRun(t: Turn, steps: seq<Step>)
    decreases |steps|
  {
    steps == [] || (Straight(t, steps[0]) && StraightRun(Do(t, steps[0]), steps[1..]))
  }

  /** On any turn, over every straight run: the count is exact throughout, whatever was asked, answered,
      declined or asked for again. */
  lemma {:induction false} RunsCounted(t: Turn, steps: seq<Step>)
    requires Right(t) && Counted(t) && Allowed(t, steps) && StraightRun(t, steps)
    ensures Right(After(t, steps)) && Counted(After(t, steps))
    decreases |steps|
  {
    if steps != [] {
      StepCounted(t, steps[0]);
      StepKeepsRight(t, steps[0]);
      RunsCounted(Do(t, steps[0]), steps[1..]);
    }
  }

  /** The waits and the unresolved asks a frame leaves, on any turn and in any state. */
  function WaitsAfter(t: Turn, frame: Frame): nat {
    match frame
    case Asked(id) => if id != "" && id in t.seen then t.awaiting else t.awaiting + 1
    case Resolved(id) => if t.awaiting > 0 then t.awaiting - 1 else 0
    case TurnEnd => 0
    case _ => t.awaiting
  }

  function UnresolvedAfter(t: Turn, frame: Frame): set<string> {
    match frame
    case Asked(id) => if id == "" || id in t.seen then t.unresolved else t.unresolved + {id}
    case Resolved(id) => if id == "" then t.unresolved else t.unresolved - {id}
    case _ => t.unresolved
  }

  lemma {:induction false} FrameCounts(t: Turn, frame: Frame)
    ensures Handle(t, frame).awaiting == WaitsAfter(t, frame)
    ensures Handle(t, frame).unresolved == UnresolvedAfter(t, frame)
  {
    match frame
    case Asked(id) => AskAdds(t, id);
    case Resolved(id) => ResolutionCounts(t, id);
    case _ => OthersCount(t, frame);
  }

  lemma {:induction false} OthersCount(t: Turn, frame: Frame)
    requires !frame.Asked? && !frame.Resolved?
    ensures Handle(t, frame).awaiting == WaitsAfter(t, frame)
    ensures Handle(t, frame).unresolved == t.unresolved
  {
  }

  lemma {:induction false} ResolutionCounts(t: Turn, id: string)
    ensures var t' := Track(t, Resolved(id));
            && t'.awaiting == WaitsAfter(t, Resolved(id)) && t'.unresolved == UnresolvedAfter(t, Resolved(id))
            && Arm(t').awaiting == t'.awaiting && Arm(t').unresolved == t'.unresolved
  {
  }

  /** Each step counts what it brings: a frame for itself, a decline that succeeds for one ask, a recovery for
      the asks it has not seen and those without an id. */
  function StepWaits(t: Turn, step: Step): nat {
    match step
    case Deliver(frame) => WaitsAfter(t, frame)
    case Declined(id, ok) => if ok then WaitsAfter(t, Resolved(id)) else t.awaiting
    case Started(asks) => t.awaiting + |Fresh(t.seen, asks)| + UnnamedIn(asks)
    case Recovered(asks) => t.awaiting + |Fresh(t.seen, asks)| + UnnamedIn(asks)
    case _ => t.awaiting
  }

  function StepUnresolved(t: Turn, step: Step): set<string> {
    match step
    case Deliver(frame) => UnresolvedAfter(t, frame)
    case Declined(id, ok) => if ok then t.unresolved - {id} else t.unresolved
    case Started(asks) => t.unresolved + Fresh(t.seen, asks)
    case Recovered(asks) => t.unresolved + Fresh(t.seen, asks)
    case _ => t.unresolved
  }

  predicate CountsStep(t: Turn, step: Step) {
    Do(t, step).awaiting == StepWaits(t, step) && Do(t, step).unresolved == StepUnresolved(t, step)
  }

  lemma {:induction false} StepCounts(t: Turn, step: Step)
    ensures CountsStep(t, step)
  {
    match step
    case Deliver(frame) => DeliveryCounts(t, frame);
    case Started(asks) => StartCounts(t, asks);
    case Recovered(asks) => RecoveryCounts(t, asks);
    case Declined(id, ok) => DeclineCounts(t, id, ok);
    case _ =>
  }

  lemma {:induction false} DeliveryCounts(t: Turn, frame: Frame)
    ensures CountsStep(t, Deliver(frame))
  {
    FrameCounts(t, frame);
  }

  lemma {:induction false} StartCounts(t: Turn, asks: seq<string>)
    ensures CountsStep(t, Started(asks))
  {
    AsksAdd(t, asks);
  }

  lemma {:induction false} DeclineCounts(t: Turn, id: string, ok: bool)
    ensures CountsStep(t, Declined(id, ok))
  {
  }

  lemma {:induction false} RecoveryCounts(t: Turn, asks: seq<string>)
    ensures CountsStep(t, Recovered(asks))
  {
    AsksAdd(t.(reconnects := Less(t.reconnects)), asks);
  }

  // ---- Decline timers ------------------------------------------------------------------------

  /** While an outward turn goes on, a timer runs for each unresolved ask no decline was sent for. */
  predicate Timed(t: Turn) { t.outward && !t.finished ==> t.declines == t.unresolved - t.attempted }

  /** Every timer that runs out finds its ask answerable. */
  predicate Answerable(steps: seq<Step>) {
    steps == [] || ((steps[0].GraceExpires? ==> steps[0].answerable) && Answerable(steps[1..]))
  }

  lemma {:induction false} HandleTimed(t: Turn, frame: Frame)
    requires Right(t) && Timed(t) && !t.finished && !frame.TurnEnd?
    ensures Timed(Handle(t, frame))
  {
    match frame
    case Asked(id) =>
      AskAdds(t, id);
      AskLeaves(t, id);
      AskTimed(t, id);
    case Resolved(id) => ResolvedTimed(t, id);
    case _ => OtherTimed(t, frame);
  }

  lemma {:induction false} ResolvedTimed(t: Turn, id: string)
    requires Right(t) && Timed(t) && !t.finished
    ensures Timed(Handle(t, Resolved(id)))
  {
    var t' := Track(t, Resolved(id));
    assert t'.outward == t.outward && t'.attempted == t.attempted && t'.finished == t.finished;
    assert id == "" ==> t'.unresolved == t.unresolved && t'.declines == t.declines;
  }

  lemma {:induction false} OtherTimed(t: Turn, frame: Frame)
    requires Timed(t) && !frame.TurnEnd? && !frame.Asked? && !frame.Resolved?
    ensures Timed(Handle(t, frame))
  {
  }

  lemma {:induction false} AskTimed(t: Turn, id: string)
    requires Right(t)
    ensures Handle(t, Asked(id)).attempted == t.attempted
    ensures id !in t.seen ==> id !in t.attempted
  {
    if id == "" || id !in t.seen {
      assert Track(Note(t, Asked(id)), Asked(id)).attempted == t.attempted;
    }
  }

  lemma {:induction false} AsksTimed(t: Turn, asks: seq<string>)
    requires Right(t) && Timed(t) && !t.finished
    ensures Timed(HandleAsks(t, asks)) && !HandleAsks(t, asks).finished
    decreases |asks|
  {
    AsksLeave(t, asks);
    if asks != [] {
      HandleTimed(t, Asked(asks[0]));
      HandleKeepsRight(t, Asked(asks[0]));
      AskLeaves(t, asks[0]);
      AsksTimed(Handle(t, Asked(asks[0])), asks[1..]);
    }
  }

  lemma {:induction false} StepTimed(t: Turn, step: Step)
    requires Right(t) && Timed(t) && Enabled(t, step) && (step.GraceExpires? ==> step.answerable)
    ensures Timed(Do(t, step))
  {
    if t.finished {
      StaysFinished(t, step);
    } else {
      match step
      case Deliver(TurnEnd) =>
      case Deliver(frame) => HandleTimed(t, frame);
      case Started(asks) => AsksTimed(t, asks);
      case Recovered(asks) => AsksTimed(t.(reconnects := Less(t.reconnects)), asks);
      case _ =>
    }
  }

  /** No ask of an outward turn is forgotten: over every run in which expired timers find their asks answerable,
      a timer runs for each unresolved ask no decline was sent for, until the turn is over. */
  lemma {:induction false} RunsTimed(t: Turn, steps: seq<Step>)
    requires Right(t) && Timed(t) && Allowed(t, steps) && Answerable(steps)
    ensures Timed(After(t, steps))
    decreases |steps|
  {
    if steps != [] {
      StepTimed(t, steps[0]);
      StepKeepsRight(t, steps[0]);
      RunsTimed(Do(t, steps[0]), steps[1..]);
    }
  }

  // ---- How a turn ends -----------------------------------------------------------------------

  /** What ends a turn that goes on. */
  predicate Ends(t: Turn, step: Step) {
    match step
    case Deliver(TurnEnd) => true
    case Recovered(asks) => t.awaiting + |Fresh(t.seen, asks)| + UnnamedIn(asks) == 0
    case SilenceFires => true
    case TimesOut => true
    case Stop => true
    case Fails => true
    case _ => false
  }

  /** The end of the turn at the host leaves nothing counted and no decline to come, on any turn. */
  lemma {:induction false} TurnEndClears(t: Turn)
    ensures var t' := Do(t, Deliver(TurnEnd));
            t'.finished && t'.awaiting == 0 && t'.tools == 0 && t'.declines == {}
  {
  }

  /** The steps that tell the host to cancel. */
  predicate Cancels(step: Step) { step.SilenceFires? || step.TimesOut? || step.Stop? }

  lemma {:induction false} StaysFinished(t: Turn, step: Step)
    requires t.finished
    ensures Do(t, step).finished
  {
    match step
    case Deliver(frame) => HandleLeaves(t, frame);
    case Started(asks) => AsksLeave(t, asks);
    case Recovered(asks) => AsksLeave(t.(reconnects := Less(t.reconnects)), asks);
    case _ =>
  }

  lemma {:induction false} HandleLeaves(t: Turn, frame: Frame)
    ensures var t' := Handle(t, frame);
            t'.finished == t.finished && t'.aborted == t.aborted && t'.cancelCalls == t.cancelCalls
  {
    match frame
    case Asked(id) => AskLeaves(t, id);
    case Resolved(id) => ResolvedLeaves(t, id);
    case _ =>
  }

  lemma {:induction false} ResolvedLeaves(t: Turn, id: string)
    ensures Leaves(t, Handle(t, Resolved(id)))
  {
    assert Leaves(t, Track(t, Resolved(id)));
  }

  /** A turn that goes on ends exactly by one of these, and with it its timers; it stays over. */
  lemma {:induction false} EndsExact(t: Turn, step: Step)
    requires Right(t) && Enabled(t, step)
    ensures Do(t, step).finished <==> t.finished || Ends(t, step)
    ensures !t.finished && Ends(t, step) ==> !Do(t, step).silence && Do(t, step).declines == {}
  {
    if t.finished {
      StaysFinished(t, step);
    } else {
      match step
      case Deliver(frame) => HandleLeaves(t, frame);
      case Started(asks) => AsksLeave(t, asks);
      case Recovered(asks) =>
        RecoveryDecides(t, asks);
        AsksLeave(t.(reconnects := Less(t.reconnects)), asks);
      case _ =>
    }
  }

  lemma {:induction false} CancelStep(t: Turn, step: Step)
    ensures Do(t, step).aborted <==> t.aborted || Cancels(step)
    ensures Do(t, step).cancelCalls == t.cancelCalls + if !t.aborted && Cancels(step) then 1 else 0
  {
    match step
    case Deliver(frame) => DeliveryCancels(t, frame);
    case Started(asks) => AsksLeave(t, asks);
    case Recovered(asks) => RecoveryCancels(t, asks);
    case SilenceFires => AbortCancels(t.(silence := false));
    case TimesOut => AbortCancels(t);
    case Stop => AbortCancels(t);
    case _ =>
  }

  lemma {:induction false} AbortCancels(t: Turn)
    ensures Abort(t).aborted && Abort(t).cancelCalls == t.cancelCalls + if t.aborted then 0 else 1
  {
  }

  lemma {:induction false} RecoveryCancels(t: Turn, asks: seq<string>)
    ensures Do(t, Recovered(asks)).aborted == t.aborted && Do(t, Recovered(asks)).cancelCalls == t.cancelCalls
  {
    AsksLeave(t.(reconnects := Less(t.reconnects)), asks);
  }

  lemma {:induction false} DeliveryCancels(t: Turn, frame: Frame)
    ensures Do(t, Deliver(frame)).aborted == t.aborted && Do(t, Deliver(frame)).cancelCalls == t.cancelCalls
  {
    HandleLeaves(t, frame);
  }

  predicate Cancelling(steps: seq<Step>) { steps != [] && (Cancels(steps[0]) || Cancelling(steps[1..])) }

  /** Over every run the host is told to cancel once if a stop, a time-out or a silence comes, and never
      otherwise. */
  lemma {:induction false} CancelledOnce(t: Turn, steps: seq<Step>)
    requires Allowed(t, steps) && !t.aborted
    ensures After(t, steps).cancelCalls == t.cancelCalls + if Cancelling(steps) then 1 else 0
    ensures After(t, steps).aborted <==> Cancelling(steps)
    decreases |steps|
  {
    if steps != [] {
      CancelStep(t, steps[0]);
      if Cancels(steps[0]) {
        StaysCancelled(Do(t, steps[0]), steps[1..]);
      } else {
        CancelledOnce(Do(t, steps[0]), steps[1..]);
      }
    }
  }

  lemma {:induction false} StaysCancelled(t: Turn, steps: seq<Step>)
    requires t.aborted
    ensures After(t, steps).cancelCalls == t.cancelCalls && After(t, steps).aborted
    decreases |steps|
  {
    if steps != [] {
      CancelStep(t, steps[0]);
      StaysCancelled(Do(t, steps[0]), steps[1..]);
    }
  }

  // ---- Tools ---------------------------------------------------------------------------------

  function ToolCalls(steps: seq<Step>): nat {
    if steps == [] then 0 else (if steps[0] == Deliver(ToolCall) then 1 else 0) + ToolCalls(steps[1..])
  }

  function ToolResults(steps: seq<Step>): nat {
    if steps == [] then 0 else (if steps[0] == Deliver(ToolResult) then 1 else 0) + ToolResults(steps[1..])
  }

  /** No result without a call open, and the turn goes on. */
  predicate Matched(t: Turn, steps: seq<Step>)
    decreases |steps|
  {
    steps == [] ||
    (steps[0] != Deliver(TurnEnd) && (steps[0] == Deliver(ToolResult) ==> t.tools > 0)
     && Matched(Do(t, steps[0]), steps[1..]))
  }

  lemma {:induction false} StepTools(t: Turn, step: Step)
    requires step != Deliver(TurnEnd) && (step == Deliver(ToolResult) ==> t.tools > 0)
    ensures Do(t, step).tools
            == t.tools + (if step == Deliver(ToolCall) then 1 else 0) - (if step == Deliver(ToolResult) then 1 else 0)
  {
    match step
    case Deliver(frame) => HandleTools(t, frame);
    case Started(asks) => AsksLeave(t, asks);
    case Recovered(asks) => AsksLeave(t.(reconnects := Less(t.reconnects)), asks);
    case _ =>
  }

  lemma {:induction false} HandleTools(t: Turn, frame: Frame)
    requires !frame.TurnEnd?
    ensures Handle(t, frame).tools
            == if frame.ToolCall? then t.tools + 1 else if frame.ToolResult? then Less(t.tools) else t.tools
  {
    match frame
    case Asked(id) => AskLeaves(t, id);
    case Resolved(id) => assert Track(t, frame).tools == t.tools;
    case _ =>
  }

  /** The tools counted are the calls without a result. */
  lemma {:induction false} ToolsCounted(t: Turn, steps: seq<Step>)
    requires Matched(t, steps)
    ensures After(t, steps).tools == t.tools + ToolCalls(steps) - ToolResults(steps)
    decreases |steps|
  {
    if steps != [] {
      StepTools(t, steps[0]);
      ToolsCounted(Do(t, steps[0]), steps[1..]);
    }
  }

  /** While the count is exact and the view in step, a reconnect that learns the open asks keeps the turn
      alive if and only if somebody is asked for at the host. */
  lemma {:induction false} ReconnectExact(t: Turn, asks: seq<string>)
    requires Right(t) && Counted(t) && InStep(t) && !t.finished
    requires t.reconnects > 0 && "" !in asks && Elements(asks) == t.open
    ensures Do(t, Recovered(asks)).finished <==> t.open == {}
  {
    RecoveryDecides(t, asks);
    NoneUnnamed(asks);
    NamedFresh(t.seen, asks);
    SplitOpen(t.open, t.seen);
  }

  lemma {:induction false} RecoveryDecides(t: Turn, asks: seq<string>)
    requires !t.finished
    ensures Do(t, Recovered(asks)).finished <==> t.awaiting + |Fresh(t.seen, asks)| + UnnamedIn(asks) == 0
  {
    var before := t.(reconnects := Less(t.reconnects));
    AsksAdd(before, asks);
    AsksLeave(before, asks);
    assert before.seen == t.seen && before.awaiting == t.awaiting;
  }

  lemma {:induction false} NamedFresh(seen: set<string>, asks: seq<string>)
    requires "" !in asks
    ensures Fresh(seen, asks) == Elements(asks) - seen
  {
  }

  lemma {:induction false} SplitOpen(open: set<string>, seen: set<string>)
    ensures |open * seen| + |open - seen| == 0 <==> open == {}
  {
  }

  lemma {:induction false} NoneUnnamed(asks: seq<string>)
    requires "" !in asks
    ensures UnnamedIn(asks) == 0
  {
    if asks != [] {
      assert asks[0] in asks;
      NoneUnnamed(asks[1..]);
    }
  }

  /** On any turn, outward or not and whatever was lost: a reconnect that learns the open asks decides rightly
      if and only if no wait is still counted when nothing is open, and, when something is, a wait is
      counted or an open ask is new to the turn. */
  lemma {:induction false} ReconnectRightExact(t: Turn, asks: seq<string>)
    requires !t.finished && "" !in asks && Elements(asks) == t.open
    ensures (Do(t, Recovered(asks)).finished <==> t.open == {})
            <==> (t.open == {} ==> t.awaiting == 0) && (t.open != {} ==> t.awaiting > 0 || !(t.open <= t.seen))
  {
    RecoveryDecides(t, asks);
    NoneUnnamed(asks);
    NamedFresh(t.seen, asks);
    NoneLeft(t.open, t.seen);
  }

  lemma {:induction false} NoneLeft(open: set<string>, seen: set<string>)
    ensures |open - seen| == 0 <==> open <= seen
  {
    if |open - seen| == 0 {
      forall id ensures id in open ==> id in seen {
        assert id in open && id !in seen ==> id in open - seen;
      }
    } else {
      var id :| id in open - seen;
    }
  }

  /** An ask closed while the stream was down, its resolution lost with it, keeps any turn that waits for it
      alive with nobody asked for. */
  lemma {:induction false} LostResolutionKeepsAlive(t: Turn, id: string)
    requires !t.finished && t.open == {id} && t.awaiting > 0
    ensures var t1 := Do(t, HostCloses(id));
            var t2 := Do(t1, Deliver(Reconnected));
            && Enabled(t1, Deliver(Reconnected)) && Enabled(t2, Recovered([]))
            && !Do(t2, Recovered([])).finished && Do(t2, Recovered([])).open == {}
  {
  }

  /** On an outward turn a declined ask is counted off twice, once by the decline and once by its frame: a
      reconnect then ends the turn although another ask is open and its copy comes back. */
  lemma {:induction false} DeclinedTwiceEndsTurn(t: Turn, id: string, other: string)
    requires Right(t) && t.outward && !t.finished && id != ""
    requires id in t.declining && t.awaiting == 2
    requires other in t.open && other in t.seen && other != id && other != ""
    ensures var t1 := Do(t, Declined(id, true));
            var t2 := Do(t1, Deliver(Resolved(id)));
            var t3 := Do(t2, Deliver(Reconnected));
            && Enabled(t, Declined(id, true)) && Enabled(t1, Deliver(Resolved(id))) && Enabled(t2, Deliver(Reconnected))
            && Enabled(t3, Recovered([other]))
            && Do(t3, Recovered([other])).finished && other in Do(t3, Recovered([other])).open
  {
    var t1 := Do(t, Declined(id, true));
    assert t1.awaiting == 1 && other in t1.open && other in t1.seen && !t1.finished;
    var t2 := Do(t1, Deliver(Resolved(id)));
    assert t2.awaiting == 0 && other in t2.open && other in t2.seen && !t2.finished;
    var t3 := Do(t2, Deliver(Reconnected));
    assert t3.awaiting == 0 && other in t3.open && other in t3.seen && !t3.finished;
    var t4 := t3.(reconnects := Less(t3.reconnects));
    assert Handle(t4, Asked(other)) == t4;
    assert [other][1..] == [];
    assert HandleAsks(t4, [other]) == HandleAsks(t4, []);
  }

  /** Any outward turn that is asked two things gets to where that happens. */
  lemma {:induction false} TwoAsksDeclineOne(t: Turn, id: string, other: string)
    requires Right(t) && t.outward && !t.finished && t.awaiting == 0
    requires id != other && id != "" && other != "" && id in t.open && other in t.open && id !in t.seen && other !in t.seen
    ensures var t1 := Do(t, Deliver(Asked(id)));
            var t2 := Do(t1, Deliver(Asked(other)));
            var t3 := Do(t2, GraceExpires(id, true));
            && Enabled(t, Deliver(Asked(id))) && Enabled(t1, Deliver(Asked(other))) && Enabled(t2, GraceExpires(id, true))
            && t3.outward && !t3.finished && id in t3.declining && t3.awaiting == 2
            && other in t3.open && other in t3.seen
  {
    AskAdds(t, id);
    AskLeaves(t, id);
    var t1 := Handle(t, Asked(id));
    AskAdds(t1, other);
    AskLeaves(t1, other);
  }

  // ---- After the end -------------------------------------------------------------------------

  /** A turn that is over grows a decline timer again if and only if it is an outward one and a recovery
      still in flight brings an ask it had not seen. */
  lemma {:induction false} DeclinesAfterEnd(t: Turn, step: Step)
    requires Right(t) && t.finished && t.declines == {} && Enabled(t, step)
    ensures Do(t, step).declines != {}
            <==> t.outward && (step.Started? || step.Recovered?) && Fresh(t.seen, step.asks) != {}
  {
    match step
    case Started(asks) => RecoveryDeclines(t, asks);
    case Recovered(asks) => RecoveryDeclines(t.(reconnects := Less(t.reconnects)), asks);
    case SilenceFires =>
    case Declined(_, _) =>
    case _ =>
  }

  lemma {:induction false} RecoveryDeclines(t: Turn, asks: seq<string>)
    requires t.declines == {} && t.finished
    ensures HandleAsks(t, asks).declines == if t.outward then Fresh(t.seen, asks) else {}
    ensures HandleAsks(t, asks).finished
  {
    AsksAdd(t, asks);
    AsksLeave(t, asks);
  }

  lemma {:induction false} EndsRecovering(t: Turn)
    requires !t.finished
    ensures var t1 := Do(t, Deliver(Reconnected));
            var t2 := Do(t1, Deliver(TurnEnd));
            && Enabled(t, Deliver(Reconnected)) && Enabled(t1, Deliver(TurnEnd))
            && t2.finished && t2.declines == {} && t2.reconnects > 0 && t2.outward == t.outward && t2.seen == t.seen
  {
  }

  lemma {:induction false} LateRecovery(t: Turn, id: string)
    requires t.outward && t.finished && t.declines == {} && t.reconnects > 0 && id != "" && id !in t.seen
    ensures var asked := Do(t, HostOpens(id));
            && Enabled(t, HostOpens(id)) && Enabled(asked, Recovered([id]))
            && Do(asked, Recovered([id])).finished && Do(asked, Recovered([id])).declines == {id}
  {
    var asked := Do(t, HostOpens(id));
    assert Elements([id]) == {id};
    RecoveryDeclines(asked.(reconnects := Less(asked.reconnects)), [id]);
  }

  /** Any outward turn gets there whose stream reconnects just before its end, if an ask opens before the
      recovery answers. */
  lemma {:induction false} DeclinesAfterEndReached(t: Turn, id: string)
    requires t.outward && !t.finished && id != "" && id !in t.seen
    ensures var ended := Do(Do(t, Deliver(Reconnected)), Deliver(TurnEnd));
            && Enabled(t, Deliver(Reconnected)) && Enabled(Do(t, Deliver(Reconnected)), Deliver(TurnEnd))
            && ended.finished && ended.declines == {}
            && Enabled(ended, HostOpens(id)) && Enabled(Do(ended, HostOpens(id)), Recovered([id]))
            && Do(Do(ended, HostOpens(id)), Recovered([id])).declines == {id}
  {
    EndsRecovering(t);
    LateRecovery(Do(Do(t, Deliver(Reconnected)), Deliver(TurnEnd)), id);
  }

  /** What arms the backstop of a turn that is over: a decline that succeeds late, or a recovery. */
  predicate Rearms(t: Turn, step: Step) {
    match step
    case Declined(_, ok) => ok
    case Started(asks) =>
      t.outward || (t.awaiting == 0 && t.tools == 0 && Fresh(t.seen, asks) == {} && UnnamedIn(asks) == 0)
    case Recovered(asks) => t.outward && (Fresh(t.seen, asks) != {} || UnnamedIn(asks) > 0)
    case _ => false
  }

  lemma {:induction false} SilenceAfterEnd(t: Turn, step: Step)
    requires Right(t) && t.finished && !t.silence && t.backstop && Enabled(t, step)
    ensures Do(t, step).silence <==> Rearms(t, step)
  {
    match step
    case Started(asks) =>
      AsksAdd(t, asks);
      AsksLeave(t, asks);
    case Recovered(asks) => RecoverySilence(t.(reconnects := Less(t.reconnects)), asks);
    case Declined(id, ok) =>
    case _ =>
  }

  lemma {:induction false} RecoverySilence(t: Turn, asks: seq<string>)
    requires Right(t) && !t.silence && t.backstop && t.finished
    ensures HandleAsks(t, asks).silence <==> t.outward && (Fresh(t.seen, asks) != {} || UnnamedIn(asks) > 0)
    ensures HandleAsks(t, asks).finished
    decreases |asks|
  {
    AsksLeave(t, asks);
    if asks != [] {
      FreshSplit(t.seen, asks);
      var t1 := Handle(t, Asked(asks[0]));
      HandleKeepsRight(t, Asked(asks[0]));
      AskAdds(t, asks[0]);
      AskLeaves(t, asks[0]);
      if t1.silence {
        StaysArmed(t1, asks[1..]);
      } else {
        RecoverySilence(t1, asks[1..]);
      }
    }
  }

  lemma {:induction false} StaysArmed(t: Turn, asks: seq<string>)
    requires t.outward && t.silence
    ensures HandleAsks(t, asks).silence
    decreases |asks|
  {
    if asks != [] {
      AskLeaves(t, asks[0]);
      StaysArmed(Handle(t, Asked(asks[0])), asks[1..]);
    }
  }

  /** A backstop armed after the end fires into the session: the host is told to cancel what it runs by
      then.  On an outward turn a decline still in flight at the end suffices. */
  lemma {:induction false} LateCancel(t: Turn, id: string)
    requires Right(t) && t.finished && !t.aborted && t.backstop && id in t.declining
    ensures var t1 := Do(t, Declined(id, true));
            Enabled(t, Declined(id, true)) && Enabled(t1, SilenceFires)
            && Do(t1, SilenceFires).cancelCalls == t.cancelCalls + 1
  {
  }

  /** Such a turn exists. */
  lemma {:induction false} LateCancelReached()
    ensures var steps := [Started([])] + ([HostOpens("a")] + ([Deliver(Asked("a"))] + ([GraceExpires("a", true)]
                         + ([Deliver(TurnEnd)] + []))));
            var t := After(NewTurn(true, true), steps);
            Allowed(NewTurn(true, true), steps) && t.finished && !t.aborted && "a" in t.declining
  {
    var t1 := Do(NewTurn(true, true), Started([]));
    var t2 := Do(t1, HostOpens("a"));
    var t3 := Do(t2, Deliver(Asked("a")));
    assert "a" in t3.declines && !t3.finished && !t3.aborted;
    var t4 := Do(t3, GraceExpires("a", true));
    assert "a" in t4.declining && !t4.finished && !t4.aborted;
    var t5 := Do(t4, Deliver(TurnEnd));
    assert "a" in t5.declining && t5.finished && !t5.aborted;
    UnfoldRun(t4, Deliver(TurnEnd), []);
    UnfoldRun(t3, GraceExpires("a", true), [Deliver(TurnEnd)] + []);
    UnfoldRun(t2, Deliver(Asked("a")), [GraceExpires("a", true)] + ([Deliver(TurnEnd)] + []));
    UnfoldRun(t1, HostOpens("a"), [Deliver(Asked("a"))] + ([GraceExpires("a", true)] + ([Deliver(TurnEnd)] + [])));
    UnfoldRun(NewTurn(true, true), Started([]),
              [HostOpens("a")] + ([Deliver(Asked("a"))] + ([GraceExpires("a", true)] + ([Deliver(TurnEnd)] + []))));
  }

  /** Over, with no timer and no request in flight. */
  predicate Quiet(t: Turn) {
    t.finished && !t.silence && t.declines == {} && t.declining == {} && !t.starting && t.reconnects == 0
  }

  predicate NoStop(steps: seq<Step>) { steps == [] || (!steps[0].Stop? && NoStop(steps[1..])) }

  /** A turn that ends with nothing in flight stays quiet; only the user can still have it cancelled. */
  lemma {:induction false} QuietForGood(t: Turn, steps: seq<Step>)
    requires Quiet(t) && Allowed(t, steps) && NoStop(steps)
    ensures Quiet(After(t, steps)) && After(t, steps).cancelCalls == t.cancelCalls
    decreases |steps|
  {
    if steps != [] {
      QuietForGood(Do(t, steps[0]), steps[1..]);
    }
  }
}
