/** One turn and its timers (src/runner.ts:221-425, 566-660; src/runner/turn.ts:210-257): the silence
    backstop, the counts of open asks and running tools, the auto-decline of an outward turn, the recovery of
    asks after a reconnect, and what may still happen once the turn is over.

    The empty id stands for an ask without one.
 */
module TurnBackstop {

  datatype Frame =
    | ToolCall | ToolResult
    | Asked(id: string)        // a question or an approval prompt
    | Resolved(id: string)
    | TurnEnd | Reconnected | Plain

  datatype Turn = Turn(
    outward: bool, backstop: bool,
    awaiting: nat, tools: nat, silence: bool, declines: set<string>, seen: set<string>,
    finished: bool, aborted: bool,
    // requests in flight: the recovery at the start, those after reconnects, the declines
    starting: bool, reconnects: nat, declining: set<string>,
    // what the code does not hold: the declines ever sent, the asks no frame or decline has resolved yet, the
    // asks open at the host, and the calls of `upstream.cancel`
    attempted: set<string>, unresolved: set<string>, unnamed: nat, open: set<string>, cancelCalls: nat)

  function NewTurn(outward: bool, backstop: bool): Turn {
    Turn(outward, backstop, 0, 0, false, {}, {}, false, false, true, 0, {}, {}, {}, 0, {}, 0)
  }

  function Less(n: nat): nat { if n == 0 then 0 else n - 1 }

  // ---- The program's functions ---------------------------------------------------------------

  /** `armSilence`. */
  function Arm(t: Turn): Turn {
    if t.backstop then t.(silence := t.outward || (t.awaiting == 0 && t.tools == 0)) else t
  }

  /** `trackAwaiting`, with `scheduleAutoDecline` and `cancelAutoDecline`. */
  function Track(t: Turn, frame: Frame): Turn {
    match frame
    case ToolCall => t.(tools := t.tools + 1)
    case ToolResult => t.(tools := Less(t.tools))
    case Asked(id) =>
      if id == "" then t.(awaiting := t.awaiting + 1, unnamed := t.unnamed + 1)
      else
        t.(awaiting := t.awaiting + 1, unresolved := t.unresolved + {id},
           declines := if t.outward then t.declines + {id} else t.declines)
    case Resolved(id) =>
      if id == "" then t.(awaiting := Less(t.awaiting), unnamed := Less(t.unnamed))
      else
        t.(awaiting := Less(t.awaiting), unresolved := t.unresolved - {id},
           declines := if t.outward then t.declines - {id} else t.declines)
    case TurnEnd => t.(awaiting := 0, tools := 0, declines := {})
    case _ => t
  }

  predicate Duplicate(t: Turn, frame: Frame) { frame.Asked? && frame.id != "" && frame.id in t.seen }

  function Note(t: Turn, frame: Frame): Turn {
    if frame.Asked? && frame.id != "" then t.(seen := t.seen + {frame.id}) else t
  }

  /** `finish` and its `clearTimers`; only the first call does anything. */
  function Finish(t: Turn): Turn {
    if t.finished then t else t.(finished := true, silence := false, declines := {})
  }

  /** The abort signal: heard once, it cancels the turn at the host. */
  function Abort(t: Turn): Turn {
    if t.aborted then t else Finish(t.(aborted := true, cancelCalls := t.cancelCalls + 1))
  }

  /** A frame off the stream or out of the recovery channel; a second copy of an ask is passed over. */
  function Handle(t: Turn, frame: Frame): Turn {
    if Duplicate(t, frame) then t else Arm(Track(Note(t, frame), frame))
  }

  function HandleAsks(t: Turn, asks: seq<string>): Turn
    decreases |asks|
  {
    if asks == [] then t else HandleAsks(Handle(t, Asked(asks[0])), asks[1..])
  }

  // ---- Steps ---------------------------------------------------------------------------------

  datatype Step =
    | Deliver(frame: Frame)
    | Started(asks: seq<string>)       // the recovery at the start answers, or fails with none
    | Recovered(asks: seq<string>)     // one after a reconnect does
    | GraceExpires(id: string, answerable: bool)
    | Declined(id: string, ok: bool)
    | SilenceFires
    | TimesOut
    | Stop
    | Fails                            // the prompt is rejected, or something throws
    | HostOpens(id: string)
    | HostCloses(id: string)

  /** The asks a recovery may answer with: those the host still holds, and copies of old ones. */
  predicate Recoverable(t: Turn, asks: seq<string>) {
    forall i | 0 <= i < |asks| :: asks[i] == "" || asks[i] in t.open || asks[i] in t.seen
  }

  predicate Enabled(t: Turn, step: Step) {
    match step
    case Deliver(Asked(id)) => !t.finished && (id == "" || id in t.open || id in t.seen)
    case Deliver(_) => !t.finished
    case Started(asks) => t.starting && Recoverable(t, asks)
    case Recovered(asks) => t.reconnects > 0 && Recoverable(t, asks)
    case GraceExpires(id, _) => id in t.declines
    case Declined(id, _) => id in t.declining
    case SilenceFires => t.silence
    case TimesOut => !t.finished
    case HostOpens(id) => id != "" && id !in t.seen
    case _ => true
  }

  function Do(t: Turn, step: Step): Turn {
    match step
    case Deliver(frame) =>
      var t' := Handle(t, frame);
      if frame.Reconnected? then t'.(reconnects := t'.reconnects + 1)
      else if frame.TurnEnd? then Finish(t')
      else t'
    case Started(asks) => Arm(HandleAsks(t, asks)).(starting := false)
    case Recovered(asks) =>
      var t' := HandleAsks(t.(reconnects := Less(t.reconnects)), asks);
      if t'.awaiting > 0 then t' else Finish(t')
    case GraceExpires(id, answerable) =>
      var t' := t.(declines := t.declines - {id});
      if answerable then t'.(declining := t'.declining + {id}, attempted := t'.attempted + {id}) else t'
    case Declined(id, ok) =>
      var t' := t.(declining := t.declining - {id});
      if ok then Arm(t'.(awaiting := Less(t'.awaiting), unresolved := t'.unresolved - {id}, open := t'.open - {id}))
      else t'
    case SilenceFires => Abort(t.(silence := false))
    case TimesOut => Abort(t)
    case Stop => Abort(t)
    case Fails => Finish(t)
    case HostOpens(id) => t.(open := t.open + {id})
    case HostCloses(id) => t.(open := t.open - {id})
  }

  predicate Allowed(t: Turn, steps: seq<Step>)
    decreases |steps|
  {
    steps == [] || (Enabled(t, steps[0]) && Allowed(Do(t, steps[0]), steps[1..]))
  }

  function After(t: Turn, steps: seq<Step>): Turn
    decreases |steps|
  {
    if steps == [] then t else After(Do(t, steps[0]), steps[1..])
  }

  // ---- What every step keeps -----------------------------------------------------------------

  /** While a turn runs its backstop is armed exactly when nothing visible explains the silence; an inward
      turn never has it armed otherwise, not even once it is over. */
  predicate BackstopRight(t: Turn) {
    && (t.silence ==> t.backstop && (t.outward || (t.awaiting == 0 && t.tools == 0)))
    && (t.backstop && !t.finished && !t.starting && (t.outward || (t.awaiting == 0 && t.tools == 0)) ==> t.silence)
    && (t.aborted ==> t.finished)
  }

  /** The count of asks waited for is a lower bound. */
  ghost predicate CountRight(t: Turn) {
    t.awaiting <= |t.unresolved| + t.unnamed && t.unresolved <= t.seen && "" !in t.seen
  }

  /** Decline timers belong to outward turns, each to an unresolved ask that no decline was sent for yet. */
  predicate DeclinesRight(t: Turn) {
    && t.declines <= t.unresolved && t.declines !! t.attempted && t.declining <= t.attempted <= t.seen
    && (!t.outward ==> t.declines == {} && t.attempted == {})
  }

  ghost predicate Right(t: Turn) { BackstopRight(t) && CountRight(t) && DeclinesRight(t) }

  lemma {:induction false} RemoveCount(s: set<string>, id: string)
    ensures |s - {id}| == if id in s then |s| - 1 else |s|
  {
  }

  lemma {:induction false} HandleArms(t: Turn, frame: Frame)
    requires BackstopRight(t)
    ensures BackstopRight(Handle(t, frame))
  {
  }

  /** Counts and declines are about a few fields only. */
  ghost predicate Sound(t: Turn) { CountRight(t) && DeclinesRight(t) }

  lemma {:induction false} AskedSound(t: Turn, id: string)
    requires Sound(t) && id != "" && id !in t.seen
    ensures Sound(Track(Note(t, Asked(id)), Asked(id)))
  {
  }

  lemma {:induction false} ResolvedSound(t: Turn, id: string)
    requires Sound(t) && id != ""
    ensures Sound(Track(t, Resolved(id)))
  {
  }

  lemma {:induction false} OthersSound(t: Turn, frame: Frame)
    requires Sound(t)
    requires frame.Asked? || frame.Resolved? ==> frame.id == ""
    ensures Sound(Track(Note(t, frame), frame))
  {
  }

  lemma {:induction false} ArmSound(t: Turn)
    requires Sound(t)
    ensures Sound(Arm(t))
  {
  }

  lemma {:induction false} HandleSound(t: Turn, frame: Frame)
    requires Sound(t)
    ensures Sound(Handle(t, frame))
  {
    if !Duplicate(t, frame) {
      var tracked := Track(Note(t, frame), frame);
      assert Sound(tracked) by {
        if frame.Asked? && frame.id != "" {
          AskedSound(t, frame.id);
        } else if frame.Resolved? && frame.id != "" {
          ResolvedSound(t, frame.id);
        } else {
          OthersSound(t, frame);
        }
      }
      ArmSound(tracked);
    }
  }

  lemma {:induction false} HandleKeepsRight(t: Turn, frame: Frame)
    requires Right(t)
    ensures Right(Handle(t, frame))
  {
    HandleArms(t, frame);
    HandleSound(t, frame);
  }

  lemma {:induction false} HandleAsksKeepsRight(t: Turn, asks: seq<string>)
    requires Right(t)
    ensures Right(HandleAsks(t, asks))
    decreases |asks|
  {
    if asks != [] {
      HandleKeepsRight(t, Asked(asks[0]));
      HandleAsksKeepsRight(Handle(t, Asked(asks[0])), asks[1..]);
    }
  }

  lemma {:induction false} FinishKeepsRight(t: Turn)
    requires Right(t)
    ensures Right(Finish(t))
  {
  }

  lemma {:induction false} AbortKeepsRight(t: Turn)
    requires Right(t)
    ensures Right(Abort(t)) && Right(Abort(t.(silence := false)))
  {
  }

  lemma {:induction false} GraceKeepsRight(t: Turn, id: string, answerable: bool)
    requires Right(t) && id in t.declines
    ensures Right(Do(t, GraceExpires(id, answerable)))
    ensures id !in t.attempted
  {
  }

  lemma {:induction false} DeclinedKeepsRight(t: Turn, id: string, ok: bool)
    requires Right(t) && id in t.declining
    ensures Right(Do(t, Declined(id, ok)))
  {
  }

  lemma {:induction false} StepKeepsRight(t: Turn, step: Step)
    requires Right(t) && Enabled(t, step)
    ensures Right(Do(t, step))
  {
    match step
    case Deliver(frame) =>
      HandleKeepsRight(t, frame);
      FinishKeepsRight(Handle(t, frame));
    case Started(asks) => HandleAsksKeepsRight(t, asks);
    case Recovered(asks) =>
      var t' := t.(reconnects := Less(t.reconnects));
      HandleAsksKeepsRight(t', asks);
      FinishKeepsRight(HandleAsks(t', asks));
    case GraceExpires(id, answerable) => GraceKeepsRight(t, id, answerable);
    case Declined(id, ok) => DeclinedKeepsRight(t, id, ok);
    case Fails => FinishKeepsRight(t);
    case HostOpens(_) =>
    case HostCloses(_) =>
    case _ => AbortKeepsRight(t);
  }

  lemma {:induction false} RunsKeepRight(t: Turn, steps: seq<Step>)
    requires Right(t) && Allowed(t, steps)
    ensures Right(After(t, steps))
    decreases |steps|
  {
    if steps != [] {
      StepKeepsRight(t, steps[0]);
      RunsKeepRight(Do(t, steps[0]), steps[1..]);
    }
  }

  lemma {:induction false} RunsKeepKind(t: Turn, steps: seq<Step>)
    ensures After(t, steps).outward == t.outward && After(t, steps).backstop == t.backstop
    decreases |steps|
  {
    if steps != [] {
      StepKeepsKind(t, steps[0]);
      RunsKeepKind(Do(t, steps[0]), steps[1..]);
    }
  }

  lemma {:induction false} StepKeepsKind(t: Turn, step: Step)
    ensures Do(t, step).outward == t.outward && Do(t, step).backstop == t.backstop
  {
    match step
    case Deliver(frame) => HandleKeepsKind(t, frame);
    case Started(asks) => AsksLeave(t, asks);
    case Recovered(asks) => AsksLeave(t.(reconnects := Less(t.reconnects)), asks);
    case _ =>
  }

  lemma {:induction false} HandleKeepsKind(t: Turn, frame: Frame)
    ensures Handle(t, frame).outward == t.outward && Handle(t, frame).backstop == t.backstop
  {
    match frame
    case Asked(id) => AskLeaves(t, id);
    case Resolved(id) =>
      var tracked := Track(t, frame);
      assert tracked.outward == t.outward && tracked.backstop == t.backstop;
    case _ =>
  }

  /** What holds of a turn at any moment of any run. */
  lemma {:induction false} EveryRun(outward: bool, backstop: bool, steps: seq<Step>)
    requires Allowed(NewTurn(outward, backstop), steps)
    ensures var t := After(NewTurn(outward, backstop), steps);
            // the backstop, on an inward and on an outward turn
            && (!outward && t.silence ==> t.awaiting == 0 && t.tools == 0)
            && (!t.finished && !t.starting ==>
                  (t.silence <==> backstop && (outward || (t.awaiting == 0 && t.tools == 0))))
            // the count never exceeds the asks that are still unresolved
            && t.awaiting <= |t.unresolved| + t.unnamed
            // decline timers: on outward turns only, for unresolved asks only, and one decline for an ask at most
            && (!outward ==> t.declines == {} && t.declining == {})
            && t.declines <= t.unresolved
            && (forall id | id in t.declines :: id !in t.attempted)
  {
    RunsKeepRight(NewTurn(outward, backstop), steps);
    RunsKeepKind(NewTurn(outward, backstop), steps);
  }

  // ---- What a recovery adds ------------------------------------------------------------------

  function Elements(asks: seq<string>): set<string> { set id | id in asks }

  /** The named asks that were not seen before. */
  function Fresh(seen: set<string>, asks: seq<string>): set<string> { Elements(asks) - {""} - seen }

  function UnnamedIn(asks: seq<string>): nat {
    if asks == [] then 0 else (if asks[0] == "" then 1 else 0) + UnnamedIn(asks[1..])
  }

  lemma {:induction false} AskLeaves(t: Turn, id: string)
    ensures Leaves(t, Handle(t, Asked(id)))
  {
    if id == "" || id !in t.seen {
      var tracked := Track(Note(t, Asked(id)), Asked(id));
      assert Leaves(t, tracked);
    }
  }

  ghost predicate Leaves(t: Turn, t': Turn) {
    && t'.outward == t.outward && t'.backstop == t.backstop && t'.tools == t.tools && t'.open == t.open
    && t'.finished == t.finished && t'.aborted == t.aborted && t'.cancelCalls == t.cancelCalls
    && t'.declining == t.declining && t'.starting == t.starting && t'.reconnects == t.reconnects
  }

  lemma {:induction false} AsksLeave(t: Turn, asks: seq<string>)
    ensures Leaves(t, HandleAsks(t, asks))
    decreases |asks|
  {
    if asks != [] {
      AskLeaves(t, asks[0]);
      AsksLeave(Handle(t, Asked(asks[0])), asks[1..]);
    }
  }

  /** A recovery adds the asks not seen before, each once, and every unnamed one. */
  ghost predicate Adds(t: Turn, t': Turn, named: set<string>, unnamed: nat) {
    && t'.seen == t.seen + named
    && t'.unresolved == t.unresolved + named
    && t'.declines == (if t.outward then t.declines + named else t.declines)
    && t'.unnamed == t.unnamed + unnamed
    && t'.awaiting == t.awaiting + |named| + unnamed
  }

  lemma {:induction false} AskAdds(t: Turn, id: string)
    ensures Adds(t, Handle(t, Asked(id)), if id == "" || id in t.seen then {} else {id}, if id == "" then 1 else 0)
  {
  }

  lemma {:induction false} AddsTrans(a: Turn, b: Turn, c: Turn, named: set<string>, more: set<string>, unnamed: nat, moreUnnamed: nat)
    requires Adds(a, b, named, unnamed) && Adds(b, c, more, moreUnnamed) && named !! more && a.outward == b.outward
    ensures Adds(a, c, named + more, unnamed + moreUnnamed)
  {
  }

  lemma {:induction false} FreshSplit(seen: set<string>, asks: seq<string>)
    requires asks != []
    ensures var first := if asks[0] == "" || asks[0] in seen then {} else {asks[0]};
            && Fresh(seen, asks) == first + Fresh(seen + first, asks[1..])
            && first !! Fresh(seen + first, asks[1..])
  {
  }

  lemma {:induction false} AsksAdd(t: Turn, asks: seq<string>)
    ensures Adds(t, HandleAsks(t, asks), Fresh(t.seen, asks), UnnamedIn(asks))
    decreases |asks|
  {
    if asks != [] {
      var id, rest := asks[0], asks[1..];
      var t1 := Handle(t, Asked(id));
      var first := if id == "" || id in t.seen then {} else {id};
      AskAdds(t, id);
      AskLeaves(t, id);
      AsksAdd(t1, rest);
      FreshSplit(t.seen, asks);
      AddsTrans(t, t1, HandleAsks(t1, rest), first, Fresh(t1.seen, rest), if id == "" then 1 else 0, UnnamedIn(rest));
    }
  }
}
