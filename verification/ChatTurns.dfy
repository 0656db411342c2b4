/** One chat's turns: the queue (src/chat/queue.ts), the turn runner (src/chat/turn-runner.ts) and the two
    ways a message gets in (src/routes/chat.ts:533-557, src/index.ts:417).

    The event loop is a state machine whose steps are what the program does between two awaits.  `running`
    is what the code never holds: the turns actually under way.  Turns are numbered as they start, and a
    number also stands for the turn's abort controller.
 */
module ChatTurns {
  import opened Options

  /** A drain in flight: the turn its `execute` awaits, or nothing once that turn is over and only the
      drain's own `finally` is left to run. */
  datatype Drain = Awaiting(turn: nat) | Settled

  datatype Chat = Chat(
    queue: seq<string>, draining: Option<Drain>, turn: Option<nat>, cancel: Option<nat>, removed: bool,
    // history
    running: set<nat>, aborted: set<nat>, started: nat,
    enqueued: seq<string>, taken: seq<string>, settled: nat, cancelled: set<string>)

  const IDLE := Chat([], None, None, None, false, {}, {}, 0, [], [], 0, {})

  // ---- The program's functions ---------------------------------------------------------------

  /** `startChatTurn` up to its first await. */
  function Start(c: Chat): Chat {
    c.(cancel := Some(c.started), running := c.running + {c.started}, turn := Some(c.started), started := c.started + 1)
  }

  function Enqueue(c: Chat, id: string): Chat {
    c.(queue := c.queue + [id], enqueued := c.enqueued + [id])
  }

  /** `drainChatQueue`; a turn queued for a chat archived since then resolves at once. */
  function DrainQueue(c: Chat): Chat {
    if c.draining.Some? || c.queue == [] then c
    else
      var c' := c.(queue := c.queue[1..], taken := c.taken + [c.queue[0]]);
      if c.removed then c'.(draining := Some(Settled))
      else Start(c').(draining := Some(Awaiting(c.started)))
  }

  /** The `finally` of a turn.  The drain that awaits this turn, if any, gets to run its own. */
  function FinishTurn(c: Chat, turn: nat): Chat {
    DrainQueue(c.(
      cancel := if c.cancel == Some(turn) then None else c.cancel,
      turn := None,
      running := c.running - {turn},
      draining := if c.draining == Some(Awaiting(turn)) then Some(Settled) else c.draining))
  }

  /** The `finally` of a drain. */
  function FinishDrain(c: Chat): Chat {
    DrainQueue(c.(draining := None, settled := c.settled + 1))
  }

  function Drop(queue: seq<string>, id: string): seq<string> {
    if queue == [] then [] else (if queue[0] == id then [] else [queue[0]]) + Drop(queue[1..], id)
  }

  function Elements(queue: seq<string>): set<string> { set id | id in queue }

  // ---- Steps ---------------------------------------------------------------------------------

  datatype Step =
    | Post(id: string)              // a message from the page; a queued turn gets a fresh id
    | Ask                           // a message through the public API
    | Finish(turn: nat, ok: bool)   // a turn resolves or rejects
    | Settle                        // the `finally` of a drain
    | Cancel(id: string)
    | Abort
    | Archive
    | Restore

  /** Once the turn of a drain is over, the drain's `finally` is a few promise callbacks away, and these run
      before any timer, request or answer from outside is looked at. */
  predicate Enabled(c: Chat, step: Step) {
    if c.draining == Some(Settled) then step.Settle?
    else
      match step
      case Post(id) => id !in c.enqueued
      case Finish(turn, _) => turn in c.running
      case Settle => false
      case _ => true
  }

  /** The page's routes answer 404 for an archived chat. */
  function Do(c: Chat, step: Step): Chat {
    match step
    case Post(id) => if c.removed then c else if c.turn.Some? then Enqueue(c, id) else Start(c)
    case Ask => Start(c)
    case Finish(turn, _) => FinishTurn(c, turn)
    case Settle => FinishDrain(c)
    case Cancel(id) =>
      if c.removed then c
      else c.(queue := Drop(c.queue, id), cancelled := c.cancelled + if id in c.queue then {id} else {})
    case Abort => if c.removed || c.cancel.None? then c else c.(aborted := c.aborted + {c.cancel.value})
    case Archive => c.(removed := true, queue := [], cancelled := c.cancelled + Elements(c.queue))
    case Restore => c.(removed := false)
  }

  predicate Allowed(c: Chat, steps: seq<Step>)
    decreases |steps|
  {
    steps == [] || (Enabled(c, steps[0]) && Allowed(Do(c, steps[0]), steps[1..]))
  }

  function After(c: Chat, steps: seq<Step>): Chat
    decreases |steps|
  {
    if steps == [] then c else After(Do(c, steps[0]), steps[1..])
  }

  // ---- Serial within a chat ------------------------------------------------------------------

  /** At most one turn runs; it is the registered one and the stored controller is its own; nobody waits
      for nothing; a chat that is archived has nothing waiting. */
  ghost predicate Serial(c: Chat) {
    && c.running == (if c.turn.Some? then {c.turn.value} else {})
    && c.cancel == c.turn
    && (c.turn.Some? ==> c.turn.value < c.started)
    && (c.draining.Some? ==> c.draining.value == if c.turn.Some? then Awaiting(c.turn.value) else Settled)
    && (c.queue != [] ==> c.turn.Some? || c.draining.Some?)
    && (c.removed ==> c.queue == [])
  }

  /** The step that starts a turn beside another: an API call on a chat that is busy. */
  predicate Intrudes(c: Chat, step: Step) { step.Ask? && c.turn.Some? }

  /** A step keeps the turns of a chat serial if and only if it does not intrude. */
  lemma {:induction false} SerialExact(c: Chat, step: Step)
    requires Serial(c) && Enabled(c, step)
    ensures Serial(Do(c, step)) <==> !Intrudes(c, step)
  {
  }

  predicate Undisturbed(c: Chat, steps: seq<Step>)
    decreases |steps|
  {
    steps == [] || (!Intrudes(c, steps[0]) && Undisturbed(Do(c, steps[0]), steps[1..]))
  }

  ghost predicate SerialThroughout(c: Chat, steps: seq<Step>)
    decreases |steps|
  {
    Serial(c) && (steps == [] || SerialThroughout(Do(c, steps[0]), steps[1..]))
  }

  /** The turns of a chat are serial throughout a run if and only if the API never calls on it while busy. */
  lemma {:induction false} RunsAreSerial(c: Chat, steps: seq<Step>)
    requires Serial(c) && Allowed(c, steps)
    ensures SerialThroughout(c, steps) <==> Undisturbed(c, steps)
    decreases |steps|
  {
    if steps != [] {
      SerialExact(c, steps[0]);
      if !Intrudes(c, steps[0]) {
        RunsAreSerial(Do(c, steps[0]), steps[1..]);
      }
    }
  }

  predicate NoCalls(steps: seq<Step>) { steps == [] || (!steps[0].Ask? && NoCalls(steps[1..])) }

  /** A chat used from the page alone is always serial, from its first message on. */
  lemma {:induction false} PageAloneIsSerial(c: Chat, steps: seq<Step>)
    requires Serial(c) && Allowed(c, steps) && NoCalls(steps)
    ensures SerialThroughout(c, steps)
    decreases |steps|
  {
    if steps != [] {
      SerialExact(c, steps[0]);
      PageAloneIsSerial(Do(c, steps[0]), steps[1..]);
    }
  }

  lemma {:induction false} NewChatIsSerial()
    ensures Serial(IDLE)
  {
  }

  /** The route looks for a registered turn only.  That is enough: whenever a message can arrive and finds
      none, no drain is in flight, nothing waits and nothing runs. */
  lemma {:induction false} GuardSuffices(c: Chat, id: string)
    requires Serial(c) && Enabled(c, Post(id)) && c.turn.None?
    ensures c.draining.None? && c.queue == [] && c.running == {}
  {
  }

  /** An abort reaches the turn that runs and no other. */
  lemma {:induction false} AbortHitsRunningTurn(c: Chat)
    requires Serial(c) && !c.removed
    ensures Do(c, Abort).aborted == c.aborted + c.running
  {
  }

  // ---- What an intrusion does ----------------------------------------------------------------

  /** A call on a busy chat: two turns at once.  The stored controller is the newcomer's, and when either
      of them ends the chat looks idle while the other still runs. */
  lemma {:induction false} AskOverlaps(c: Chat, ok: bool)
    requires Serial(c) && c.turn.Some? && Enabled(c, Ask)
    ensures var both := Do(c, Ask);
            && Enabled(both, Abort) && Enabled(both, Finish(c.turn.value, ok))
            && both.running == {c.turn.value, c.started} && c.turn.value != c.started
            && Do(both, Abort).aborted == c.aborted + (if c.removed then {} else {c.started})
            && (c.queue == [] ==>
                  && Do(both, Finish(c.turn.value, ok)).turn.None?
                  && Do(both, Finish(c.turn.value, ok)).cancel == Some(c.started)
                  && Do(both, Finish(c.turn.value, ok)).running == {c.started})
  {
  }

  // ---- Conservation and order, in every run --------------------------------------------------

  function Uncancelled(ids: seq<string>, cancelled: set<string>): seq<string> {
    if ids == [] then []
    else (if ids[0] in cancelled then [] else [ids[0]]) + Uncancelled(ids[1..], cancelled)
  }

  ghost predicate Distinct(ids: seq<string>) { forall i, j | 0 <= i < j < |ids| :: ids[i] != ids[j] }

  /** The turns ever enqueued, without the cancelled ones, are those taken off followed by those waiting, in
      the order of their enqueueing and each once; the taken ones are settled but for the one in flight. */
  ghost predicate Conserved(c: Chat) {
    && Distinct(c.enqueued)
    && Uncancelled(c.enqueued, c.cancelled) == c.taken + c.queue
    && c.cancelled <= Elements(c.enqueued)
    && |c.taken| == c.settled + if c.draining.Some? then 1 else 0
  }

  lemma {:induction false} UncancelledElements(ids: seq<string>, cancelled: set<string>)
    ensures Elements(Uncancelled(ids, cancelled)) == Elements(ids) - cancelled
  {
    if ids != [] {
      UncancelledElements(ids[1..], cancelled);
      assert ids == [ids[0]] + ids[1..];
      assert Elements(ids) == {ids[0]} + Elements(ids[1..]);
      if ids[0] !in cancelled {
        var rest := Uncancelled(ids[1..], cancelled);
        assert Elements([ids[0]] + rest) == {ids[0]} + Elements(rest);
      } else {
        assert Uncancelled(ids, cancelled) == Uncancelled(ids[1..], cancelled);
      }
    }
  }

  lemma {:induction false} UncancelledSnoc(ids: seq<string>, id: string, cancelled: set<string>)
    requires id !in cancelled
    ensures Uncancelled(ids + [id], cancelled) == Uncancelled(ids, cancelled) + [id]
  {
    if ids == [] {
      assert [] + [id] == [id] && [id][1..] == [];
    } else {
      assert (ids + [id])[1..] == ids[1..] + [id];
      UncancelledSnoc(ids[1..], id, cancelled);
    }
  }

  /** A list keeps what is not cancelled. */
  lemma {:induction false} UncancelledAgain(ids: seq<string>, cancelled: set<string>, more: set<string>)
    ensures Uncancelled(ids, cancelled + more) == Uncancelled(Uncancelled(ids, cancelled), more)
  {
    if ids != [] {
      UncancelledAgain(ids[1..], cancelled, more);
      var rest := Uncancelled(ids[1..], cancelled);
      if ids[0] in cancelled {
        assert Uncancelled(ids, cancelled) == rest;
      } else {
        assert ([ids[0]] + rest)[1..] == rest;
        assert Uncancelled(ids, cancelled) == [ids[0]] + rest;
      }
    }
  }

  lemma {:induction false} UncancelledConcat(a: seq<string>, b: seq<string>, cancelled: set<string>)
    ensures Uncancelled(a + b, cancelled) == Uncancelled(a, cancelled) + Uncancelled(b, cancelled)
  {
    if a == [] {
      assert a + b == b;
    } else {
      assert (a + b)[1..] == a[1..] + b;
      UncancelledConcat(a[1..], b, cancelled);
    }
  }

  lemma {:induction false} UncancelledNone(ids: seq<string>, cancelled: set<string>)
    requires Elements(ids) !! cancelled
    ensures Uncancelled(ids, cancelled) == ids
  {
    if ids != [] {
      assert ids[0] in Elements(ids) && Elements(ids[1..]) <= Elements(ids);
      UncancelledNone(ids[1..], cancelled);
    }
  }

  lemma {:induction false} UncancelledAll(ids: seq<string>)
    ensures Uncancelled(ids, Elements(ids)) == []
  {
    if ids != [] {
      UncancelledAll(ids[1..]);
      assert Elements(ids) == Elements(ids[1..]) + {ids[0]};
      UncancelledAgain(ids[1..], Elements(ids[1..]), {ids[0]});
    }
  }

  lemma {:induction false} DropIsUncancelled(queue: seq<string>, id: string)
    ensures Drop(queue, id) == Uncancelled(queue, {id})
  {
    if queue != [] {
      DropIsUncancelled(queue[1..], id);
    }
  }

  lemma {:induction false} UncancelledDistinct(ids: seq<string>, cancelled: set<string>)
    requires Distinct(ids)
    ensures Distinct(Uncancelled(ids, cancelled))
  {
    if ids != [] {
      UncancelledDistinct(ids[1..], cancelled);
      UncancelledElements(ids[1..], cancelled);
      var rest := Uncancelled(ids[1..], cancelled);
      forall k | 0 <= k < |rest| ensures rest[k] != ids[0] {
        assert rest[k] in Elements(rest);
      }
    }
  }

  /** Cancelling some of the waiting takes them out of the queue and leaves the taken ones alone. */
  lemma {:induction false} CancelConserves(c: Chat, more: set<string>)
    requires Conserved(c) && more <= Elements(c.queue)
    ensures Conserved(c.(queue := Uncancelled(c.queue, more), cancelled := c.cancelled + more))
  {
    UncancelledAgain(c.enqueued, c.cancelled, more);
    UncancelledConcat(c.taken, c.queue, more);
    UncancelledDistinct(c.enqueued, c.cancelled);
    UncancelledElements(c.enqueued, c.cancelled);
    assert Elements(c.taken) !! more by {
      forall i, j | 0 <= i < |c.taken| && 0 <= j < |c.queue| ensures c.taken[i] != c.queue[j] {
        assert (c.taken + c.queue)[i] == c.taken[i] && (c.taken + c.queue)[|c.taken| + j] == c.queue[j];
      }
    }
    UncancelledNone(c.taken, more);
    assert more <= Elements(c.enqueued) by {
      forall x | x in more ensures x in Elements(c.enqueued) {
        assert x in c.taken + c.queue;
        assert x in Elements(Uncancelled(c.enqueued, c.cancelled));
      }
    }
  }

  lemma {:induction false} DrainConserves(c: Chat)
    requires Conserved(c)
    ensures Conserved(DrainQueue(c))
  {
  }

  lemma {:induction false} EnqueueConserves(c: Chat, id: string)
    requires Conserved(c) && id !in c.enqueued
    ensures Conserved(Enqueue(c, id))
  {
    UncancelledSnoc(c.enqueued, id, c.cancelled);
    assert c.taken + c.queue + [id] == c.taken + (c.queue + [id]);
    assert Elements(c.enqueued) <= Elements(c.enqueued + [id]);
  }

  /** Every step conserves the turns, an intruding one too. */
  lemma {:induction false} StepConserves(c: Chat, step: Step)
    requires Conserved(c) && Enabled(c, step)
    ensures Conserved(Do(c, step))
  {
    match step
    case Post(id) => EnqueueConserves(c, id);
    case Finish(turn, _) =>
      DrainConserves(c.(
        cancel := if c.cancel == Some(turn) then None else c.cancel,
        turn := None,
        running := c.running - {turn},
        draining := if c.draining == Some(Awaiting(turn)) then Some(Settled) else c.draining));
    case Settle => DrainConserves(c.(draining := None, settled := c.settled + 1));
    case Cancel(id) =>
      DropIsUncancelled(c.queue, id);
      if id in c.queue {
        CancelConserves(c, {id});
      } else {
        UncancelledNone(c.queue, {id});
        assert c.cancelled + {} == c.cancelled;
      }
    case Archive =>
      CancelConserves(c, Elements(c.queue));
      UncancelledAll(c.queue);
    case _ =>
  }

  lemma {:induction false} RunsConserve(c: Chat, steps: seq<Step>)
    requires Conserved(c) && Allowed(c, steps)
    ensures Conserved(After(c, steps))
    decreases |steps|
  {
    if steps != [] {
      StepConserves(c, steps[0]);
      RunsConserve(Do(c, steps[0]), steps[1..]);
    }
  }

  // ---- No message is lost --------------------------------------------------------------------

  /** A chat that is archived has nothing waiting, however it is called on. */
  ghost predicate Kept(c: Chat) { Conserved(c) && (c.removed ==> c.queue == []) }

  /** The messages that have got in: turns started, waiting and cancelled. */
  function Messages(c: Chat): nat { c.started + |c.queue| + |c.cancelled| }

  lemma {:induction false} NewChatIsKept()
    ensures Kept(IDLE) && Messages(IDLE) == 0
  {
    assert Elements([]) == {};
  }

  /** What a step brings in: a message on a chat that is not archived, or a call. */
  function Accepts(c: Chat, step: Step): nat {
    if step.Ask? || (step.Post? && !c.removed) then 1 else 0
  }

  function Accepted(c: Chat, steps: seq<Step>): nat
    decreases |steps|
  {
    if steps == [] then 0 else Accepts(c, steps[0]) + Accepted(Do(c, steps[0]), steps[1..])
  }

  /** What waits is there once and not cancelled. */
  lemma {:induction false} WaitingIsFresh(c: Chat)
    requires Conserved(c)
    ensures Distinct(c.queue) && Elements(c.queue) !! c.cancelled
  {
    UncancelledDistinct(c.enqueued, c.cancelled);
    UncancelledElements(c.enqueued, c.cancelled);
    var all := c.taken + c.queue;
    forall i, j | 0 <= i < j < |c.queue| ensures c.queue[i] != c.queue[j] {
      assert all[|c.taken| + i] != all[|c.taken| + j];
    }
    forall id | id in c.queue ensures id !in c.cancelled {
      assert id in Elements(all);
    }
  }

  lemma {:induction false} DropShrinks(queue: seq<string>, id: string)
    requires Distinct(queue)
    ensures |Drop(queue, id)| == |queue| - if id in queue then 1 else 0
    ensures id !in Drop(queue, id)
  {
    if queue != [] {
      assert Distinct(queue[1..]);
      DropShrinks(queue[1..], id);
      assert queue == [queue[0]] + queue[1..];
      assert queue[0] !in queue[1..];
      assert Drop(queue, id) == if queue[0] == id then Drop(queue[1..], id) else [queue[0]] + Drop(queue[1..], id);
    }
  }

  lemma {:induction false} DistinctSize(queue: seq<string>)
    requires Distinct(queue)
    ensures |Elements(queue)| == |queue|
  {
    if queue != [] {
      var init, last := queue[..|queue| - 1], queue[|queue| - 1];
      DistinctSize(init);
      assert queue == init + [last];
      assert Elements(queue) == Elements(init) + {last};
    }
  }

  lemma {:induction false} DrainKeepsMessages(c: Chat)
    requires c.removed ==> c.queue == []
    ensures Messages(DrainQueue(c)) == Messages(c)
    ensures DrainQueue(c).removed == c.removed && (c.removed ==> DrainQueue(c).queue == [])
  {
  }

  lemma {:induction false} CancelKeepsMessages(c: Chat, id: string)
    requires Conserved(c)
    ensures Messages(Do(c, Cancel(id))) == Messages(c)
  {
    WaitingIsFresh(c);
    DropShrinks(c.queue, id);
    if id in c.queue {
      assert id in Elements(c.queue);
      assert |c.cancelled + {id}| == |c.cancelled| + 1;
    } else {
      assert c.cancelled + {} == c.cancelled;
    }
  }

  lemma {:induction false} ArchiveKeepsMessages(c: Chat)
    requires Conserved(c)
    ensures Messages(Do(c, Archive)) == Messages(c)
  {
    WaitingIsFresh(c);
    DistinctSize(c.queue);
    assert |c.cancelled + Elements(c.queue)| == |c.cancelled| + |Elements(c.queue)|;
  }

  lemma {:induction false} StepKeepsMessages(c: Chat, step: Step)
    requires Kept(c) && Enabled(c, step)
    ensures Kept(Do(c, step)) && Messages(Do(c, step)) == Messages(c) + Accepts(c, step)
  {
    StepConserves(c, step);
    match step
    case Finish(turn, _) =>
      DrainKeepsMessages(c.(
        cancel := if c.cancel == Some(turn) then None else c.cancel,
        turn := None,
        running := c.running - {turn},
        draining := if c.draining == Some(Awaiting(turn)) then Some(Settled) else c.draining));
    case Settle => DrainKeepsMessages(c.(draining := None, settled := c.settled + 1));
    case Cancel(id) => CancelKeepsMessages(c, id);
    case Archive => ArchiveKeepsMessages(c);
    case _ =>
  }

  /** Over every run, intruding or not: the turns started, waiting and cancelled are one for each message on a
      chat that was not archived and one for each call. */
  lemma {:induction false} RunsKeepMessages(c: Chat, steps: seq<Step>)
    requires Kept(c) && Allowed(c, steps)
    ensures Kept(After(c, steps)) && Messages(After(c, steps)) == Messages(c) + Accepted(c, steps)
    decreases |steps|
  {
    if steps != [] {
      StepKeepsMessages(c, steps[0]);
      RunsKeepMessages(Do(c, steps[0]), steps[1..]);
    }
  }

  /** A message finds the chat idle and starts a turn at once, or waits as the last; only an archived chat
      refuses it. */
  lemma {:induction false} PostExact(c: Chat, id: string)
    requires Serial(c) && Conserved(c) && Enabled(c, Post(id))
    ensures var c' := Do(c, Post(id));
            if c.removed then c' == c
            else if c.running == {} then
              c'.running == {c.started} && c'.cancel == Some(c.started) && c'.queue == [] && c'.enqueued == c.enqueued
            else
              c'.running == c.running && c'.queue == c.queue + [id] && c'.enqueued == c.enqueued + [id]
  {
  }

  // ---- Cancelled and archived ----------------------------------------------------------------

  lemma {:induction false} CancelledStays(c: Chat, steps: seq<Step>)
    ensures c.cancelled <= After(c, steps).cancelled
    decreases |steps|
  {
    if steps != [] {
      CancelledStays(Do(c, steps[0]), steps[1..]);
    }
  }

  /** A waiting turn that is cancelled, or was waiting when its chat was archived, is never taken. */
  lemma {:induction false} CancelledNeverTaken(c: Chat, step: Step, id: string, steps: seq<Step>)
    requires Conserved(c) && Enabled(c, step) && id in c.queue && Allowed(Do(c, step), steps)
    requires (step == Cancel(id) && !c.removed) || step.Archive?
    ensures id !in Do(c, step).queue && id !in After(Do(c, step), steps).taken
  {
    StepConserves(c, step);
    var c1 := Do(c, step);
    assert id in Elements(c.queue);
    assert id in c1.cancelled;
    RunsConserve(c1, steps);
    CancelledStays(c1, steps);
    WaitingIsFresh(c1);
    assert id in c1.queue ==> id in Elements(c1.queue);
    var c2 := After(c1, steps);
    UncancelledElements(c2.enqueued, c2.cancelled);
    assert id in c2.taken ==> id in Elements(c2.taken + c2.queue);
  }

  predicate NoRestore(steps: seq<Step>) { steps == [] || (!steps[0].Restore? && NoRestore(steps[1..])) }

  function CallsIn(steps: seq<Step>): nat {
    if steps == [] then 0 else (if steps[0].Ask? then 1 else 0) + CallsIn(steps[1..])
  }

  lemma {:induction false} ArchivedRuns(c: Chat, steps: seq<Step>)
    requires Kept(c) && c.removed && Allowed(c, steps) && NoRestore(steps)
    ensures var c' := After(c, steps);
            && c'.removed && c'.queue == [] && c'.enqueued == c.enqueued && c'.cancelled == c.cancelled
            && c'.started == c.started + CallsIn(steps)
    decreases |steps|
  {
    if steps != [] {
      StepKeepsMessages(c, steps[0]);
      ArchivedStep(c, steps[0]);
      ArchivedRuns(Do(c, steps[0]), steps[1..]);
    }
  }

  lemma {:induction false} ArchivedStep(c: Chat, step: Step)
    requires c.removed && c.queue == [] && !step.Restore?
    ensures var c' := Do(c, step);
            && c'.removed && c'.enqueued == c.enqueued && c'.cancelled == c.cancelled
            && c'.started == c.started + if step.Ask? then 1 else 0
  {
    if step.Archive? {
      assert c.cancelled + Elements([]) == c.cancelled;
    }
  }

  /** Between an archiving and the next restoring nothing waits and no message gets in; after it a message
      does again. */
  lemma {:induction false} ArchivedUntilRestored(c: Chat, steps: seq<Step>, id: string)
    requires Kept(c) && Enabled(c, Archive)
    requires Allowed(Do(c, Archive), steps) && NoRestore(steps)
    requires var c' := After(Do(c, Archive), steps); Enabled(c', Restore) && Enabled(Do(c', Restore), Post(id))
    ensures var c' := After(Do(c, Archive), steps);
            && c'.queue == [] && c'.enqueued == c.enqueued && Do(c', Post(id)) == c'
            && c'.started == c.started + CallsIn(steps)
            && Messages(Do(Do(c', Restore), Post(id))) == Messages(c') + 1
  {
    StepKeepsMessages(c, Archive);
    ArchivedRuns(Do(c, Archive), steps);
    var c' := After(Do(c, Archive), steps);
    RunsKeepMessages(Do(c, Archive), steps);
    StepKeepsMessages(c', Restore);
    StepKeepsMessages(Do(c', Restore), Post(id));
  }

  // ---- The chain goes on ---------------------------------------------------------------------

  /** Steps of the chain itself: turns ending, well or badly, and drains. */
  predicate Chain(steps: seq<Step>) {
    steps == [] || ((steps[0].Finish? || steps[0].Settle?) && Chain(steps[1..]))
  }

  /** What the chain still has to do: two steps for each waiting turn, and those of the turn in flight. */
  function Work(c: Chat): nat {
    2 * |c.queue| + (if c.turn.Some? then 1 else 0) + (if c.draining.Some? then 1 else 0)
  }

  lemma {:induction false} ChainStep(c: Chat, step: Step)
    requires Serial(c) && Enabled(c, step) && (step.Finish? || step.Settle?)
    ensures var c' := Do(c, step);
            && Serial(c')
            && c'.taken + c'.queue == c.taken + c.queue
            && c'.started - c.started == |c'.taken| - |c.taken|
            && Work(c') < Work(c)
  {
  }

  lemma {:induction false} ChainKeeps(c: Chat, steps: seq<Step>)
    requires Serial(c) && Allowed(c, steps) && Chain(steps)
    ensures var c' := After(c, steps);
            && Serial(c')
            && c'.taken + c'.queue == c.taken + c.queue
            && c'.started - c.started == |c'.taken| - |c.taken|
            && |steps| + Work(c') <= Work(c)
    decreases |steps|
  {
    if steps != [] {
      ChainStep(c, steps[0]);
      ChainKeeps(Do(c, steps[0]), steps[1..]);
    }
  }

  /** Left to itself, a chat cannot stop before every waiting turn has been started, in order: a chain with
      no step left to take has emptied the queue, whatever became of each turn, and it gets there in at most
      `Work` steps. */
  lemma {:induction false} ChainFinishes(c: Chat, steps: seq<Step>)
    requires Serial(c) && Allowed(c, steps) && Chain(steps)
    requires forall step: Step | step.Finish? || step.Settle? :: !Enabled(After(c, steps), step)
    ensures var c' := After(c, steps);
            && c'.taken == c.taken + c.queue
            && c'.started == c.started + |c.queue|
            && c'.queue == [] && c'.running == {} && c'.draining.None?
            && |steps| <= Work(c)
  {
    ChainKeeps(c, steps);
    var c' := After(c, steps);
    assert !Enabled(c', Settle);
    if c'.turn.Some? {
      assert Enabled(c', Finish(c'.turn.value, true));
      assert false;
    }
    assert c'.queue == [];
    assert c'.taken + [] == c'.taken;
  }
}
