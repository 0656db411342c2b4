/** The counters and timers of a running turn (src/runner.ts) and the handlers that change them, each
    proved to do what `TurnBackstop` says.
 */
module TurnWatches {
  import opened TurnBackstop

  class TurnWatch {
    const isOutward: bool
    const silenceMs: int
    var awaitingHuman: nat
    var toolsInFlight: nat
    var silenceTimer: bool
    var pendingDeclines: set<string>
    var seenAskIds: set<string>
    var finishCalled: bool
    var signalled: bool
    /** The host, and the requests in flight. */
    ghost var world: Turn

    ghost function View(): Turn
      reads this
    {
      world.(outward := isOutward, backstop := silenceMs > 0, awaiting := awaitingHuman, tools := toolsInFlight,
             silence := silenceTimer, declines := pendingDeclines, seen := seenAskIds,
             finished := finishCalled, aborted := signalled)
    }

    constructor (outward: bool, silenceMs: int)
      ensures View() == NewTurn(outward, silenceMs > 0)
    {
      this.isOutward, this.silenceMs := outward, silenceMs;
      awaitingHuman, toolsInFlight, silenceTimer := 0, 0, false;
      pendingDeclines, seenAskIds := {}, {};
      finishCalled, signalled := false, false;
      world := NewTurn(outward, silenceMs > 0);
    }

    method ArmSilence()
      modifies this`silenceTimer
      ensures View() == Arm(old(View()))
    {
      if silenceMs <= 0 {
        return;
      }
      silenceTimer := false;
      if (awaitingHuman > 0 || toolsInFlight > 0) && !isOutward {
        return;
      }
      silenceTimer := true;
    }

    method ScheduleAutoDecline(id: string)
      modifies this`pendingDeclines
      ensures pendingDeclines == old(pendingDeclines) + if id == "" then {} else {id}
    {
      if id == "" || id in pendingDeclines {
        return;
      }
      pendingDeclines := pendingDeclines + {id};
    }

    method CancelAutoDecline(id: string)
      requires "" !in pendingDeclines
      modifies this`pendingDeclines
      ensures pendingDeclines == old(pendingDeclines) - {id}
    {
      if id in pendingDeclines {
        pendingDeclines := pendingDeclines - {id};
      }
    }

    method CountAsk(id: string)
      requires "" !in pendingDeclines
      modifies this
      ensures View() == Track(old(View()), Asked(id))
      ensures "" !in pendingDeclines
    {
      world := Track(world, Asked(id));
      awaitingHuman := awaitingHuman + 1;
      if isOutward {
        ScheduleAutoDecline(id);
      }
    }

    method CountResolution(id: string)
      requires "" !in pendingDeclines
      modifies this
      ensures View() == Track(old(View()), Resolved(id))
      ensures "" !in pendingDeclines
    {
      world := Track(world, Resolved(id));
      awaitingHuman := if awaitingHuman > 1 then awaitingHuman - 1 else 0;
      if isOutward {
        CancelAutoDecline(id);
      }
    }

    method TrackAwaiting(frame: Frame)
      requires "" !in pendingDeclines
      modifies this
      ensures View() == Track(old(View()), frame)
      ensures "" !in pendingDeclines
    {
      match frame
      case ToolCall => toolsInFlight := toolsInFlight + 1;
      case ToolResult => toolsInFlight := if toolsInFlight > 1 then toolsInFlight - 1 else 0;
      case Asked(id) => CountAsk(id);
      case Resolved(id) => CountResolution(id);
      case TurnEnd =>
        awaitingHuman := 0;
        toolsInFlight := 0;
        pendingDeclines := {};
      case _ =>
    }

    /** A frame off the stream, up to its relay, or an ask out of the recovery channel. */
    method HandleFrame(frame: Frame)
      requires "" !in pendingDeclines
      modifies this
      ensures View() == Handle(old(View()), frame)
      ensures "" !in pendingDeclines
    {
      if frame.Asked? && frame.id != "" {
        if frame.id in seenAskIds {
          return;
        }
        seenAskIds := seenAskIds + {frame.id};
      }
      TrackAwaiting(frame);
      ArmSilence();
    }

    method RecoverAsks(asks: seq<string>)
      requires "" !in pendingDeclines
      modifies this
      ensures View() == HandleAsks(old(View()), asks)
      ensures "" !in pendingDeclines
    {
      for i := 0 to |asks|
        invariant "" !in pendingDeclines
        invariant HandleAsks(View(), asks[i..]) == HandleAsks(old(View()), asks)
      {
        assert asks[i..][0] == asks[i] && asks[i..][1..] == asks[i + 1..];
        HandleFrame(Asked(asks[i]));
      }
    }

    method FinishTurn()
      modifies this
      ensures View() == Finish(old(View()))
    {
      if finishCalled {
        return;
      }
      finishCalled := true;
      silenceTimer := false;
      pendingDeclines := {};
    }

    /** The subscription's callback. */
    method OnFrame(frame: Frame)
      requires "" !in pendingDeclines
      modifies this
      ensures View() == Do(old(View()), Deliver(frame))
    {
      HandleFrame(frame);
      if frame.Reconnected? {
        world := world.(reconnects := world.reconnects + 1);
      } else if frame.TurnEnd? {
        FinishTurn();
      }
    }

    /** `onReconnect`, once `pendingAsks` has answered. */
    method OnRecovered(asks: seq<string>)
      requires "" !in pendingDeclines
      modifies this
      ensures View() == Do(old(View()), Recovered(asks))
    {
      world := world.(reconnects := Less(world.reconnects));
      RecoverAsks(asks);
      if awaitingHuman > 0 {
        return;
      }
      FinishTurn();
    }

    /** The recovery at the start, and the first arming of the backstop. */
    method OnStarted(asks: seq<string>)
      requires "" !in pendingDeclines
      modifies this
      ensures View() == Do(old(View()), Started(asks))
    {
      RecoverAsks(asks);
      ArmSilence();
      world := world.(starting := false);
    }

    /** A grace timer, up to the request it sends. */
    method OnGraceExpired(id: string, answerable: bool)
      modifies this
      ensures View() == Do(old(View()), GraceExpires(id, answerable))
    {
      pendingDeclines := pendingDeclines - {id};
      if answerable {
        world := world.(declining := world.declining + {id}, attempted := world.attempted + {id});
      }
    }

    /** `declineFrame`, once the host has answered. */
    method OnDeclined(id: string, ok: bool)
      modifies this
      ensures View() == Do(old(View()), Declined(id, ok))
    {
      world := world.(declining := world.declining - {id});
      if ok {
        world := world.(unresolved := world.unresolved - {id}, open := world.open - {id});
        awaitingHuman := if awaitingHuman > 1 then awaitingHuman - 1 else 0;
        ArmSilence();
      }
    }

    /** The abort signal. */
    method OnAbort()
      modifies this
      ensures View() == Abort(old(View()))
    {
      if signalled {
        return;
      }
      signalled := true;
      world := world.(cancelCalls := world.cancelCalls + 1);
      FinishTurn();
    }

    method OnSilence()
      modifies this
      ensures View() == Do(old(View()), SilenceFires)
    {
      silenceTimer := false;
      OnAbort();
    }
  }
}
