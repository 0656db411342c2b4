/** The maps of src/chat/queue.ts and src/chat/turn-runner.ts and the functions that change them.  Each is
    proved to do to its chat what `ChatTurns` says and nothing to any other chat.
 */
module TurnRunners {
  import opened Options
  import opened ChatTurns

  class TurnRunner {
    var queues: map<string, seq<string>>
    var draining: set<string>
    var chatTurns: map<string, nat>
    var chatCancels: map<string, nat>
    /** The archived chats, and how many turns each chat has started: the name of its next controller. */
    var removed: set<string>
    var made: map<string, nat>
    /** The promises in flight and the history of each chat. */
    ghost var world: map<string, Chat>

    ghost function World(chat: string): Chat
      reads this
    {
      if chat in world then world[chat] else IDLE
    }

    ghost function View(chat: string): Chat
      reads this
    {
      World(chat).(
        queue := if chat in queues then queues[chat] else [],
        turn := if chat in chatTurns then Some(chatTurns[chat]) else None,
        cancel := if chat in chatCancels then Some(chatCancels[chat]) else None,
        removed := chat in removed,
        started := if chat in made then made[chat] else 0)
    }

    /** `draining` names the chats with a drain in flight. */
    ghost predicate Valid()
      reads this
    {
      forall chat :: chat in draining <==> World(chat).draining.Some?
    }

    /** Only the entries of this chat have changed. */
    twostate predicate Only(chat: string)
      reads this
    {
      && queues - {chat} == old(queues) - {chat}
      && draining - {chat} == old(draining) - {chat}
      && chatTurns - {chat} == old(chatTurns) - {chat}
      && chatCancels - {chat} == old(chatCancels) - {chat}
      && removed - {chat} == old(removed) - {chat}
      && made - {chat} == old(made) - {chat}
      && world - {chat} == old(world) - {chat}
    }

    /** No operation on one chat changes another. */
    twostate lemma {:induction false} OthersKept(chat: string, other: string)
      requires Only(chat) && other != chat
      ensures View(other) == old(View(other))
      ensures other in draining <==> other in old(draining)
    {
      SameAt(queues, old(queues), chat, other);
      SameAt(chatTurns, old(chatTurns), chat, other);
      SameAt(chatCancels, old(chatCancels), chat, other);
      SameAt(made, old(made), chat, other);
      SameAt(world, old(world), chat, other);
      assert other in removed <==> other in removed - {chat};
      assert other in draining <==> other in draining - {chat};
    }

    static lemma {:induction false} SameAt<V>(a: map<string, V>, b: map<string, V>, chat: string, other: string)
      requires a - {chat} == b - {chat} && other != chat
      ensures other in a <==> other in b
      ensures other in a ==> a[other] == b[other]
    {
      assert other in a <==> other in a - {chat};
      assert other in b <==> other in b - {chat};
      assert other in a ==> (a - {chat})[other] == a[other] && (b - {chat})[other] == b[other];
    }

    constructor ()
      ensures Valid() && forall chat :: View(chat) == IDLE
    {
      queues, draining, chatTurns, chatCancels, removed, made, world := map[], {}, map[], map[], {}, map[], map[];
    }

    method EnqueueTurn(chat: string, id: string) returns (position: nat)
      requires Valid()
      modifies this
      ensures Valid() && Only(chat) && View(chat) == Enqueue(old(View(chat)), id)
      ensures position == |View(chat).queue|
    {
      var q := (if chat in queues then queues[chat] else []) + [id];
      queues := queues[chat := q];
      world := world[chat := World(chat).(enqueued := World(chat).enqueued + [id])];
      position := |q|;
    }

    method StartChatTurn(chat: string) returns (turn: nat)
      requires Valid()
      modifies this
      ensures Valid() && Only(chat) && View(chat) == Start(old(View(chat)))
      ensures turn == old(View(chat)).started
      ensures draining == old(draining)
    {
      turn := NewController(chat);
      world := world[chat := World(chat).(running := World(chat).running + {turn})];
      chatTurns := chatTurns[chat := turn];
    }

    method NewController(chat: string) returns (turn: nat)
      requires Valid()
      modifies this`made, this`chatCancels
      ensures Valid() && Only(chat)
      ensures turn == old(View(chat)).started
      ensures View(chat) == old(View(chat)).(cancel := Some(turn), started := turn + 1)
    {
      turn := if chat in made then made[chat] else 0;
      made := made[chat := turn + 1];
      chatCancels := chatCancels[chat := turn];
    }

    method DrainChatQueue(chat: string)
      requires Valid()
      modifies this
      ensures Valid() && Only(chat) && View(chat) == DrainQueue(old(View(chat)))
    {
      if chat in draining {
        return;
      }
      if chat !in queues || queues[chat] == [] {
        queues := queues - {chat};
        return;
      }
      var next := TakeNext(chat);
      // `next.execute()`, up to its first await
      if chat in removed {
        MarkDraining(chat, Settled);
      } else {
        var turn := StartChatTurn(chat);
        MarkDraining(chat, Awaiting(turn));
      }
    }

    method TakeNext(chat: string) returns (next: string)
      requires Valid() && View(chat).queue != []
      modifies this`queues, this`world
      ensures Valid() && Only(chat)
      ensures var was := old(View(chat));
              next == was.queue[0] && View(chat) == was.(queue := was.queue[1..], taken := was.taken + [next])
    {
      next := queues[chat][0];
      queues := queues[chat := queues[chat][1..]];
      world := world[chat := World(chat).(taken := World(chat).taken + [next])];
    }

    method MarkDraining(chat: string, ghost drain: Drain)
      requires Valid()
      modifies this`draining, this`world
      ensures Valid() && Only(chat) && View(chat) == old(View(chat)).(draining := Some(drain))
    {
      draining := draining + {chat};
      world := world[chat := World(chat).(draining := Some(drain))];
    }

    /** The `finally` of `startChatTurn`. */
    method TurnEnded(chat: string, turn: nat)
      requires Valid()
      modifies this
      ensures Valid() && Only(chat) && View(chat) == FinishTurn(old(View(chat)), turn)
    {
      Unregister(chat, turn);
      DrainChatQueue(chat);
    }

    method Unregister(chat: string, turn: nat)
      requires Valid()
      modifies this`chatCancels, this`chatTurns, this`world
      ensures Valid() && Only(chat)
      ensures var was := old(View(chat));
              View(chat) == was.(
                cancel := if was.cancel == Some(turn) then None else was.cancel,
                turn := None,
                running := was.running - {turn},
                draining := if was.draining == Some(Awaiting(turn)) then Some(Settled) else was.draining)
    {
      world := world[chat := World(chat).(
        running := World(chat).running - {turn},
        draining := if World(chat).draining == Some(Awaiting(turn)) then Some(Settled) else World(chat).draining)];
      if chat in chatCancels && chatCancels[chat] == turn {
        chatCancels := chatCancels - {chat};
      }
      chatTurns := chatTurns - {chat};
    }

    /** The `finally` of `drainChatQueue`. */
    method DrainEnded(chat: string)
      requires Valid()
      modifies this
      ensures Valid() && Only(chat) && View(chat) == FinishDrain(old(View(chat)))
    {
      UnmarkDraining(chat);
      DrainChatQueue(chat);
    }

    method UnmarkDraining(chat: string)
      requires Valid()
      modifies this`draining, this`world
      ensures Valid() && Only(chat)
      ensures View(chat) == old(View(chat)).(draining := None, settled := old(View(chat)).settled + 1)
    {
      draining := draining - {chat};
      world := world[chat := World(chat).(draining := None, settled := World(chat).settled + 1)];
    }

    method CancelQueuedTurn(chat: string, id: string)
      requires Valid()
      modifies this
      ensures Valid() && Only(chat)
      ensures var was := old(View(chat));
              View(chat) == was.(queue := Drop(was.queue, id),
                                 cancelled := was.cancelled + if id in was.queue then {id} else {})
    {
      if chat !in queues {
        assert Drop([], id) == [];
        return;
      }
      var q := queues[chat];
      var kept := Drop(q, id);
      if kept == [] {
        queues := queues - {chat};
      } else {
        queues := queues[chat := kept];
      }
      world := world[chat := World(chat).(cancelled := World(chat).cancelled + if id in q then {id} else {})];
    }

    method CancelQueuedTurns(chat: string)
      requires Valid()
      modifies this
      ensures Valid() && Only(chat)
      ensures var was := old(View(chat));
              View(chat) == was.(queue := [], cancelled := was.cancelled + Elements(was.queue))
    {
      world := world[chat := World(chat).(cancelled := World(chat).cancelled + Elements(View(chat).queue))];
      queues := queues - {chat};
    }

    method AbortTurn(chat: string) returns (aborted: bool)
      requires Valid()
      modifies this`world
      ensures Valid() && Only(chat)
      ensures aborted == old(View(chat)).cancel.Some?
      ensures var was := old(View(chat));
              View(chat) == if aborted then was.(aborted := was.aborted + {was.cancel.value}) else was
    {
      if chat !in chatCancels {
        return false;
      }
      world := world[chat := World(chat).(aborted := World(chat).aborted + {chatCancels[chat]})];
      return true;
    }

    // ---- The routes --------------------------------------------------------------------------

    /** A message from the page: queued behind a registered turn, else started at once. */
    method PostMessage(chat: string, id: string) returns (queued: bool)
      requires Valid()
      modifies this
      ensures Valid() && Only(chat) && View(chat) == Do(old(View(chat)), Post(id))
      ensures queued <==> View(chat).queue != old(View(chat)).queue
    {
      if chat in removed {
        return false;
      }
      if chat in chatTurns {
        var _ := EnqueueTurn(chat, id);
        return true;
      }
      var _ := StartChatTurn(chat);
      return false;
    }

    method ArchiveChat(chat: string)
      requires Valid()
      modifies this
      ensures Valid() && Only(chat) && View(chat) == Do(old(View(chat)), Archive)
    {
      removed := removed + {chat};
      CancelQueuedTurns(chat);
    }
  }
}
