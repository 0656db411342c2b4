# DAC control plane: verified models

This project models the parts of DAC, a control plane for a fleet of agent nodes, whose correctness is more
than plumbing, and proves what they promise. Every model follows the code branch by branch. Where the code
updates fields, maps or lists in place, a class does the same and each of its methods is proved against a
function; the theorems are about those functions, over every input and every run.

| module | what it is about |
|---|---|
| `Retention`, `NodeRetention` | which backups a prune leaves, over whole runs of backups and prunes |
| `Frames`, `Reducer` | the frames of a chat, and the reducer that draws them |
| `Replay`, `ReplayLaws` | compaction of a replayed history |
| `ToolResults` | which call a result is drawn under, and what a block gathers |
| `Blocks` | what a block shows, told from its frames alone |
| `Transcript`, `Faithful`, `CleanLogs` | compaction preserves what is drawn: exactly for which histories |
| `Wire`, `WireLaws`, `WireEdges` | a page that loads a history while the stream goes on, and where that history ends |
| `Dock` | the messages a page waits with, none of which is lost |
| `CompactedLoads` | when such a page draws what the log says, at any moment of a turn |
| `HistoryCaches` | the bounded LRU with expiry |
| `ChatTurns`, `TurnRunners` | one turn at a time in a chat, the queue behind it, and what breaks it |
| `TurnBackstop`, `TurnAftermath`, `TurnWatches` | the counters and timers of a running turn, reconnects, and what happens after the end |
| `MissedRuns`, `AutoDisable`, `DailyBudget`, `Schedulers` | scheduled runs: the missed, the failing, the expensive |
| `EnvMerge`, `EnvLaws`, `Whitespace` | the line-preserving `.env` merge, written and read back |
| `ConfigIsolation`, `ConfigStore` | what the configuration checks let through; validated writes under a lock |
| `Pricing` | usage sums and rounded prices |
| `Options`, `Sequences` | what the others share |

`dafny verify dfyconfig.toml` verifies the whole project.

## How the models are set up

- Event-loop code is a state machine: a step is what the program does between two awaits, and any order of
  enabled steps is a run. Promise callbacks run before any request, timer or answer is looked at, so nothing
  from outside comes between, say, the end of a queued turn and the end of its drain. Time, the network, the
  file system, the host and the database appear as parameters, as steps of their own or as the state they hold.
- The transcript theorems compare what is drawn of a block (public/assets/chat-render.js): its text or, failing
  that, the streamed text, its tools, usage, reason, error and pending approval. Reasoning text, which is
  merged differently across the steps of a turn, and the flag of a reply still streaming are not compared.
- Calendar days and weeks are integer divisions of local time with one fixed offset, and no two snapshots (or
  two archives of one node) have the same time.
- A schedule is the strictly increasing list of its occurrence times, up to some time not before the present.
- Rates are exact numbers; a rounded price is the floor of the exact one plus a half.

## Where the code does not do what it says

Each of these is a lemma with the failing case, beside the exact condition under which the promise holds.

- Pruning is not independent of earlier prunes in a week across the 84-day edge (`PruneTwiceExact`,
  `StraddlingWeekDiffers`).
- Tool results are taken to arrive in call order and go to the newest open call. These are the same calls exactly
  when no result comes while two are open and none comes astray before a call (`OneOpenExact`, `DistinctExact`,
  `InterleavedExact`).
- Compaction changes what is drawn when a user speaks in mid-turn or all messages of a turn are empty
  (`CompactionExact`, `MidTurnUserChanges`, `EmptyMessageLosesReply`).
- A page can draw an event twice: live frames are not checked against the loaded history (`EachOnce`,
  `LateStreamRedraws`, `LateEchoRedraws`), a history compacted in mid-turn may carry too low a number
  (`ReachExact`, `MidTurnExact`, `CompactedMidTurnRepeats`; for what is drawn of it, `CompactedLoadDrawsLog`), and
  an echo is compared with the newest user block only (`EchoExact`, `EchoAfterContext`). `turn_done` is said to be
  safe to apply twice; it adds a block each time (`DoneTwiceAddsBlock`).
- The stream carries no user event of the log, only the manager's echo (src/chat/turn-runner.ts:107-111): what
  else users say behind a loaded history, injected context among it, is not shown until the next load
  (`LiveIsRebuilt`, `EchoStandsIn`).
- A change of goal that arrives while a page loads is lost when its number, 0 if the host gave none
  (src/upstream/translate.ts:308-312), is not above the history's (`GoalExact`).
- Two turns of one chat can run at once, by the API entry, which looks for no turn (`AskOverlaps`); nothing
  else does that (`RunsAreSerial`, `GuardSuffices`).
- After a turn is over a late decline arms its backstop again, which then cancels the session (`LateCancel`);
  a late recovery brings decline timers back (`DeclinesAfterEnd`). A reconnect may keep a turn alive with
  nobody asked (`LostResolutionKeepsAlive`), or end one with an ask open (`DeclinedTwiceEndsTurn`): exactly
  when is `ReconnectRightExact`.
- The failure counter is read when an attempt begins: overlapping attempts miscount exactly when one
  fails on a stale count (`RunsCountExact`, `StaleFailure`, `TogetherCountOnce`, `SwitchedOffAgain`). The
  scheduled callback does not return the attempt's promise (src/cron/schedule.ts:388-395), so nothing in this
  code keeps two attempts of one schedule apart.
- Merging a `.env` twice is not the identity on a kept line ending in a carriage return (`SecondMergeExact`).
- A worker listed by two services is checked under the last one only (`OneServiceExact`); one listed twice by
  a service counts twice (`CountExact`, `RepeatedWorkerAccepted`), and so does a machine (`FitExact`).

## Model

| member | source | states |
|---|---|---|
| `Retention.BackupDir.Prune` | src/backup.ts:54-92 | one prune leaves exactly the snapshots the policy keeps (all of the last 24 h, the first of a day for 30 days, the first kept one of a week for 84 days), in their order, and reports every other file as removed |
| `Retention.MarkKept` | src/backup.ts:58-82 | the ascending pass with its day and week sets marks exactly the files of the snapshots the policy keeps |
| `Retention.BackupDir.BackupNow` | src/backup.ts:112-148 | a backup followed by its prune leaves the policy applied to what was there and the new snapshot, and never removes the new snapshot |
| `Retention.SurvivorsAreSparse` | src/backup.ts:62-82 | after a prune nothing is older than 84 days, two snapshots older than a day lie on different days, two older than 30 days in different weeks |
| `Retention.PruneTwiceExact` | src/backup.ts:54-92 | pruning at t1 and again at t2 leaves what one prune at t2 leaves, if and only if no week changes hands: its kept snapshot leaves the 84-day window by t2 while another first-of-day one, already dropped, would still be inside |
| `Retention.PruneIdempotent` | src/backup.ts:54-92 | a second prune at the same instant deletes nothing |
| `Retention.RunKeepsCovered` | src/backup.ts:112-148 | over any run of backups and prunes the directory holds everything owed and, past a day of age, only firsts of their day among all ever taken |
| `Retention.NoCoverageLost` | src/backup.ts:62-82 | over any run of backups and prunes the earliest snapshot ever taken on a day survives every prune until it is 30 days old, and the earliest of a week until 84 days |
| `Retention.PathIndependent` | src/backup.ts:54-101 | however often the directory was pruned before, a prune leaves of every week wholly on one side of the 84-day edge what a single prune of everything ever backed up leaves |
| `Retention.StraddlingWeekDiffers` | src/backup.ts:75-80 | a concrete week across the edge where two prunes lose what one keeps |
| `NodeRetention.ArchiveDir.Prune` | src/nodebackup.ts:70-124 | on every node the pruner leaves exactly what the snapshot policy leaves of that node's archives alone |
| `NodeRetention.MarkKeptArchives` | src/nodebackup.ts:79-115 | the pass with its per-node day and week maps marks exactly the files that policy keeps |
| `NodeRetention.RemainingOfNode` | src/nodebackup.ts:82-115 | deleting the unmarked files is, node by node, the single-directory policy |
| `Reducer.Transcript.Apply` | public/assets/chat-reducer.js:133-261 | pushing to and changing the block list in place computes the reducer function, for every frame |
| `Reducer.Transcript.ResolvePending` | public/assets/chat-reducer.js:223-233 | a tool result completes the newest call without a result and no other |
| `Reducer.Transcript.Build` | public/assets/chat-reducer.js:287-291 | the rebuild loop is the fold of the whole history |
| `Reducer.NewestPending` | public/assets/chat-reducer.js:226 | the search from the end finds the last unresolved call, or that there is none |
| `Reducer.ResolveAt` | public/assets/chat-reducer.js:226-231 | resolving is an update at that one place |
| `ToolResults.ResultsGoBackwards` | public/assets/chat-reducer.js:223-233 | results that come while several calls are open go to them from the newest to the oldest |
| `ToolResults.CallOrderExact` | public/assets/chat-reducer.js:223-233 | when every call comes before every result, that is if and only if the results read the same backwards |
| `ToolResults.ShownNewestFirst` | public/assets/chat-reducer.js:206-233 | however calls and results interleave, a block shows each call with the result it gets when every result goes to the newest open call |
| `ToolResults.InterleavedExact` | public/assets/chat-reducer.js:223-233 | results in call order, which the code assumes, are shown under their own calls if and only if giving them to the newest open call comes out as giving them to the oldest |
| `ToolResults.OneOpenExact` | public/assets/chat-reducer.js:223-233 | the newest open call is the oldest throughout if and only if each result comes while one call is open, or while none is and no call follows |
| `ToolResults.DistinctExact` | public/assets/chat-reducer.js:223-233 | so results in call order that can be told apart are shown under their own calls exactly then |
| `ToolResults.ShownIsRun` | public/assets/chat-reducer.js:206-233 | these are the tools of the block the reducer draws |
| `ToolResults.OneAtATime` | public/assets/chat-reducer.js:206-233 | calls made one at a time each get their own result |
| `ToolResults.BlockShowsCalls` | public/assets/chat-reducer.js:206-221 | a block shows every call of its frames, in order |
| `ToolResults.BlockSumsUsage` | public/assets/chat-reducer.js:172-183 | and the sum of the usage of its messages |
| `Blocks.OneBlock` | public/assets/chat-reducer.js:133-142 | a stretch of frames adds one block if one of them writes to it, and changes none that is there |
| `Blocks.BlockEnds` | public/assets/chat-reducer.js:235-256 | told from the frames alone: the reason of a block and each error it can show, exactly when: cancelled by the user, interrupted, ended in error, or told in words |
| `Blocks.BlockAwaits` | public/assets/chat-reducer.js:188-204 | the pending approval is one asked for that no later frame decides or replaces |
| `Blocks.BlockTexts` | public/assets/chat-reducer.js:158-183 | its text is that of its messages, its streamed text what came after the newest message, its reasoning what came after the newest that had some; it is streaming while such text goes on |
| `Blocks.BlockShows` | public/assets/chat-reducer.js:172-233 | it shows every call with the result the newest-first order gives it, and the sum of the usage counters |
| `Blocks.UserDrawn` | public/assets/chat-reducer.js:144-153 | a user's words are drawn last, and as injected if and only if they are a reminder in its tags, but for white space around it, or come right behind other words |
| `Blocks.ReminderExact` | public/assets/chat-reducer.js:119-124 | the trimmed comparison is that pattern |
| `Reducer.FoldConcat` | public/assets/chat-reducer.js:287-291 | folding a log in two parts is folding it whole |
| `Replay.SplitTurns` | src/chat/replay.ts:40-52 | the loop yields the split of a history after each turn_end |
| `Replay.SegmentsPartition` | src/chat/replay.ts:40-52 | the segments concatenate to the history; each but the last ends in its only turn_end |
| `Replay.CompactSegment` | src/chat/replay.ts:67-94 | the loop with its map of merged chunks, changed in place, computes the compaction of a turn |
| `Replay.Compact` | src/chat/replay.ts:97-98 | turn by turn, it computes the compaction of the history |
| `Replay.CompactByTurn` | src/chat/replay.ts:97-98 | compaction of a finished turn and of what follows are independent |
| `Replay.CompactSnoc` | src/chat/replay.ts:72-91 | what one more event does to a compaction: kept, dropped, appended to the merged chunk of its kind, or the first of its kind |
| `ReplayLaws.KeepsNonChunks` | src/chat/replay.ts:73-76 | every event but the chunks survives unchanged and in order |
| `ReplayLaws.KeepsOrder` | src/chat/replay.ts:82-87 | the surviving sequence numbers are a subsequence of the history's |
| `ReplayLaws.KeepsText` | src/chat/replay.ts:78-90 | in each turn the text of a chunk kind is kept in full; only text chunks beside a message are dropped |
| `ReplayLaws.Idempotent` | src/chat/replay.ts:97-98 | compacting twice is compacting once |
| `ReplayLaws.CompactsEachTurn` | src/chat/replay.ts:97-98 | turns are compacted one to one, each left with at most one chunk of a kind |
| `Transcript.FoldDraws` | public/assets/chat-reducer.js:133-261 | what the reducer draws, described without it: users' words with their injected flag, and one agent block for each stretch of frames |
| `Transcript.SameBlock` | public/assets/chat-reducer.js:158-183 | two stretches that differ in chunks only draw the same block if and only if the text shown is the same |
| `Faithful.StretchExact` | src/chat/replay.ts:67-94 | a block survives compaction if and only if it keeps a frame to open it and its body is settled by a message or is the streamed text it had |
| `Faithful.GoesOnExact` | src/chat/replay.ts:67-98 | for every history, chunks given again and frames to come: the compacted history that goes on is drawn like the history that goes on if and only if each block is faithful, the open one together with what completes it |
| `Faithful.CompactionExact` | src/chat/replay.ts:97-98 | for every history: compaction preserves what is drawn if and only if each of its blocks meets that condition |
| `CleanLogs.CleanLogPreserved` | src/chat/replay.ts:54-98 | a log of finished turns with their user events first, no turn_done, and messages that are not all empty is drawn the same compacted |
| `CleanLogs.MidTurnUserChanges` | src/chat/replay.ts:67-94 | a user event in the middle of a turn changes what is drawn |
| `CleanLogs.EmptyMessageLosesReply` | src/chat/replay.ts:68-78 | a turn whose only message is empty loses its streamed reply |
| `Wire.ChatPage.HandleFrame` | public/assets/chat-wire.js:263-325 | one live frame: set aside while a load is under way, else applied to blocks, dock and goal |
| `Wire.ChatPage.FinishLoad` | public/assets/chat-wire.js:197-239 | the load rebuilds blocks, bubbles, dock and goal from the response and the frames set aside, replacing what was there |
| `Wire.BubblesComplete` | public/assets/chat-wire.js:206-217 | no message sent from the page goes missing in a rebuild, and those still pending are the ones the history does not hold, each text once |
| `Dock.FrameKeepsWaiting` | public/assets/chat-wire.js:222-228 | a frame keeps the waiting messages in order, but for a queued one, which comes last; a turn_start takes the first out of the dock |
| `Dock.QueuedIsKept` | public/assets/chat-wire.js:200-239 | no message is lost: after the frame that queues it, and any frames and loads with histories that do not forget, it is in the dock, among those waited for, or in the blocks |
| `Dock.WaitingIsKept` | public/assets/chat-wire.js:304-307 | nor is one that waits already |
| `Dock.WaitingIsDrawn` | public/assets/chat-wire.js:210-217 | what still waits is drawn by every load |
| `Wire.UniqueFrames` | public/assets/ui.js:146-155 | the filter with its set keeps each frame once, at its first place |
| `Wire.FilterNew` | public/assets/chat-wire.js:220 | the frames the history already holds are left out |
| `Wire.HighestSeq` | public/assets/chat-wire.js:205 | the highest sequence number of a history, -1 for none |
| `WireLaws.NewFrames` | public/assets/chat-wire.js:205-220 | whatever other frames lie in between: of overlapping live and buffered runs of the log, exactly what is carried behind the history is new, in order and each once |
| `WireLaws.EchoFirst` | public/assets/chat-wire.js:70-75 | of a live list that begins with the echo of a message, the echo is new if and only if the newest user block has other words, and then comes first and once |
| `WireLaws.SessionShows` | public/assets/chat-wire.js:167-325 | what a page shows after a load and the stream that follows it, with or without an echo and bubbles, whatever it showed before |
| `WireLaws.EachOnce` | public/assets/chat-wire.js:24-29 | what a page is given behind the history is the log, each event once, if and only if the stream going on after the load carries nothing the page has (live frames are not checked against what is loaded) |
| `WireLaws.LiveIsRebuilt` | public/assets/chat-wire.js:167-325 | a load of an uncompacted history and any further frames give the fold of the whole log if and only if nobody speaks behind the history: the stream does not carry the log's user events |
| `WireLaws.EchoStandsIn` | src/routes/chat.ts:521-523 | with the echo on top, if and only if the user event has its words and time and nobody speaks after it |
| `WireLaws.LateStreamRedraws` | public/assets/chat-wire.js:309 | any event the stream delivers late is applied on top of a history that has it |
| `WireLaws.LateEchoRedraws` | public/assets/chat-wire.js:309 | an echo that comes by the stream after the load is drawn again, though in the live list it would have been left out |
| `WireEdges.ReachExact` | public/assets/chat-wire.js:205 | for every log and every prefix: the highest number of its compaction is that of the newest event that leaves its number, behind which there are only chunks of the turn in flight |
| `WireEdges.TakesExact` | public/assets/chat-wire.js:220 | of what is carried, a page with a compacted history takes exactly what is behind that reach |
| `WireEdges.MidTurnExact` | public/assets/chat-wire.js:205-230 | for every log, prefix, live list and frames set aside that overlap: a page that loads the compacted prefix takes exactly what follows it, in order and each once, if and only if no chunk behind its reach is still in the live list or set aside |
| `WireEdges.GoalExact` | public/assets/chat-wire.js:220-230 | the newest goal changed while the page loads, in the live list, set aside or both, is shown if and only if its number is above the history's or the response has it already |
| `CompactedLoads.CompactedSession` | public/assets/chat-wire.js:167-325 | what a page shows that loads a compacted history at any moment: on top of it the chunks it takes again, and then what is carried |
| `CompactedLoads.CompactedLoadDrawsLog` | public/assets/chat-wire.js:167-325 | such a page draws what the log says if and only if nobody speaks behind the history and each block of it is faithful, the open one with the chunks taken again and what completes it |
| `CompactedLoads.EchoedLoadDrawsLog` | public/assets/chat-wire.js:167-325 | and with the echo on top, if and only if the words and their time are the echo's besides |
| `CompactedLoads.FinishedLoadDrawsLog` | public/assets/chat-wire.js:167-325 | after whole turns: if and only if nobody speaks behind the history and the history is faithful |
| `CompactedLoads.CompactedMidTurnRepeats` | public/assets/chat-wire.js:205-230 | a history compacted in mid-turn that makes the live list repeat streamed text |
| `WireLaws.DoneTwiceAddsBlock` | public/assets/chat-reducer.js:245-256 | applying turn_done twice adds a block, although it is said to be safe |
| `WireLaws.EchoExact` | public/assets/chat-wire.js:70-75 | the echo of a message is left out if and only if the newest user block has its words |
| `WireLaws.EchoAfterContext` | public/assets/chat-wire.js:70-75 | so a message followed by injected context is drawn again |
| `HistoryCaches.HistoryCache.Get` | src/chat/history-cache.ts:24-35 | a hit within the time to live moves to the end and keeps its time; an expired entry is dropped |
| `HistoryCaches.HistoryCache.Set` | src/chat/history-cache.ts:37-45 | the entry goes to the end and the oldest are evicted down to the cap |
| `HistoryCaches.HistoryCache.Delete` | src/chat/history-cache.ts:47-49 | the entry is gone, the others keep their order |
| `HistoryCaches.RunKeepsBounds` | src/chat/history-cache.ts:24-49 | in every run the size stays within the cap and keys are distinct |
| `HistoryCaches.HitIsPlainHit` | src/chat/history-cache.ts:24-49 | after any run a hit is what a plain timestamped map answers: the value last set, no longer than the time to live ago |
| `HistoryCaches.SmallerHitsAreLargerHits` | src/chat/history-cache.ts:24-49 | LRU inclusion: after the same run every hit of a smaller cache is a hit of a larger one with the same value |
| `HistoryCaches.SetThenHit` | src/chat/history-cache.ts:31-44 | a value set is answered until it expires, whatever is done with fewer than max other keys |
| `HistoryCaches.HitThenHit` | src/chat/history-cache.ts:31-34 | a hit counts as a use but does not renew the entry |
| `HistoryCaches.MissIsGone` | src/chat/history-cache.ts:24-30 | after any run, an entry found expired is gone |
| `ChatTurns.SerialExact` | src/chat/turn-runner.ts:132-179 | from a serial state a step keeps the chat serial (at most one turn running, its controller the stored one, nobody waiting for nothing) if and only if it is no API call on a chat with a turn |
| `ChatTurns.RunsAreSerial` | src/chat/turn-runner.ts:132-179 | a run is serial throughout if and only if it has no such call |
| `ChatTurns.PageAloneIsSerial` | src/chat/turn-runner.ts:132-179 | a chat used from the page alone is serial throughout, whatever is queued, cancelled, aborted or archived |
| `ChatTurns.GuardSuffices` | src/routes/chat.ts:529-557 | the route looks for a registered turn only, and that is enough: when a message arrives and there is none, no drain is in flight and nothing waits |
| `ChatTurns.AbortHitsRunningTurn` | src/chat/turn-runner.ts:172-177 | an abort reaches the running turn and no other |
| `ChatTurns.AskOverlaps` | src/index.ts:410-417 | an API call on a busy chat runs two turns at once; the end of the first hides the second |
| `ChatTurns.StepConserves` | src/chat/queue.ts:27-79 | every step, intruding or not, splits the enqueued turns into cancelled, taken and waiting, in order and each once |
| `ChatTurns.RunsConserve` | src/chat/queue.ts:27-79 | and so does every run |
| `ChatTurns.RunsKeepMessages` | src/routes/chat.ts:529-557 | no accepted message is lost: over every run, intruding or not, turns started, waiting and cancelled grow by one for each message on a chat that is not archived and each API call |
| `ChatTurns.PostExact` | src/routes/chat.ts:529-557 | a message to an idle chat starts a turn at once, to a busy one waits last; an archived chat refuses it |
| `ChatTurns.CancelledNeverTaken` | src/chat/queue.ts:68-79 | a waiting turn that is cancelled, or whose chat is archived, is never taken |
| `ChatTurns.ArchivedUntilRestored` | src/routes/chat.ts:413-415 | between an archiving and the next restoring nothing waits and no message gets in; after it one does again |
| `ChatTurns.ChainStep` | src/chat/queue.ts:57-60 | a step of the chain starts what it takes off, loses nothing, and brings it nearer its end |
| `ChatTurns.ChainFinishes` | src/chat/queue.ts:40-61 | left to itself the chain cannot stop before every waiting turn was started in order, whether turns resolve or reject |
| `TurnRunners.TurnRunner.EnqueueTurn` | src/chat/queue.ts:27-32 | appends to the chat's queue and returns the position |
| `TurnRunners.TurnRunner.DrainChatQueue` | src/chat/queue.ts:40-61 | does what the chat's machine says: nothing while draining, else the next turn |
| `TurnRunners.TurnRunner.DrainEnded` | src/chat/queue.ts:57-60 | the end of a drain starts the next |
| `TurnRunners.TurnRunner.CancelQueuedTurn` | src/chat/queue.ts:68-74 | takes the id out of the queue, if it is there |
| `TurnRunners.TurnRunner.CancelQueuedTurns` | src/chat/queue.ts:77-79 | empties the queue |
| `TurnRunners.TurnRunner.StartChatTurn` | src/chat/turn-runner.ts:135-168 | registers a controller and a turn |
| `TurnRunners.TurnRunner.TurnEnded` | src/chat/turn-runner.ts:160-164 | unregisters the turn, its own controller only, and drains |
| `TurnRunners.TurnRunner.AbortTurn` | src/chat/turn-runner.ts:172-177 | answers whether there was a controller and aborts it |
| `TurnRunners.TurnRunner.PostMessage` | src/routes/chat.ts:529-557 | a message is queued behind a registered turn, else started |
| `TurnRunners.TurnRunner.ArchiveChat` | src/routes/chat.ts:413-415 | archiving drops the waiting turns |
| `TurnRunners.TurnRunner.OthersKept` | src/chat/queue.ts:18-19 | no operation on one chat changes another |
| `TurnBackstop.StepKeepsRight` | src/runner.ts:251-425 | every frame, timer and answer keeps the invariants of a turn's counters and timers |
| `TurnBackstop.EveryRun` | src/runner.ts:251-425 | at any moment of any run: the backstop is armed exactly when neither a human wait nor a tool explains the silence (always on an outward turn), the wait count is at most the unresolved asks, decline timers exist on outward turns for unresolved asks only, one decline at most for each |
| `TurnBackstop.AsksAdd` | src/runner.ts:581-592 | a recovery adds the asks not seen before, each once |
| `TurnAftermath.ReconnectSound` | src/runner.ts:623-638 | a turn kept alive by a reconnect has an ask nothing the manager saw resolved |
| `TurnAftermath.RunsCounted` | src/runner.ts:383-402 | on any turn, outward or inward, and over every run the count is exact while no ask is resolved that is not unresolved: none never seen, none counted off by its decline already |
| `TurnAftermath.StepCounts` | src/runner.ts:383-402 | what each step does to the waits counted and the asks unresolved, in any state |
| `TurnAftermath.RunsTimed` | src/runner.ts:280-323 | no ask of an outward turn is forgotten: while the turn goes on a decline timer runs for each unresolved ask no decline was sent for, if expired timers find theirs answerable |
| `TurnAftermath.EndsExact` | src/runner/turn.ts:67-77 | exactly what ends a turn: the end at the host, a reconnect with nobody waited for, silence, the time-out, a stop, a failure; it stays over, and its timers end with it |
| `TurnAftermath.TurnEndClears` | src/runner.ts:403-407 | the end at the host leaves nothing counted |
| `TurnAftermath.CancelledOnce` | src/runner.ts:651-659 | over every run the host is told to cancel once if a stop, a time-out or a silence comes, and never otherwise |
| `TurnAftermath.ToolsCounted` | src/runner.ts:385-390 | the tools counted are the calls without a result |
| `TurnAftermath.ReconnectExact` | src/runner.ts:623-638 | the count exact and the view in step with the host, a reconnect keeps the turn alive if and only if an ask is open |
| `TurnAftermath.ReconnectRightExact` | src/runner.ts:623-638 | on every turn, outward or inward, whatever was lost: a reconnect that learns the open asks ends the turn exactly when none is open, if and only if no wait is counted in that case and, in the other, a wait is counted or an open ask is new to the turn |
| `TurnAftermath.LostResolutionKeepsAlive` | src/runner.ts:631-633 | an ask closed during the outage keeps any turn that waits for it alive with nobody asked |
| `TurnAftermath.DeclinedTwiceEndsTurn` | src/runner.ts:301-305 | on an outward turn the double count of a declined ask makes a reconnect end the turn although another ask is open |
| `TurnAftermath.TwoAsksDeclineOne` | src/runner.ts:313-323 | any outward turn asked two things gets to where that happens |
| `TurnAftermath.DeclinesAfterEnd` | src/runner.ts:403-407 | a turn that is over grows a decline timer again if and only if a recovery in flight brings an unseen ask |
| `TurnAftermath.DeclinesAfterEndReached` | src/runner.ts:280-323 | a run that gets there |
| `TurnAftermath.SilenceAfterEnd` | src/runner.ts:304-305 | exactly what re-arms the backstop of a turn that is over: a decline that succeeds late, or a recovery |
| `TurnAftermath.LateCancel` | src/runner.ts:651-659 | such a backstop fires and has the host cancel the session, by then perhaps in its next turn |
| `TurnAftermath.LateCancelReached` | src/runner.ts:280-311 | a run that gets there |
| `TurnAftermath.QuietForGood` | src/runner/turn.ts:67-77 | a turn that ends with nothing in flight stays quiet, but for a stop by the user |
| `TurnWatches.TurnWatch.TrackAwaiting` | src/runner.ts:383-411 | counts asks and tools, schedules and cancels declines as the turn's machine says |
| `TurnWatches.TurnWatch.ArmSilence` | src/runner.ts:413-425 | arms or stands down the backstop |
| `TurnWatches.TurnWatch.ScheduleAutoDecline` | src/runner.ts:313-323 | at most one timer for an ask with an id, none for one without |
| `TurnWatches.TurnWatch.HandleFrame` | src/runner/turn.ts:216-219 | a frame is counted before the backstop is armed again; a second copy of an ask changes nothing |
| `TurnWatches.TurnWatch.OnFrame` | src/runner.ts:594-646 | the subscription: reconnects start a recovery, turn_end finishes the turn |
| `TurnWatches.TurnWatch.OnRecovered` | src/runner.ts:623-639 | the decision after a reconnect |
| `TurnWatches.TurnWatch.OnStarted` | src/runner.ts:668-675 | the recovery at the start arms the backstop for the first time |
| `TurnWatches.TurnWatch.OnGraceExpired` | src/runner.ts:318-321 | a grace timer fires once and sends at most one decline |
| `TurnWatches.TurnWatch.OnSilence` | src/runner.ts:421-424 | silence aborts the turn |
| `TurnWatches.TurnWatch.OnDeclined` | src/runner.ts:301-310 | a decline that succeeds counts the ask off and arms the backstop, over or not |
| `TurnWatches.TurnWatch.FinishTurn` | src/runner/turn.ts:74-77 | the first finish clears the timers, later ones do nothing |
| `MissedRuns.PassedIs` | src/cron/schedule.ts:76-87 | a boot sees the pending occurrences up to the cap, and its last one is where counting goes on |
| `MissedRuns.EveryOccurrenceOnce` | src/cron/schedule.ts:158-195 | over boots and attempts with a clock that does not run back, the last accounted time never moves back, the windows of missed records are disjoint, and every occurrence is in exactly one of them or was stepped over by an attempt |
| `MissedRuns.BootsRecord` | src/cron/schedule.ts:158-195 | with N occurrences pending k boots at one instant record min(100 k, N), and nothing more once all are recorded |
| `MissedRuns.DisabledMissesNothing` | src/cron/schedule.ts:158-165 | a schedule that is switched off misses nothing, however often the process boots |
| `MissedRuns.FirstBootMissesNothing` | src/cron/schedule.ts:166-175 | a row without a time to count from misses nothing at its first boots: counting begins there |
| `MissedRuns.BootMarks` | src/cron/schedule.ts:176-195 | what a boot records is of its row and at most the cap, and nothing else of the row changes |
| `Schedulers.Scheduler.RecordMissed` | src/cron/schedule.ts:158-195 | the loop does so for every enabled row and leaves the others alone |
| `Schedulers.Scheduler.BeginAttempt` | src/cron/schedule.ts:235-271 | when an attempt is refused, skipped or goes on, and what it writes then |
| `Schedulers.Scheduler.EndDone` | src/cron/schedule.ts:287-301 | a run that ends well clears the streak |
| `Schedulers.Scheduler.CountFailure` | src/cron/schedule.ts:318-355 | a failure is counted on the number read when the attempt began |
| `AutoDisable.EnabledBelowCeiling` | src/cron/schedule.ts:318-355 | however attempts overlap, an enabled schedule's counter stays below the ceiling |
| `AutoDisable.CounterExact` | src/cron/schedule.ts:318-321 | a step keeps the counter equal to the streak of the log if and only if it is no failure of an attempt that read another count |
| `AutoDisable.RunsCountExact` | src/cron/schedule.ts:235-355 | in every run, however attempts overlap, the counter is the streak throughout if and only if no failure ends on a stale count |
| `AutoDisable.DisableExact` | src/cron/schedule.ts:318-346 | while the counter is right a schedule is switched off if and only if a failure completes a full ceiling of consecutive ones |
| `AutoDisable.OffUntilSwitchedOn` | src/cron/schedule.ts:235-271 | a schedule that is off stays off until it is switched on, whatever is forced to run |
| `AutoDisable.SerialCounter` | src/cron/schedule.ts:235-355 | when attempts do not overlap the counter is at every moment the number of failures since the last success or switching on, skips aside |
| `AutoDisable.StreakIsFailures` | src/cron/schedule.ts:27-31 | a streak is made of that many real failures |
| `AutoDisable.StaleFailure` | src/cron/schedule.ts:318-321 | such a failure undoes a success that came before it, up to switching off after one failure |
| `AutoDisable.SwitchedOffAgain` | src/routes/cron.ts:133-150 | and undoes the operator's fresh start: a schedule switched on while a forced attempt runs can be switched off by its one failure |
| `AutoDisable.TogetherCountOnce` | src/cron/schedule.ts:318-321 | failures of attempts begun together count once |
| `DailyBudget.Overshoot` | src/cron/schedule.ts:204-227 | in every run the day's scheduled spend stays below the budget plus the price of the runs that may overlap |
| `DailyBudget.OvershootReached` | src/cron/schedule.ts:217 | the bound is reached to the micro-USD |
| `DailyBudget.BlockedUntilMidnight` | src/cron/schedule.ts:204-227 | once a run of the day has no known price, or the spend has come to the budget, no scheduled run begins before midnight |
| `DailyBudget.LedgerAdds` | src/cron/schedule.ts:204-227 | within a day the ledger has every cost and every usage without a price |
| `EnvMerge.MergeEnv` | src/cli/setup.ts:155-191 | the loops compute the merged settings and the written text |
| `EnvLaws.RoundTripExact` | src/cli/setup.ts:155-191 | reading the written text gives the merged settings if and only if every given value that was taken has a proper key and is non-empty, on one line, without space at its end |
| `EnvLaws.ExistingWins` | src/cli/setup.ts:164-167 | read back, an existing value is unchanged unless its key is forced |
| `EnvLaws.SecondMerge` | src/cli/setup.ts:168-189 | a second merge gives the same settings and the same lines but for carriage returns at their ends |
| `EnvLaws.SecondMergeExact` | src/cli/setup.ts:168-189 | it writes the identical text if and only if no line left alone ends in a carriage return |
| `EnvLaws.CommentsKept` | src/cli/setup.ts:170-183 | comments and blank lines keep their text and order, up to line endings |
| `EnvLaws.PrintParses` | src/cli/setup.ts:159 | a proper setting survives being printed and read |
| `EnvLaws.ParsedIsPrintable` | src/cli/setup.ts:159 | and only proper settings are ever read |
| `ConfigIsolation.Check` | src/config.ts:718-925 | the checks let a configuration through if and only if no endpoint is shared, every service is sound, machines are one-sided and serve one entered service; a reported problem is there |
| `ConfigIsolation.IsolatedByHosts` | src/config.ts:457-458 | in terms of the hosts endpoints are spawned on: let through if and only if no endpoint is shared, services are sound, and agents that share a host, or have none, can be there together |
| `ConfigIsolation.CheckEndpoints` | src/config.ts:718-737 | true if and only if no two agents share an endpoint |
| `ConfigIsolation.CheckService` | src/config.ts:821-883 | true if and only if every worker exists and is public, pinning and machines agree, the pinned count fits and the count is the number of workers |
| `ConfigIsolation.ServiceOfAgent` | src/config.ts:895-896 | a worker is entered under the last service that lists it |
| `ConfigIsolation.CheckMachine` | src/config.ts:904-924 | finds a mixed machine or one with two entered services, or that there is neither |
| `ConfigIsolation.OneServiceExact` | src/config.ts:886-924 | a configuration let through keeps each machine to one service if and only if no worker is listed by two |
| `ConfigIsolation.CountExact` | src/config.ts:877-883 | a service of a configuration let through has as many distinct workers as it counts if and only if its list has no repeats, and never more |
| `ConfigIsolation.FitExact` | src/config.ts:868-873 | a pinned service as large as its machine list allows fits on the machines there are if and only if that list has no repeats |
| `ConfigIsolation.RepeatedWorkerAccepted` | src/config.ts:877 | a worker listed twice counts twice |
| `ConfigStore.ConfigFile.Mutate` | src/config-store.ts:95-136 | on every exit the file has its previous text or a validated new one, unless the restoring write fails, and the outcome says which |
| `ConfigStore.LeavesExact` | src/config-store.ts:95-136 | a change that parses, is written and validates takes effect; any other leaves the text, unless it can neither stand nor be taken back |
| `ConfigStore.LockComposes` | src/config-store.ts:20-24 | every run of calls, promise reactions and throws: at most one operation is under way, they start in call order, and the text is the composition of those over |
| `ConfigStore.LockDrains` | src/config-store.ts:20-24 | an operation that throws blocks nobody: a chain that can go no further has run every operation |
| `ConfigStore.LockTerminates` | src/config-store.ts:20-24 | and it gets there, within three steps for each call |
| `ConfigStore.ThrowWouldBlock` | src/config-store.ts:20-24 | without the second handler of the tail a throw would reject the next operation unrun |
| `ConfigStore.LockedWrites` | src/config-store.ts:95-136 | validated writes under the lock compose in the order of their calls |
| `ConfigStore.StaysValid` | src/config-store.ts:115-135 | over any run of writes, whichever throw or fail, a valid file stays valid throughout if and only if no restoring write fails |
| `Pricing.UsageMonoid` | src/frames.ts:62-74 | usage is an associative, commutative sum with absence as identity |
| `Pricing.PeakIsCyclic` | src/pricing.ts:135-142 | a minute is peak time if and only if it lies within some window, going round the clock |
| `Pricing.CostMonotone` | src/pricing.ts:177-183 | more tokens never cost less |
| `Pricing.Accrue` | src/runner/turn.ts:229-239 | the accounts of a turn: usage, cost, the peak share of the cost and whether all of it had a rate |
| `Pricing.PriceExact` | src/pricing.ts:168-183 | a charge is within half a micro-USD of input and output tokens at their rates and cache tokens at rates of their own or else the input rate, at peak rates exactly at peak time where there are some |
| `Pricing.CounterPriced` | src/pricing.ts:177-183 | what each kind of tokens alone is charged at |
| `Pricing.UsageTotals` | src/frames.ts:62-74 | the usage of a turn has each counter some response has, and it is the sum |
| `Pricing.TurnPriced` | src/runner/turn.ts:229-239 | a turn on one side of the clock costs its summed counters at their rates, but for half a micro-USD for each response |
| `Pricing.PeakShare` | src/runner/turn.ts:229-239 | the peak share is what the peak-time responses alone cost where the model has a peak rate, and never more than the whole |
| `Pricing.RoundingBound` | src/pricing.ts:183 | a turn's cost is off the exact one by at most half a micro-USD for each response charged |
| `Pricing.SumPriceBound` | src/pricing.ts:177-183 | pricing the summed usage differs from the sum of n prices by at most (n + 1) / 2 |
| `Pricing.UnpricedIsUnknown` | src/pricing.ts:168-169 | without a rate a turn that used anything has no known cost |

## Left out

- Routes, sockets, DOM, menus, translation and drawing, apart from the two routes that start turns: input, output or presentation.
- The relay (src/chat/relay.ts): a late `drop` of an old relay can unregister a newer one, so delivery to every watcher does not hold as written.
- Daylight saving and time zones: one fixed offset stands for the local calendar.
- Equal modification times of two snapshots, and the difference between a snapshot's time and its file's.
- Object identity in the transcript: blocks, tools and merged chunks are changed in place through references; the models hold them as values inside the one list or map that owns them, so aliasing is not captured.
- Parsed tool arguments, paths and the write flag, which are functions of a tool's name and raw arguments.
- Run rows attached to the blocks after a rebuild (public/assets/chat-reducer.js:273-284).
- WireLaws.LiveIsRebuilt: local bubbles of messages the history does not hold are assumed absent; `SessionShows` has them.
- WireLaws.SessionShows: one echo, at the start of the live list. The echo of a message sent while a turn runs stands in the middle of that turn until the load that follows it; and a `turn_done` frame is followed by a load of its own.
- CompactedLoads.CompactedLoadDrawsLog: the live list begins no later than the frames set aside, or than the history's reach; only a page that has been loading since before the turn in flight could see it otherwise, and then frames come out of order.
- The goal line before a page's first load, the composer and delegation frames, and what the composer itself puts into or takes out of the waiting messages (public/assets/chat-composer.js:365, 418-427).
- Dock.QueuedIsKept: histories that do not forget what users said; a failed load, which leaves an error page, is not modelled.
- `closeQueues`, which a shutdown calls.
- The approval registry rows and the audit log of a turn (src/runner.ts:340-381), and the git snapshots around it.
- Rows of schedules added or removed, and edits of a pattern, between boots.
- DailyBudget.Overshoot: the number of overlapping runs and the cost of one are parameters, as the code bounds neither.
- The model pinning, sandbox, port and proxy checks of `loadConfig`: single-record conditions.
- ConfigStore.ConfigFile.Mutate: a file write is all or nothing; the in-place fallback of `writeFileAtomic` (src/config-store.ts:50-73) can leave a partial file.
- The lookup of a model's rate by provider and name (src/pricing.ts:118-129); a rate, or none, is given.
- Floating-point error of `computeCost` and the calendar of `isWeekend`.
- Markdown rendering, encryption, tokens, node spawning and placement.
