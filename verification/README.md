# Verification of the chat server's concurrent state

This project models the parts of the chat server in which many tasks change shared state at once,
and proves what holds in every interleaving of them. `dafny verify dfyconfig.toml` checks all of it.

How the model is built:

- An object whose methods update its fields (connection counters, lanes, limiter, registry, caches,
  stored documents) is a class here, with one method per source operation. A method's contract ties
  the new state to a function of the old one.
- Code that awaits between its updates is a machine: a step function over explicit state, whose
  events name the task that moves and everything the task does not decide itself (clock readings,
  database errors, query results, evicted entries). A run is any sequence of enabled events, so all
  interleavings are runs. Each database update with a filter, and each critical section of a mutex,
  is one step; machines and methods share the functions that say what such a step does.
- Theorems about runs are proved from invariants that every step keeps (`Runs.RunKeeps`).

Modules: `SocketAccounting`, `ConnectionRegistry`, `Presence`, `FifoLanes`, `TypingQueue`,
`RateLimiter` (WebSocket runtime); `ConversationTips`, `UnreadSync`, `PairKeys`, `ChannelReadStates`,
`ChannelFanout`, `FanoutTask` (denormalised tips and unread counters); `NonceCreate`, `SoftDelete`,
`InviteUses`, `ReactionToggles` (claim and reserve protocols); `AccessCaches`, `ChannelPaging` (simple
against fast forms). `Runs` and `Counting` hold what they share.

## Where the code and its description part ways

In each of these cases the code is modelled as written.

- After a delete the tip is not always the newest live message: the refresh uses the forward-only
  upsert. `ConversationTips.RefreshMendsExactlyWhenNewer` says exactly when it is, and
  `ConversationTips.DeletedMessageCanStay` reaches the other case from any two messages.
- A live message can lose its tip when message keys do not grow in insertion order.
  `ConversationTips.SafeExactlyWhenGrowing`: sending a sequence of messages is safe in every
  interleaving if and only if its keys grow.
- An answer of the unread sync is the true count, but a write that lands between the read-back and
  the recount leaves the field different. `UnreadSync.TipMatchesExactlyWhenUnexposed` says, for any
  set of moments at which others may act, whether that can happen.
- Connected implies online once all tasks have run, but the converse fails: a late connect task
  leaves a user without sockets online. `Presence.EndsOfflineExactlyWhen` and
  `Presence.OfflineLastsExactlyWhenDeparted` say exactly when it holds;
  `Presence.OnlineCanOutliveTheLastSocket` is an instance of the failure.
- The rate limiter does not keep to its maximum in every window of its length.
  `RateLimiter.WindowHoldsExactly` gives the exact number of admissions a window can hold,
  `RateLimiter.MaximumIsEnforcedExactlyWhen` the limits for which it is the maximum.
- A user's jobs are meant to run one at a time, but for a disconnected user the lane GC asks
  only whether a job is running or the lane was used recently, not whether one is waiting. It can
  drop a lane with work left, and the lane started on reconnect then runs beside it. `FifoLanes.OneWorkerExactlyWhenNoWorkDropped` and
  `FifoLanes.OverlapExactlyWhenOrphanHasWork` are the exact conditions.
- A refund of an invite use whose own database call fails is never retried. It stays in the
  conservation equation as a lost refund (`InviteUses.UsesAreConserved`).

## Model

| member | source | states |
|---|---|---|
| `SocketAccounting.SocketCounters.RegisterConnection` | src/ws/state.rs:332-341 | refuses the seventh socket of a user without changing anything; otherwise counts it and says whether it is the first |
| `SocketAccounting.SocketCounters.UnregisterConnection` | src/ws/state.rs:394-403 | gives one user slot back; the last one removes the entry |
| `SocketAccounting.SocketCounters.RegisterIpConnection` | src/ws/state.rs:351-374 | succeeds exactly below both caps whatever the CAS does; a refusal leaves total and map as they were |
| `SocketAccounting.SocketCounters.UnregisterIpConnection` | src/ws/state.rs:376-392 | gives back the IP slot, and the total exactly when an entry was there |
| `SocketAccounting.HandleSocket` | src/ws/mod.rs:284-335 | a socket alone is served exactly below all caps with a working cipher, and every exit leaves counters and registry as they were found |
| `SocketAccounting.AloneItIsServedExactlyWhenWelcome` | src/ws/mod.rs:284-304 | a task of the interleaved model alone is served, under a fresh id and listed last, if and only if total, IP and user are below 2048, 24 and 6; else it closes and leaves every counter as it was |
| `SocketAccounting.AloneItLeavesNothing` | src/ws/mod.rs:495-499 | a live task alone gives back one of each counter and its own entry, and nothing else |
| `SocketAccounting.RevocationIsExact` | src/ws/registry.rs:176-206 | a revocation takes exactly the named entries and touches no counter |
| `SocketAccounting.SocketsAreAccounted` | src/ws/mod.rs:284-335 | in every interleaving the global total is the per-IP sum plus tasks inside the register and unregister windows; all three caps hold; no zero entries; a user's registry entries never outnumber its sockets |
| `SocketAccounting.ReleasesAlwaysLand` | src/ws/mod.rs:495-499 | whatever a task will give back is counted, so no release misses and the total never wraps below zero |
| `SocketAccounting.AllClosedReleasesEverything` | src/ws/mod.rs:284-335 | when all socket tasks have ended, by whichever exit, total, maps and registry are empty |
| `ConnectionRegistry.Registry.Register` | src/ws/registry.rs:91-111 | a fresh id, listed last for its user |
| `ConnectionRegistry.Registry.Unregister` | src/ws/registry.rs:113-121 | removes that id only; a user without entries leaves the map |
| `ConnectionRegistry.UnregisterTakesOne` | src/ws/registry.rs:113-121 | takes out that one socket wherever it stands, keeps the order of the others, and unlists a user left without any |
| `ConnectionRegistry.KeepInOrder` | src/ws/registry.rs:116-184 | retaining and partitioning keep the order of the entries |
| `ConnectionRegistry.Registry.DisconnectFamily` | src/ws/registry.rs:176-195 | keeps the user's other sockets in order and closes exactly those of the family |
| `ConnectionRegistry.FamilyIsPartitioned` | src/ws/registry.rs:182-184 | every socket of the user is either kept or closed, none twice |
| `ConnectionRegistry.UnregisterUndoesRegister` | src/ws/registry.rs:91-121 | unregistering the fresh id restores the registry |
| `ConnectionRegistry.Registry.DisconnectUser` | src/ws/registry.rs:197-206 | drops and closes exactly the user's sockets |
| `Presence.OnUserDisconnected` | src/ws/handlers.rs:3427-3467 | the flag is written offline only if all six guards saw no socket, and ends as the look after the write says |
| `Presence.OnlyTheFirstAnnounces` | src/ws/mod.rs:289-311 | a connect task is spawned exactly by a socket that finds no other of its user, and a seventh socket is refused |
| `Presence.OnlyTheLastDisconnects` | src/ws/mod.rs:501-582 | a disconnect task is spawned exactly by a socket that leaves no other of its user |
| `Presence.SocketsHoldTheFlag` | src/ws/handlers.rs:3427-3467 | with a socket there, a disconnect task ends at its next guard without writing, a recheck goes on to repair, and connect and repair tasks write online |
| `Presence.OfflineIsAlwaysOwed` | src/ws/handlers.rs:3427-3467 | a user with a counted socket who shows as offline has a task that still owes an online write or another look at the count |
| `Presence.ConnectedImpliesOnlineAtRest` | src/ws/mod.rs:569-582 | once every spawned task has run, connected implies online |
| `Presence.DebtCanBePaid` | src/ws/handlers.rs:3318-3322 | the owing task, or the one it spawns, is enabled and pays within two actions |
| `Presence.OfflineLastsExactlyWhenDeparted` | src/ws/handlers.rs:3318-3467 | in any reachable state, a user without sockets who shows as offline stays so until somebody new arrives if and only if every task is leaving, waiting, rechecking or gone |
| `Presence.EndsOfflineExactlyWhen` | src/ws/handlers.rs:3318-3467 | from any reachable state without sockets, the tasks that are left end with the user offline in every order if and only if none of them is a half-open socket, a connect task or a repair, and the flag is down or some task has yet to write it down |
| `Presence.OnlineCanOutliveTheLastSocket` | src/ws/mod.rs:306-311 | an instance of the failing case: a connect task scheduled last leaves a user without sockets online |
| `FifoLanes.FifoMap.Gc` | src/ws/state.rs:85-105 | keeps exactly the entries whose worker has not ended and that are busy, connected or used within 60 s, unchanged |
| `FifoLanes.FifoMap.Spawn` | src/ws/state.rs:137-173 | a new worker with the job as its first, replacing the entry |
| `FifoLanes.FifoMap.Enqueue` | src/ws/state.rs:107-135 | after the collection, refuses a job if and only if the user's lane is still there with `cap` jobs waiting; else the job goes to the end of that lane, or to a new worker; the entry's time of use is now |
| `FifoLanes.RefusedExactlyWhenFull` | src/ws/state.rs:119-134 | in any reachable state a job is refused exactly when the entry's queue is full; an accepted one is the last of that queue or starts a worker; other users and workers are untouched |
| `FifoLanes.RecoveryBranchesUnreachable` | src/ws/state.rs:119-132 | an entry's worker is alive and its channel open, so the dead-slot and closed-channel branches never run and the GC test is busy, connected or recent |
| `FifoLanes.ReachableStatesAreOrdered` | src/ws/state.rs:107-173 | in every reachable state each worker has run a prefix of what it accepted, holds at most one job, and queues the rest in order within the cap |
| `FifoLanes.LaneRunsAcceptedJobsInOrder` | src/ws/state.rs:85-173 | from any reachable state, while a user stays connected, one worker runs exactly the accepted jobs in acceptance order, one at a time, at most `cap` waiting: the lane still there from before, after its earlier jobs, or else one new lane |
| `FifoLanes.CollectedLaneDrainsInAnyRun` | src/ws/state.rs:85-173 | in any run, a lane dropped by the GC has exactly its remaining actions less those taken still to go, is never stuck, and has ended if and only if it took them all, with everything it accepted run |
| `FifoLanes.OneWorkerExactlyWhenNoWorkDropped` | src/ws/state.rs:85-173 | along any run a user's unfinished jobs stay with one worker, the entry's, if and only if they start there and no collection drops the lane while a job is waiting or just received |
| `FifoLanes.OverlapExactlyWhenOrphanHasWork` | src/ws/state.rs:85-173 | in any reachable state, two jobs of a user can come to run at once without any further collection if and only if a worker other than the entry's already has work of that user |
| `FifoLanes.WaitingJobCanOverlap` | src/ws/state.rs:91-104 | such a state is reachable for any user, job and cap: a waiting job's lane is dropped for idleness and the user comes back |
| `TypingQueue.Coalesce` | src/ws/state.rs:256-272 | a frame of the same chat and flag is replaced where it stands; else the chat's other frame is taken out, the first frame goes if 512 are waiting, the others keep their order, and the new frame is last |
| `TypingQueue.TypingMap.Gc` | src/ws/state.rs:238-247 | removes exactly idle, empty, disconnected and stale slots |
| `TypingQueue.TypingMap.Submit` | src/ws/state.rs:235-279 | one submission: the queue changes as above, the slot is running and just used, a worker is spawned exactly when none ran, other users keep what the collection keeps |
| `TypingQueue.TypingQueueIsSound` | src/ws/state.rs:223-297 | in every reachable state: one frame per chat, at most 512, waiting work implies running, running means exactly one worker, and per chat the started jobs plus the waiting one are an ordered part of the submitted ones that ends with the last unless it was evicted |
| `TypingQueue.NoFrameOvertakes` | src/ws/state.rs:256-296 | in any run, while a chat's frame waits, nothing of that user is started but frames of chats that were ahead of it |
| `TypingQueue.StartedJobsRun` | src/ws/state.rs:281-295 | in every run the job in a worker's hands is the one it took from the head of the queue, the last started for its user and chat |
| `TypingQueue.GcSparesWorkers` | src/ws/state.rs:238-285 | the GC never removes or changes the slot of a worker that has not stopped |
| `TypingQueue.WorkerDrains` | src/ws/state.rs:279-296 | without new submissions a worker empties its queue, clears `running` and stops, in a known number of actions |
| `TypingQueue.OthersDoNotDelay` | src/ws/state.rs:279-296 | no event of another user or worker disables a worker's next action or adds to its remaining work |
| `TypingQueue.WorkerDrainsInAnyRun` | src/ws/state.rs:223-297 | in any run without new submissions by that user, the worker stops if and only if it has taken its remaining actions, is enabled until then, and leaves nothing waiting and `running` clear |
| `RateLimiter.Limiter.Gc` | src/ws/state.rs:309-314 | drops exactly the expired entries and the users left without any |
| `RateLimiter.Limiter.CheckRateLimit` | src/ws/state.rs:299-330 | a missing or expired entry opens a new window, a current one counts up to the maximum; every 64th call also drops exactly the expired entries; other entries are kept |
| `RateLimiter.GcIsInvisible` | src/ws/state.rs:299-330 | with a clock that does not go back, the GC changes no decision of any run, state clears included |
| `RateLimiter.FewerThanTwiceMaxPerWindow` | src/ws/state.rs:299-330 | from any state with nothing on record for the user and action, whatever is recorded for others and wherever the GC counter stands, until the next clear: any closed interval no longer than the window holds fewer than 2 * max admissions |
| `RateLimiter.EveryStretchKeepsTheBound` | src/ws/state.rs:463-466 | in a run from the very beginning, the decisions on every stretch that starts the run or follows a clear of the user keep to that bound |
| `RateLimiter.BoundIsReached` | src/ws/state.rs:316-329 | from any such state, for any limit and any window of some length, three bursts put any number of admissions below 2 * max into one closed window, GC included |
| `RateLimiter.WindowHoldsExactly` | src/ws/state.rs:299-330 | from any such state, a closed window can hold n admissions if and only if n is at most max, or the window has some length and n is below 2 * max |
| `RateLimiter.MaximumIsEnforcedExactlyWhen` | src/ws/state.rs:299-330 | from any such state, no closed window between clears ever holds more than max if and only if max is at most one or the window is empty |
| `ConversationTips.TipDoc.Upsert` | src/utils/tips.rs:82-143 | the guarded, forward-only update of the tip |
| `ConversationTips.TipDoc.ClearIfShown` | src/utils/tips.rs:347-354 | clears the tip only while it shows the named message |
| `ConversationTips.UpsertsKeepTheGreatest` | src/utils/tips.rs:82-194 | after any list of upserts the tip is the greatest message by (timestamp, id), with the text of its last upsert |
| `ConversationTips.UpsertsAreConfluent` | src/utils/tips.rs:109-119 | any order and repetition of the same upserts gives the same tip key |
| `ConversationTips.UpsertMovesForward` | src/utils/tips.rs:168-179 | the tip key never decreases, and a greater message always takes over |
| `ConversationTips.ClearsOnlyDeadTips` | src/utils/tips.rs:294-356 | in every interleaving of sends, deletes and refreshes, a clear only ever removes the tip of a deleted message |
| `ConversationTips.LiveMessagesStayBelowTip` | src/utils/tips.rs:380-464 | if keys grow in insertion order, every live message whose upsert has run is at most the current tip |
| `ConversationTips.OlderClockCanLoseTheTip` | src/utils/tips.rs:399-464 | for any two messages sent with keys in the wrong order, a run in which the second is live, upserted and without any tip |
| `ConversationTips.SafeExactlyWhenGrowing` | src/utils/tips.rs:82-194 | for any sequence of sent messages: every interleaving keeps every live upserted message at or below the tip if and only if the keys grow in that order |
| `ConversationTips.DeletedMessageCanStay` | src/utils/tips.rs:294-356 | for any two messages, even with growing keys, a run whose refresh has ended with the deleted newer message on display and the older one live |
| `ConversationTips.RefreshMendsExactlyWhenNewer` | src/utils/tips.rs:294-356 | a refresh shows a live message again if and only if the newest live message is newer than the deleted one; the tip goes exactly when nothing is live |
| `ConversationTips.RefreshDmTip` | src/utils/tips.rs:294-356 | leaves a tip that shows another message, else upserts the newest live message, else clears |
| `ConversationTips.UndisturbedRefresh` | src/utils/tips.rs:294-356 | the refresh task, run alone, ends in exactly that state |
| `ConversationTips.UndisturbedUpsert` | src/utils/tips.rs:82-194 | an upsert alone shows a live message unless a greater one is shown, and a deleted message changes nothing |
| `ConversationTips.UndisturbedRecompute` | src/utils/tips.rs:399-464 | a recompute alone puts the newest live message through the guard, and takes the tip away exactly when nothing is live |
| `ConversationTips.UndisturbedChannelRefresh` | src/utils/tips.rs:380-397 | the channel refresh does that only while the deleted message, or none, is shown |
| `UnreadSync.TrySync` | src/utils/tips.rs:257-292 | the loop computes the specified rounds of write, read back and recount |
| `UnreadSync.AnswerIsCertified` | src/utils/tips.rs:257-292 | at most four rounds under any interference; an answer was written, then read back, then recounted and is true on return; the tip shows it if and only if no other write came between that read and that recount |
| `UnreadSync.FailureMeansNoAnswer` | src/utils/tips.rs:257-292 | after a failed count, write or read there is no answer |
| `UnreadSync.AnswersOnceQuiet` | src/utils/tips.rs:257-292 | if the tip stays, nothing fails and interference stops before the third recount, the true count is returned; if it stops before the first recount, the tip equals it |
| `UnreadSync.TipMatchesExactlyWhenUnexposed` | src/utils/tips.rs:257-292 | with others acting only at given moments, every answer is on display if and only if no recount that can be reached is among them; reaching a later round takes interference in each round before |
| `UnreadSync.TipMatchesExactlyWhenQuietInTime` | src/utils/tips.rs:257-292 | interference that ends before operation `from` always leaves the answer on display if and only if `from` is at most 3, the first recount |
| `UnreadSync.AnswerCanMissTheTip` | src/utils/tips.rs:257-292 | for any count and any other value, one write just before the first recount, and nothing after it, leaves the answer true and the tip at that value |
| `PairKeys.PairKeySymmetric` | src/utils/tips.rs:69-76 | both sides compute the same key and roles |
| `PairKeys.PairKeyInjective` | src/utils/tips.rs:69-76 | equal keys mean equal unordered pairs |
| `PairKeys.KeyInOrder` | src/utils/tips.rs:69-76 | the key is the smaller hex id, a colon and the greater one, and the roles follow it |
| `PairKeys.TipCollection.OpenTip` | src/utils/tips.rs:82-143 | the first upsert creates the pair's document with both counters at zero; later ones keep the counters |
| `PairKeys.TipCollection.BumpDmUnread` | src/utils/tips.rs:196-217 | with a document, the recipient's counter is one greater, or one if there was none; every other cell, the sender's too, is unchanged; says whether a document was there |
| `PairKeys.TipCollection.SetDmUnread` | src/utils/tips.rs:219-236 | with a document, the viewer's cell is the given count and every other cell is unchanged; says whether a document was there |
| `PairKeys.TipCollection.LoadTips` | src/utils/tips.rs:466-513 | maps exactly the friends that have a tip to the viewer's own counter, whatever order the documents come in |
| `PairKeys.StepRefines` | src/utils/tips.rs:196-255 | each operation on paired documents is one operation on a table from (viewer, peer) to counter: it touches that cell and no other |
| `PairKeys.RunRefines` | src/utils/tips.rs:196-255 | so is any run of them |
| `PairKeys.ReadsAreTableReads` | src/utils/tips.rs:238-255 | after any run every read returns the table's entry |
| `FanoutTask.Targets` | src/ws/handlers.rs:913-924 | each member once, and every member but the sender is an unread target once |
| `ChannelReadStates.ReadStates.BumpUnread` | src/model/read_state.rs:105-132 | an existing document gets one more unread and a new update time and keeps watermark and creation time; a missing one starts at one unread with its watermark just before the message; nobody else is touched |
| `ChannelReadStates.ReadStates.BumpUnreadMany` | src/model/read_state.rs:134-162 | the batches of 32 bump every user once, in effect in list order, and return exactly the failed ones |
| `ChannelReadStates.ReadStates.Upsert` | src/model/read_state.rs:76-103 | zeroes the counter, moves the watermark just before now, keeps the creation time and all other users |
| `ChannelReadStates.ReadStates.SeedIfMissing` | src/model/read_state.rs:164-189 | writes only a missing document |
| `ChannelReadStates.BumpsRaiseByOne` | src/model/read_state.rs:105-162 | after a batch exactly the successful users have been bumped once, field by field as above, and all others are as before |
| `ChannelReadStates.BatchOrderIsIrrelevant` | src/model/read_state.rs:147-158 | the concurrent bumps of a batch may run in any order |
| `FanoutTask.Look` | src/ws/handlers.rs:1040-1050 | splits the users into those with the captured generation and the others |
| `FanoutTask.Classify` | src/ws/handlers.rs:1160-1175 | after the bump: failed, changed or deleted go to the recount list, the rest to the delta list |
| `FanoutTask.FanOut` | src/ws/handlers.rs:1005-1205 | the task performs the specified sequence of looks, bumps, deltas and recounts, bumps once exactly the targets that two looks found unchanged unless the message was seen deleted by then, writes nothing else, and hands over exactly the users whose last recount gave no answer |
| `ChannelFanout.BumpedExactlyWhenReached` | src/ws/handlers.rs:1086-1153 | a bump is in the task's log, with its result, exactly for those targets |
| `ChannelFanout.FanOutIsTruthful` | src/ws/handlers.rs:1005-1205 | every recount in the log carries the recount's own answer, and every look what it saw |
| `FanoutTask.RetrySilent` | src/ws/handlers.rs:1206-1226 | a user is sent a count if and only if one of three attempts answers, and then the first answer |
| `ChannelFanout.EveryTargetIsSettledOnce` | src/ws/handlers.rs:1005-1205 | for any generations, failures and deletions, the users told by a delta or a recount are exactly the targets, each as often as it is one |
| `ChannelFanout.DeltaExactlyWhenUndisturbed` | src/ws/handlers.rs:1160-1183 | a target gets a delta if and only if no look saw another generation, no answer said deleted and its bump succeeded; the delta carries the captured generation |
| `ChannelFanout.RecountExactlyWhenDisturbed` | src/ws/handlers.rs:1005-1205 | a target is recounted if and only if one of these fails |
| `ChannelFanout.EveryDeltaIsEarned` | src/ws/handlers.rs:1146-1183 | before each delta come, in this order, that user's successful bump, an answer that is not deleted, and a look at the generation it carries |
| `ChannelFanout.DeltaIsWorthOne` | src/model/read_state.rs:105-132 | among any writes of others, before, between and after: a member told "+1" has a counter one higher than without the task until somebody overwrites it after the bump, and the same from then on |
| `FanoutTask.Notify` | src/ws/handlers.rs:1053-1066 | mention notices go to exactly the mentioned targets that are known not to be muted |
| `FanoutTask.Broadcast` | src/ws/handlers.rs:913-1066 | a replay only recounts every target; a new message is fanned out, with notices unless it is known to be gone at once |
| `NonceCreate.Nonce` | src/model/messages.rs:320-325 | a usable nonce is trimmed of Unicode white space, non-empty and at most 64 bytes in UTF-8; anything else counts as none |
| `NonceCreate.NonceIsTheMiddle` | src/model/messages.rs:320-325 | trimming takes white space off both ends and nothing else, and the nonce is the rest when that is neither empty nor too long |
| `NonceCreate.ByteLenAdds` | src/model/messages.rs:320-325 | the length is the sum of one to four bytes per character |
| `NonceCreate.Messages.InsertOne` | src/model/messages.rs:297-307 | the unique partial index refuses exactly a second document of one sender and nonce |
| `NonceCreate.Messages.Create` | src/model/messages.rs:314-419 | for every input, with anything inserted or deleted by others between lookup and insert: a working lookup that finds the nonce decides between replay and conflict; otherwise a working insert with a free nonce creates exactly that document; otherwise the second lookup decides, and only if it fails or finds nothing is the answer an error |
| `NonceCreate.AloneFromTheStart` | src/model/messages.rs:314-419 | a call of the interleaved model that nobody interferes with ends, answered and stored in exactly that way |
| `NonceCreate.EveryRunKeepsInv` | src/model/messages.rs:314-419 | in every interleaving of creates and deletes, sender and nonce stay unique and every success points at a document of its own sender, nonce and scope |
| `NonceCreate.SameNonceSameMessage` | src/model/messages.rs:327-419 | two successes with one sender and nonce got the same document for the same recipient and channel, and at most one created it |
| `NonceCreate.DeletedIsNeverReplayed` | src/model/messages.rs:327-419 | in any run, no call that was undecided when a message was deleted, or began later, ends in its replay |
| `NonceCreate.TakenNonceNeverCreates` | src/model/messages.rs:327-419 | in any run, once a nonce is taken, every call of that sender undecided then or begun later ends in that document's replay, a conflict or a database error, and no other document gets the nonce |
| `NonceCreate.DeletedOriginalConflicts` | src/model/messages.rs:327-419 | such a call that meets a deleted original ends in a conflict or a database error |
| `SoftDelete.MessageDoc.MarkAsRead` | src/ws/handlers.rs:1615-1640 | flips `read` once and says whether it did, deleted or not |
| `SoftDelete.MessageDoc.SoftDeleteActive` | src/model/messages.rs:436-467 | the two filtered updates, with reads and deletes allowed in between; the message ends deleted |
| `SoftDelete.ExactlyOneDeleteWins` | src/model/messages.rs:436-467 | among any concurrent deletes, mark-reads and wipes: once the message is deleted exactly one delete reports it, with `was_unread` as the flag at that instant, unless a wipe deleted it, and then none does |
| `SoftDelete.SomeDeleteWins` | src/model/messages.rs:436-467 | if a delete ended without a database error, the message is deleted, and one delete reported it if and only if no wipe came first |
| `SoftDelete.AloneItDeletes` | src/model/messages.rs:448-466 | a delete that nobody interferes with deletes the message and reports whether it was unread, or finds it deleted already |
| `SoftDelete.DeletedExactlyWhen` | src/model/messages.rs:448-463 | the message becomes deleted in exactly a wipe, a first update on an unread message, or a second update |
| `SoftDelete.ReadExactlyWhenMarked` | src/ws/handlers.rs:1615-1724 | it becomes read in exactly a successful mark-read, or a marking of the conversation that does not skip it as deleted |
| `SoftDelete.RecordIsTheDeletingInstant` | src/utils/messages/search.rs:270-285 | the message becomes deleted either in the update of the task on record, which keeps `read` as recorded, or in a wipe |
| `SoftDelete.FlagsOnlyRise` | src/ws/handlers.rs:1615-1622 | `read` and `deleted` only go from false to true, and the deletion on record never changes |
| `InviteUses.InviteDoc.TryRegisterUse` | src/model/invites.rs:136-167 | takes one use exactly when the invite is usable, and returns the document after it |
| `InviteUses.InviteDoc.ReleaseUse` | src/model/invites.rs:169-180 | gives one use back when the count is positive |
| `InviteUses.ChannelDoc.AddMember` | src/controllers/invites.rs:362-375 | adds the member unless the update fails or changes nothing, and says which |
| `InviteUses.AcceptInvite` | src/controllers/invites.rs:238-424 | through every exit: a use is consumed exactly with the member write; all other exits leave the channel alone and refund once, and a late error after the write refunds nothing |
| `InviteUses.AloneItJoinsExactlyWhenOpen` | src/controllers/invites.rs:238-384 | a request of the interleaved model alone joins, with one use more, if and only if the invite is neither switched off, expired nor used up and the member write changes something; else invite and channel are as before |
| `InviteUses.UsesAreConserved` | src/controllers/invites.rs:290-384 | for any number of concurrent accepts the count is joins plus reservations in flight plus lost refunds, and never exceeds the limit |
| `InviteUses.RefundAlwaysLands` | src/model/invites.rs:169-180 | the positive-count filter never blocks a refund |
| `InviteUses.AtRestOnlyJoinsCount` | src/controllers/invites.rs:290-384 | at rest, without lost refunds, the count is the number of joins |
| `InviteUses.EachRequestRefundsOnce` | src/controllers/invites.rs:290-384 | over its whole life a request reserves at most once and is refunded exactly once if it ends refunded, and never if it joined or its refund failed |
| `InviteUses.ReservationsLessRefunds` | src/model/invites.rs:136-180 | over any run the count is the number of reservations made less the number of refunds made |
| `InviteUses.RefundsOnlyWithoutJoin` | src/controllers/invites.rs:300-384 | no step takes a request back, a refund leaves the channel alone, and only the refund of a request that has not joined lowers the count |
| `ReactionToggles.MessageReactions.Pull` | src/ws/handlers.rs:1428-1451 | removes the user and says whether it was there |
| `ReactionToggles.MessageReactions.UnsetIfEmpty` | src/ws/handlers.rs:1453-1458 | removes the emoji only when its list is empty |
| `ReactionToggles.MessageReactions.AddToSet` | src/ws/handlers.rs:1460-1469 | adds the user unless present |
| `ReactionToggles.MessageReactions.Toggle` | src/ws/handlers.rs:1425-1484 | the three updates in order amount to one toggle |
| `ReactionToggles.ToggleFlipsAndUndoes` | src/ws/handlers.rs:1425-1484 | a toggle alone flips one membership and nothing else, leaves no empty list, and two of them change nothing |
| `ReactionToggles.AloneItIsOneToggle` | src/ws/handlers.rs:1425-1484 | three steps of one user with nobody in between are the sequential toggle |
| `ReactionToggles.ReactionFollowsOwnToggles` | src/ws/handlers.rs:1425-1484 | with one toggle at a time per user, a user's reaction is the initial one flipped once per completed toggle, whatever the others do |
| `ReactionToggles.AddAlwaysMatches` | src/ws/handlers.rs:1460-1469 | the adding update always finds the user absent, and adds it |
| `ReactionToggles.CleanUpDropsNobody` | src/ws/handlers.rs:1453-1458 | the clean-up never removes a reaction, even one added since the pull |
| `ReactionToggles.NoEmptyListAtRest` | src/ws/handlers.rs:1452-1458 | at rest an empty list is one whose clean-up the database refused |
| `ReactionToggles.CleanAtRestWithoutFailures` | src/ws/handlers.rs:1452-1458 | without database failures no empty list remains at rest |
| `AccessCaches.KeyInjective` | src/utils/access/cache.rs:37-39 | glued keys are equal only for equal pairs when the first ids have no colon |
| `AccessCaches.KeysCollideExactlyWhen` | src/utils/access/cache.rs:37-39 | in general two pairs share a key if and only if one first id continues the other across a colon and the second ids make up for it |
| `AccessCaches.KeysCollideWithoutThat` | src/utils/access/cache.rs:37-39 | the shortest instance of such a collision |
| `AccessCaches.WipeIsExact` | src/ws/typing.rs:86-117 | each prefix, suffix or exact match on keys hits exactly the pairs it is meant for |
| `AccessCaches.ColonFreeIdsAreHitExactly` | src/ws/typing.rs:86-109 | with colon-free second ids a suffix match hits that id alone |
| `AccessCaches.CacheRefinesPairs` | src/utils/access/cache.rs:37-116 | after any run of puts, evictions and invalidations the cache holds for each pair exactly what a pair-keyed cache would |
| `AccessCaches.RememberedIsTheLatest` | src/utils/access/cache.rs:74-116 | what it holds is the latest put for that pair, with no eviction of it and no matching invalidation since |
| `AccessCaches.CacheStaysSmall` | src/utils/access/cache.rs:63-72 | at most 8000 entries after every operation |
| `AccessCaches.InvalidationLeavesNoMatch` | src/utils/access/cache.rs:100-116 | right after an invalidation no pair it names is cached, and every other pair is as before |
| `AccessCaches.AccessCache.Get` | src/utils/access/cache.rs:41-61 | an allowance up to 30 s old is answered with its channel, a denial up to 3 s old with its reason, anything else is a miss |
| `AccessCaches.AccessCache.Trim` | src/utils/access/cache.rs:63-72 | removes exactly the overflow |
| `AccessCaches.AccessCache.PutOk` | src/utils/access/cache.rs:74-85 | stores the allow decision, keeps the others, and evicts exactly down to 8000 |
| `AccessCaches.AccessCache.PutErr` | src/utils/access/cache.rs:87-98 | stores the deny decision, keeps the others, and evicts exactly down to 8000 |
| `AccessCaches.AccessCache.InvalidateChannel` | src/utils/access/cache.rs:100-105 | drops the keys with that channel prefix |
| `AccessCaches.AccessCache.InvalidateUser` | src/utils/access/cache.rs:107-112 | drops the keys with that user suffix |
| `AccessCaches.ServedDecisionIsCurrent` | src/utils/access/cache.rs:41-116 | a served decision is the latest stored for channel and user, an allowance as such and a denial as such, within its lifetime, with no invalidation of either since |
| `AccessCaches.CurrentDecisionIsServed` | src/utils/access/cache.rs:41-116 | conversely the latest stored decision, if not forgotten, is served as it was stored exactly within its lifetime |
| `AccessCaches.ChannelChatId` | src/ws/typing.rs:47-53 | the prefix is added at most once |
| `AccessCaches.TypingCache.Get` | src/ws/typing.rs:55-71 | a hit exactly within the lifetime (45 s allow, 3 s deny) |
| `AccessCaches.TypingCache.PutEntry` | src/ws/typing.rs:73-84 | stores the entry and removes exactly the overflow |
| `AccessCaches.TypingCache.InvalidateUser` | src/ws/typing.rs:86-92 | drops the user's keys and the direct chats with the user |
| `AccessCaches.TypingCache.InvalidatePair` | src/ws/typing.rs:94-99 | drops the pair in both directions |
| `AccessCaches.TypingCache.InvalidateChannel` | src/ws/typing.rs:101-108 | drops the channel's chats and, in the membership cache, the channel |
| `AccessCaches.TypingCache.InvalidateUserChannel` | src/ws/typing.rs:110-116 | drops one user's chat and, in the membership cache, the whole channel |
| `AccessCaches.ServedPermissionIsCurrent` | src/ws/typing.rs:55-117 | a served permission is the latest stored for user and chat, within its lifetime, with nothing that names them since |
| `AccessCaches.CurrentPermissionIsServed` | src/ws/typing.rs:55-117 | conversely the latest stored permission, if not forgotten, is served as it was stored exactly within its lifetime |
| `AccessCaches.KickedUserIsForgotten` | src/ws/typing.rs:47-53 | after either channel invalidation the user's permission is gone, with or without the prefix in the id |
| `ChannelPaging.Limit` | src/controllers/channels.rs:397-401 | the page size is between 1 and 50 for any parameter |
| `ChannelPaging.GetChannelMessages` | src/controllers/channels.rs:393-439 | a bad request exactly for an invalid cursor; otherwise the newest messages below the cursor in ascending order, and `hasMore` exactly when something older is left |
| `ChannelPaging.NewestIsTheTop` | src/controllers/channels.rs:414-419 | the query returns the greatest ids below the cursor, descending, or all of them |
| `ChannelPaging.Pages` | src/controllers/channels.rs:406-439 | a walk terminates for any limits and any changes to the log, with at least one page |
| `ChannelPaging.WalkAscends` | src/controllers/channels.rs:403-439 | the pages joined oldest-first are strictly ascending and stay below the start |
| `ChannelPaging.WalkMissesNothing` | src/controllers/channels.rs:403-439 | a message live throughout the walk and below its start is in the joined pages |
| `ChannelPaging.WalkInventsNothing` | src/controllers/channels.rs:403-439 | everything in the joined pages was live when its page was read |
| `ChannelPaging.FixedLogIsEnumerated` | src/controllers/channels.rs:403-439 | on a fixed log the joined pages are exactly the live messages below the start, each once |
| `ChannelPaging.FixedLogHasNoEmptyTail` | src/controllers/channels.rs:433-439 | on a fixed log every page but the last is full, and `hasMore` never leads to an empty page |

## Left out

- OfflineIsAlwaysOwed: leaves out the explicit set-offline frame, which takes a connected user offline on purpose, and database failures of the presence writes, after which no task retries.
- ConnectedImpliesOnlineAtRest: has the same two exclusions.
- LaneRunsAcceptedJobsInOrder: assumes that no job panics and no mutex is poisoned.
- TypingQueueIsSound: assumes that no job panics.
- ClearsOnlyDeadTips: leaves out `clear_dm_tip_at_most` and the wipe endpoints, which clear live tips and repair them afterwards, and hard deletion of messages.
- LiveMessagesStayBelowTip: the interleaved machine does not track edits of a message's text; `UpsertsKeepTheGreatest` covers the text.
- TrySync: counting unread messages is an oracle, `truth`, which the environment may change before any database operation; saturation at the 64-bit limit is not modelled. The channel variant in src/utils/unread/mod.rs:321-356 has the same rounds over other documents, except that its write upserts and so never misses a document; it is not stated again.
- FanOut: the stored documents change by the task's own bumps only, where others may write in between; `DeltaIsWorthOne` is about the store with those writes. Every member id and the message id parse.
- BumpUnreadMany: a failed bump has no effect; the bumps of a batch are taken in list order, which `BatchOrderIsIrrelevant` justifies.
- EveryRunKeepsInv: of `NonceCreate` leaves out content validation, search tokens and hard deletion of messages.
- UsesAreConserved: leaves out deletion of the invite while requests are under way, and counts accepted requests rather than distinct users, because the member write also sets `updatedAt`.
- ReactionFollowsOwnToggles: assumes one toggle at a time per user, and that a refused update has no effect. The per-user lane provides the former exactly as long as no collection drops the lane of a disconnected user while it has work (`FifoLanes.OneWorkerExactlyWhenNoWorkDropped`, `FifoLanes.OverlapExactlyWhenOrphanHasWork`).
- FewerThanTwiceMaxPerWindow: needs a clock that does not go back and one limit per action, as every caller uses.
- SocketsAreAccounted: the registration of a socket's IP is split into its mutex and atomic parts, which allows more interleavings than the source does; the advisory `can_accept_ip_connection` check before the upgrade and wrap-around of the 64-bit connection id are left out.
- ReadsAreTableReads: concerns the counters only; the text and time of a tip are in `ConversationTips`.
- CacheRefinesPairs: a poisoned mutex, which turns every operation into a miss, is not modelled; which entries the overflow removes is arbitrary.
- WalkMissesNothing: a walk is a sequence of successful requests; access checks and database errors end it.
- The direct-message variant of paging filters a second time after truncation by a rule of its own and is not modelled.
- Call sessions, voice rooms, refresh tokens, moderation lists, the upload scan, search and notification texts.
- Cryptography: JWT, password hashing, one-time codes and frame encryption.
- Validation, serialisation, routing, configuration and localisation, which would only add easy members.
