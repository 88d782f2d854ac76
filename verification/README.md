# cfgo: the stateful core, modelled and proved

cfgo is a C++ client library for real-time media: it receives tracks, hands their packets on, and
schedules work between coroutines. This project models its stateful core in Dafny and proves what
that core promises: the manager that blocks workers in batches, the tree of close signals, the
asynchronous mutex, the task groups, the two ring caches of a track, the ring cache of the
application sink, and the pad-name matcher with the registry of links that depends on it.

Every critical section guarded by a mutex is one atomic step. A one-slot channel without payload
is a token. Coroutines that interleave are a transition system: `Enabled` says which steps are
possible, `Next` what they do, and `Run` chains them, so that a theorem over `Run` is about every
interleaving. Objects that the code changes in place are classes; each method is proved equal to
a function on values, and the theorems are about those functions. Time is an abstract clock.

## The modules

- `Blocker`: one blocker's two flags and two channels, its worker, and the coroutine that syncs on it.
- `BlockerManager`: batch size, order, whom to ask, and the manager's critical sections as
  functions. `BlockerManagerClass`: the same as an object with its loops.
- `BlockerLedger`: where each blocker id is, over all runs of joins, leaves, locks and unlocks.
  `BlockerCalls`: what the callers get.
- `LockProtocol`: the whole of `lock` and `unlock` as a transition system with request tasks,
  timeouts, workers, joins, leaves and cancellations. `LockSafety` and `LockPlan`: its invariants.
  `LockRuns`: the theorems. `LockMoves`: sleeping, waking, timing out and being cancelled. `LockRounds`: runs that can always be made. `LockStragglers`: exactly
  when a request task that outlives its cancelled lock matters.
- `FairSchedule`: rounds of the schedule. `LockFairness`: the protocol refines them. `LockJoiners`:
  how far a joiner can start behind.
- `CloseSignal`: one close signal and its time budget. `CloseTree`: any number of them, and any
  number of threads that close, stop, resume and create. `CloseSpread`: how far a stop or a resume
  gets.
- `CloseTimers`: what a due timer does, and who gets one. `CloseLeaves`: closed signals leave the tree.
- `TaskGroups`: what the three collectors make of the reports. `TaskRuns`: what reports are worth, and
  that groups can come to their ends.
- `AsyncMutex`, `TrackCache`, `AppSink`, `PadMatcher`, `LinkRegistry`; and `Wrappers` and
  `MachineWords`, which they share.

## What turned out not to hold

Each of these has a theorem that says exactly when it happens, and a run or an input that shows it or
a condition that a caller can bring about.

- A request task that outlives a cancelled lock can take back the request of a later lock, which
  then blocks fewer than it counted. From an idle manager, every lock of every run that cancels no
  further lock in the middle of its requests is right if and only if no such task is still going
  for a listed blocker (`LockStragglers.StragglersAreTheDanger`). Requests that such tasks left
  behind, and tasks for removed blockers, do no harm. The theorems on locks are for every lock that
  began without such a task, whatever happened before.
- `add_blocker` throws, with its blocker already listed, exactly when the token of an earlier
  crossing was never read and its blocker is the one that makes the list long enough
  (`BlockerLedger.StaleTokenThrows`); three calls are enough.
- The manager's "this is impossible" error is thrown exactly when the cancelled joiner's id has been
  removed, which happens only if someone called for its removal while the joiner was still waiting
  (`BlockerLedger.ImpossibleExactly`).
- The configuration is never validated by the manager's constructor, and an unvalidated one can
  give batches below the minimum (`BlockerManager.UnvalidatedBatchCanBeTooSmall`).
- Several workers that wait on one blocker share one token: when it is asked to go on, one of them can
  take it and leave the others asleep (`Blocker.WorkersShareOneToken` says exactly when,
  `Blocker.OneOfTwoSleepsOn` is such a run).
- A joiner's first epoch counts earlier joins, not rounds, so joining keeps a spread exactly if no
  listed epoch is further than that from the count (`FairSchedule.JoiningKeepsSpread`,
  `LockJoiners.JoinersStartBehind`).
- A negative timeout loses time when it is paused (`CloseSignal.TimeoutIsSpentOnlyWhileArmed`
  says exactly when a timeout is spent in full).
- After a reset, a track can count more bytes dropped than received: exactly if more sat in the ring
  at the reset than was delivered or evicted since and sits there now
  (`TrackCache.DropsWithinReceived`, `TrackCache.ResetBreaksByteOrder`).
- A timeout set on a stopped signal is overwritten by the resume, exactly if the stop had put time
  away (`CloseSignal.TimeoutSetWhileStopped`).
- A stop does not hold for the whole subtree: a child made under a stopped signal runs on
  (`CloseSpread.ChildOfStoppedRunsOn`), and stops and resumes reach exactly those whom a chain of
  signals that they also change joins to where they began (`CloseSpread.SpreadsAlongTheChain`).
- A digit or another placeholder right after a placeholder makes a pad template miss every pad
  named by it, unless nothing but digits and placeholders follows (`PadMatcher.RenderedPadMatches`);
  "%u0a" misses "10a" (`PadMatcher.AnUnsafeTemplate`).
- Two templates can share a name and not match each other (`PadMatcher.SharedNameIsNotEnough`; exactly
  which do is `PadMatcher.MatchesMeets`).
- Giving up on one link can erase another pending one (`LinkRegistry.AwaitFailureErasesOnlyItsOwn`
  says exactly when, `LinkRegistry.AwaitFailureCanEraseAnother` is such a run).
- A wait for a link can hand out one that was never made: exactly if the framework refused to join
  its pads when last asked, or a failed wait has taken the link from the registry
  (`LinkRegistry.WaitReturnsAMadeLink`, `LinkRegistry.WaitCanReturnAnUnmadeLink`).
- Two requests for links that are in flight together can both be stored although they get in each
  other's way: two that still wait for pads, exactly if their names match; one that waits and one
  that is made, exactly if they have the same name; and a made one is taken from the registry by a
  second one with both pads, exactly if they have the same name (`LinkRegistry.TwoInFlight`; every
  such pair has a run, `LinkRegistry.TwoRequestsMeet`).
- A quorum of nobody is looked at only after a report: it is empty if the first report is a failure,
  and everyone who succeeds if it is not (`TaskGroups.Quorum`).

## Model

| member | source | states |
|---|---|---|
| `Blocker.HandshakeHasNoLostWakeup` | src/async_locker.cpp:55-160 | over every interleaving of one syncing task and one worker, with cancellations that may lose a token: a task asleep in `sync` with the flags equal has a token, and its next look ends the sync; a worker asleep in `await_unblock` with the block flag off has one, and its next look lets it go and answers |
| `Blocker.RequestGoesThrough` | src/async_locker.cpp:55-160 | from every reachable state of the two: a request that is not met yet can be made, slept on, answered by the worker, which waits if it is to be blocked and goes on if not, and found met |
| `Blocker.AgreementIsStable` | src/async_locker.cpp:126-160 | the worker alone never changes the block flag, keeps flags that agree, and makes them agree with one look |
| `Blocker.LookMeaning` | src/async_locker.cpp:126-160 | a look lets the worker go exactly if nobody wants it blocked; it makes the flags agree and answers just a change |
| `Blocker.RequestMeaning` | src/async_locker.cpp:55-84 | a request sets the flag as asked, and leaves a token and says so just if that is a change |
| `Blocker.WorkersShareOneToken` | src/async_locker.cpp:126-160 | over every run of any number of workers of one blocker, with cancellations that may lose a token: a worker asleep though the block flag is off cannot wake just if another worker has taken a token since the flag went off |
| `Blocker.OneOfTwoSleepsOn` | src/async_locker.cpp:126-160 | a run in which two workers wait, the flag goes off, one goes on, and the other is left without a token |
| `Blocker.AsyncBlocker.AskBlock` | src/async_locker.cpp:55-68 | sets the flag and leaves a token only if it was off, and says so |
| `Blocker.AsyncBlocker.AskUnblock` | src/async_locker.cpp:71-84 | clears the flag and leaves a token only if it was on, and says so |
| `Blocker.AsyncBlocker.InSync` | src/async_locker.cpp:87-114 | one turn of the sync loop ends it just if the flags agree |
| `Blocker.AsyncBlocker.Answer` | src/async_locker.cpp:126-160 | one turn of the worker's loop makes the flags agree, answers only when its own flag changes, and ends the wait exactly if the block flag is off |
| `BlockerManager.BatchArithmetic` | src/async_locker.cpp:268-291 | for validated configurations: a batch is what the target wants of the list (so many, all but so many, or none) but at least the minimum; it grows with the list, fits the list just if the list has the minimum, and the crossing that wakes a locker is exactly from one below the minimum |
| `BlockerManager.FirstFitMeaning` | src/async_locker.cpp:268-291 | for every configuration, validated or not: a batch fits the list just if the list has the first fit, is the whole list when it has exactly that, and the crossing that wakes a locker is exactly there |
| `BlockerManager.UnvalidatedBatchCanBeTooSmall` | src/async_locker.cpp:667-677 | for every configuration, batches are never below the minimum just if a positive target is at least the minimum |
| `BlockerManager.SortMeaning` | src/async_locker.cpp:424-443 | the order is the list permuted, strictly ascending in epoch, then descending priority, then id |
| `BlockerManager.SortOrder` | src/async_locker.cpp:424-443 | of any two in the order, the first has fewer epochs, or as many and the higher priority, or the same and the smaller id |
| `BlockerManager.ChooseCount` | src/async_locker.cpp:441-467 | the selection loop asks the longest prefix of the order with at most a batch of the largest epoch; in a sorted order, everyone with fewer epochs than the last, and the first batch of the others |
| `BlockerManager.WhoIsAsked` | src/async_locker.cpp:436-467 | in a sorted order, the first so many have fewer epochs than the last one, the others as many, and those asked are the former and the first batch of the latter |
| `BlockerManager.ChosenCoversBatch` | src/async_locker.cpp:444-467 | at least a batch is asked |
| `BlockerManagerClass.AsyncBlockerManager.constructor` | src/async_locker.cpp:303 | a new manager is empty, unlocked and numbers from zero |
| `BlockerManagerClass.AsyncBlockerManager.AddBlocker` | src/async_locker.cpp:304-329 | unlocked: a new blocker with the next id, listed last; locked: a request queued with the next id and its own empty channel; the throw just where the ready token was still there |
| `BlockerManagerClass.AsyncBlockerManager.CancelAdd` | src/async_locker.cpp:334-355 | a cancelled joiner withdraws its request if it is still queued, else gets its listed blocker; the error only if it is in neither list |
| `BlockerManagerClass.AsyncBlockerManager.RemoveBlocker` | src/async_locker.cpp:359-387 | requests with the id go; the blocker goes if unlocked, and is only marked if locked |
| `BlockerManagerClass.AsyncBlockerManager.TryLock` | src/async_locker.cpp:400-412 | takes the lock only with enough blockers and while unlocked, and says which case it was |
| `BlockerManagerClass.ReleaseBeyond` | src/async_locker.cpp:477-488 | each blocked blocker keeps its request just if fewer than a batch of blocked ones precede it; the others' requests are taken back; nothing else changes |
| `BlockerManagerClass.AsyncBlockerManager.AskAllUnblock` | src/async_locker.cpp:513-519 | every listed blocker is asked to go on, and exactly those that were asked to block gain an epoch |
| `BlockerManagerClass.AsyncBlockerManager.EraseInvalid` | src/async_locker.cpp:520-531 | exactly the unmarked blockers stay, in order |
| `BlockerManagerClass.AsyncBlockerManager.AdmitQueued` | src/async_locker.cpp:532-538 | every queued joiner gets one new blocker with its own id through its own channel, listed in queue order with the next epochs |
| `BlockerManagerClass.AsyncBlockerManager.Unlock` | src/async_locker.cpp:504-540 | the three steps together are the unlock of the model; without the lock it does nothing; every queued channel is written once, with a listed blocker |
| `BlockerManagerClass.AsyncBlockerManager.CollectLocked` | src/async_locker.cpp:542-552 | the listed blockers whose workers are blocked, all of them and no others, in list order |
| `BlockerManagerClass.AsyncBlockerManager.Find` | src/async_locker.cpp:554-567 | a listed blocker with the id, if and only if there is one |
| `BlockerLedger.EveryIdIsInOnePlace` | src/async_locker.cpp:304-540 | over every run: an issued id is listed, queued, cancelled or removed, in one place only and there once; an id not issued is nowhere; no joiner's channel is written twice |
| `BlockerLedger.ImpossibleIsImpossible` | src/async_locker.cpp:334-355 | if callers remove only ids they were given, a cancelled joiner always finds its id, so the error is never thrown |
| `BlockerLedger.ImpossibleExactly` | src/async_locker.cpp:334-387 | over every run, for a joiner that was queued and still waits: cancelling it throws the error just if its id is in the removed ones; its id is removed, or marked while locked, just if its removal was called since it joined; and nobody had been given it |
| `BlockerLedger.RudeRemovalReachesImpossible` | src/async_locker.cpp:359-369 | four calls, one of which removes an id not yet given, reach a state where the error is thrown |
| `BlockerLedger.ListIsFrozenWhileLocked` | src/async_locker.cpp:359-387 | while locked, no step but an unlock changes the listed ids, epochs and priorities or their order |
| `BlockerLedger.StaleTokenThrows` | src/async_locker.cpp:311-321 | for every configuration, joining throws just if it is the join that makes the list long enough and the ready token is still there; the blocker is then listed nevertheless |
| `BlockerLedger.StaleTokenIsReachable` | src/async_locker.cpp:311-321 | a join, a leave and a join reach the throw |
| `BlockerCalls.CallersGetTheirBlockers` | src/async_locker.cpp:304-355 | over every run: a caller has a blocker exactly if some step handed it one (at once unless it throws, through its channel, or from the list when its wait was ended); one that waits can read its channel exactly if that was written, which the unlock does for everyone queued |
| `BlockerCalls.JoinerStartsAtTheCount` | src/async_locker.cpp:304-329 | over every run: a blocker that joins at once is listed last, with the next id and with as many epochs as blockers were listed before it |
| `BlockerCalls.QueueStartsAtTheCount` | src/async_locker.cpp:504-540 | over every run: an unlock lists the whole queue in its order after those that stay, each with the epochs that count on |
| `LockSafety.StepSound` | src/async_locker.cpp:391-540 | every step of the protocol, with stragglers or without, keeps: the locked flag matches the locker's place, the locker's order is the sorted list, each task asks its own blocker of the order, every request task is for a blocker that is or was listed, and every waiting worker has its token |
| `LockPlan.StepExact` | src/async_locker.cpp:417-497 | in every lock that began without a straggler for a listed blocker, every step keeps, blocker by blocker, what the flags are at each point of requesting, settling, releasing, settling again and holding |
| `LockRuns.LockBlocksTheFirst` | src/async_locker.cpp:417-497 | when a lock has returned that began without such a straggler: the blocked are the first of those who acked, up to a batch, in order of epoch, priority and id; no other listed one is blocked or asked; whoever acked was chosen, or asked already when the lock began; if no request was taken back, exactly the first batch of the order is blocked |
| `LockRuns.AckersWhenTasksEnd` | src/async_locker.cpp:458-469 | when the request tasks have ended, those who acked are those asked; of the chosen they are blocked already, and are all the chosen unless a request was taken back; of the others they are those asked when the lock began |
| `LockRuns.HeldUntilUnlock` | src/async_locker.cpp:126-160 | from a lock's return to the unlock, through every interleaving of workers, joins, leaves and anything else, the listed and the blocked stay the same, and no look lets a blocked worker go |
| `LockRuns.BlockedWorkersWait` | src/async_locker.cpp:126-160 | over every run: a blocker that counts as blocked has its worker waiting, unless that worker's wait was cancelled; and a look lets its worker go exactly if nobody wants it blocked, and else leaves it asleep |
| `LockRuns.WorkersWake` | src/async_locker.cpp:126-160 | in every run of the whole system, with stragglers or without, a blocker's worker that sleeps though it is not blocked can wake, and its next look lets it go |
| `LockRuns.LockerWakes` | src/async_locker.cpp:470-497 | a locker that sleeps though the blocker it waits for is in sync can wake, and its next look passes on |
| `LockRuns.RequestTasksWake` | src/async_locker.cpp:458-466 | a request task that sleeps though its blocker is in sync can wake, and its next look ends it |
| `LockRuns.WaitingLockerIsWoken` | src/async_locker.cpp:391-416 | with a validated configuration, a locker that waits while there are blockers enough has its token, and its next look takes the lock |
| `LockMoves.OnlyTimeoutsTakeBack` | src/async_locker.cpp:458-469 | over every run in which no request task times out, no request is taken back, and every lock that began without a straggler has blocked exactly the first batch of its order when it returns |
| `LockMoves.RequestTimesOut` | src/async_locker.cpp:458-466 | a sleeping request task can time out, takes its request back and ends; nobody else is touched, and the lock remembers |
| `LockMoves.WakeupsTakeTheirTokens` | src/async_locker.cpp:87-160 | a wakeup of the locker, a request task or a worker takes the one token that it was |
| `LockMoves.CancelledWorkerLeaves` | src/async_locker.cpp:126-160 | a cancelled worker is gone, the flags stay, and at most its token is lost |
| `LockMoves.LockWaitsForBlockers` | src/async_locker.cpp:391-416 | a lock that finds too few blockers waits with nothing changed; a token lets it look again and is taken; a wait given up ends the lock, and at most loses the token |
| `LockRounds.LockRound` | src/async_locker.cpp:391-497 | from every idle manager with blockers enough, with stragglers or without and whoever is asked already, some run of the locker, its request tasks and the workers alone takes the lock and returns with exactly the first batch of the order asked and blocked |
| `LockStragglers.StragglersAreTheDanger` | src/async_locker.cpp:391-540 | from every reachable idle manager with a minimum or a target of at least 1: all locks of all runs that cancel no lock while it requests are right, if and only if no request task of a cancelled lock is still going for a listed blocker |
| `LockStragglers.CancellingLeavesStragglers` | src/async_locker.cpp:458-502 | from every reachable idle manager with blockers enough, taking the lock and cancelling it leaves such a task |
| `FairSchedule.RoundFavoursTheLow` | src/async_locker.cpp:424-467 | a round that raises a blocker raises every blocker with fewer epochs |
| `FairSchedule.RoundsKeepSpread` | src/async_locker.cpp:477-519 | over any number of rounds the spread of epochs is at most the larger of the first spread and one |
| `FairSchedule.RoundRaisesABatch` | src/async_locker.cpp:477-519 | a round raises exactly a batch of epochs |
| `FairSchedule.SharesAreEven` | src/async_locker.cpp:477-519 | after n rounds the shares of any two blockers, and each share and the even one, differ by at most a constant of the first spread |
| `FairSchedule.NobodyStarves` | src/async_locker.cpp:477-519 | after more rounds than that constant times the number of blockers, everyone has had a turn |
| `FairSchedule.JoiningKeepsSpread` | src/async_locker.cpp:313-317 | for every unlocked manager and every spread: it holds after a join just if it held and every listed epoch is within it of the number of earlier joins |
| `LockJoiners.JoinersStartBehind` | src/async_locker.cpp:313-317 | for every n some run locks and unlocks a lone blocker n times, after which a joiner makes the spread exactly n - 1 |
| `LockFairness.UnlockIsARound` | src/async_locker.cpp:504-531 | unlocking after a lock in which no request was taken back is one round of the schedule |
| `LockFairness.LockingIsFair` | src/async_locker.cpp:391-540 | from every reachable idle manager without a straggler for a listed blocker, whatever happened before: a run without joins, leaves, lapses and cancellations leaves the epochs of as many rounds as there were unlocks, whatever the interleaving, and so keeps the spread |
| `CloseSignal.ExpiryCountsFromArming` | src/async.cpp:411-442 | over every history, expiry less timeout is the instant of arming, also after a nonzero timeout replaced another |
| `CloseSignal.PausingConservesBudget` | src/async.cpp:322-393 | through any stops, resumes, late timer starts and waits, armed time plus remaining time is constant |
| `CloseSignal.StopPausesTheTimer` | src/async.cpp:322-352 | a stop that pauses, on an open signal that runs: a timer with time left puts that time away, a timeout without one is put away itself, the timeout is cleared, and no time is used through any history until a resume or a new timeout; a timer that has run out is let be |
| `CloseSignal.StopLeavesTheTimer` | src/async.cpp:322-352 | a stop that does not pause leaves all times alone, and a stop of a stopped or closed signal does nothing |
| `CloseSignal.TimeoutIsSpentOnlyWhileArmed` | src/async.cpp:322-442 | a timeout buys exactly that much armed time through every such history just if it is not negative |
| `CloseSignal.TimeoutSetWhileStopped` | src/async.cpp:322-458 | whatever happens to a stopped signal short of a resume or a close, and whatever timeout is then set: after the resume it has the time that the stop put away, if that is positive, and else the one set |
| `CloseSignal.SignalAll` | src/async.cpp:257-268 | every listed channel is written once, and no write finds its slot full |
| `CloseSignal.SignalState.Close` | src/async.cpp:242-269 | the first close wins; it signals every waiter of both kinds, and leaves no waiter, no stop and no timeout |
| `CloseSignal.SignalState.Stop` | src/async.cpp:322-352 | the remaining time of a running timer, or the timeout of one that does not run, is put by, and the timeout cleared |
| `CloseSignal.SignalState.Resume` | src/async.cpp:360-388 | every stop waiter is signalled, and the time put by is the timeout again |
| `CloseSignal.SignalState.Retime` | src/async.cpp:411-442 | arms, disarms or moves the timer as the old and the new timeout say |
| `CloseSignal.SignalState.StartTimer` | src/async.cpp:199-219 | the timer is made once, and armed if there is a timeout |
| `CloseSignal.SignalState.GetWaiter` | src/async.cpp:226-240 | a new empty channel that a later close signals, or none just if closed |
| `CloseSignal.SignalState.GetStopWaiter` | src/async.cpp:395-409 | a new empty channel that a later resume or close signals, or none just if not stopped |
| `CloseTree.StepKeepsValid` | src/async.cpp:181-493 | every critical section keeps: an open signal with a parent is a child of an open parent, or a close of it is under way |
| `CloseTree.OnlyAnUnfinishedCloseDelays` | src/async.cpp:277-303 | an open signal below a closed one is there only while a close of it, or of a signal between the two, is under way |
| `CloseTree.ClosingReachesAllDescendants` | src/async.cpp:277-303 | over every run, however closes, creations and stops raced: if something below a closed signal is open, a close is still under way |
| `CloseTree.CloseAloneClosesTheSubtree` | src/async.cpp:277-303 | a close whose thread runs with nothing in between, while no other close is under way, always ends, and has then closed just the signals below that were open, all with the call's timeout status; those closed before keep theirs |
| `CloseTree.FinishedCloseReachesTheSubtree` | src/async.cpp:277-303 | a close that has run to its end, whatever other threads did meanwhile: its signal is closed, and whoever is below is closed or has a close under way for it or for a signal between; with none under way, all below are closed |
| `CloseTree.TimeoutStatusIsInherited` | src/async.cpp:460-476 | whoever was closed on its creator's account has its creator's timeout status, also if it was created closed |
| `CloseTree.WaitersAreSignalledOnce` | src/async.cpp:226-269 | over every run: a close waiter is unwritten while its signal is open and written exactly once when it is closed; a stop waiter is unwritten while listed and written exactly once after |
| `CloseTree.ClosedForEver` | src/async.cpp:242-269 | a closed signal stays closed with its timeout status, without waiters, children, stop or timeout, in every later state |
| `CloseSpread.SpreadsAlongTheChain` | src/async.cpp:322-392 | over every run: a stop or resume that runs with nothing in between, while no close is under way, always ends, and has then stopped or resumed exactly those at or below its signal whom a chain of signals that it changes too joins to it; nobody else, and nothing else in the tree, has changed |
| `CloseSpread.ChildOfStoppedRunsOn` | src/async.cpp:460-475 | a child created under a stopped signal is not stopped |
| `CloseSpread.CreatorShields` | src/async.cpp:322-392 | no stop but its own reaches a signal whose creator is stopped, and no resume but its own one whose creator is not |
| `CloseTimers.RingLooks` | src/async.cpp:181-197 | when the timer's task looks, nothing comes of it if the timeout is gone, and else the signal is to be closed with the timeout status |
| `CloseTimers.DueTimerIsACall` | src/async.cpp:181-197 | a due timer whose task looks at once is a call that closes with the timeout status |
| `CloseTimers.TimerComesDue` | src/async.cpp:181-197 | an armed timer is due from its expiry on |
| `CloseTimers.TimersClimb` | src/async.cpp:199-224 | over every run: a timer start that runs with nothing in between always ends, and has then given a timer to exactly those at or above its signal with no closed signal and no timer on the way, each counting its own timeout from now |
| `CloseLeaves.ClosedLeavesTheTree` | src/async.cpp:277-303 | over every run, whatever raced: a closed signal has no parent and no children, and is among the children of another only while its close has yet to take it out |
| `AsyncMutex.MutualExclusionWithoutLostWakeup` | src/async.cpp:72-106 | any number of calls and cancellations: at most one holder, the busy flag says whether there is one, and while it is free every suspended call has a write of its own to read |
| `AsyncMutex.WokenCallAcquires` | src/async.cpp:79-98 | a call woken while the mutex is free gets it, and its channel is no longer registered |
| `AsyncMutex.NewCallGetsItOrSleeps` | src/async.cpp:72-106 | a call that finds the mutex free gets it at once; one that finds it busy is registered, once, and sleeps |
| `AsyncMutex.WritesAreReadOnce` | src/async.cpp:72-106 | over every run, the writes to a call's channel not read yet are the releases that found it registered less those it has read |
| `AsyncMutex.CancelEndsTheCall` | src/async.cpp:79-98 | a cancelled call is over, has read at most one write, and changes nothing for the others |
| `AsyncMutex.MutexState.TryAcquire` | src/async.cpp:79-98 | succeeds exactly if the mutex is free, and unregisters; else registers its channel once; other channels stay |
| `AsyncMutex.MutexState.Release` | src/public/cfgo/async.hpp:115-123 | frees the mutex and adds one write to every registered channel |
| `TaskGroups.TaskReportsAtMostOnce` | src/public/cfgo/async.hpp:1057-1096 | over every run of n tasks, their closer and their collector: a task is read at most once, also when its write throws after it was read, and a task that ended unread ended because the closer was closed |
| `TaskGroups.CollectorIsServed` | src/public/cfgo/async.hpp:1057-1096 | a collector that reads on is never left waiting: the closer ends its read, or a task not read yet can take its next step |
| `TaskGroups.EveryRunIsAStream` | src/public/cfgo/async.hpp:1057-1136 | over every such run, what the collector has read are reports of different tasks, all of them unless the closer ended the reading, each with its task's one outcome: what the three collectors below rely on |
| `TaskRuns.ReportsAreTrue` | src/public/cfgo/async.hpp:1057-1096 | over every run, what is read of a task is what it came to, its value or its exception; and the closer is closed, and ends a read, only if somebody closed it |
| `TaskRuns.UnclosedGroupFinishes` | src/public/cfgo/async.hpp:1057-1136 | wherever a group is while nobody has closed the closer, some run reads the reports of all its tasks |
| `TaskRuns.CloserEndsTheReading` | src/public/cfgo/async.hpp:1057-1136 | a closed closer can end the collector's read, which is its last |
| `TaskRuns.TaskEndsByItself` | src/public/cfgo/async.hpp:1057-1096 | once the closer is closed, every task can end by itself, read or not |
| `TaskGroups.EveryTaskReported` | src/public/cfgo/async.hpp:1129-1153 | as many reports of different tasks as tasks: every task has reported |
| `TaskGroups.All` | src/public/cfgo/async.hpp:1129-1166 | in whatever order the tasks report: all values in task order if all succeed; else the first event that is not a success decides: that task's own exception, or the cancellation if it is the closer; no empty slot is read |
| `TaskGroups.Any` | src/public/cfgo/async.hpp:1217-1271 | the first success to be reported; without one, the exception that task 0 reported, or the cancellation if it reported none; an empty group fails |
| `TaskGroups.FillMissing` | src/public/cfgo/async.hpp:1246-1253 | exactly the missing errors become the cancellation |
| `TaskGroups.Quorum` | src/public/cfgo/async.hpp:1423-1468 | exactly the target number of distinct succeeding tasks just if so many succeed; a task's own error just if too many fail; the cancellation only if neither came before it; never fewer; an error at once if the target exceeds the tasks; and for a target of 0, nobody if there are no tasks or the first report is a failure, else everyone who succeeded, or the cancellation |
| `TaskGroups.SuccessesHaveNoOrder` | src/public/cfgo/async.hpp:1423-1468 | once all tasks have reported, the successes counted are those of the tasks, whatever the order |
| `TrackCache.MakesureMeaning` | src/impl/track.cpp:117-178 | on ascending caches: only a front numbered 0 is popped, and the offset is positive and the least number left |
| `TrackCache.NumberZero` | src/impl/track.cpp:117-178 | at the last number, a cache starts with 0 just if the message 2^32 arrivals back is of its kind and still held, and that is then the oldest of all |
| `TrackCache.OffsetIsSafe` | src/impl/track.cpp:185-197 | a rebase subtracts a positive offset, from numbers at least as large |
| `TrackCache.RebaseSim` | src/impl/track.cpp:185-197 | a rebase leaves the caches as the arrival log has them, up to one eviction, and leaves room for the next number |
| `TrackCache.ArriveSim` | src/impl/track.cpp:180-229 | an arrival is an arrival in the unbounded log, with the ring's drop and the rebase's eviction |
| `TrackCache.ReceiveIsOldest` | src/impl/track.cpp:323-382 | a read returns the oldest message the log still holds of what was asked for, and takes exactly that |
| `TrackCache.RebasingIsInvisible` | src/impl/track.cpp:117-229 | over every run with any number of rebases: a read returns the oldest message still held, null only if there is none; received = delivered + dropped + evicted + cached, per kind; and the machine counters are those totals since the last reset, modulo their widths |
| `TrackCache.DropsWithinReceived` | src/impl/track.cpp:198-217 | while the packets and bytes received since the last reset, with the bytes in the ring then, stay below the counters' widths: packets dropped never exceed packets received; the bytes balance exactly; and bytes dropped do not exceed bytes received just if what sat in the ring at the last reset is at most what was delivered or evicted since plus what is in the ring now, so always without a reset |
| `TrackCache.HeldAtResetMeaning` | src/impl/track.cpp:482-489 | what the balance says sat in the ring at a reset is what the log held of the kind then |
| `TrackCache.ResetBreaksByteOrder` | src/impl/track.cpp:482-489 | a reset between arrival and drop: three bytes dropped, one received |
| `TrackCache.ResetStartsTheCount` | src/impl/track.cpp:533-540 | over every run, the counters of a kind count exactly what came since the last reset of that kind, and a reset changes nothing else |
| `TrackCache.TrackState.MakesureMin` | src/impl/track.cpp:117-178 | the recursive pops in place are those of the function |
| `TrackCache.TrackState.RebaseInPlace` | src/impl/track.cpp:185-197 | rebasing in place, with plain subtraction, is the modular rebase, and leaves the counter below its maximum |
| `TrackCache.TrackState.OnTrackMsg` | src/impl/track.cpp:180-229 | an arrival in place: caches, counters and the log agree after it |
| `TrackCache.TrackState.ReceiveMsg` | src/impl/track.cpp:323-382 | an error before the track is prepared; then the oldest message of the log that may be returned |
| `TrackCache.TrackState.ResetData` | src/impl/track.cpp:533-540 | only the counters of the kind go to zero |
| `AppSink.RebaseRenumbers` | src/gst/appsink.cpp:105-113 | a rebase of a ring that holds anything subtracts at least 2^32 - 1 less the capacity, leaves 0, 1, 2 and so on, and never underflows |
| `AppSink.SinkOverRuns` | src/gst/appsink.cpp:87-202 | over every run: received = pulled + dropped + cached, and the machine counters are those totals modulo their widths; pulls are in arrival order; the next pull returns the oldest sample that has not left, null only at the end of the stream with nothing cached; cached numbers are consecutive and end below the counter; a sleeping puller with something to get has a token |
| `AppSink.PullsAreServed` | src/gst/appsink.cpp:162-202 | a pull is served at once with the oldest sample, or null at the end, or sleeps; a sleeper wakes by a channel exactly if that has a token, takes it, and is served then; a cancelled one has got nothing |
| `AppSink.OnlyFullRingsDrop` | src/gst/appsink.cpp:100-139 | a sample is dropped exactly when one comes to a full ring, one for one |
| `AppSink.SinkState.RebaseInPlace` | src/gst/appsink.cpp:105-113 | the loop that renumbers in place is the rebase |
| `AppSink.SinkState.OnSample` | src/gst/appsink.cpp:100-139 | a sample is counted, stored under the next number and notified; a full ring drops and counts its oldest; no sample only rebases |
| `AppSink.SinkState.OnEndOfStream` | src/gst/appsink.cpp:87-95 | the end of the stream is recorded and notified |
| `AppSink.SinkState.Take` | src/gst/appsink.cpp:168-199 | the puller's critical section: the oldest sample, else null at the end of the stream, else nothing yet |
| `PadMatcher.MatchPadName` | src/impl/pipeline.cpp:20-109 | the two-cursor loop decides the recursive matching relation, for all pairs of strings |
| `PadMatcher.MatchReflexive` | src/impl/pipeline.cpp:20-109 | every string matches itself |
| `PadMatcher.MatchSymmetric` | src/impl/pipeline.cpp:20-109 | the order of the names does not matter, for all strings |
| `PadMatcher.MatcherLanguage` | src/impl/pipeline.cpp:20-109 | a well-formed template matches a plain name just if the name is the template, or a prefix of it that ends in a placeholder, with a numeral for every placeholder |
| `PadMatcher.RenderedPadMatches` | src/impl/pipeline.cpp:20-109 | for every template whose every percent sign starts a placeholder: either it matches everything rendered from it, in both argument orders, or nothing, and which it is can be read off the template |
| `PadMatcher.AnUnsafeTemplate` | src/impl/pipeline.cpp:20-109 | a template that matches nothing rendered from it: "%u0a" and "10a" |
| `PadMatcher.OneDigit` | src/impl/pipeline.cpp:20-109 | a placeholder takes the ten digits and no other character |
| `PadMatcher.MatchesMeets` | src/impl/pipeline.cpp:20-109 | what is decided of any two templates: placeholders that meet agree, one that meets a digit takes the run of digits and is satisfied if the other name ends in it, and all else must be the same |
| `PadMatcher.MatchingTemplatesShareAName` | src/impl/pipeline.cpp:20-109 | two well-formed templates that match each other have a name that matches both |
| `PadMatcher.SharedNameIsNotEnough` | src/impl/pipeline.cpp:20-109 | not the other way round: "%u" and "1%u" both match "12" and not each other |
| `LinkRegistry.Link.SetPad` | src/impl/link.cpp:59-101 | a pad is set once; the same again is accepted, another is refused; the other end stays |
| `LinkRegistry.FindPending` | src/impl/pipeline.cpp:400-411 | the first pending link that the pad matches at the asked end, or none if there is none |
| `LinkRegistry.PadsFindTheirLinks` | src/impl/pipeline.cpp:400-411 | a pad that matches an end of a pending link on that end's node finds that link or an earlier one, and a pad on a node that no pending link touches finds none |
| `LinkRegistry.PendingFindsItself` | src/impl/pipeline.cpp:400-411 | looking up a pending link by its own source finds that link |
| `LinkRegistry.AddLinkMovesExactlyOne` | src/impl/pipeline.cpp:429-457 | completing a pending link moves exactly that link to the made ones, and leaves all others |
| `LinkRegistry.StepKeepsValid` | src/impl/pipeline.cpp:429-488 | while the requests in flight are pairwise non-matching, every step keeps: pending links match pairwise nowhere, no pending link's source is taken, made links are filed under their own source, and every request in flight could still be stored |
| `LinkRegistry.StorePendingKeepsValid` | src/impl/pipeline.cpp:568-688 | storing a pending link leaves the other requests in flight storable just if they do not match it |
| `LinkRegistry.GivenUpWithoutTrace` | src/impl/pipeline.cpp:568-688 | a request that passes the check and then throws leaves the registry as it was |
| `LinkRegistry.TwoInFlight` | src/impl/pipeline.cpp:568-688 | two requests in flight, however each is stored: both stores together keep the registry tidy just if they do not clash (two pending: their names match; one pending and one joined: they have the same name); and a joined first link stays a made one just if the second is pending or has another name |
| `LinkRegistry.TwoRequestsMeet` | src/impl/pipeline.cpp:568-688 | for any two links there is a run from an empty registry in which both pass the check before either is stored, and it ends untidy, or without the first, just if the condition above says so |
| `LinkRegistry.RegistryOverRuns` | src/impl/pipeline.cpp:568-688 | over every run in which requests in flight together match pairwise nowhere, however many: pending links on one node are pairwise non-matching, in either order, and no link is both pending and made |
| `LinkRegistry.AwaitFailureErasesOnlyItsOwn` | src/impl/link.cpp:138-154 | giving up on a link keeps every other pending link just if that link is still pending or nothing pending matches its source |
| `LinkRegistry.AwaitFailureCanEraseAnother` | src/impl/link.cpp:138-154 | a run from an empty registry, with one request at a time, in which a second failed wait for one link loses another that was requested after the first failed wait |
| `LinkRegistry.WaitReturnsAMadeLink` | src/impl/link.cpp:108-153 | over every run with requests apart: when a wait returns its link, the link is a made one just if the framework joined its pads when last asked and no failed wait has taken it; it still waits in the registry just if the join was refused and no failed wait has taken it |
| `LinkRegistry.WaitCanReturnAnUnmadeLink` | src/impl/link.cpp:108-153 | for any link, a run in which its pads come and a later wait returns it, whether the framework joined them or not; it is a made one just if so, and else still waits |
| `LinkRegistry.RemovalTakesOneOrNone` | src/impl/pipeline.cpp:459-488 | a removal takes one link or none and says which: a pending link asked to be cleaned, itself; a made one, itself; a pending link that is not to be cleaned, nothing |
| `LinkRegistry.CompletedPad` | src/impl/pipeline.cpp:429-457 | the link found for a new pad, once complete, leaves the pending list for the made ones, and no other does; if the framework refuses to join it, nothing changes |
| `LinkRegistry.Registry.Check` | src/impl/pipeline.cpp:412-425 | a source is free just if no link is made under it and no pending one matches it, whatever else is in flight |
| `LinkRegistry.Registry.Remove` | src/impl/pipeline.cpp:459-488 | removes a pending link that matches the source, if asked to, and else the link made under it |
| `LinkRegistry.Registry.Add` | src/impl/pipeline.cpp:429-457 | a failed join removes the made link; a successful one files it and may clear the pending one |
| `LinkRegistry.Registry.Store` | src/impl/pipeline.cpp:668-687 | a link with both pads is joined and filed, one without waits; either way it is known afterwards unless the join failed |
| `LinkRegistry.Registry.OnPadAdded` | src/impl/pipeline.cpp:135-156 | the pad is set at the end of the found link that is on its node, unless that end has another pad already, which throws; the other end and all other links keep theirs; the link waits on just if the other end has no pad; else it is joined and moves to the made ones, alone, or, refused, stays |
| `LinkRegistry.Registry.Await` | src/impl/link.cpp:108-153 | a wait that can look at a link with both pads returns it; any other returns only if it is told of a join, and else removes a pending link that the name matches, or the made one |

## Left out

- Coroutines, executors, shared and weak pointers, lifetimes and data races on unlocked reads: a
  lock-guarded block is one step, and an unlocked early test is folded into it.
- Reason strings: only the closed, stopped and timeout status of a signal is modelled; the loop in
  `close` moves the reason while handing it on, so only the first child is sure to get it.
- The wait on the timer itself: a timeout step is possible when an armed timer has expired. Moving
  the expiry of a waiting timer aborts that wait in asio; the expiry is proved, not the firing.
- `CloseSignalState` as a tree of objects: one signal is a class, the tree is on values, so
  aliasing between signals is not captured.
- `lock` as one object method: its first critical section, its selection loop, its release loop and
  `unlock` are methods; the suspensions between them are the transition system on values.
- Two lockers at once: `lock` throws for the second one while the first holds the lock; the
  transition system has one locker, and stragglers only as tasks of its cancelled locks.
- `LockRuns.WorkersWake`: the whole system has one worker per blocker id. What several calls of
  `wait_blocker` for one id are left with, who share the one token of its channel, is
  `Blocker.WorkersShareOneToken`, for one blocker alone.
- `unlock` called by someone else while a lock is still being taken: in the transition system only a
  lock that has returned, or that is cancelled, is unlocked.
- Epochs and ids are unbounded naturals where the code has 32 bits; bytes and packets of the track
  and the sink, and their sequence numbers, are modular as in the code.
- `LockRuns.LockBlocksTheFirst`: for locks that began without a straggler for a listed blocker; that
  this is what matters, and all that matters, is `LockStragglers.StragglersAreTheDanger`.
- `LockStragglers.StragglersAreTheDanger`: for configurations with a minimum or a target of at least 1.
  With neither, a batch can be nobody, which the code asserts against when it locks.
- `LinkRegistry.RegistryOverRuns`: for runs in which requests in flight together do not match; which
  of the others break it is `LinkRegistry.TwoInFlight`.
- `LinkRegistry.WaitReturnsAMadeLink`: for the same runs. The asynchronous mutex around a wait and the
  channel it reads are folded into two steps, returning and failing; that it is told of a join only
  once there are both pads is a condition of `LinkRegistry.Registry.Await`.
- `CloseSpread.SpreadsAlongTheChain`: for a call whose thread runs with nothing in between; a stop and
  a resume that overlap promise nothing about signals that both reach.
- `LinkRegistry.Registry.Store`: the lookup of pads and templates between check and store is a
  question to GStreamer, and only its outcome is a parameter.
- The two-level map of made links is one map keyed by node and pad.
- `Track::await_msg`: two of its readers share one token, so no wakeup is claimed for it.
- `TrackCache.TrackState.OnTrackMsg`: the data and statistics callbacks, and whether a packet is
  RTCP, which becomes a parameter.
- `AsyncTasksSome` with values differs from the `void` one modelled here only in what it collects.
- Library containers: `std::sort`, `std::list`, `std::remove_if` and the ring buffer are sequences
  with the documented meaning; a ring has capacity at least 1.
- GStreamer, the network, signalling, logging, statistics rates, user data, SDP and CUDA: foreign
  or without state worth proving.
- `async_retry`: its loop body always returns, so it never retries.
