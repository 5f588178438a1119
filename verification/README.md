# Verification of the ares work queue and its building blocks

This project models the work queue of the ares library, the data structures below it, and the bit and byte codecs, and
proves what they promise. `dafny verify dfyconfig.toml` checks everything.

## What is modelled

**The work-queue protocol.** Clients submit, flush, cancel, drain, plug, unplug, start and stop; one worker per queue runs
handlers. Everything happens under one global spin lock, so a critical section is one step, and the blocking points
(`notifyq.get`, `drainq.get`, the semaphore of a flusher or a canceller, the handler run) lie between steps. `WorkModel`
is this state machine on values: any number of items and queues, every interleaving of any number of clients. An item
carries the number of its accepted submissions, and a log of events records what happened; both only observe.

`WorkQueue` is the same code on objects: `Work`, `WorkQ`, flushers and cancellers with flag words (32 bits, with the
source's bit numbers), lists, owner pointers and channels that methods update in place. Each critical section is a method
proved to lead from the state it represents to `Next` of that state, with the same answer, and to keep the objects coupled
to the state. What the other modules prove of runs therefore holds of these objects.

- `WorkInvariant`: the inductive invariant over all interleavings. `WorkSteps`: what a step does to one queue.
- `WorkCalls`: what each call answers and each step does in every reachable state, all of it, in terms of where the worker
  stands, what is linked and which handler runs: thirteen laws, one for each action, that name none of the functions the
  state machine is made of.
- `WorkSafety`, `WorkHistory`, `WorkOrder`: what holds in every run, whatever the clients do.
- `WorkLiveness`: who finds a wake-up token, and exactly when the one for a stop is lost.
- `WorkDrain`, `WorkCancel`: whose token a drain caller takes, and which synchronous cancellers are left behind.
- `WorkProgress`: how many worker steps a drain, a flush and a stop can take.
- `WorkBlocking`: the same protocol with a caller for every call, so that a handler that waits in a flush, a synchronous
  cancel, a drain or a stop holds up its worker; when that ends in a deadlock, and that otherwise somebody can move.
- `WorkCounterexamples`: concrete runs.

**The data structures.** `SinglyLinkedList` proves the intrusive list on the heap, with pairwise distinct nodes and stale
pointers, against the operations of `Lists` (`InsertAfter`, `Without`, append, prepend, tail), which `WorkQueue` uses for
its lists. `WorkLists` puts the heap lists and ring buffers of all queues together, on nodes that move from list to list,
and proves that the list and channel operations of each step lead to `Next` of the state they represent. That a node is
not linked twice, whatever its stale pointer says, follows there from the invariant of the protocol. `BoundedQueue` proves
the ring buffer against the sequence operations of `Ring`, which `WorkModel` and `WorkQueue` use for the one-slot channels.
`Semaphore` is built on the ring buffer.

**The codecs.** `Bits` defines the bit operations on unsigned words of any width, `Bitfields` the bit, field and flag-list
functions, `Serialization` the field lists, `Hexdump` the printer of the logger.

## Where the code falls short of its documentation

The model follows the code. The first three promises below fail without a discipline that the code does not enforce; each
failure has a run that shows it and an exact condition. The fourth is a misuse of which the header warns only in part.

1. *Stop during a drain* (`src/work-q/work_q.cpp:362-378`). `notifyq` has one slot, so the tokens of a drain and a stop
   coalesce. The worker spends the one token on the drain and then waits for ever with STOP set, and `stop` never returns.
   `StopDuringDrainStrandsWorker` is such a run. `WakeupKeptIff`: a step loses the wake-up of a worker if and only if it is
   its turn with an empty list, DRAIN and STOP set and no token left. `OverlapsIff`: DRAIN and STOP become set together by
   exactly the stop calls on a plugged queue with DRAIN set and the waiting drain calls on a queue with STOP set; without
   these on a queue its worker always hears of the stop (`NoLostWakeup`). `StopOutcome`: from any reachable state, the worker
   left alone exits if and only if it will hear of the stop. Linked work, flushes and drains are served in every run, also
   across such an overlap.
2. *Two synchronous cancellers of one item* (`src/work-q/work_q.cpp:534-548`). `finalize_cancel_locked` releases one
   canceller; a second one waits although the item is idle (`SecondCancellerIsLeftBehind`). `CancellersLeftBehind`: the end
   of the run leaves nobody waiting if and only if at most one was waiting.
3. *Two drain callers* (`src/work-q/work_q.cpp:326-347`). They fail in two ways. One drain token is produced for all who wait
   (`SecondDrainCallerIsLeftBehind`); the tokens suffice if and only if at most one caller waits when the drain ends
   (`DrainTokensSuffice`). And a caller can take the token that an earlier one has not yet taken, and return before its own
   drain (`StaleTokenEndsDrainEarly`); a drain call can return at once if and only if a token is there
   (`DrainReturnsEarlyIff`), and otherwise nobody returns before a later drain has ended (`DrainBarrier`).
4. *Handlers that wait for their own queue* (`include/ares/work-q/work_q.hpp:129-130`). The header warns of flushing or
   synchronously cancelling an item from the queue that runs it; the same goes for a drain of that queue, and for a flush of
   any item queued there. Such a handler never returns (`WaitingForOneselfIsForEver`); exactly which calls these are is
   `SelfWaitIff`. In general `HandlerWaits` says which calls make a handler wait and exactly when the wait can end. A stop of its own queue is none of them (`StoppingOneselfReturns`): a thread that joins itself gets an
   error at once, and a stop with a time limit ends its wait (`include/ares/work-q/task.hpp:282-291`). In general a cycle of
   waits is for ever (`CycleIsForEver`), comes about only by a handler's call (`CycleBegins`), and is the only thing that can
   hold up a queue for good (`SomebodyCanMove`).

What clients must keep to is stated in parts, and each theorem assumes the part it uses, for the queue or the item it is
about: `OneDrainCaller` (nobody drains a queue, or starts it again, while a drain caller of it waits), `NoOverlap` or
the stricter `StopsAfterDrain` (no stop while a drain caller waits, no drain after a stop), `OneCanceller` (one
synchronous canceller of an item at a time), and `CarefulRun` for all of them. All other statements about runs assume
nothing but that a run starts in an initial state, that a handler's call comes from a worker that runs a handler, that
`work_cancel` is called on an item submitted before (its `queue` pointer is dereferenced), and that `start` is not
called on a queue whose worker is alive. `WorkBlocking` also assumes that nobody starts a queue again while a handler's
stop of it still joins the worker (`StartsJoined`). The condition `WellFormed` in `Run`, which keeps references inside
the state, is proved to hold in every reachable state, so it excludes no run. Outside `WorkBlocking`, handlers are
assumed to return: that a worker can move includes the end of the run it is in.

Smaller differences: the worker clears BUSY under the name `WORK_CANCELING_BIT`, which is the same bit number. The
assertion of `set_bit` and `check_bit` admits a bit number equal to the width, one too many: with a type narrower than
`int` the call then changes nothing and reads false, with a wider one the shift is undefined. `get_flags` checks
the number of flags against the width only, not against what is left above `start_bit`. In `serialize` the test
for a reserved buffer looks at a reference type and is always false; the bytes written are the same.

## Model

| member | source | states |
|---|---|---|
| `WorkInvariant.StepKeepsInv` | src/work-q/work_q.cpp:390-548 | every client call and worker step keeps the invariant that ties flags, list membership, owner pointers, worker positions and flushers together |
| `WorkInvariant.RunKeepsInv` | src/work-q/work_q.cpp:470-526 | the invariant, and that every reference stays inside the state, hold in every state of every run |
| `WorkSafety.SingleOwner` | src/work-q/work_q.cpp:390-422 | QUEUED iff the item stands in some list, once and only in its own queue's; RUNNING iff some worker runs it, only its own queue's; so no handler runs on two queues at once |
| `WorkSafety.FlagCombinations` | src/work-q/work_q.cpp:148-161 | the item flags are always one of five combinations; CANCELING implies RUNNING and not QUEUED |
| `WorkSafety.CancelAnswersZeroIffGone` | src/work-q/work_q.cpp:98-101 | work_cancel answers the item's flags, zero iff the item then is in no list and runs nowhere, and otherwise it is running and being cancelled |
| `WorkSafety.CancellerReleasedWhenIdle` | src/work-q/work_q.cpp:508-516 | a synchronous canceller is released only at the end of a run of its item, with all flags of the item clear |
| `WorkSafety.FlushWaitsForEverythingBefore` | src/work-q/work_q.cpp:137-146 | when the flusher a flush created is released, every instance accepted before that flush had completed or been cancelled, in every run |
| `WorkSafety.FlushThatReturnsAtOnce` | src/work-q/work_q.cpp:85-96 | a flush that answers false changed nothing, and every instance accepted so far had ended |
| `WorkSafety.FlushReleasedOnce` | src/work-q/work_q.cpp:528-532 | no flusher is released twice, so its semaphore of count one never overflows |
| `WorkSafety.OnlyFlushersBetween` | src/work-q/work_q.cpp:452-460 | between a queued item and a flusher of it stand only flushers of the same instance |
| `WorkSafety.RunningItemsFlushersGoFirst` | src/work-q/work_q.cpp:457-459 | while a flusher of a running item is unreleased, its queue starts no other user item |
| `WorkSafety.QueueRefinesFifo` | src/work-q/work_q.cpp:478-485 | erasing flushers, each queue is a FIFO with deletion whose line is the pending list |
| `WorkOrder.FifoStartsInOrder` | src/work-q/work_q.cpp:435-437 | in a FIFO with deletion, starts followed by the line are the submissions minus the deletions, in order |
| `WorkOrder.StartsFollowSubmissions` | src/work-q/work_q.cpp:464-468 | on every queue the handlers start in the order of the accepted submissions minus those cancelled |
| `WorkSafety.Conservation` | src/work-q/work_q.cpp:390-441 | per item: accepted submissions = starts + removals + the one queued; starts = completions + the one running |
| `WorkSafety.SubmissionAnswers` | include/ares/work-q/work_q.hpp:287-302 | 1 or 2 counts one accepted submission, 2 iff the item was running; the item then belongs to the queue that runs it, or else to the one asked for (a resubmit: to the former one); 0 iff it was queued; any other answer changes nothing |
| `WorkCalls.SubmitLaw` | src/work-q/work_q.cpp:390-443 | in every reachable state, submit answers -EBUSY iff the item is being cancelled, or not queued and its queue has a worker but does not admit it; -ENODEV iff neither and there is no worker; 0 iff it is queued; 1 iff it is idle and 2 iff it only runs, and its queue admits it: then it is last in the list of the queue asked for, or of the one that runs it, a token is there, and nothing else changes |
| `WorkCalls.ResubmitLaw` | src/work-q/work_q.cpp:173-181 | resubmit answers -EINVAL iff no submission of the item was ever accepted; otherwise it is such a submission to the queue of the last one |
| `WorkCalls.FlushLaw` | src/work-q/work_q.cpp:129-141 | work_flush waits iff the item is queued or running; its flusher stands directly behind the queued item, else in front of everything, and waits for the last accepted submission; nothing else changes but the token |
| `WorkCalls.CancelLaw` | src/work-q/work_q.cpp:148-161 | work_cancel unlinks a queued item, leaves a running one RUNNING and CANCELING and any other without flags, answers these flags, and changes nothing else |
| `WorkCalls.CancelSyncLaw` | src/work-q/work_q.cpp:103-120 | work_cancel_sync answers whether the item was busy, does to a busy one what work_cancel does, and waits behind all other cancellers iff the item runs |
| `WorkCalls.DrainLaw` | src/work-q/work_q.cpp:326-347 | queue_drain answers -ENODEV iff there is no worker, 0 iff there is nothing to wait for and it does not plug; otherwise it waits, with DRAIN set, PLUGGED set if asked for and kept if not, and a token for the worker |
| `WorkCalls.DrainReturnLaw` | src/work-q/work_q.cpp:341-346 | a drain caller can return iff one waits and the token is there; it takes the token and answers 1 |
| `WorkCalls.UnplugLaw` | src/work-q/work_q.cpp:349-358 | queue_unplug answers 0 iff the queue was plugged and -EALREADY iff not, leaves it unplugged and changes nothing else |
| `WorkCalls.StopLaw` | src/work-q/work_q.cpp:362-378 | stop answers -EALREADY iff there is no worker and -EBUSY iff there is one and the queue is not plugged, without any change; otherwise it goes on to join, with STOP set and a token left |
| `WorkCalls.StartLaw` | src/work-q/work_q.cpp:279-302 | start leaves an empty list, empty channels, STARTED, and NO_YIELD iff it is configured |
| `WorkCalls.TurnLaw` | src/work-q/work_q.cpp:476-497 | the worker takes the first node and runs it; with an empty list it serves a drain before it hears of a stop, and waits when there is neither |
| `WorkCalls.WakeLaw` | src/work-q/work_q.cpp:494-497 | a waiting worker wakes up iff a token is there, and takes it |
| `WorkCalls.FinishLaw` | src/work-q/work_q.cpp:508-548 | the end of a run releases the flusher; or clears RUNNING, and of an item being cancelled CANCELING too, and releases the canceller that has waited for it the longest and no other |
| `WorkSafety.BusyIsExact` | src/work-q/work_q.cpp:480-518 | between steps BUSY is set iff the worker runs something |
| `WorkSafety.DrainAnswersZeroIffQuiet` | src/work-q/work_q.cpp:326-346 | queue_drain answers 0 without waiting iff it does not plug, no drain is under way, the list is empty and nothing runs; -ENODEV iff the queue has no live worker |
| `WorkSafety.DrainAdmitsOnlyChained` | src/work-q/work_q.cpp:426-433 | while a queue drains only a handler running on it adds work |
| `WorkSafety.PluggedIsQuiet` | include/ares/work-q/work_q.hpp:336-357 | PLUGGED without DRAIN means an empty list and a worker that runs nothing |
| `WorkSafety.QuietUntilUnplugged` | src/work-q/work_q.cpp:349-358 | that persists until the queue is unplugged or started again, whatever is submitted, flushed, cancelled, drained or stopped |
| `WorkSafety.ExitOnlyWhenEmpty` | src/work-q/work_q.cpp:488-491 | the worker exits only in its own turn, with STOP set, no DRAIN and an empty list, and clears all flags |
| `WorkSafety.ExitedUntilRestarted` | include/ares/work-q/work_q.hpp:386-400 | after the worker has exited nothing is queued and nothing runs until the queue is started again |
| `WorkHistory.RunKeepsHistory` | src/work-q/work_q.cpp:470-526 | every run's log is consistent with its states: each instance that is no longer live has ended, flush releases are justified, counts balance, lines are FIFO |
| `WorkSafety.RunReaches` | src/work-q/work_q.cpp:470-526 | every state of a run is reachable, so what is proved of reachable states holds in all of them |
| `WorkLiveness.RunKeepsToken` | src/work-q/work_q.cpp:452-462 | in every run, also across overlapping stops and drains, a waiting worker with a linked node or DRAIN set has a token |
| `WorkLiveness.WakeupKeptIff` | src/work-q/work_q.cpp:486-496 | a step leaves a waiting worker that has work, STOP included, with a token iff it is not its turn that spends the last token on DRAIN with STOP set |
| `WorkLiveness.OverlapsIff` | src/work-q/work_q.cpp:334-342 | DRAIN and STOP of a queue become set together iff stop is called on it plugged and draining, or a drain that has to wait on it stopping |
| `WorkLiveness.NoOverlapNoLoss` | src/work-q/work_q.cpp:362-378 | as long as no such call was made on a queue, its waiting worker has a token whenever it has work, STOP included |
| `WorkLiveness.NoLostWakeup` | src/work-q/work_q.cpp:462-497 | in every run a worker that runs something, or whose queue has a linked node or DRAIN, can move; so can one with STOP, when no such call was made on its queue |
| `WorkLiveness.FlushCallerHasAWorker` | src/work-q/work_q.cpp:91-93 | in every run an unreleased flusher sits on a queue whose worker can move |
| `WorkDrain.RunKeepsDrain` | src/work-q/work_q.cpp:341-344 | with one drain caller of a queue at a time, one waits exactly while DRAIN is set or its token is there |
| `WorkDrain.DrainCallerIsServed` | src/work-q/work_q.cpp:341-344 | then a waiting caller finds its token, and answers 1, or DRAIN is set and the worker can move |
| `WorkDrain.WaitBeforeStop` | src/work-q/work_q.cpp:264-267 | clients that wait for a drain before they stop, as the destructor does, never overlap the two |
| `WorkDrain.DrainBarrier` | include/ares/work-q/work_q.hpp:336-350 | in every run, after a waiting drain call that found no token, whoever returns does so after a later turn that ended a drain with nothing linked and nothing running |
| `WorkDrain.DrainReturnsEarlyIff` | src/work-q/work_q.cpp:334-346 | right after a waiting drain call DRAIN is set, and a caller can return iff a token was there at the call |
| `WorkDrain.DrainReturnsDrained` | include/ares/work-q/work_q.hpp:336-350 | with one drain caller at a time, every drain that returns has drained since its call |
| `WorkDrain.DrainPlugs` | include/ares/work-q/work_q.hpp:343-345 | with one drain caller at a time, when a plugging drain returns and nobody has unplugged the queue, it is plugged, empty and runs nothing |
| `WorkDrain.DrainTokensSuffice` | src/work-q/work_q.cpp:486-487 | the turn that ends a drain leaves a token for each waiting caller iff at most one waits |
| `WorkCancel.RunKeepsCancels` | src/work-q/work_q.cpp:447-450 | with one synchronous canceller of an item at a time, one waits only while the item is being cancelled |
| `WorkCancel.CancellerIsServed` | src/work-q/work_q.cpp:163-171 | then it waits for a run that is going on; the end of that run releases it, unlinks only it and keeps the order of the rest |
| `WorkCancel.CancelSyncReturnsIff` | src/work-q/work_q.cpp:103-120 | in every run work_cancel_sync answers whether the item was busy, and registers no canceller iff the item is then idle |
| `WorkCancel.CancellersLeftBehind` | src/work-q/work_q.cpp:534-548 | in every run the end of a cancelled run leaves no canceller of the item behind iff at most one waited, and does not touch those of other items |
| `WorkCounterexamples.StopDuringDrainStrandsWorker` | src/work-q/work_q.cpp:362-378 | a run in which stop during a drain leaves the worker waiting with STOP set, unable to move |
| `WorkCounterexamples.SecondCancellerIsLeftBehind` | src/work-q/work_q.cpp:103-120 | a run in which a second synchronous canceller still waits when the item is idle |
| `WorkCounterexamples.SecondDrainCallerIsLeftBehind` | src/work-q/work_q.cpp:334-346 | a run in which a second drain caller is left without a token |
| `WorkCounterexamples.StaleTokenEndsDrainEarly` | src/work-q/work_q.cpp:341-346 | a run in which a drain call returns 1 with DRAIN still set and an item linked |
| `WorkCounterexamples.FiveCombinationsOccur` | src/work-q/work_q.cpp:393-413 | a run through all five combinations of item flags |
| `WorkBlocking.SystemRunReaches` | src/work-q/work_q.cpp:499-508 | with callers and waiting handlers, the states are states of runs, so all theorems about runs hold |
| `WorkBlocking.RunsAreSystemRuns` | src/work-q/work_q.cpp:499-508 | conversely every run is such a run, step by step, in which no handler waits |
| `WorkBlocking.HandlerWaits` | src/work-q/work_q.cpp:85-120 | after a handler has flushed a queued or running item, synchronously cancelled a running one, called a drain that has to wait or a stop that goes on to join (of another queue, or with a time limit), and until its wait has been ended, the only move of it or its worker is the end of the wait, possible iff the flusher or canceller of that call is released, a drain token is there, the worker has exited, or the stop is not patient |
| `WorkBlocking.HandlerBlocks` | src/work-q/work_q.cpp:91-117 | so no move belongs to the handler or its worker until then |
| `WorkBlocking.HandlerGoesOn` | src/work-q/work_q.cpp:85-120 | after any other call, and after the end of a wait, the handler can return at once |
| `WorkBlocking.NewHandlerCalls` | src/work-q/work_q.cpp:499-508 | a handler that was just started can make each of these calls |
| `WorkBlocking.SelfWaitIff` | include/ares/work-q/work_q.hpp:164-165 | a handler's call makes it wait for its own worker iff it flushes an item that is queued or running on its own queue, synchronously cancels one that runs there, or drains its queue and finds no token; a stop never does |
| `WorkBlocking.WaitingForOneselfIsForEver` | include/ares/work-q/work_q.hpp:129-130 | after such a call neither the handler nor its worker ever moves or can move, whatever others do |
| `WorkBlocking.StoppingOneselfReturns` | include/ares/work-q/task.hpp:282-291 | a handler that stops its own queue can return at once, or end its wait and return |
| `WorkBlocking.CycleIsForEver` | src/work-q/work_q.cpp:499-508 | handlers that wait for each other's workers in a cycle, without a time limit, stay so for ever and none of them moves |
| `WorkBlocking.CycleBegins` | src/work-q/work_q.cpp:91-117 | in a careful run a cycle begins only with a waiting call of a handler in it |
| `WorkBlocking.SomebodyCanMove` | src/work-q/work_q.cpp:470-526 | in a careful run, following the waits from any queue with something to do leads to a worker or handler that can move, or else into a cycle, never to both |
| `WorkProgress.ArrivalsWhileDraining` | src/work-q/work_q.cpp:424-434 | what joins a draining queue's list is a flusher or a submission of its own handler |
| `WorkProgress.WorkerStepsCount` | src/work-q/work_q.cpp:470-526 | the steps that the following bounds speak of are those of the worker, each counted once |
| `WorkProgress.ArrivalsCount` | src/work-q/work_q.cpp:424-462 | the arrivals are the steps that link a further node, each counted once |
| `WorkProgress.FlushesCount` | src/work-q/work_q.cpp:452-460 | and the flushes those flush calls that do so |
| `WorkProgress.DrainIsBounded` | src/work-q/work_q.cpp:470-497 | while DRAIN stays set, worker steps taken plus work left are at most the work at the start plus two for each arrival |
| `WorkProgress.DrainEndsQuiet` | src/work-q/work_q.cpp:478-487 | DRAIN is cleared only by the worker, when the list is empty and nothing runs, and leaves the drain token |
| `WorkProgress.WorkerFinishesDrain` | src/work-q/work_q.cpp:326-347 | from any reachable state, the worker left alone ends a drain after exactly Load + 1 steps and leaves the token |
| `WorkProgress.StopOutcome` | src/work-q/work_q.cpp:362-378 | from any reachable state with STOP set, also with DRAIN, the worker left alone exits iff it will hear of the stop; otherwise it ends waiting with STOP set, an empty list and no token |
| `WorkProgress.DestructorStops` | src/work-q/work_q.cpp:264-267 | after a plugging drain has returned and stop has been called, the worker can move until it has exited, and has exited after two steps of its own, whatever others submit, flush and cancel |
| `WorkProgress.FlushIsBounded` | src/work-q/work_q.cpp:137-146 | a waiting flusher's distance shrinks with every step of its worker and grows only by flushers linked later on its own queue, never by submissions |
| `WorkProgress.WorkerFinishesFlush` | src/work-q/work_q.cpp:511-513 | from any reachable state, the worker left alone releases a waiting flusher after exactly Distance steps |
| `WorkQueue.Kernel.constructor` | src/work-q/work_q.cpp:262 | fresh items and queues represent an initial state |
| `WorkQueue.Kernel.SubmitLocked` | src/work-q/work_q.cpp:390-422 | the static submit_locked does to flags, lists, owner pointers and channels what the state machine does, with the same answer |
| `WorkQueue.Kernel.Submit` | src/work-q/work_q.cpp:269-277 | submit refines its step; a null pointer answers -EINVAL and changes nothing; on 1 the item's queue pointer is the queue and its Work is last in that list, on 2 the pointer stays |
| `WorkQueue.Kernel.Resubmit` | src/work-q/work_q.cpp:173-181 | resubmit refines its step; -EINVAL iff the queue pointer is null, and the pointer stays |
| `WorkQueue.Kernel.WorkFlush` | src/work-q/work_q.cpp:85-90 | the critical section of work_flush refines its step and adds one flusher with a semaphore at zero iff it answers true |
| `WorkQueue.Kernel.WorkCancel` | src/work-q/work_q.cpp:148-161 | work_cancel refines its step and answers the item's flag word |
| `WorkQueue.Kernel.WorkCancelSync` | src/work-q/work_q.cpp:103-114 | the critical section of work_cancel_sync refines its step and appends a canceller iff the caller has to wait |
| `WorkQueue.Kernel.QueueDrain` | src/work-q/work_q.cpp:326-343 | the critical section of queue_drain refines its step |
| `WorkQueue.Kernel.DrainGet` | src/work-q/work_q.cpp:343 | the waiting drain caller takes the token and answers it |
| `WorkQueue.Kernel.QueueUnplug` | src/work-q/work_q.cpp:349-358 | queue_unplug refines its step; 0 iff the PLUGGED bit was set, else -EALREADY, and the bit is clear |
| `WorkQueue.Kernel.QueueStop` | src/work-q/work_q.cpp:362-375 | the critical section of stop refines its step; -EALREADY iff the STARTED bit is clear, -EBUSY iff it is set and PLUGGED is not, and otherwise STOP and a token are there |
| `WorkQueue.Kernel.QueueStart` | src/work-q/work_q.cpp:279-290 | start empties list and channels and sets STARTED, and NO_YIELD when configured |
| `WorkQueue.Kernel.WorkerGet` | src/work-q/work_q.cpp:495 | the waiting worker takes one token and returns to the head of its loop |
| `WorkQueue.Kernel.Turn` | src/work-q/work_q.cpp:476-494 | the critical section at the head of the worker's loop refines its step and returns the Work that is to run |
| `WorkQueue.Kernel.Finish` | src/work-q/work_q.cpp:508-518 | the critical section after the handler refines its step; a flusher's semaphore is at one exactly when it is released, and the oldest canceller of a cancelled item is given its semaphore once |
| `WorkQueue.Kernel.FinalizeCancelLocked` | src/work-q/work_q.cpp:534-548 | the loop stops at the first canceller that waits for the item, unlinks and releases it and no other, keeping the order of the rest |
| `WorkQueue.Kernel.FinalizeFlushLocked` | src/work-q/work_q.cpp:528-532 | FLUSHING is cleared and the flusher's semaphore given once |
| `Flags.WorkBits` | include/ares/work-q/work_q.hpp:36-45 | RUNNING, CANCELING, QUEUED and FLUSHING are bits 0, 1, 2 and 4 of an item's word, and no other bit is ever set |
| `Flags.QueueBits` | include/ares/work-q/work_q.hpp:52-65 | STARTED, BUSY, DRAIN, PLUGGED, STOP and NO_YIELD are bits 0 to 4 and 8 of a queue's |
| `Flags.WorkTests` | include/ares/work-q/work_q.hpp:36-45 | each test of an item's word tells the flag that the bit stands for |
| `Flags.WorkUpdates` | src/work-q/work_q.cpp:56-58 | each set or clear of a bit changes that flag and no other |
| `Flags.QueueSets` | include/ares/work-q/work_q.hpp:52-65 | each set of a bit of a queue's word changes that flag and no other |
| `Flags.QueueClears` | src/work-q/work_q.cpp:518 | each clear too, including BUSY under the name WORK_CANCELING_BIT |
| `Flags.WorkWordsAreFaithful` | include/ares/work-q/work_q.hpp:36-45 | different item flags have different words |
| `Flags.QueueWordsAreFaithful` | include/ares/work-q/work_q.hpp:52-65 | different queue flags have different words |
| `WorkLists.QueueLists.constructor` | src/work-q/work_q.cpp:279-284 | empty lists and channels represent an initial state |
| `WorkLists.QueueLists.Unlinked` | src/work-q/work_q.cpp:395-413 | the node of an item that is not QUEUED is in no list of any queue |
| `WorkLists.QueueLists.Submit` | src/work-q/work_q.cpp:435-437 | appending the node and notifying refine an accepted submission on the heap, with all other lists unchanged |
| `WorkLists.QueueLists.Flush` | src/work-q/work_q.cpp:137-146 | linking a flusher's node behind the item's, or in front, and notifying refine a flush of a busy item |
| `WorkLists.QueueLists.Cancel` | src/work-q/work_q.cpp:464-468 | finding and removing the node refine the removal of a queued item |
| `WorkLists.QueueLists.Turn` | src/work-q/work_q.cpp:478-487 | getting the head, or putting the drain token, refine the worker's turn; the node got is that of the item or flusher that runs |
| `WorkLists.QueueLists.Drain` | src/work-q/work_q.cpp:341 | the notification refines a drain call that waits |
| `WorkLists.QueueLists.Stop` | src/work-q/work_q.cpp:374 | the notification refines a stop |
| `WorkLists.QueueLists.Wake` | src/work-q/work_q.cpp:495 | taking the token refines the worker's wake-up |
| `WorkLists.QueueLists.DrainGet` | src/work-q/work_q.cpp:343 | taking the token refines the return of a drain caller, with its answer |
| `WorkLists.QueueLists.Start` | src/work-q/work_q.cpp:282-284 | clearing the list and both channels refines a start |
| `WorkLists.CancelList.Register` | src/work-q/work_q.cpp:447-450 | a canceller joins the list behind |
| `WorkLists.CancelList.ReleaseOldest` | src/work-q/work_q.cpp:540-547 | the loop unlinks the first node whose canceller waits for the item and no other, or nothing when there is none |
| `Lists.InsertAfterAt` | include/ares/data-structures/sys/list_gen.h:134-146 | insertion behind a node of a list without repetitions puts the new node at the next position and moves nothing else |
| `Lists.WithoutAt` | include/ares/data-structures/sys/list_gen.h:192-208 | removal takes out that position and nothing else |
| `SinglyLinkedList.SList.Init` | include/ares/data-structures/sys/slist.h:198-201 | the list becomes empty |
| `SinglyLinkedList.SList.Prepend` | include/ares/data-structures/sys/list_gen.h:85-94 | the node is linked in front |
| `SinglyLinkedList.SList.Append` | include/ares/data-structures/sys/list_gen.h:96-108 | the node is linked behind |
| `SinglyLinkedList.SList.AppendList` | include/ares/data-structures/sys/list_gen.h:110-122 | a disjoint chain, or none, is linked behind |
| `SinglyLinkedList.SList.Merge` | include/ares/data-structures/sys/list_gen.h:124-132 | the lists are concatenated and the second is emptied |
| `SinglyLinkedList.SList.Insert` | include/ares/data-structures/sys/list_gen.h:134-146 | the node is linked behind prev, or in front when prev is null |
| `SinglyLinkedList.SList.GetNotEmpty` | include/ares/data-structures/sys/list_gen.h:148-159 | the first node is unlinked |
| `SinglyLinkedList.SList.Get` | include/ares/data-structures/sys/list_gen.h:161-167 | the first node is unlinked, or null when there is none |
| `SinglyLinkedList.SList.Remove` | include/ares/data-structures/sys/list_gen.h:169-190 | exactly the node is unlinked and its pointer cleared |
| `SinglyLinkedList.SList.Find` | include/ares/data-structures/sys/list_gen.h:210-233 | whether the node is linked, and its predecessor |
| `SinglyLinkedList.SList.FindAndRemove` | include/ares/data-structures/sys/list_gen.h:192-208 | the node is unlinked iff it was linked; the order of the rest stays |
| `SinglyLinkedList.SList.Len` | include/ares/data-structures/sys/list_gen.h:235-241 | the number of nodes |
| `SinglyLinkedList.SameHeadSameNodes` | include/ares/data-structures/sys/slist.h:214-224 | the pointers alone determine the list: equal heads mean equal nodes and tails |
| `BoundedQueue.BoundedQueue.constructor` | include/ares/data-structures/queue.hpp:169-179 | a new queue is empty, for every size above zero and either mode |
| `BoundedQueue.BoundedQueue.Put` | include/ares/data-structures/queue.hpp:377-394 | the element joins behind |
| `BoundedQueue.BoundedQueue.PutTimed` | include/ares/data-structures/queue.hpp:396-426 | with space the element joins; full, the oldest is dropped when overwriting, else nothing changes and the error tells a zero limit from another |
| `BoundedQueue.BoundedQueue.PutNonblocking` | include/ares/data-structures/queue.hpp:428-432 | the same with a zero limit |
| `BoundedQueue.BoundedQueue.Get` | include/ares/data-structures/queue.hpp:434-452 | the oldest element leaves |
| `BoundedQueue.BoundedQueue.GetTimed` | include/ares/data-structures/queue.hpp:454-477 | the oldest element leaves; empty, nothing changes and the error tells a zero limit from another |
| `BoundedQueue.BoundedQueue.Full` | include/ares/data-structures/queue.hpp:496-500 | true iff the queue holds max_size elements |
| `BoundedQueue.BoundedQueue.Clear` | include/ares/data-structures/queue.hpp:502-508 | the queue becomes empty |
| `Ring.OverwritingKeepsNewest` | include/ares/data-structures/queue.hpp:416-424 | any series of puts leaves an overwriting queue with the newest max_size elements, in order |
| `Ring.RefusingKeepsOldest` | include/ares/data-structures/queue.hpp:408-413 | any series of puts leaves a refusing queue with the oldest max_size elements, in order |
| `Ring.FirstInFirstOut` | include/ares/data-structures/queue.hpp:434-452 | over any series of puts and gets, what left followed by what is in the queue is what was accepted, and the size never exceeds max_size |
| `Semaphore.Semaphore.constructor` | include/ares/synchronization/semaphore.hpp:157-171 | the count is the smaller of the initial and the maximal count |
| `Semaphore.Semaphore.Lock` | include/ares/synchronization/semaphore.hpp:222-225 | takes one, once there is one |
| `Semaphore.Semaphore.LockTimed` | include/ares/synchronization/semaphore.hpp:227-242 | takes one iff the count is positive; otherwise changes nothing and tells a time-out from a call that may not block |
| `Semaphore.Semaphore.TryLock` | include/ares/synchronization/semaphore.hpp:205-215 | true iff the count was positive, and then takes one |
| `Semaphore.Semaphore.Unlock` | include/ares/synchronization/semaphore.hpp:187-198 | gives one iff the count is below its maximum; otherwise changes nothing and reports the overflow |
| `Semaphore.Semaphore.GetCount` | include/ares/synchronization/semaphore.hpp:217-220 | the count |
| `Semaphore.CountIsConserved` | include/ares/synchronization/semaphore.hpp:75-149 | over any series of calls the count is the initial count plus successful gives minus successful takes, and at most the maximum |
| `Bits.BitIsDigit` | include/common/ares/serialization.hpp:53-54 | bit i of a word is its digit of weight 2^i |
| `Bitfields.SetBit` | include/common/ares/serialization.hpp:28-39 | the bit takes the value, every other bit stays; bit == width changes nothing |
| `Bitfields.CheckBit` | include/common/ares/serialization.hpp:48-55 | the bit's value; false for bit == width |
| `Bitfields.SetBitfield` | include/common/ares/serialization.hpp:66-81 | the word is low part, new field and high part put together |
| `Bitfields.GetBitfield` | include/common/ares/serialization.hpp:93-107 | the number in the field, which fits the result type |
| `Bitfields.WriteBit` | include/common/ares/serialization.hpp:76-80 | seen bit by bit, a field write changes the field's bits to those of the value and no other |
| `Bitfields.ReadIsQuotient` | include/common/ares/serialization.hpp:103-107 | the field read is the word divided by 2^lsb, modulo 2^num_bits |
| `Bitfields.ReadAfterWrite` | include/common/ares/serialization.hpp:66-107 | a field reads back as the value modulo 2^num_bits, whatever the word was |
| `Bitfields.WriteLeavesOthers` | include/common/ares/serialization.hpp:79-80 | a write leaves every field that it does not overlap as it was |
| `Bitfields.WritesCommute` | include/common/ares/serialization.hpp:66-81 | writes to pairwise disjoint fields give the same word in any order |
| `Bitfields.SetFlags` | include/common/ares/serialization.hpp:118-133 | n flags at s give the word that a field write of the packed number at s gives |
| `Bitfields.GetFlags` | include/common/ares/serialization.hpp:144-159 | flag i is bit s + i |
| `Bitfields.FlagsRoundTrip` | include/common/ares/serialization.hpp:118-159 | the flags that were set are read back |
| `Serialization.Vector.Serialize` | include/common/ares/serialization.hpp:217-230 | appends the items' bytes in order and nothing else, exactly the sum of their sizes |
| `Serialization.Deserialize` | include/common/ares/serialization.hpp:238-251 | each object receives the bytes of its field, one behind the other; an object given twice keeps its last field |
| `Serialization.FieldsOfFlatten` | include/common/ares/serialization.hpp:217-251 | what was serialized behind any prefix is recovered field by field with the same shape at that offset |
| `Serialization.ItemStandsAt` | include/common/ares/serialization.hpp:217-230 | item k stands unchanged behind exactly the bytes of the items before it |
| `Serialization.SerializedBytesDecide` | include/common/ares/serialization.hpp:217-230 | with the same shape, equal bytes mean equal items |
| `Serialization.ByteStandsAt` | include/common/ares/serialization.hpp:220-223 | the byte of weight 256^k of a number is the k-th from the front on a little-endian host, from the back on a big-endian one |
| `Serialization.NumbersRoundTrip` | include/common/ares/serialization.hpp:220-243 | every unsigned number that fits its size survives, in either byte order |
| `Hexdump.StringStream.DumpHex` | src/logging/logger.cpp:123-138 | appends the eight hex columns of the line |
| `Hexdump.StringStream.DumpAscii` | src/logging/logger.cpp:140-159 | appends the characters, and a line break iff more bytes follow |
| `Hexdump.StringStream.ConstructHexdump` | src/logging/logger.cpp:161-168 | appends the lines of the whole dump |
| `Hexdump.DumpLayout` | src/logging/logger.cpp:115-168 | every character of the dump by its position: line l begins at l * (pad + 39) with pad blanks; byte i of the line has its two lower-case digits at pad + 3i, two further from the fifth byte on, with a blank behind, blanks for a missing byte; two blanks at pad + 12, two blanks and a bar at pad + 26; its character at pad + 29 + i, one further from the fifth on, a blank behind the fourth; then a line break iff another line follows |
| `Hexdump.DumpLength` | src/logging/logger.cpp:119-168 | n > 0 bytes in L = ceil(n / 8) lines take L * (pad + 30) + n + (L - 1) characters |
| `Hexdump.BreaksBetweenLines` | src/logging/logger.cpp:156-158 | there is one line break fewer than lines, and none at the end |
| `Hexdump.CharacterStandsAt` | src/logging/logger.cpp:144-154 | byte i of the line shows at position i of the character column, one further from the fifth on: as itself from 0x20 to 0x7E, else as a dot |
| `Hexdump.UndumpOfDump` | src/logging/logger.cpp:123-138 | the hex columns decode to exactly the bytes, for every padding |
| `Hexdump.DumpDecides` | src/logging/logger.cpp:161-168 | equal dumps mean equal data |

## Left out

- The worker's endless loop is represented by its critical sections `Turn`, `WorkerGet` and `Finish` and a program counter; of the handler run between them only the calls it issues are modelled, and in `WorkBlocking` its waits.
- The lists and channels in `WorkQueue` are sequences; `WorkLists` does the same steps on heap lists and ring buffers. Both represent the state of `WorkModel`; one class that holds the flag words and the heap lists together is not built.
- The semaphores in `WorkQueue` are represented by their counts.
- `start` is one step, although the source does not take the lock for it; `run`, the same with the calling thread as worker, has no member of its own.
- The join in `stop`: the model says when the worker has exited. In `WorkBlocking` a handler's stop waits for that; with a time limit, or with no thread to join because of `run`, its wait can end at any time; of its own queue, without a limit, it does not wait. What it answers or throws is not modelled, nor two joins of one thread at once.
- `set_new_work_handler`, `work_busy_get`, `work_is_pending`, `plugged` and `get_flags` of a queue: single reads or writes.
- Work that can be delayed (`DELAYABLE_WORK`): not implemented in the source and compiled out.
- Threads, tasks, thread names and essential threads, handlers that throw, and the lifetime of flushers and cancellers on the stack.
- Memory orders, condition variables and real time: a timed operation of the ring buffer or the semaphore is what happens at the end of its wait.
- `BoundedQueue.Put`: has room as a precondition, because the source waits for it; `Get` and `Semaphore.Lock` likewise.
- `Bitfields.SetBit`: signed types and shifts by the promoted width are excluded, because they are implementation-defined or undefined.
- The unbounded queue, the shared flag, the serial port, sysfs, allocators, dates, and the logger apart from its hexdump.
