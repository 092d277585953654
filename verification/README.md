# Verified model of the tiny_coroutine runtime

This project models the concurrent core of tiny_coroutine, a C++20 coroutine
runtime, and proves what its parts promise to a program built on them:

- **Channel**: a bounded ring buffer between a queue of parked senders and a
  queue of parked receivers, with single, batch and non-blocking operations and
  a close protocol. Capacity 0, which the default constructor gives, makes it a
  rendezvous channel and is modelled like any other capacity.
- **AsyncMutex, LockGuard, ConditionVariable**: a lock that is handed from owner
  to owner, and waiting on a condition in two separate critical sections.
- **Engine, Context, Scheduler, Dispatcher**: the queues and the I/O pipeline of
  each worker, batch execution, the count of unfinished coroutines, and the
  moment at which `loop()` may shut everything down.
- **WaitGroup and when_all**: a counting barrier and fan-out/fan-in on it.

## How it is laid out

Every object that the program updates in place is a class with its fields, and
each method is one critical section of its counterpart: what it locks it does in
one step, and the coroutines it resumes after unlocking are an out-parameter.
The methods of the channel, the mutex, the wait group, the dispatcher and the
scheduler are proved equal to pure functions of the state before them, and the
results about operation sequences and interleavings are about those functions.
The engine's methods are proved equal to functions of its books (the I/O queues,
the ring and the kernel), and `EngineSteps` proves that these functions, and the
turn of a root coroutine in the context, are lists of the small steps of
`WorkerSteps`, which are the steps that `RuntimeSystem` interleaves.

| file | content |
|---|---|
| `Common.dfy` | options, coroutine handles, small arithmetic |
| `ChannelSpec.dfy` | the channel's operations as functions on its abstract state |
| `ChannelStream.dfy` | what a channel means: two growing lists, the accepted values and the accepted receive requests; every operation agrees with it |
| `ChannelRuns.dfy` | whole runs: order, wake-ups, closing |
| `ChannelFates.dfy` | what becomes of a parked send, over whole runs |
| `ChannelBatch.dfy` | a batch operation is the single operation repeated |
| `ChannelOutcomes.dfy` | what every operation returns, from what its caller can know |
| `ChannelStats.dfy` | laws of the counters |
| `Channel.dfy` | the class with its ring array, its two queues and its 64-bit counters |
| `AsyncMutex.dfy`, `GuardSystem.dfy` | the mutex and guard classes; every interleaving of any number of mutexes, guards and coroutines |
| `ConditionVariable.dfy`, `ConditionSystem.dfy` | the condition variable class; every interleaving of waiters, notifiers and owners of the lock |
| `WaitGroup.dfy`, `WhenAll.dfy` | the barrier over a 32-bit counter; every order in which the tasks of `when_all` can complete |
| `Dispatcher.dfy` | round robin with a wrapping counter |
| `Engine.dfy`, `Context.dfy`, `Scheduler.dfy` | the three runtime classes |
| `WorkerSteps.dfy` | one worker as a value, its small steps, and batches as a single queue |
| `EngineSteps.dfy` | the engine's and the context's contracts as lists of small steps |
| `RuntimeSystem.dfy` | every interleaving of a scheduler, its workers and the kernel |

In the interleaving models (`GuardSystem`, `ConditionSystem`, `WhenAll`,
`RuntimeSystem`) a run is any list of events; an event that is not possible
where it comes changes nothing, so a statement about all lists is a statement
about all runs.

## Assumptions

- A coroutine handle is an opaque identity, never reused. An awaiter object
  serves one suspension at a time, as `co_await` uses it.
- Atomics are sequentially consistent, and a locked region is one step.
- `LockGuard::unlock` (`include/async_mutex.h:71-76`) is one step. The code hands
  the lock on in line 73 and clears `owns_lock_` in line 74; seen between the two,
  two guards would claim the mutex.
- While a relock on a guard is in progress the guard is not destroyed
  (`GuardSystem.DestroyDangles`), and it is moved only as `GuardSystem.Safe`
  allows, which is the exact condition (see below).
- There are fewer than 2^64 unfinished coroutines, so that adding to
  `pending_tasks_` does not wrap; that taking from it does not is proved.
- In `RuntimeSystem` the handles in the queues are the tracked root coroutines,
  and running until the next suspension together with the test of `done()`
  (`src/runtime/context.cpp:84-91`) is one step.
- io_uring is a list of prepared entries, the operations the kernel is at work
  on, and a completion queue. Before every call the kernel may put any of its
  operations, with any result, at the back of the completion queue, each once,
  and may break down or recover. `submit` takes at least one of the entries
  offered, and peeking finds the front of the queue, unless the ring is broken.
- What a coroutine does while it is resumed (`Context.Turn`) and what happens
  outside during a round of a worker (`Context.World`) are arguments, and the
  results hold for all of them. A coroutine suspended in a read or write cannot
  start another on the same awaiter, so an act that would do so is taken to do
  nothing.

## What turned out to be conditional

- `when_all` passes `static_cast<int>(n)` to a 32-bit counter. Fan-in is correct
  for every n below 2^32 (`WhenAll.FanInCorrect`); for every larger n there is a
  run in which the driver goes on while a task has recorded nothing
  (`WhenAll.FanInFailsBeyond`), so the bound is exact.
- Round robin is balanced over every window of dispatches, across the wrap of the
  counter too, if and only if the number of contexts divides 2^64
  (`Dispatcher.BalancedForEver`).
- `poll_io` exhausts the 256-entry ring if and only if the entries left over plus
  those it prepares are more than 256 (`Engine.PolledMeans`); in the loop of a
  worker, which polls in batches of 64, that never happens
  (`Context.Context.Run`). The awaiter whose entry is refused has already left its queue, so its coroutine is
  never resumed.
- A move of a lock guard keeps mutual exclusion in every continuation if and only
  if nothing is moved out of a guard with a relock in progress, and what is moved
  into such a guard is a guard of the same mutex (`GuardSystem.MoveIsSafeIff`).
  After any other move some run leaves a mutex without exactly one holder,
  whether the relock had been granted or was still queued.

## Model

| member | source | states |
|---|---|---|
| `ChannelStream.StepRefines` | include/channel.h:61-98 | every operation, on every state, gives the result, the wake-ups in their order and the next state that the two-list meaning of the channel prescribes |
| `ChannelStream.SendRefines` | include/channel.h:61-98 | co_await send agrees with appending the value to the accepted values, or with parking or failing it |
| `ChannelStream.ReceiveRefines` | include/channel.h:115-167 | co_await receive agrees with appending a request that is answered by the value at its own index |
| `ChannelStream.TrySendRefines` | include/channel.h:205-236 | try_send accepts exactly when there is room for one more value in the stream |
| `ChannelStream.TryReceiveRefines` | include/channel.h:290-333 | try_receive answers exactly when a value is waiting |
| `ChannelStream.TrySendManyRefines` | include/channel.h:241-283 | try_send_many accepts the first min(items, room) items at once |
| `ChannelStream.TryReceiveManyRefines` | include/channel.h:338-398 | try_receive_many is min(max, backlog) requests at once |
| `ChannelStream.CloseRefines` | include/channel.h:401-437 | close cuts the stream back to the committed values and wakes exactly the parked |
| `ChannelRuns.TwoSidedFifo` | include/channel.h:61-98 | in every run from a new channel the capacity is the one asked for, and the accepted values are those handed over, then the buffer, then the parked senders' values; the k-th request not turned away gets the k-th value; every parked coroutine was woken once in order or is still parked |
| `ChannelRuns.TraceTells` | include/channel.h:115-167 | reading results and wake-ups off a trace recovers the accepted values, the requests and the answers |
| `ChannelRuns.ShapePreserved` | include/channel.h:503-512 | parked senders imply a full buffer and no parked receivers, parked receivers an empty buffer, a closed channel parks nobody: kept by every operation, so an empty buffer with waiting senders happens at capacity 0 only |
| `ChannelRuns.RecoverInverts` | include/channel.h:503-512 | every state of that shape is the meaning of some stream, so what is proved about streams holds of all reachable states |
| `ChannelRuns.RunRefines` | include/channel.h:61-98 | a run of operations from any stream's state ends in the state of that stream's run |
| `ChannelRuns.ClosedStep` | include/channel.h:41-48 | on a closed channel nobody parks or is woken, receives take the buffered values in order, and an operation fails exactly if it sends or asks of an empty buffer |
| `ChannelRuns.AfterClose` | include/channel.h:143-145 | over any run after close exactly the buffered values come out, in order, as far as asked for, and every send fails |
| `ChannelRuns.CommittedStays` | include/channel.h:100-104 | a send that has completed keeps its place in the accepted values for ever |
| `ChannelRuns.AcceptedUnlessDropped` | include/channel.h:401-437 | over any run an accepted value keeps its place, unless it was parked and the channel was closed; once closed, the values in the stream are exactly the committed ones |
| `ChannelRuns.ClosedSendsFixed` | include/channel.h:68-70 | after close the accepted values never change, so a value cut off is never delivered |
| `ChannelRuns.SenderFate` | include/channel.h:414-419 | in one step: committing a parked send wakes it with success, the close that drops it wakes it with failure, and its place is otherwise kept |
| `ChannelFates.RunForetells` | include/channel.h:85-89 | in any run the sender parked at the j-th place is the j-th to be woken: with success once its value is committed, with failure once close has dropped it, and not before |
| `ChannelFates.SendFate` | include/channel.h:100-104 | over any run a parked co_await send is woken to return normally if and only if its value stays in the stream for ever, and to throw if and only if in no continuation the value at its index answers a receive |
| `ChannelBatch.BatchReceive` | include/channel.h:338-398 | try_receive_many(m) is min(m, count + parked senders) calls of try_receive: same values, state, counters and wake-ups; it wakes exactly the first min(m, parked senders), as reserved at 351-352 |
| `ChannelBatch.BatchSend` | include/channel.h:241-283 | try_send_many sends exactly min(items, parked receivers + free places) and is try_send repeated until the first false: same state, counters and wake-ups |
| `ChannelBatch.DrainIsSingly` | include/channel.h:354-380 | the receiving loop is the sequence of single takes |
| `ChannelBatch.SendLoopIsSingly` | include/channel.h:258-276 | the sending loop is the sequence of single offers |
| `ChannelOutcomes.OutcomesAre` | include/channel.h:192-398 | on every reachable channel and for every operation: what it returns or throws, or that it suspends, from whether the channel is closed, who is parked and what is buffered |
| `ChannelOutcomes.RoomInRuns` | include/channel.h:205-236 | in every run from a channel of capacity n, told from the trace alone: try_send succeeds if and only if close was not called and fewer values have been accepted than asked for plus n, and exactly then send does not suspend |
| `ChannelOutcomes.NewChannelHolds` | include/channel.h:178-183 | a new channel of capacity n takes exactly the first min(items, n) items of a batch into its buffer |
| `ChannelRuns.StreamFrame` | include/channel.h:401-409 | over any run the capacity is fixed, and the channel is closed if and only if close was called |
| `ChannelStats.StatsConserved` | include/channel.h:71-89 | in every run the capacity stays and pushes = pops + buffered; with capacity, receiver waits = parked + handed + closed; at capacity 0 all waits = handoffs + all parked + all closed |
| `ChannelStats.ConservedStep` | include/channel.h:71-89 | every operation keeps the three laws |
| `ChannelStats.CountersAreFaithful` | include/channel.h:425-428 | each counter moves by exactly the number of results and wake-ups it is named for |
| `Channel.CountersConserve` | include/channel.h:476-484 | the same laws modulo 2^64, at every capacity, of any state that obeys them |
| `Channel.Channel.CountersLaw` | include/channel.h:514-524 | the 64-bit counters of every valid channel object obey the laws, at every capacity |
| `Channel.Channel.CountersWrap` | include/channel.h:514-524 | each of the eleven 64-bit counters is its event count modulo 2^64 |
| `Channel.SlotIsModulo` | include/channel.h:82 | the ring position of the i-th buffered value is (header + i) mod capacity |
| `Channel.Channel.Rendezvous` | include/channel.h:177 | the default constructor makes an open, empty channel whose capacity field is 0 |
| `Channel.Channel.Sized` | include/channel.h:178-183 | an open, empty channel whose capacity field is the argument |
| `Channel.Channel.Make` | include/channel.h:178-183 | capacity 0 is refused by the explicit constructor, any other gives a new channel of that capacity with a buffer of its own |
| `Channel.Channel.PushBack` | include/channel.h:81-83 | writing at tail appends to the buffered values and keeps slots occupied exactly in the window |
| `Channel.Channel.PopFront` | include/channel.h:125-128 | reading at header removes the first buffered value and empties its slot |
| `Channel.Channel.Refill` | include/channel.h:132-142 | a freed place takes the first parked sender's value, and only it is resumed |
| `Channel.Channel.Offer` | include/channel.h:71-90 | the first parked receiver gets the value in its own awaiter, else the buffer, else nothing changes |
| `Channel.Channel.SendCall` | include/channel.h:192-199 | send() fails at once on a closed channel and otherwise changes nothing |
| `Channel.Channel.ParkSender` | include/channel.h:86-89 | with a full buffer the sender joins the end of the queue with its value |
| `Channel.Channel.SendLocked` | include/channel.h:66-91 | the locked block: the new state and result are those of the specified send |
| `Channel.Channel.SendSuspend` | include/channel.h:61-98 | the object's new state, result and resumed coroutine are those of the specified send |
| `Channel.Channel.TrySend` | include/channel.h:205-236 | the object's new state, result and resumed coroutine are those of the specified try_send |
| `Channel.Channel.SendItems` | include/channel.h:258-276 | the loop over the items ends where the specified recursive sending ends |
| `Channel.Channel.TrySendMany` | include/channel.h:241-283 | the object's new state, count and resumed coroutines are those of the specified batch send |
| `Channel.Channel.TakeBuffered` | include/channel.h:124-142 | a buffered value is taken and its place refilled as specified |
| `Channel.Channel.Take` | include/channel.h:124-153 | the branches that yield a value, shared by the receive paths, as specified; without a value nothing changes |
| `Channel.Channel.UnparkSender` | include/channel.h:146-152 | the first parked sender leaves the queue; its value and its handle are what is returned |
| `Channel.Channel.ParkReceiver` | include/channel.h:156-157 | the receiver joins the end of the queue with an empty awaiter |
| `Channel.Channel.WaitForValue` | include/channel.h:155-158 | with nothing to take the receiver joins the end of the queue |
| `Channel.Channel.ReceiveLocked` | include/channel.h:121-160 | the locked block: the new state and the awaiter's value are those of the specified receive |
| `Channel.Channel.ReceiveSuspend` | include/channel.h:116-167 | the object's new state, the awaiter's value and the resumed coroutine are those of the specified receive |
| `Channel.Channel.TryReceive` | include/channel.h:290-333 | the object's new state, result and resumed coroutine are those of the specified try_receive |
| `Channel.Channel.FailEmpty` | include/channel.h:320-325 | with nothing to take, a closed channel throws and an open one returns nothing, each with its own counter |
| `Channel.Channel.TakeItems` | include/channel.h:354-380 | the loop takes the values the specified recursive drain takes |
| `Channel.Channel.TryReceiveMany` | include/channel.h:338-398 | the object's new state, values and resumed coroutines are those of the specified batch receive |
| `Channel.Channel.Close` | include/channel.h:401-437 | a second close fails; the first empties both queues, marks every parked sender and resumes senders then receivers in order |
| `Channel.Channel.CloseLocked` | include/channel.h:402-429 | the locked block, as specified |
| `Channel.Channel.CloseSenders` | include/channel.h:414-419 | every parked sender is marked closed and taken off in order |
| `Channel.Channel.CloseReceivers` | include/channel.h:421-424 | every parked receiver is taken off in order, its awaiter left empty |
| `AsyncMutex.FirstComeFirstServed` | include/async_mutex.h:89-115 | over any list of arrivals and releases, the grants and then the wait queue are the arrivals in order: nobody overtakes |
| `AsyncMutex.WaiterServedInTurn` | include/async_mutex.h:105-115 | a waiter at index i is granted the lock by exactly the (i+1)-th release from now, and by no earlier one |
| `AsyncMutex.AsyncMutex.constructor` | include/async_mutex.h:117-120 | a new mutex is free and nobody waits |
| `AsyncMutex.AsyncMutex.LockSuspend` | include/async_mutex.h:89-98 | a free lock is taken without suspending; otherwise the coroutine joins the end of the queue |
| `AsyncMutex.AsyncMutex.Unlock` | include/async_mutex.h:105-115 | the lock stays held and goes to the front waiter, or becomes free if there is none |
| `AsyncMutex.LockGuard.Adopt` | include/async_mutex.h:39-40 | the guard made for the resumed coroutine owns the lock |
| `AsyncMutex.LockGuard.Move` | include/async_mutex.h:45-49 | ownership moves to the new guard and the old one is left with nothing |
| `AsyncMutex.LockGuard.ReleaseIfOwned` | include/async_mutex.h:55-57 | only an owning guard with a mutex releases, and it releases its own |
| `AsyncMutex.LockGuard.MoveAssign` | include/async_mutex.h:51-63 | self-assignment changes nothing; otherwise the lock held is handed on first, then ownership moves over |
| `AsyncMutex.LockGuard.Destroy` | include/async_mutex.h:65-69 | an owning guard hands its lock on, any other releases nothing |
| `AsyncMutex.LockGuard.Unlock` | include/async_mutex.h:71-76 | an owning guard hands its lock on and owns nothing; a second call has no effect |
| `AsyncMutex.LockGuard.RelockSuspend` | include/async_mutex.h:24-33 | relocking is an arrival at the mutex of the guard, which owns nothing yet |
| `AsyncMutex.LockGuard.RelockResume` | include/async_mutex.h:35 | after resumption the guard owns the lock again |
| `GuardSystem.StepKeeps` | include/async_mutex.h:24-115 | every lock, relock, unlock, move, destruction and resumption keeps: one holder when locked, none when free, each wait queue exactly the coroutines not yet granted |
| `GuardSystem.RunKeeps` | include/async_mutex.h:24-115 | the same over every run |
| `GuardSystem.MutualExclusion` | include/async_mutex.h:24-78 | in every run the owning guards and the coroutines handed the lock but not yet resumed are exactly one when lock_ is true and none when it is false |
| `GuardSystem.SystemFirstCome` | include/async_mutex.h:89-115 | in every run of the whole system the grants of each mutex and then its queue are the arrivals at it in order |
| `GuardSystem.MoveIsSafeIff` | include/async_mutex.h:45-63 | for every state of the invariant and every move construction or assignment: exactly one holder when locked and none when free hold in every continuation if and only if nothing is moved out of a guard being relocked and only a guard of the same mutex into one |
| `GuardSystem.UnsafeMoveBreaks` | include/async_mutex.h:45-63 | for every other move a run that breaks exclusion, the relock being granted or still queued |
| `GuardSystem.StaleBreaks` | include/async_mutex.h:24-35 | wherever in the queue a relock with a moved guard stands, it gets the lock in some run and exclusion is gone at the latest then |
| `GuardSystem.DestroyDangles` | include/async_mutex.h:65-69 | destroying a guard keeps exclusion, and leaves a relock pointing at nothing if and only if one is in progress |
| `ConditionVariable.ConditionVariable.Push` | include/condition_variable.h:27-30 | the coroutine joins the end of the wait queue in a critical section of its own |
| `ConditionVariable.ConditionVariable.AwaitSuspend` | include/condition_variable.h:26-33 | enqueueing comes first, then the guard hands its lock on and owns nothing |
| `ConditionVariable.ConditionVariable.NotifyOne` | include/condition_variable.h:52-60 | exactly the front waiter is woken, if there is one |
| `ConditionVariable.ConditionVariable.NotifyAll` | include/condition_variable.h:62-74 | all waiters are woken in order and the queue is empty |
| `ConditionSystem.StepKeeps` | include/condition_variable.h:26-50 | every step of every coroutine keeps mutual exclusion, the two queues, and what each sleeper last saw of the data |
| `ConditionSystem.RunKeeps` | include/condition_variable.h:26-50 | the same over every run |
| `ConditionSystem.NoLostWakeup` | include/condition_variable.h:62-74 | whatever runs before and after a notify_all, a coroutine asleep later decided to sleep having seen every change made before it; if nothing changed since, its predicate is false |
| `ConditionSystem.RelockBeforeRelease` | include/condition_variable.h:27-31 | when the notification and the relock both come before the guard's release, the coroutine waits behind its own lock and nothing is granted |
| `ConditionSystem.ReleaseAfterRelock` | include/condition_variable.h:31 | the late release then grants the front of the queue it stands in, the mutex stays locked, and the guard owns nothing |
| `ConditionSystem.WaitReturnsUnderLock` | include/condition_variable.h:38-45 | whatever the step by which a wait returns, op is true of the data at that moment and the caller is the sole holder of the lock |
| `ConditionSystem.WaitReturnsTrue` | include/condition_variable.h:38-45 | over any run, from inside wait(guard, op) to the first moment its caller runs user code again: op is true then, however often it was woken, and the caller is the sole holder |
| `ConditionSystem.EveryWaitReturnsTrue` | include/condition_variable.h:38-45 | the same for every call of wait(guard, op) in every run from the start |
| `ConditionSystem.WaitStarts` | include/condition_variable.h:38-50 | a call with op true returns without sleeping, one with op false or without op goes to sleep |
| `ConditionSystem.SleepsUntilNotified` | include/condition_variable.h:26-33 | from its decision to wait a coroutine stays asleep through any run without a notification |
| `ConditionSystem.NotifyWakes` | include/condition_variable.h:52-74 | notify_one wakes exactly the front waiter, notify_all exactly the sleepers, and neither touches lock, data or anyone else |
| `ConditionSystem.WokenInTurn` | include/condition_variable.h:52-60 | over any run without notify_all, k calls of notify_one take exactly the first k of the present waiters, whoever joins |
| `ConditionSystem.Progress` | include/condition_variable.h:38-50 | while some coroutine is neither idle nor asleep, a step other than a notification or a change of data is possible |
| `WaitGroup.Int32Sum` | include/wait_group.h:35-38 | 32-bit wrap-around of the counter composes |
| `WaitGroup.BarrierOpensOnce` | include/wait_group.h:23-58 | from any non-zero count, under any calls of wait and done: before the done that reaches zero nobody is woken and all callers are parked in order; that one wakes all parked until then, once and in order, and afterwards nobody parks |
| `WaitGroup.WaitersInOrder` | include/wait_group.h:23-30 | each caller of wait stands behind exactly as many as called before it |
| `WaitGroup.RunOn` | include/wait_group.h:23-58 | a run in two parts wakes what the first wakes, then what the second wakes from there |
| `WaitGroup.WaitGroup.Ready` | include/wait_group.h:20 | the test outside the lock says whether the count is zero |
| `WaitGroup.WaitGroup.AwaitSuspend` | include/wait_group.h:23-30 | the count is tested again under the lock; only a non-zero count parks the coroutine |
| `WaitGroup.WaitGroup.Add` | include/wait_group.h:35-38 | the counter wraps at 32 bits and nobody is woken, whatever the sign |
| `WaitGroup.WaitGroup.Finish` | include/wait_group.h:40-58 | a zero count fails; reaching zero wakes all waiters in order, any other count nobody |
| `WhenAll.VectorState.constructor` | include/when_all.h:81-86 | n empty slots, no exception, and the barrier at n taken as a 32-bit int |
| `WhenAll.VectorState.RecordTask` | include/when_all.h:89-93 | slot i gets the result of task i, or the first exception is kept |
| `WhenAll.VectorState.StoreFirstException` | include/when_all.h:35-44 | an exception already stored is never replaced |
| `WhenAll.VectorState.Collect` | include/when_all.h:103-113 | the stored exception is rethrown; otherwise output i is slot i |
| `WhenAll.StepKeeps` | include/when_all.h:88-101 | every step of the driver and the wrappers keeps: the count is the number of wrappers not done, modulo 2^32, and slots and exception match what has been recorded |
| `WhenAll.FanInCorrect` | include/when_all.h:80-114 | for every n below 2^32 and every order of completion: past the wait all n wrappers have run done(); with no failure slot i holds the result of task i; otherwise the exception is the first recorded |
| `WhenAll.DriverNotStranded` | include/when_all.h:97-101 | until the driver is past its wait, some step of the driver or a wrapper is possible |
| `WhenAll.StepShrinks` | include/when_all.h:88-101 | every step of the driver or a wrapper lowers the number of steps ahead |
| `WhenAll.FanInTerminates` | include/when_all.h:80-114 | no run of n tasks takes more than 3n+3 steps, and a run that can go no further has the driver past its wait |
| `WhenAll.FanInFailsBeyond` | include/when_all.h:86 | for every n of 2^32 or more some run passes the wait while a wrapper has recorded nothing |
| `Dispatcher.Dispatcher.Init` | include/runtime/dispatcher.h:10-13 | zero contexts count as one and the counter restarts |
| `Dispatcher.Dispatcher.Dispatch` | include/runtime/dispatcher.h:15-17 | the context is the counter's residue, in range, and the counter wraps at 2^64 |
| `Dispatcher.RoundRobinBalanced` | include/runtime/dispatcher.h:15-17 | over k dispatches before the counter wraps every context is chosen floor(k/n) or ceil(k/n) times |
| `Dispatcher.WrapRepeatsContext` | include/runtime/dispatcher.h:15-17 | if n does not divide 2^64 there is a window across the wrap that is not balanced |
| `Dispatcher.BalancedForEver` | include/runtime/dispatcher.h:15-17 | every window is balanced if and only if n divides 2^64 |
| `Engine.IoUring.Prepare` | include/io_uring.h:28-46 | an entry is added if and only if fewer than 256 are prepared |
| `Engine.IoUring.Submit` | include/io_uring.h:48 | a non-empty prefix of the prepared entries goes to the kernel unless it is broken, and then nothing does |
| `Engine.IoUring.TryWaitOne` | include/io_uring.h:63-79 | fails exactly if the ring is broken, finds nothing exactly if the completion queue is empty, and otherwise takes its front |
| `Engine.IoUring.KernelActs` | include/io_uring.h:48-79 | between calls the kernel only moves operations to the back of the completion queue |
| `Engine.Engine.SubmitTask` | src/runtime/engine.cpp:9-15 | the coroutine joins the end of the task queue |
| `Engine.Engine.SubmitIoWaiting` | src/runtime/engine.cpp:17-24 | one more coroutine waits, nothing else in the books changes, and they still balance |
| `Engine.Engine.SubmitIoRead` | src/runtime/engine.cpp:26-37 | a null awaiter changes nothing; any other makes exactly one request, and the books still balance |
| `Engine.Engine.SubmitIoWrite` | src/runtime/engine.cpp:39-50 | a null awaiter changes nothing; any other makes exactly one request, and the books still balance |
| `Engine.Engine.AwaitRead` | include/runtime/io_awaiter.h:60-71 | the awaiter knows the coroutine to resume before its request is queued |
| `Engine.Engine.AwaitWrite` | include/runtime/io_awaiter.h:84-95 | the awaiter knows the coroutine to resume before its request is queued |
| `Engine.Engine.TryPopTask` | src/runtime/engine.cpp:52-61 | the front of the queue, or nothing |
| `Engine.Engine.PopBatch` | src/runtime/engine.cpp:63-77 | the first min(max, size) coroutines in order; the caller's vector is untouched when nothing is popped |
| `Engine.Engine.ReadyWaiting` | src/runtime/engine.cpp:90-96 | the first min(max, size) waiting coroutines move to the task queue in order and the counter drops by as many |
| `Engine.Engine.PrepareFrom` | src/runtime/engine.cpp:98-123 | succeeds if and only if the entries fit the ring; an awaiter refused an entry has left its queue |
| `Engine.Engine.SubmitAll` | src/runtime/engine.cpp:125-137 | ends under any partial submission, with nothing pending exactly on success, and the kernel has the entries taken |
| `Engine.Engine.PrepareAll` | src/runtime/engine.cpp:98-123 | reads first, then writes with what is left of max; fails if and only if the entries do not fit the ring, and then one awaiter is nowhere any more |
| `Engine.Engine.LetOthersPush` | src/runtime/engine.cpp:146-149 | between two critical sections other threads may push anything on the task queue, and only that |
| `Engine.Engine.ReapOne` | src/runtime/engine.cpp:142-153 | the front of the completion queue is taken if there is one and the ring is not broken; only its awaiter's result changes, its coroutine is queued once, behind what others push meanwhile, and the books still balance |
| `Engine.Engine.Reap` | src/runtime/engine.cpp:140-153 | short of a failure at least the first min(max, size) entries of the completion queue are taken, in order and with their results, and fewer than max only if the queue is left empty; every completed awaiter ends with its own result, every other with what it had, and the coroutines are queued in that order with the given pushes of others between them |
| `Engine.Engine.StartIo` | src/runtime/engine.cpp:87-138 | the locked block as a whole: what moves, what is submitted, and how it fails |
| `Engine.Engine.PollIo` | src/runtime/engine.cpp:80-160 | the books afterwards are a function of the books before and the completions, for success and each kind of exception, which only a broken ring raises; on success the completion queue is worked off as in Reap; the task queue gains the ready coroutines, then the completed ones with outside pushes between them |
| `Engine.PolledMeans` | src/runtime/engine.cpp:80-160 | in plain numbers: the first min(max, size) of the waiting queue and of the reads, and of the writes what is left of max, are taken; the ring overflows if and only if they and what was left over exceed 256; progress is what was moved, submitted and completed, and 0 only with empty I/O queues; nothing is left over unless submit failed |
| `Engine.LeftOver` | src/runtime/engine.cpp:125-137 | when submit fails, what stays for the next poll are the last entries in order, and the kernel has the earlier ones |
| `Engine.HandlesInOrder` | src/runtime/engine.cpp:146-149 | each completed coroutine is queued right behind what was pushed before it, in the order of the completions |
| `Engine.HandlesAlone` | src/runtime/engine.cpp:146-149 | with nobody else pushing, the coroutines queued are exactly those completed, in order |
| `Engine.Ledger` | src/runtime/engine.cpp:80-160 | every request ever made is under way or has been answered, and never both |
| `Engine.Engine.CanStop` | src/runtime/engine.cpp:184-207 | true if and only if stop is requested and no coroutine is anywhere in the engine, the kernel included |
| `Engine.Engine.MayProceed` | src/runtime/engine.cpp:209-219 | the wait ends if and only if stop is requested or there is a task or an operation anywhere in the pipeline |
| `Engine.Engine.Empty` | src/runtime/engine.cpp:221-226 | empty() does not see operations the kernel has |
| `Engine.Engine.OnTaskResumeBegin` | src/runtime/engine.cpp:162-164 | one more task in flight |
| `Engine.Engine.OnTaskResumeEnd` | src/runtime/engine.cpp:166-168 | one task fewer in flight |
| `Engine.Answers` | src/runtime/engine.cpp:140-153 | a completion keeps the books: the counter was not zero, the awaiter leaves the pipeline and requests stay pipeline plus answers |
| `Engine.PreparingMoves` | src/runtime/engine.cpp:98-123 | preparing moves requests along the pipeline without losing or doubling any |
| `Engine.SubmittingMoves` | src/runtime/engine.cpp:125-137 | submitting moves requests on to the kernel without losing or doubling any |
| `Engine.PipelineMoves` | src/runtime/engine.cpp:98-137 | preparing and submitting keep the books balanced |
| `Context.Context.SubmitTask` | src/runtime/context.cpp:29-31 | the coroutine joins the end of the queue and the order law is kept |
| `Context.Context.SubmitTracked` | src/runtime/context.cpp:45-51 | a null handle changes nothing; any other is counted before it is queued |
| `Context.Counter.Decrement` | src/runtime/scheduler.cpp:88-92 | says whether it was one, and wraps at zero |
| `Context.Context.ResumeNext` | src/runtime/context.cpp:83-92 | given what the coroutine does, what others do to the counter and whether it is done: the counter is exactly the old one plus that change less one if done, modulo 2^64; queues, books and order follow |
| `Context.Context.ProcessWorkOnce` | src/runtime/context.cpp:77-95 | resumes exactly the first min(64, size) coroutines in order, and what is pushed meanwhile goes behind; the counter is exactly the old one plus what others did less the number of coroutines that are done, modulo 2^64, and exactly those are reported; the I/O books are those after the given acts; a stale batch is never run again |
| `Context.Context.ProcessBatch` | src/runtime/context.cpp:83-92 | the same for the loop over a batch of any size |
| `Context.Context.PollIoOnce` | src/runtime/context.cpp:97-99 | a poll of 64 in the worker's loop never runs out of ring entries, and short of an exception leaves nothing over and works off the completion queue; it reports progress exactly if something was waiting, asked for or completed |
| `Context.Context.QuietRound` | src/runtime/context.cpp:63-71 | a round without work polls, then leaves exactly if stop is requested and the engine has nothing at all, and sleeps on only in that case without a stop |
| `Context.Context.Round` | src/runtime/context.cpp:58-72 | a round works if and only if the queue is not empty, and then resumes its first min(64, size); otherwise it resumes and reports nothing and is a quiet round |
| `Context.Context.WaitOrIdle` | src/runtime/context.cpp:101-103 | the wait ends exactly if stop is requested or there is something to do |
| `Context.FinishedMeans` | src/runtime/context.cpp:88-91 | the coroutines reported are as many as are done, and exactly those |
| `Context.ByOthersMeans` | src/runtime/context.cpp:83-92 | the change by others over a batch is the sum over its turns: n equal changes make n times as much |
| `Context.TurnsGrow` | src/runtime/context.cpp:83-92 | whatever the turns of a batch do only adds to the I/O queues, and never touches ring, kernel or answers |
| `Context.Context.Run` | src/runtime/context.cpp:55-75 | for any worlds of any length: the ring is never exhausted; the loop is left only if stop was requested in some round, and then, as when it sleeps on, everything ever enqueued has been resumed and nothing is anywhere in the engine; an exception comes only from a broken ring |
| `Context.Reschedule` | src/runtime/resume_handle.cpp:7-18 | on a worker the coroutine goes to the back of that worker's queue, elsewhere it is to be resumed on the spot |
| `Context.Yield` | include/runtime/scheduler.h:64-80 | on a worker the coroutine goes to the back of the queue, elsewhere it does not suspend and await_resume throws |
| `Context.SubmitToScheduler` | include/runtime/scheduler.h:99-112 | null is ignored, a worker counts and queues the coroutine, elsewhere it is destroyed and the call throws |
| `WorkerSteps.BatchesAreFifo` | src/runtime/context.cpp:77-95 | for any list of pushes, yields, I/O, completions, refills and resumptions, the resumption order is that of one queue popped one by one, and pushed = resumed + batch + queue is kept |
| `WorkerSteps.NextIsReachable` | src/runtime/context.cpp:77-95 | whatever the single queue would resume next the batching worker can resume after at most one refill |
| `Scheduler.MakeContexts` | src/runtime/scheduler.cpp:15-18 | n new contexts, each ready to run and sharing nothing but the counter |
| `Scheduler.Scheduler.Init` | src/runtime/scheduler.cpp:7-28 | the first call makes max(count, 1) contexts, each new, ready to run and apart from the others, and restarts counter and tickets; a second changes nothing |
| `Scheduler.Scheduler.AcceptNew` | src/runtime/scheduler.cpp:74-83 | the locked block: null is ignored, a closed or uninitialised scheduler destroys the coroutine, otherwise it is counted, context (ticket mod size) is chosen and the ticket goes up by one, modulo 2^64 |
| `Scheduler.Scheduler.SubmitNew` | src/runtime/scheduler.cpp:69-86 | accepts exactly when initialised and open; an accepted coroutine ends at the back of the queue of context (ticket mod size), in its order, and of no other; otherwise no queue changes |
| `Scheduler.SubmissionsGoRound` | src/runtime/scheduler.cpp:77-82 | over any k submissions to an accepting scheduler before the 64-bit counter wraps: all are counted, the i-th goes to context (t + i) mod n, and each context gets floor(k/n) or ceil(k/n) of them |
| `Scheduler.Scheduler.OnTaskCompleted` | src/runtime/scheduler.cpp:88-92 | the waiting loop is notified exactly when the count reaches zero |
| `Scheduler.Scheduler.LoopWakes` | src/runtime/scheduler.cpp:38-50 | passes exactly on stop or a zero count, and closes the door in the same critical section |
| `Scheduler.Scheduler.ShutdownContexts` | src/runtime/scheduler.cpp:94-111 | the contexts leave the scheduler once; a second call finds none |
| `Scheduler.Scheduler.Stop` | src/runtime/scheduler.cpp:55-67 | without init nothing happens; otherwise the door is closed, stop requested and the contexts taken out |
| `WorkerSteps.LocalKeeps` | src/runtime/engine.cpp:9-160 | every step of a worker keeps its I/O counter and its order, and neither loses nor doubles a coroutine |
| `RuntimeSystem.StepKeeps` | src/runtime/context.cpp:77-95 | every step of scheduler, workers and kernel keeps: each accepted coroutine in one place, the count of the unfinished, the accounting of each worker, and quiet behind a closed door |
| `RuntimeSystem.EveryCoroutineInOnePlace` | src/runtime/engine.cpp:9-160 | in every run an accepted coroutine is in exactly one place (gap, queue, batch, running, I/O stage, kernel, parked, finished) and nothing else is anywhere; pending = accepted - finished; each I/O counter is its I/O in flight |
| `RuntimeSystem.PendingNeverUnderflows` | src/runtime/scheduler.cpp:88-92 | in every run a coroutine that finishes finds the count above zero |
| `RuntimeSystem.LoopPassesOnlyWhenDone` | src/runtime/scheduler.cpp:38-53 | once loop() passes because the count is zero, nothing accepted is queued, running, parked, in I/O or in the gap of submit_new, and nothing is accepted afterwards |
| `RuntimeSystem.LoopPassesExactly` | src/runtime/scheduler.cpp:38-50 | in every run a waiting loop can pass if and only if the scheduler is initialised and everything accepted has finished |
| `RuntimeSystem.SubmitIsAnswered` | src/runtime/scheduler.cpp:69-86 | in every run a new coroutine is accepted, counted and sent to the worker whose turn it is if the scheduler is initialised and its loop has not passed, and is refused otherwise with no other effect |
| `RuntimeSystem.EntersWorker` | src/runtime/resume_handle.cpp:7-18 | an accepted or woken coroutine can always go on to the back of the queue of its worker |
| `RuntimeSystem.LeavesWorker` | src/runtime/context.cpp:83-92 | a turn can always end by parking, or by finishing with the count, which was not zero, down by one |
| `RuntimeSystem.DoorStaysShut` | src/runtime/scheduler.cpp:69-86 | behind a passed loop no step accepts a coroutine, submit_tracked_task included |
| `RuntimeSystem.NotStuck` | src/runtime/context.cpp:55-75 | while something is unfinished and not parked at user level, some step of the runtime or of a running coroutine is possible and changes the state |
| `RuntimeSystem.ResultIsItsOwn` | include/runtime/io_awaiter.h:31-38 | from the completion of an operation until its coroutine is resumed, the awaiter holds the result of that completion, whatever else runs |
| `EngineSteps.SubmitTaskIsAStep` | src/runtime/engine.cpp:9-15 | queueing a coroutine is the small step Push |
| `EngineSteps.PopBatchIsAStep` | src/runtime/engine.cpp:63-77 | popping a batch is the small step Refill |
| `EngineSteps.SubmitIoWaitingIsAStep` | src/runtime/engine.cpp:17-24 | what the contract makes of the books is the small step AwaitIo |
| `EngineSteps.AwaitsAreSteps` | include/runtime/io_awaiter.h:60-95 | what the contracts of the two awaits make of the books are the small steps AwaitRead and AwaitWrite |
| `EngineSteps.ReadyWaitingIsSteps` | src/runtime/engine.cpp:90-96 | the first loop is as many small steps as it moves coroutines |
| `EngineSteps.PreparedReadsAreSteps` | src/runtime/engine.cpp:98-111 | the second loop is as many small steps as it prepares reads |
| `EngineSteps.PreparedWritesAreSteps` | src/runtime/engine.cpp:113-123 | the third loop is as many small steps as it prepares writes |
| `EngineSteps.SubmittedIsSteps` | src/runtime/engine.cpp:125-137 | submitting is a small step, or none |
| `EngineSteps.ReapOneIsSteps` | src/runtime/engine.cpp:142-153 | a completion is the pushes of others and the small step Complete for the coroutine of its own awaiter |
| `EngineSteps.ReapIsSteps` | src/runtime/engine.cpp:140-153 | so is the whole completion loop |
| `EngineSteps.PollIoIsSteps` | src/runtime/engine.cpp:80-160 | whatever poll_io does short of exhausting the ring, as the contract of Engine.PollIo states it, is a list of small steps of the worker |
| `EngineSteps.TurnIsSteps` | src/runtime/context.cpp:83-92 | the turn of a root coroutine, as the contract of Context.ResumeNext states it, is the small step ResumeNext, pushes, and the step its turn ends with |

## Left out

- `TINY_COROUTINE_ENABLE_STATS` off: the model is the build with counters; `reset_stats` and `stats_snapshot`, which take no lock, are not part of it.
- `when_all` on a tuple of tasks: the same protocol with heterogeneous slots.
- `Task`, coroutine frames, symmetric transfer and moving of payloads (`include/task.h`).
- The resumption on the spot that `reschedule_or_resume` does outside a worker: `Context.Reschedule` reports it, and the interleaving models have workers only.
- The path of the read and write awaiters outside a worker, where the result is -1 and nothing is queued.
- Coroutines suspended below a root: `done()` is then asked of the inner handle (`src/runtime/context.cpp:88`), and the scheduler's count is off; `RuntimeSystem` speaks of roots only.
- `stop()` while a `submit_new` is between its lock and its enqueueing: `Scheduler.Scheduler.Stop` is modelled as a call, the statements over runs are about the path through `loop()`.
- That a waiting `loop()` or a sleeping worker is woken up: both are notified without the waiter's mutex held (`src/runtime/scheduler.cpp:90`, `src/runtime/context.cpp:20`), and only safety is claimed. `RuntimeSystem.NotStuck` says that a step is possible, not that it is taken.
- `Context::run` as an endless loop: `Context.Context.Run` is cut off after any number of rounds.
- `WaitGroup::add` with a negative argument bringing the count to zero: it wakes nobody in the code, and the method says so; no run uses it.
- The call of `on_task_completed_` in a worker is the decrement of the shared counter; that the waiting loop is notified at zero is said by `Scheduler.Scheduler.OnTaskCompleted`.
- liburing itself, file descriptors, buffers and lengths of operations; `IoUring::wait_one`, which nothing calls.
- Weak memory ordering and exceptions of memory allocation.
- Benchmarks, scripts and the test programs.
