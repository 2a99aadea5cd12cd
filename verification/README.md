# A verified model of the reactor

The repository is a small epoll reactor in C++: timers and an event loop (`EventBase`), a
poller that dispatches ready channels, a queue between threads (`SafeQueue`, `ThreadPool`,
`safeCall`), a byte buffer, a TCP connection with an echo server on top, and a configuration
parser. This project models each of them in Dafny and proves what they are meant to keep, over
every run, every interleaving and every input.

`dafny verify dfyconfig.toml` checks everything.

## How it is built

Objects that the source updates in place are classes whose methods follow the source branch by
branch. Each method is proved against a function or transition system on values, and the
properties are lemmas about those:

| files | source | what is proved |
|---|---|---|
| `Timers`, `TimerRuns`, `TimerLoop`, `EventLoop`, `EventBase` | timer half of `EventBase` | the two maps stay in bijection; the firing loop ends and fires exactly what is due; cancellation is final; firing order; exactly how long a poll sleeps; what handlers and callbacks arm; a clean end of `loop` |
| `QueueProtocol`, `QueueRuns`, `QueueTasks`, `SafeQueue` | `SafeQueue`, `ThreadPool` | no lost wake-up, FIFO, workers run exactly what they take, nothing left at rest, bounded work after exit, no deadlock on the way to `join` |
| `Wakeup`, `WakeupRuns`, `TaskDrain` | `safeCall`, `wakeup`, the wake-up handler | no task is stranded, FIFO, everything complete before the last poll has run, `loop` returns |
| `Batch`, `BatchEffects`, `Poller` | `PollerEpoll`, `Channel` | a batch edited by its own callbacks is still dispatched safely, and their calls take effect |
| `BufferCost`, `Buffer`, `BufferPool` | `Buffer` | refinement of byte sequences without shared storage, amortised copying |
| `Connection`, `ConnectionRuns`, `Replies`, `TcpConn`, `EchoServer` | `TcpConn`, the echo server | conservation and order of bytes, the lifecycle, the read loop, what reaches the peer; a whole echo server with many connections on one poller |
| `ConfSpec`, `ConfRoundTrip`, `ConfLines`, `ConfNotes`, `Conf` | `Conf` | parsing inverts printing, with comments and blank lines anywhere; which line an error names; what the `:` form loses |

What the outside decides is a parameter over which every statement quantifies:

- A user callback is the finite sequence of calls it makes. The model is given one such script
  per callback invocation; callbacks after the last script do nothing. Every execution that ends
  is one of these, and the firing loop is shown to end for each.
- The clock is an arbitrary function from the number of readings to a time. It may jump.
- Results of `::read`, `::write`, `epoll_wait` and `poll` are finite sequences of arbitrary results. When
  they run out, `read` answers EAGAIN and `write` takes everything, so every execution in which
  the loops end is covered. A successful `read` is cut to the room in the buffer.
- Threads are program counters in a transition system whose steps interleave freely; a waiting
  thread may wake spuriously, and `notify_one` may pick any waiter. The calls that tasks and
  timers make on the loop thread, or on a worker, are steps of a thread of their own.
- Pointers into a `std::map` are its keys. A `Channel` is known by its id.
- 64-bit times and 62-bit sequence numbers are unbounded; where a sequence number must stay below
  2^62 the statement says so (about the result). The narrowing of `m_nextTimeout` to 32 bits is
  explicit.
- A C string is a sequence of characters whose end reads as NUL; a file is read as `fgets` does,
  in pieces of at most 1023 characters; `isspace` and `tolower` are those of the C locale.
- `fatalif` and `fatal` only log, so their conditions are preconditions where the code after them
  relies on them.

Calls outside what the code is written for are dropped from the scripts: a repeat interval that
is negative, a repeating timer with `waitUs` <= 0, `cancel` of a repeating id that is gone
(`eventbase.cc:96` dereferences the lookup), consuming more than a buffer holds, assigning a buffer
to itself.

## What the code does not keep

Each of these is stated as a lemma with its exact condition, and with a run or state that gets there.

- `m_nextTimeout` is an `int`, so a deadline more than 2^31 ms overdue can be taken for one in the future: the
  poll timeout reaches past the earliest deadline if and only if the gap is below -2^31 and its value modulo
  2^32 lies strictly between 0 and 2^31 (`TimerLoop.OversleepsExactly` on every state,
  `TimerLoop.RefreshOversleepsExactly` on every refresh). A first timer armed 2^32 - k ms late makes the poll
  wait k ms (`TimerLoop.OverduePollWaits`).
- The id of a repeating timer carries `-waitUs`, and `cancel` looks at the sign: `cancel` takes
  such a timer back if and only if `waitUs` was positive (`TimerLoop.CancelUndoesRepeat`).
- `handleHandshake` turns write interest off without looking at `output_`. Messages sent during the
  handshake are queued there, and a message sent afterwards is written past them: order is
  safe if and only if nothing was queued (`ConnectionRuns.HandshakeOrderExactly`); a run of four events
  that overtakes is `ConnectionRuns.EarlySendOvertaken`.
- What is queued in `output_` is never written: whatever happens to a connection, `output_` only grows
  (`Replies.OutputOnlyGrows`).
- `makeRoom()` asks for `exp_` bytes of space but expands without counting them: it leaves less if
  and only if the buffer is not empty, its capacity is below `exp_` and twice the capacity is below size
  plus `exp_` (`BufferCost.PreparedHasRoom`). No run with a fixed `exp_` gets there
  (`BufferCost.RoomAsSuggested`); `setSuggestSize` does (`BufferCost.RoomShort`). Some space is always left, which
  is what the read loop needs.
- The `:` form of a value advances twice behind the sign (`conf.h:146` and `conf.h:148`). A value directly
  behind it comes back if and only if it is empty; otherwise its first character is lost
  (`ConfLines.ColonLosesFirst`). With one more character in between it comes back whole.
- A dot in a name may as well belong to the section: `makeKey` gives both readings the same key
  (`ConfNotes.DotsCollide`); two keys are the same if and only if their joined texts differ in the case of letters
  at most (`ConfNotes.KeysFoldCase`).

## Model

| member | source | states |
|---|---|---|
| Timers.RunAtKeepsInv | eventbase.cc:124-144 | `runAt` keeps the invariant: the repeat closures in `m_timers` and the entries of `m_timerRepeats` are in bijection through `tid`, every armed one-shot is in exactly one of pending, fired, cancelled, cleared, and the poll timeout was computed from an earliest deadline that has not moved forward |
| Timers.CancelKeepsInv | eventbase.cc:92-111 | `cancel`, which does not refresh the timeout, keeps the same invariant |
| Timers.PopKeepsMaps | eventbase.cc:53-54 | between erase and re-arm only the popped timer's own entry is without a closure, and that entry still exists; popping a one-shot opens no gap |
| Timers.RearmKeepsInv | eventbase.cc:114-119 | re-arming closes the gap and restores the whole invariant |
| Timers.FireKeepsInv | eventbase.cc:51-56 | one turn of the firing loop, up to the callback, keeps the invariant |
| Timers.CallsKeepInv | eventbase.cc:92-144 | so does any sequence of timer calls made by a callback |
| Timers.FireRepeat | eventbase.cc:114-118 | firing a repeating timer moves its closure to deadline + interval under a number never used before, and leaves every other key and entry alone |
| Timers.PaidOnce | eventbase.cc:116-118 | re-arming a due repeating timer leaves it owing exactly one firing less |
| Timers.FireDecreases | eventbase.cc:51-56 | the number of outstanding firings, summed over the map, falls by exactly one per turn of the loop, re-arming included: the termination measure |
| TimerRuns.RunKeepsInv | eventbase.cc:47-144 | the two-map invariant, the timer history and the poll bound hold after every run of calls, firings, refreshes and clears |
| TimerRuns.FiresAreRun | eventbase.cc:47-58 | the whole firing loop, with arbitrary callbacks, is one of those runs |
| TimerRuns.CancelIsFinal | eventbase.cc:92-122 | after `cancel(id)`, from anywhere, the timer fires in no continuation; for one-shots and repeating timers |
| TimerRuns.DeadStaysDead | eventbase.cc:124-144 | a timer that is gone stays gone, because numbers are never reused |
| TimerRuns.CancelTells | eventbase.cc:102-110 | for a one-shot, `cancel` answers false if and only if it fired, was cancelled or was cleared; and it fires at most once |
| TimerLoop.QuietFiresAllDue | eventbase.cc:47-58 | with callbacks that leave timers alone the loop leaves no deadline at or before `now`, and fires exactly as often as was outstanding |
| TimerLoop.RepeatExact | eventbase.cc:47-58 | a repeating timer fires at exactly at, at+interval, ..., floor((now-at)/interval)+1 times, and its next deadline is the first one after `now` |
| TimerLoop.OneShotExact | eventbase.cc:47-58 | a one-shot fires if and only if its deadline has passed, and otherwise stays |
| TimerLoop.FiringOrder | eventbase.cc:50-56 | if callbacks schedule nothing before the deadline being fired, fired keys strictly increase in (deadline, number), re-arming, adding and cancelling included |
| TimerLoop.RefreshExact | eventbase.cc:61-70 | `m_nextTimeout` is exactly the time from the clock reading to the earliest deadline, 0 if that has passed, and 2^30 with no timer; only a gap an `int` cannot hold is read modulo 2^32; nothing else changes |
| TimerLoop.RunAtPollsExactly | eventbase.cc:134-140 | so it is after every `runAt` |
| TimerLoop.FirePollsExactly | eventbase.cc:116-119 | and when a repeating timer has been re-armed, before its callback |
| TimerLoop.RunAtStores | eventbase.cc:124-142 | `runAt` adds one new key, and for a repeating timer one new entry with the given deadline, interval and task, and changes no other key or entry |
| TimerLoop.RunAtRefused | eventbase.cc:126-127 | on an exiting loop `runAt` changes nothing and returns the null id |
| TimerLoop.CancelExact | eventbase.cc:92-111 | for every legal id `cancel` takes away that timer's key and entry and leaves every other key and entry as it was; it answers true exactly when it took a key away |
| TimerLoop.NeverOversleeps | eventbase.cc:61-76 | with timers armed, the poll timeout is at most the time from the last refresh to the earliest deadline, if the deadline seen then was at most 2^31 ms overdue or the narrowing spared it |
| TimerLoop.OversleepsExactly | eventbase.cc:67-68 | in every state with timers armed, exactly when `m_nextTimeout` reaches past the deadline it was computed from |
| TimerLoop.RefreshOversleepsExactly | eventbase.cc:61-70 | exactly when a refresh sets `m_nextTimeout` past the earliest deadline armed |
| TimerLoop.OverduePollWaits | eventbase.cc:61-142 | a first `runAt`, 2^32 - k ms after its deadline by the clock, leaves a due timer and a poll timeout of k ms |
| TimerLoop.CancelUndoesRepeat | eventbase.cc:92-135 | `cancel` of the id that `runAt` returned takes a repeating timer back if and only if `waitUs` > 0 |
| TimerLoop.CancelUndoesOneShot | eventbase.cc:92-141 | for a one-shot `cancel` undoes `runAt`, and a second `cancel` answers false |
| EventLoops.TimeoutExact | eventbase.cc:47-58 | `handleTimeout` with any callbacks: nothing at or before the clock reading is left, nothing after it has fired, and the next poll sleeps exactly until the earliest deadline left |
| EventLoops.TimeoutOneShot | eventbase.cc:47-58 | a one-shot, whatever the callbacks do: due, it has fired unless cancelled; not due, it has not fired |
| EventLoops.TimeoutRepeat | eventbase.cc:47-58 | a repeating timer through `handleTimeout` fires at exactly its deadlines up to the clock reading |
| EventLoops.CallbackArms | eventbase.cc:51-56 | a one-shot armed by a callback fires in the same pass if and only if it is due |
| EventLoops.HandlerArms | eventbase.cc:72-76 | a one-shot armed by a handler during the poll fires in the same `loop_once` if and only if it is due, and otherwise stays with its task |
| EventLoops.HandlerArmsRepeat | eventbase.cc:72-76 | a repeating timer armed by a handler has fired exactly what is due of it |
| EventLoops.LoopStopsAfterExit | eventbase.cc:79-83 | an exit asked for by a handler ends the loop with that round |
| EventLoops.LoopPollsBounded | eventbase.cc:79-90 | every poll of `loop` sleeps between 0 and 1000 ms, and the last one not at all |
| EventLoops.SpentCallsArmNothing | eventbase.cc:124-127 | with `m_exit` set and empty maps no call arms anything |
| EventLoops.LoopEndsClean | eventbase.cc:79-90 | after `loop` both maps are empty and the final `loop_once(0)` fired nothing, whatever its handlers ask for |
| EventBases.EventBase.constructor | eventbase.cc:5-10 | the initial state satisfies the invariant |
| EventBases.EventBase.RefreshNearest | eventbase.cc:61-70 | computes the state that the specification of `refreshNearest` gives |
| EventBases.EventBase.ArmRepeating | eventbase.cc:128-135 | the repeating branch of `runAt`: one entry and one closure pointing at each other |
| EventBases.EventBase.ArmOneShot | eventbase.cc:137-141 | the one-shot branch of `runAt` |
| EventBases.EventBase.RunAt | eventbase.cc:124-144 | refines the specified `runAt`, returns the specified id and keeps the invariant |
| EventBases.EventBase.Cancel | eventbase.cc:92-111 | refines the specified `cancel` and keeps the invariant |
| EventBases.EventBase.RepeatableTimeout | eventbase.cc:114-119 | refines the specified re-arming |
| EventBases.EventBase.FireFront | eventbase.cc:51-56 | one turn of the firing loop, up to the callback, refines the specified firing |
| EventBases.EventBase.HandleTimeout | eventbase.cc:47-58 | the loop ends, with callbacks that re-enter, and refines the specified sequence of firings; no key at or before the clock reading is left and the poll timeout is exact |
| EventBases.EventBase.LoopOnce | eventbase.cc:72-76 | polls for the smaller of `waitUs` and `m_nextTimeout`, then handles timers |
| EventBases.EventBase.Run | eventbase.cc:79-90 | `loop`: when it returns no timer is armed and none fired in the final round; its polls slept 0 to 1000 ms, the last one 0 |
| QueueRuns.RunKeepsInv | thread.cc:8-71 | mutual exclusion, worker roles, no lost wake-up, FIFO and the shutdown bounds hold in every interleaving |
| QueueProtocol.MutexStep | thread.cc:11-68 | exactly the owner of the mutex is in a critical section |
| QueueProtocol.WakeupStep | thread.cc:8-32 | while a thread waits before exit, every item is matched by a woken thread or by one inside the mutex that will see to it |
| QueueProtocol.ExitsStep | thread.cc:65-71 | once `notify_all` has run no thread waits or is about to, although `m_exit` is stored outside the mutex |
| QueueProtocol.FifoStep | thread.cc:14-54 | dequeued ++ queued is what was accepted |
| QueueProtocol.ShutdownStep | thread.cc:9-56 | after `m_exit` is set a worker dequeues at most one more task, and at most one push still gets in |
| QueueProtocol.ComingStep | thread.cc:66-71 | from the store of `m_exit` to `notify_all` the thread that will notify is on its way |
| QueueRuns.ItemsHaveWokenThreads | thread.cc:8-32 | with the mutex free and an un-notified waiter before exit, items number at most the notified threads |
| QueueRuns.NobodyWaitsAfterExit | thread.cc:65-71 | after `exit`'s `notify_all` nobody waits again, in any continuation |
| QueueRuns.PoolOrder | thread.cc:46-114 | tasks are dequeued in the order accepted, none twice; accepted == dequeued ++ queued; at most one late dequeue per worker and one late push in all |
| QueueRuns.LateStep | thread.cc:94-98 | from the store of `m_exit` on, each step of a worker lowers its rank and no step raises a worker's |
| QueueRuns.WorkersRunOut | thread.cc:89-110 | from the store of `m_exit` on the workers together take at most a fixed number of further steps, whatever other threads do |
| QueueRuns.QuietMeansJoined | thread.cc:65-110 | no deadlock: once `m_exit` is set, a run that cannot go on has notified everybody and has every worker out of its loop |
| QueueRuns.PoolStops | thread.cc:65-110 | both for every run from the start, with at most eight further steps per worker |
| QueueTasks.TakesOwn | thread.cc:46-56 | whoever takes from a non-empty queue takes its front, and a worker then runs that task |
| QueueTasks.WorksStep | thread.cc:94-98 | each worker has called exactly the tasks it dequeued, in order, but for the one it is in |
| QueueTasks.WorkersRunWhatTheyTake | thread.cc:46-98 | so it is in every run; a bounded queue keeps to its capacity, and an unbounded one refuses nothing before exit |
| QueueTasks.PoolRunsOne | thread.cc:9-98 | a run in which a client pushes a task and the worker takes it and runs it |
| QueueTasks.RefusedExactly | thread.cc:12-13 | `push` refuses if and only if the queue is exiting or exactly full |
| QueueTasks.PushesAccounted | thread.cc:9-17 | every `push` of a run has been accepted or refused or is under way, once |
| QueueTasks.NoTaskTwice | thread.cc:46-98 | no accepted task is run twice, by one worker or by two, and only accepted tasks are run |
| QueueTasks.ExitCutsOff | thread.cc:9-71 | in any continuation after the store of `m_exit` a worker dequeues at most one more task and one more push is accepted at most |
| QueueTasks.QuietMeansServed | thread.cc:19-56 | before exit a pool at rest has every worker waiting, an empty queue, and all that was taken run |
| QueueTasks.PoolServes | thread.cc:89-115 | for every run: at rest before exit each accepted task has been called |
| SafeQueues.SafeQueue.Push | thread.cc:9-17 | appends if and only if not exiting and not full, and says so |
| SafeQueues.SafeQueue.PopNow | thread.cc:46-56 | takes the front, or reports an empty queue |
| SafeQueues.PushAlone | thread.cc:9-17 | a thread without a rival for the mutex steps through `push` to exactly the effect of the method, and an accepted item notifies one waiter if there is any |
| SafeQueues.PopAlone | thread.cc:46-56 | the same for `pop_wait` without waiting |
| SafeQueues.ExitAlone | thread.cc:65-71 | the same for `exit`: nobody is left waiting and the items stay |
| Wakeup.RunKeepsInv | eventbase.cc:21-168 | the protocol invariant over every interleaving of callers and loop |
| Wakeup.NeverStranded | eventbase.cc:158-168 | a queued task means a byte in the pipe, a draining loop, or its caller still between push and write |
| Wakeup.TasksInOrder | eventbase.cc:21-29 | tasks run in the order of the accepted pushes, each at most once, one at a time |
| Wakeup.LoopExitRunsAll | eventbase.cc:79-90 | when `loop` has returned and its last poll was not interrupted and did not leave the pipe out, every `safeCall` accepted and complete before that poll has run to its end |
| Wakeup.NeverRefused | thread.cc:12-13 | with an unbounded queue no `safeCall` is refused |
| Wakeup.DoneMeansLast | eventbase.cc:79-90 | `loop` returns only after a last round begun with `m_exit` set |
| WakeupRuns.LoopReturns | eventbase.cc:79-90 | `loop` returns: once `m_exit` is set it is tested at most once more, the loop thread takes at most nine more steps and two per task queued or still pushed, and when it can take none `loop` has returned |
| WakeupRuns.StoppedMeansDone | eventbase.cc:72-90 | the loop thread never gets stuck: it has stopped if and only if `loop` has returned |
| WakeupRuns.LoopServesAndReturns | eventbase.cc:79-168 | a run with one `safeCall` and one `exit` in which the task runs and `loop` returns |
| WakeupRuns.AcceptedAreCalled | eventbase.cc:164-168 | the accepted tasks are those of the `safeCall`s that find room, in order; a bounded queue keeps to its capacity |
| WakeupRuns.EverySafeCallQueued | eventbase.cc:164-168 | with an unbounded queue, the tasks taken out and those queued are the tasks of all `safeCall`s, in order |
| WakeupRuns.ReadEmpties | eventbase.cc:22-24 | a read empties the pipe if and only if it held no more than one buffer |
| WakeupRuns.PipeHoldsWritten | eventbase.cc:158-162 | the pipe never holds more bytes than `wakeup` has written |
| TaskDrain.TaskLoop.SafeCall | eventbase.cc:164-168 | pushes if there is room, and writes a byte in either case |
| TaskDrain.TaskLoop.HandleRead | eventbase.cc:21-36 | one successful read and everything accepted so far has run, in order, each task making its own `safeCall`s; the pipe holds what was over and one byte for each of those; an interrupted read changes nothing |
| Batches.ReadFlag | channel.cc:27-34 | `enableRead` sets the read interest and leaves write interest alone |
| Batches.WriteFlag | channel.cc:36-44 | `enableWrite` sets the write interest and leaves read interest alone |
| Batches.ActKeepsSound | poller.cc:23-46 | closing or opening a channel in mid-batch keeps the non-null slots distinct and live |
| Batches.BatchSafety | poller.cc:59-85 | every dispatched channel was ready and open at the start, none is dispatched twice, none after being closed or opened in the batch, and one is skipped only if the handler of a slot above it closed it before any slot below it had its turn |
| Batches.BatchHandlers | poller.cc:68-82 | each dispatch goes to the handler that the channel's own reported events ask for, errors to the read handler, however earlier handlers edited the batch |
| Batches.BatchOrder | poller.cc:66-69 | dispatches follow the batch backwards |
| BatchEffects.KindExactly | poller.cc:72-82 | readable events and errors go to the read handler even when the channel is writable; the write handler gets what is writable only |
| BatchEffects.DispatchFollows | poller.cc:23-85 | after a batch a channel is open if and only if it was or has been opened and has not been closed; ids are never used again |
| BatchEffects.HandlersClose | poller.cc:66-84 | whatever the n-th handler called closes is closed when `loop_once` returns |
| BatchEffects.HandlersOpen | poller.cc:66-84 | as many channels have been opened as the handlers called have opened |
| Pollers.Channel.constructor | channel.cc:5-13 | registers a new, live channel with an id of its own |
| Pollers.Channel.EnableRead | channel.cc:27-34 | changes exactly the read interest |
| Pollers.Channel.EnableWrite | channel.cc:36-44 | changes exactly the write interest |
| Pollers.Channel.EnableReadWrite | channel.cc:46-57 | sets both interests |
| Pollers.Channel.Close | channel.cc:15-22 | an open channel leaves the live set and the batch in flight, and its fd becomes -1; closing again does nothing |
| Pollers.PollerEpoll.AddChannel | poller.cc:23-33 | the channel becomes live and is not in the current batch |
| Pollers.PollerEpoll.RemoveChannel | poller.cc:35-46 | the backward search nulls the channel's slot in the batch in flight, and no other |
| Pollers.PollerEpoll.DispatchSlot | poller.cc:66-84 | one turn of the dispatch loop: calls the channel of the last slot unless it was nulled |
| Pollers.PollerEpoll.LoopOnce | poller.cc:59-85 | refines the specified dispatch, and what it logs is safe in the sense of BatchSafety |
| Pollers.PollerEpoll.CloseAll | poller.cc:12-21 | the destructor's loop ends with no live channel and no open fd, even when the read handlers it runs close and open channels |
| BufferCost.MoveHeadDisjoint | buffer.cpp:17-18 | when `makeRoom` calls `moveHead`, the two ranges do not overlap |
| BufferCost.KeepsCapacity | buffer.cpp:14-23 | `makeRoom(len)` keeps the storage if and only if the bytes fit behind `end()` or would fill less than half of it, and never gives storage up |
| BufferCost.ExpandsToLeast | buffer.cpp:26 | `expand` allocates the least capacity that is a suggested size, twice the old one, and enough |
| BufferCost.PreparedHasRoom | buffer.h:26 | for `exp_` > 0, `makeRoom()` always leaves space, and a whole `exp_` under an exact condition |
| BufferCost.ExpandPays | buffer.cpp:14-34 | each byte stored pays for two copies: the accounting that bounds `expand` is kept by every operation, reads included |
| BufferCost.HeadPays | buffer.h:43 | bytes consumed pay for every copy that `moveHead` makes |
| BufferCost.CopyBound | buffer.cpp:14-34 | over any run of append, consume, clear and reads with a fixed `exp_`, `expand` copies at most twice the bytes stored and `moveHead` at most the bytes consumed |
| BufferCost.CapacityBound | buffer.cpp:14-34 | over any run with a fixed `exp_` the capacity is at most twice the sum of the bytes ever stored and `exp_` |
| BufferCost.RoomAsSuggested | buffer.h:26 | over any such run `makeRoom()` leaves a whole `exp_` of space |
| BufferCost.RoomShort | buffer.h:26-36 | after `setSuggestSize` on a buffer just filled, the new suggestion is missed if and only if it exceeds the bytes held |
| Buffers.Buffer.Copy | buffer.h:37 | the copy constructor: equal contents in new storage |
| Buffers.Buffer.CopyBytes | buffer.cpp:28 | copying forward within one array or between two delivers the source range and touches nothing else |
| Buffers.Buffer.CopyFrom | buffer.cpp:36-42 | equal contents and offsets in new storage |
| Buffers.Buffer.MoveHeadDown | buffer.h:43 | compaction keeps the contents and the storage |
| Buffers.Buffer.Grow | buffer.cpp:25-34 | `expand` keeps the contents in new storage of the specified capacity |
| Buffers.Buffer.MakeRoom | buffer.cpp:14-23 | contents unchanged, at least len bytes of space, in the specified way |
| Buffers.Buffer.Prepare | buffer.h:26 | contents unchanged, room made in the specified way |
| Buffers.Buffer.Append | buffer.h:30 | contents ++ p |
| Buffers.Buffer.Consume | buffer.h:34 | drops the first len bytes; an emptied buffer gives its storage up |
| Buffers.Buffer.Clear | buffer.h:19 | no contents and no storage, `exp_` kept |
| Buffers.Buffer.SwapStorage | buffer.cpp:46-51 | two buffers exchange everything but `exp_` |
| Buffers.Buffer.Absorb | buffer.cpp:44-59 | contents concatenated, source emptied, each side's `exp_` kept, no shared storage; absorbing itself changes nothing |
| BufferPool.AbsorbConserves | buffer.cpp:44-59 | among any number of buffers `absorb` keeps the total number of bytes and both `exp_` |
| BufferPool.Perform | buffer.h:17-38 | any one operation on a pool of buffers changes exactly the byte sequences it names and leaves storage unshared |
| BufferPool.PerformAll | buffer.h:17-38 | so does every interleaving of operations |
| Connections.IsendWritesPrefix | tcpConn.cpp:186-209 | for any write results `isend` puts a prefix of the message on the wire, says which bytes are left, and changes nothing else but write interest |
| ConnectionRuns.Lifecycle | tcpConn.cpp:48-152 | every run goes Invalid, Handshaking, then Failed or Connected, then Closed; `readcb_` is called only when Connected and with input |
| ConnectionRuns.FinalStaysFinal | tcpConn.cpp:135-152 | Failed and Closed are absorbing |
| ConnectionRuns.EchoConservation | tcpConn.cpp:91-209 | with the echo callback, for all results of read and write, at every handler boundary written ++ `output_` ++ `input_` is what was read |
| ConnectionRuns.EchoFromNew | main.cpp:37-39 | the same for every run from a new connection |
| ConnectionRuns.SendOrder | tcpConn.cpp:164-184 | for any callback and user that do not send during the handshake, what was accepted is written ++ `output_`, in order, over whole runs |
| ConnectionRuns.HandshakeOrderExactly | tcpConn.cpp:75-77 | later messages keep the order if and only if nothing was queued when the handshake ended |
| ConnectionRuns.EarlySendOvertaken | tcpConn.cpp:75-184 | a run of a new connection in which a message sent after the handshake is written and one sent during it stays in `output_` |
| ConnectionRuns.ReadLoopExact | tcpConn.cpp:96-119 | bytes are appended in order; the connection closes exactly on end of stream or an error; all pending input is offered first, once, in state Connected |
| ConnectionRuns.OfferedOnce | tcpConn.cpp:107-138 | the callback is offered the whole input, exactly when one is installed and there is input |
| Replies.IsendWritesAll | tcpConn.cpp:186-209 | without an error from write, `isend` writes the whole message, and only EAGAIN turns write interest on |
| Replies.SendTakesAll | tcpConn.cpp:164-179 | then `send` takes the whole message: queued while write interest is on, otherwise written |
| Replies.SendUnattached | tcpConn.cpp:180-183 | without a channel nothing is sent |
| Replies.ReadLoopEchoes | tcpConn.cpp:96-119 | the read loop of an echo connection leaves nothing in `input_`: what was there and what was read is written, or queued if write interest was on |
| Replies.EchoReaches | main.cpp:37-39 | over every run without write errors an echo connection has passed on all it read at every handler boundary, and without EAGAIN has written all of it |
| Replies.CustomReplies | tcpConn.cpp:96-119 | a callback that takes n bytes and answers: the rest stays in the input and the answer is written behind everything before |
| Replies.OutputOnlyGrows | tcpConn.cpp:122-133 | queued output is never written |
| TcpConns.ReadLoopFed | tcpConn.cpp:96-119 | a stretch of reads that all go on can be taken off the front of the loop |
| TcpConns.TcpConn.constructor | tcpConn.cpp:13-17 | a connection starts Invalid with two empty buffers that share nothing |
| TcpConns.TcpConn.Attach | tcpConn.cpp:48-65 | Handshaking, with a new channel on fd interested in reading and writing; the poller stays valid and has it registered and live |
| TcpConns.TcpConn.ISend | tcpConn.cpp:186-209 | the write loop refines the specified `isend` |
| TcpConns.TcpConn.Send | tcpConn.cpp:164-184 | refines the specified `send`, also for the connection's own input buffer: queued whole while write interest is on, otherwise written as far as it goes and the rest left in the message |
| TcpConns.TcpConn.OfferInput | tcpConn.cpp:107-109 | refines the offer of pending input to the callback |
| TcpConns.TcpConn.Clean | tcpConn.cpp:135-152 | offers pending input, then Failed or Closed, and no callback any more |
| TcpConns.TcpConn.HandleHandshake | tcpConn.cpp:68-89 | Connected without write interest, or cleanup and -1 |
| TcpConns.TcpConn.HandleWrite | tcpConn.cpp:122-133 | does something in the handshake only |
| TcpConns.TcpConn.MakeRoom | tcpConn.cpp:97 | there is always room to read into, so zero bytes mean end of stream |
| TcpConns.TcpConn.ReadOnce | tcpConn.cpp:96-119 | one turn of the read loop with its four outcomes; it takes as many bytes as there are and as `makeRoom()` made room for |
| TcpConns.TcpConn.ReadAll | tcpConn.cpp:96-119 | the read loop over the buffer refines the specified one on what the room let through |
| TcpConns.TcpConn.HandleRead | tcpConn.cpp:91-120 | the read handler, handshake included; it reads until an answer makes it stop, and leaves an echo connection with empty input unless write reports an error |
| TcpConns.TcpConn.CloseChannel | channel.cc:15-25 | closing the channel under a connection takes it out of the poller, which stays valid, and runs the read handler without an fd |
| EchoServer.ServeOne | poller.cc:68-79 | an event of one connection, the loss of its channel included, is one step of its run, and the poller stays valid |
| EchoServer.ServeAt | poller.cc:68-79 | it leaves the state and the storage of every other connection alone |
| EchoServer.Accept | tcpConn.cpp:48-65 | a new connection shares neither storage nor a channel with the others and changes none of them |
| EchoServer.RunMore | tcpConn.cpp:91-133 | a run followed by one more event is that event on the state the run ends in |
| EchoServer.ExplainedEcho | main.cpp:37-39 | the events that happenings make of a connection are those of a server with the echo callback only |
| EchoServer.RunEchoes | main.cpp:37-39 | a run explained by happenings conserves every byte, leaves none in the input without write errors, and has written all of them without EAGAIN |
| EchoServer.Conserved | main.cpp:37-39 | so does every connection that is where such a run ends |
| EchoServer.Serve | main.cpp:29-42 | the whole server: each connection runs through exactly the events that happened to it; on each written ++ `output_` ++ `input_` is what was read, `input_` is empty without write errors, and without EAGAIN all that was read has been written back |
| ConfRoundTrip.NameLineParses | conf.h:124-128 | a rendered section line sets the section and clears the key |
| ConfRoundTrip.EntryLineParses | conf.h:137-150 | a rendered `key=value` line pushes exactly that value under that key |
| ConfRoundTrip.MoreLineParses | conf.h:129-136 | a rendered continuation line pushes its text under the current key |
| ConfRoundTrip.ConfParses | conf.h:117-152 | a rendered configuration parses without error to the values in order |
| ConfRoundTrip.ConfGroups | conf.h:13-149 | the parsed values are those of the configuration, grouped by `makeKey` in order |
| ConfRoundTrip.FgetsSplits | conf.h:111-117 | `fgets` gives the rendered lines back |
| ConfRoundTrip.RoundTrip | conf.h:104-153 | parsing the rendered file gives 0, each group in order, and no other key |
| ConfLines.FaultyExactly | conf.h:119-150 | a line is in error if and only if it is a section without `]`, a continuation under no key, or text with neither `=` nor `:` |
| ConfLines.ParseReports | conf.h:117-152 | `parse` gives 0 if and only if no line is in error, otherwise the number of the first that is, with the lines up to it taken in |
| ConfLines.ColonLineParses | conf.h:144-149 | a `:` line gives back the value that starts two characters behind the sign |
| ConfLines.ColonLosesFirst | conf.h:144-149 | a value directly behind the sign comes back if and only if it is empty, and otherwise loses its first character |
| ConfNotes.NoteIgnored | conf.h:120-123 | a blank line or a comment leaves section, key and values alone |
| ConfNotes.NotesIgnored | conf.h:117-123 | wherever such lines stand, parsing gives the same values and the same success |
| ConfNotes.KeptConf | conf.h:120-123 | a rendered configuration holds no such lines |
| ConfNotes.RoundTripWithNotes | conf.h:104-153 | the round trip for a file with any comments and blank lines between the rendered lines |
| ConfNotes.LooseEntryParses | conf.h:138-149 | an entry gives its value with white space around the sign and with anything behind it, such as a comment |
| ConfNotes.LooseNameParses | conf.h:124-128 | a section line gives its name with white space around it and the brackets and anything behind them |
| ConfNotes.KeysFoldCase | conf.h:13-18 | two keys are the same if and only if their texts differ in the case of letters at most |
| ConfNotes.DotsCollide | conf.h:13-18 | a dot in a name may belong to the section |
| Confs.LineScanner.SkipSpace | conf.h:23-28 | stops at the first character that is not white space |
| Confs.LineScanner.Strip | conf.h:30-35 | the text without trailing white space |
| Confs.LineScanner.Match | conf.h:47-51 | advances in any case and records whether the character matched |
| Confs.LineScanner.ConsumeTill | conf.h:53-68 | the stripped text before the character, or an error |
| Confs.LineScanner.ConsumeTillEnd | conf.h:70-83 | the text up to white space or a comment |
| Confs.Conf.ParseOne | conf.h:119-150 | one turn of the line loop, all forms of line, the `:` form included |
| Confs.Conf.Parse | conf.h:104-153 | the line loop over `fgets` refines the specified parse; -1 if the file cannot be read |
| Confs.Conf.Get | conf.h:155-160 | the last value of the group, or the default |
| Confs.Conf.GetStrings | conf.h:193-198 | the whole group |

## Left out

- System calls (epoll, sockets, pipe, poll, read, write): only their results enter, under the usual
  guarantees (distinct registered channels in one batch, no more bytes than asked for, a pipe that
  takes every byte).
- `TcpServer`, addresses, ports, files, daemon, logging, slices and formatting helpers: little state of
  their own.
- `TcpConn::connect` and `createConnect`: unfinished in the source.
- Flushing of `output_`: `handleWrite` does nothing once Connected, so no liveness of queued output is claimed.
- Fairness: that a spinning `isend` (EAGAIN is retried at once) or a flood of readable data ever ends is
  assumed where a run is finite.
- Timed waits of `wait_ready` (`waitMs` > 0), and the `pop_wait` that returns a value: unused in the repository.
- Lifetime of `std::function`, `shared_ptr` and channels that delete themselves (the `r == 0` branch of the
  wake-up handler).
- Overflow of 64-bit deadlines and of `size_t`.
- The nested call of a closing channel's read handler: its closes and opens are flattened into the
  action sequence of the callback that closed it.
- Pollers.PollerEpoll.CloseAll: handlers that go on opening channels for ever while the poller is destroyed are
  not modelled, since with them the loop does not end.
- Confs.Conf.ParseOne: a read past the terminator of the line counts as another NUL. The code reads
  there when the `:` of a key is the last character of a line that came without its newline, as at the end of a
  file: `match` and `skip(1)` then step over the terminator, and `conf.h:146-149` reads what an earlier line
  left in the buffer.
- Buffers.Buffer.Append: a source that lies inside the buffer's own storage is not modelled.
- Buffers.Buffer.Assign: assigning a buffer to itself is excluded, since `operator=` deletes the storage it is about to copy.
- ConfRoundTrip.RoundTrip: sections and entries are rendered in the `key=value` form only, since the `:` form loses a
  character; lines longer than one `fgets` are not rendered either.
- `getInteger`, `getReal`, `getBoolean`: library number parsing and a table lookup.
