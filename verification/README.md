# nutty: a verified model of the reactor and its buffers

nutty is an epoll reactor in C++ with a TCP layer and an asynchronous logger. This project models its core
classes in Dafny and proves what they keep over whole runs.

Each component with interleaving or re-entrant behaviour comes in two modules:

- a *machine*: a `State`, an `Event` for every atomic step (with the outcome of system calls, clocks and scheduling
  in the event's parameters), a partial function `Step`, and `Exec` over event sequences. Theorems quantify over
  all event sequences, that is, over all interleavings and all outcomes. Histories (what was accepted, offered,
  pushed, called) are functions of the event sequence.
- an *object*: a class with the source's fields, whose methods are the source's atomic regions. A ghost `trace` lists
  the steps taken and `Valid()` says that the object is where the machine gets by that trace, so that every theorem
  about runs holds of every valid object.

The chunk queues (`Buffers`, `SendBuffers`, `ReceiveBuffers`), the poll index (`WatcherObject`) and the number
formatting (`Numerals`, `LogStreamObject`) are proved directly on objects and arrays.

| files | what they model |
|---|---|
| `EventLoopMachine.dfy`, `EventLoop.dfy` | functor hand-off through a mutex and an eventfd |
| `BlockingQueueMachine.dfy`, `BoundedBlockingQueue.dfy` | the two-condition-variable monitor |
| `TimerQueueMachine.dfy`, `TimerQueueRuns.dfy`, `TimerQueueArming.dfy`, `TimerQueue.dfy` | timers, the timerfd and deferred cancels |
| `ConnectorMachine.dfy`, `Connector.dfy` | connect, retry and stop |
| `TcpConnectionMachine.dfy`, `TcpConnection.dfy` | one connection's sends, receives and life cycle |
| `Buffer.dfy`, `SendBuffer.dfy`, `ReceiveBuffer.dfy` | chunk queues that refine a byte sequence |
| `AsyncLoggerMachine.dfy`, `AsyncLoggingMachine.dfy`, `AsyncLogger.dfy`, `AsyncLogging.dfy` | double-buffered logging |
| `PollMachine.dfy`, `Watcher.dfy` | the poll index and the watchers that keep it up to date |
| `Numerals.dfy`, `LogBufferMachine.dfy`, `LogStream.dfy` | integer formatting and buffer growth |
| `Arithmetic.dfy`, `Sequences.dfy`, `Wrappers.dfy` | shared helpers |

Results that go against what the names suggest are stated as exact conditions, each with a run that shows it: a
functor queued by the loop's thread before `loop()` can wait for the poll's timeout; a `quit()` before `loop()` is
forgotten; a queue of capacity zero deadlocks; a cancel leaves the timerfd armed; a connector restarted over a queued
`resetWatcher` loses its watcher; a send is dropped while an earlier one is not fully written; a shutdown with bytes
waiting never closes the socket's write side; a hang-up reported with urgent data makes the disconnect callback twice
if the stream ends in the same set's read handler; a number printed into a stream of four gigabytes can be written
past the buffer.

## Model

| member | source | states |
|---|---|---|
| EventLoopMachine.LostWakeupExactly | nutty/base/EventLoop.cpp:66-95 | In every interleaving, the loop can block on a non-empty queue with no wakeup coming if and only if it is its first poll, the queue was filled by its own thread before `loop()`, and no other thread has called in; after a `quit` it never blocks |
| EventLoopMachine.QueueBeforeLoopIsLost | nutty/base/EventLoop.cpp:87-95 | The run that loses the wakeup: queue on the loop's thread, then enter `loop()` |
| EventLoopMachine.RunsKeepInvariant | nutty/base/EventLoop.cpp:66-153 | All runs: enqueue history = executed ++ rest of batch ++ pending; the calling flag is set exactly while a batch runs; a non-empty queue outside handlers has a wakeup in the counter, in flight or due |
| EventLoopMachine.StepKeepsInvariant | nutty/base/EventLoop.cpp:66-153 | Each single step of any thread keeps that invariant |
| EventLoopMachine.FunctorsAreFifo | nutty/base/EventLoop.cpp:87-91 | Functors run once each in mutex order, at every point of every run |
| EventLoopMachine.OnePollServesTheQueue | nutty/base/EventLoop.cpp:69-76 | Whatever was queued when a poll returns has been executed by the time the loop polls again or returns, whatever other threads do meanwhile |
| EventLoopMachine.ServedIsKept | nutty/base/EventLoop.cpp:125-136 | A promise to execute the first n functors, once a poll has returned, is kept by every continuation of the run |
| EventLoopMachine.BatchIsWhatWasSwapped | nutty/base/EventLoop.cpp:125-136 | Between a swap and the end of its batch exactly the swapped functors run; everything enqueued meanwhile stays pending |
| EventLoopMachine.QuitExactly | nutty/base/EventLoop.cpp:59-67 | In every interleaving the quit flag is set if and only if some thread called `quit()` and `loop()` was not entered after that call |
| EventLoopMachine.QuitCountsFromLoop | nutty/base/EventLoop.cpp:59-69 | At any point after `loop()` was entered, whatever came before it, the flag tells exactly whether some thread has called `quit()` since |
| EventLoopMachine.QuitEndsTheLoop | nutty/base/EventLoop.cpp:59-79 | Once `quit()` has been called inside `loop()`, no continuation begins another poll, a poll in progress has a wakeup coming, and the loop's next test of the flag returns |
| EventLoopMachine.QuitBeforeLoopIsForgotten | nutty/base/EventLoop.cpp:66-69 | The run that forgets a `quit()`: it comes before `loop()`, which clears the flag and polls |
| EventLoopMachine.CounterExactly | nutty/base/EventLoop.cpp:138-153 | In every interleaving the eventfd's counter is the number of writes since its last read, as far as it can count, and every call from another thread has its one write made or on its way |
| EventLoopMachine.SleepsExactly | nutty/base/EventLoop.cpp:69-76 | A poll blocks if and only if nobody has written the eventfd since it was last read and nobody is about to: one read undoes all writes before it |
| EventLoopMachine.EachReportIsRead | nutty/base/EventLoop.cpp:146-153 | The eventfd is read once for each poll that reports it, before that turn's batch |
| EventLoopMachine.ReturnsOnlyOnQuit | nutty/base/EventLoop.cpp:66-79 | The loop returns only when a `quit()` was called and `loop()` not entered since |
| EventLoopObject.EventLoop.QueueInLoop | nutty/base/EventLoop.cpp:87-95 | Undisturbed, from either kind of thread: a push followed by an eventfd write exactly if the caller is another thread or a batch is running |
| EventLoopObject.EventLoop.PushPending | nutty/base/EventLoop.cpp:88-91 | One push under the mutex, as one step of the machine, from either kind of thread |
| EventLoopObject.EventLoop.Wakeup | nutty/base/EventLoop.cpp:138-144 | One eventfd write as one step of the machine; afterwards the counter is positive and at most one more |
| EventLoopObject.EventLoop.HandleWakeup | nutty/base/EventLoop.cpp:146-153 | Reading the eventfd leaves its counter at zero and touches neither queue nor flag, as one step of the machine |
| EventLoopObject.EventLoop.RequestQuit | nutty/base/EventLoop.cpp:59-64 | The flag write of `quit`, as one step of the machine |
| EventLoopObject.EventLoop.BeginLoop | nutty/base/EventLoop.cpp:66-67 | `loop()` clears the flag on entry, as one step of the machine |
| EventLoopObject.EventLoop.DoPendingFunctors | nutty/base/EventLoop.cpp:125-136 | Undisturbed, a batch executes exactly what was pending, in order, leaves pending exactly what those functors enqueued, with the wakeups they cause, and sets the quit flag exactly if one of them quits |
| EventLoopObject.EventLoop.RunNextFunctor | nutty/base/EventLoop.cpp:132-134 | One functor of a batch and its calls of `queueInLoop` and `quit`, as steps of the machine |
| EventLoopObject.EventLoop.SwapOut | nutty/base/EventLoop.cpp:126-131 | The swap under the mutex hands over the whole queue and leaves it empty |
| EventLoopObject.EventLoop.LoopOnce | nutty/base/EventLoop.cpp:69-76 | One turn of `loop()`, undisturbed by other threads: what was pending and what the handlers queued is executed in order, what those functors queued is left, and the loop goes on exactly if nobody quit: no earlier call, no handler, no functor |
| BlockingQueueMachine.NoStrandedWaiter | nutty/util/BoundedBlockingQueue.h:23-43 | With capacity at least one, any number of threads, barging and spurious wakeups: a waiting taker means no more items than woken takers, a waiting putter no more free places than woken putters; the size never exceeds the capacity |
| BlockingQueueMachine.QueueIsFifo | nutty/util/BoundedBlockingQueue.h:23-43 | Values put = values taken ++ queue, at every point of every run |
| BlockingQueueMachine.DeadlockExactly | nutty/util/BoundedBlockingQueue.h:25-27 | A state with everybody asleep on both conditions is reachable if and only if the capacity is zero |
| BlockingQueueMachine.DeadlockNeedsNoCapacity | nutty/util/BoundedBlockingQueue.h:25-37 | No run of a queue with capacity deadlocks |
| BlockingQueueMachine.ZeroCapacityDeadlocks | nutty/util/BoundedBlockingQueue.h:25-37 | The run that deadlocks a queue of capacity zero |
| BlockingQueueMachine.SleepersAreRight | nutty/util/BoundedBlockingQueue.h:25-37 | If no thread is awake inside, waiting takers face an empty queue and waiting putters a full one |
| BlockingQueueMachine.PutKeepsMonitor | nutty/util/BoundedBlockingQueue.h:23-31 | `put` with `notify_one` keeps the stranding invariant |
| BlockingQueueMachine.TakeKeepsMonitor | nutty/util/BoundedBlockingQueue.h:33-43 | `take` with `notify_one` keeps the stranding invariant |
| BlockingQueueMachine.WaitKeepsMonitor | nutty/util/BoundedBlockingQueue.h:25-37 | Going to sleep keeps it |
| BlockingQueueMachine.WakingKeepsMonitor | nutty/util/BoundedBlockingQueue.h:25-37 | Spurious wakeups keep it |
| BlockingQueueMachine.ThreadsAreWhereTheyWaited | nutty/util/BoundedBlockingQueue.h:23-43 | In every run a thread is inside `put` or `take` if and only if its last stay in the mutex ended in a wait there, and the waiters are the sleeps less the notifications and spurious wakeups |
| BlockingQueueObject.BoundedBlockingQueue.PutTurn | nutty/util/BoundedBlockingQueue.h:23-31 | One pass of `put` under the mutex: it appends and notifies, or sleeps, exactly as the machine's step |
| BlockingQueueObject.BoundedBlockingQueue.TakeTurn | nutty/util/BoundedBlockingQueue.h:33-43 | One pass of `take` under the mutex: it removes the front and notifies, or sleeps, exactly as the machine's step |
| TimerQueueRuns.CancelledForGood | nutty/base/TimerQueue.cpp:57-65 | A timer cancelled outside `handleRead` is never called again; one cancelled by a callback is called at most once more, only if it is in the current batch and still due, and never goes back into the map |
| TimerQueueRuns.DoomedOverRuns | nutty/base/TimerQueue.cpp:57-95 | The same over any continuation, with the exact number of remaining calls |
| TimerQueueRuns.CancelDooms | nutty/base/TimerQueue.cpp:57-65 | The cancel step itself establishes it, whether the timer is in the map, in the batch or nowhere |
| TimerQueueRuns.RepeatsExactly | nutty/base/TimerQueue.cpp:57-95 | In every run a repeating timer is in the map, or in the batch and about to return to it, if and only if nobody has cancelled it since it was added |
| TimerQueueRuns.CancelingExactly | nutty/base/TimerQueue.cpp:57-80 | The canceling timers are exactly those cancelled since the last `handleRead` began, during its callbacks, when they were not in the map |
| TimerQueueRuns.SchedulesAreAsAsked | nutty/base/TimerQueue.cpp:50-70 | In every run each timer keeps the time and interval of its add, and the clock is that of the last `handleRead` |
| TimerQueueRuns.HandleReadCallsExactlyTheDue | nutty/base/TimerQueue.cpp:67-102 | A `handleRead` at clock `now` calls exactly the timers with expiration at most `now` at its start, by expiration and then by insertion, whatever its callbacks add or cancel |
| TimerQueueRuns.BatchIsFixed | nutty/base/TimerQueue.cpp:76-88 | Adds and cancels inside callbacks never change the batch being called |
| TimerQueueRuns.HardwareTimerIsNeverLate | nutty/base/TimerQueue.cpp:50-61 | For positive expirations, outside `handleRead`, whenever there are timers the timerfd is armed for no later than the first, or has fired and not been read |
| TimerQueueRuns.AddKeepsCoverExactly | nutty/base/TimerQueue.cpp:50-55 | An add keeps the timerfd early enough if and only if the expiration is positive |
| TimerQueueRuns.ExpirationsDoNotDrift | nutty/base/TimerQueue.cpp:90-95 | A waiting timer's expiration is the time asked for plus one interval for each call so far, however late `handleRead` was |
| TimerQueueRuns.NeverCalledAhead | nutty/base/TimerQueue.cpp:76-95 | By the clock of the last `handleRead` a repeating timer has been called at most (clock - time asked for)/interval + 1 times |
| TimerQueueRuns.OneShotRunsOnce | nutty/base/TimerQueue.cpp:50-95 | At every point of every run a timer without interval is waiting, has been called once, or was taken out of the map by a cancel: exactly one of the three |
| TimerQueueArming.HardwareTimerExactly | nutty/base/TimerQueue.cpp:50-115 | In every run with positive times the timerfd is armed, until that expiry is read, for the timer that was first when it was last set; outside `handleRead` it is armed for the map's first expiration if and only if that timer has not been cancelled since or an equal expiration is left |
| TimerQueueArming.ArmedForTheFirst | nutty/base/TimerQueue.cpp:50-102 | Without cancels, outside `handleRead`: armed for exactly the first expiration, and disarmed if there is none |
| TimerQueueArming.CancelLeavesItArmed | nutty/base/TimerQueue.cpp:57-65 | The run add, cancel leaves the timerfd armed with no timer left |
| TimerQueueMachine.RunsKeepInvariant | nutty/base/TimerQueue.cpp:50-102 | All runs: the map is sorted by key and insertion, holds each timer at most once, and shares none with the batch before its end |
| TimerQueueMachine.StepKeepsInvariant | nutty/base/TimerQueue.cpp:50-102 | Each add, cancel, batch start, call and batch end keeps it |
| TimerQueueMachine.ReinsertedIsGood | nutty/base/TimerQueue.cpp:90-95 | Putting the expired timers back keeps the map ordered and puts back exactly the uncancelled repeating ones |
| TimerQueueMachine.InsertKeepsOrder | nutty/base/TimerQueue.cpp:51 | Multimap insertion keeps key order, with equal keys in insertion order |
| TimerQueueMachine.WithoutKeepsOrder | nutty/base/TimerQueue.cpp:57-61 | Erasing keeps it |
| TimerQueueMachine.InsertMembers | nutty/base/TimerQueue.cpp:51 | Insertion adds the one entry and loses none |
| TimerQueueMachine.ResetTimerMeaning | nutty/base/TimerQueue.cpp:104-115 | The split into seconds and nanoseconds recombines: positive times arm the timerfd for that time, zero disarms, negative leaves it; 0 <= nsec < 10^9 |
| TimerQueueObject.FindErases | nutty/base/TimerQueue.cpp:58-61 | `equal_range`, `find` and `erase` by the timer's current expiration remove the timer, and miss it only if it is absent |
| TimerQueueObject.Timer.Restart | nutty/base/Timer.cpp:13-15 | The expiration moves on by one interval |
| TimerQueueObject.TimerQueue.AddTimerInLoop | nutty/base/TimerQueue.cpp:50-55 | The multimap insertion and the re-arming for a timer in front, as one step of the machine |
| TimerQueueObject.TimerQueue.CancelInLoop | nutty/base/TimerQueue.cpp:57-65 | The erase or the deferred cancel, as one step of the machine |
| TimerQueueObject.TimerQueue.TakeExpired | nutty/base/TimerQueue.cpp:67-84 | `handleRead` up to its first callback: the returned timers are those due, in order |
| TimerQueueObject.TimerQueue.CallNext | nutty/base/TimerQueue.cpp:85-87 | The call of one expired timer, as one step of the machine |
| TimerQueueObject.TimerQueue.PutBackExpired | nutty/base/TimerQueue.cpp:88-101 | `handleRead` after its last callback: restart, re-insert and re-arm, as one step of the machine |
| TimerQueueObject.TimerQueue.RestartAll | nutty/base/TimerQueue.cpp:90-95 | The loop that restarts expired timers in place computes the machine's re-insertion, and every entry stays under its timer's own expiration |
| TimerQueueObject.TimerQueue.ResetTimer | nutty/base/TimerQueue.cpp:104-115 | Sets the timerfd as the machine's function does |
| ConnectorMachine.OneAttemptAtATime | nutty/net/Connector.cpp:23-141 | All runs, until a null watcher is used: connecting implies wanted and no retry due; the socket is held exactly while connecting; one retry timer while a retry is due and none otherwise; each attempt delivers at most one connection, in order; the j-th wait since the last `restart()` is min(500*2^j, 30000) ms |
| ConnectorMachine.StepKeepsInvariant | nutty/net/Connector.cpp:23-141 | Each user call, retry timer, watcher event and queued reset keeps it |
| ConnectorMachine.RetryBacksOff | nutty/net/Connector.cpp:76-83 | One retry uses the current delay and doubles it up to the cap |
| ConnectorMachine.RunsDo | nutty/net/Connector.cpp:23-141 | In every run, until a null watcher is used: wanted iff `start()` came after the last `stop()`; given up iff the last attempt's `connect` failed for good; one retry timer for each retry scheduled and not run, whatever is stopped; the delay is min(500*2^j, 30000) ms with j the retries since `restart()` last began an attempt; one queued reset for each attempt ended and not yet reset |
| ConnectorMachine.StepDoes | nutty/net/Connector.cpp:40-141 | One step: an attempt leaves the connector connecting, with a retry due or given up exactly as its `connect` ended, and a refused connection or an error event schedules one retry |
| ConnectorMachine.NeverForgetsToRetry | nutty/net/Connector.cpp:40-122 | A connector that is wanted, not connecting and without retry timer has delivered its last attempt's connection, or that attempt's `connect` failed for good |
| ConnectorMachine.FaultsExactly | nutty/net/Connector.cpp:66-70 | A null watcher is used exactly by a step that ends an attempt whose watcher has been destroyed |
| ConnectorMachine.HealthyWithoutOverlap | nutty/net/Connector.cpp:58-74 | A run without an attempt started over a queued `resetWatcher` always has a live, registered watcher while connecting and never uses a null one |
| ConnectorMachine.StepKeepsHealthy | nutty/net/Connector.cpp:58-74 | A step keeps the watcher healthy if and only if it does not begin an attempt, still in progress, while a `resetWatcher` is queued: a condition on the guards of `start`, `restart` and the retry timer |
| ConnectorMachine.OverlapLosesTheWatcher | nutty/net/Connector.cpp:40-74 | An attempt begun after a run without overlaps has a continuation, still within that attempt, in which it is connecting without a registered watcher, if and only if a `resetWatcher` was queued when it began |
| ConnectorMachine.AttemptStaysHealthy | nutty/net/Connector.cpp:58-74 | A healthy attempt keeps its live, registered watcher in every continuation, as long as it lasts |
| ConnectorMachine.LostForGood | nutty/net/Connector.cpp:92-141 | A connector that lost its watcher stays so under every step: no event reports an outcome, nothing is delivered, and `stop()` uses a null watcher |
| ConnectorMachine.OnlyAttemptsAreLost | nutty/net/Connector.cpp:23-141 | In every run, until a null watcher is used: no watcher is registered outside an attempt, and one is destroyed while registered only in an attempt that is lost with it |
| ConnectorMachine.StopThenStartLoses | nutty/net/Connector.cpp:124-141 | The run start, stop, start, queued reset: it ends connecting with the registered watcher destroyed, and a `stop()` then uses a null one |
| ConnectorObject.Connector.WatchedWhileConnecting | nutty/net/Connector.cpp:58-74 | With a real watcher in a real poll index, if no attempt of its run overlapped: the connector is connecting exactly while its watcher is in the index, on the attempt's descriptor and for writing only, and it never left an entry behind |
| ConnectorObject.Connector.LostEntryStays | nutty/net/Connector.cpp:66-74 | A connector that lost its watcher is connecting and has none, while the index still holds the destroyed one on the attempt's descriptor |
| ConnectorObject.Connector.RunQueuedReset | nutty/net/Connector.cpp:72-74 | The queued destruction, as one step of the machine: a watcher that is registered at that point leaves its entry in the index, any other leaves none |
| ConnectorObject.Connector.Connecting | nutty/net/Connector.cpp:58-64 | A new watcher, on the attempt's descriptor, is in the index for writing |
| ConnectorObject.Connector.Retrying | nutty/net/Connector.cpp:85-90 | Over the real watcher and poll index, as one step of the machine: the retry timer |
| ConnectorObject.Connector.HandleError | nutty/net/Connector.cpp:92-100 | Over the real watcher and poll index, as one step of the machine: the error event; afterwards no attempt is under way and the watcher's descriptor is out of the index |
| ConnectorObject.Connector.HandleWrite | nutty/net/Connector.cpp:102-122 | Over the real watcher and poll index, as one step of the machine: the write event; the callback is made exactly for a real connection while connecting, and the descriptor leaves the index |
| ConnectorObject.Connector.StartInLoop | nutty/net/Connector.cpp:124-131 | Over the real watcher and poll index, as one step of the machine: `startInLoop` |
| ConnectorObject.Connector.RestartInLoop | nutty/net/Connector.cpp:27-34 | Over the real watcher and poll index, as one step of the machine: `restart` |
| ConnectorObject.Connector.StopInLoop | nutty/net/Connector.cpp:133-141 | `stopInLoop` uses a null watcher exactly if it finds an attempt whose watcher is gone; otherwise no attempt and no socket is left, and its descriptor is out of the index |
| TcpConnectionMachine.SendsAreConserved | nutty/net/TcpConnection.cpp:117-133 | All runs of raw and buffered sends with any partial writes: bytes on the wire ++ send buffer = the payloads, in order, of the sends that ran while the connection was open, with nothing left to send, on a socket not broken |
| TcpConnectionMachine.StepExtendsStream | nutty/net/TcpConnection.cpp:142-202 | Each step extends that stream by exactly the payload it accepts |
| TcpConnectionMachine.SendExtendsStream | nutty/net/TcpConnection.cpp:147-169 | `sendInLoop` extends it by all of the payload or none, whatever the write returns |
| TcpConnectionMachine.WriteKeepsStream | nutty/net/TcpConnection.cpp:117-133 | `handleWrite` moves a prefix from the buffer to the wire |
| TcpConnectionMachine.WireIsWhatWasReported | nutty/net/TcpConnection.cpp:117-202 | In every run the socket has been given, of the accepted bytes, exactly as many as its writes reported, each once and in order, and the send buffer holds exactly the others |
| TcpConnectionMachine.StepReports | nutty/net/TcpConnection.cpp:117-202 | One step lengthens what the socket has by the count its write reported, and by nothing if it writes nothing |
| TcpConnectionMachine.FunctorsAreFifo | nutty/net/TcpConnection.cpp:43-85 | Functors run once each in the order in which they were queued; a send is queued just if the connection is open |
| TcpConnectionMachine.NothingIsLostExactly | nutty/net/TcpConnection.cpp:142-202 | Everything offered is sent or kept if and only if no send ran with bytes still waiting, after disconnect, or into a broken socket |
| TcpConnectionMachine.SecondSendIsLost | nutty/net/TcpConnection.cpp:147-148 | A run that loses bytes: a second send while the first waits |
| TcpConnectionMachine.RunsAreCoherent | nutty/net/TcpConnection.cpp:117-267 | All runs: while open, the connection watches for writability exactly while the send buffer is not empty, and for input; unconnected or disconnected it watches nothing |
| TcpConnectionMachine.StepKeepsCoherent | nutty/net/TcpConnection.cpp:117-267 | Each step keeps it |
| TcpConnectionMachine.RoundsDrain | nutty/net/TcpConnection.cpp:117-133 | Rounds in which the socket takes something drain the buffer from the front: as many rounds as bytes always empty it, and then the connection stops asking |
| TcpConnectionMachine.NoWayBack | nutty/net/TcpConnection.cpp:87-93 | The phase only moves forward; after disconnect no interest and no byte sent or kept, in any continuation; a shutdown that found bytes waiting never closes the write side |
| TcpConnectionMachine.ShutdownClosesExactly | nutty/net/TcpConnection.cpp:238-245 | In every run the socket's write side has been closed if and only if some shutdown, called on the loop thread or queued from another one, ran on the open connection with nothing left to send |
| TcpConnectionMachine.StepShutsExactly | nutty/net/TcpConnection.cpp:71-77 | One step closes the write side if and only if it runs a shutdown of either kind on the open connection with nothing left to send |
| TcpConnectionMachine.ShutdownBeforeDrainNeverCloses | nutty/net/TcpConnection.cpp:117-133 | The run that never closes it: shutdown while a byte waits, then the byte is sent; the write side stays open in every continuation |
| TcpConnectionMachine.PhaseExactly | nutty/net/TcpConnection.cpp:87-267 | In every run: the connection has left its first phase iff it was established; it is disconnected iff one of the closing steps ran (hang-up, end of stream, `forceClose` on an open connection, `destroyed` on a connected one); it is disconnecting iff a shutdown ran on the open connection and none of them has |
| TcpConnectionMachine.StepMovesExactly | nutty/net/TcpConnection.cpp:87-267 | The same for one step, as conditions on its guards |
| TcpConnectionMachine.EventsAreAnswered | nutty/base/Watcher.cpp:40-64 | In every run, of the event set last reported: each of the four handlers is still to run or has run if and only if one of its poll bits was set |
| TcpConnectionMachine.DisconnectsTwiceExactly | nutty/base/Watcher.cpp:40-64 | A closed connection has made the connect callback and then the disconnect callback once or twice; twice if and only if an event set had POLLHUP without POLLIN but with POLLPRI or POLLRDHUP and the stream ended in its read handler |
| TcpConnectionMachine.StepKeepsStanding | nutty/base/Watcher.cpp:40-64 | The dispatch position that proves it, over one step |
| TcpConnectionMachine.CallbacksFollowThePhase | nutty/net/TcpConnection.cpp:87-115 | Without such a set: connect and disconnect callbacks at most once each, disconnect only after connect, exactly in step with the phase |
| TcpConnectionMachine.HangUpWithUrgentDataClosesTwice | nutty/net/TcpConnection.cpp:110-112 | The run that makes the disconnect callback twice |
| TcpConnectionMachine.ReceivedIsConserved | nutty/net/TcpConnection.cpp:102-109 | What users took ++ the receive buffer = what the socket delivered, in every run |
| TcpConnectionObject.TcpConnection.SendInLoop | nutty/net/TcpConnection.cpp:142-170 | `sendInLoop` of raw bytes over the real send queue: wire, queue and write interest as the machine's function, for every outcome of the write; the socket's bytes grow by just the count reported |
| TcpConnectionObject.TcpConnection.SendBufferInLoop | nutty/net/TcpConnection.cpp:172-202 | `sendInLoop` of a buffer, which moves into the queue: queue, interest and state as for its readable bytes, while the wire gets bytes from the start of its memory, as many as the write reported, so that it is the machine's function exactly of a buffer of which nothing was read |
| TcpConnectionObject.TcpConnection.Send | nutty/net/TcpConnection.cpp:43-52 | `send` on the loop thread, as one step of the machine |
| TcpConnectionObject.TcpConnection.Enqueue | nutty/net/TcpConnection.cpp:43-85 | The calls that queue a functor, as one step of the machine |
| TcpConnectionObject.TcpConnection.RunFunctor | nutty/net/TcpConnection.cpp:43-85 | The loop runs the oldest functor, as one step of the machine |
| TcpConnectionObject.TcpConnection.HandleWrite | nutty/net/TcpConnection.cpp:117-140 | `handleWrite` over the real queue: gather, write some, drop what was written, stop asking when empty |
| TcpConnectionObject.TcpConnection.HandleRead | nutty/net/TcpConnection.cpp:102-115 | `handleRead` over the real receive queue: data, end of stream or error |
| TcpConnectionObject.TcpConnection.HandleClose | nutty/net/TcpConnection.cpp:87-93 | `handleClose` as one step of the machine |
| TcpConnectionObject.TcpConnection.Shutdown | nutty/net/TcpConnection.cpp:71-73 | `shutdown` on the loop thread |
| TcpConnectionObject.TcpConnection.Establish | nutty/net/TcpConnection.cpp:79-81 | `established` on the loop thread |
| TcpConnectionObject.TcpConnection.ShutdownInLoop | nutty/net/TcpConnection.cpp:238-245 | On the fields, as the machine's function |
| TcpConnectionObject.TcpConnection.ForceCloseInLoop | nutty/net/TcpConnection.cpp:247-251 | Closes a connected or disconnecting connection, stops watching it and makes the disconnect callback; otherwise changes nothing |
| TcpConnectionObject.TcpConnection.EstablishedInLoop | nutty/net/TcpConnection.cpp:253-259 | On the fields, as the machine's function |
| TcpConnectionObject.TcpConnection.DestroyedInLoop | nutty/net/TcpConnection.cpp:261-267 | The same for a connected connection only |
| TcpConnectionObject.TcpConnection.Retrieve | nutty/net/TcpConnection.cpp:14-16 | A user drops received bytes |
| TcpConnectionObject.TcpConnection.HandleEvents | nutty/base/Watcher.cpp:40-64 | One dispatch runs close, error, read and write handlers in that order, each exactly when its bits are set, as steps of the machine |
| TcpConnectionObject.ObjectConserves | nutty/net/TcpConnection.cpp:117-202 | For every reachable object: wire ++ queue contents = accepted payloads, the wire as long as the writes reported, consumed ++ receive queue = received, and write interest exactly while the queue is not empty |
| SendBuffers.SendBuffer.Append | nutty/net/SendBuffer.cpp:20-24 | Contents' = contents ++ bytes, in a new chunk |
| SendBuffers.SendBuffer.AppendMoved | nutty/net/SendBuffer.cpp:26-30 | Contents' = contents ++ the moved buffer's readable bytes |
| SendBuffers.SendBuffer.PrepareSend | nutty/net/SendBuffer.cpp:46-57 | The vectors gather a prefix of the contents, at least 16384 bytes or all, and no chunk more than that takes |
| SendBuffers.SendBuffer.HasSent | nutty/net/SendBuffer.cpp:59-72 | Contents' = contents without its first min(count, size) bytes; no emptied chunk stays |
| SendBuffers.SendBuffer.DropFromFront | nutty/net/SendBuffer.cpp:61-70 | One turn of that loop: min(readable, wanted) bytes leave the front chunk, which goes exactly if that empties it |
| ReceiveBuffers.ReceiveBuffer.Receive | nutty/net/TcpConnection.cpp:102-109 | Prepare, scatter-read and commit: contents' = contents ++ the received bytes, of which there are at least 8192 if so many are available |
| ReceiveBuffers.ReceiveBuffer.PrepareReceive | nutty/net/ReceiveBuffer.cpp:145-171 | At least 8192 bytes: the rest of the back chunk, and the first spare exactly if that is not enough, a spare being made exactly if there is none; contents untouched |
| ReceiveBuffers.ReceiveBuffer.HasReceived | nutty/net/ReceiveBuffer.cpp:173-192 | Commits the first `count` bytes of the prepared memory to the contents; no chunk lost or duplicated |
| ReceiveBuffers.ReceiveBuffer.FilledRoomKeepsBytes | nutty/net/ReceiveBuffer.cpp:145-171 | Writing into the prepared vectors touches no byte of the contents |
| ReceiveBuffers.Readv | nutty/net/TcpConnection.cpp:105-106 | The system's scatter read fills the vectors in order as far as the bytes go |
| ReceiveBuffers.ReceiveBuffer.Read | nutty/net/ReceiveBuffer.cpp:40-55 | Returns and drops the first min(count, size) bytes; no chunk lost or duplicated |
| ReceiveBuffers.ReceiveBuffer.Peek | nutty/net/ReceiveBuffer.cpp:67-75 | Returns the first min(count, size) bytes and leaves the queue alone |
| ReceiveBuffers.ReceiveBuffer.Retrieve | nutty/net/ReceiveBuffer.cpp:119-133 | Drops the first min(count, size) bytes; no chunk lost or duplicated |
| ReceiveBuffers.ReceiveBuffer.RetrieveAll | nutty/net/ReceiveBuffer.cpp:135-143 | Drops everything into the spares |
| ReceiveBuffers.ReceiveBuffer.PrepareSend | nutty/net/ReceiveBuffer.cpp:194-205 | The vectors gather exactly the contents |
| ReceiveBuffers.ReceiveBuffer.RecycleFront | nutty/net/ReceiveBuffer.cpp:124-131 | Reading the front chunk recycles it exactly when it becomes empty and keeps the chunk list tight |
| ReceiveBuffers.ReceiveBuffer.ChunksAreTight | nutty/net/ReceiveBuffer.cpp:119-192 | With two chunks or more, size >= (chunks - 2)*16384 + 2; chunks allocated <= most ever in use + 1, a mark that starts at zero and that every operation's contract raises to the chunks then in use and no further |
| ReceiveBuffers.ReceiveBuffer.PeekAndRetrieve | nutty/net/ReceiveBuffer.cpp:67-133 | `peek` then `retrieve` of the same count does what `read` does: the bytes returned and the bytes left make up the old contents |
| ReceiveBuffers.ReceiveBuffer.RetrieveTwice | nutty/net/ReceiveBuffer.cpp:119-133 | `retrieve` twice leaves what `retrieve` of the sum leaves |
| ReceiveBuffers.SameContents | nutty/net/Buffer.h:15-27 | Contents depend only on what lies between the cursors |
| Buffers.Buffer.HasRead | nutty/net/Buffer.h:23 | Drops readable bytes |
| Buffers.Buffer.HasWritten | nutty/net/Buffer.h:24 | The next bytes of memory become readable |
| Buffers.Buffer.Reset | nutty/net/Buffer.h:25 | Empties the chunk and keeps its memory |
| Buffers.Buffer.Move | nutty/net/Buffer.cpp:21-26 | Takes over the readable bytes and leaves the other buffer empty |
| Buffers.GatherNext | nutty/net/SendBuffer.cpp:49-56 | A vector for one chunk more gathers that chunk's bytes at the end |
| Buffers.GatheredConcat | nutty/net/SendBuffer.cpp:46-57 | A gather of two vector lists is the two gathers in order |
| Buffers.ContentsConcat | nutty/net/SendBuffer.cpp:20-30 | The contents of a chunk list are those of its parts in order |
| AsyncLoggingMachine.LogIsConserved | nutty/log/AsyncLogging.cpp:25-57 | In every interleaving of front ends and back end, for each logger: files ++ unwritten part of the buffers being written ++ queued buffers ++ current buffer = the appended lines shorter than a buffer, in lock order; and no step is held up for want of a buffer |
| AsyncLoggingMachine.FilesCatchUp | nutty/log/AsyncLogging.cpp:35-57 | The files hold a prefix of the accepted lines, and all of them as soon as the logger is neither queued nor being written |
| AsyncLoggingMachine.OneRoundWritesAll | nutty/log/AsyncLogging.cpp:35-57 | Once the back end has the lock, everything accepted before is in the files by the time it is done with the logger, whatever front ends append meanwhile |
| AsyncLoggingMachine.StaysCommitted | nutty/log/AsyncLogging.cpp:35-57 | What the back end has taken over of a logger only ever grows, in every continuation |
| AsyncLoggingMachine.LoggersAreFifo | nutty/log/AsyncLogging.cpp:25-57 | Loggers are served in the order in which they were queued, once for each time |
| AsyncLoggingMachine.OneFilePerRoll | nutty/log/AsyncLogger.cpp:154-156 | A logger has one file more for each roll, and no other |
| AsyncLoggingMachine.RecyclingIsSound | nutty/log/AsyncLogger.cpp:126-170 | In every run no buffer has two owners, spares are empty, no pop_back meets an empty vector, and the back end holds a written buffer for each spare it owes |
| AsyncLoggingMachine.QueuedExactlyOnce | nutty/log/AsyncLogging.cpp:25-33 | A logger is queued exactly once if `notEmpty_` and otherwise not at all; a back end asleep over a non-empty queue has been notified |
| AsyncLoggingMachine.StepKeeps | nutty/log/AsyncLogging.cpp:25-57 | Each step of a front end or the back end keeps all of this and extends just one logger's stream, by the accepted line |
| AsyncLoggingMachine.TakeStep | nutty/log/AsyncLogging.cpp:48-57 | The swap of all queued loggers under the lock keeps it |
| AsyncLoggerMachine.AppendKeeps | nutty/log/AsyncLogger.cpp:108-124 | Appending adds the line if and only if it is shorter than 4 MiB, whatever buffers it rotates, and leaves the back end's fields alone |
| AsyncLoggerMachine.RotateKeepsStream | nutty/log/AsyncLogger.cpp:109-120 | Rotating buffers changes no byte of the stream, and afterwards exactly the lines shorter than a buffer fit |
| AsyncLoggerMachine.SwapKeepsStream | nutty/log/AsyncLogger.cpp:126-139 | The swap changes no byte of the stream |
| AsyncLoggerMachine.SwapKeepsWhole | nutty/log/AsyncLogger.cpp:126-139 | The swap aliases no buffer and leaves the back end at least as many buffers to write as it owes spares |
| AsyncLoggerMachine.WriteKeepsStream | nutty/log/AsyncLogger.cpp:154-156 | Writing one buffer, with or without rolling the file, moves its bytes from memory to file |
| AsyncLoggerMachine.WriteMovesBytes | nutty/log/AsyncLogger.cpp:154-156 | What is on file and what is to be written, taken together, do not change |
| AsyncLoggerMachine.RecycleKeeps | nutty/log/AsyncLogger.cpp:157-167 | Recycling finds a written buffer for each spare it owes, empties it, gives none to two owners, and changes no byte |
| AsyncLoggerObject.AsyncLogger.AppendToBuffer | nutty/log/AsyncLogger.cpp:108-124 | `appendToBuffer_locked` over real buffer objects, as the machine's function |
| AsyncLoggerObject.AsyncLogger.SwapBuffersToWrite | nutty/log/AsyncLogger.cpp:126-139 | `swapBuffersToWrite_locked` over real buffer objects, as the machine's function |
| AsyncLoggerObject.AsyncLogger.WriteOne | nutty/log/AsyncLogger.cpp:154-156 | One buffer to the file, as the machine's function |
| AsyncLoggerObject.AsyncLogger.RecycleBuffers | nutty/log/AsyncLogger.cpp:157-167 | The recycling, as the machine's function |
| AsyncLoggerObject.AsyncLogger.AppendBuffers | nutty/log/AsyncLogger.cpp:141-170 | All of `appendBuffers_unlocked`: the files gain exactly what the buffers held, in order, and the spares are back |
| AsyncLoggerObject.Chunk.Append | nutty/log/AsyncLogger.cpp:33-38 | Appends the line if it leaves room, and otherwise drops it |
| AsyncLoggingObject.AsyncLogging.Append | nutty/log/AsyncLogging.cpp:25-33 | `append` under the lock over real loggers, as one step of the machine |
| AsyncLoggingObject.AsyncLogging.EnterBackEnd | nutty/log/AsyncLogging.cpp:48-57 | The back end takes the lock and takes the queue or sleeps, as one step of the machine |
| AsyncLoggingObject.AsyncLogging.WakeBackEnd | nutty/log/AsyncLogging.cpp:50-57 | It wakes, for whatever reason, and takes the queue, as one step of the machine |
| AsyncLoggingObject.AsyncLogging.SwapAll | nutty/log/AsyncLogging.cpp:54-56 | The loop under the lock swaps exactly the queued loggers, each once |
| AsyncLoggingObject.AsyncLogging.WriteHead | nutty/log/AsyncLogging.cpp:42-44 | One buffer of the first logger of the batch, as one step of the machine |
| AsyncLoggingObject.AsyncLogging.RecycleHead | nutty/log/AsyncLogging.cpp:42-44 | The end of that logger's turn, as one step of the machine |
| AsyncLoggingObject.AsyncLogging.WorkOff | nutty/log/AsyncLogging.cpp:40-45 | The loop over one batch ends with the batch worked off, in steps of the machine |
| PollMachine.PollAgreesWithWatchers | nutty/base/Watcher.cpp:24-38 | Under any calls on watchers of distinct descriptors: the vector and both maps are mutually inverse, a descriptor is registered iff its watcher has started iff its mask is not zero, with just that mask |
| PollMachine.UpdateAgrees | nutty/base/Watcher.cpp:24-38 | `update` brings one watcher's registration in line with its mask and touches no other descriptor |
| PollMachine.RemoveMeans | nutty/base/poller/PollPoller.cpp:63-75 | Swap-remove takes out the one entry and keeps every other, with coherent indices |
| PollMachine.AddMeans | nutty/base/poller/PollPoller.cpp:44-52 | Adding registers the descriptor with its mask and keeps the indices coherent |
| PollMachine.AddKeepsIndexExactly | nutty/base/poller/PollPoller.cpp:44-52 | Adding keeps the index coherent if and only if the descriptor is not registered yet |
| PollMachine.UpdateMeans | nutty/base/poller/PollPoller.cpp:54-61 | Updating changes the one mask and forgets what was reported for it |
| PollMachine.EachActiveOnce | nutty/base/poller/PollPoller.cpp:31-42 | In a coherent index no descriptor is active twice, and a descriptor is active exactly if something is reported for it |
| PollMachine.EventsAreTwoFlags | nutty/base/Watcher.h:26-32 | The mask is two independent flags: each call sets or clears its own and leaves the other |
| WatcherObject.PollPoller.AddWatcher | nutty/base/poller/PollPoller.cpp:44-52 | On the fields, as the machine's function; the indices stay coherent if and only if the descriptor was not registered |
| WatcherObject.PollPoller.UpdateWatcher | nutty/base/poller/PollPoller.cpp:54-61 | On the fields, as the machine's function, with coherent indices |
| WatcherObject.PollPoller.RemoveWatcher | nutty/base/poller/PollPoller.cpp:63-75 | Swap-remove on the fields, as the machine's function, with coherent indices |
| WatcherObject.PollPoller.FillActiveWatchers | nutty/base/poller/PollPoller.cpp:31-42 | The first `numEvents` active entries' watchers in order, each with its own report; registrations unchanged |
| WatcherObject.PollPoller.PollOnce | nutty/base/poller/PollPoller.cpp:20-29 | One poll returns exactly the watchers with a report, each once, in the order of the entries and with its own report |
| WatcherObject.Watcher.Update | nutty/base/Watcher.cpp:24-38 | Through the poller's real index: afterwards started iff interested iff registered with that mask; other descriptors untouched |
| WatcherObject.Watcher.EnableReading | nutty/base/Watcher.h:26-33 | Sets the read bits and brings the registration in line: the descriptor is registered for POLLIN and POLLPRI |
| WatcherObject.Watcher.DisableReading | nutty/base/Watcher.h:26-33 | Clears the read bits and brings the registration in line: nothing is registered for POLLIN or POLLPRI |
| WatcherObject.Watcher.EnableWriting | nutty/base/Watcher.h:26-33 | Sets the write bit and brings the registration in line: the descriptor is registered for POLLOUT |
| WatcherObject.Watcher.DisableWriting | nutty/base/Watcher.h:26-33 | Clears the write bit and brings the registration in line: nothing is registered for POLLOUT |
| WatcherObject.Watcher.DisableAll | nutty/base/Watcher.h:26-33 | Clears the mask and unregisters |
| WatcherObject.Watcher.HandleEvents | nutty/base/Watcher.cpp:40-64 | Any read bit, or POLLRDHUP, runs the read handler and the write bit the write handler, POLLERR or POLLNVAL the error handler, POLLHUP without POLLIN the close handler; just as the connection's step system dispatches them |
| WatcherObject.OthersStayValid | nutty/base/Watcher.cpp:24-38 | A call on one watcher leaves every other one in agreement with the poller |
| Numerals.TextIsTheNumeral | nutty/log/LogStream.cpp:19-38 | The text of a number is the one numeral without leading zero (and without sign on zero) that reads back as that number, for every number including the smallest |
| Numerals.DigitsRoundTrip | nutty/log/LogStream.cpp:25-29 | Digits read back as the number, with no leading zero, in base 10 and 16 |
| Numerals.DigitsAreUnique | nutty/log/LogStream.cpp:25-29 | No other numeral without leading zero reads so |
| Numerals.TextFits | nutty/log/LogStream.cpp:59-64 | Any 64-bit value needs at most 20 characters, an address at most 16 digits |
| Numerals.LowDigit | nutty/log/LogStream.cpp:26-29 | C's truncating division and remainder yield the last digit, with the sign of the value, and the rest |
| Numerals.BackwardIsReversed | nutty/log/LogStream.cpp:25-36 | The digits in the order of the loop, reversed, are the numeral |
| Numerals.Convert | nutty/log/LogStream.cpp:19-38 | The digit loop, sign, NUL and reversal in the array write a text that an independent reader reads as the value, with no leading zero, in at most 20 characters, and nothing else in the array changes |
| Numerals.ConvertHex | nutty/log/LogStream.cpp:40-53 | The same for hexadecimal, in at most 16 characters |
| Numerals.ReverseRange | nutty/log/LogStream.cpp:36 | `std::reverse` in place on part of an array |
| LogBufferMachine.GrowthIsAmortised | nutty/log/LogBuffer.cpp:17-24 | Any run printing less than 4 GiB: the text is what was printed, nothing is written past the end, characters copied <= 3*(capacity - 512), capacity is 512 or at most 1.5*(size + 31) |
| LogBufferMachine.AppendOnlyGrowth | nutty/log/LogBuffer.h:19-26 | Append-only runs of any size: contents are the concatenation, capacity <= max(512, 3*size/2), copied <= 3*(capacity - 512) |
| LogBufferMachine.GrowsExactly | nutty/log/LogBuffer.cpp:17-24 | The text is copied to a larger array if and only if the array is smaller than needed, and then to one half as large again, or as large as needed if that is more |
| LogBufferMachine.NumberOverrunsExactly | nutty/log/LogStream.cpp:106-113 | A number is written past the end if and only if size + 32 does not fit the 32-bit `needSize` and the buffer has no room by chance |
| LogBufferMachine.RunOverrunsExactly | nutty/log/LogStream.cpp:106-138 | Over whole runs: something is written past the end if and only if some number is printed in that situation; the text is always what was printed |
| LogBufferMachine.TwoLongAppendsOverrun | nutty/log/LogStream.cpp:106-113 | The run that does: two appends of 2^31 - 1 characters, then the number 0 |
| LogStreamObject.LogBuffer.Reserve | nutty/log/LogBuffer.cpp:17-24 | A new array of the grown capacity with the same text |
| LogStreamObject.LogBuffer.Append | nutty/log/LogBuffer.h:19-26 | Text' = text ++ bytes, growing as the machine does |
| LogStreamObject.LogBuffer.Add | nutty/log/LogBuffer.h:12 | The next characters of the array become text |
| LogStreamObject.LogStream.FormatInteger | nutty/log/LogStream.cpp:106-113 | For every value and size at which the machine does not write past the end: one step of it, and what an independent reader finds at the end of the buffer is the value |
| LogStreamObject.LogStream.FormatPointer | nutty/log/LogStream.cpp:125-138 | For every address and size at which the machine does not write past the end: one step of it; what is added is 0x and what an independent reader of hexadecimal takes for the address |
| LogStreamObject.LogStream.Append | nutty/log/LogStream.h:31 | One step of the machine |

## Left out

- System calls (poll, eventfd, timerfd, read, write, connect, files) appear as events or parameters with every result their contract allows; errors of eventfd and timerfd calls, which the source ignores, do not occur.
- Memory ordering: `quit_`, `state_` and `running_` are plain or volatile fields read across threads; the machines treat every access as atomic and in program order.
- EventLoopObject.EventLoop.LoopOnce: no other thread in between; handlers queue functors and may quit at their end. Every interleaving is covered by the machine.
- EventLoopObject.EventLoop.RunNextFunctor: a functor queues others and may quit at its end; the machine lets it do both in any order.
- EventLoopObject.EventLoop.QueueInLoop: nothing in between push and wakeup; `PushPending` and `Wakeup` are the two halves of a call that is interrupted.
- `loop()` is entered once; functors destroyed with the swapped vector, and their destructors' side effects, are not modelled.
- `TimerQueue::resetTimer` leaves `it_interval` of its argument unset; the model takes it as zero.
- `TimerQueue::handleRead` is cut at its callbacks, which appear as arbitrary further steps; timers are added once each, as `addTimer` does.
- TimerQueueObject.TimerQueue.TakeExpired: the clock value must not go back, as a steady clock does not.
- A connector's use of a null watcher ends the model in the state `fault`; what the process does then is not modelled.
- The descriptor of a connector's new socket is a parameter and one that the poll index does not hold, as the system gives out only descriptors that are closed; the poll index has no other watcher on it.
- Socket options, addresses and names of connections, and `Socket` itself.
- TcpConnectionObject.TcpConnection.SendBufferInLoop: of a buffer of which something was read, the source writes bytes from the start of the memory and not the readable ones; the contract says so, and such a buffer is not a step of the machine. `Send` and `Enqueue` take the bytes of buffers of which nothing was read, as all callers pass.
- Sending the contents of a receive buffer (`SendBuffer::append(const ReceiveBuffer&)`, `TcpConnection::send(const ReceiveBuffer&)`): the write cursor of the copy is never advanced, so its bytes are not readable; no property is claimed.
- The watcher inside a connection appears as its two interest flags; `PollMachine.EventsAreTwoFlags` and `WatcherObject.Watcher.HandleEvents` connect them to the bit mask.
- `ReceiveBuffer::peek` with an offset clamps to `count` before it subtracts the offset and is not slicing in general; the raw-memory overloads of `read` and `peek` differ from the string forms only in their target.
- A chunk's memory is a sequence field of fixed length instead of an array; a vector's capacity is the size it was made with.
- `PollPoller::removeWatcher` reads its map iterator after erasing it; the model reads the index first.
- Watchers of the same descriptor at the same time, and the epoll poller.
- When a log file is rolled is a free choice of the event; file names, times and flushing, and lines still in memory at `stop()`. `LogFile` is not part of this model and stands for an append-only byte sequence.
- The logging sources do not compile as they stand (`nutty/log/AsyncLogging.h` has a full-width semicolon, and namespaces differ between header and source); the model follows their text.
- LogStreamObject.LogStream.FormatInteger: what the process does after writing past the array is not modelled; `LogBufferMachine.NumberOverrunsExactly` and `RunOverrunsExactly` say exactly when that happens.
- LogStreamObject.LogStream.FormatPointer: the same.
- Floating-point output, `LogFormat` and `LogMessage`; `LogStream.h` passes characters through unchanged.
- `TcpClient`, `TcpServer`, `Acceptor`, the thread pools and the examples are wiring; the chat codec drops the header length twice, so no round trip holds for it.
- `BlockingQueue`, `Semaphore` and `CountDownLatch` are easier cases of the monitor argument.
