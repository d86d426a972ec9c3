# Verified model of the reactor library

A reactor-style network library for one machine: each thread runs an event loop that polls descriptors, calls back
channels, fires timers and runs functors that other threads queue; a server spreads connections over such loops; an
asynchronous logger moves messages from many threads to one writer. This project models the parts whose correctness
is a matter of protocol or arithmetic, and proves what the library relies on.

The protocols are state machines (`...Machine` modules): a step is what one thread does between two points where
another may intervene, and the theorems quantify over every run, that is every interleaving of steps. What the system
decides (results of `write`, `poll` and `read`, clocks, addresses from the allocator, whom a notify wakes, spurious
wakeups, what callbacks and destructors do) is a parameter of a step and arbitrary within its contract. Beside each machine a class
with the source's fields updates them as the source does, and each method's postcondition equates the new state with
the machine's step. Where code is a function or a search, functions and lemmas stand alone.

| files | part of the library |
|---|---|
| `CInt`, `Calendar`, `TimeZone` | `base/Date.*`, `base/TimeZone.cpp` |
| `TimerMachine`, `TimerQueue` | `net/TimerQueue.cpp`, `net/Timer.*` |
| `LoopMachine`, `EventLoop` | `net/EventLoop.cpp` |
| `ServerMachine`, `TcpServer`, `ConnectionState` | connection life cycle: `net/TcpServer.cpp`, `net/TcpConnection.cpp`, `net/Channel.cpp` |
| `OutputMachine`, `TcpConnection` | output path of `net/TcpConnection.cpp` |
| `Endian`, `Buffer` | `net/Endian.h`, `net/Buffer.h`, `net/Buffer.cpp` |
| `Channel`, `PollerMachine`, `Pollers` | `net/Channel.h`, `net/poller/*.cpp` |
| `FixedBuffer`, `LoggingMachine`, `AsyncLogging` | `base/LogStream.h`, `base/AsyncLogging.cpp` |
| `QueueMachine`, `BoundedBlockingQueue` | `base/BoundedBlockingQueue.h` |
| `HttpSyntax`, `Http` | `net/http/HttpContext.cpp`, `net/http/HttpRequest.h` |
| `NumberText`, `LogStream` | `base/LogStream.cpp` |
| `Wrappers`, `Sequences` | an option type, and the concatenation of a sequence of sequences |

## Where the code departs from what it says or suggests

- The assertion at net/TcpConnection.cpp:155 names `kConnected || kDisconnected`; the states in which handleClose is
  entered are `kConnected` and `kDisconnecting` (`ServerMachine.CloseEntry`, `WrittenAssertionHolds`).
- An event with HUP and without IN that also carries PRI or RDHUP closes a connection twice; the life-cycle theorem
  assumes there is none, and `ServerMachine.ClosesTwiceExactlyOnBadEvents` shows that this is exactly what it needs.
- A half-close skipped because output was pending is never retried (`OutputMachine.SkippedHalfCloseIsLost`), and one
  that comes after a close during writing is made with output unsent (`OutputMachine.HalfClose`).
- A functor that the loop thread queues before loop() starts gets no wakeup (`LoopMachine.QueuedBeforeLoopIsNotWoken`), nor
  does one queued by the destructor of an executed functor, since doPendingFunctors destroys its local vector after it has
  reset callingPendingFunctors_ (`LoopMachine.QueuedByDestructorIsNotWoken`). `LoopMachine.WokenExactly` says when exactly
  such a poll is woken all the same.
- A timer's callback is destroyed by `delete`, and what it owned may call cancel or runAfter again (~TcpClient does,
  net/TcpClient.cpp:74). From reset, such a cancel is lost if its timer is still to come in the batch, repeats and is not
  marked, since callingExpiredTimers_ is off already (`TimerMachine.CancelLostExactly`, `LostCancelRun`). From cancelInLoop,
  which deletes between its two erasures, any cancel or insertion trips the assertions on sizes, and a cancel of the same
  id deletes the timer twice (`TimerMachine.AssertionsExactly`, `SecondDeleteExactly`, `ReentryRun`).
- A quit before loop() starts is forgotten, since loop() resets quit_ (`LoopMachine.QuitExactly`).
- PollPoller keeps the index of a removed channel, so the channel cannot be registered again; and a channel whose first
  registration had no events cannot be removed without another update (`PollerMachine.PollStep`).
- EPollPoller told twice that a channel asks for nothing puts it back into the interest set, with an empty mask
  (`PollerMachine.EpollUpdateExactly`).
- parseRequest does not return if entered in `kGotAll` or `kExpectBody` (`HttpSyntax.ParseTerminates`), and a call after
  a failed one trips an assertion if the failed one had recognised a method (`HttpSyntax.CallAfterFailure`).
- append of the logger drops a message of the size of a whole buffer (`LoggingMachine.Conservation`).
- With capacity 0 a producer and a consumer of the bounded queue sleep for ever (`QueueMachine.NeverBothAsleep`).
- fromLocalTime returns another second for a repeated local time unless the clock went back from daylight to standard
  time by an hour (`TimeZone.ZoneRoundTrip`).

## Model

| member | source | states |
|---|---|---|
| Calendar.TomorrowIsNextDay | base/Date.cpp:18-25 | from 1 March -4800 on, the calendar successor of a date, with the Gregorian leap rule, has the next Julian day number |
| Calendar.DateRoundTrip | base/Date.cpp:18-40 | getYearMonthDay(getJulianDayNumber(date)) is the date, for every valid date of the domain |
| Calendar.DayRoundTrip | base/Date.cpp:18-40 | getJulianDayNumber(getYearMonthDay(n)) is n, the result is a valid date, and n + 1 gives its calendar successor: the conversion is a bijection that follows the calendar |
| Calendar.NoIntOverflow | base/Date.cpp:27-40 | the largest day number for which the 32-bit int products do not overflow, exactly for the first product |
| Calendar.KnownDays | base/Date.h:69 | 1 January 1970 is day 2440588, a Thursday; 29 February 2000 is day 2451604, a Tuesday |
| Calendar.WeekDayRange | base/Date.h:69 | weekDay is in 0..6 exactly when C's remainder of n + 1 is not negative; from day -1 on it always is and advances by one a day |
| TimeZone.SplitDay | base/TimeZone.cpp:331-337 | the corrections after C's truncating % and / give floor division for every second count, negative included |
| TimeZone.UtcRoundTrip | base/TimeZone.cpp:326-367 | fromUtcTime(toUtcTime(t)) == t for every second of the date domain, negative ones included; time of day in range; the date is valid; the weekday counts from a Thursday in 1970 |
| TimeZone.KnownSecond | base/TimeZone.cpp:326-352 | second 951827696 is 2000-02-29 12:34:56, a Tuesday, day 59 of the year |
| TimeZone.UtcFitsInt | base/TimeZone.cpp:326-352 | up to a last day, and no further, the int casts and products of toUtcTime do not overflow |
| TimeZone.UtcFieldsRoundTrip | base/TimeZone.cpp:326-367 | toUtcTime(fromUtcTime(fields)) gives the fields back for every valid date and time of day |
| TimeZone.YearDay | base/TimeZone.cpp:346-350 | tm_yday is the number of days of the year before the date and within 0..365; one too small exactly in the year -4800 |
| TimeZone.LowerBoundRange | base/TimeZone.cpp:238-241 | lower_bound returns the first transition that is not below the sentry |
| TimeZone.FindsLast | base/TimeZone.cpp:227-259 | findLocaltime returns the type after the last transition at or before the sentry, in UTC or in local time; the first type before the first transition |
| TimeZone.LocalSide | base/TimeZone.cpp:303-324 | to which side of a transition the local time of a second belongs: the later side exactly when the transition repeats it |
| TimeZone.ZoneRoundTrip | base/TimeZone.cpp:281-324 | fromLocalTime(toLocalTime(t)) == t if and only if no backward transition repeats the local time later, or that one goes from daylight to standard time by 3600 seconds |
| TimeZone.LocalFields | base/TimeZone.cpp:281-301 | toLocalTime gives the fields of the second shifted by the offset in force, and that offset, its daylight flag and its abbreviation |
| TimeZone.ZoneRoundTripEverySecond | base/TimeZone.cpp:281-324 | for tables whose backward transitions are all DST-to-standard by 3600 seconds and whose transitions are further apart than twice the largest shift, every second survives the round trip, both passes of the repeated hour included |
| TimeZone.RepeatedHourWithoutDst | base/TimeZone.cpp:312-323 | a table and a second for which the round trip fails |
| TimerMachine.ExpiredSplits | net/TimerQueue.cpp:225-231 | lower_bound with the (now, UINTPTR_MAX) sentry splits timers_ into those due by now and those later |
| TimerMachine.ResetDeadline | net/TimerQueue.cpp:33-47 | howMuchTimeFromNow arms for the expiration, but never for less than 100 microseconds, and gives a normal timespec |
| TimerMachine.SetExactly | net/TimerQueue.cpp:130-268 | where the kernel timer is set and to what: a new earliest timer and the end of handleRead set it for the earliest expiration, but at least 100 microseconds ahead; handleRead consumes an expiration that has come; nothing else touches it |
| TimerMachine.InsertExactly | net/TimerQueue.cpp:130-139 | addTimerInLoop puts exactly this timer into both indices |
| TimerMachine.ResetExactly | net/TimerQueue.cpp:255-264 | reset schedules the next timer of the batch again, its interval after the batch was taken, exactly if it repeats and is not marked, and deletes it otherwise |
| TimerMachine.MarksExactly | net/TimerQueue.cpp:156-200 | the marks are those of the cancels made during the callbacks of the batch now firing that found no scheduled timer |
| TimerMachine.ResetFirstKeepsInv | net/TimerQueue.cpp:255-264 | one iteration of the loop in reset reads a live timer and keeps the invariant, whatever callbacks and the destructors run by earlier iterations cancelled or added |
| TimerMachine.AddTimerKeepsInv | net/TimerQueue.cpp:130-139 | insertion, also from a callback or from a destructor inside cancelInLoop or reset, keeps the invariant and leaves the timerfd armed in time |
| TimerMachine.CancelKeepsInv | net/TimerQueue.cpp:141-161 | a cancel of any id, also of the head, from a callback, or from a destructor that another cancel or reset runs, keeps the invariant |
| TimerMachine.StartKeepsInv | net/TimerQueue.cpp:190-200 | taking the expired batch moves its timers from both indices into the batch and keeps the invariant |
| TimerMachine.StepKeepsInv | net/TimerQueue.cpp:117-268 | every step (allocation, insertion, cancel up to and after its delete, batch, callback, each iteration of reset up to and after its delete), in any order that re-entry from callbacks and destructors allows, keeps the invariant: both indices describe the same live timers, ownership, sequence numbers, arming |
| TimerMachine.EveryRunIsSafe | net/TimerQueue.cpp:117-268 | over every run, re-entry from destructors included: each live timer is in exactly one of waiting for insertion, scheduled, in the expired batch; no timer is deleted twice, and every created timer that is not live was deleted; callbacks are never early; a one-shot timer fires at most once, for the expiration it was created with; between batches the timerfd is armed no later than the earliest expiration or 100 microseconds after it was set |
| TimerMachine.NoTimerIsLost | net/TimerQueue.cpp:117-268 | over every run from the empty queue, each timer ever created is live or deleted, never both |
| TimerMachine.SameSize | net/TimerQueue.cpp:163-187 | indices that describe the same timers have the same size |
| TimerMachine.SizesDiffer | net/TimerQueue.cpp:141-161 | activeTimers_ has one member more than timers_ for each cancelInLoop between its two erasures |
| TimerMachine.AssertionsExactly | net/TimerQueue.cpp:141-187 | the assertions on sizes in cancelInLoop, insert and getExpired hold throughout a run if and only if no destructor run by cancelInLoop's delete cancels or inserts a timer |
| TimerMachine.SecondDeleteExactly | net/TimerQueue.cpp:146-155 | a cancel finds its id in activeTimers_ with the timer deleted already exactly if a cancel of that id is under way |
| TimerMachine.ReentryRun | net/TimerQueue.cpp:150-155 | a run from the empty queue in which the destructor of a cancelled timer's callback inserts a timer: the assertion at the head of insert fails; had it cancelled the same id, the cancel would find the deleted timer |
| TimerMachine.CancelMarks | net/TimerQueue.cpp:141-161 | a cancel that finds its timer scheduled deletes it at once; one that finds it in the batch is recorded unless it is lost, that is made in reset on a repeating, unmarked timer still to come; no cancel gives a further run |
| TimerMachine.CancelledStep | net/TimerQueue.cpp:141-268 | no step schedules a cancelled timer again or gives it another run |
| TimerMachine.CancelledRun | net/TimerQueue.cpp:141-268 | over every later run a timer whose cancel was not lost is never scheduled and runs at most once more, only if its turn in the batch then firing was still to come |
| TimerMachine.LostRun | net/TimerQueue.cpp:255-264 | from a lost cancel on, in every run, reset has not come to the timer yet or has scheduled it again |
| TimerMachine.CancelLostExactly | net/TimerQueue.cpp:141-268 | a cancel of an inserted timer fails to keep it from being scheduled again, in some run, if and only if reset is under way and has still to come to it and the timer repeats and is not marked |
| TimerMachine.LostCancelRun | net/TimerQueue.cpp:205-264 | a run from the empty queue in which the destructor of a one-shot timer's callback, run by reset, cancels a repeating timer of the same batch, which is scheduled again |
| TimerMachine.StaleCancel | net/TimerQueue.cpp:141-161 | an id whose sequence number is not that of the timer now at its address changes nothing for any live timer |
| TimerMachine.BatchIsDue | net/TimerQueue.cpp:212-244 | the expired batch is exactly the timers due, in order, and the rest stays |
| TimerMachine.TimersKeepIdentity | net/Timer.cpp:13-23 | no step changes a live timer but restart in reset, which sets a repeating one to now + interval |
| TimerQueue.TimerQueue.constructor | net/TimerQueue.cpp:91-101 | starts empty, as the empty run |
| TimerQueue.TimerQueue.Sizes | net/TimerQueue.cpp:141-187 | the two sizes that the assertions compare differ by the number of cancels under way |
| TimerQueue.TimerQueue.AddTimer | net/TimerQueue.cpp:117-122 | allocates a timer under a fresh sequence number and returns its id |
| TimerQueue.TimerQueue.AddTimerInLoop | net/TimerQueue.cpp:130-139 | inserts and re-arms the timerfd if the earliest expiration changed, wherever user code runs |
| TimerQueue.TimerQueue.Insert | net/TimerQueue.cpp:163-187 | adds the timer to both indices and says whether it is the earliest |
| TimerQueue.TimerQueue.BeginCancel | net/TimerQueue.cpp:141-154 | cancelInLoop up to the destruction of the deleted timer's callback: the id is still in activeTimers_ |
| TimerQueue.TimerQueue.FinishCancel | net/TimerQueue.cpp:155-160 | cancelInLoop after it: exactly this id leaves activeTimers_ |
| TimerQueue.TimerQueue.UserCode | net/TimerQueue.cpp:117-161 | any cancels and insertions on the loop thread, nested through destructors, with other threads adding timers in between, are runs of the machine and leave the batch, the phase and the cancels under way alone |
| TimerQueue.TimerQueue.CancelInLoop | net/TimerQueue.cpp:141-161 | cancelInLoop with arbitrary user code between its two erasures: unless the cancel is lost, a timer it found inserted is recorded as cancelled and is no more in activeTimers_ |
| TimerQueue.TimerQueue.GetExpired | net/TimerQueue.cpp:212-244 | moves the expired prefix out of both indices |
| TimerQueue.TimerQueue.BeginRead | net/TimerQueue.cpp:190-200 | handleRead up to its first callback |
| TimerQueue.TimerQueue.RunTimer | net/TimerQueue.cpp:202-204 | the next callback belongs to a live timer that is due |
| TimerQueue.TimerQueue.StartReset | net/TimerQueue.cpp:255-264 | one iteration of the loop in reset up to the destruction of the deleted timer's callback: deletes exactly the timers that are not to be rescheduled |
| TimerQueue.TimerQueue.ResetTimer | net/TimerQueue.cpp:255-264 | one iteration with arbitrary user code behind its delete: the timer is rescheduled as the machine's step does, or is deleted |
| TimerQueue.TimerQueue.Reset | net/TimerQueue.cpp:252-268 | the loop, with arbitrary user code behind each delete, as a run of the machine; then the kernel timer is armed for exactly the earliest expiration left, or 100 microseconds ahead if that is sooner |
| TimerQueue.TimerQueue.HandleRead | net/TimerQueue.cpp:190-208 | with arbitrary callbacks and destructors: the callbacks fired are those of the due timers, in order, once each; afterwards the kernel timer is armed for exactly the earliest expiration, or 100 microseconds ahead if that is sooner |
| LoopMachine.StepKeepsInv | net/EventLoop.cpp:108-280 | every step of the loop thread and of other threads keeps the invariant on functor queues, eventfd and phases |
| LoopMachine.NoLostWakeup | net/EventLoop.cpp:175-186 | over every run: pushed functors are executed ++ in flight ++ pending in FIFO order; while the loop polls with a functor pending, or with quit_ set, the eventfd is positive or some thread is before its wakeup(), unless the loop thread itself queued all pending functors with callingPendingFunctors_ off (before loop(), or from destructors of executed functors) |
| LoopMachine.WokenExactly | net/EventLoop.cpp:175-186 | from outside loop() or from the destruction of executed functors to the next poll: the loop is woken if and only if it was, or another thread queued a functor or called quit since |
| LoopMachine.FirstPollExactly | net/EventLoop.cpp:108-119 | the first poll has everything queued so far pending and is woken if and only if another thread queued a functor or called quit |
| LoopMachine.PollsWithNothingInFlight | net/EventLoop.cpp:108-141 | when the loop polls everything taken has been executed |
| LoopMachine.PollCanReturn | net/EventLoop.cpp:262-270 | such a poll can return at once or after one pending wakeup() |
| LoopMachine.QueuedBeforeLoopIsNotWoken | net/EventLoop.cpp:182 | a functor that the loop thread queues before loop() gets no wakeup: the first poll blocks with it pending |
| LoopMachine.QueuedByDestructorIsNotWoken | net/EventLoop.cpp:245-260 | a run in which the destruction of an executed functor queues another, which the next poll blocks on |
| LoopMachine.HistoryExactly | net/EventLoop.cpp:143-280 | over every run: what was queued is what the calls queued, in order; the eventfd counts the wakeups since it was last read, up to its maximum; just the threads between push or quit and wakeup owe one |
| LoopMachine.GoesOn | net/EventLoop.cpp:108-280 | neither the loop thread nor another is ever stuck |
| LoopMachine.AnnouncedExactly | net/EventLoop.cpp:175-186 | over every run, a functor that the loop thread queues gets a wakeup exactly if functors are running |
| LoopMachine.QuitExactly | net/EventLoop.cpp:108-153 | over every run, the loop condition is false if and only if quit was called on some thread since loop() started; then the loop is left |
| LoopMachine.QuitStops | net/EventLoop.cpp:143-153 | after quit, on whatever thread, until loop() is started again: at most one poll returns, the one the loop may be in, and that one is woken; every test of quit_ leaves the loop |
| EventLoop.EventLoop.constructor | net/EventLoop.cpp:53-78 | starts with no functor queued, as the empty run |
| EventLoop.EventLoop.Wakeup | net/EventLoop.cpp:262-270 | wakeup on the loop thread |
| EventLoop.EventLoop.PushForeign | net/EventLoop.cpp:175-180 | queueInLoop on another thread, up to its wakeup |
| EventLoop.EventLoop.QuitForeign | net/EventLoop.cpp:143-153 | quit on another thread, up to its wakeup: quit_ is set |
| EventLoop.EventLoop.QuitLocal | net/EventLoop.cpp:143-153 | quit on the loop thread: quit_ is set |
| EventLoop.EventLoop.PushLocal | net/EventLoop.cpp:175-180 | queueInLoop on the loop thread, up to its test for wakeup |
| EventLoop.EventLoop.QueueInLoop | net/EventLoop.cpp:175-186 | queueInLoop on the loop thread, from callbacks, functors, their destructors or outside loop(), other threads acting in between: the functor is queued, and announced exactly if callingPendingFunctors_ is set |
| EventLoop.EventLoop.HandleRead | net/EventLoop.cpp:272-280 | the read empties the eventfd |
| EventLoop.EventLoop.SwapFunctors | net/EventLoop.cpp:250-253 | the locked swap takes all pending functors |
| EventLoop.EventLoop.DoPendingFunctors | net/EventLoop.cpp:245-260 | everything queued before the call is executed, in order; exactly what was queued after the swap is left, what the destruction of the executed functors queues included |
| EventLoop.EventLoop.RunNext | net/EventLoop.cpp:255-258 | one functor runs and what it queues is queued |
| EventLoop.EventLoop.ReleaseFunctors | net/EventLoop.cpp:247-260 | the destruction of the local vector: functors it queues stay pending and none runs |
| EventLoop.EventLoop.TestQuit | net/EventLoop.cpp:115 | the loop stops if and only if quit was called since loop() started |
| EventLoop.EventLoop.StartLooping | net/EventLoop.cpp:111-113 | loop() resets quit_ |
| EventLoop.EventLoop.Poll | net/EventLoop.cpp:118-119 | the wakeup channel is reported only if the eventfd is positive |
| EventLoop.EventLoop.Loop | net/EventLoop.cpp:108-141 | the loop, for as many polls as scripted, as a run of the machine; no announced functor is lost where it stops |
| ServerMachine.StepKeepsInv | net/TcpServer.cpp:72-126 | every step of every loop and thread keeps each connection's life cycle, the table, and the events under way consistent |
| ServerMachine.EveryConnectionLivesOnce | net/TcpServer.cpp:72-126 | in every interleaving: connectEstablished runs or is queued exactly once per connection; handleClose at most once, after it; connectDestroyed at most once, after closing and after leaving the map; the map erase never misses |
| ServerMachine.EstablishKeepsConns | net/TcpConnection.cpp:404-413 | a queued connectEstablished finds its connection in kConnecting, as the source asserts, and leaves every connection's life consistent |
| ServerMachine.CloseKeepsConns | net/TcpConnection.cpp:152-165 | handleClose on an open connection leaves every connection's life consistent, with exactly one removal or destruction queued for it |
| ServerMachine.RemoveKeepsConns | net/TcpServer.cpp:109-126 | a queued removal finds its entry in the map, as the source asserts, and leaves every connection's life consistent |
| ServerMachine.TaskKeepsInv | net/TcpConnection.cpp:340-348 | each queued functor (connectEstablished, removal, connectDestroyed, forceCloseInLoop) keeps the invariant, whatever the connection's state has become |
| ServerMachine.InitialInv | net/TcpServer.cpp:17-32 | the invariant holds at the start |
| ServerMachine.DestroyedOutsideHandling | net/TcpConnection.cpp:173-181 | connectDestroyed runs on the connection's loop among the functors, never inside event handling of its channel, after the channel was disabled |
| ServerMachine.RunTaskIs | net/EventLoop.cpp:255-258 | running a queued functor, and that connectDestroyed then finds no events of interest |
| ServerMachine.CloseEntry | net/TcpConnection.cpp:152-165 | handleClose is entered in kConnected or kDisconnecting, once, and leaves kDisconnected |
| ServerMachine.WrittenAssertionHolds | net/TcpConnection.cpp:155 | over every run, the assertion as written holds at those entries if and only if no call of shutdown, forceCloseWithDelay or forceClose has found the connection up |
| ServerMachine.ShutdownThenEndOfFile | net/TcpConnection.cpp:155 | a shutdown before a read at end of file makes the written assertion fail |
| ServerMachine.EventCloses | net/Channel.cpp:72-97 | the callbacks of an open connection's event call handleClose once if the event has HUP without IN, or has IN, PRI or RDHUP and the read meets the end of file, and not otherwise |
| ServerMachine.ForcedExactly | net/TcpConnection.cpp:318-338 | over every run, a thread may queue forceCloseInLoop for a connection if and only if a call of forceClose has found it open |
| ServerMachine.ForceCloseQueues | net/TcpConnection.cpp:318-326 | forceCloseInLoop gets into the queue of the connection's own loop |
| ServerMachine.ForceCloseCloses | net/TcpConnection.cpp:340-348 | forceCloseInLoop closes the connection exactly if it is still open, and otherwise changes nothing |
| ServerMachine.ClosesTwiceExactlyOnBadEvents | net/Channel.cpp:72-97 | an event lets handleClose run twice exactly when it has HUP without IN but with PRI or RDHUP |
| ServerMachine.ShutdownRun | net/TcpConnection.cpp:155 | a run from the start in which handleClose is entered in kDisconnecting |
| ServerMachine.BadEventRun | net/Channel.cpp:72-97 | a run from the start after which such an event closes a connection twice and the second erase misses |
| ServerMachine.StartReadAfterClose | net/TcpConnection.cpp:379-387 | startReadInLoop does not test the state: between handleClose and connectDestroyed it makes the assertion of Channel::remove fail, exactly if it turns events on |
| ServerMachine.StartReadRun | net/TcpConnection.cpp:379-387 | a run from the start behind which startRead makes connectDestroyed leave events of interest for Channel::remove to trip on, while without startRead it leaves none |
| ServerMachine.BadEventErasesTwice | net/TcpServer.cpp:120-122 | then the second erase finds no entry |
| TcpServer.TcpServer.constructor | net/TcpServer.cpp:17-32 | starts with no connection |
| TcpServer.TcpServer.NewConnection | net/TcpServer.cpp:72-106 | takes the Accept step, invariant kept: the new connection was not in the map and is, with connectEstablished run or queued exactly once |
| TcpServer.TcpServer.ConnectDestroyed | net/TcpConnection.cpp:173-181 | also disables a connection that is still connected |
| TcpServer.TcpServer.RunFunctor | net/EventLoop.cpp:255-258 | one queued functor of a loop, invariant kept |
| TcpServer.TcpServer.NextCallback | net/Channel.cpp:76-95 | one of the callbacks as a step of the machine, invariant kept |
| TcpServer.TcpServer.HandleEventWithGuard | net/Channel.cpp:72-97 | the callbacks in the source's order keep the invariant; handleClose has run once for the connection, and it is disconnected, exactly if the event has HUP without IN, or has IN, PRI or RDHUP and the read meets the end of file |
| TcpServer.TcpServer.HandleActiveChannels | net/EventLoop.cpp:126-138 | every event of a poll is handled, and exactly those that tell so have closed their connection |
| TcpServer.TcpServer.ForceClose | net/TcpConnection.cpp:318-326 | of an open connection it goes on to queue forceCloseInLoop, and sends are refused from now on |
| TcpServer.TcpServer.Perform | net/TcpServer.cpp:72-126 | any one step of any loop or thread, invariant kept |
| TcpServer.TcpServer.Drive | net/TcpServer.cpp:72-126 | over any run of steps the object reaches the state of the machine's run, so that what holds of every run holds of it |
| OutputMachine.StepKeepsInv | net/TcpConnection.cpp:117-316 | every step, with any result of write, keeps stream, write interest, half-close and high-water state consistent |
| OutputMachine.StreamIntegrity | net/TcpConnection.cpp:117-294 | over every run of partial writes and errors: kernel bytes ++ output buffer is the in-order concatenation of the accepted messages; writing is enabled iff output is pending until the close; two high-water notifications are separated by pending output below the mark |
| OutputMachine.SendSplits | net/TcpConnection.cpp:245-294 | where the bytes of a message go: its own write comes first if nothing is pending, the rest becomes pending; behind pending output all of it becomes pending; it is dropped exactly if its own write met EPIPE or ECONNRESET |
| OutputMachine.WriteMoves | net/TcpConnection.cpp:117-138 | handleWrite passes exactly the bytes its write took from the front of the pending output to the kernel |
| OutputMachine.Drains | net/TcpConnection.cpp:117-138 | over every run without sends and close, the kernel gets the first so many pending bytes in order as the writes took; when they took all, nothing is pending and writing is off |
| OutputMachine.NoticeExactly | net/TcpConnection.cpp:277-284 | the high-water callback is queued exactly when a send takes the pending output from below the mark to it or beyond, with the size reached |
| OutputMachine.ClosedForGood | net/TcpConnection.cpp:152-165 | over every run after a close nothing more is accepted or sent |
| OutputMachine.ShutdownHalfCloses | net/TcpConnection.cpp:297-316 | after shutdown on an open connection shutdownInLoop does come, whatever comes first, and makes the half-close exactly if writing is off |
| OutputMachine.SendIsWhole | net/TcpConnection.cpp:245-294 | a message is accepted whole, or refused when disconnected, or dropped on EPIPE or ECONNRESET of its own write; it never overtakes pending output |
| OutputMachine.SeparatedNotices | net/TcpConnection.cpp:280-284 | between two notifications some moment had less than the mark pending |
| OutputMachine.HalfClose | net/TcpConnection.cpp:297-316 | shutdownWrite is called at most once, and with all accepted bytes in the kernel unless the connection closed while writing, exactly |
| OutputMachine.SkippedHalfCloseIsLost | net/TcpConnection.cpp:117-138 | a skipped half-close is never retried |
| OutputMachine.HalfCloseWithOutputUnsent | net/TcpConnection.cpp:308-316 | a run in which shutdownWrite comes with output unsent |
| TcpConnection.TcpConnection.constructor | net/TcpConnection.cpp:35-58 | starts connecting, with an empty buffer |
| TcpConnection.TcpConnection.Pend | net/TcpConnection.cpp:276-293 | buffers the rest, notifies the high-water mark, enables writing |
| TcpConnection.TcpConnection.SendInLoop | net/TcpConnection.cpp:245-294 | direct write, drop, or buffering over the Buffer object: what the direct write took is in the kernel and the rest behind what was pending; invariant kept |
| TcpConnection.TcpConnection.HandleWrite | net/TcpConnection.cpp:117-138 | the bytes the write took go from the front of the Buffer object to the kernel; writing stays enabled exactly while output is pending; invariant kept |
| TcpConnection.TcpConnection.Shutdown | net/TcpConnection.cpp:297-306 | invariant kept; of all calls together at most one half-close comes or has come |
| TcpConnection.TcpConnection.ShutdownInLoop | net/TcpConnection.cpp:308-316 | invariant kept; a half-close is the only one, and then the kernel has all accepted bytes unless the connection was closed while writing |
| TcpConnection.TcpConnection.ForceClose | net/TcpConnection.cpp:318-338 | invariant kept: no pending byte is given up, and the connection takes no further sends from other threads |
| TcpConnection.TcpConnection.HandleClose | net/TcpConnection.cpp:152-158 | invariant kept; writing is off, and accepted bytes are unsent exactly if it was on |
| TcpConnection.TcpConnection.ForceCloseInLoop | net/TcpConnection.cpp:340-348 | invariant kept; afterwards the connection is not open, and closing one that is not open changes nothing |
| TcpConnection.TcpConnection.Drive | net/TcpConnection.cpp:117-348 | over any run of steps the object reaches the state of the machine's run, so that what holds of every run holds of it |
| Endian.MostSignificantFirst | net/Endian.h:21-43 | network order: the most significant byte comes first, at every width |
| Endian.DecodeEncode | net/Endian.h:21-43 | every signed integer of a width survives encoding and decoding |
| Endian.EncodeDecode | net/Endian.h:21-43 | every byte string is the encoding of what it decodes to |
| Buffer.FindCRLFIsFirst | net/Buffer.h:56-61 | findCRLF finds the first CRLF, or there is none |
| Buffer.IntegersReadBack | net/Buffer.h:195-291 | the bytes read determine the integer |
| Buffer.Buffer.constructor | net/Buffer.h:25-33 | empty, with the assertions of the source |
| Buffer.Buffer.Peek | net/Buffer.h:146-149 | the readable bytes |
| Buffer.Buffer.Retrieve | net/Buffer.h:87-98 | drops a prefix of the readable bytes |
| Buffer.Buffer.RetrieveAll | net/Buffer.h:127-131 | empties the queue |
| Buffer.Buffer.RetrieveAsString | net/Buffer.h:138-144 | returns the prefix it drops |
| Buffer.Buffer.MakeSpace | net/Buffer.h:360-379 | keeps the readable bytes, makes the room asked for; its assertions hold; storage at most the larger of the old size and readable + 2 * len + 7 |
| Buffer.Buffer.EnsureWritableBytes | net/Buffer.h:168-175 | makes the room asked for, or changes nothing if it is there; the readable bytes stay |
| Buffer.Buffer.Append | net/Buffer.h:156-161 | appends to the queue, with the same bound on storage |
| Buffer.Buffer.HasWritten | net/Buffer.h:183-187 | the bytes written in place become readable |
| Buffer.Buffer.Unwrite | net/Buffer.h:189-193 | drops a suffix |
| Buffer.Buffer.Prepend | net/Buffer.h:322-328 | puts bytes in front |
| Buffer.Buffer.Shrink | net/Buffer.h:330-337 | keeps the readable bytes and the reserve, with a bound on storage |
| Buffer.Buffer.AppendInt | net/Buffer.h:195-216 | appends the encoding |
| Buffer.Buffer.PrependInt | net/Buffer.h:296-320 | prepends the encoding |
| Buffer.Buffer.PeekInt | net/Buffer.h:259-291 | the integer whose encoding is in front |
| Buffer.Buffer.ReadInt | net/Buffer.h:223-253 | removes it: undoes PrependInt |
| Buffer.Buffer.FindCRLFIndex | net/Buffer.h:56-61 | findCRLF on the readable bytes |
| Buffer.Buffer.ReadFd | net/Buffer.cpp:27-59 | all bytes of a scatter read are appended in order across buffer and stack area; an error changes nothing |
| FixedBuffer.FixedBuffer.constructor | base/LogStream.h:30-34 | empty |
| FixedBuffer.FixedBuffer.Append | base/LogStream.h:40-48 | appends if a byte stays free, otherwise nothing |
| FixedBuffer.FixedBuffer.Add | base/LogStream.h:56 | commits bytes written in place |
| FixedBuffer.FixedBuffer.Reset | base/LogStream.h:58 | empties |
| LoggingMachine.StepKeepsInv | base/AsyncLogging.cpp:40-156 | every step of the appending threads and the writing thread keeps the invariant |
| LoggingMachine.HistoryExactly | base/AsyncLogging.cpp:40-127 | over every run, the history is that of the calls: each message appended, each exchange, each buffer written |
| LoggingMachine.BuffersConserved | base/AsyncLogging.cpp:40-152 | no buffer has two owners or none: append makes one exactly when the current is full and the spare is used up, the cut frees all but two, the refills keep just the spares |
| LoggingMachine.Conservation | base/AsyncLogging.cpp:40-127 | over every interleaving: batches ++ full buffers ++ current buffer are exactly the messages shorter than a buffer, in lock order; file bytes ++ rest of the batch in hand are exactly the kept buffers of all batches; so without cuts file, batch and buffers are all those messages |
| LoggingMachine.MissingExactly | base/AsyncLogging.cpp:111-127 | with cuts, what the file holds of each batch: all of it, or after a notice the first two buffers of more than 25 |
| LoggingMachine.RecyclingNeverRunsDry | base/AsyncLogging.cpp:85-152 | the loop-head assertions hold under any interleaving, both refills find a buffer, a null nextBuffer_ implies a full buffer at every unlock |
| AsyncLogging.RoundsAreRun | base/AsyncLogging.cpp:71-156 | the loop of threadFunc, whatever other threads append meanwhile, is a run of the machine |
| LoggingMachine.AppendKeepsStream | base/AsyncLogging.cpp:40-62 | a message goes behind all bytes there are, once, or nowhere if it does not fit a whole buffer |
| LoggingMachine.ExchangeKeepsInv | base/AsyncLogging.cpp:92-105 | the exchange loses and reorders nothing and keeps the invariant |
| LoggingMachine.RefillKeepsInv | base/AsyncLogging.cpp:129-152 | the refills re-establish two empty spare buffers |
| AsyncLogging.AsyncLogging.constructor | base/AsyncLogging.cpp:13-31 | two empty front buffers and two spares |
| AsyncLogging.AsyncLogging.Append | base/AsyncLogging.cpp:40-62 | takes exactly the machine's Append step, invariant kept |
| AsyncLogging.AsyncLogging.Exchange | base/AsyncLogging.cpp:92-105 | the critical section of the back end |
| AsyncLogging.AsyncLogging.Trim | base/AsyncLogging.cpp:111-120 | more than 25 buffers are cut to two after a notice |
| AsyncLogging.AsyncLogging.WriteBatch | base/AsyncLogging.cpp:123-127 | the loop writes every buffer of the batch in order |
| AsyncLogging.AsyncLogging.Refill | base/AsyncLogging.cpp:129-152 | both spares are empty buffers again; the source's assertions hold |
| AsyncLogging.AsyncLogging.TurnLoop | base/AsyncLogging.cpp:85-154 | one turn with appends by other threads in between |
| AsyncLogging.AsyncLogging.ThreadFunc | base/AsyncLogging.cpp:71-156 | the loop: all turns of a schedule; where it stops the file is the output of all its batches |
| QueueMachine.StepKeepsInv | base/BoundedBlockingQueue.h:33-69 | every step of every thread, spurious wakeups included, keeps the invariant |
| QueueMachine.FirstInFirstOut | base/BoundedBlockingQueue.h:33-69 | items leave in order, each exactly once, and never exceed the capacity |
| QueueMachine.SleepersAreCovered | base/BoundedBlockingQueue.h:33-69 | while a consumer sleeps, the queue is no longer than the number of notified consumers yet to run; dually for producers and free slots |
| QueueMachine.AllAsleepForCause | base/BoundedBlockingQueue.h:33-69 | if all threads sleep, consumers do so on an empty queue and producers on a full one |
| QueueMachine.NeverBothAsleep | base/BoundedBlockingQueue.h:33-69 | a producer and a consumer can be asleep with no wakeup in flight if and only if the capacity is 0 |
| BoundedBlockingQueue.BoundedBlockingQueue.constructor | base/BoundedBlockingQueue.h:25-31 | empty |
| BoundedBlockingQueue.BoundedBlockingQueue.PutPass | base/BoundedBlockingQueue.h:36-42 | one turn of the wait loop of put, or its end |
| BoundedBlockingQueue.BoundedBlockingQueue.TakePass | base/BoundedBlockingQueue.h:60-68 | one turn of the wait loop of take, or its end |
| BoundedBlockingQueue.BoundedBlockingQueue.Sleep | base/BoundedBlockingQueue.h:36-39 | a wait, during which other threads take any steps |
| BoundedBlockingQueue.BoundedBlockingQueue.Put | base/BoundedBlockingQueue.h:33-43 | the wait loop; on return the item is the last one put |
| BoundedBlockingQueue.BoundedBlockingQueue.Take | base/BoundedBlockingQueue.h:57-69 | the wait loop; on return the result is the last one taken |
| Channel.Channel.EnableReading | net/Channel.h:50 | IN and PRI are set, nothing else changes |
| Channel.Channel.DisableReading | net/Channel.h:51 | IN and PRI are cleared, nothing else changes |
| Channel.Channel.EnableWriting | net/Channel.h:52 | OUT is set, nothing else changes |
| Channel.Channel.DisableWriting | net/Channel.h:53 | OUT is cleared, nothing else changes |
| Channel.Channel.DisableAll | net/Channel.h:54 | no event is left |
| PollerMachine.SwapKeepsIndex | net/poller/PollPoller.cpp:123-134 | removal by swapping with the last entry keeps the back-indices correct and injective |
| PollerMachine.PollStep | net/poller/PollPoller.cpp:70-135 | PollPoller's assertions hold for an operation if and only if the loop meets its demands (among them: no re-registration after removal, no removal of a channel registered bare), and then the invariant is kept |
| PollerMachine.EpollStep | net/poller/EPollPoller.cpp:84-141 | EPollPoller's assertions hold and its ADD, MOD or DEL is legal for the kernel set exactly under its weaker demands, and then the invariant is kept |
| PollerMachine.PollRunKeepsInv | net/poller/PollPoller.cpp:70-135 | PollPoller keeps its invariant over every run that meets its demands, and gets through no other |
| PollerMachine.EpollRunKeepsInv | net/poller/EPollPoller.cpp:84-141 | EPollPoller keeps its invariant over every run that meets its demands, and gets through no other |
| PollerMachine.EpollUpdateExactly | net/poller/EPollPoller.cpp:84-120 | after an update the kernel holds the channel with its events, unless these are none and it held it before; other descriptors stay as they were |
| PollerMachine.EpollRunsExactlyWhenOk | net/poller/EPollPoller.cpp:84-183 | EPollPoller gets through a run, the kernel accepting all it issues, exactly when every operation meets its demands, and then watches exactly the requested nonempty masks |
| PollerMachine.BareChannelIsRemoved | net/poller/PollPoller.cpp:109-119 | a channel registered with no events and then removed trips the assertions of PollPoller only |
| PollerMachine.PollersAgree | net/poller/PollPoller.cpp:70-135 | over every run that meets the demands both pollers watch exactly the requested nonempty mask of every descriptor |
| PollerMachine.PollRunsExactlyWhenOk | net/poller/PollPoller.cpp:70-135 | PollPoller gets through a run exactly when every operation meets the demands |
| PollerMachine.RemovedChannelComesBack | net/poller/PollPoller.cpp:109-135 | the stale index of a removed channel trips PollPoller's assertions, not EPollPoller's |
| Pollers.ActiveOnce | net/poller/PollPoller.cpp:50-68 | no channel is reported twice |
| Pollers.PollPoller.UpdateChannel | net/poller/PollPoller.cpp:70-106 | adds or updates the entry, ignoring it when no events are left; the source's assertions hold |
| Pollers.PollPoller.RemoveChannel | net/poller/PollPoller.cpp:109-135 | swap removal over the Channel objects |
| Pollers.PollPoller.FillActiveChannels | net/poller/PollPoller.cpp:50-68 | the bounded scan finds the channels of all entries with returned events and delivers them |
| Pollers.PollPoller.Poll | net/poller/PollPoller.cpp:24-48 | those channels exactly, or none on an error |
| Pollers.PollPoller.Perform | net/poller/PollPoller.cpp:70-135 | one request of the loop that meets the demands, over the Channel objects, as the machine's step, invariant kept |
| Pollers.PollPoller.Drive | net/poller/PollPoller.cpp:70-135 | over any run of requests that meets the demands the objects follow the machine, and exactly the requested nonempty masks are watched |
| Pollers.EPollPoller.UpdateChannel | net/poller/EPollPoller.cpp:84-120 | the kNew/kAdded/kDeleted machine over the Channel objects |
| Pollers.EPollPoller.RemoveChannel | net/poller/EPollPoller.cpp:122-141 | leaves the kernel set and resets the index |
| Pollers.EPollPoller.Poll | net/poller/EPollPoller.cpp:53-79 | delivers every report to its channel and doubles a full list |
| Pollers.EPollPoller.Perform | net/poller/EPollPoller.cpp:84-141 | one request of the loop that meets the demands, over the Channel objects, as the machine's step, invariant kept |
| Pollers.EPollPoller.Drive | net/poller/EPollPoller.cpp:84-141 | over any run of requests that meets the demands the objects follow the machine, and the kernel watches exactly the requested nonempty masks |
| HttpSyntax.ParseTerminates | net/http/HttpContext.cpp:11-57 | the loop ends if and only if it is entered in kExpectRequestLine or kExpectHeaders |
| HttpSyntax.TurnConsumes | net/http/HttpContext.cpp:17-50 | a turn that goes on has consumed a line and waits for another |
| HttpSyntax.ParseInTwo | net/http/HttpContext.cpp:11-57 | parsing a, then what is left followed by b, is parsing a ++ b |
| HttpSyntax.ChunkIndependence | net/http/HttpContext.cpp:11-57 | for every byte string and every cut into pieces: result, state, request and unread bytes are those of parsing at once |
| HttpSyntax.RequestLineExact | net/http/HttpContext.cpp:60-98 | processRequestLine succeeds on exactly the lines method SP target SP version of its methods and versions, and path ++ query is the target, split at its first question mark |
| HttpSyntax.RequestLineParses | net/http/HttpContext.cpp:60-98 | such a line parses to its parts |
| HttpSyntax.ValueIsTrimmed | net/http/HttpRequest.h:67-79 | a header value is the bytes behind the colon less the tabs, line feeds, vertical tabs, form feeds, carriage returns and spaces at either end, and no less |
| HttpSyntax.HeadersParse | net/http/HttpContext.cpp:32-50 | header fields rendered with any number of spaces and tabs before and behind the value parse back, a later field of one name winning |
| HttpSyntax.RenderThenParse | net/http/HttpContext.cpp:11-98 | a well-formed request (sections 3.1.1 and 3.2 of RFC 7230) parses back to itself, whatever optional white space its fields are written with, and what follows it stays unread |
| HttpSyntax.LineWithoutColonEndsHeaders | net/http/HttpContext.cpp:36-46 | any line without a colon ends the headers, not only an empty one |
| HttpSyntax.CallAfterFailure | net/http/HttpRequest.h:27-38 | after a failed call the next one trips the assertion of setMethod exactly if the failed one had recognised a method |
| HttpSyntax.GetAndNothingElse | net/http/HttpRequest.h:27-38 | such an input: the line GET with one space |
| HttpSyntax.LiteralRequest | net/http/HttpContext.cpp:11-98 | a request given byte by byte parses to its fields given byte by byte |
| Http.HttpRequest.constructor | net/http/HttpRequest.h:22 | an empty request |
| Http.HttpRequest.SetMethod | net/http/HttpRequest.h:27-38 | knows exactly the five methods |
| Http.HttpRequest.AddHeader | net/http/HttpRequest.h:67-79 | stores, under the bytes before the colon, the part of the line behind it without those six bytes at its ends |
| Http.HttpContext.ProcessRequestLine | net/http/HttpContext.cpp:60-98 | the request object ends as the specification says, on success and on failure |
| Http.HttpContext.ProcessTarget | net/http/HttpContext.cpp:68-95 | the part behind the method |
| Http.HttpContext.TakeLine | net/http/HttpContext.cpp:15-55 | one turn of the loop |
| Http.HttpContext.ParseRequest | net/http/HttpContext.cpp:11-57 | terminates, and takes from the Buffer exactly what Parse takes from its bytes |
| Http.HttpContext.Reset | net/http/HttpContext.h:32-37 | back to the start |
| NumberText.DecimalReadsBack | base/LogStream.cpp:46-65 | the text of every integer is canonical and reads back as that integer |
| NumberText.CanonicalIsDecimal | base/LogStream.cpp:46-65 | every canonical decimal text is the text of what it reads as |
| NumberText.DigitsReadBack | base/LogStream.cpp:68-82 | the digits of a number in base 10 or 16 are canonical and read back as it |
| NumberText.CanonicalIsDigits | base/LogStream.cpp:68-82 | canonical digits in base 10 or 16 are the digits of the number they read as |
| NumberText.KnownTexts | base/LogStream.cpp:46-82 | -907 and BEEF |
| NumberText.DecimalFits | base/LogStream.h:184 | a 64-bit integer with its NUL takes at most 22 of the 32 bytes |
| NumberText.PointerFits | base/LogStream.cpp:291-303 | a pointer with its prefix and NUL takes at most 19 of the 32 bytes |
| LogStream.TruncatedDigit | base/LogStream.cpp:37-55 | C's % and / on a negative number and the mirrored digit table give the digits of the magnitude |
| LogStream.ReverseRange | base/LogStream.cpp:62 | reversal in place of a part of the array |
| LogStream.Convert | base/LogStream.cpp:46-65 | the text, then a NUL, and nothing else of the array changes |
| LogStream.ConvertHex | base/LogStream.cpp:68-82 | the hexadecimal text, then a NUL, and nothing else of the array changes |
| LogStream.LogStream.FormatInteger | base/LogStream.cpp:233-241 | appends the whole text, or nothing if fewer than 32 bytes are free |
| LogStream.LogStream.FormatPointer | base/LogStream.cpp:291-303 | appends 0x and the hexadecimal text, or nothing if fewer than 32 bytes are free |

## Left out

- TimeZone.UtcRoundTrip: integers are unbounded; `TimeZone.UtcFitsInt` says up to which day the source's int variables hold them.
- TimeZone.ZoneRoundTrip: gmtime_r and timegm are taken to be the library's own toUtcTime and fromUtcTime, which the source names as their replacements; reading a zone file is left out, its table is an input.
- TimerMachine.EveryRunIsSafe: times are unbounded integers on one monotone clock and intervals are whole microseconds; cancelling a timer whose insertion another thread has queued but not run is a cancel that finds nothing; the destructor of the queue itself is left out.
- TimerQueue.TimerQueue.UserCode: does not cancel a timer from that timer's own destructor, which deletes it twice; `TimerMachine.SecondDeleteExactly` says when that is.
- LoopMachine.NoLostWakeup: timer and descriptor events that also make poll return, and the poll timeout, only add returns and are covered by the choice of when poll returns.
- LoopMachine.StepKeepsInv: exceptions from functors and callbacks are left out.
- EventLoop.EventLoop.Loop: cut off after a given number of polls, since the source's loop need not end.
- ServerMachine.EveryConnectionLivesOnce: queued functors of a loop may run in any order, and a functor may run later than FIFO order allows; checks and changes of `state_` by other threads are taken as atomic; the destructor of TcpServer and of connections, and the lapse of a weak tie, are left out.
- ServerMachine.DestroyedOutsideHandling: startRead and stopRead are taken to run only while the connection is open; startReadInLoop does not test that, and `ServerMachine.StartReadAfterClose` shows what it does after a close.
- OutputMachine.StreamIntegrity: one high-water mark per run and callbacks set throughout; the write-complete callback is left out; `connectDestroyed` on an open connection acts on this part as `handleClose` does.
- LoggingMachine.Conservation: the file is the sequence of calls of append on LogFile; rolling and flushing, which only split or push out that sequence, are left out, and so is what is still in the buffers when stop() ends the writer.
- BoundedBlockingQueue.BoundedBlockingQueue.Put: given up after a number of turns, since the source's wait need not end; the queue is a sequence, the ring of boost::circular_buffer is not modelled. Take likewise.
- PollerMachine.PollersAgree: for masks with no events the two differ by design (an ignored entry against no entry or an empty one).
- Buffer.Buffer.Append: storage is the size of the vector, not its capacity; data that points into the same Buffer is left out. ReadFd likewise.
- HttpSyntax.ChunkIndependence: the receive time, which is the time of the call that completes the request line, is left out; isspace is that of the C locale.
- System calls, sockets, errno text, logging inside the library, thread and mutex wrappers.
- Connector, TcpClient, Acceptor, the choice of an I/O loop, ThreadPool: their callbacks do not touch what is modelled here.
- formatSI, formatIEC, floating-point output and Fmt: their digits come from snprintf.
- HttpResponse and HttpServer: concatenation of given strings.
- Duplicate files (`net/TcpServer .cpp`, `net/TcpServer .h`, `base/Logger.*`).
