# Verified core of the collector

This project models the parts of the serial-port collector that are hard to get right and
proves what they are for: the reactor library under `src/port` (timers, buffers, connections,
the event loop, the pollers, the connector) and the utilities under `src/utils` (calendar and
time zones, the asynchronous log, number formatting, the bounded queue, the thread pool).

`dafny verify dfyconfig.toml` checks everything.

## How it is organised

Objects that the program updates in place are classes whose methods follow the program's own
statements. Most of them come with a second module that says the same thing as a transition
system over values (`TimerSystem` for `TimerQueue`, `LogSystem` for `AsyncLogging`,
`ConnSystem` for `TcpConnection`, `PollTable` and `EPollTable` for the pollers,
`ConnectorSystem` for `Connector`). Each method of the class is proved to perform exactly one
step, or one stated sequence of steps, of that system (`View() == Step(old(View()), ...)`),
and the theorems over all runs are lemmas about the system. Protocols between threads
(`EventLoop`, `BoundedBlockingQueue`, `ThreadPool`) are transition systems only: a step is what
a thread does between two points at which others can run, and a run is any interleaving.

System calls are part of the environment: their results are parameters, and their effects on
the kernel (bytes accepted, descriptors registered, timers armed, sockets closed) are recorded
in the state. Condition variables are sets of sleeping and woken threads, and sleepers may also
wake for no reason. Memory that is freed and handed out again is an explicit map from addresses.

`CArith` gives C's truncating division. Integers are otherwise unbounded; where the width of a
machine integer decides something, a lemma says up to which value it is enough
(`Date.DecodeFitsUpTo`, `LogStream.Lengths64`).

## Where the program does not do what one would expect

Each of these is a lemma with the exact condition, or with a concrete run.

- `Date`: decoding a Julian day number gives a calendar date exactly from day -32044
  (1 March -4800) on, and encoding followed by decoding is the identity exactly for dates from
  that day on (`Date.DecodeThenEncode`, `Date.EncodeThenDecode`).
- `Date::weekDay` is negative before day -1, except on Sundays (`Date.WeekDayAdvances`).
- `TimeZone::toUtcTime` gives a day of the year that is one too small in the year -4800
  (`TimeZone.ToUtcTime`).
- `TimeZone`: converting to local time and back is the identity exactly when every time the
  clocks go back it is by 3600 s from daylight saving time to standard time
  (`TimeZone.ZoneRoundTrips`); for other zones `TimeZone.LocalRoundTrip` says which instants fail.
- `AsyncLogging::append` loses exactly the lines that are as long as a buffer or longer
  (`LogSystem.LongLinesAreLost`).
- `TcpConnection`: a shutdown requested from another thread can shut the write side down twice
  (`ConnSystem.ShutTwice`), and `ConnSystem.ShutTwiceExactlyWhen` says exactly when. A message
  sent after the shutdown that meets an error other than EPIPE is buffered and not sent
  (`ConnSystem.BufferedAfterShutdown`).
- `BoundedBlockingQueue` of capacity zero deadlocks a taker and a putter
  (`BoundedBlockingQueue.DeadlockAtZeroCapacity`, `BoundedBlockingQueue.NothingMovesAtZeroCapacity`).
- `ThreadPool::stop` does not release a caller blocked in `run`: it can still get out exactly when
  a slot is free or a worker is past its test (`ThreadPool.StopLetsCallersOutExactlyWhen`,
  `ThreadPool.StopStrandsCaller`).
- `PollPoller`: a channel that has once been disabled is ignored by poll from then on, also after
  it is enabled again; and the assertion in `removeChannel` fails for a channel that has not been
  disabled since it was added (`PollTable.IgnoredExactlyOnceDisabled`). A removed channel keeps
  its index, so it cannot be added again (`PollPoller.Poller.RemovedStaysOut`).
- `Connector`: the assertion in `startInLoop` can fail after `stop` and a second `start`, because a
  retry scheduled before is still due (`ConnectorSystem.StaleRetry`), or because the connection
  succeeded in between and its socket was closed (`ConnectorSystem.ConnectedButClosed`).
  `ConnectorSystem.AssertionCanFailExactlyWhen` gives the exact condition on the connector, and
  `ConnectorSystem.PoliteCallersAreSafe` a rule for callers that excludes it.

## Model

| member | source | states |
|---|---|---|
| `Date.DecodeThenEncode` | src/utils/Date.cpp:10-35 | Decoding a day number gives a calendar date if and only if the number is at least -32044, and then encoding that date gives the number back |
| `Date.EncodeThenDecode` | src/utils/Date.cpp:10-35 | For every calendar date, decoding its number gives the date back if and only if the date is not before 1 March -4800 |
| `Date.JulianCountsDays` | src/utils/Date.cpp:10-18 | From 1 March -4800 on, the next calendar day has the next number, and one date is before another exactly when its number is smaller |
| `Date.NextDayIsNext` | src/utils/Date.cpp:10-18 | With floor division the day count advances by one from each calendar day to the next, for all years |
| `Date.DayOrder` | src/utils/Date.h:75-83 | An earlier calendar date has a smaller day count, so the comparison of dates by number is the order of dates |
| `Date.DayOfCivil` | src/utils/Date.cpp:20-35 | The floor-division decoding yields a calendar date whose day count is the number, for every integer |
| `Date.CivilOfDay` | src/utils/Date.cpp:20-35 | Decoding the day count of a calendar date by floor division gives the date, for every calendar date |
| `Date.WeekDayAdvances` | src/utils/Date.h:64-67 | The weekday is in 0..6 exactly from day -1 on and on earlier Sundays, and from day -1 on it advances by one modulo 7 every day |
| `Date.UnixEpoch` | src/utils/Date.cpp:38 | 1 January 1970 has number 2440588 and is a Thursday |
| `Date.DecodeFitsUpTo` | src/utils/Date.cpp:20-35 | From day -32044 on, all intermediate values of the decoding fit into 32 bits if and only if the number is at most 536838867 |
| `TimeZone.FillHMS` | src/utils/TimeZone.cpp:77-83 | Hour, minute and second are in range, add up to the second of the day, and nothing else changes |
| `TimeZone.ToUtcTime` | src/utils/TimeZone.cpp:332-360 | The exact broken-down time of every instant from day -32044 on, also before 1970; converting back gives the instant; all fields are in range from day -1 on; the date is a calendar date only from day -32044 on |
| `TimeZone.FromUtcOfGmTime` | src/utils/TimeZone.cpp:362-376 | Converting the broken-down UTC of an instant gives the instant, whatever weekday and day of the year it carries |
| `TimeZone.TimeGmOfGmTime` | src/utils/TimeZone.cpp:296-316 | The library's two UTC conversions, as used for local time, are inverse on every instant and in range |
| `TimeZone.InstantZero` | src/utils/TimeZone.cpp:346 | Instant 0 is the beginning of Thursday, 1 January 1970, in both directions and for both conversions from UTC |
| `TimeZone.CalendarOfInstants` | src/utils/TimeZone.cpp:332-360 | From there on, forward and backward, every 86400 seconds are one calendar day and one weekday, and the time of day is the seconds since midnight |
| `TimeZone.FindsTheOneInForce` | src/utils/TimeZone.cpp:238-272 | The local time type returned is the one in force after exactly those transitions that are at or before the sentry |
| `TimeZone.ToLocalTime` | src/utils/TimeZone.cpp:285-305 | The clock shown is that of the instant with the local time type in force after exactly the transitions passed: its offset, its flag, and the fields of the instant moved by the offset |
| `TimeZone.FromLocalTime` | src/utils/TimeZone.cpp:307-330 | From the local time of an instant the instant is recovered, whenever that local time is not repeated or is repeated because daylight saving time ends; in all cases the result is the instant that the round-trip theorems are about |
| `TimeZone.LocalRoundTrip` | src/utils/TimeZone.cpp:285-330 | An instant survives the trip to local time and back if and only if its local time is not repeated, or is repeated because daylight saving time ends by one hour |
| `TimeZone.ZoneRoundTrips` | src/utils/TimeZone.cpp:238-330 | All instants survive the trip if and only if clocks go back only at the end of daylight saving time and by one hour |
| `TimeZone.ShownUnlessSkipped` | src/utils/TimeZone.cpp:238-305 | Some instant has a given local time if and only if clocks do not go forward over it |
| `TimeZone.LocalTimesGivenBack` | src/utils/TimeZone.cpp:285-330 | The other way round, in such zones: a local time converted to an instant and back is given back if and only if it is the local time of some instant, so never a skipped one |
| `TimeZone.WallClockKept` | src/utils/TimeZone.cpp:307-330 | For every local time in every zone, whatever its flag: the trip to an instant and back keeps the wall clock if and only if clocks do not skip it and, where the flag says daylight saving time and the zone does not, the offset an hour earlier was an hour more |
| `TimeZone.WrongFlagMovesClock` | src/utils/TimeZone.cpp:316-327 | A flag set by mistake with no transition in the last hour moves the clock back by an hour; in the hour after daylight saving time has ended it chooses the first pass and keeps the clock |
| `TimerSystem.EveryRunIsOwned` | src/port/TimerQueue.cpp:104-252 | In every run from the empty queue, with callbacks that add and cancel at will, each allocated timer is in both indexes or in the batch being run and not both, every entry and id there belongs to an allocated timer and has its own expiration as key, the indexes have the same size, each timer ever created is either allocated or freed, and none is freed twice |
| `TimerSystem.EveryTimerAsAdded` | src/port/TimerQueue.cpp:104-128 | In every run as many timers are created as added, and each allocated one has the address and interval of the call that added it, and is due at the time given there or one interval after a batch was taken |
| `TimerSystem.AddRecords` | src/port/Timer.h:16-23 | An added timer has the time and interval asked for and the next sequence number, it is put into both indexes, and nothing else changes in them |
| `TimerSystem.BatchRunsTheDue` | src/port/TimerQueue.cpp:152-171 | From a timer event to the end of its batch, whatever is added and cancelled meanwhile, the callbacks of the timers due at the time run, each once and in order, and no others |
| `TimerSystem.FinishSettles` | src/port/TimerQueue.cpp:197-215 | At the end of a batch every timer in it that repeats and was not cancelled meanwhile is in both indexes again, due one interval after the batch was taken, and every other one is freed |
| `TimerSystem.FinishLeavesOthers` | src/port/TimerQueue.cpp:197-215 | Timers that are not in the batch are left as they are |
| `TimerSystem.CancelIsFinal` | src/port/TimerQueue.cpp:130-215 | After a cancel, in every continuation the id is never in the queue again, and its callback runs again at most once and only if it was still ahead in the batch being run |
| `TimerSystem.CancelTouchesOnly` | src/port/TimerQueue.cpp:130-150 | A cancel frees that timer if it is queued, and changes no other timer |
| `TimerSystem.StaleCancelIsInvisible` | src/port/TimerQueue.cpp:130-150 | Cancelling an id whose timer is gone changes nothing that any continuation can observe, even if the address is in use again |
| `TimerSystem.TakesExactlyTheDue` | src/port/TimerQueue.cpp:173-195 | The entries taken are exactly those due at the given time |
| `TimerSystem.AlwaysArmedInTime` | src/port/TimerQueue.cpp:31-48 | In every run with a positive clock, a queue at rest that is not empty has its descriptor armed for no later than the earliest expiration or 100 microseconds after the last arming |
| `TimerSystem.SameSize` | src/port/TimerQueue.cpp:133-149 | Two indexes that agree have the same size, which the program asserts throughout |
| `TimerSystem.InsertSorted` | src/port/TimerQueue.cpp:228-252 | Insertion keeps the entries sorted, adds exactly the new one, and puts it first exactly when it is the earliest |
| `TimerQueue.Queue.constructor` | src/port/TimerQueue.cpp:82-92 | The queue starts empty with the invariant |
| `TimerQueue.Queue.InsertEntry` | src/port/TimerQueue.cpp:228-252 | Both insertions succeed, each index growing by one, and the result says whether the earliest expiration changed |
| `TimerQueue.Queue.ResetTimerfd` | src/port/TimerQueue.cpp:31-73 | The descriptor is armed for the later of the expiration and 100 microseconds from now |
| `TimerQueue.Queue.AddTimerInLoop` | src/port/TimerQueue.cpp:104-128 | Performs the add step, keeps the invariant, returns the id of the new timer, and records time and interval as asked for in both indexes, leaving all other entries |
| `TimerQueue.Queue.CancelInLoop` | src/port/TimerQueue.cpp:130-150 | Performs the cancel step for any id, stale or not, and keeps the invariant |
| `TimerQueue.Queue.GetExpired` | src/port/TimerQueue.cpp:173-195 | Moves exactly the due entries out of both indexes, every erasure succeeding |
| `TimerQueue.Queue.Reset` | src/port/TimerQueue.cpp:197-226 | Restarts or deletes every timer of the batch and arms the descriptor again |
| `TimerQueue.Queue.HandleRead` | src/port/TimerQueue.cpp:152-171 | The whole timer event, with arbitrary adds and cancels in every callback, is the run of its steps and keeps the invariant |
| `LogSystem.EveryLineOnce` | src/utils/AsyncLogging.cpp:29-124 | In every interleaving of producers and writer no step goes wrong, each allocated buffer is in exactly one slot, both spares are there and empty at the loop head, and the lines the producers appended, without those as long as a buffer, are, in order, those written or dropped, those of the batch in hand and those with the producers |
| `LogSystem.EveryLineWritten` | src/utils/AsyncLogging.cpp:52-124 | In every run in which no swap finds more than 25 buffers nothing is dropped: the file, the batch in hand and what is with the producers make up every line appended, and the file has no notice |
| `LogSystem.RunKeepsInv` | src/utils/AsyncLogging.cpp:29-124 | The same from every state with the invariant, including that a missing spare implies enough buffers to refill it |
| `LogSystem.DropTakesTheRest` | src/utils/AsyncLogging.cpp:88-96 | The drop of a batch of more than 25 buffers keeps the first two, destroys exactly the others, which hold the text recorded as dropped, and the notice tells how many buffers that were |
| `LogSystem.SmallBatchIsKept` | src/utils/AsyncLogging.cpp:88-96 | A batch of at most 25 buffers is left whole |
| `LogSystem.AppendUsesSpareFirst` | src/utils/AsyncLogging.cpp:29-50 | A line goes into the current buffer exactly if that leaves room to spare, otherwise into the spare, and a buffer is allocated only if there is none; no other contents change |
| `LogSystem.StepKeepsInv` | src/utils/AsyncLogging.cpp:29-124 | Each step is safe in every reachable state and keeps all of this |
| `LogSystem.TurnSettles` | src/utils/AsyncLogging.cpp:63-124 | When the writer is back at the head of its loop, what it has written or dropped is exactly what was appended before it swapped the buffers |
| `LogSystem.FileIsPrefix` | src/utils/AsyncLogging.cpp:88-101 | Unless a backlog was dropped, the file is a prefix of the lines taken |
| `LogSystem.LongLinesAreLost` | src/utils/AsyncLogging.cpp:29-50 | Appending a line adds it to what is accounted for if and only if it is shorter than a buffer |
| `AsyncLogging.Log.Append` | src/utils/AsyncLogging.cpp:29-50 | Performs the producer's step and takes the line unless it is as long as a buffer |
| `AsyncLogging.Log.SwapBuffersOut` | src/utils/AsyncLogging.cpp:65-86 | The writer's critical section: the assertions hold, the step is performed, and all lines so far are claimed for the batch |
| `AsyncLogging.Log.DropBacklogged` | src/utils/AsyncLogging.cpp:88-96 | A batch of more than 25 buffers is cut to its first two, and the rest is recorded as dropped; a smaller one is left whole, with memory and file unchanged |
| `AsyncLogging.Log.WriteBuffer` | src/utils/AsyncLogging.cpp:98-101 | One buffer is written, in order |
| `AsyncLogging.TakeSpares` | src/utils/AsyncLogging.cpp:103-122 | Both spares are refilled from the first two buffers of the batch, emptied, and all others are destroyed, the pops being safe |
| `AsyncLogging.Log.RefillSpares` | src/utils/AsyncLogging.cpp:103-122 | Performs the recycling step in every reachable state |
| `AsyncLogging.Log.OneTurn` | src/utils/AsyncLogging.cpp:63-124 | After one turn the log holds exactly the lines appended before the writer stopped waiting, written or dropped, whatever was appended meanwhile |
| `AsyncLogging.Log.ThreadFunc` | src/utils/AsyncLogging.cpp:52-127 | After any number of turns, with any producers in between, the log holds exactly the lines appended before the last turn and while it waited, written or dropped, in order |
| `LogStream.ParseOfDecimal` | src/utils/LogStream.cpp:27-50 | The decimal text of every integer is canonical and means that integer |
| `LogStream.DecimalOfParse` | src/utils/LogStream.cpp:27-50 | Canonical decimal text is the text of what it means, so there is only one |
| `LogStream.ParseOfNumeral` | src/utils/LogStream.cpp:52-68 | The same for unsigned numerals in base 10 and 16 |
| `LogStream.NumeralOfParse` | src/utils/LogStream.cpp:52-68 | A canonical numeral is the numeral of what it means |
| `LogStream.Lengths64` | src/utils/LogStream.cpp:93-109 | Every 64-bit value, signed or unsigned, takes at most 20 characters, and at most 16 in hexadecimal |
| `LogStream.ReverseRange` | src/utils/LogStream.cpp:27-50 | Reversal in place of a part of the array, the rest unchanged |
| `LogStream.Convert` | src/utils/LogStream.cpp:27-50 | Writes the decimal text of any 64-bit value, the most negative one included, and a NUL, within 21 characters and touching nothing else |
| `LogStream.ConvertHex` | src/utils/LogStream.cpp:52-68 | Writes the hexadecimal text and a NUL within 17 characters and touches nothing else |
| `LogStream.FixedBuffer.Append` | src/utils/LogStream.h:35-43 | Appends the text if there is more room than it needs, and otherwise changes nothing |
| `LogStream.FormatInteger` | src/utils/LogStream.cpp:101-109 | Appends the decimal text if at least 32 characters are free and nothing otherwise, never passing the end of the buffer |
| `LogStream.FormatPointer` | src/utils/LogStream.cpp:159-172 | The same for addresses with the prefix 0x |
| `Buffer.Buffer.Drive` | src/port/Buffer.h:100-325 | Through every sequence of appends, prepends, retrievals, shrinks and scatter reads on one buffer object, what comes out and what is left are what a plain byte queue gives, the regions stay inside the array, and without prepends what went out followed by what is left is what was there followed by what came in |
| `Buffer.GrowsOnlyWhenFull` | src/port/Buffer.h:308-325 | The array grows if and only if contents, new bytes and cheap prepend do not fit into it, with a bound on the new size; otherwise the contents move to the front |
| `Buffer.DecodeOfEncode` | src/port/Buffer.h:201-277 | Decoding the big-endian encoding of a 1, 2 or 4 byte integer gives it back, for every value |
| `Buffer.EncodeOfDecode` | src/port/Buffer.h:218-260 | Encoding what was decoded gives the bytes back |
| `Buffer.EncodeBytes` | src/port/Buffer.h:201-277 | The byte at each position is that of the two's complement, the most significant one first |
| `Buffer.MoveDown` | src/port/Buffer.h:316-322 | The overlapping forward copy moves the bytes unharmed |
| `Buffer.Buffer.MakeSpace` | src/port/Buffer.h:308-325 | Makes room without changing the contents, by moving them over themselves or by growing, and the final assertion holds |
| `Buffer.Buffer.EnsureWritableBytes` | src/port/Buffer.h:176-184 | Afterwards the writable region is long enough |
| `Buffer.Buffer.Append` | src/port/Buffer.h:164-169 | The bytes are added at the end, through compaction or growth |
| `Buffer.Buffer.Prepend` | src/port/Buffer.h:279-285 | The bytes are added in front |
| `Buffer.Buffer.Retrieve` | src/port/Buffer.h:100-111 | The bytes are taken from the front; retrieving all resets the indexes |
| `Buffer.Buffer.RetrieveAsString` | src/port/Buffer.h:146-152 | The result followed by what is left is what was there |
| `Buffer.Buffer.Shrink` | src/port/Buffer.h:287-293 | The contents survive in a new array, with at least the reserve to write to |
| `Buffer.Buffer.ReadFd` | src/port/Buffer.cpp:13-38 | All bytes read are appended, also those that overflow into the extra area; a failed read changes nothing |
| `Buffer.Buffer.AppendInt` | src/port/Buffer.h:201-216 | Appends the big-endian encoding |
| `Buffer.Buffer.PrependInt` | src/port/Buffer.h:262-277 | Prepends the big-endian encoding |
| `Buffer.Buffer.PeekInt` | src/port/Buffer.h:239-260 | The result is the one value whose encoding is in front |
| `Buffer.Buffer.ReadInt` | src/port/Buffer.h:218-237 | The encoding of the result followed by what is left is what was there |
| `ConnSystem.NoByteIsLost` | src/port/TcpConnection.cpp:123-302 | In every run, while the connection is up: bytes on the wire, as many as the socket took, followed by the output buffer are exactly the bytes of the sends, except those on a closed connection or refused with EPIPE while nothing waited; write interest is on exactly when the buffer is not empty; at every shutdown of the write side and every announced completion all bytes sent by then were on the wire |
| `ConnSystem.StatusIsEvents` | src/port/TcpConnection.cpp:181-227 | The status is what the events make it: connecting until established, down once closed, disconnecting if a shutdown was asked for in between, and read interest is on while it is up |
| `ConnSystem.ShutOnceDrained` | src/port/TcpConnection.cpp:181-197 | Once a shutdown has been asked for, nothing waits to be sent and no functor waits to run, the write side has been shut down; and never before it was asked for |
| `ConnSystem.ShutTwiceExactlyWhen` | src/port/TcpConnection.cpp:181-197 | While the connection is up the write side is shut down at most twice, and twice if and only if the run contains a shutdown call from another thread on an open connection, then a write event that empties the buffer with no run of the queued functor in between, and then a run of the functor on an empty buffer |
| `ConnSystem.ShutOnceFromTheLoop` | src/port/TcpConnection.cpp:181-197 | If shutdown is only called on the loop thread, the write side is shut down at most once |
| `ConnSystem.ShutTwice` | src/port/TcpConnection.cpp:181-197 | A run in which the write side is shut down twice |
| `ConnSystem.BufferedAfterShutdown` | src/port/TcpConnection.cpp:149-178 | A run in which a message sent after the shutdown meets an error other than EPIPE, is buffered and not sent, and the functor then does not shut down again |
| `ConnSystem.NotesOfStep` | src/port/TcpConnection.cpp:135-178 | A step queues a write-complete notification exactly when a message goes out at once or the waiting bytes have gone out, and a high-water notification with the buffer's size exactly when it takes the buffer from below the mark to the mark or beyond |
| `ConnSystem.MarkIsRevisited` | src/port/TcpConnection.cpp:161-176 | In every run, between two high-water notifications the buffer has been below the mark |
| `TcpConnection.Connection.ConnectEstablished` | src/port/TcpConnection.cpp:204-213 | Performs the step that makes the connection usable |
| `TcpConnection.Connection.SendOnLoop` | src/port/TcpConnection.cpp:123-179 | Performs the send step for every answer of the socket: all, part, would block, broken pipe, other error |
| `TcpConnection.Connection.OnWritable` | src/port/TcpConnection.cpp:250-288 | Performs the write step, draining the buffer, announcing completion and shutting down if requested |
| `TcpConnection.Connection.RequestShutdown` | src/port/TcpConnection.cpp:181-188 | Performs the shutdown request, at once or by a queued functor |
| `TcpConnection.Connection.RunQueuedShutdown` | src/port/TcpConnection.cpp:190-197 | Performs the queued half of the request |
| `TcpConnection.Connection.HandleClose` | src/port/TcpConnection.cpp:290-301 | Performs the close step |
| `EventLoop.EachFunctorInItsTurn` | src/port/EventLoop.cpp:94-163 | In every interleaving the functors run, swapped out and pending are those of the queueInLoop calls made, in order, the loop is asked to quit exactly if quit was called, and it is never in poll with work or a quit request unless the eventfd is readable or a thread is about to write it |
| `EventLoop.NothingIsLost` | src/port/EventLoop.cpp:216-252 | After any run without a call of quit, if no one calls in any more, the loop takes only a bounded number of steps, in whatever order and without any timeout, and when it comes to rest it has run exactly the functors of all calls made, in order |
| `EventLoop.OwnStepCounts` | src/port/EventLoop.cpp:94-163 | Each step the loop and its callers make by themselves lowers a measure of the wakeups and functors still to come |
| `EventLoop.QuitIsHonoured` | src/port/EventLoop.cpp:131-138 | After any run with a call of quit, in whatever order the remaining steps are taken, the loop comes to rest after a bounded number of them, and at its exit |
| `BoundedBlockingQueue.NoLostWakeup` | src/utils/BoundedBlockingQueue.h:25-52 | In every interleaving, spurious wakeups included: taken followed by queued are the items of the put calls, each in its turn when there was a free slot, the capacity is kept, a sleeping taker implies at least as many woken takers as items and a sleeping putter at least as many woken putters as free slots; when all inside sleep, takers do so on an empty queue, putters on a full one, and not both if the capacity is at least one |
| `BoundedBlockingQueue.LeavesWhenDone` | src/utils/BoundedBlockingQueue.h:25-52 | A call leaves exactly when it has done its work, a taker with the first item, a putter when there is a free slot, and sleeps otherwise |
| `BoundedBlockingQueue.WokenTakerSucceeds` | src/utils/BoundedBlockingQueue.h:38-52 | If an item is there for a sleeping taker, there is a woken taker, and whichever runs next leaves with the first item |
| `BoundedBlockingQueue.WokenPutterSucceeds` | src/utils/BoundedBlockingQueue.h:25-36 | The same for a free slot and a sleeping putter |
| `BoundedBlockingQueue.DeadlockAtZeroCapacity` | src/utils/BoundedBlockingQueue.h:25-52 | With capacity zero a taker and a putter can both come to sleep |
| `BoundedBlockingQueue.NothingMovesAtZeroCapacity` | src/utils/BoundedBlockingQueue.h:25-52 | With capacity zero nothing is put or taken in any run, and no thread inside ever gets out |
| `ThreadPool.NoLostWakeup` | src/utils/ThreadPool.cpp:54-101 | In every interleaving: tasks taken followed by tasks queued are those of the run calls, each in its turn when there was a free slot, a bounded queue stays within its bound, no worker sleeps beside a task, and no caller beside a free slot unless another has been woken for it |
| `ThreadPool.WorkerTakes` | src/utils/ThreadPool.cpp:54-114 | A worker gets the first task if there is any, and otherwise sleeps or, in a stopped pool, goes back to its test, which it passes exactly while the pool runs; a caller gets out exactly when there is a free slot or there are no workers |
| `ThreadPool.WorkersStayUntilStop` | src/utils/ThreadPool.cpp:43-114 | The pool runs until stop is called, and until then no worker leaves its loop |
| `ThreadPool.StopReleasesWorkers` | src/utils/ThreadPool.cpp:43-52 | After stop no worker sleeps in any continuation, and each makes at most three more moves before it has left its loop |
| `ThreadPool.StrandedForEver` | src/utils/ThreadPool.cpp:43-73 | Once the pool is stopped, the queue full and no worker past its test, no caller returns from run in any continuation, spurious wakeups included |
| `ThreadPool.StopLetsCallersOutExactlyWhen` | src/utils/ThreadPool.cpp:43-107 | In a stopped pool some continuation lets a caller out of run if and only if a slot is free or a worker is past its test, and if and only if one without spurious wakeups does |
| `ThreadPool.StopLetsOut` | src/utils/ThreadPool.cpp:43-107 | In every completed continuation of a stopped pool in which no one else calls, exactly so many callers have got out as there were free slots and workers past their test, less those workers that came while the queue was empty, or all callers if they were fewer |
| `ThreadPool.StopLetsOutAtBest` | src/utils/ThreadPool.cpp:43-107 | So never more than the smaller of callers and of free slots plus workers past their test, and some schedule without spurious wakeups lets exactly so many out |
| `ThreadPool.EarlyWorkerCosts` | src/utils/ThreadPool.cpp:54-95 | A completed continuation that lets out fewer, because a worker took while the queue was empty |
| `ThreadPool.StopAdmitsAtMost` | src/utils/ThreadPool.cpp:43-107 | After stop, in every continuation, at most so many more tasks are taken as there are workers past their test, and at most so many more handed in as there are free slots and such workers |
| `ThreadPool.StopStrandsCaller` | src/utils/ThreadPool.cpp:43-73 | A run after which a caller is inside run in every continuation |
| `PollTable.RunRefines` | src/port/PollPoller.cpp:61-125 | In every run the entries and the channels' indexes are in bijection, each entry holding fd or -fd-1 of its channel, and the table means the map that the same events build |
| `PollTable.StepRefines` | src/port/PollPoller.cpp:61-125 | Each update and each removal by swapping with the last entry changes the entry of its own descriptor and no other |
| `PollTable.IgnoredExactlyOnceDisabled` | src/port/PollPoller.cpp:83-105 | In every run a descriptor's entry is negated if and only if it has been disabled since it was added, and that is exactly when the assertion about the entry in removeChannel, on descriptor and mask, holds |
| `PollTable.EnabledButIgnored` | src/port/PollPoller.cpp:83-90 | A channel disabled and enabled again keeps a negated entry |
| `PollTable.AddedEmptyCannotBeRemoved` | src/port/PollPoller.cpp:94-105 | A channel first seen without events does not meet the assertion in removeChannel |
| `PollPoller.Poller.UpdateChannel` | src/port/PollPoller.cpp:61-92 | Performs the add or change step on vector, map and channel, and the entry has the channel's mask |
| `PollPoller.Poller.SetEvents` | src/port/Channel.h:53-56 | Setting a channel's mask and telling the poller keeps entry and channel in agreement |
| `PollPoller.Poller.RemoveChannel` | src/port/PollPoller.cpp:94-125 | Performs the removal, moving the last entry and its channel's index, with all other channels' masks unchanged and the removed channel's index left stale, so that it may not be updated again |
| `PollPoller.Poller.RemovedStaysOut` | src/port/PollPoller.cpp:65-80 | A channel that was entered once and is not registered any more never meets the assertions of updateChannel |
| `EPollTable.RunMirrors` | src/port/EPollPoller.cpp:90-149 | In every run epoll_ctl is never refused, the kernel's list is exactly the channels marked added with their masks, and what the kernel watches is exactly what the channels last asked for |
| `EPollTable.StepKeepsInv` | src/port/EPollPoller.cpp:90-149 | No step inserts what is present or modifies or deletes what is absent |
| `EPollTable.WatchedStep` | src/port/EPollPoller.cpp:90-128 | After each event the kernel watches the channel for what it wants, and the others as before |
| `EPollPoller.Poller.Update` | src/port/EPollPoller.cpp:151-169 | The registration and the pointer handed back change as epoll_ctl says |
| `EPollPoller.Poller.UpdateChannel` | src/port/EPollPoller.cpp:90-128 | Performs the add or change step on map, channel marker and kernel, and the kernel hands back the channel that is filed under the descriptor |
| `EPollPoller.Poller.SetEvents` | src/port/Channel.h:53-56 | Setting a channel's mask and telling the poller keeps channel and kernel in agreement |
| `EPollPoller.Poller.RemoveChannel` | src/port/EPollPoller.cpp:130-149 | Performs the removal, after which the channel is marked new and the kernel does not know it |
| `ConnectorSystem.EverySocketOnce` | src/port/Connector.cpp:39-218 | In every run each socket created is watched by the channel, closed once or handed over once and only one of these, and after k retries since construction or restart, counted from the events, the delay is min(500 * 2^k, 30000) |
| `ConnectorSystem.StepOutcome` | src/port/Connector.cpp:39-218 | A socket is handed over exactly when it connected without error, not to itself, and is wanted; closed exactly when it fails, is not wanted any more, or cannot begin; created exactly by an attempt that is wanted; and a retry is scheduled exactly when a wanted attempt fails or is refused |
| `ConnectorSystem.NeverGivesUp` | src/port/Connector.cpp:70-218 | Unless the kernel answers connect with an error that is not retried, a connector that is wanted is always connecting, has handed its latest socket over, or has another attempt queued or scheduled |
| `ConnectorSystem.AssertionCanFailExactlyWhen` | src/port/Connector.cpp:39-51 | Without further calls of start or restart, startInLoop can come to run on a connector that is not disconnected if and only if it is due on such a connector now, or two attempts are due and wanted and no channel from before a restart is in the way |
| `ConnectorSystem.PoliteCallersAreSafe` | src/port/Connector.cpp:33-51 | If start is called once, and restart only after a connection has been handed over since the last start or restart, startInLoop finds the connector disconnected in every run |
| `ConnectorSystem.StaleRetry` | src/port/Connector.cpp:39-68 | A run in which a retry scheduled before stop is due while the connector is connecting again |
| `ConnectorSystem.ConnectedButClosed` | src/port/Connector.cpp:53-189 | A run in which the connection succeeds between stop and stopInLoop, its socket is closed and not handed over, and a later start finds the connector connected |
| `ConnectorSystem.StopIsFinal` | src/port/Connector.cpp:53-68 | After stop and until start or restart no socket is created or handed over and no retry is scheduled |
| `ConnectorSystem.StopLetsGo` | src/port/Connector.cpp:59-68 | A connector that is connecting or watches nothing has no socket open after stopInLoop: those not handed over are closed |
| `Connector.Connector.RetryLater` | src/port/Connector.cpp:202-218 | A socket that is nowhere else is closed, once, and, if still wanted, one more attempt is scheduled with the delay due for its number; the invariant holds again |
| `Connector.Connector.ConnectSocket` | src/port/Connector.cpp:70-114 | The new socket ends up watched or closed, according to the kernel's answer, all others stay where they are, and the invariant is kept |
| `Connector.Connector.RunStarting` | src/port/Connector.cpp:39-51 | Performs the start step and keeps the invariant |
| `Connector.Connector.RunStopping` | src/port/Connector.cpp:59-68 | Performs the stop step and keeps the invariant |
| `Connector.Connector.RunRestart` | src/port/Connector.cpp:116-123 | Performs the restart step: the delay starts again at 500 ms |
| `Connector.Connector.ResetChannel` | src/port/Connector.cpp:148-151 | Performs the queued deletion of the channel |
| `Connector.Connector.OnWritable` | src/port/Connector.cpp:153-189 | Performs the write step: the socket is handed over, closed or retried |
| `Connector.Connector.OnError` | src/port/Connector.cpp:191-200 | Performs the error step: the socket is closed and retried |

## Left out

- EventLoop, BoundedBlockingQueue, ThreadPool: modelled as interleaved steps on values, not as classes, because their methods block and are entered by several threads at once; updates in place are therefore not captured, the order of steps is.
- EventLoop: functors queued by the loop thread, or quit called, before `loop()` is entered; there the program resets the quit flag and issues no wakeup.
- TimerSystem: `addTimer` called from another thread, which reads the timer after handing it over; adds are steps of the loop thread. One clock is assumed, with microseconds as integers and intervals as reals.
- TimeZone: reading zone files; the zone is any data that such a file can describe, with transitions sorted on both clocks and far enough apart. Zone names, and the normalisation by `timegm` of days, hours, minutes and seconds that are out of range (months are normalised), are not modelled. `gmtime_r` and `timegm` are modelled by `GmTime` and `TimeGm`.
- LogSystem: waiting on the condition variable with its timeout (the writer may swap at any time), log file rolling and flushing, and that the writer exits without a last swap, so that lines appended after it are not written.
- LogStream: floating-point and string insertion, and `Fmt`.
- Buffer: searching (`findCRLF`, `findEOL`), swapping, and 64-bit wrap-around of sizes.
- ConnSystem: the input path, `connectDestroyed` while a shutdown is in progress (the program removes a channel that it has not disabled), and a queued shutdown that runs after the connection was closed. The test and set of the state in `shutdown` is one step. Of the kernel it is assumed that no write of at least one byte succeeds once the write side is shut down.
- ThreadPool: exceptions thrown by tasks, changing the bound while the pool runs, and stop called from a task, which would join its own thread.
- PollPoller: `fillActiveChannels`, which tests the requested instead of the returned events, and `poll` itself.
- EPollPoller: `poll` and `fillActiveChannels`; that the pointer handed back is a registered channel is part of `EPollPoller.Poller.Valid`.
- Connector: runs in which an assertion of the program fails (a new channel made before the old one is deleted, `startInLoop` when not disconnected); these are not steps of the system.
- Channel: `handleEvent` and the tie to its owner.
- The acceptor, the sockets wrapper, UDP, codecs and their checksums, the serial port, the device manager, configuration and database access: system plumbing without an algorithm of their own.
