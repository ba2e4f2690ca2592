# A model of the sylar server framework

This project models the parts of sylar in which bytes, tasks, timers, events and requests must not get lost, and proves
what they promise. It is plain Dafny 4.11; `dafny verify dfyconfig.toml` checks all of it.

**Byte arrays** (`Bits`, `Endian`, `Codec`, `Values`, `FlatBuffer`, `TypedReads`, `ByteArray`, `SocketStream`,
`RoundTrip`). A `ByteArray` is a linked list of equal blocks with a cursor. The class keeps that list in memory, and its
methods are proved to behave like one flat buffer with a position and a size. On top of it come fixed-width integers in
both byte orders, the varints and zigzag numbers of the Protocol Buffers encoding (sections "Base 128 Varints" and
"Signed Integers"), length-prefixed strings, and the scatter and gather lists a socket fills and drains. The last result
is the scenario of the byte array test: write any list of mixed values, rewind, read it back, with the exact condition
under which it works.

**Scheduler and fibers** (`Scheduler`, `SchedulerSafety`, `SchedulerShutdown`, `SchedulerExamples`, `TaskQueue`).
Workers take tasks off a shared list, honour thread affinity, run fibers, queue ready ones again and leave through the
idle fiber. This is a transition system whose invariants hold over every run; the scan of the list is also given as the
loop it is. What is left behind at shutdown, and what stopping() overlooks, is stated exactly. The steps are those the
program makes whatever its clients do. That every fiber has its place asks for care of the clients, and for no less:
they schedule only fibers that are alive, have no wake-up outstanding and are not the idle callback fiber of a worker,
and no fiber yields as ready or ends while a wake-up of it is queued (`SchedulerSafety.SafeIff`). A yield, its context
switch and the state the worker writes afterwards are one step; without this assumption two workers could touch one
fiber.

**Timers** (`TimerQueue`, `TimerRuns`, `Timer`). The ordered set of timers is a sorted sequence of entries with
functions for each operation; the classes hold the real, mutable timers and are proved to follow these functions. Over
every run under a clock that does not step back no wake-up is missed and no one-shot timer fires twice.

**I/O manager and do_io** (`IoEvents`, `IoSafety`, `IoMeaning`, `IoStopping`, `IoResizes`, `IoExamples`, `IoManager`,
`DoIo`, `DoIoSafety`, `DoIoReturns`, `DoIoWatch`, `DoIoTimeouts`, `DoIoWakes`, `DoIoExamples`). The event registry is a
transition system in which epoll_ctl may fail at will, and a class that makes these steps on mutable contexts. `DoIo`
puts the hooked system calls on top of the real registry and the real timers, interleaved with whatever else the program
does to both; when a call can time out too early, and when it can no longer time out at all, is stated exactly. A fiber
in `do_io` never has two wake-ups outstanding.

**HTTP requests** (`HttpHeaders`, `HttpRequests`, `HttpAutomaton`, `HttpParsing`, `HttpRequestParsers`, `HttpGrammar`,
`HttpSegments`, `HttpHeads`, `HttpLanguage`, `HttpRoundTrip`, `HttpTheorem`, `HttpSplits`, `HttpSession`,
`HttpReceived`). The case-insensitive header map, the printer, the states of the generated automaton that read heads
with an origin-form target (sections 3 and 5 of RFC 9112, sections 3.3 and 3.4 of RFC 3986), its callbacks, and the
reading of a request off a stream. `HttpGrammar` says what a head with such a target is without the automaton, and the
modelled parser finishes on exactly the texts that begin with one. Parsing undoes printing, with the exact condition;
and every head, printed or not, is received with the announced number of bytes behind its empty line, however these are
split into reads.

## Where the code is not what its names or documentation say

The model follows the code. These differences are modelled, and several are results of their own.

- `writeStringVint` writes a fixed 64-bit length, not a varint, and `readStringVint` matches it (bytearray.cpp:207-210).
- Reading an empty string, or anything, at the very end of the capacity dereferences a null cursor
  (bytearray.cpp:393-420): `TypedReads.RecoveredIff` and `RoundTrip.WriteRewindRead` say exactly when that happens, and
  `RoundTrip.EmptyStringNotRead` names the shortest such list.
- The positional `read` looks in the block of the current position (bytearray.cpp:422-450):
  `FlatBuffer.ReadAtDeliversIff`, and `FlatBuffer.WrongBlockRead` for one that goes wrong.
- `stopping()` can hold while a fiber that yielded as ready waits to be queued again:
  `SchedulerShutdown.StoppingOverlooksIff` and, for a run, `SchedulerExamples.StoppingWithReadyFiber`.
- A fiber that ends while its one wake-up is queued is entered again: `SchedulerSafety.FibersStep`, and
  `SchedulerExamples.EndsWhileQueued` for a callback whose fiber two workers then hold (scheduler.cpp:204-223);
  `SchedulerExamples.EndedIsEntered` for a fiber of its own.
- A task scheduled from outside when every worker has made its last scan is never run:
  `SchedulerShutdown.UnpinnedTaskLostIff` and `SchedulerExamples.UnpinnedTaskLost`.
- A task pinned to a thread that has left, or to none of the scheduler's, is never run:
  `SchedulerShutdown.PinnedTaskLostIff` and `SchedulerExamples.PinnedTaskLost`. A pinned fiber is also left behind when
  the last scan of its thread finds it executing in another one: `SchedulerExamples.PinnedFiberOverlooked`.
- `Timer::reset` answers true for a cancelled timer whose period is unchanged (timer.cpp:67-70).
- A delivery that adds events nobody waits for, as errors and hang-ups do, fails an assertion (iomanager.cpp:322-331):
  `IoSafety.DeliverStep` has the condition, `IoExamples.HangUpAborts` a run.
- A table of contexts can be made smaller by an `addEvent` that measured it before another one grew it
  (iomanager.cpp:90-101): `IoResizes.OvertakenIff`, and `IoExamples.LateResizeLosesWaiter` for a waiter that is cut off.
- The callback of a timer that `do_io` added in an earlier round and could no longer cancel may still run in a later one
  (hook.cpp:120-150), so a timeout need not wait for the deadline of the current timer: `DoIoTimeouts.EarlyTimeoutIff`
  says exactly when it does not, `DoIoExamples.TimedOutEarly` is such a run, and `DoIoSafety.TimeoutIsDue` bounds the
  timeout from the start of the call in every run.
- A timer that expires before its call has parked cancels nothing, and the call then waits without a timeout
  (hook.cpp:119-139): `DoIoWatch.TimeoutLostIff` and `DoIoExamples.TimeoutNeverComes`. The same happens when the one
  `cancelEvent` of the callback fails in epoll_ctl: `DoIoExamples.CancelEventFails`.
- `dump` prints `version >> 7` as the minor version, so it always reads back as 0, and prints the sign of a fragment but
  not the fragment (http.cpp:147-151), which is read back as an empty one. M-SEARCH is printed but not parsed.
- A verb is taken for the first listed method whose name it begins with (http.cpp:18-26), so GETX is read as GET:
  `HttpHeads.MethodMeaning`.
- `http_parser_execute` resets all marks but the query's (http11_parser.rl.cpp:91-97): `HttpParsing.SlicesInsideIff`,
  and `HttpParsing.QueryMarkIsStale` for a slice of negative length.
- A head that is split between reads can be read wrongly when the split falls between a mark and its use, because the
  marks are reset: `HttpReceived.SplitHead`, and `HttpSplits.PathLost`, `HttpSplits.NameLost` and
  `HttpSplits.VersionLost` for what is lost.
- `http_parser_execute` does not reset the start of the body either, so its closing assertion on it fails in an
  execution on a shorter text behind a head (http11_parser.rl.cpp:6668): `HttpParsing.ClosingAssertions`, and
  `HttpReceived.SecondExecutionFails`. `recvRequest` makes no such execution.
- `readFixSize` returns its length as an `int`, so a body whose missing part is 2^31 bytes or more can be refused after
  having been read: `HttpReceived.SentIsReceived`, and `HttpReceived.LongBodyRefused` for one.

## Model

| member | source | states |
|---|---|---|
| `Codec.SignedRoundTrip` | sylar/bytearray.cpp:117-146 | A signed number of the word survives the cast to the unsigned word and back |
| `Codec.ZigzagMeaning` | sylar/bytearray.cpp:117-131 | Non-negative numbers become the even words and negative ones the odd words, over the whole signed range with its minimum, although negation and doubling wrap around |
| `Codec.DecodeZigzagMeaning` | sylar/bytearray.cpp:133-146 | The shift-and-xor decoder halves even words and sends odd words to the negative numbers |
| `Codec.ZigzagBijection` | sylar/bytearray.cpp:117-146 | Encoding and decoding are inverse bijections between the signed numbers and the words of any width |
| `Codec.FillVarint` | sylar/bytearray.cpp:152-161 | The loop fills the temporary array with exactly the base-128 bytes of the word and never leaves its 5 or 10 places |
| `Codec.VarintLength` | sylar/bytearray.cpp:152-176 | A varint has n bytes exactly when the word lies in [2^(7(n-1)), 2^(7n)), and one byte for 0 |
| `Codec.VarintByteAt` | sylar/bytearray.cpp:152-176 | Byte i of a varint holds the i-th group of seven bits, the least significant group first, and its eighth bit is set on all bytes but the last |
| `Codec.VarintPrefixFree` | sylar/bytearray.cpp:152-176 | No varint is a proper prefix of another, so a reader stops at the right byte |
| `Codec.ReadVarintMeaning` | sylar/bytearray.cpp:267-297 | What any bytes are read as: the groups of seven bits up to the first byte below 128, of at most 5 or 10 bytes, summed and cut to the word; or nothing when the bytes run out |
| `Codec.VarintRoundTrip` | sylar/bytearray.cpp:267-297 | Reading a varint of the word, whatever follows it, gives the number back and consumes its bytes, on the full 32- and 64-bit range |
| `Endian.WireIndependentOfHost` | sylar/endian1.h:18-34 | The bytes written for a number depend on the chosen byte order only, not on the host |
| `Endian.FintFromWireMeaning` | sylar/endian1.h:18-34 | Swapping on the way in is reading the bytes in the chosen order on either host |
| `Endian.WireBytes` | sylar/bytearray.cpp:63-111 | Byte i of the w bytes written for v is v / 256^(w-1-i) mod 256 in big-endian order and v / 256^i mod 256 in little-endian order, on every host |
| `Endian.WireSum` | sylar/bytearray.cpp:216-259 | What is read is the sum of the bytes with these weights, on every host |
| `Endian.FintRoundTrip` | sylar/bytearray.cpp:63-111 | A fixed-width number written on one host is read back on any other |
| `Values.FintItem` | sylar/bytearray.cpp:216-259 | A fixed-width integer, signed or not, of 1, 2, 4 or 8 bytes is decoded to itself and takes exactly its bytes |
| `Values.VarintItem` | sylar/bytearray.cpp:263-297 | A varint or zigzag integer is decoded to itself and takes exactly its bytes |
| `Values.TextItem` | sylar/bytearray.cpp:192-210 | A string is read back cut to its length modulo the range of the prefix |
| `Values.WireFormat` | sylar/bytearray.cpp:63-210 | The format byte by byte and whatever the host: fixed-width integers in two's complement and the byte order of the array, varints in groups of seven bits with zigzag 2n or -2n-1 for the signed ones, strings behind their length modulo the range of the prefix |
| `Values.ItemRoundTrip` | sylar/bytearray.cpp:192-343 | One value is read back as itself if and only if it is a number of its range or a string whose length fits the prefix |
| `Values.ListRoundTrip` | sylar/bytearray.cpp:63-343 | A list of mixed values is decoded to itself with nothing left over if and only if every string fits its prefix |
| `FlatBuffer.ReadAtDeliversIff` | sylar/bytearray.cpp:422-450 | Whatever the cells hold, the positional read within its two checks delivers the cells asked for if and only if none are asked for or the first of them lies in the block of the current position |
| `FlatBuffer.WrongBlockRead` | sylar/bytearray.cpp:422-450 | In blocks of two cells, reading the cell at 2 with the position in the first block delivers cell 0 |
| `FlatBuffer.WrittenTwice` | sylar/bytearray.cpp:358-391 | Two writes in a row have the effect of one write of both, growth of the capacity included |
| `FlatBuffer.WrittenExtends` | sylar/bytearray.cpp:358-391 | After a write the readable bytes from an earlier position are the earlier ones followed by what was written |
| `TypedReads.RecoveredIff` | sylar/bytearray.cpp:216-343 | Matching readers over a buffer that holds a written list return the list, with nothing left, if and only if every string fits its prefix and the list does not end in an empty string flush with the capacity (that read dereferences the null cursor) |
| `ByteArrays.ByteArray.constructor` | sylar/bytearray.cpp:32-40 | One block, position, size 0, big-endian order, the representation invariant established |
| `ByteArrays.ByteArray.AddCapacity` | sylar/bytearray.cpp:512-541 | Appends just enough blocks: the capacity becomes the least multiple of the block size that holds the need, no cell changes, a null cursor is moved to the first new block |
| `ByteArrays.ByteArray.AppendNodes` | sylar/bytearray.cpp:528-536 | The loop links exactly the counted number of fresh blocks behind the last one and returns the first of them |
| `ByteArrays.ByteArray.Write` | sylar/bytearray.cpp:358-391 | The block-wise write is the flat write: cells before the position and behind the written bytes stay, position and size move, capacity grows minimally |
| `ByteArrays.ByteArray.WriteLoop` | sylar/bytearray.cpp:370-386 | The loop over blocks splices the bytes into the cells and leaves the cursor on block position / baseSize |
| `ByteArrays.ByteArray.Read` | sylar/bytearray.cpp:393-420 | The block-wise read is the flat read; out of range, and the null cursor at the end of the capacity even for a read of nothing, change nothing |
| `ByteArrays.ByteArray.ReadAt` | sylar/bytearray.cpp:422-450 | The positional read refines its flat description, which looks in the block of the current position |
| `ByteArrays.ByteArray.SetPosition` | sylar/bytearray.cpp:452-468 | Sets the position and raises the size, or fails beyond the capacity and changes nothing; the walk over blocks finds the cursor |
| `ByteArrays.ByteArray.Clear` | sylar/bytearray.cpp:345-356 | Keeps the first block and drops the others, with position and size 0 |
| `ByteArrays.ByteArray.ToString` | sylar/bytearray.cpp:543-551 | The bytes from position to size, without moving the position |
| `ByteArrays.ByteArray.CollectBuffers` | sylar/bytearray.cpp:575-595 | The regions cover the cells from the position on, block by block, exactly the asked length |
| `ByteArrays.ByteArray.GetReadBuffers` | sylar/bytearray.cpp:568-597 | The regions cover the readable bytes up to the asked length; the count is cut to 32 bits |
| `ByteArrays.ByteArray.GetWriteBuffers` | sylar/bytearray.cpp:637-665 | Grows the capacity first, then covers the asked length from the position on |
| `ByteArrays.ByteArray.WriteFint` | sylar/bytearray.cpp:63-111 | Writes the bytes of a fixed-width integer at the position, the most significant one first in big-endian order and the least significant one first in little-endian order |
| `ByteArrays.ByteArray.WriteVarint` | sylar/bytearray.cpp:148-176 | Writes the varint bytes of the word |
| `ByteArrays.ByteArray.WriteText` | sylar/bytearray.cpp:192-205 | Writes the length cut to the prefix, then the whole string |
| `ByteArrays.ByteArray.WriteValue` | sylar/bytearray.cpp:63-210 | Every writer writes the encoding of its value |
| `ByteArrays.ByteArray.ReadFint` | sylar/bytearray.cpp:216-259 | Reads a fixed-width integer, the sum of its bytes with their weights in the byte order of the array, or fails like the flat read of its bytes |
| `ByteArrays.ByteArray.ReadVarintWord` | sylar/bytearray.cpp:267-297 | The shifting loop reads what the varint function reads and stops where it stops; running out of bytes leaves the position at the end |
| `ByteArrays.ByteArray.ReadText` | sylar/bytearray.cpp:313-343 | Reads the prefix and as many bytes as it says, or fails |
| `ByteArrays.ByteArray.ReadValue` | sylar/bytearray.cpp:216-343 | Every reader computes the typed read of the flat buffer |
| `ByteArrays.ByteArray.ReadAll` | sylar/bytearray.cpp:216-343 | Readers called one after the other compute the typed read of the whole list |
| `RoundTrip.WriteAll` | source/test_bytearray.cpp:14-16 | Writing a list of values one by one is one flat write of the concatenated encodings |
| `RoundTrip.WriteRewindRead` | source/test_bytearray.cpp:8-27 | For every block size, byte order and list of mixed values: write, rewind and read returns the list with nothing left to read if and only if every string fits its prefix and the list does not end in an empty string at a block boundary |
| `RoundTrip.EmptyStringNotRead` | sylar/bytearray.cpp:313-343 | In blocks of two bytes the empty string, whose 16-bit length fills the block, is written and cannot be read back |
| `SocketStreams.Scatter` | sylar/socket_stream.cpp:28-39 | Bytes filled into the write regions land in the cells from the position on |
| `SocketStreams.ReadInto` | sylar/socket_stream.cpp:28-39 | Receiving into the regions and moving the position leaves the received bytes behind the old ones, and nothing else before the end of the capacity changes |
| `SocketStreams.ScatterIsWrite` | sylar/socket_stream.cpp:28-39 | Receiving by regions and a plain write of the same bytes agree on every byte up to the position, on the position and on the size |
| `SocketStreams.GatheredIsCells` | sylar/bytearray.cpp:568-597 | The concatenated read regions are the cells from the position on |
| `SocketStreams.WriteFrom` | sylar/socket_stream.cpp:48-59 | What was sent is what a read of that length would deliver, and the position ends where the read would leave it |
| `Scheduler.FirstEligible` | sylar/scheduler.cpp:168-187 | The scan takes the oldest task that is open to this thread and whose fiber does not execute |
| `TaskQueues.TaskQueue.ScheduleNoLock` | sylar/scheduler.h:69-77 | Appends the task and asks for a tickle exactly when the queue was empty |
| `TaskQueues.TaskQueue.Take` | sylar/scheduler.cpp:163-192 | The scan over the shared list makes the step of the transition system, and asks for a tickle exactly when it passed over a task of another thread |
| `SchedulerSafety.FibersStep` | sylar/scheduler.cpp:162-243 | From a state in which every fiber has its place (no failed assertion, no fiber of two workers, none queued twice, the right states) a step leads to such a state if and only if it is careful: it schedules only live fibers without an outstanding wake-up that are no idle callback fiber, and no fiber yields as ready or ends while a wake-up of it is queued |
| `SchedulerSafety.SwapInStep` | sylar/fiber.cpp:99-126 | Entering a taken fiber or the reusable callback fiber fails no assertion and leaves the fiber with that worker alone |
| `SchedulerSafety.ScanStep` | sylar/scheduler.cpp:168-187 | Taking a task hands its fiber to one worker and leaves it in the queue no longer |
| `SchedulerSafety.ExecStep` | sylar/scheduler.cpp:188-223 | Whatever its clients do, every step keeps executing fibers inside a worker |
| `SchedulerSafety.CountersStep` | sylar/scheduler.cpp:166-232 | Every step keeps both counters equal to the number of workers they stand for |
| `SchedulerSafety.HistoryStep` | sylar/scheduler.cpp:163-189 | Every step keeps: a task ever queued is still queued or was taken once, by a thread it was open to |
| `SchedulerSafety.InvRun` | sylar/scheduler.cpp:149-244 | These three hold in every state of every run, whatever the clients do |
| `SchedulerSafety.SafeIff` | sylar/scheduler.cpp:162-223 | Over every run: every fiber has its place in every state if and only if every step of the run is careful |
| `SchedulerSafety.SafeAlways` | sylar/scheduler.cpp:162-223 | In every run of careful steps: no assertion of swapIn or reset fires, no fiber is held by two workers, the callback fiber of a worker at its loop head is in its initial state |
| `SchedulerSafety.StateMoves` | sylar/fiber.cpp:99-175 | Which step gives a fiber which state, and that no other fiber changes |
| `SchedulerSafety.CrashStep` | sylar/fiber.cpp:80-106 | A step fails an assertion exactly when it enters a fiber that executes or has ended, or resets a callback fiber that executes or is suspended |
| `SchedulerSafety.EndsIff` | sylar/scheduler.cpp:194-223 | In every run of careful steps a fiber is terminated, or has failed, if and only if some step ran it to its end, or to an exception; once so it is never entered again |
| `SchedulerSafety.CountsAlways` | sylar/scheduler.cpp:163-232 | In every run, careful or not: executing fibers are inside a worker, the counters are right, and everything ever queued is queued or was taken once by a thread it was open to |
| `SchedulerShutdown.AbandonedStep` | sylar/scheduler.cpp:225-256 | One step leaves an unpinned task without any worker that will still scan exactly when it schedules the task that late; such a task stays so |
| `SchedulerShutdown.UnpinnedTaskLostIff` | sylar/scheduler.cpp:161-261 | Once every worker has left run, an unpinned task is left behind if and only if one was scheduled when every worker had made its last scan |
| `SchedulerShutdown.NoUnpinnedTaskLost` | sylar/scheduler.cpp:161-261 | If nothing is scheduled from outside after stop, no unpinned task is left behind |
| `SchedulerShutdown.StrandedStep` | sylar/scheduler.cpp:161-243 | One step leaves a pinned task without a worker that will still scan exactly when it schedules the task that late or is the last scan of its worker and passes over it; such a task stays so |
| `SchedulerShutdown.OverlookedExecutes` | sylar/scheduler.cpp:176-180 | A last scan passes over a task pinned to its thread only if the task is a fiber that another worker is running; a callback is never passed over |
| `SchedulerShutdown.PinnedTaskLostIff` | sylar/scheduler.cpp:161-261 | Once every worker has left run, a pinned callback is left behind if and only if one was scheduled after the last scan of its worker; a pinned fiber if and only if one was scheduled that late or passed over by the last scan of its worker |
| `SchedulerShutdown.NothingLostIff` | sylar/scheduler.cpp:161-261 | Once every worker has left run, everything ever scheduled has been taken if and only if no task was scheduled too late and no pinned fiber passed over |
| `SchedulerSafety.StoppingMeansIdle` | sylar/scheduler.cpp:250-254 | When stopping() holds nothing is queued, no worker holds a task, and every task was taken |
| `SchedulerShutdown.StoppingOverlooksIff` | sylar/scheduler.cpp:195-203 | When stopping() holds, no wake-up of a fiber is under way if and only if no worker is about to queue a ready fiber again |
| `SchedulerShutdown.LeaveStep` | sylar/scheduler.cpp:225-256 | The idle fiber of a worker ends only in a round that sees nothing waiting while stopping() holds; a worker leaves only through its ended idle fiber or, as the root thread, by finding everything stopped when it enters |
| `SchedulerShutdown.LeavesIff` | sylar/scheduler.cpp:225-261 | Over every run: the idle fiber of a worker has ended if and only if it had such a round, and no worker has left without one but the root thread that found everything stopped |
| `SchedulerExamples.StoppingWithReadyFiber` | sylar/scheduler.cpp:195-203 | A reachable state in which stopping() holds although a fiber that yielded as ready has not yet been queued again |
| `SchedulerExamples.PinnedTaskLost` | sylar/scheduler.cpp:170-174 | A reachable state in which every worker has left and a task pinned to one of them is still queued |
| `SchedulerExamples.UnpinnedTaskLost` | sylar/scheduler.cpp:225-261 | A run in which an unpinned task is scheduled from outside after the last worker has left |
| `SchedulerExamples.PinnedFiberOverlooked` | sylar/scheduler.cpp:176-180 | A run in which a fiber wakes itself on the other thread in time, the last scan of that thread passes over it, and all workers leave |
| `SchedulerExamples.EndsWhileQueued` | sylar/scheduler.cpp:204-223 | A run with one careless step: a callback returns while the one wake-up of its fiber is queued; then two workers hold the fiber and the assertion of its next reset fails |
| `SchedulerExamples.EndedIsEntered` | sylar/fiber.cpp:119-122 | A run with one careless step: a fiber ends while its one wake-up is queued, and is entered after its end |
| `TimerQueue.RolloverMeaning` | sylar/timer.cpp:192-200 | With the wrap-around of the subtraction, a clock counts as rolled over if it loses more than an hour, or steps back at all within its first hour |
| `TimerQueue.InsertedFresh` | sylar/timer.cpp:175-177 | Inserting a timer keeps the set sorted and without double addresses and adds exactly it |
| `TimerQueue.ErasedAt` | sylar/timer.cpp:44-46 | Erasing keeps the set sorted and removes exactly that timer |
| `TimerQueue.DueIsPrefix` | sylar/timer.cpp:151-158 | The timers due are exactly the leading ones of the set |
| `TimerQueue.Reinserted` | sylar/timer.cpp:162-171 | Afterwards the set holds exactly the timers not taken and the recurring ones taken, each armed again |
| `TimerQueue.ExpiryExact` | sylar/timer.cpp:138-173 | Expiry takes exactly the timers with a deadline not after now, all of them after a rollover, in deadline order, and re-arms exactly the recurring ones at now + ms |
| `TimerQueue.ExpiryMeaning` | sylar/timer.cpp:138-173 | After an expiry the set holds the timers not due and the recurring ones that were taken, each with the deadline now + ms and its address, period and callback as before; the clock is remembered |
| `TimerQueue.NoneDueAfter` | sylar/timer.cpp:138-173 | After an expiry without rollover no timer with a period is due, if deadlines stay below 2^64 |
| `TimerQueue.AddMeaning` | sylar/timer.cpp:100-127 | A new timer is due at now + ms, and onTimerInsertAtFront is called exactly when it is the earliest and no call is pending |
| `TimerQueue.CancelMeaning` | sylar/timer.cpp:40-49 | Cancelling takes the timer out and changes nothing else |
| `TimerQueue.RefreshMeaning` | sylar/timer.cpp:51-65 | Refreshing gives the timer the deadline now + ms and changes nothing else |
| `TimerQueue.ResetMeaning` | sylar/timer.cpp:68-90 | Resetting gives the timer the new period, counted from now or from when it was last started; the same period not from now changes nothing |
| `TimerRuns.AddStep` | sylar/timer.cpp:100-106 | Adding keeps every promised wake-up and the rest of the invariant |
| `TimerRuns.RefreshStep` | sylar/timer.cpp:51-64 | A refresh, which notifies nobody, keeps every promised wake-up |
| `TimerRuns.ResetStep` | sylar/timer.cpp:67-90 | A reset keeps every promised wake-up, because it goes through addTimer |
| `TimerRuns.ExpirePromises` | sylar/timer.cpp:138-173 | Re-arming recurring timers, which notifies nobody, keeps every promised wake-up |
| `TimerRuns.NoMissedWakeUp` | sylar/timer.cpp:121-190 | In every state of every run, for every deadline getNextTimer reported: onTimerInsertAtFront was called since, or no armed timer is due before it |
| `TimerRuns.OneShotOnce` | sylar/timer.cpp:163-171 | In every run a one-shot callback is handed out at most once and its timer is not in the set afterwards; the set stays sorted by its comparator |
| `TimerRuns.WaitMeaning` | sylar/timer.cpp:121-136 | The wait reported ends at the earliest deadline, is 0 exactly when some timer is due, and is the largest word for an empty set |
| `Timers.TimerManager.FirstNotBefore` | sylar/timer.cpp:9-26 | The search by the comparator finds the lower bound |
| `Timers.TimerManager.Find` | sylar/timer.cpp:44 | find on an armed timer succeeds and finds the timer itself |
| `Timers.TimerManager.InsertTimer` | sylar/timer.cpp:177 | Insertion into the set in memory is insertion into the sorted entries |
| `Timers.TimerManager.EraseTimer` | sylar/timer.cpp:45 | Erasure from the set in memory is erasure from the sorted entries |
| `Timers.TimerManager.AddLocked` | sylar/timer.cpp:175-190 | Notifies exactly when the timer comes first and no notification is outstanding |
| `Timers.TimerManager.AddTimer` | sylar/timer.cpp:100-106 | A new timer is armed with the deadline now + ms, and makes the step of the specification |
| `Timers.TimerManager.CancelTimer` | sylar/timer.cpp:40-49 | True exactly for an armed timer, which leaves the set and loses its callback |
| `Timers.TimerManager.Detach` | sylar/timer.cpp:57-61 | find and erase: the timer is out of the set, every other one is in it as before, and no key changes |
| `Timers.TimerManager.Rekey` | sylar/timer.cpp:62 | The only write to the key of an existing timer: it asks that the timer is not in the set, and so leaves the set in memory the one specified |
| `Timers.TimerManager.RefreshTimer` | sylar/timer.cpp:51-65 | True exactly for an armed timer, whose deadline is then now + ms, in memory and in the sorted set; through Detach and Rekey |
| `Timers.TimerManager.ResetTimer` | sylar/timer.cpp:68-90 | True for an armed timer, and also for a cancelled one whose period is unchanged; an armed one then has the new period, counted from now or from its last start; through Detach and Rekey |
| `Timers.TimerManager.GetNextTimer` | sylar/timer.cpp:121-136 | Clears the flag and reports the wait |
| `Timers.TimerManager.HasTimer` | sylar/timer.cpp:202-205 | Whether a timer is armed |
| `Timers.TimerManager.DetectClockRollover` | sylar/timer.cpp:192-200 | Decides rollover and remembers the clock |
| `Timers.TimerManager.EndOfDue` | sylar/timer.cpp:153-157 | Lower bound of a probe timer and the walk over equal deadlines end after the last due timer, whatever the address of the probe |
| `Timers.TimerManager.ListExpiredCb` | sylar/timer.cpp:138-173 | The whole of expiry over the set in memory: callbacks in deadline order, one-shot timers disarmed, recurring ones back in the set |
| `Timers.TimerManager.HandOut` | sylar/timer.cpp:162-171 | The loop over the expired timers re-arms and disarms them one by one |
| `IoSafety.CountZero` | sylar/iomanager.cpp:257-262 | No pending event is counted exactly when no bit is set |
| `IoSafety.TriggerKeeps` | sylar/iomanager.cpp:31-42 | Triggering a waiting event schedules what was registered, empties the context and keeps the registry in order |
| `IoSafety.DropKeeps` | sylar/iomanager.cpp:169-173 | Deleting an event empties the context without scheduling anything |
| `IoSafety.RegisterKeeps` | sylar/iomanager.cpp:124-138 | Registering finds the context empty, so its assertion never fires |
| `IoSafety.OperationsFit` | sylar/iomanager.cpp:111-116 | ADD is issued only for a descriptor epoll does not watch, MOD and DEL only for one it does |
| `IoSafety.FoundKeeps` | sylar/iomanager.cpp:90-101 | Growing the table to fd * 1.5 makes room for fd and loses nothing |
| `IoSafety.AddStep` | sylar/iomanager.cpp:90-140 | addEvent fails an assertion exactly when the event already waits, and otherwise keeps all invariants |
| `IoSafety.DeliverStep` | sylar/iomanager.cpp:320-357 | A delivery fails an assertion exactly when epoll reports, besides a waiting event, one that does not wait |
| `IoSafety.TriggerAllKeeps` | sylar/iomanager.cpp:234-241 | Triggering several events succeeds exactly when all of them wait |
| `IoSafety.Step` | sylar/iomanager.cpp:90-357 | Every call fails exactly in these two cases and otherwise keeps all invariants of the registry |
| `IoSafety.RunsAreSafe` | sylar/iomanager.cpp:90-357 | Over every run an assertion has failed exactly if some call of the run was one of these two; until then every invariant holds |
| `IoSafety.WakeUpsConserved` | sylar/iomanager.cpp:90-243 | Registrations made = scheduled + deleted + still set bits; each is in exactly one of these, is scheduled at most once, and as it was registered |
| `IoMeaning.AddMeaning` | sylar/iomanager.cpp:90-140 | addEvent fails exactly when the event is registered already; otherwise it adds one registration of its caller if epoll_ctl succeeds, and none if not |
| `IoMeaning.DeleteMeaning` | sylar/iomanager.cpp:142-174 | delEvent takes the registration away without waking anybody, exactly when there is one and epoll_ctl succeeds |
| `IoMeaning.CancelMeaning` | sylar/iomanager.cpp:176-206 | cancelEvent wakes the waiter of the registration, and nobody else, exactly when there is one and epoll_ctl succeeds |
| `IoMeaning.CancelAllMeaning` | sylar/iomanager.cpp:208-243 | cancelAll wakes whoever waits on the descriptor, reader and writer, if epoll_ctl succeeds |
| `IoMeaning.DeliverMeaning` | sylar/iomanager.cpp:320-357 | A delivery wakes a waiting reader exactly when EPOLLIN, EPOLLERR or EPOLLHUP is reported, a waiting writer exactly when EPOLLOUT, EPOLLERR or EPOLLHUP is, and nobody else; it fails exactly when it is for one waiter and stands for an event besides that nobody waits for |
| `IoSafety.LateResize` | sylar/iomanager.cpp:96-101 | A resize that comes after another one has made the table larger is harmless if and only if nothing waits in the contexts it cuts off |
| `IoResizes.MakeStep` | sylar/iomanager.cpp:90-140 | When an addEvent may be overtaken between its look at the table and its resize, one step keeps the registry in order if and only if it neither cuts off a waiter nor fails an assertion |
| `IoResizes.OvertakenIff` | sylar/iomanager.cpp:90-357 | Over every run with overtaken calls: the registry is in order in every state if and only if no step is one of these; then registrations are conserved |
| `IoExamples.HangUpAborts` | sylar/iomanager.cpp:322-357 | A hang-up of a descriptor with only a reader waiting fails an assertion |
| `IoExamples.LateResizeLosesWaiter` | sylar/iomanager.cpp:93-101 | A run in which a call for descriptor 40 measures the table at 32, another one makes room for descriptor 100 and waits there, and the first cuts it off by resizing to 60 |
| `IoStopping.StoppingMeansIdle` | sylar/iomanager.cpp:257-262 | stopping() as one snapshot holds exactly when stop was called and there is no timer (but for one deadline at clock 0), no waiting event, no queued task and no worker with a task |
| `IoStopping.IdleEndsIff` | sylar/iomanager.cpp:266-283 | A round of the idle fiber ends it exactly when stopping() holds |
| `IoManagers.IOManager.constructor` | sylar/iomanager.cpp:44-66 | The table of 32 unused contexts |
| `IoManagers.IOManager.ContextResize` | sylar/iomanager.cpp:79-88 | Resizing the table of pointers is resizing the table of contexts |
| `IoManagers.IOManager.EpollCtl` | sylar/iomanager.cpp:116-122 | Called only with an operation that fits; on success epoll watches what was asked |
| `IoManagers.IOManager.TriggerEvent` | sylar/iomanager.cpp:31-42 | Schedules the callback or else the fiber of the context and makes the trigger step |
| `IoManagers.IOManager.AddEvent` | sylar/iomanager.cpp:90-140 | Makes the add step; 0 or -1 as epoll_ctl says; aborts exactly when the event already waits |
| `IoManagers.IOManager.DelEvent` | sylar/iomanager.cpp:142-174 | True exactly when the event waited and epoll_ctl succeeded; makes the delete step |
| `IoManagers.IOManager.CancelEvent` | sylar/iomanager.cpp:176-206 | True exactly when the event waited and epoll_ctl succeeded; makes the cancel step |
| `IoManagers.IOManager.CancelAllEvents` | sylar/iomanager.cpp:208-243 | True exactly when some event waited and epoll_ctl succeeded; triggers all of them |
| `IoManagers.IOManager.HandleEvent` | sylar/iomanager.cpp:320-357 | The loop body of idle makes the delivery step, errors and hang-ups standing for both events |
| `IoManagers.IOManager.HandleEvents` | sylar/iomanager.cpp:310-358 | The loop of idle makes one delivery step for each reported event, up to a failed assertion |
| `DoIoSafety.LiveAfter` | sylar/iomanager.cpp:124-138 | Only addEvent makes a registration, and only for its own caller |
| `DoIoSafety.ParkStep` | sylar/hook.cpp:131-141 | After addEvent the call is parked on its own registration, or has none |
| `DoIoSafety.DisarmStep` | sylar/hook.cpp:135-145 | After timer->cancel() no timer of the call is armed, whether or not it had already expired |
| `DoIoSafety.RunCallbackStep` | sylar/hook.cpp:121-128 | The timer callback sets the flag of a call only if a timer of that call expired |
| `DoIoSafety.Step` | sylar/hook.cpp:85-157 | Every step of a call, of its timers, and of everyone else keeps the invariant |
| `DoIoSafety.NothingLeftBehind` | sylar/hook.cpp:106-157 | In every run, however often it was interrupted and retried, a call that has returned has no registration and no armed timer |
| `DoIoSafety.TimeoutIsDue` | sylar/hook.cpp:120-149 | In every run a call that returns by timeout has a timeout, its flag was set after one of its own timers was handed out, and its timeout has passed since it began |
| `DoIoReturns.ReturnsIff` | sylar/hook.cpp:107-157 | Over every run: a call returns what its system call gave if and only if the run has a system call of it that was neither interrupted nor told to wait; it fails in addEvent if and only if it gave up; it times out if and only if a check after a wake-up found its flag set |
| `DoIoReturns.TriedAgain` | sylar/hook.cpp:111-113 | In every run the system call is made again after each interruption and after each wake-up whose check does not find the flag set, before any other step of the call |
| `DoIoReturns.OwnMoves` | sylar/hook.cpp:107-157 | Where each step of a call leads |
| `DoIoReturns.ParkMeaning` | sylar/hook.cpp:131-141 | addEvent refuses the call exactly when epoll_ctl fails, and otherwise the call waits on a registration of its own |
| `DoIoReturns.CallbackMeaning` | sylar/hook.cpp:121-128 | The callback of a timer sets the flag and asks for the cancelEvent exactly when the call has not returned and the flag is not set |
| `DoIoTimeouts.TimeoutWaits` | sylar/hook.cpp:109-152 | In every run in which a call adds no timer while an earlier one of it has set its flag or has its callback pending, a return by timeout is not before the deadline of the current timer |
| `DoIoTimeouts.EarlyTimeoutIff` | sylar/hook.cpp:109-152 | In every state a run reaches: after adding a timer a call can return by timeout before the deadline of that timer if and only if the deadline is still to come and an earlier timer of it has set its flag or has its callback pending |
| `DoIoExamples.TimedOutEarly` | sylar/hook.cpp:109-152 | A run in which the callback of the first timer is still pending when the second is added, and the call returns by timeout before the second deadline |
| `DoIoWatch.LostMeaning` | sylar/hook.cpp:120-135 | A parked call with a timeout can no longer time out exactly when its flag is set and no cancelEvent for it is on its way |
| `DoIoWatch.Step2` | sylar/hook.cpp:85-157 | Every step keeps: a call between adding its timer and being woken, with its flag not set, has its timer armed or its callback pending |
| `DoIoWatch.LostStep` | sylar/hook.cpp:119-141 | One step loses a timeout exactly when the call parks with its flag already set and its cancelEvent already made, or when the only cancelEvent on its way fails |
| `DoIoWatch.TimeoutLostIff` | sylar/hook.cpp:109-152 | Over every run, a call parked on a registration that is still in place always has its timer armed, its callback pending or a cancelEvent on its way, if and only if no step of the run is one of these two |
| `DoIoExamples.TimeoutNeverComes` | sylar/hook.cpp:119-139 | A run in which the timer expires and its callback and cancelEvent run before the call parks, so that its timeout is lost |
| `DoIoExamples.CancelEventFails` | sylar/hook.cpp:120-128 | A run in which a parked call loses its timeout because the cancelEvent of its timer callback fails in epoll_ctl |
| `DoIoWakes.WakesStep` | sylar/hook.cpp:131-157 | Every step keeps: the wake-ups of calls that were used up are those whose calls are no longer parked on them |
| `DoIoWakes.EachWakeUpResumed` | sylar/hook.cpp:131-157 | In every run each scheduling of a fiber that is in do_io is used up by exactly one resumption, and one not yet used up belongs to a call parked on it: never two are outstanding, and none when the fiber executes or its call has returned |
| `HttpHeaders.FindMeaning` | sylar/http/http.cpp:66-69 | find in the ordered map finds the one entry whose name is equal without case, or none |
| `HttpHeaders.LookupMeaning` | sylar/http/http.cpp:105-114 | getHeader and hasHeader answer with the value of that entry |
| `HttpHeaders.SetThenLookup` | sylar/http/http.cpp:81-83 | setHeader changes what is found under the name, in whatever case, and nothing else; the map stays sorted |
| `HttpHeaders.DelThenLookup` | sylar/http/http.cpp:93-95 | delHeader removes what is found under the name and nothing else |
| `HttpHeaders.SetAllLookup` | sylar/http/http.cpp:81-83 | Of many headers set in order the last one of a name decides |
| `HttpHeaders.Transitive` | sylar/http/http.cpp:54-57 | The comparison without case is transitive |
| `HttpHeaders.Total` | sylar/http/http.cpp:54-57 | Of two different names, without case, one comes before the other |
| `HttpHeaders.SameNameMeaning` | sylar/http/http.cpp:54-57 | Two names are one exactly when, up to a NUL, they agree letter by letter but for case |
| `HttpHeaders.BeforeMeaning` | sylar/http/http.cpp:54-57 | One folded name comes before another at the first character in which they differ, or as its beginning |
| `HttpHeaders.LengthHeaderNames` | sylar/http/http.cpp:54-57 | Content-Length and content-length are one name, Content_Length is another |
| `HttpRequests.NamesApart` | sylar/http/http.h:18-61 | No method name of the table begins another one |
| `HttpRequests.NameRecovered` | sylar/http/http.cpp:18-26 | A printed method name followed by a space is read back as that method |
| `HttpRequests.DecimalRecovered` | sylar/http/http.h:181-192 | A printed number below 2^64 is read back by the conversion to an unsigned 64-bit number |
| `HttpRequests.NumberMeaning` | sylar/http/http.h:181-192 | A number with leading zeros and at most one sign is converted if it is below 2^64; a minus sign counts it down from 2^64 |
| `HttpRequests.NoNumber` | sylar/http/http.h:181-192 | Nothing else than digits behind at most one sign is converted |
| `HttpRequests.HttpRequest.FirstNotLess` | sylar/http/http.cpp:81-83 | The search by the comparator finds the lower bound |
| `HttpRequests.HttpRequest.GetHeader` | sylar/http/http.cpp:66-69 | The value of the header of that name, or the default |
| `HttpRequests.HttpRequest.SetHeader` | sylar/http/http.cpp:81-83 | The map in memory is updated as specified |
| `HttpRequests.HttpRequest.DelHeader` | sylar/http/http.cpp:93-95 | The map in memory is updated as specified |
| `HttpRequests.HttpRequest.DumpTo` | sylar/http/http.cpp:138-170 | The printing loop appends the specified text |
| `HttpParsing.StepInside` | sylar/http/http11_parser.rl.cpp:117-1195 | No transition lets a mark run ahead of the position or calls back with more than was read |
| `HttpParsing.ClosingAssertions` | sylar/http/http11_parser.rl.cpp:6656-6672 | After every execution the closing assertions on mark, field length and field start hold; the one on the start of the body, which is not reset, holds if and only if the execution finishes or the text is at least as long as what an earlier one set |
| `HttpParsing.UnfinishedHolds` | sylar/http/http11_parser.rl.cpp:6656-6672 | Over any executions of a new parser of which none but the last finishes, the assertion on the start of the body holds in all |
| `HttpParsing.RunBlank` | sylar/http/http11_parser.rl.cpp:516-600 | Whatever is read in however many executions, the automaton finishes only behind an empty line |
| `HttpParsing.SlicesInsideIff` | sylar/http/http11_parser.rl.cpp:91-97 | Every callback gets a slice of what was consumed, for every input, if and only if the execution does not begin inside a query or the mark of the query, which is not reset, is reached before that query can end |
| `HttpParsing.EscapesSlice` | sylar/http/http11_parser.rl.cpp:985-1140 | With the mark further on, the shortest text that ends the query makes its callback get a slice of negative length |
| `HttpParsing.QueryMarkIsStale` | sylar/http/http11_parser.rl.cpp:91-97 | Two executions, of a head up to its query and of the space behind it, of which the second hands out a slice of negative length |
| `HttpParsing.SplitInput` | sylar/http/http11_parser.rl.cpp:91-114 | Splitting an input changes neither the final state nor the total consumed; if the first part stops the automaton, the rest does not matter (for Elsewhere, where only the model stops, see Left out) |
| `HttpParsing.ErrorIsPermanent` | sylar/http/http11_parser.rl.cpp:6656-6664 | After an error no further input is consumed, changes the state or calls back |
| `HttpParsing.HttpParser.Execute` | sylar/http/http11_parser.rl.cpp:91-114 | The loop over the buffer is the automaton of the specification |
| `HttpParsing.HttpParser.Transition` | sylar/http/http11_parser.rl.cpp:117-1195 | The actions of a transition update the marks and call back as specified |
| `HttpRequestParsers.VersionMeaning` | sylar/http/http_parser.cpp:76-91 | Every beginning of HTTP/1.1 is read as version 1.1, only the whole HTTP/1.0 as 1.0, and everything else of at most eight characters is error 1001 |
| `HttpRequestParsers.ErrorStays` | sylar/http/http_parser.cpp:45-104 | An error code set by a callback is not cleared by a later one |
| `HttpRequestParsers.ErrorIsPermanent` | sylar/http/http_parser.cpp:148-150 | A parser in error stays so |
| `HttpRequestParsers.HttpRequestParser.Handle` | sylar/http/http_parser.cpp:45-104 | Each callback changes the request or the error code as specified |
| `HttpRequestParsers.HttpRequestParser.Execute` | sylar/http/http_parser.cpp:136-142 | One execution, all its callbacks in order, and what is left moved to the front of the buffer |
| `HttpRequestParsers.MoveToFront` | sylar/http/http_parser.cpp:140 | The unread part comes to the front and nothing behind it changes |
| `HttpSegments.CharsAgree` | sylar/http/http11_parser.rl.cpp:117-1195 | The character tables of the automaton are those of RFC 3986 and RFC 9110, with the additions that HttpGrammar names |
| `HttpSegments.MethodSegment` | sylar/http/http11_parser.rl.cpp:117-158 | The automaton reads a method and the space after it |
| `HttpSegments.PathSegment` | sylar/http/http11_parser.rl.cpp:158-1195 | The automaton reads an empty path, a rooted one or one without a leading slash, and calls back with it |
| `HttpSegments.QuerySegment` | sylar/http/http11_parser.rl.cpp:1004-1142 | The automaton reads a query and calls back with it |
| `HttpSegments.FragmentSegment` | sylar/http/http11_parser.rl.cpp:738-905 | The automaton reads a fragment and calls back with it |
| `HttpSegments.VersionSegment` | sylar/http/http11_parser.rl.cpp:277-372 | The automaton reads HTTP/1.0 or HTTP/1.1 and the end of its line, LF or CR LF |
| `HttpSegments.OtherVersion` | sylar/http/http11_parser.rl.cpp:318-331 | A major version other than 1 is an error |
| `HttpSegments.LineSegment` | sylar/http/http11_parser.rl.cpp:373-520 | The automaton reads a header line and calls back with its name and its value, without the blanks before it |
| `HttpSegments.BlankLine` | sylar/http/http11_parser.rl.cpp:516-600 | The automaton finishes right behind the blank line, LF or CR LF |
| `HttpHeads.MethodMeaning` | sylar/http/http.cpp:18-26 | The method of a verb is the first listed one whose name it begins with, or none |
| `HttpHeads.LinesBuilt` | sylar/http/http_parser.cpp:96-104 | The callbacks of header lines set exactly these headers in order |
| `HttpHeads.HeadParsed` | sylar/http/http_parser.cpp:136-142 | On every text that begins with a well-formed head one execution finishes right behind it and builds its method, version 1.0 or 1.1, path, query, fragment and headers, or the error for an unlisted method |
| `HttpLanguage.VersionLineIff` | sylar/http/http11_parser.rl.cpp:277-372 | Behind the target the automaton comes to the first line with exactly four texts: HTTP/1.0 or HTTP/1.1, ended by LF or CR LF |
| `HttpLanguage.FinishedIsHead` | sylar/http/http11_parser.rl.cpp:91-1195 | What the automaton has read when it finishes is a well-formed head |
| `HttpLanguage.ParsesIff` | sylar/http/http_parser.cpp:136-150 | The parser finishes on a text if and only if the text begins with a well-formed head by a grammar that does not mention the automaton; it has then consumed that head and built what it says (for the targets that the model follows, see Left out) |
| `HttpRoundTrip.KeptMeaning` | sylar/http/http.cpp:154-159 | dump keeps all headers but the connection header |
| `HttpRoundTrip.PrintedHeaders` | sylar/http/http.cpp:153-168 | Setting the printed headers in order answers every lookup like the printed request, but for connection and, with a body, content-length |
| `HttpTheorem.HeadIsRead` | sylar/http/http_parser.cpp:136-142 | On any text that begins with a printed head one execution finishes, consumes exactly the head and builds the request |
| `HttpTheorem.DashIsRefused` | sylar/http/http11_parser.rl.cpp:138-150 | A printed M-SEARCH request is an error |
| `HttpTheorem.ParsingUndoesPrinting` | sylar/http/http.cpp:138-170 | A printed request parses if and only if its method is not M-SEARCH and its major version is 1; then exactly the head is consumed, the body is left, and method, path, query, every header but connection and content-length are those printed; the fragment is empty, whatever it was |
| `HttpSessions.Stream.ReadFixSize` | sylar/stream.cpp:9-21 | Reads exactly the asked bytes in whatever portions they come, and returns their number cut to a signed 32-bit integer |
| `HttpSessions.ReadHead` | sylar/http/http_session.cpp:108-129 | The loop over reads feeds the parser until the head is complete, an error occurs, the buffer is full or the stream ends |
| `HttpSessions.ReadBody` | sylar/http/http_session.cpp:130-151 | The body is the next bytes after the head, from the buffer and then from the stream |
| `HttpSessions.RecvRequest` | sylar/http/http_session.cpp:100-154 | What recvRequest returns is determined by the reads of its first loop and by what follows them, not by how the body comes in |
| `HttpSplits.RunShifted` | sylar/http/http11_parser.rl.cpp:91-114 | A run on the second part of a text makes the calls of a run on the whole text, shifted, unless a mark was between being set and being used at the split |
| `HttpSplits.HandleShifted` | sylar/http/http_parser.cpp:45-104 | The callbacks of the parts build what the callbacks of the whole text build |
| `HttpSplits.PathLost` | sylar/http/http11_parser.rl.cpp:91-97 | Split inside its path, a target loses what came of the path in the first part |
| `HttpSplits.NameLost` | sylar/http/http11_parser.rl.cpp:91-97 | Split behind its colon, a header line becomes an error, because its name is gone |
| `HttpSplits.VersionLost` | sylar/http/http11_parser.rl.cpp:91-97 | Split right behind its version, a head is read as HTTP/1.1 whatever it was |
| `HttpReceived.HeadDecides` | sylar/http/http_parser.cpp:136-142 | What follows a whole head has no influence on what is read of it |
| `HttpReceived.FirstReadFinishes` | sylar/http/http_parser.cpp:136-142 | Every text that finishes the parser begins with a whole head |
| `HttpReceived.AnyReceived` | sylar/http/http_session.cpp:100-154 | Whatever was sent and however it is split: once the parser has finished, what it consumed ends in an empty line, and the body is the announced number of bytes right behind it, wherever the reads end |
| `HttpReceived.SplitHead` | sylar/http/http_session.cpp:108-129 | A head that comes in several reads, none of which begins between a mark and its use, gives the same request or error and consumes as much as the same head in one read |
| `HttpReceived.FirstReadEnough` | sylar/http/http_session.cpp:108-129 | When the first read brings a whole head, printed by whomever, no other read is made for it |
| `HttpReceived.HeadReceived` | sylar/http/http_session.cpp:100-154 | Whatever head the first read brings whole, for every way in which the bytes behind it come: the session returns its request with the announced number of bytes behind its empty line; refuses if the missing part is no positive 32-bit integer; hangs if the stream ends before |
| `HttpReceived.WholeHeadIff` | sylar/http/http_parser.cpp:136-150 | The texts that finish a new parser without error at their end are the well-formed heads with a listed method |
| `HttpReceived.RequestReceived` | sylar/http/http_session.cpp:100-154 | Any well-formed head with a listed method, HTTP/1.0 or HTTP/1.1, in the first read: the session returns its method, version, target and headers with the announced number of bytes behind it, however these are split |
| `HttpReceived.SplitHeadReceived` | sylar/http/http_session.cpp:100-154 | The same for a head in any number of reads of which none begins between a mark and its use |
| `HttpReceived.BodyStartIsStale` | sylar/http/http11_parser.rl.cpp:6656-6672 | Behind any head an execution on one more character fails the assertion on the start of the body |
| `HttpReceived.SecondExecutionFails` | sylar/http/http11_parser.rl.cpp:6656-6672 | So it does behind a printed GET request without a body |
| `HttpReceived.SentIsReceived` | sylar/http/http_session.cpp:108-153 | For a printed request: if its head comes in the first read, then for every way the rest is split into reads the request is received with its body; it is refused if and only if the missing part of the body is no positive 32-bit integer |
| `HttpReceived.LongBodyRefused` | sylar/http/http_session.cpp:130-151 | In every buffer that holds its head, a legal request with a body of 2^31 bytes, of which none came with the head, is refused |

## Left out

- The destructors, the deletion of blocks, logging, configuration, FdManager, addresses, servlets and the TCP server: no
  properties of their own here.
- writeToFile, readFromFile, toHexString, the positional getReadBuffers, floats and doubles of the byte array: the first is
  wrong from inside a block, the last copies half of its bytes, and the others would add easy members.
- The copying branches of `write` and `read` that differ only in whether the block ends are one branch with a minimum, and
  the double-precision `ceil` in addCapacity is exact integer division rounded up.
- Real sockets, epoll, pipes and context switches: receiving and sending are the bytes that came or went, epoll_ctl succeeds
  or fails, a context switch is a step. Descriptors are not closed behind epoll's back, and the callers of addEvent run in
  a scheduler, on a fiber that executes.
- The interleaving inside a yield: see the scheduler above. What happens to a fiber after a careless step is modelled, but
  nothing is claimed about it beyond SchedulerSafety.CountsAlways and the shutdown results.
- `start`, `stop`, thread creation and the root fiber's call: workers exist from the start, and stop is the setting of its
  two flags.
- Liveness, fairness and the weak memory model: all results are safety over runs.
- The gap in `listExpiredCb` between its look at an empty set and its lock, and the atomicity of `getNextTimer`: each is one
  step. Runs assume deadlines below 2^64 and a clock that does not step back; expiry after a rollover is described by
  TimerQueue.ExpiryExact without these assumptions. A timer's address is not used again in a run.
- The time between the two locks of `addEvent` is one step in IoManager and DoIo; in IoResizes it is not, but there the
  resize and the rest of the call are one step.
- The tickle pipe, and the order in which idle() handles timers and events: tickling changes none of the modelled state.
- `connect_with_timeout`, `accept` and `sleep` of the hooks: the same protocol with fewer steps. The branches of do_io that
  pass a call straight to the system (hook.cpp:88-104) change nothing that is modelled.
- The absolute-form, authority-form, XML and JSON states of the request automaton are one state, Elsewhere, in which an
  execution stops; statements about texts that reach it say nothing about the program beyond that point.
- The response parser, params and cookies: the same map and the same printer without new properties.
- HttpTheorem.ParsingUndoesPrinting: does not claim that the version or the fragment comes back, because the code prints
  `version >> 7` and no fragment.
- HttpParsing.SplitInput: of a first part that ends in Elsewhere it says what the model does and nothing about the program.
  It does not claim that names and values come back from a head that is split between reads; HttpReceived.SplitHead does,
  for clean splits.
- HttpLanguage.ParsesIff: covers empty paths, paths with one leading slash and paths that begin with neither a slash nor a
  letter. The program also finishes on absolute-form and authority-form targets and on paths with two leading slashes, which
  lead to Elsewhere.
- HttpReceived.AnyReceived: says nothing about heads whose target leads to Elsewhere, because the model never finishes on
  them, and not that the empty line is the first one, because the automaton takes line ends in the name of a field.
- HttpReceived.SplitHead: goes one way only, because for particular texts a split between a mark and its use happens to do
  no harm; HttpSplits.PathLost is one that does harm.
- HttpSessions.RecvRequest: a stream that ends inside the body makes the program loop for ever; the model returns `Hangs`.
  Memory limits on the announced length are not modelled.
- HttpRequests.DecimalRecovered: the locale's digit grouping accepted by the conversion is not modelled.
- HttpRequestParsers.HttpRequestParser.Handle: a slice of negative length, which the program cannot make a string of, is the
  empty text here; HttpParsing.SlicesInsideIff says when there is none.
