# Verified models of the muduo network library

This project models the parts of muduo (the `jmuduo/` tree) that are hardest to get right and proves what they are for:

- **Sudoku by dancing links** (`Mesh`, `MeshBuild`, `SudokuRules`, `SudokuBuild`, `SudokuSolver`). The solver is a class
  over a node array, with index links for pointers, and every link is changed in place as in the source. A ghost `Shape`
  and `State` describe the mesh (which rings there are), `Good` says what holds between two covers, and the result is
  total correctness of `solveSudoku` for every puzzle of 81 characters, including the bound on the node pool.
- **Calendar and time zones** (`CInt`, `Date`, `TimeZone`). Truncating C++ division is written out; the conversions are
  inverse to each other on their whole range.
- **Step protocols** (`TimerQueue` with `TimerFates`, `EventLoop`, `AsyncLogging`, `TcpConnection`). Each is a pure state
  machine (`State`, `Action`, `Enabled`, `Apply`, `Run`) with an invariant that holds over every run, and a class whose
  methods take exactly those steps: `ensures View() == Apply(old(View()), ...)`. Other threads, the kernel, clocks and the
  network are nondeterministic actions or parameters. What a run leads to is also told from its actions alone, without
  the steps: which timers are queued and for when, which functors run, which lines are in the log, which bytes are sent,
  what the pollers ask for, who is told to shut down.
- **Data structures and codecs** (`Buffer`, `LengthHeaderCodec`, `FastCgi`, `FastCgiConnection`, `Frames`, `Commands`, `Demux`,
  `Multiplexer`, `PollPoller`, `EPollPoller`, `TimingWheel`; `Channel` is shared by the pollers, `Seqs` by several
  modules). The decoders are proved independent of how TCP cuts the stream; the pollers and the wheel keep their invariants over every run.

Where the code does not do what one would expect, the model follows the code, the exact condition is proved, and a
concrete case shows that it is real:

- a cancelled timer still fires if it was created on another thread and `cancelInLoop` ran before its `addTimerInLoop`
  (`TimerQueue.CancelDooms`, `CancelledCanFire`; case: `CancelledTimerFires`);
- a functor that the loop thread queues before `loop()` gets no wake-up, exactly if nothing else has signalled by then;
  once poll has returned, no wake-up is lost again (`EventLoop.NoLostWakeup`, `BeforeFirstLoop`, `PollReturnHeals`; case:
  `EarlyFunctorWaits`);
- a quit requested before `loop()` is discarded, because `loop()` begins by clearing the flag (`EventLoop.QuitIsHonoured`;
  case: `EarlyQuitIsLost`);
- `stop()` loses lines that were accepted before it, unless the logging thread is between its test of `running_` and its
  next collection, or the buffers are empty (`AsyncLogging.StopLosesNothing`; case: `AcceptedLineIsLost`);
- a send whose functor runs after the half-close is given up without a word (`TcpConnection.LateFunctor`; case:
  `QueuedSendIsLost`);
- the week day is negative on most days before Julian day -1, inside the range of the conversions (`Date.WeekDayIs`,
  `TimeZone.UtcWeekDay`; case: `Date.EarlyWeekDay`), and the day number decoder overflows 32 bits from day 536838868 on
  (`Date.DecoderRange`; case: `FirstOverflow`);
- before the first transition local time does not always convert back, also with a fallback in daylight saving time, as
  the FIXME at TimeZone.cc:224 suspects (`TimeZone.BeforeFirst`; case: `EpochIsLost`);
- a message longer than 65536 bytes is sent but refused on arrival, and from 2^31 bytes on its header does not say its
  length (`LengthHeaderCodec.ArrivesExactly`, `TooLongIsRefused`; case: `OneByteTooLong`);
- a stream of frames that ends in an empty one is not decoded completely until more arrives (`Frames.DecodeEncoded`; case:
  `LoneEmptyFrame`);
- the demultiplexer's assertions hold exactly as long as no id is announced again after its socket came up for an earlier
  client, although the multiplexer hands ids out again (`Demux.AssertionsHold`, `StreamsArrive`; case:
  `AnnouncedAgainFails`);
- a FastCGI parameter stream that is cut short is not noticed (`FastCgi.CutRequestIsReported`; case:
  `CutParameterIsDropped`), and the keep-alive bit is seen only if no other flag is set (`KeepAliveSeen`; case:
  `KeepAliveIsMissed`);
- a channel that was disabled once stays ignored by `PollPoller` after it is enabled again (`HeardUnlessMuted`; case:
  `EnabledAgainIsIgnored`), its removal assertion depends on the same history (`RemoveAssertion`; case:
  `AddedWithoutInterest`), and a removed channel never returns, in any run (`RemovedNeverReturns`).

Two FastCGI requests in one chunk are always taken for one (`FastCgiConnection.TwoAtOnce`); with no chunk across two
requests each is reported on its own (`RequestsAreReported`).

`dafny verify dfyconfig.toml` checks the whole project.

## Model

| member | source | states |
|---|---|---|
| SudokuSolver.SolveSudoku | jmuduo/examples/sudoku/sudoku.cc:259-287 | the answer is a full valid grid that keeps all givens exactly when the givens can be completed, and NoSolution otherwise, also for characters that are no digits |
| SudokuSolver.SudokuSolver.Solve | jmuduo/examples/sudoku/sudoku.cc:91-129 | on any well-formed mesh the search ends; true: the rows pushed are an exact cover of the open columns and the board holds their digits; false: there is none, and every link, every size, the stack and the board are as on entry |
| SudokuSolver.SudokuSolver.TryRow | jmuduo/examples/sudoku/sudoku.cc:113-125 | one row tried: found with it as part of the cover, or no cover contains it and everything is undone |
| SudokuSolver.SudokuSolver.Run | jmuduo/examples/sudoku/sudoku.cc:91-129 | on a freshly built mesh the search succeeds if and only if the board has a completion, and leaves one on the board |
| SudokuSolver.SudokuSolver.constructor | jmuduo/examples/sudoku/sudoku.cc:29-89 | the mesh built for a board is well formed and encodes exactly that board, within the 3241 nodes of the pool |
| SudokuSolver.SudokuSolver.NewRow | jmuduo/examples/sudoku/sudoku.cc:163-180 | the next free node becomes the bottom of its column's ring, alone in its row |
| SudokuSolver.SudokuSolver.AppendRow | jmuduo/examples/sudoku/sudoku.cc:70-88 | the four nodes of a digit in a cell form one row through the cell's column and the digit's row, column and box |
| SudokuSolver.SudokuSolver.Cover | jmuduo/examples/sudoku/sudoku.cc:214-225 | the column leaves the header ring and every row through it leaves all other vertical rings |
| SudokuSolver.SudokuSolver.Uncover | jmuduo/examples/sudoku/sudoku.cc:227-238 | undoes a cover exactly: every node is as it was before |
| SudokuSolver.SudokuSolver.UncoverOthers | jmuduo/examples/sudoku/sudoku.cc:122-124 | the covers of a row's other columns, undone in reverse, leave every node as it was |
| SudokuSolver.SudokuSolver.GetMinColumn | jmuduo/examples/sudoku/sudoku.cc:197-212 | an open column of smallest size, or one of size at most 1 |
| SudokuSolver.SudokuSolver.WriteBoard | jmuduo/examples/sudoku/sudoku.cc:93-108 | every row on the stack puts its digit into its cell, whichever of its nodes was pushed |
| Mesh.CoverGood | jmuduo/examples/sudoku/sudoku.cc:214-225 | covering keeps the mesh well formed (rings, back links, sizes), closes one column, and an open column still links exactly the rows whose columns are all open |
| Mesh.HideNodeWf | jmuduo/examples/sudoku/sudoku.cc:220-223 | hiding a linked node keeps all rings and sizes right and can be undone |
| Mesh.HideLeavesRing | jmuduo/examples/sudoku/sudoku.cc:220-222 | the vertical ring without the hidden node is a ring again |
| Mesh.ShowUndoesHide | jmuduo/examples/sudoku/sudoku.cc:230-235 | showing a hidden node restores the whole pool |
| Mesh.RelinkUndoesUnlink | jmuduo/examples/sudoku/sudoku.cc:236-237 | relinking a header restores the whole pool |
| Mesh.NoRowNoCover | jmuduo/examples/sudoku/sudoku.cc:111-128 | if no row through an open column leaves a solvable rest, there is no exact cover: the search misses nothing |
| Mesh.RowTaken | jmuduo/examples/sudoku/sudoku.cc:112-117 | after covering a row's columns what is open is what that row leaves, with fewer headers, and a cover of it extends to the whole |
| MeshBuild.BuiltIsGood | jmuduo/examples/sudoku/sudoku.cc:29-89 | a mesh under construction with no row left open is well formed |
| MeshBuild.AppendHead | jmuduo/examples/sudoku/sudoku.cc:154-161 | inserting a header left of the root keeps all rings |
| MeshBuild.AppendToColumn | jmuduo/examples/sudoku/sudoku.cc:248-256 | inserting a node above a header appends it to that ring and keeps the others and the sizes |
| MeshBuild.JoinRow | jmuduo/examples/sudoku/sudoku.cc:240-246 | the three put_left calls make a horizontal ring of four |
| SudokuRules.ValidIffEveryDigit | jmuduo/examples/sudoku/sudoku.cc:29-89 | a full grid repeats no digit in any house exactly when every house has every digit, which is what the columns ask for |
| SudokuRules.EncodingIsExact | jmuduo/examples/sudoku/sudoku.cc:29-89 | the encoding has an exact cover if and only if the board has a completion; contradictory givens leave none |
| SudokuRules.RepeatedGivenFails | jmuduo/examples/sudoku/sudoku.cc:29-89 | a digit given twice in a row, column or box leaves no exact cover |
| SudokuRules.CoverSolves | jmuduo/examples/sudoku/sudoku.cc:91-108 | the digits of an exact cover complete the board |
| SudokuRules.SolutionCovers | jmuduo/examples/sudoku/sudoku.cc:29-89 | every completion is an exact cover |
| SudokuRules.Pigeonhole | jmuduo/examples/sudoku/sudoku.cc:29-89 | nine digits without a repeat are all nine digits, and the other way round |
| Date.DecodeThenEncode | jmuduo/muduo/base/Date.cc:20-42 | every day number from -32044 on decodes to a valid date that encodes back to it |
| Date.EncodeThenDecode | jmuduo/muduo/base/Date.cc:20-42 | every valid date from -4800-03-01 on is what its number decodes to |
| Date.NextDayIsNext | jmuduo/muduo/base/Date.cc:20-27 | the next calendar day has the next number, over month ends, leap years and year ends |
| Date.NumberIsOrdered | jmuduo/muduo/base/Date.cc:20-27 | earlier dates have smaller numbers, and only they |
| Date.DecoderRange | jmuduo/muduo/base/Date.cc:29-42 | every intermediate value fits 32 bits exactly up to day 536838867 |
| Date.FirstOverflow | jmuduo/muduo/base/Date.cc:29-42 | the first day number on which it overflows |
| Date.WeekDayIs | jmuduo/muduo/base/Date.h:96-100 | over all day numbers, the week day is in range, and right, exactly from day -1 on and on the Sundays before; otherwise it is a week too small |
| Date.WeekDaysCycle | jmuduo/muduo/base/Date.h:96-100 | the next calendar day has the next day of the week |
| Date.EarlyWeekDay | jmuduo/muduo/base/Date.h:96-100 | a valid date whose week day is -2 |
| Date.Epoch | jmuduo/muduo/base/Date.cc:44-44 | 1 January 1970 is day 2440588, a Thursday, and decodes back |
| Date.DaysOfYear | jmuduo/muduo/base/Date.cc:20-27 | days counted from 1 January are 0 on that day and go up by one a day to 31 December, after which the next year begins |
| CInt.TruncatedIsFloor | jmuduo/muduo/base/TimeZone.cc:315-321 | C++ quotient and remainder become the floor ones by the code's adjustment of a negative remainder |
| TimeZone.FillHMS | jmuduo/muduo/base/TimeZone.cc:71-77 | hour, minute and second of a second in the day |
| TimeZone.ToUtcTime | jmuduo/muduo/base/TimeZone.cc:310-336 | the broken-down time by floor division, also before the epoch, with the week day and the day of the year |
| TimeZone.UtcFieldsMean | jmuduo/muduo/base/TimeZone.cc:310-336 | the date is the one as many days after 1 January 1970 as the time has whole days, hour, minute and second add up to the rest, the week day is the date's where it is in range, and yday is the days since 1 January |
| TimeZone.TheEpoch | jmuduo/muduo/base/TimeZone.cc:310-336 | time 0 is midnight on Thursday, 1 January 1970; the second before it is the last of 1969 |
| TimeZone.UtcRoundTrip | jmuduo/muduo/base/TimeZone.cc:310-351 | seconds to broken-down time and back is the identity, and the fields are valid |
| TimeZone.TmRoundTrip | jmuduo/muduo/base/TimeZone.cc:310-351 | a valid broken-down time to seconds and back is the identity |
| TimeZone.UtcWeekDay | jmuduo/muduo/base/TimeZone.cc:322-328 | the week day of a time is in range exactly under the same condition on its day |
| TimeZone.LowerBound | jmuduo/muduo/base/TimeZone.cc:229-232 | the bisection ends at the first transition not before the key |
| TimeZone.FindLocaltime | jmuduo/muduo/base/TimeZone.cc:218-250 | the local time of the last transition not after the key, or the first one (section 3.2 of RFC 8536) |
| TimeZone.LocaltimeMeans | jmuduo/muduo/base/TimeZone.cc:218-250 | the local time of any transition after which all others lie beyond the key and which is not beyond it itself; the first local time if there is none |
| TimeZone.ToLocalTime | jmuduo/muduo/base/TimeZone.cc:265-285 | the broken-down time at the offset in force |
| TimeZone.LocalFieldsMean | jmuduo/muduo/base/TimeZone.cc:265-285 | its fields are valid, read as UTC they are the instant plus the offset in force, and they carry that offset and its DST flag |
| TimeZone.FromLocalTime | jmuduo/muduo/base/TimeZone.cc:287-308 | the instant, with the repeated hour told apart by the DST flag |
| TimeZone.LocalRoundTrip | jmuduo/muduo/base/TimeZone.cc:265-308 | on alternating tables, every instant from the first transition on survives the way to local time and back, also in the hour that occurs twice |
| TimeZone.BeforeFirst | jmuduo/muduo/base/TimeZone.cc:218-308 | before the first transition the instant comes back if and only if the fallback's local time is before that transition's, or the fallback is daylight saving time an hour ahead of a first transition to standard time |
| TimeZone.EpochIsLost | jmuduo/muduo/base/TimeZone.cc:218-308 | a table with which the epoch does not come back |
| TimerQueue.RunKeeps | jmuduo/muduo/net/TimerQueue.cc:129-259 | over every run the two indices hold the same timers, every timer ever created is alive or was freed once, and outside handleRead the timerfd is fired or armed in time for every timer |
| TimerQueue.StepKeeps | jmuduo/muduo/net/TimerQueue.cc:129-259 | each step keeps that invariant, with cancellation and additions inside a firing batch |
| TimerQueue.QueueKeeps | jmuduo/muduo/net/TimerQueue.cc:129-259 | so from an empty queue, in every run, the indices agree and have the same size and no timer is forgotten |
| TimerQueue.SameSize | jmuduo/muduo/net/TimerQueue.cc:140-144 | the two indices have the same size, as the code asserts |
| TimerQueue.BeginKeeps | jmuduo/muduo/net/TimerQueue.cc:181-201 | a batch is exactly the timers with expiration at or before now, in order |
| TimerQueue.RunsOnlyAlive | jmuduo/muduo/net/TimerQueue.cc:170-176 | a callback runs only on a timer that is alive and due |
| TimerQueue.BatchRunsAsTaken | jmuduo/muduo/net/TimerQueue.cc:160-179 | whatever callbacks add or cancel, each timer of the batch stays the very timer that was taken until the batch is finished |
| TimerQueue.CancelDooms | jmuduo/muduo/net/TimerQueue.cc:140-158 | cancelling frees a timer, or marks it if the present batch holds it, if and only if it is not still waiting for its addTimerInLoop |
| TimerQueue.CancelledCanFire | jmuduo/muduo/net/TimerQueue.cc:108-158 | after a cancel some continuation takes the timer in a later batch if and only if it was still waiting to be added |
| TimerQueue.CancelledTimerFires | jmuduo/muduo/net/TimerQueue.cc:108-158 | such a run from an empty queue |
| TimerQueue.NeverInALaterBatch | jmuduo/muduo/net/TimerQueue.cc:140-233 | on every continuation a timer that the cancel has freed or marked is in no batch taken later |
| TimerQueue.FinishFrees | jmuduo/muduo/net/TimerQueue.cc:203-233 | reset frees every cancelled timer of the batch |
| TimerFates.TimersFollowTheirFates | jmuduo/muduo/net/TimerQueue.cc:108-259 | in every run each timer is where its own history puts it: waiting, in both indices under its expiration, in the batch, or deleted; a repeating timer that has fired and was not cancelled is queued again for the batch's time plus its interval |
| TimerFates.FinishGivesBack | jmuduo/muduo/net/TimerQueue.cc:203-222 | after reset each timer of the batch that repeats and was not cancelled is alive at its address with the same sequence, in both indices under now plus its interval; every other one is deleted |
| TimerFates.EntriesAreQueued | jmuduo/muduo/net/TimerQueue.cc:129-259 | the queue holds nothing else |
| TimerFates.WholeBatchIsRun | jmuduo/muduo/net/TimerQueue.cc:160-179 | between taking a batch and reset exactly the batch's callbacks have run, each once, in order |
| TimerFates.AddArmsExactly | jmuduo/muduo/net/TimerQueue.cc:129-138 | an addition arms the timerfd exactly if the timer is the earliest, for its expiration or 100 microseconds from now, whichever is later |
| TimerFates.FinishArmsExactly | jmuduo/muduo/net/TimerQueue.cc:224-232 | reset arms it in the same way for the earliest timer, if that has a valid expiration |
| TimerFates.FinishLeavesFd | jmuduo/muduo/net/TimerQueue.cc:224-232 | with an empty queue reset leaves it alone |
| TimerFates.BeginReadsFd | jmuduo/muduo/net/TimerQueue.cc:55-64 | handleRead reads it, and leaves it armed if it was armed anew |
| TimerQueue.StaleCancelIsHarmless | jmuduo/muduo/net/TimerQueue.cc:145-157 | an id whose timer is gone changes no timer, also when the address is in use again |
| TimerQueue.RearmedInTime | jmuduo/muduo/net/TimerQueue.cc:39-53 | after reset the timerfd is in time for every timer, also for one whose expiration is no valid time |
| TimerQueue.RearmedExactly | jmuduo/muduo/net/TimerQueue.cc:223-232 | it arms if and only if the earliest expiration is valid |
| TimerQueue.Queue.Insert | jmuduo/muduo/net/TimerQueue.cc:235-259 | the timer enters both indices, and the result says whether it is earlier than all others |
| TimerQueue.Queue.AddTimerInLoop | jmuduo/muduo/net/TimerQueue.cc:129-138 | takes the add step |
| TimerQueue.Queue.CancelInLoop | jmuduo/muduo/net/TimerQueue.cc:140-158 | takes the cancel step |
| TimerQueue.Queue.TakeExpired | jmuduo/muduo/net/TimerQueue.cc:181-191 | moves the expired entries out, smallest first, and leaves the others |
| TimerQueue.Queue.GetExpired | jmuduo/muduo/net/TimerQueue.cc:181-201 | the expired timers, in order, are out of both indices |
| TimerQueue.Queue.HandleReadBegin | jmuduo/muduo/net/TimerQueue.cc:160-169 | takes the step up to the callbacks, with a batch that is the expired timers |
| TimerQueue.Queue.HandleReadEnd | jmuduo/muduo/net/TimerQueue.cc:177-179 | takes the step after them: repeating timers go back, the others are freed, the timerfd is armed |
| TimerQueue.Queue.GiveBackOne | jmuduo/muduo/net/Timer.cc:16-26 | a repeating timer restarts from now by its interval |
| EventLoop.NoLostWakeup | jmuduo/muduo/net/EventLoop.cc:124-162 | in a call of loop(), over every interleaving, the loop never blocks unsignalled with functors pending, if and only if at the call nothing was pending or some signal was on its way |
| EventLoop.PollReturnHeals | jmuduo/muduo/net/EventLoop.cc:134-156 | once poll has returned, no wake-up is lost for the rest of the call |
| EventLoop.BeforeFirstLoop | jmuduo/muduo/net/EventLoop.cc:198-212 | before the first call the condition fails exactly if the loop thread has queued something and no other thread has queued anything or asked to quit |
| EventLoop.QuitIsHonoured | jmuduo/muduo/net/EventLoop.cc:124-172 | a quit from any thread stands, and wakes a blocked loop, until loop() returns because of it, if and only if it is requested while loop() runs |
| EventLoop.EarlyQuitIsLost | jmuduo/muduo/net/EventLoop.cc:124-172 | a run in which a quit before loop() is discarded and the loop blocks without a signal |
| EventLoop.EarlyFunctorWaits | jmuduo/muduo/net/EventLoop.cc:198-212 | the smallest run in which an early functor waits |
| EventLoop.RunInOrder | jmuduo/muduo/net/EventLoop.cc:296-311 | executed, taken and pending functors are exactly those that the actions handed in, from any thread, in order, each run at most once |
| EventLoop.SignalsFollow | jmuduo/muduo/net/EventLoop.cc:124-212 | in every run the eventfd counts the wake-ups since it was read last, the flag says whether a quit came since loop() began, and the threads that still owe a wake-up are those that have queued or quit and not yet written |
| EventLoop.ReturnsOnlyIfAsked | jmuduo/muduo/net/EventLoop.cc:124-162 | loop() returns only if a quit was asked for during the call |
| EventLoop.IterationDrains | jmuduo/muduo/net/EventLoop.cc:134-156 | the loop does not test quit or block again before it has run all it owed |
| EventLoop.PollReturnsOwes | jmuduo/muduo/net/EventLoop.cc:137-156 | when poll returns it owes everything queued so far |
| EventLoop.EventLoop.QueueInLoop | jmuduo/muduo/net/EventLoop.cc:198-212 | takes the push step on the loop thread, inside loop() or outside, with a wake-up only while functors run |
| EventLoop.EventLoop.DoPendingFunctors | jmuduo/muduo/net/EventLoop.cc:296-311 | runs all that was pending, in order; what the functors queue meanwhile stays pending, with a wake-up for each |
| AsyncLogging.RunKeeps | jmuduo/muduo/base/AsyncLogging.cc:35-167 | over every interleaving of appenders and the logging thread: spare buffers, buffer sizes and the text of all accepted lines |
| AsyncLogging.LoopHeadAssertions | jmuduo/muduo/base/AsyncLogging.cc:80-86 | both spare buffers are there and empty at the loop head, pop_back has something to pop, and the front end is out of its spare only after handing over a full buffer |
| AsyncLogging.LogIsComplete | jmuduo/muduo/base/AsyncLogging.cc:35-167 | while no batch exceeds 25 buffers, file, batch in flight, full buffers and current buffer are all lines that were appended and are shorter than a buffer, whole and in order |
| AsyncLogging.LogIsCompleteUpToDrops | jmuduo/muduo/base/AsyncLogging.cc:116-136 | in general the batches and what is in memory are those lines, and the file lacks exactly the buffers after the second of each batch of more than 25, for which it has a notice |
| AsyncLogging.LinesOfRun | jmuduo/muduo/base/AsyncLogging.cc:35-61 | the accepted lines of a run are those of its append actions that are shorter than a buffer |
| AsyncLogging.AppendFills | jmuduo/muduo/base/AsyncLogging.cc:35-61 | a line goes to the current buffer if it fits, and otherwise begins the next while the full one is handed over |
| AsyncLogging.StopLosesNothing | jmuduo/muduo/base/AsyncLogging.cc:80-167 | over every interleaving nothing accepted before stop() is missing from the batches, of which only oversized ones are cut, if and only if the logging thread has tested running_ and not yet collected, or the buffers are empty |
| AsyncLogging.AcceptedLineIsLost | jmuduo/muduo/base/AsyncLogging.cc:80-167 | a run in which a line appended before stop() never reaches the file |
| AsyncLogging.AsyncLogging.Append | jmuduo/muduo/base/AsyncLogging.cc:35-61 | takes the append step |
| AsyncLogging.AsyncLogging.TestRunning | jmuduo/muduo/base/AsyncLogging.cc:80-80 | takes the loop's test of running_ |
| AsyncLogging.AsyncLogging.Collect | jmuduo/muduo/base/AsyncLogging.cc:86-111 | takes the critical section of the logging thread |
| AsyncLogging.AsyncLogging.WriteBatch | jmuduo/muduo/base/AsyncLogging.cc:116-163 | writes or cuts the batch and turns it into spare buffers |
| TcpConnection.ConnectionKeeps | jmuduo/muduo/net/TcpConnection.cc:73-366 | in every run, with functors that other threads' sends have queued: bytes taken by the socket and then the output buffer are the accepted messages but those lost to EPIPE; write interest is on exactly while something is queued; the write side is shut down at most once, with nothing left to send |
| TcpConnection.EverythingGivenIsSent | jmuduo/muduo/net/TcpConnection.cc:73-366 | in every run, told from its actions: the messages are, in order, the data of the sends made while the connection was up and of the functors that ran before it was closed; one is given up only where the kernel answers EPIPE; all others are what the socket took, followed by the output buffer |
| TcpConnection.SendMoves | jmuduo/muduo/net/TcpConnection.cc:140-204 | a send passes on what the kernel takes if nothing is queued, and queues the rest behind what is queued; EPIPE gives it up exactly if nothing is queued |
| TcpConnection.SendReports | jmuduo/muduo/net/TcpConnection.cc:151-192 | completion is reported exactly if the kernel took it all at once, the high-water mark exactly if the queue grew across it |
| TcpConnection.HandleWriteMoves | jmuduo/muduo/net/TcpConnection.cc:294-343 | the first n bytes of the queue move to the socket; the last of them is reported and lets a pending half-close go on |
| TcpConnection.ShutdownMoves | jmuduo/muduo/net/TcpConnection.cc:207-228 | shutdown is passed on at once exactly if nothing is queued |
| TcpConnection.SilentAfterClose | jmuduo/muduo/net/TcpConnection.cc:140-366 | a closed connection sends, queues and accepts nothing on any continuation |
| TcpConnection.SilentAfterShutdown | jmuduo/muduo/net/TcpConnection.cc:140-343 | after the half-close no continuation writes a byte or shuts down again, also with functors that run late |
| TcpConnection.LateFunctor | jmuduo/muduo/net/TcpConnection.cc:140-204 | a functor that runs after the half-close loses its whole message; one that runs before it is queued and puts the half-close off |
| TcpConnection.QueuedSendIsLost | jmuduo/muduo/net/TcpConnection.cc:73-204 | a run in which a send queued before shutdown() is lost |
| TcpConnection.HighWaterMarkCrossed | jmuduo/muduo/net/TcpConnection.cc:184-192 | the callback is queued with the new size if and only if the queue grows across the mark |
| TcpConnection.TcpConnection.SendInLoop | jmuduo/muduo/net/TcpConnection.cc:140-204 | takes the send step for every answer of the socket |
| TcpConnection.TcpConnection.RunQueued | jmuduo/muduo/net/TcpConnection.cc:73-89 | takes the step of a queued send |
| TcpConnection.TcpConnection.HandleWrite | jmuduo/muduo/net/TcpConnection.cc:294-343 | takes the write step, with the pending half-close |
| TcpConnection.TcpConnection.Shutdown | jmuduo/muduo/net/TcpConnection.cc:207-228 | takes the shutdown step |
| Buffer.EnsuredRoom | jmuduo/muduo/net/Buffer.h:332-353 | the assertion in the compaction branch always holds, and both branches make the room asked for |
| Buffer.EnsuredLazily | jmuduo/muduo/net/Buffer.h:332-353 | nothing moves while there is room, compaction is preferred to growth, and growth is to just the size needed |
| Buffer.StorageBound | jmuduo/muduo/net/Buffer.h:108-353 | over every sequence of operations, reserving room among them, if content and requested room stay within M, the storage stays within max(1032, 2M+8) |
| Buffer.Int32RoundTrip | jmuduo/muduo/net/Buffer.h:211-278 | an int32 in network order reads back, over its whole range |
| Buffer.NetworkOrder | jmuduo/muduo/net/Buffer.h:211-278 | the most significant byte comes first, and the sign is two's complement |
| Buffer.TwosComplement | jmuduo/muduo/net/Buffer.h:211-278 | a peeked int16 or int8 is the number of its width that is congruent to its bytes |
| Buffer.Buffer.Append | jmuduo/muduo/net/Buffer.h:177-183 | the content grows by the bytes at its end |
| Buffer.Buffer.Prepend | jmuduo/muduo/net/Buffer.h:300-306 | the content grows by the bytes at its front |
| Buffer.Buffer.Retrieve | jmuduo/muduo/net/Buffer.h:108-120 | the content loses its first bytes |
| Buffer.Buffer.MakeSpace | jmuduo/muduo/net/Buffer.h:332-353 | growth or compaction in place, with the content unchanged |
| Buffer.Buffer.Shrink | jmuduo/muduo/net/Buffer.h:309-316 | new storage, same content |
| Buffer.Buffer.FindCRLF | jmuduo/muduo/net/Buffer.h:86-99 | the first line end at or after the start, or none |
| Buffer.Buffer.ReadFd | jmuduo/muduo/net/Buffer.cc:30-83 | whatever the kernel delivers into the room and the 64 KiB spill is appended, all of it in order; an error is saved and changes nothing |
| LengthHeaderCodec.CuttingDoesNotMatter | jmuduo/examples/asio/chat/codec.h:24-52 | every way of cutting a stream delivers the same messages, leaves the same bytes and finds the same fault |
| LengthHeaderCodec.MessagesArrive | jmuduo/examples/asio/chat/codec.h:24-64 | any list of messages of at most 65536 bytes arrives as sent |
| LengthHeaderCodec.ArrivesExactly | jmuduo/examples/asio/chat/codec.h:24-64 | a list of messages arrives as sent if and only if each has at most 65536 bytes |
| LengthHeaderCodec.TooLongIsRefused | jmuduo/examples/asio/chat/codec.h:34-39 | a longer one is refused at the other end if and only if its length as an int32 is not a valid one, which is so below 2^31 bytes |
| LengthHeaderCodec.OneByteTooLong | jmuduo/examples/asio/chat/codec.h:34-39 | 65537 bytes are refused |
| LengthHeaderCodec.HelloOnTheWire | jmuduo/examples/asio/chat/codec.h:24-64 | "hello" byte for byte, sent and read |
| LengthHeaderCodec.OnMessage | jmuduo/examples/asio/chat/codec.h:24-52 | delivers all whole messages of the buffer and leaves the rest |
| LengthHeaderCodec.Send | jmuduo/examples/asio/chat/codec.h:55-64 | the low 32 bits of the length in network order, then the message |
| Frames.DecodeEncoded | jmuduo/examples/multiplexer/demux.cc:82-118 | any list of frames is decoded completely if and only if it does not end in an empty one; otherwise all but that one are delivered |
| Frames.LoneEmptyFrame | jmuduo/examples/multiplexer/demux.cc:84-91 | an empty frame alone stays in the buffer |
| Frames.DecodeMore | jmuduo/examples/multiplexer/demux.cc:82-118 | decoding more of the stream continues where decoding less of it stopped |
| Frames.SplitCarries | jmuduo/examples/multiplexer/multiplexer_simple.cc:131-144 | the frames of one piece carry its bytes under its id, and nothing for any other |
| Frames.SplitIsFull | jmuduo/examples/multiplexer/multiplexer_simple.cc:131-144 | every frame of a piece but the last has 255 bytes, and the last is not empty |
| Frames.FrameOnTheWire | jmuduo/examples/multiplexer/demux.cc:203-218 | a frame byte for byte: length, low and high byte of the id |
| Frames.SendBuffer | jmuduo/examples/multiplexer/multiplexer_simple.cc:131-144 | the buffer is drained into frames of at most 255 bytes |
| Frames.SendPacket | jmuduo/examples/multiplexer/demux.cc:203-218 | one frame: length, id, bytes |
| Commands.AtoiReads | jmuduo/examples/multiplexer/demux.cc:120-125 | atoi reads what %d has written |
| Commands.DigitsRead | jmuduo/examples/multiplexer/multiplexer_simple.cc:77-92 | %d writes no leading zeros |
| Commands.TextsRead | jmuduo/examples/multiplexer/multiplexer_simple.cc:77-92 | the three command texts as they are printed |
| Commands.UpRead | jmuduo/examples/multiplexer/demux.cc:120-126 | the UP command is read as that id coming up |
| Commands.DownRead | jmuduo/examples/multiplexer/demux.cc:120-126 | the DOWN command is read as that id going down, whatever the peer's address looks like |
| Commands.HangupRead | jmuduo/examples/multiplexer/multiplexer_simple.cc:233-247 | the DISCONNECT command is read as hanging that id up |
| Demux.FrameKeeps | jmuduo/examples/multiplexer/demux.cc:82-156 | one frame: the assertions hold exactly if it does not announce an id whose socket has come up, and then the entry of every connection has, sent or parked, exactly its part since it was announced last |
| Demux.RunKeeps | jmuduo/examples/multiplexer/demux.cc:82-185 | the same over every run of arrivals and of sockets coming up and going away |
| Demux.AssertionsHold | jmuduo/examples/multiplexer/demux.cc:96-156 | with ids handed out again after they were taken back, at every moment of every run: the assertions (data finds its entry, a socket that is up has nothing parked, an announced id is new) have held if and only if no id was announced again after its socket had come up for an earlier client |
| Demux.StreamsArrive | jmuduo/examples/multiplexer/demux.cc:82-218 | clients announced, served, taken back and their ids handed out again, their streams interleaved, framed and cut in any way: under that same condition every client still there has an entry, and every entry got its latest client's stream byte for byte, or a prefix if its socket's other end went away |
| Demux.OnceNeverClashes | jmuduo/examples/multiplexer/demux.cc:96-156 | while every id is announced only once, the condition and so every assertion holds in every run |
| Demux.EntriesFollowTheirSockets | jmuduo/examples/multiplexer/demux.cc:158-185 | at every moment, while the assertions hold, an entry is connected exactly if its socket has come up and lost exactly if its other end has gone |
| Demux.LostGotWhatHadCome | jmuduo/examples/multiplexer/demux.cc:82-185 | a socket whose other end goes away has been sent exactly what had arrived for it until then, and gets nothing more on any continuation in which the assertions hold |
| Demux.RepliesAre | jmuduo/examples/multiplexer/demux.cc:170-178 | over every run, what goes back is one DISCONNECT frame for each socket that has gone away, in that order |
| Demux.HangupsArrive | jmuduo/examples/multiplexer/demux.cc:170-178 | so the multiplexer decodes exactly those hang-ups from it |
| Demux.AnnouncedAgainFails | jmuduo/examples/multiplexer/demux.cc:120-156 | the smallest run, from arriving bytes, in which an assertion fails |
| Demux.DemuxServer.OnServerMessage | jmuduo/examples/multiplexer/demux.cc:82-118 | delivers every whole frame to its socket or its pending buffer, and carries out the commands |
| Demux.DemuxServer.DoCommand | jmuduo/examples/multiplexer/demux.cc:120-156 | makes, shuts down or erases an entry |
| Demux.DemuxServer.OnSocksConnection | jmuduo/examples/multiplexer/demux.cc:158-185 | flushes what was parked, or sends DISCONNECT |
| Multiplexer.CuttingDoesNotMatter | jmuduo/examples/multiplexer/multiplexer_simple.cc:200-231 | the clients get what the whole stream gives them, however it is cut |
| Multiplexer.ForwardAllIs | jmuduo/examples/multiplexer/multiplexer_simple.cc:200-247 | a client is sent exactly its part of the frames, up to the one that hangs it up |
| Multiplexer.AnswersArrive | jmuduo/examples/multiplexer/multiplexer_simple.cc:200-247 | interleaved answers, framed and cut in any way, reach every client byte for byte up to its hang-up |
| Multiplexer.MultiplexServer.SendToClient | jmuduo/examples/multiplexer/multiplexer_simple.cc:200-231 | delivers every whole frame to its client, skips those of unknown ids, and carries out DISCONNECT |
| FastCgi.RequestDecodes | jmuduo/examples/fastcgi/fastcgi.cc:46-222 | any encoding of a request by sections 3.3 and 3.4 of the FastCGI Specification (any request id, padding and reserved bytes on every record, either form of every length), split into records and network chunks in any way, is decoded to the encoded map (the last value wins), the body and the flag |
| FastCgi.CutRequestIsReported | jmuduo/examples/fastcgi/fastcgi.cc:46-93 | with a parameter stream cut at any byte the request is reported all the same, with exactly the pairs before the cut |
| FastCgi.CutParameterIsDropped | jmuduo/examples/fastcgi/fastcgi.cc:46-93 | such a request, reported without its parameter |
| FastCgi.KeepAliveSeen | jmuduo/examples/fastcgi/fastcgi.cc:231-247 | the keep-alive bit is seen if and only if it is not set or no other flag is |
| FastCgi.KeepAliveIsMissed | jmuduo/examples/fastcgi/fastcgi.cc:231-247 | a request with flags 3, taken not to be kept alive |
| FastCgi.IdleRecordsAreSkipped | jmuduo/examples/fastcgi/fastcgi.cc:180-247 | any number of records of other kinds, and begin records that are short or for another role, change nothing |
| FastCgi.RequestOnTheWire | jmuduo/examples/fastcgi/fastcgi.cc:4-39 | a request with one parameter and a body, byte for byte |
| FastCgiConnection.RequestsAreReported | jmuduo/examples/fastcgi/fastcgi.h:25-44 | any number of requests on one connection, each encoded and cut in its own way with no chunk across two of them: every one is reported, once and in order, with its own map and body, and the connection is shut down exactly if one of them asked for it |
| FastCgiConnection.NotYet | jmuduo/examples/fastcgi/fastcgi.cc:60-70 | before its last byte no request is complete |
| FastCgiConnection.TwoAtOnce | jmuduo/examples/fastcgi/fastcgi.h:25-44 | any two requests that arrive in one chunk are reported once, with the maps laid over each other and the bodies run together |
| FastCgi.CuttingDoesNotMatter | jmuduo/examples/fastcgi/fastcgi.cc:180-222 | the state after all chunks is the state after the whole stream at once |
| FastCgi.PairsParse | jmuduo/examples/fastcgi/fastcgi.cc:72-93 | any encoding of a list of pairs parses to its map with nothing left |
| FastCgi.CutStream | jmuduo/examples/fastcgi/fastcgi.cc:72-93 | any encoding cut at byte k gives the pairs that are whole before the cut, and is accepted if and only if the cut is between pairs |
| FastCgi.WholePairsIs | jmuduo/examples/fastcgi/fastcgi.cc:72-93 | those are the most pairs that fit in k bytes |
| FastCgi.SumDoesNotWrap | jmuduo/examples/fastcgi/fastcgi.cc:82-82 | the 32-bit sum of two lengths is the true sum |
| FastCgi.FastCgiCodec.ReadLen | jmuduo/examples/fastcgi/fastcgi.cc:95-120 | a length of one or four bytes, or -1 without reading past the end |
| FastCgi.FastCgiCodec.ParseAllParams | jmuduo/examples/fastcgi/fastcgi.cc:72-93 | the pairs of the stream, up to the first that is cut short |
| FastCgi.FastCgiCodec.OnRecord | jmuduo/examples/fastcgi/fastcgi.cc:192-213 | one record by its type; a begin record sets the keep-alive flag of a responder request |
| FastCgi.FastCgiCodec.ParseRequest | jmuduo/examples/fastcgi/fastcgi.cc:180-222 | every whole record of the buffer is handled and taken out, the rest stays |
| FastCgi.FastCgiCodec.OnMessage | jmuduo/examples/fastcgi/fastcgi.h:25-44 | a complete request is reported and all but the flag is reset |
| FastCgi.ResponseDecodes | jmuduo/examples/fastcgi/fastcgi.cc:124-178 | a client decodes the body, the end of the stream and the end of the request, on eight-byte boundaries |
| FastCgi.ResponseOnTheWire | jmuduo/examples/fastcgi/fastcgi.cc:124-178 | a response with the body "hi", byte for byte |
| FastCgi.BareResponse | jmuduo/examples/fastcgi/fastcgi.cc:156-178 | a body that does not fit one record goes out bare, followed by the two ending records |
| FastCgi.Respond | jmuduo/examples/fastcgi/fastcgi.cc:156-178 | header in front, padding and endings behind, in place; a body too long gets the endings alone |
| PollPoller.Run | jmuduo/muduo/net/poller/PollPoller.cc:71-135 | in every run entries, map and indices stay in bijection, through swap-removal of live or ignored entries |
| PollPoller.RemoveKeeps | jmuduo/muduo/net/poller/PollPoller.cc:107-135 | swap-removal keeps the bijection |
| PollPoller.HeardUnlessMuted | jmuduo/muduo/net/poller/PollPoller.cc:87-104 | poll listens for a registered channel if and only if it was never without interest since it was added |
| PollPoller.PollIsAsked | jmuduo/muduo/net/poller/PollPoller.cc:71-105 | what poll is asked about a registered channel, told from the actions: its descriptor, negated once it has been without interest, and the interest it asked for last, as a short |
| PollPoller.ObjectsAreRemembered | jmuduo/muduo/net/poller/PollPoller.cc:71-135 | a channel has the descriptor it was created with and the interest it asked for last |
| PollPoller.ToShortIs | jmuduo/muduo/net/poller/PollPoller.cc:80-98 | the cast to short gives the one 16-bit number with the same low bits |
| PollPoller.EnabledAgainIsIgnored | jmuduo/muduo/net/poller/PollPoller.cc:87-104 | a run in which an enabled channel is ignored |
| PollPoller.RemoveAssertion | jmuduo/muduo/net/poller/PollPoller.cc:113-117 | the removal assertion on the entry holds exactly for channels that were disabled after being added |
| PollPoller.AddedWithoutInterest | jmuduo/muduo/net/poller/PollPoller.cc:113-117 | a run in which it fails |
| PollPoller.RemovedStaysOut | jmuduo/muduo/net/poller/PollPoller.cc:107-135 | an unregistered channel that kept its index stays unregistered on every continuation |
| PollPoller.RemovedNeverReturns | jmuduo/muduo/net/poller/PollPoller.cc:107-135 | so after a removal no continuation of the run can update the channel again |
| PollPoller.ActiveIsExact | jmuduo/muduo/net/poller/PollPoller.cc:51-69 | the active channels are exactly the registered ones whose entry has events, each once |
| PollPoller.PolledIsExact | jmuduo/muduo/net/poller/PollPoller.cc:31-69 | so after poll has returned in any run, fillActiveChannels finds exactly the registered channels for which poll has reported events |
| PollPoller.Poller.UpdateChannel | jmuduo/muduo/net/poller/PollPoller.cc:71-105 | takes the update step |
| PollPoller.Poller.RemoveChannel | jmuduo/muduo/net/poller/PollPoller.cc:107-135 | takes the removal step, with the swap |
| PollPoller.Poller.FillActiveChannels | jmuduo/muduo/net/poller/PollPoller.cc:51-69 | collects the channels of the first entries with events, never one that is not registered; each is told its entry's events, and no other channel is told anything |
| EPollPoller.RunKeeps | jmuduo/muduo/net/poller/EPollPoller.cc:116-216 | in every run every operation is legal and the kernel's set is exactly the channels in state kAdded with their present events; the process is aborted only if the kernel runs out of memory or watches |
| EPollPoller.AssertionsHold | jmuduo/muduo/net/poller/EPollPoller.cc:116-189 | the assertions of updateChannel and removeChannel follow |
| EPollPoller.EventsReachTheirChannel | jmuduo/muduo/net/poller/EPollPoller.cc:91-111 | a pointer that the kernel reports leads to the registered channel of that descriptor |
| EPollPoller.KernelFollows | jmuduo/muduo/net/poller/EPollPoller.cc:116-216 | what the kernel watches, told from the actions: a channel's descriptor exactly while the channel has been added and has not been left without interest since, for the events it asked for last |
| EPollPoller.AbortsExactly | jmuduo/muduo/net/poller/EPollPoller.cc:194-216 | an update aborts exactly if the kernel lacks what it takes to add or to modify |
| EPollPoller.RemovedCanReturn | jmuduo/muduo/net/poller/EPollPoller.cc:167-189 | a removed channel is out of the kernel's set and can be added again |
| EPollPoller.Poller.UpdateChannel | jmuduo/muduo/net/poller/EPollPoller.cc:116-162 | takes the update step |
| EPollPoller.Poller.RemoveChannel | jmuduo/muduo/net/poller/EPollPoller.cc:167-189 | takes the removal step |
| EPollPoller.Poller.Control | jmuduo/muduo/net/poller/EPollPoller.cc:194-216 | one epoll_ctl call: done, logged if a delete fails, fatal if another operation does |
| TimingWheel.ToldOnTheNthTick | jmuduo/examples/idleconnection/echo.cc:36-81 | over every run a tick tells a connection to shut down if and only if it still exists, was not told before and has been silent for exactly N ticks; none is silent for longer |
| TimingWheel.LogIsExact | jmuduo/examples/idleconnection/echo.cc:36-81 | the whole log of a run, told from its actions: tick t tells a connection to shut down if and only if by then it had come and not gone, had last been heard of exactly N ticks ago and had not been told before |
| TimingWheel.LiveUnlessGone | jmuduo/examples/idleconnection/echo.cc:36-56 | a connection exists exactly if it has come and has not gone |
| TimingWheel.ToldOnce | jmuduo/examples/idleconnection/echo.h:51-58 | no connection is told twice |
| TimingWheel.RunPlaces | jmuduo/examples/idleconnection/echo.cc:36-81 | the newest bucket that holds a connection is as old as its silence |
| TimingWheel.CountRotate | jmuduo/examples/idleconnection/echo.h:63-66 | dropping a bucket takes one reference from each entry in it |
| TimingWheel.EchoServer.OnConnection | jmuduo/examples/idleconnection/echo.cc:36-56 | a new entry with one reference, in the back bucket |
| TimingWheel.EchoServer.OnMessage | jmuduo/examples/idleconnection/echo.cc:58-75 | another reference in the back bucket, if the entry is still alive |
| TimingWheel.EchoServer.OnTimer | jmuduo/examples/idleconnection/echo.cc:77-81 | the front bucket goes, and exactly the entries whose use count falls to zero shut their live connections down |

## Left out

- System calls, sockets, files and `/proc`: what they answer is a parameter (how much a write takes, what a read delivers, which entries have events, what time it is). Clocks are integers of microseconds or seconds.
- Third-party wrappers (`cdns`, `curl`, protobuf, zlib), small servers, `main` programs, load tests, the Java and Python files and the thread wrappers: they would add only easy members.
- `LogStream` number formatting, `BlockingQueue`, `CountDownLatch` and similar small classes: easier than what is here.
- `Connector` with an overlapping stop and start, `connectDestroyed` for states other than kConnected, `Hub` unsubscribing while it iterates, `RpcCodec` and `ProtobufCodec` after an error, and the multiplexer's id pool across a reconnect: the code gives no guarantee there to prove.
- SudokuSolver.SolveSudoku: characters are taken as code points, and the pool index stands for the node pointer.
- Date.DecodeThenEncode: on unbounded integers; Date.DecoderRange says where 32-bit arithmetic agrees.
- TimeZone.FindLocaltime: the table is given as sequences; reading it from a file is left out. `gmtime_r` and `timegm` are read as `toUtcTime` and `fromUtcTime`, as the FIXMEs in the code say.
- TimerQueue.RunKeeps: `addTimer` and `cancel` reach the loop as steps in any order; what a callback does to the queue are add and cancel steps between two callbacks. A repeating timer's interval is not negative.
- EventLoop.EventLoop.DoPendingFunctors: no other thread steps in between; the interleavings are those of the state machine, of which the loop's parts are methods of their own.
- AsyncLogging.LogIsComplete: flushing, rolling the log file and the notice's wording are left out; a buffer is the text in it.
- TcpConnection.ConnectionKeeps: sends from other threads arrive as functors after the test of `state_`, whose races are not part of this model; once the write side is shut down the kernel answers such a write with EPIPE. The output buffer is a byte sequence here; `Buffer` is proved to be one. Reading is left out, and the callbacks are taken to be set.
- Buffer.Buffer.ReadFd: the saved errno is a result instead of a pointer; `swap` is left out.
- Demux.StreamsArrive: both ends of the shared connection stay connected. Each socket is the bytes it has been given.
- Demux.DemuxServer.DoCommand: where an assertion of the code fails, the model only records it. A command too short for an id, which the code reads past its end, is read as id 0.
- Multiplexer.AnswersArrive: for the clients connected at its start; the id pool and clients coming and going are left out.
- FastCgi.FastCgiCodec.ParseRequest: the codec's own buffers for parameters and body are byte strings. Request ids are not checked, as in the code, so requests interleaved on one connection are not told apart.
- FastCgiConnection.RequestsAreReported: a chunk that brings the end of one request and a part of the next is not covered, except for two whole requests (`FastCgiConnection.TwoAtOnce`); the web servers that the header names do not send one before the answer to the other.
- PollPoller.Poller.UpdateChannel: sets the interest and updates in one step, as `Channel::update` does.
- EPollPoller.Poller.Control: whether the kernel has memory and watches to spare is an input; the growth of the event array is left out.
- TimingWheel.EchoServer.OnTimer: echoing and the dump of the buckets are left out; a connection's destruction is a step of its own.
