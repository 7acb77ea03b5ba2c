# Verified model of a multi-threaded problem-tracker server

The repository is a small TCP server in front of a MySQL problem tracker. This project models its four cores
and proves what they promise, for every input, every run and every interleaving:

- **One connection of an `EpollWorker`** (`Connection`, `ConnectionSafety`, `ConnectionService`). The epoll
  thread, any number of pool tasks and any number of "active" threads share one `fd_info`; each access to a
  shared variable is a step of its own. From one invariant over all flags and program counters follow the
  order of requests, mutual exclusion, a single close, the exact condition under which what has been read can
  still be finished, and the exact condition under which the connection can still be served. `ConnectionRuns`
  shows what each function of the source does when nobody interferes, as a run of that system,
  `ConnectionMachine.FdInfo` is the object whose fields those functions update in place, and
  `ConnectionSessions` says when a closed connection has given its session up.
- **The thread pool** (`ThreadPool`, `PoolSafety`, `PoolMachine`): queue, mutex, condition variable, stop flag
  and histories; first in first out, conservation of tasks, no lost wake-up, service of everything queued, and
  a shutdown that terminates. `PoolMachine.ThreadPoolObject` is the pool as an object, updated in place.
- **The tracker's tables and its two statistics queries** (`Tables`, `Driver`, `Statistics` and the proofs
  about them, up to `StatisticsMeaning`, which says in durations and set sizes what each column shows).
  `CallEffects` says which rows each call adds or removes, and exactly when it succeeds. The queries are the join, filter, group, aggregate and order pipelines of the source. They are
  proved equal to direct counts, to agree with each other, and to change under updates as they should. Every
  theorem about a query quantifies over all results that the server may return, rows that tie in any order.
- **The wire format** (`Codec`, `Delivery`, `Fields`, `TimeSpent`, `Numbers`): encoder, two decoders, what becomes of
  a stream of frames that is cut into chunks, field splitter and the duration string.
- **Sessions** (`Session`, `SessionSafety`, `Fleet`): who is logged in on which descriptor, over whole runs of
  one worker's manager on a database in use, and of several workers on the same database. `Requests` says from
  the message to the tables what each request does.

`Folds` and `Relational` hold the laws of sums, counts, filters and joins the proofs rest on.

## What the code does where that is not what it says

- `active_enqueue_event` locks `fd_mutex` at line 125 while its caller has held it since line 308. What that
  does is the parameter `relockable` of the model: `false` is the plain `std::mutex` of the source, where the
  second lock never returns; `true` is the intended behaviour. Safety is proved for both.
  `ConnectionRuns.SelfLockOccurs` shows that two well-formed requests can bring the first case about, and
  `ConnectionSafety.FrozenForever` that nothing is read, handled or closed on the connection afterwards.
- A pool task that meets an unparsable chunk returns (lines 102-106) without clearing `fd_inthreadpool`, and so
  does one whose `handle_request` throws (`setAutoCommit` can, inside a catch block, Weak_ayas/sql_driver.cpp:172).
  The model keeps both. `ConnectionRuns.PoisonOccurs`, `ConnectionRuns.ThrowOccurs` and
  `ConnectionSafety.FirstBadChunkIsLast` show what follows.
- `ConnectionSafety.CanFinishIff` gives the exact condition under which what has been read can be finished, and
  `ConnectionService.ServableIff` the exact condition under which an open connection is not stuck: none of the
  three cases above has happened, and no unparsable chunk is in the pool or on its way there.
- A chunk is whatever one `read` returned, and only the first frame in it is handled. So the requests handled are
  not always the requests sent: they are exactly when every chunk is one whole frame (`Delivery.RequestsInOrder`,
  for every run; `Delivery.DecodedIff`, for every way of cutting a stream). Frames that arrive in one chunk behind
  another frame are lost (`Codec.CoalescedFramesYieldFirst`). Of a frame cut by a chunk boundary the part before the
  cut is rejected, while the part after it is decoded as another frame whenever the bytes of one stand there
  (`Codec.TruncatedFrameRejected`); `Delivery.MisdeliveryOccurs` gives a run in which a frame is lost, and one that
  is only quoted in its payload is handled in its place. Order is therefore proved per chunk.
- The "20 minutes" and "30 minutes" columns admit everything under 21 and under 31 minutes
  (`TimeSpent.BucketBoundaries`, `StatisticsMeaning.OverviewMeans`).
- Unless RELEASE is defined, a connection that the epoll thread closes keeps its session
  (`ConnectionSessions.SessionGivenUp`, `ConnectionSessions.SessionLeftBehind`).
- After two descriptors have logged in as Oscar, the disconnection of either takes the privilege from both
  (`SessionSafety.SecondOscarLosesPrivilege`).

## Model

| member | source | states |
|---|---|---|
| `ConnectionSafety.RunKeepsInv` | Weak_ayas/EpollWorker.cpp:90-328 | every run of the three kinds of thread, in any interleaving and for any input, keeps the invariant that ties locks, flags, program counters and chunk history together |
| `Connection.LoopKeepsMutex` | Weak_ayas/EpollWorker.cpp:147-302 | every step of the epoll thread keeps `fd_mutex` held by exactly the thread whose program counter says so |
| `Connection.LoopKeepsRunning` | Weak_ayas/EpollWorker.cpp:147-302 | every step of the epoll thread keeps `thread_running` equivalent to an active thread that exists or is being started, until the close |
| `Connection.LoopKeepsPool` | Weak_ayas/EpollWorker.cpp:147-302 | every step of the epoll thread keeps `fd_inthreadpool` equivalent to a chunk being in the pool or on its way there, or the flag having been left set; and whoever is past its wait finds it clear |
| `Connection.LoopKeepsLife` | Weak_ayas/EpollWorker.cpp:147-302 | every step of the epoll thread keeps: at most one close, and no thread at work before registration or after the close |
| `Connection.LoopKeepsChunks` | Weak_ayas/EpollWorker.cpp:147-302 | every step of the epoll thread keeps: read = finished, each with the parser's verdict, + at most one outstanding chunk |
| `Connection.TaskKeepsMutex` | Weak_ayas/EpollWorker.cpp:90-115 | every step of a pool task keeps `fd_mutex` held by exactly the thread whose program counter says so |
| `Connection.TaskKeepsRunning` | Weak_ayas/EpollWorker.cpp:90-115 | every step of a pool task keeps `thread_running` equivalent to an active thread that exists or is being started, until the close |
| `Connection.TaskKeepsPool` | Weak_ayas/EpollWorker.cpp:90-115 | every step of a pool task keeps `fd_inthreadpool` equivalent to a chunk being in the pool or on its way there, or the flag having been left set; and whoever is past its wait finds it clear |
| `Connection.TaskKeepsLife` | Weak_ayas/EpollWorker.cpp:90-115 | every step of a pool task keeps: at most one close, and no thread at work before registration or after the close |
| `Connection.TaskKeepsChunks` | Weak_ayas/EpollWorker.cpp:90-115 | every step of a pool task keeps: read = finished, each with the parser's verdict, + at most one outstanding chunk |
| `Connection.ActiveKeepsMutex` | Weak_ayas/EpollWorker.cpp:177-328 | every step of an active thread keeps `fd_mutex` held by exactly the thread whose program counter says so |
| `Connection.ActiveKeepsRunning` | Weak_ayas/EpollWorker.cpp:177-328 | every step of an active thread keeps `thread_running` equivalent to an active thread that exists or is being started, until the close |
| `Connection.ActiveKeepsPool` | Weak_ayas/EpollWorker.cpp:177-328 | every step of an active thread keeps `fd_inthreadpool` equivalent to a chunk being in the pool or on its way there, or the flag having been left set; and whoever is past its wait finds it clear |
| `Connection.ActiveKeepsLife` | Weak_ayas/EpollWorker.cpp:177-328 | every step of an active thread keeps: at most one close, and no thread at work before registration or after the close |
| `Connection.ActiveKeepsChunks` | Weak_ayas/EpollWorker.cpp:177-328 | every step of an active thread keeps: read = finished, each with the parser's verdict, + at most one outstanding chunk |
| `ConnectionSafety.HandledInReadOrder` | Weak_ayas/EpollWorker.cpp:90-138 | chunks are finished in exactly the order they were read, none twice, none skipped, with the parser's verdict; at most one is outstanding |
| `ConnectionSafety.OnePoolTask` | Weak_ayas/EpollWorker.cpp:278-286 | at most one pool task is unfinished, and one that has not cleared the flag implies `fd_inthreadpool` |
| `ConnectionSafety.OneActiveThread` | Weak_ayas/EpollWorker.cpp:171-206 | at most one active thread exists, and until it gives the flag back `thread_running` is set |
| `ConnectionSafety.ReadersAndHandlersExclude` | Weak_ayas/EpollWorker.cpp:168-210 | whoever reads owns the connection, and two `handle_request` calls for it never overlap |
| `ConnectionSafety.NoLostNotification` | Weak_ayas/EpollWorker.cpp:111-112 | an active thread asleep on `fd_cond` is still owed a notification |
| `ConnectionSafety.ClosedOnce` | Weak_ayas/EpollWorker.cpp:378-383 | `close_fd` happens at most once, by the loop or the active thread but never both, and only after every chunk read was finished |
| `ConnectionSafety.FrozenForever` | Weak_ayas/EpollWorker.cpp:102-125 | a stuck connection never reads, handles or closes again, in any continuation |
| `ConnectionSafety.CanFinishIff` | Weak_ayas/EpollWorker.cpp:117-138 | what has been read can be finished by some continuation if and only if no active thread has a chunk in hand in front of the second lock of a plain mutex |
| `ConnectionSafety.FirstBadChunkIsLast` | Weak_ayas/EpollWorker.cpp:102-106 | with a plain mutex the first unparsable chunk is the last thing a connection ever reads |
| `ConnectionService.ServableIff` | Weak_ayas/EpollWorker.cpp:90-328 | an open connection whose epoll thread runs can be brought to read again or to close if and only if the flag has not been left set, no active thread is in front of the second lock of a plain mutex, and no unparsable chunk is in the pool or on its way there |
| `ConnectionService.StuckForever` | Weak_ayas/EpollWorker.cpp:102-125 | in any of these cases no continuation reads or closes, whatever arrives |
| `ConnectionService.Serve` | Weak_ayas/EpollWorker.cpp:147-328 | in all other cases a schedule exists that finishes everything read before, and then reads or closes |
| `ConnectionService.SelfLockCostsNoWorker` | Weak_ayas/EpollWorker.cpp:117-138 | when an active thread waits for itself every pool task of the connection has ended |
| `ConnectionService.PoisonCostsNoWorker` | Weak_ayas/EpollWorker.cpp:90-106 | when the flag was left set every pool task has ended or ends with one step that nothing prevents |
| `ConnectionRuns.SelfLockOccurs` | Weak_ayas/EpollWorker.cpp:117-328 | for any two encodable requests some run ends with the second one read and unfinishable |
| `ConnectionRuns.PoisonOccurs` | Weak_ayas/EpollWorker.cpp:102-106 | for any unparsable chunk and either kind of mutex some run leaves the flag set for good |
| `ConnectionRuns.ThrowOccurs` | Weak_ayas/sql_driver.cpp:168-174 | for any parsable chunk and either kind of mutex, a run in which its handling throws leaves the flag set for good |
| `ConnectionRuns.EventRuns` | Weak_ayas/EpollWorker.cpp:161-211 | one pass through the body of `loop` or `drain_epoll`, including `handle_event` with its retries, is a run of the interleaved system |
| `ConnectionRuns.TaskRuns` | Weak_ayas/EpollWorker.cpp:90-115 | so is a whole pool task, both outcomes of the parser and an exception included |
| `ConnectionRuns.PassRuns` | Weak_ayas/EpollWorker.cpp:180-190 | so is one pass of an active thread with its read loop, for any results of its reads, each interruption being a step that changes nothing |
| `ConnectionRuns.ActiveLooks` | Weak_ayas/EpollWorker.cpp:192-202 | so is its last look at `needactive` |
| `ConnectionMachine.ChunkServed` | Weak_ayas/EpollWorker.cpp:161-286 | on an open connection at which nothing is at work, an event with a chunk and then its task leave the chunk finished with the verdict; if it could be parsed the connection is as free as before, and otherwise its flag stays set |
| `ConnectionMachine.PassThenLook` | Weak_ayas/EpollWorker.cpp:180-202 | with a lock that may be taken twice, an active thread finishes all there is to read, and then ends if no event came meanwhile and makes another pass if one did |
| `ConnectionSessions.SessionGivenUp` | Weak_ayas/EpollWorker.cpp:288-299 | in every run `erase_fd` is called for the connection at most once and never on one that stays open; when it has been closed it was called if and only if RELEASE is defined or an active thread did the closing |
| `ConnectionSessions.SessionLeftBehind` | Weak_ayas/EpollWorker.cpp:287-292 | without RELEASE, a run in which the peer closes the connection and its session is not given up |
| `ConnectionMachine.FdInfo.constructor` | Weak_ayas/EpollWorker.hpp:45-58 | a new `fd_info` is the start of every run |
| `ConnectionMachine.FdInfo.Accept` | Weak_ayas/EpollWorker.cpp:61-73 | registering leaves nothing outstanding, locked or flagged, and is a step of a run |
| `ConnectionMachine.FdInfo.Dispatch` | Weak_ayas/EpollWorker.cpp:161-211 | one pass of the dispatch, in place, ends where some interleaved run ends; it starts an active thread only when all earlier ones have gone, reads or closes only when nothing is outstanding and no task and no active thread exists, and queues the chunk it has read with the flag raised |
| `ConnectionMachine.FdInfo.HandleEvent` | Weak_ayas/EpollWorker.cpp:271-302 | entered from the dispatch and retried as often as its read is interrupted, it queues the chunk with the flag raised, or closes, or does nothing, and ends where some interleaved run ends |
| `ConnectionMachine.FdInfo.RunTask` | Weak_ayas/EpollWorker.cpp:90-115 | finishes the one outstanding chunk with the parser's verdict, clears the flag exactly when it could be parsed and its handling returned, and ends where some interleaved run ends |
| `ConnectionMachine.FdInfo.RunActive` | Weak_ayas/EpollWorker.cpp:177-190 | takes nothing while a pool task has the connection; otherwise nothing was outstanding, and with a lock that may be taken twice everything its reads return up to the first without data is read and finished in order |
| `ConnectionMachine.FdInfo.ReadLoop` | Weak_ayas/EpollWorker.cpp:311-327 | the read loop: which chunks it takes, what becomes of them, and where it stays with a plain mutex |
| `ConnectionMachine.FdInfo.LookAgain` | Weak_ayas/EpollWorker.cpp:192-202 | the thread goes on exactly when there were events in the meantime, and leaves nothing outstanding, no flag and no other active thread behind when it does not |
| `ConnectionMachine.FdInfo.Play` | Weak_ayas/EpollWorker.cpp:140-328 | after any schedule of these functions chunks have been finished in the order read with the parser's verdict, at most one is outstanding, the history has only grown, and the descriptor has been closed at most once |
| `ThreadPool.StepKeepsInv` | Weak_ayas/ThreadPool.cpp:17-79 | every step of workers, enqueuers and destructor keeps the pool's invariant |
| `ThreadPool.InitInv` | Weak_ayas/ThreadPool.cpp:43-54 | the constructor's state satisfies it, for any number of workers |
| `PoolSafety.FirstInFirstOut` | Weak_ayas/ThreadPool.cpp:25-34 | tasks are taken in the order pushed, none skipped and none twice |
| `PoolSafety.Conservation` | Weak_ayas/ThreadPool.cpp:17-41 | pushed = queued + in a worker's hands + finished, as multisets |
| `PoolSafety.NoLostWakeUp` | Weak_ayas/ThreadPool.cpp:18-78 | while a worker sleeps each queued task is matched by an owed signal or an awake worker, and a sleeper after stop is owed the broadcast |
| `PoolSafety.DrainedAtExit` | Weak_ayas/ThreadPool.cpp:26-68 | once all workers are gone, everything pushed before stop has finished, throwing tasks included |
| `PoolSafety.LateTasksAreStranded` | Weak_ayas/ThreadPool.cpp:72-79 | a task pushed after the last worker has gone is never run |
| `PoolSafety.ShutdownStep` | Weak_ayas/ThreadPool.cpp:56-68 | after stop every step except a new `enqueue` decreases a measure |
| `PoolSafety.ShutdownTerminates` | Weak_ayas/ThreadPool.cpp:56-68 | so a run without new tasks after stop is no longer than the measure |
| `PoolSafety.ShutdownProgress` | Weak_ayas/ThreadPool.cpp:18-65 | and until everything is over some step is possible without relying on spurious wake-ups |
| `PoolSafety.ShutdownCompletes` | Weak_ayas/ThreadPool.cpp:56-70 | from stop on, some run ends with all workers gone and joined |
| `PoolSafety.EveryTaskServed` | Weak_ayas/ThreadPool.cpp:17-79 | a pool with at least one worker that is not being destroyed can, from any state and without new tasks, be run until everything pushed has finished |
| `PoolMachine.ThreadPoolObject.constructor` | Weak_ayas/ThreadPool.cpp:43-54 | a new pool is the start of every run |
| `PoolMachine.ThreadPoolObject.Enqueue` | Weak_ayas/ThreadPool.cpp:72-79 | the task is last in the queue and nothing else is taken or finished; in a pool in use some worker is awake to take it; and the result is where some interleaved run ends |
| `PoolMachine.ThreadPoolObject.Turn` | Weak_ayas/ThreadPool.cpp:17-41 | the first task queued, which is the one pushed next after those taken before, is taken and finished; a worker sleeps or goes only when everything pushed has been taken |
| `PoolMachine.ThreadPoolObject.Stop` | Weak_ayas/ThreadPool.cpp:56-64 | stop is set and the broadcast leaves nobody asleep |
| `PoolMachine.ThreadPoolObject.Shutdown` | Weak_ayas/ThreadPool.cpp:56-70 | the destructor with its workers ends, with every worker gone, and with every task ever pushed finished if there was a worker |
| `Codec.ParseCharacterised` | Weak_ayas/EpollWorker.cpp:330-375 | decoding gives a frame if and only if the chunk is a start-free prefix, that encoded frame, and anything after it |
| `Codec.SplitUnique` | Weak_ayas/EpollWorker.cpp:330-375 | that decomposition is unique |
| `Codec.SplitParses` | Weak_ayas/EpollWorker.cpp:330-375 | round trip: a frame is found behind any start-free prefix and before any suffix, its payload free to contain start and end bytes |
| `Codec.ParsedSplits` | Weak_ayas/EpollWorker.cpp:345-374 | every accepted chunk contains the encoding of the decoded frame at its first start byte |
| `Codec.PrefixFree` | Weak_ayas/SQLManager.cpp:16-37 | no encoded frame is a prefix of another one; so encoding is injective |
| `Codec.TruncatedFrameRejected` | Weak_ayas/EpollWorker.cpp:330-375 | of a frame cut anywhere the part before the cut is rejected, and the part after it yields a frame if and only if a whole encoded frame stands there behind no start byte |
| `Codec.CoalescedFramesYieldFirst` | Weak_ayas/EpollWorker.cpp:330-375 | of frames that arrive in one chunk the first is decoded |
| `Delivery.DecodedIff` | Weak_ayas/EpollWorker.cpp:330-375 | however a stream of frames is cut into non-empty chunks, the decoded frames are the frames of the stream if and only if each chunk is one of them |
| `Delivery.RequestsInOrder` | Weak_ayas/EpollWorker.cpp:90-328 | in every run, when the chunks finished so far join to a stream of frames, the requests handled are these frames in order if and only if each chunk was one frame |
| `Delivery.MisdeliveryOccurs` | Weak_ayas/EpollWorker.cpp:271-286 | a run in which a cut inside a frame makes the decoder lose it and handle a frame that is only quoted in its payload, with nothing outstanding and the connection not stuck |
| `Codec.LengthWord` | Weak_ayas/SQLManager.cpp:27-31 | four bytes whose big-endian value is the length |
| `Codec.LengthWordUnique` | Weak_ayas/EpollWorker.cpp:352-355 | no other four bytes have that value |
| `Codec.BuildPackage` | Weak_ayas/SQLManager.cpp:16-37 | the bytes are 0x2A, the kind, the payload's length in four bytes, the payload and 0x0D; they fit the read buffer and decode back behind any start-free prefix; a payload over 2041 bytes gives the empty string |
| `Codec.ScanStart` | Weak_ayas/EpollWorker.cpp:334-341 | the scan finds the first start byte that leaves room for a smallest package |
| `Codec.ParseSockPackage` | Weak_ayas/EpollWorker.cpp:330-375 | accepts exactly the decodable chunks and fills the caller's package with type, length and payload, leaving the rest of the buffer alone |
| `Codec.GetStartPayload` | Weak_ayas/TCPClient.cpp:190-224 | accepts exactly the same chunks and points at the same payload |
| `Fields.SplitDistributes` | Weak_ayas/SQLManager.cpp:142-154 | on all inputs, splitting `x#y` gives the fields of `x` followed by those of `y` |
| `Fields.SplitProper` | Weak_ayas/SQLManager.cpp:149-152 | every field is non-empty and free of separators |
| `Fields.FieldRoundTrip` | Weak_ayas/ConsoleClient.cpp:139-240 | joining and splitting gives a list back if and only if all its fields are non-empty and free of separators |
| `Fields.SplitIdempotent` | Weak_ayas/SQLManager.cpp:142-154 | joining the fields again and splitting changes nothing, for any payload |
| `Fields.GetLine` | Weak_ayas/SQLManager.cpp:149-149 | one `getline` takes the text up to the next separator and moves past it |
| `Fields.GetData` | Weak_ayas/SQLManager.cpp:142-154 | the loop returns exactly the non-empty pieces between separators of the first `nLen` bytes, in order |
| `Fields.EndToEnd` | Weak_ayas/SQLManager.cpp:16-154 | fields joined, framed, received behind any start-free prefix, decoded and split come back, if and only if they are non-empty and separator-free |
| `Numbers.ScanIntIff` | Weak_ayas/sql_driver.cpp:426-430 | one `%d` reads a number and leaves a rest if and only if the text is blanks, perhaps a sign, and digits that denote the number, in front of that rest |
| `Numbers.NumbersRead` | Weak_ayas/SQLManager.cpp:244-618 | `stoi` and `stoll` give the number a text begins with, and throw if and only if there is none or it needs more than 32 or 64 bits |
| `Numbers.NumberRoundTrip` | Weak_ayas/SQLManager.cpp:244-618 | a number printed in decimal is read back, if it fits |
| `TimeSpent.ValidateTimeSpent` | Weak_ayas/ConsoleClient.hpp:43-60 | accepts exactly `hh:mm:ss` with hours to 23, minutes and seconds to 59 |
| `TimeSpent.MinutesOfValid` | Weak_ayas/sql_driver.cpp:426-430 | on accepted strings the minutes are the total seconds divided by 60 rounded down, within 0 to 1439 |
| `TimeSpent.MinutesOfText` | Weak_ayas/sql_driver.cpp:426-430 | on every string: 60 times the first number plus the second if it begins with three numbers separated by colons, and -1 if it does not |
| `TimeSpent.OrderAgrees` | Weak_ayas/sql_driver.cpp:426-430 | text order of accepted strings is the order of durations, and minutes are monotone in it |
| `TimeSpent.BucketBoundaries` | Weak_ayas/sql_driver.cpp:658-660 | on every valid string, at most 20 minutes means less than 21 minutes and at most 30 means less than 31, and some string of more than 20 minutes has 20 |
| `Tables.TransitionKeepsValid` | SQL/init.sql:3-33 | every call, successful, refused or failing half-way, keeps primary, unique and foreign keys through cascades, and counters ahead of every stored number |
| `Tables.DeleteUserKeepsValid` | SQL/init.sql:22-33 | deleting a user cascades to the user's submissions and leaves no dangling key |
| `Tables.DeleteProblemKeepsValid` | SQL/init.sql:14-33 | deleting a problem cascades to its types and submissions |
| `Driver.SqlDriver.Rollback` | Weak_ayas/sql_driver.cpp:168-173 | restores all tables; numbers drawn from a counter stay drawn |
| `Driver.SqlDriver.RegisterUser` | Weak_ayas/sql_driver.cpp:145-176 | true means the full effect and false means unchanged tables, for an exception at any statement; true exactly when connected, not refused and not interrupted |
| `Driver.SqlDriver.DeleteUser` | Weak_ayas/sql_driver.cpp:179-210 | deletes the user of that name and all its submissions, all or nothing; on success the users left are exactly those of other names |
| `Driver.SqlDriver.InsertProblem` | Weak_ayas/sql_driver.cpp:213-246 | the same |
| `Driver.SqlDriver.DeleteProblem` | Weak_ayas/sql_driver.cpp:249-299 | deletes the problem with its types and submissions, all or nothing; on success the problems left are exactly those of other numbers |
| `Driver.SqlDriver.InsertProblemType` | Weak_ayas/sql_driver.cpp:303-363 | the same, with duplicates and missing problems refused |
| `Driver.SqlDriver.DeleteProblemType` | Weak_ayas/sql_driver.cpp:367-424 | the same |
| `Driver.SqlDriver.InsertSubmitted` | Weak_ayas/sql_driver.cpp:433-485 | all or nothing, with the reported outcome; on success the old submissions are followed by one with the user, problem, state and time of the call, the date of the day and the minutes taken from the time |
| `Driver.SqlDriver.DeleteSubmission` | Weak_ayas/sql_driver.cpp:488-552 | the same, including the later name lookup whose failure undoes the deletion |
| `Driver.SqlDriver.GetUserId` | Weak_ayas/sql_driver.cpp:97-133 | an id other than -1 is stored under the name; without a failure -1 means that nobody has it; a failure gives -1 |
| `Driver.SqlDriver.GetSubmissions` | Weak_ayas/sql_driver.cpp:555-605 | the map of the user's submissions to the problem by number, or the part fetched before an exception |
| `Driver.SqlDriver.SelectUnitsData` | Weak_ayas/sql_driver.cpp:636-698 | for a result the server may return for this user, the reply is one that shows this user's overview with its rates, or the part fetched before an exception |
| `Driver.SqlDriver.SelectUnitDetail` | Weak_ayas/sql_driver.cpp:701-782 | for a result the server may return for this user and unit, the reply is one that shows them, or the part fetched before an exception |
| `Driver.RatesAddUp` | Weak_ayas/sql_driver.cpp:679-684 | in every result each rate is its count as a percentage of the total; the 30-minute and over-30 rates make 100 and the 20-minute rate is at most the 30-minute rate |
| `Driver.ListingIsOwn` | Weak_ayas/sql_driver.cpp:555-605 | every entry of a listing is one of the user's submissions to that problem under its own number, and a listing that no exception cuts short has all of them |
| `Driver.CutShort` | Weak_ayas/sql_driver.cpp:673-776 | an exception while a row is fetched leaves the reply with exactly the rows before it |
| `CallEffects.RegisterMeans` | Weak_ayas/sql_driver.cpp:145-176 | succeeds if and only if nobody has the name and nothing raises before the end; then one user of that name, with a number of its own, follows the old ones, and else the tables are as they were |
| `CallEffects.DeleteUserMeans` | Weak_ayas/sql_driver.cpp:179-210 | succeeds if and only if somebody has the name and nothing raises; then that row is gone, all other users are still there in order, and the submissions left are exactly those of the others |
| `CallEffects.DeletedNameIsFree` | Weak_ayas/sql_driver.cpp:97-210 | after a deletion the name finds -1 and can be registered again |
| `CallEffects.InsertProblemMeans` | Weak_ayas/sql_driver.cpp:213-246 | succeeds if and only if number and title are both free and nothing raises; then one problem with the given number, title and difficulty follows the old ones |
| `CallEffects.DeleteProblemMeans` | Weak_ayas/sql_driver.cpp:249-299 | succeeds if and only if there is a problem of that number and nothing raises; then that row is gone, all other problems are still there in order, and exactly the types and submissions of other problems are left |
| `CallEffects.DeletedProblemIsFree` | Weak_ayas/sql_driver.cpp:213-299 | after a deletion a problem of the same number and title can be inserted again |
| `CallEffects.InsertTypeMeans` | Weak_ayas/sql_driver.cpp:303-363 | succeeds if and only if the problem exists, does not have the type and nothing raises; then one row follows the old ones |
| `CallEffects.DeleteTypeMeans` | Weak_ayas/sql_driver.cpp:367-424 | succeeds if and only if the problem has the type and nothing raises; then that row and no other is gone |
| `CallEffects.SubmitMeans` | Weak_ayas/sql_driver.cpp:433-485 | succeeds if and only if user and problem exist and nothing raises; then one submission with the arguments, the date, the largest number so far and, for a valid time, its whole minutes follows the old ones |
| `CallEffects.UnsubmitMeans` | Weak_ayas/sql_driver.cpp:488-552 | succeeds if and only if the user has a submission of that number and nothing raises; then that row and no other is gone |
| `Driver.FetchUnits` | Weak_ayas/sql_driver.cpp:673-692 | the fetch loop gives every row of the result with its three rates, in order, up to an exception |
| `Driver.FetchDetail` | Weak_ayas/sql_driver.cpp:758-776 | the same for the detail rows, their state put into words |
| `OverviewProof.OverviewRefines` | Weak_ayas/sql_driver.cpp:655-666 | the overview pipeline returns a result if and only if it has one row of direct counts for each unit with a submission of the user, no other row, in the stated order |
| `OverviewProof.UnitCount` | Weak_ayas/sql_driver.cpp:655-664 | each conditional sum over the joined rows of a unit counts each matching submission exactly once |
| `OverviewProof.SolvedCount` | Weak_ayas/sql_driver.cpp:657-657 | COUNT(DISTINCT problem) is the number of problems of the unit that the user has tried |
| `DetailProof.DetailRefines` | Weak_ayas/sql_driver.cpp:720-748 | the detail pipeline returns a result if and only if it has one row for each tried problem of the unit, with direct counts and the newest submission, in the stated order |
| `DetailProof.MaxIdIsNewest` | Weak_ayas/sql_driver.cpp:736-742 | the row with the largest number is the one inserted last |
| `DetailProof.LatestMember` | Weak_ayas/sql_driver.cpp:728-744 | the latest-submission join contains exactly the user's newest submission to each problem |
| `DetailProof.LatestCount` | Weak_ayas/sql_driver.cpp:728-744 | and contains it once, so the join neither duplicates nor drops a problem |
| `DetailProof.DetailCount` | Weak_ayas/sql_driver.cpp:720-746 | each conditional sum over the joined rows of a problem counts each of the user's submissions once |
| `StatisticsLaws.OverviewRow` | Weak_ayas/sql_driver.cpp:655-684 | in every row solved_20 <= solved_30, solved_30 + solved_over_30 = total, and 1 <= problems_solved <= total |
| `StatisticsLaws.RollUp` | Weak_ayas/sql_driver.cpp:655-748 | summed over its rows, the detail query gives the overview row of the unit in all columns, with as many rows as problems; and it is empty if and only if there is no overview row |
| `StatisticsLaws.TotalsCountTypes` | Weak_ayas/sql_driver.cpp:655-664 | the totals of all units add up to the user's submissions, each counted once per type of its problem |
| `StatisticsLaws.ListingMatchesDetail` | Weak_ayas/sql_driver.cpp:570-748 | the list of submissions to a problem has as many entries as the detail row's total, and its largest number carries the row's last date, time and state |
| `StatisticsLaws.ResultsExist` | Weak_ayas/sql_driver.cpp:655-748 | both orders are total preorders, so that for every database each query has a result |
| `StatisticsMeaning.OverviewMeans` | Weak_ayas/sql_driver.cpp:655-684 | in every row of every result, with valid times stored: how many submissions the user has in the unit, to how many problems, how many solved in under 21 and under 31 minutes of duration, and how many did not |
| `StatisticsMeaning.OverviewLists` | Weak_ayas/sql_driver.cpp:655-664 | there is a row for a unit if and only if the user has a submission in it |
| `StatisticsMeaning.OverviewOrder` | Weak_ayas/sql_driver.cpp:665-666 | along the rows of any result the over-30 figure does not increase, and among equals neither the 30-minute nor then the 20-minute figure |
| `StatisticsMeaning.DetailMeans` | Weak_ayas/sql_driver.cpp:720-776 | the same for each row of the detail query, with number and title of a problem of the unit, and date, time and state of the user's submission with the largest number |
| `StatisticsMeaning.DetailLists` | Weak_ayas/sql_driver.cpp:720-746 | there is a row for a problem if and only if it has the type and the user has a submission to it |
| `StatisticsMeaning.DetailOrder` | Weak_ayas/sql_driver.cpp:747-748 | along the rows of any result the last date does not increase, and among equals the figures as in the overview |
| `StatisticsMeaning.AfterRun` | Weak_ayas/sql_driver.cpp:433-748 | all these counts hold after any run in which only valid times are submitted, failures included |
| `StatisticsUpdates.OthersUnchanged` | Weak_ayas/sql_driver.cpp:145-552 | a call leaves both results of every user it does not concern exactly as they were, `deleteUser` included, and so does every call that fails |
| `StatisticsUpdates.SubmissionCounted` | Weak_ayas/sql_driver.cpp:433-485 | a successful submission changes the figures of each unit of its problem by exactly one in total, one in the 30-minute column if it is solved with at most 30 minutes and in the over-30 column otherwise, one in the 20-minute column if it is solved with at most 20, and one in the problem count if it is the first, and leaves other units alone |
| `StatisticsUpdates.SubmitThenDelete` | Weak_ayas/sql_driver.cpp:433-552 | deleting the submission just made restores every table and both results of every user |
| `StatisticsChanges.DeletionCounted` | Weak_ayas/sql_driver.cpp:488-552 | a successful deletion takes exactly that submission out of the figures of each unit of its problem, and one off the problem count exactly when it was the only one |
| `StatisticsChanges.TypeInserted` | Weak_ayas/sql_driver.cpp:303-363 | tagging a problem adds all its submissions to the figures of that unit, for every user, and to no other unit |
| `StatisticsChanges.TypeDeleted` | Weak_ayas/sql_driver.cpp:367-424 | removing the tag takes exactly these out again |
| `StatisticsChanges.SubmissionListed` | Weak_ayas/sql_driver.cpp:433-485 | in the detail query of each unit of its problem a successful submission adds one to the total and to the columns its state and minutes belong to, and shows the given state and time and the date of the day as the last ones |
| `StatisticsChanges.OtherRowsKept` | Weak_ayas/sql_driver.cpp:433-485 | and leaves the rows of all other problems as they were |
| `StatisticsChanges.SubmissionNotListed` | Weak_ayas/sql_driver.cpp:433-485 | and in units its problem is not tagged with leaves every row as it was |
| `StatisticsUpdates.ProblemRemoved` | Weak_ayas/sql_driver.cpp:249-299 | deleting a problem takes exactly its contribution out of every overview figure of every user |
| `StatisticsUpdates.ProblemDelisted` | Weak_ayas/sql_driver.cpp:249-299 | every result of the detail query after the deletion has exactly the rows of every result before it except the problem's own |
| `StatisticsUpdates.FiguresAreCounts` | Weak_ayas/sql_driver.cpp:655-666 | whatever result was returned, its figures for any unit are the direct counts, zero without a row |
| `History.RunKeeps` | SQL/init.sql:22-33 | after any run of calls, failures included, the submissions table is what survives of everything ever inserted, in order of insertion, each number used once |
| `History.LastReportedIsLastInserted` | Weak_ayas/sql_driver.cpp:728-744 | after any run from the empty schema, the last date, time and state reported for a problem are those of the user's most recently inserted surviving submission |
| `Session.SqlManager.constructor` | Weak_ayas/SQLManager.hpp:14-46 | nobody is logged in and no id is special, on whatever the database holds |
| `Session.SqlManager.EraseFd` | Weak_ayas/SQLManager.cpp:115-120 | the session ends, and the special id with it if the session held it |
| `Session.SqlManager.HandleRegister` | Weak_ayas/SQLManager.cpp:158-176 | the reply tells whether the registration took effect; sessions are untouched |
| `Session.SqlManager.HandleLogin` | Weak_ayas/SQLManager.cpp:179-202 | a found id becomes the session, and the welcome names the id that was stored; otherwise no session changes; the special id is set by name even when the lookup failed |
| `Session.SqlManager.HandleUnitsData` | Weak_ayas/SQLManager.cpp:205-217 | a reply that shows the overview of the session's own user, or a request to log in |
| `Session.SqlManager.HandleUnitDetail` | Weak_ayas/SQLManager.cpp:220-241 | the same for the unit named in the request; a request without one is answered as malformed |
| `Session.SqlManager.HandleProblemSubmissions` | Weak_ayas/SQLManager.cpp:244-275 | the same for one problem's submissions |
| `Session.SqlManager.HandleInsertSubmission` | Weak_ayas/SQLManager.cpp:278-318 | exactly three fields and a number reach the database under the session's own id; the reply tells the outcome |
| `Session.SqlManager.HandleDeleteSubmission` | Weak_ayas/SQLManager.cpp:321-355 | a number reaches the database under the session's own id; the reply tells the outcome |
| `Session.SqlManager.HandleDeleteUser` | Weak_ayas/SQLManager.cpp:468-489 | reaches the database only for the special id, with the arguments of the request; stays silent for others; answers malformed requests; tells the outcome |
| `Session.SqlManager.HandleInsertProblem` | Weak_ayas/SQLManager.cpp:492-522 | reaches the database only for the special id, with the arguments of the request; stays silent for others; answers malformed requests; tells the outcome |
| `Session.SqlManager.HandleDeleteProblem` | Weak_ayas/SQLManager.cpp:525-552 | reaches the database only for the special id, with the arguments of the request; stays silent for others; answers malformed requests; tells the outcome |
| `Session.SqlManager.HandleInsertProblemType` | Weak_ayas/SQLManager.cpp:555-584 | reaches the database only for the special id, with the arguments of the request; stays silent for others; answers malformed requests; tells the outcome |
| `Session.SqlManager.HandleDeleteProblemType` | Weak_ayas/SQLManager.cpp:587-618 | reaches the database only for the special id, with the arguments of the request; stays silent for others; answers malformed requests; tells the outcome |
| `Session.SqlManager.HandleRequest` | Weak_ayas/SQLManager.cpp:68-112 | the dispatch: state, database and reply after any package, of a known type or not |
| `SessionSafety.RunKeepsInv` | Weak_ayas/SQLManager.cpp:68-202 | every run of a manager on any valid database, with other managers changing it in between, keeps: each stored id was issued to a registration, and the special id to one named Oscar |
| `SessionSafety.NoInvalidSession` | Weak_ayas/SQLManager.cpp:191-194 | no stored id is -1, and no id on record is issued again |
| `SessionSafety.SessionHistory` | Weak_ayas/SQLManager.cpp:115-194 | in every run a descriptor is logged in under an id if and only if some login on it, by whatever name, found that id, no later login on it found anybody, and it has not been erased since |
| `SessionSafety.WelcomedIsLoggedIn` | Weak_ayas/SQLManager.cpp:179-202 | whoever is welcomed is logged in as the user of the name given; with an undisturbed database that is so exactly when there is one |
| `SessionSafety.SpecialHistory` | Weak_ayas/SQLManager.cpp:115-190 | the special id is a given id if and only if the latest login as Oscar found it and no session holding it has been erased since |
| `SessionSafety.PrivilegedIff` | Weak_ayas/SQLManager.cpp:470-471 | a descriptor has the privilege if and only if it is logged in under the id that the latest login as Oscar found and no session holding that id has been erased since |
| `SessionSafety.OnlyOscarChangesCatalogue` | Weak_ayas/SQLManager.cpp:468-618 | if a request changed problems or types or removed a user, its descriptor was logged in under an id issued to Oscar which was the current special id |
| `SessionSafety.OthersResultsUntouched` | Weak_ayas/SQLManager.cpp:68-355 | a request from an unprivileged descriptor leaves both query results of every other user exactly as they were |
| `SessionSafety.SecondOscarLosesPrivilege` | Weak_ayas/SQLManager.cpp:115-120 | every run in which an Oscar is registered goes on so that two descriptors of one's choice have the privilege, and the end of one session takes it from the other, which stays logged in |
| `SessionSafety.UnitsTableIsOwn` | Weak_ayas/SQLManager.cpp:205-217 | in every run a complete overview reply shows one row of direct counts for each unit in which the session's own user has a submission, no other row, and its counts as percentages of its total |
| `SessionSafety.DetailTableIsOwn` | Weak_ayas/SQLManager.cpp:220-241 | in every run a complete detail reply shows the session's own user and the unit asked for, and in each row the date, time and state of the user's newest submission to the problem, the state in words |
| `Requests.LoginFirstOtherwise` | Weak_ayas/SQLManager.cpp:205-590 | on a descriptor without a session every request but registering and logging in changes nothing and is told to log in first |
| `Requests.OperatorOnly` | Weak_ayas/SQLManager.cpp:468-590 | the five requests of the operator change nothing and get no answer under any other id than the special one |
| `Requests.MisformedRefused` | Weak_ayas/SQLManager.cpp:158-590 | a request is answered as malformed, and changes nothing, if and only if it has too few fields (a submission: not three), or its first field does not begin with a number of the size required |
| `Requests.RegisterRequest` | Weak_ayas/SQLManager.cpp:158-176 | the message adds exactly the user named, if the name is free, and changes nothing else |
| `Requests.LoginRequest` | Weak_ayas/SQLManager.cpp:179-202 | the descriptor gets the number of the user named, if there is one; "Oscar" and no other name sets the special id, to that number or to -1 |
| `Requests.DeleteUserRequest` | Weak_ayas/SQLManager.cpp:468-489 | the message removes exactly the user named and its submissions |
| `Requests.InsertProblemRequest` | Weak_ayas/SQLManager.cpp:492-522 | the three fields become number, title and difficulty of the new problem |
| `Requests.DeleteProblemRequest` | Weak_ayas/SQLManager.cpp:525-552 | the message removes exactly the problem of that number, its types and its submissions |
| `Requests.InsertTypeRequest` | Weak_ayas/SQLManager.cpp:555-584 | the message adds exactly that type to that problem |
| `Requests.DeleteTypeRequest` | Weak_ayas/SQLManager.cpp:587-618 | the message removes exactly that type of that problem |
| `Requests.WordRead` | Weak_ayas/SQLManager.cpp:135-139 | the word for a solved submission is "1", or "true" in any mixture of cases, and no other |
| `Requests.SubmitRequest` | Weak_ayas/SQLManager.cpp:278-318 | the three fields are stored as problem, state and time of a submission of the session's own user |
| `Requests.UnsubmitRequest` | Weak_ayas/SQLManager.cpp:321-355 | the message removes exactly that submission, if it belongs to the session's own user |
| `Requests.ListingRequest` | Weak_ayas/SQLManager.cpp:244-275 | the answer holds submissions of the session's own user to that problem only, and all of them if nothing fails |
| `Requests.FromTheWire` | Weak_ayas/ConsoleClient.cpp:96-252 | what the console sends for a list of fields, each non-empty and free of separators, is answered as that list |
| `Fleet.SeenByOne` | Weak_ayas/EpollWorker.hpp:60-75 | a run of several workers on one database is, for each of them, a run of its manager with the others elsewhere |
| `Fleet.OnlyOscarChangesCatalogue` | Weak_ayas/SQLManager.cpp:468-618 | whichever worker served it, a request that changed problems or types or removed a user came from a session that held that worker's special id, one issued to Oscar |
| `Fleet.SessionsValid` | Weak_ayas/SQLManager.cpp:179-202 | at every worker each session holds a number that the database has given out, and the shared tables keep all their keys |

## Left out

- Sockets, `epoll_ctl`, `eventfd`, `fcntl`, signals and process launch: foreign calls. A `read` is any chunk of 1 to 2048 bytes, the end of the stream or a hard error (which the source treats alike), an interruption, or nothing to read.
- Kernel descriptor reuse: each connection has an identity of its own, and shared flags are sequentially consistent.
- Several connections on one epoll thread and one pool: a connection is modelled alone, with pool tasks starting whenever they like and in any order. The shared loop thread, the pool's order and its number of workers only rule interleavings out, so what holds of every run holds with them. Where a run is claimed to exist (`ConnectionSafety.CanFinishIff`, `ConnectionService.ServableIff`, `ConnectionRuns.SelfLockOccurs`, `ConnectionRuns.PoisonOccurs`, `ConnectionRuns.ThrowOccurs`, `Delivery.MisdeliveryOccurs`), the pool must get round to the connection's task: that a pool with at least one worker always can, if the tasks before it return, is `PoolSafety.EveryTaskServed`, and that a stuck connection keeps no worker is `ConnectionService.SelfLockCostsNoWorker` and `ConnectionService.PoisonCostsNoWorker`; but the two systems are not composed into one.
- The order of `close` and `epoll_ctl` inside `close_fd`, closing from outside by `TCPServer::stop`, the `EpollWorker` destructor, and the interplay of its wait with detached threads.
- `pthread_create` failing in the pool's constructor, and calls to `enqueue` that outlive the pool object.
- Pool tasks that throw: a pool step `Finish` covers both a return and an exception, which the worker catches. An exception that leaves an active thread ends the process, and with it every run; that is not modelled.
- `handle_request` runs on several pool threads at once for different descriptors, with no lock on `userFdToId` or `special_id`; the model serves each request, and each `erase_fd`, as one indivisible event.
- When `erase_fd` is called in `handle_event` depends on the `RELEASE` macro: it is the parameter `release`.
- `special_id` is not initialised by the source; the model starts it at -1.
- `FdInfo` and `ThreadPoolObject`: their methods carry out one function of the source each without interference, because Dafny's methods are sequential. Interference inside a function is what `Connection` and `ThreadPool` model step by step, on values; that each uninterrupted function is a run of those systems is proved.
- MySQL: connections, isolation levels, concurrent transactions, collation (strings are compared byte by byte), column lengths and TIME formats (a value the server rejects is an exception at that statement), and exceptions after a commit has taken effect.
- The result set of a statistics query is a parameter of `SelectUnitsData` and `SelectUnitDetail`, required to be one that the server may return for that query on these tables.
- The rates are exact fractions, without floating-point rounding; counters are unbounded.
- Integer overflow inside `sscanf` when minutes are taken from a string the client's validator would reject.
- Reply texts, table formatting, console prompts and help text: a reply is one of a few outcomes carrying its data. A reply that cannot be sent is not modelled.
- `validate_difficulty`, `validate_solve_status`, the round robin of `TCPServer` and the SQL display helpers: single expressions, one modular counter and printing.
- The older variants of the worker, the pool and the driver that the repository keeps beside the current files.
