# libagent, modelled and verified

libagent supervises two child processes, the agent and the trace agent, and proxies HTTP/1.1 requests to
the trace agent over a local socket or a named pipe. This project models the parts whose correctness is
not visible in any single function, and proves what they promise:

* **Lifecycle protocol** (`Supervision`, `ManagerSteps`, `Lifecycle`, `LifecycleTheorems`, `StopTheorems`,
  `LockTheorems`, `EntryTheorems`, `BackoffRuns`, `VisitTheorems`, `ReadinessRuns`, `ReadinessTheorems`,
  `MonitorRounds`, `MonitorWaits`, `LifecycleCounterexample`). Any number of threads call `initialize`, `stop` and
  `get_manager().ensure_trace_agent_ready()`, every started manager has a monitor thread, and every
  `initialize` may make a new manager. One step is one lock, atomic operation, spawn, kill or join; the
  theorems hold in every state of every run. "Nothing spawned outlives `stop`" is false of the code; the
  project has a run that shows it, says which event gives a process each of its possible fates, and proves
  what is left when `stop` has returned.
* **HTTP** (`Text`, `TextTheorems`, `Utf8`, `Headers`, `Heads`, `Requests`, `Streams`, `Chunked`,
  `ChunkedTheorems`, `Responses`, `ResponseTheorems`, `AnswerTheorems`). A stream is an object that delivers any positive number of bytes per read and may
  fail. Every reader is a method with the loops of the source, proved against a function or grammar over
  the whole input; round trips, truncation and size bounds are proved of those, under every fragmentation.
* **Worker pool** (`WorkerPools`, `PoolRuns`, `PoolTheorems`). Round-robin channels with a wrapping index,
  callers with timeouts of their own, shutdowns and new pools, in every interleaving.
* **Killing a child** (`Shutdown`) and **metrics** (`Metrics`, `MetricsRuns`).

What the operating system decides (exit states, clock readings, spawn, signal and read outcomes, whether
an endpoint is in use) is an argument or a nondeterministic choice. Text is its UTF-8 bytes. Times are
`nat` milliseconds, averages `real`. A mutex-guarded statement is one step; where a lock is held over
several statements the thread's program point says so, and a step that needs a lock is possible only while
it is free.

The code is followed where it differs from RFC 9112 or from its own comments:

* Content-Length wins over Transfer-Encoding (section 6.3 says the opposite), bytes that were read with
  the head beyond Content-Length are kept in the body (`OverreadIsKept`), and trailers are not consumed:
  two bytes after the last-chunk line are skipped, whatever they are (section 7.1.2).
* A chunk size line may have 1025 bytes with its CRLF, although the guard says 1024; the 1 MiB header cap
  counts all bytes buffered, so a head end above 1 MiB - 1023 may or may not be found.
* `stop` is documented to terminate both child processes; the monitor can lose one (`DropExactly`), and a
  child whose `try_wait` fails is forgotten without being killed (`AbandonExactly`).
* `parse_headers` and `parse_header_lines` do not agree on every serialized list of trimmed headers: a name
  with a colon in it can be read differently (`ParsersAgree`, `InnerColonDiffers`, `LeadingColonDiffers`).
* The comments of `graceful_kill` call signalling the pid a fallback for failed group signals; the code
  goes on to it whenever the group stages did not see the child exit.

## Model

| member | source | states |
|---|---|---|
| Supervision.RoleCell.ShouldAttemptSpawn | src/monitor.rs:160-233 | a child that exited or cannot be checked is counted and forgotten; a spawn is due if and only if no child runs, the deadline, if any, is reached and the endpoint is free |
| Supervision.RoleCell.CommitSpawnResult | src/monitor.rs:238-270 | the slot, backoff, deadline and counters after a spawn succeeded or failed; true exactly for a spawned trace agent |
| Supervision.RoleCell.TickProcess | src/monitor.rs:300-398 | the locked form: exactly when a spawn is due the process is spawned and recorded, or the failure with its deadline; otherwise deadline and backoff stay |
| Supervision.RoleCell.SplitTick | src/monitor.rs:436-523 | the three-phase form is the same visit with the clock read again at commit; true exactly if a trace agent was due and spawned |
| Supervision.SplitRefinesLocked | src/monitor.rs:160-398 | both forms end in the same child, backoff, counters; the split form's deadline is equal or later, by at most the time the spawn took |
| Supervision.BackoffOverSession | src/monitor.rs:245-268 | over a whole session the backoff is min(2^k, 30) s after k failures in a row, and attempts of a streak are spaced by the waits |
| Supervision.BackoffSpan | src/monitor.rs:191-268 | n >= 6 consecutive failed attempts, anywhere in a session, span at least 31 + 30 (n - 6) seconds |
| Supervision.DeadlineOverSession | src/monitor.rs:245-268 | over any session: after k >= 1 failures in a row the deadline is exactly the time the last was recorded plus min(2^(k-1), 30) s, without failures there is none, and the slot holds the last process spawned until a visit finds it not running |
| Supervision.AttemptsWhenDue | src/monitor.rs:191-233 | after any session a visit attempts a spawn if and only if no process runs, the endpoint is free and that deadline, if any, is reached |
| BackoffRuns.RolesFollowVisits | src/monitor.rs:428-528 | in every run, until `stop` takes the children, each role is what its completed visits make it, and the check of at most one visit not yet committed; the failed attempts are the streak of those visits |
| BackoffRuns.BackoffInRuns | src/monitor.rs:245-268 | in every run whose clock does not go back, a role's backoff is min(2^k, 30) s after k failed attempts in a row, for as long as its manager's session lasts |
| BackoffRuns.BackoffSpanInRuns | src/monitor.rs:191-268 | in every such run, n >= 6 consecutive failed attempts of a role span at least 31 + 30 (n - 6) seconds |
| VisitTheorems.AttemptsInRuns | src/monitor.rs:160-268 | in every run, each visit of `start` or the monitor to a role attempts a spawn if and only if one is due after the visits before it: never before the deadline, and without fail from then on |
| VisitTheorems.StartServesEveryRole | src/manager.rs:418-446 | in every run, when `start` is about to start the monitor or to return it has visited every configured role, and the first visit spawned if and only if its probe found the endpoint free |
| MonitorRounds.EveryRoundIsFull | src/monitor.rs:428-552 | in every run, as long as the monitor is in its loop: every lock, check, gate, commit and look at a deadline, of both roles, was passed exactly once in every round that got to the wait, and once more if the present round is past it |
| Supervision.SleepBeforeNextRound | src/monitor.rs:530-552 | the sleep is positive, at most the interval, ends no later than any pending deadline, and is as long as that allows |
| MonitorWaits.LostNoticeCostsOneWait | src/manager.rs:451-462 | in every timed run, the notification of `stop` is lost if and only if it is sent while the monitor is not in its wait; heard, no wait follows; lost, at most one, of at most the interval, and none unless it was sent during a round |
| MonitorWaits.LostNoticeCanCostTheInterval | src/monitor.rs:428-552 | the bound is met: a notification sent during a round can cost a wait of the whole interval |
| MonitorWaits.LostNoticeCanCostNothing | src/monitor.rs:470-484 | nor need it cost anything: the monitor may leave at its gate |
| MonitorWaits.WakesForDeadline | src/monitor.rs:530-552 | in every timed run the monitor is back from a wait no later than a deadline it knew of, but for the time between reading the clock and waiting, and no later than the interval |
| ManagerSteps.StartMoved | src/manager.rs:396-446 | every step of `start` moves processes between places in the way named for it: a check, a spawn or a commit, and never a loss |
| ManagerSteps.StopMoved | src/manager.rs:449-510 | the same for `stop`, whose only move is to take a child out of its slot to kill it |
| ManagerSteps.MonitorMoved | src/monitor.rs:424-555 | the same for the monitor; the move that loses an agent is that of the second re-check of `should_run`, and ends the monitor |
| ManagerSteps.StartKeepsInv | src/manager.rs:396-446 | every step of `start` keeps the manager's invariant: every process in exactly one place, slots empty where one will be filled, counters balanced |
| ManagerSteps.StopKeepsInv | src/manager.rs:449-510 | the same for every enabled step of `stop` |
| ManagerSteps.MonitorKeepsInv | src/monitor.rs:424-555 | the same for every step of the monitor |
| ManagerSteps.ProbeFramed | src/manager.rs:236-281 | `ensure_trace_agent_ready` changes the readiness flag and nothing else |
| ReadinessTheorems.ProbeCallExact | src/manager.rs:236-281 | in every run, a finished readiness call that found the flag true did nothing more; one that found it false and the slot empty left it false without waiting; any other waited, and left the flag equal to the outcome |
| ReadinessTheorems.ReadyMeansWaitedFor | src/manager.rs:236-302 | in every run the flag is true if and only if the last event that set it was a wait that accepted, and then that wait was for the process now in the slot, if one is there |
| ReadinessTheorems.SpawnResetsFlag | src/monitor.rs:478-528 | in every run, after a trace agent was spawned the next step of the thread that spawned it resets the flag, before the agent is recorded |
| ReadinessTheorems.RecordResetsFlag | src/monitor.rs:512-528 | and after a trace agent was recorded in its slot, the next step of the thread that recorded it resets the flag once more |
| ReadinessTheorems.ResetClearsFlag | src/manager.rs:409-510 | each of the resets in `start`, in `stop` and around the spawns leaves the flag false, whatever it was |
| ReadinessTheorems.StartLeavesFlagClear | src/manager.rs:396-446 | in every run the flag is false all the time a thread is inside `start` |
| ReadinessTheorems.FinishedStopIsReset | src/manager.rs:449-510 | in every run, from the return of `stop` on, its manager has the flag clear, no child, both backoffs at one second and no deadline |
| ManagerSteps.StopQuiets | src/manager.rs:449-510 | `stop` returns only when no child is tracked, no monitor runs and `should_run` is clear |
| Lifecycle.EventIsGood | src/manager.rs:646-698 | every step of every thread keeps the invariant of the whole system; final fates and returned calls never change |
| LifecycleTheorems.DeadlockFree | src/manager.rs:236-510 | in every run no threads wait in a circle, and whatever an unfinished thread waits for comes down to a thread that can step |
| LifecycleTheorems.LockInversion | src/manager.rs:238-302 | no run has a readiness probe under way on a manager whose `start` is in progress, so their opposite lock orders never meet |
| LockTheorems.LocksAreRespected | src/manager.rs:236-510 | in every run, for every step: what a lock guards changes only by a thread that has it or takes it free for this step, a lock is only ever taken free, and no two threads have the same one |
| LifecycleTheorems.InterlockIsForGood | src/manager.rs:238-302 | if they ever met, at either point where `start` wants the readiness lock, both threads would stay blocked whatever all threads do |
| LifecycleTheorems.StartIsWaitFree | src/manager.rs:396-446 | a thread inside `start` is never blocked and returns after at most 25 steps of its own |
| LifecycleTheorems.StopWindsDown | src/manager.rs:449-510 | inside `stop` at most 13 own steps remain, and once it waits the monitor exits within 26 of its own |
| StopTheorems.StopLeavesNothing | src/manager.rs:449-510 | after `stop` returned its manager is quiet, and each process it spawned was seen exited, killed, forgotten on a failed `try_wait`, or is the at most one dropped agent; if no `try_wait` failed none was forgotten; none is dropped without an agent |
| StopTheorems.DropExactly | src/monitor.rs:478-484 | in every run, an event drops a process if and only if it is the monitor's second re-check, a trace agent is due, `should_run` is clear, and that process is the agent just spawned |
| StopTheorems.AbandonExactly | src/monitor.rs:167-189 | in every run, an event makes a process forgotten if and only if it is a check by `start` or the monitor of the role whose slot holds it, and `try_wait` fails |
| StopTheorems.EventSettles | src/manager.rs:396-510 | the same for all four final fates: a process is seen exited, forgotten, killed or dropped by exactly the listed event |
| StopTheorems.FateHasCause | src/monitor.rs:160-555 | at the end of any run a process has a final fate if and only if some event of the run gave it |
| LifecycleCounterexample.SomeRunDropsAnAgent | src/monitor.rs:478-484 | there is a run in which `stop` has returned and an agent was neither seen to exit nor killed |
| LifecycleTheorems.RunAdvances | src/monitor.rs:167-189 | from any state of a run to any later one, a process once seen exited, killed, forgotten or dropped keeps that fate |
| LifecycleTheorems.KilledWasLive | src/manager.rs:488-496 | the child `stop` takes belongs to this manager alone and was at no earlier time seen to exit, so no reaped pid is signalled |
| LifecycleTheorems.OneLiveManager | src/manager.rs:659-673 | only the manager in the cell can be running; each is started and stopped at most once; effective starts exceed effective stops by at most one |
| LifecycleTheorems.InitializeReturnsRunning | src/manager.rs:659-673 | when `initialize` returns, the manager in the cell is running and the cell is free |
| EntryTheorems.CallsWorkOnTheCell | src/manager.rs:646-698 | in every run, `stop` works on the manager that was in the cell when it looked, and returns without one if and only if there was none; a readiness call works on the manager it found or put there |
| EntryTheorems.CellKeepsItsManager | src/manager.rs:646-673 | a manager leaves the cell only when `initialize` finds it not running and puts a new one there, which it goes on to start |
| LifecycleTheorems.SpawnsAreAccountedFor | src/monitor.rs:167-268 | per role over all managers, spawns = failures - failed spawns + children taken by `stop` + filled slots |
| LifecycleTheorems.AtMostOneLateSpawn | src/monitor.rs:470-484 | at most one spawn begins in a manager after `stop` cleared `should_run` |
| LifecycleTheorems.CommitFillsEmptySlot | src/monitor.rs:486-523 | whenever a spawn result is about to be committed, its slot is empty |
| Headers.ParseHeaders | src/http.rs:44-57 | the loop computes the list the normal-form lemmas are about |
| Headers.ParseHeaderLines | src/http.rs:251-267 | the same for LF-separated, trimmed lines |
| Headers.SerializeHeaders | src/http.rs:270-279 | the same for serialization |
| Headers.LineWithoutColon | src/http.rs:44-57 | a line without a colon adds no header, and takes none away from the lines around it |
| Headers.LineWithColon | src/http.rs:44-57 | a line with a colon adds the header named by what is before the first one, its value without the whitespace at the start |
| Headers.TrimmedLineExact | src/http.rs:251-267 | for `parse_header_lines` a line adds a header if and only if, trimmed, it has a colon that is not its first byte; name and value are what is around the first colon, the value left-trimmed |
| Headers.NormalFormExact | src/http.rs:44-57 | a list survives serialization and `parse_headers` if and only if names have no colon, nothing has CRLF and values are left-trimmed |
| Headers.HeadersStable | src/http.rs:44-57 | parse, serialize, parse is parse, for every input |
| Headers.TrimmedNormalFormExact | src/http.rs:251-267 | the if-and-only-if for `parse_header_lines` |
| Headers.HeaderLinesStable | src/http.rs:251-279 | parse, serialize, parse is parse, for every input |
| Headers.ParsersAgree | src/http.rs:44-279 | for any list with nonempty trimmed names and trimmed values without CR and LF, both parsers read the same from its serialization if and only if no name starts with a colon, and none with a colon has an empty value |
| Headers.InnerColonDiffers | src/http.rs:44-279 | they differ on the name "a:b" without a value |
| Headers.LeadingColonDiffers | src/http.rs:44-279 | they differ on the name ":x", which one reads as empty and the other drops |
| Heads.MemchrCrlfCrlf | src/http.rs:123-134 | the end of the first CRLFCRLF, or there is none |
| Heads.HeadEndsOnce | src/http.rs:97-134 | in a head without stray CR or LF, followed by any body, the first CRLFCRLF is the end of the head |
| Heads.HeadersOfHead | src/http.rs:44-57 | the text after the start line of a head parses to its headers |
| TextTheorems.LowerAllExact | src/http.rs:60-66 | two names are equal in lower case if and only if they differ at most in the case of the letters A to Z |
| TextTheorems.TrimExact | src/http.rs:52-254 | trimming takes away exactly the whitespace at the ends |
| TextTheorems.NumberExact | src/http.rs:37-322 | a text is read as v if and only if it is digits of the base in either case, perhaps after one plus sign, that stand for v by place value, and v fits |
| TextTheorems.DecimalIsCanonical | src/http.rs:87 | an added length is written without leading zeros |
| Utf8.Utf8Exact | src/uds.rs:168 | a head or size line passes validation if and only if it is the encoding of some Unicode scalar values (section 3 of RFC 3629) |
| Requests.LookupIsFirst | src/http.rs:60-66 | a value is found if and only if some header has the name, letter by letter up to the case of A to Z, and it is the first one's |
| Requests.AddDefaultHeaders | src/http.rs:72-95 | the loop over three flags computes the list that DefaultsAppend, DefaultsKeepLookups and DefaultsIdempotent are about |
| Requests.DefaultsAppend | src/http.rs:72-95 | the headers given come first and unchanged, then exactly those of Content-Length, Host and Connection: close that none of them names in any case, in this order |
| Requests.DefaultsKeepLookups | src/http.rs:60-95 | no lookup that succeeded changes, and the three defaults are found afterwards |
| Requests.DefaultsIdempotent | src/uds.rs:18-26 | adding defaults again, with any other body length and host, changes nothing |
| Requests.BuildRequest | src/http.rs:98-120 | the bytes are method, space, path, space, HTTP/1.1 and CRLF, then the headers with their defaults, a blank line and the body |
| Requests.BuildUdsRequest | src/uds.rs:18-26 | the same first line; after both rounds of defaults the host is "unix" if none was given |
| Requests.RequestLineIsRead | src/http.rs:107-111 | for a method and a path without spaces: the bytes sent up to the first space are the method, those up to the next the path, and the eight bytes of HTTP/1.1 end the line |
| Requests.RequestIsFramed | src/http.rs:98-134 | the first blank line of a request ends its head, the rest is the body, the added Content-Length parses to the body's length, and normal headers parse back |
| Streams.RestThen.Read | src/http.rs:298-310 | the buffered rest, then the stream, as one stream |
| Streams.ReadExactLen | src/http.rs:160-173 | succeeds exactly if that many bytes come, and takes exactly those |
| Streams.ReadUntilDoubleCrlf | src/http.rs:137-157 | stops at the first CRLFCRLF with at most 1023 bytes more; a head end up to 1 MiB - 1023 is always found, one above 1 MiB never, under every fragmentation |
| Chunked.ReadChunkLine | src/http.rs:181-209 | the line up to the first CRLF, or the error the grammar gives |
| Chunked.ReadChunk | src/http.rs:204-244 | one chunk of the grammar, with its error conditions |
| Chunked.ReadChunked | src/http.rs:176-247 | on a reliable stream exactly the grammar's answer, leaving what follows the encoding; on any stream success means the grammar's body; at most 100 MiB |
| ChunkedTheorems.DecodeInvertsEncode | src/http.rs:176-247 | decoding an encoding followed by anything gives back the data and leaves what follows |
| ChunkedTheorems.DecodeExact | src/http.rs:176-247 | an input decodes if and only if it is an encoding within the limits followed by anything, with exactly its data |
| ChunkedTheorems.HexLineIsGood | src/http.rs:208-212 | the lines a sender writes, lower-case digits and any clean extension of up to 1023 bytes in all, are read as their number |
| ChunkedTheorems.SizeLineIsGood | src/http.rs:181-212 | so are lines with upper-case digits, leading zeros and whitespace around them |
| ChunkedTheorems.SizeLineExact | src/http.rs:208-212 | every line is read as the size n if and only if it is whitespace, a hexadecimal number for n, whitespace and perhaps an extension, and n fits 64 bits |
| ChunkedTheorems.DefectIsReported | src/http.rs:204-240 | after any good chunks, the error names what is wrong with the next one: no UTF-8, no size, more than 10 MiB, more than 100 MiB in all, data cut, or no CRLF after the data |
| ChunkedTheorems.EndlessLineIsReported | src/http.rs:186-202 | after any good chunks, without a CRLF in the next 1025 bytes the line is too long if there are more than 1024, and cut off otherwise |
| ChunkedTheorems.SuffixIsLeft | src/http.rs:213-219 | with the final CRLF decoding leaves exactly what follows the message; without it two bytes of that are lost |
| ChunkedTheorems.DecodeExtends | src/http.rs:176-247 | if an input decodes, every longer one decodes to the same body |
| ChunkedTheorems.TruncationIsAnError | src/http.rs:186-244 | a prefix of an encoding is an error if and only if it ends before the last-chunk line's LF |
| Responses.StatusLineExact | src/http.rs:25-41 | a status line is accepted exactly if its first word starts with HTTP/ and its second is a 16-bit number, which is the answer |
| AnswerTheorems.StatusErrorExact | src/http.rs:25-41 | a status line is rejected for its first word, for having no second word, or for one that is no 16-bit number, each exactly when that is so |
| Responses.ReadToEnd | src/http.rs:346-365 | everything up to the end of the stream, or the size error exactly if something is read past 100 MiB |
| Responses.ReadHttpBody | src/http.rs:313-367 | the body the announced framing gives, and its errors; at most 100 MiB |
| Responses.ReadResponse | src/uds.rs:101-251 | success, and on a reliable stream every answer, is one the specification allows for the input; the body has at most 100 MiB |
| ResponseTheorems.HeadParses | src/uds.rs:160-202 | splitting, status parse, joining and header parse of a well-formed head give back status and headers |
| ResponseTheorems.AnswerFollowsHead | src/uds.rs:107-251 | whatever follows a well-formed head, the answer is its status, headers and what the body reader makes of the rest |
| ResponseTheorems.RoundTrip | src/uds.rs:107-251 | a well-formed response comes back as it was sent under every fragmentation, for all three framings |
| ResponseTheorems.TruncationDetected | src/http.rs:160-247 | a response with its last bytes missing is answered with an error, exactly unless its body runs to the end of the stream and its head is complete |
| ResponseTheorems.OverreadIsKept | src/http.rs:330-340 | with bytes after a Content-Length body the answer is right if and only if none of them was read with the head; otherwise it carries them |
| ResponseTheorems.OverreadExample | src/http.rs:330-340 | one byte announced, a body of two answered |
| AnswerTheorems.FramingExact | src/http.rs:318-345 | a body goes by the first Content-Length if there is one; otherwise by chunks exactly if the first Transfer-Encoding says chunked, both in any letter case |
| AnswerTheorems.OkAnswerExact | src/uds.rs:107-251 | for every input: an answer is this success if and only if the head, found in time, is UTF-8 that gives the status and headers, and their framing gives the body |
| AnswerTheorems.AnswerExact | src/http.rs:313-367 | for every input with a good head: the success or error each framing gives, with the limit of 100 MiB |
| AnswerTheorems.BadLengthIsError | src/http.rs:319-329 | a first Content-Length that is no number, or above 100 MiB, is always an error |
| WorkerPools.WorkerPool.SubmitWork | src/winpipe.rs:98-107 | the item goes to the channel the index names, the index moves on and wraps; refused exactly without channels |
| WorkerPools.DealOne | src/winpipe.rs:102-106 | one more submission keeps the deal across any number of wraparounds |
| WorkerPools.RoundRobin | src/winpipe.rs:98-107 | submission k is number k / 4 on channel k mod 4; loads differ by at most one |
| WorkerPools.WrapIsHarmless | src/winpipe.rs:102-103 | a wrapping index deals evenly for ever if and only if the number of workers divides the word size |
| PoolRuns.SubmitIsAccepted | src/winpipe.rs:136-146 | a submission that finds a pool is accepted: its channels are open and the worker it goes to is there |
| PoolRuns.InvKept | src/winpipe.rs:81-157 | every step of callers, workers and shutdowns keeps the pool's invariant |
| PoolTheorems.ItemsAreConserved | src/winpipe.rs:81-107 | in every run each accepted item was finished once or waits in one place, and nothing else was finished |
| PoolTheorems.FifoPerWorker | src/winpipe.rs:81-96 | when a worker finishes an item, exactly the items dealt to it earlier were finished |
| PoolTheorems.LoadIsBalanced | src/winpipe.rs:98-107 | the deal holds in every run, since each pool was made |
| PoolTheorems.OneOutcome | src/winpipe.rs:202-231 | a caller's outcome is final; answered exactly by taking the result of a finished item, timed out exactly by giving up; a refusal only for want of a pool; no caller meets a closed channel or a lost result; a timed-out item still runs |
| PoolTheorems.RefusedAfterShutdown | src/winpipe.rs:124-157 | in every run, a caller is refused only if a shutdown ended between its making sure of a pool and its submission |
| PoolTheorems.NoCallerIsStuck | src/winpipe.rs:124-231 | in every run a caller can do its next lock section exactly unless a shutdown has the lock; once it waits it can give up, or take the result exactly if its item is finished, and if not some worker has the item and can step |
| PoolTheorems.ItemComesCloser | src/winpipe.rs:81-96 | an accepted item is never stuck: its worker can step, each of its steps brings the item closer and no other step sets it back |
| PoolTheorems.ShutdownDrains | src/winpipe.rs:109-157 | a shutdown in progress always has a step to take, and returns only when every accepted item was finished |
| PoolTheorems.DrainDescends | src/winpipe.rs:109-157 | each such step leaves less to do and no other step adds to it |
| Shutdown.WaitWithTimeout | src/shutdown.rs:21-35 | true exactly if the last poll saw the exit; false only after a failed poll or when the time was over; polls bounded by the timeout |
| Shutdown.PollsOfOneWait | src/shutdown.rs:21-35 | a 5 s wait polls at most 101 times |
| Shutdown.SignalProcess | src/shutdown.rs:41-87 | a signal that cannot be sent is not waited for |
| Shutdown.ChildSlot.GracefulKill | src/shutdown.rs:127-202 | the slot is emptied; the attempts are TERM and KILL to the group, TERM and KILL to the pid, then `kill`, in this order, all five unless one saw the exit |
| Shutdown.LadderMeans | src/shutdown.rs:127-194 | attempts are a prefix of the ladder, all of it unless the child was seen to exit; terminated is reported exactly if some poll saw it, which was the last one; a stage is waited for exactly if it was sent or is the last, and for five seconds unless a poll ended it |
| Metrics.ResponseTimeStats.Update | src/metrics.rs:81-111 | one tenth of the new time and nine tenths of the old average, per class and overall; the fields stay the averages of all samples so far |
| Metrics.ResponseMetrics.RecordProxyResponse | src/metrics.rs:191-214 | exactly the counter of the status class goes up; the counters stay the numbers of samples per class |
| Metrics.EmaIsWeightedSum | src/metrics.rs:82-87 | the overall average equals its closed weighted sum |
| Metrics.WeightsSumToOne | src/metrics.rs:82-87 | the weights of that sum add up to one, for any number of samples |
| Metrics.EmaWithin | src/metrics.rs:82-87 | it stays within any bounds of the samples |
| Metrics.ClassEmaDropsZeros | src/metrics.rs:89-108 | a class average is the plain average of the class's samples without the zero times at the start |
| Metrics.ClassEmaIsPlain | src/metrics.rs:89-108 | it is the plain average if and only if the class does not start with a zero time or has no other |
| Metrics.CountersWithinSamples | src/metrics.rs:191-214 | for calls one after the other, class counters never sum past the sample count, and reach it exactly if all statuses are 200 to 599 |
| MetricsRuns.CountersWithConcurrentCalls | src/metrics.rs:191-214 | in every interleaving they sum to the samples with such a status plus the calls with one between counter and sample, so never past the samples and those calls |
| MetricsRuns.CountersMayBeAhead | src/metrics.rs:191-214 | a counter of one with no sample yet is reachable |

## Left out

- Sockets, pipes, overlapped I/O, `fork`, `setsid`, Job objects and the macOS orphan monitor (src/manager.rs:464-487, 512-635): foreign calls, represented by their outcomes or not at all.
- src/ffi.rs, src/config.rs, src/process.rs, src/logging.rs, src/dogstatsd.rs, src/lib.rs: callbacks, environment reads, command building and logging; the constants they supply are taken as given, and a proxy call appears as a caller of `ensure_trace_agent_ready`.
- Poisoned mutexes and panics, so a worker thread or a lock holder never dies in the middle of a step.
- Writing the request, connecting, and the read and write timeouts as times; a timeout is a failed read.
- Unicode whitespace: `trim`, `trim_start` and `split_whitespace` are over ASCII whitespace. `to_ascii_lowercase`, UTF-8 validation and number parsing are as in the source.
- Error texts: an error is named by its kind, and the two size errors of `read_http_body` have one name.
- Responses without a body (HEAD, 204, 304) and trailer sections: the code does not treat them, so the round trip is about messages with one of the three framings.
- Wrap-around of the `u64` metric counters, and the proxy request and DogStatsD counters, which are single increments.
- DeadlockFree: time and scheduling are not modelled; that an enabled thread is eventually scheduled is the reader's assumption, and the monitor's wait is a step that may end at any time. `MonitorWaits` treats the wait with time, for one monitor and one `stop`.
- StopLeavesNothing: "killed" means handed to `graceful_kill`; whether the process then exits is the operating system's, see LadderMeans. A process whose `try_wait` fails is forgotten by the code (AbandonExactly).
- LostNoticeCostsOneWait: that a wait ends no later than its timeout is taken from the operating system.
- BackoffSpanInRuns: an event that reads no clock carries readings too; they only have to fit in between.
- SplitTick: the clock reading of the check and that of the commit are arguments with the second not before the first.
- ReadChunk: `read_exact` retries an interrupted read, the other readers do not; an interruption is an ordinary failed read here.
- ReadHttpBody: the wrapper `RestThen` over a borrowed stream is an object that refers to the stream; a bare stream is one with nothing buffered.
- ReadChunked: how much is left unread is stated for streams that do not fail.
- The channels' closing and the join of the workers are steps of `PoolRuns`; the `WorkerPool` class covers construction and submission.
- OneOutcome: a result and a timeout at the same moment are two possible outcomes; which one a caller gets is not determined.
- SignalProcess: stands for both signalling functions, which differ only in the target and the log text.
- Update: `f64` rounding and underflow; a class average that underflows to 0.0 would start anew.
