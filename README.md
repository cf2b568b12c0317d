# Pooled echo server and its client, modelled in Dafny

The system is a small TCP line-echo service. Its server, `ServerProgram`, keeps its lifecycle in a byte of flags (STARTED = 1, RUNNING = 2). The accept loop admits a client while the live-client counter is below the executor's maximum pool size (4). A refused client gets one `ERR: ...` line. Each admitted client gets a worker that writes `SUCC` and then answers every line it reads. The answer is `Processing request...`. Unless the line is `quit`, the processor's response and a blank line follow. The client, `ClientProgram.connect`, aborts when the first server line contains `ERR`, keeps `quit` to itself, and reads every response up to the blank line.

The model has no sockets. Everything that crosses a socket is a sequence of lines, and `println` appends one line.

- `Wrappers`: `Option`, standing for a Java reference that may be null.
- `Text`: `String.startsWith` and `String.contains`, with `contains` proved equal to "occurs at some index".
- `Protocol`: the literal lines of the protocol.
- `Processors`: `IRequestProcessor` as a datatype. It is either the default echo processor or any other total function on strings.
- `Lifecycle`: the flags as `bv8`. Java widens the byte for `|`, `&` and `~`, and the compound assignment narrows it back to its low eight bits, which is exactly `bv8`. `Started` and `Running` are `isStarted` and `isRunning`.
- `Admission`: admission control on values. A `Pool` holds the counter, the admitted workers that have not ended, and the number of workers dispatched. An `Event` is one accepted connection, a failed `accept()`, or the end of a worker. `Step` and `Run` apply events in one sequential interleaving.
- `ServerWorker`: `ServerWorker.run`. A `Worker` holds the processor captured at dispatch. `Transcript` is what the worker writes after `SUCC`. `Consumed` is how many client lines it reads. The method `Run` is the loop, proved against both.
- `Server`: the class `ServerProgram`. Its fields are `mFlags`, `mPort`, the listening socket (as a flag), `sClientCount` and `mProcessor`, plus the workers handed to the executor and the set of admitted workers that have not ended. Its methods are `start`, `pauseClientConnections`, `resumeClientConnections`, `setRequestProcessor`, one pass of the accept loop (`AcceptClient`), the end of a worker (`WorkerExited`), one event of either kind (`Serve`) and the accept loop itself (`AwaitClientConnections`). Each mutating method's new state is tied to `Lifecycle` or `Admission.Step`. `IsStarted`, `IsRunning` and `GetRequestProcessor` are functions over the fields. The method `SwapBetweenAdmissions` is a client of the class. It checks that a processor swap between two admissions reaches only the second worker. It also checks that a pause in between does not stop admissions and that a second `start` is refused.
- `Client`: `connect`, over the server's lines and a finite sequence of reads of standard input. `None` is a read that returned null. `ClientSession` is the specification function and `Connect` the method with the original's two loops.
- `Framing`: the client against the worker. For every sequence of user inputs without `quit`, followed by `quit`, the client reads exactly the worker's output. Each round records the interim line and the reply, and stops at the worker's blank line. This holds whenever every reply is one non-empty line; the echo processor's replies to lines and the fallback message always are. When a processor answers with a blank line, the client falls one line behind the worker.

The model follows the code as written:
- `pauseClientConnections` ORs in `~FLAG_RUNNING`. It never clears RUNNING and it sets STARTED, so pausing a server that was never started makes a later `start` fail (see Findings).
- The counter is compared against the pool's maximum size.
- A worker whose socket reference has been cleared returns without decrementing. Its slot leaks, but the bound on the counter still holds.

## Model

| member | source | states |
|---|---|---|
| `Processors.Process` | src/com/tylersuehr/ServerProgram.java:350-371 | The echo processor's response is the prefix `(Echo) ` followed by the request itself, which can be read back from position 7; any other processor answers with its own function |
| `Processors.EchoNeverBlank` | src/com/tylersuehr/ServerProgram.java:370 | The echo response is never the empty line |
| `Processors.EchoHello` | src/com/tylersuehr/ServerProgram.java:370 | `hello` is answered with `(Echo) hello` |
| `Processors.NeverBlankProcess` | src/com/tylersuehr/ServerProgram.java:350-352 | A processor whose every answer is one non-empty line never answers with the blank line |
| `Processors.NeverBlankOneLine` | src/com/tylersuehr/ServerProgram.java:315-317 | Such a processor, the echo processor included, answers a request that is one line with exactly one line, so `println` writes it as one line |
| `Lifecycle.Started` | src/com/tylersuehr/ServerProgram.java:151-153 | `isStarted` holds exactly when the flag byte, read as a number, is odd |
| `Lifecycle.Running` | src/com/tylersuehr/ServerProgram.java:159-161 | `isRunning` holds exactly when the flag byte, read as a number, is at least 2 modulo 4 |
| `Lifecycle.StartFlags` | src/com/tylersuehr/ServerProgram.java:121-122 | The flags start stores are 3, with both STARTED and RUNNING set |
| `Lifecycle.Pause` | src/com/tylersuehr/ServerProgram.java:133-135 | Pause as written only sets bits (the old flags are a subset of the new), RUNNING keeps its value and STARTED becomes set |
| `Lifecycle.PauseAfterStart` | src/com/tylersuehr/ServerProgram.java:133-135 | After start, pause yields 0xFF and the server still reports started and running |
| `Lifecycle.Resume` | src/com/tylersuehr/ServerProgram.java:140-145 | Resume leaves RUNNING set, changes no other bit, and leaves flags that already have RUNNING unchanged |
| `Lifecycle.ResumeIdempotent` | src/com/tylersuehr/ServerProgram.java:140-145 | Resuming twice gives the same flags as resuming once |
| `Lifecycle.StartedIsPermanent` | src/com/tylersuehr/ServerProgram.java:133-145 | Neither pause nor resume ever clears STARTED |
| `Lifecycle.PauseDoesNotStop` | src/com/tylersuehr/ServerProgram.java:134 | A started server is still running after the as-written pause |
| `Lifecycle.PauseIntended` | src/com/tylersuehr/ServerProgram.java:130-135 | The intended pause clears RUNNING and changes no other bit |
| `Lifecycle.PauseIntendedResumeRoundTrip` | src/com/tylersuehr/ServerProgram.java:137-145 | From flags with RUNNING set, the intended pause leaves the server not running with STARTED unchanged, and resume then restores the flags exactly |
| `Admission.Admits` | src/com/tylersuehr/ServerProgram.java:224 | The admission test: the counter is below the maximum pool size 4 |
| `Admission.Step` | src/com/tylersuehr/ServerProgram.java:217-229 | One event dispatches at most one worker, and only an admission does. No worker joins the pool but the one dispatched. The counter rises only by one admission below capacity, and falls only by one exit of a worker that has not ended |
| `Admission.Run` | src/com/tylersuehr/ServerProgram.java:217-229 | A schedule of events, applied in order; its properties are the lemmas below |
| `Admission.RunOnlyAddsDispatched` | src/com/tylersuehr/ServerProgram.java:226-228 | A schedule dispatches at most one worker per event. Every worker that has not ended after it had not ended before it or was dispatched by it |
| `Admission.AdmissionRule` | src/com/tylersuehr/ServerProgram.java:224-229 | An accepted connection is refused exactly when the counter is at least 4. A refusal changes nothing and dispatches no worker. An admission adds exactly one to the counter and one new admitted worker |
| `Admission.StepPreservesInv` | src/com/tylersuehr/ServerProgram.java:224-229 | Each event keeps the counter between 0 and 4 and at least the number of admitted workers that have not ended. Every event but the early-return exit keeps the counter equal to that number |
| `Admission.RunPreservesInv` | src/com/tylersuehr/ServerProgram.java:213-233 | Every interleaving of admissions and worker exits keeps that invariant |
| `Admission.NeverOverCapacity` | src/com/tylersuehr/ServerProgram.java:213-233 | From the reset at start, at no point of any schedule is the counter negative or above the maximum pool size |
| `Admission.RunAppend` | src/com/tylersuehr/ServerProgram.java:217-233 | Running two schedules one after the other is running their concatenation |
| `Admission.RunConnects` | src/com/tylersuehr/ServerProgram.java:226-228 | While there is room, n admissions raise the counter by n and dispatch the next n workers |
| `Admission.RunExits` | src/com/tylersuehr/ServerProgram.java:335-336 | n exits of workers that have not ended lower the counter by n and remove those workers |
| `Admission.AdmissionsThenExitsRestore` | src/com/tylersuehr/ServerProgram.java:226-228 | n admissions followed by the exits of those n workers in dispatch order (line 336) restore the counter and the set of workers that have not ended. It is one instance of `SameWorkersSameCount` |
| `Admission.RunKeepsSlack` | src/com/tylersuehr/ServerProgram.java:213-233 | Under any interleaving of admissions, failed accepts and normal exits, in any order, the counter minus the number of workers that have not ended stays fixed |
| `Admission.SameWorkersSameCount` | src/com/tylersuehr/ServerProgram.java:303-336 | Under any interleaving without early returns, whenever the same workers are left as at the start, the counter is back where it was: every admitted worker that ended gave back its slot |
| `Admission.ExitUndoesAdmission` | src/com/tylersuehr/ServerProgram.java:335-336 | The exit of a worker undoes its admission |
| `Admission.ExitReleasesOnce` | src/com/tylersuehr/ServerProgram.java:335-336 | A worker's exit lowers the counter by one, and a second exit of the same worker as the next event changes nothing |
| `Admission.ExitedWorkerStaysEnded` | src/com/tylersuehr/ServerProgram.java:335-336 | After a worker's exit, whatever schedule follows, the worker stays ended and any later exit of it changes nothing, so it never gives back a second slot |
| `Admission.ReclaimedExitLeaksSlot` | src/com/tylersuehr/ServerProgram.java:290-292 | The early return when the socket reference is cleared keeps the counter, so it no longer equals the number of admitted workers that have not ended |
| `Admission.BurstFromStart` | src/com/tylersuehr/ServerProgram.java:262-268 | From start, n connections with no exit admit min(n, 4) clients and dispatch that many workers |
| `ServerWorker.Reply` | src/com/tylersuehr/ServerProgram.java:315-317 | Without a processor the response is the fallback message; with the echo processor it is `(Echo) ` followed by the line |
| `ServerWorker.Transcript` | src/com/tylersuehr/ServerProgram.java:303-320 | The worker writes at most three lines per client line, and answers the first client line first with `Processing request...` |
| `ServerWorker.NeverBlankReplyLine` | src/com/tylersuehr/ServerProgram.java:315-317 | With no processor, or one that never answers blank, the response line is never blank |
| `ServerWorker.Consumed` | src/com/tylersuehr/ServerProgram.java:303-312 | The worker reads client lines up to and including the first `quit` and none after it, or all of them when there is no `quit` |
| `ServerWorker.Run` | src/com/tylersuehr/ServerProgram.java:288-337 | With its socket, the worker writes `SUCC` then the transcript, reads the lines `Consumed` counts and releases its slot. With the socket reference cleared it writes and reads nothing and keeps the slot |
| `ServerWorker.TranscriptLayout` | src/com/tylersuehr/ServerProgram.java:303-320 | Without `quit`, line k is answered at positions 3k, 3k+1, 3k+2 by `Processing request...`, the reply to line k and the blank line, and every line is read |
| `ServerWorker.TranscriptStopsAtQuit` | src/com/tylersuehr/ServerProgram.java:309-312 | `quit` is answered with `Processing request...` only. Nothing after it is read or answered, whatever follows |
| `ServerWorker.BlankLinesEndResponses` | src/com/tylersuehr/ServerProgram.java:315-319 | When replies are never blank, the blank lines of a transcript without `quit` are exactly the ones that end a response |
| `ServerWorker.NullProcessorFallback` | src/com/tylersuehr/ServerProgram.java:315-317 | With a null processor every response is the fallback message |
| `ServerWorker.PingExchange` | src/com/tylersuehr/ServerProgram.java:299-319 | For `ping` the echo worker writes `SUCC`, `Processing request...`, `(Echo) ping` and the blank line |
| `Server.RejectionReply` | src/com/tylersuehr/ServerProgram.java:242-256 | A refused client receives exactly one line, which starts with `ERR`, and no `SUCC` |
| `Server.ServerProgram.constructor` | src/com/tylersuehr/ServerProgram.java:86-88 | A new server has no flag set, the echo processor bound, and no client |
| `Server.ServerProgram.Start` | src/com/tylersuehr/ServerProgram.java:107-128 | Start fails, changing nothing, exactly when STARTED is set. Otherwise it records the port and resets the counter to 0. If the socket cannot be opened the flags stay as they were; if it can, the flags become STARTED and RUNNING |
| `Server.ServerProgram.IsStarted` | src/com/tylersuehr/ServerProgram.java:151-153 | A server whose socket is open reports started |
| `Server.ServerProgram.IsRunning` | src/com/tylersuehr/ServerProgram.java:159-161 | A server whose socket is open reports running |
| `Server.ServerProgram.GetRequestProcessor` | src/com/tylersuehr/ServerProgram.java:163-165 | The bound processor; `SetRequestProcessor` states what it returns |
| `Server.ServerProgram.PauseClientConnections` | src/com/tylersuehr/ServerProgram.java:133-135 | The new flags are `Lifecycle.Pause` of the old. The server is then started, and running exactly when it was before |
| `Server.ServerProgram.ResumeClientConnections` | src/com/tylersuehr/ServerProgram.java:140-145 | The new flags are `Lifecycle.Resume` of the old. The accept loop is re-entered exactly when RUNNING was clear. Afterwards the server is running and STARTED is unchanged |
| `Server.ServerProgram.SetRequestProcessor` | src/com/tylersuehr/ServerProgram.java:163-169 | After setting p, getRequestProcessor returns p and no other field changes |
| `Server.ServerProgram.AcceptClient` | src/com/tylersuehr/ServerProgram.java:218-232 | One loop pass follows `Admission.Step`. A failed accept changes nothing. At capacity the client gets the rejection reply. Below it, one worker holding the current processor is dispatched and the earlier workers are unchanged |
| `Server.ServerProgram.WorkerExited` | src/com/tylersuehr/ServerProgram.java:289-336 | The end of a worker follows `Admission.Step`: the decrement after the loop, or the early return that skips it |
| `Server.ServerProgram.Serve` | src/com/tylersuehr/ServerProgram.java:218-232 | One event of the schedule follows `Admission.Step`. Only an accept has an outcome, and only a dispatch adds a worker |
| `Server.ServerProgram.AwaitClientConnections` | src/com/tylersuehr/ServerProgram.java:213-234 | The loop serves the whole schedule, because nothing clears RUNNING, and the pool ends as `Admission.Run` says. Workers dispatched earlier keep their processors, and new ones take the bound processor |
| `Text.ContainsAtIndex` | src/edu/psu/ist411/ClientProgram.java:78 | `contains` holds exactly when the token occurs at some index |
| `Text.ContainsNeedsFirstChar` | src/edu/psu/ist411/ClientProgram.java:78 | A line that contains a token contains the token's first character |
| `Client.Outgoing` | src/edu/psu/ist411/ClientProgram.java:94 | A line read is sent as it is, and the line sent is `quit` only for a read of `quit`: a null read is never sent as `quit` |
| `Client.RefusedBy` | src/edu/psu/ist411/ClientProgram.java:77-78 | The client is refused exactly when a first server line exists and `ERR` occurs in it at some index |
| `Client.ReadResponse` | src/edu/psu/ist411/ClientProgram.java:97-100 | The response loop never keeps the blank line, stays within the stream and, unless it hit the end, reads one line more than it keeps |
| `Client.ResponseEndsAtFirstBlank` | src/edu/psu/ist411/ClientProgram.java:98-100 | The response loop keeps exactly the lines before the first blank line and consumes that blank line |
| `Client.ResponseRunsToEnd` | src/edu/psu/ist411/ClientProgram.java:98 | Without a blank line the response loop keeps every line to the end of the stream |
| `Client.ReadReplies` | src/edu/psu/ist411/ClientProgram.java:97-100 | The inner loop computes `ReadResponse` |
| `Client.Rounds` | src/edu/psu/ist411/ClientProgram.java:83-101 | The input loop never aborts. It ends by quit exactly when the user types `quit`, never sends `quit`, and stays within the server's stream |
| `Client.ClientSession` | src/edu/psu/ist411/ClientProgram.java:70-105 | A session aborts exactly when the first server line contains `ERR`, and then it sends nothing after reading one line. It ends by quit exactly when it was not refused and the user typed `quit`, and it never sends `quit` |
| `Client.Connect` | src/edu/psu/ist411/ClientProgram.java:70-105 | The two loops of connect compute `ClientSession` |
| `Client.AbortOnErr` | src/edu/psu/ist411/ClientProgram.java:76-81 | An `ERR` handshake ends the session with nothing sent, whatever the user types |
| `Client.QuitEndsSession` | src/edu/psu/ist411/ClientProgram.java:85-91 | Typing `quit` ends the session. The inputs before it are sent in order, and `quit` and everything after it are not sent |
| `Client.EndOfInputIsNotQuit` | src/edu/psu/ist411/ClientProgram.java:88-95 | A null read of standard input is not `quit`: it sends `null` and the loop goes on |
| `Framing.SuccIsNotRefusal` | src/com/tylersuehr/ServerProgram.java:299 | The admission line `SUCC` does not contain `ERR` |
| `Framing.OneResponse` | src/edu/psu/ist411/ClientProgram.java:98 | Facing the interim line, a non-blank reply and the blank line, the client keeps the first two and stops after the third |
| `Framing.RoundsFollowWorker` | src/edu/psu/ist411/ClientProgram.java:85-101 | Against the worker's transcript, with non-blank replies, every round records the interim line and the reply to what it sent. Quit then ends the session at the end of the worker's output |
| `Framing.ClientFollowsWorker` | src/edu/psu/ist411/ClientProgram.java:77-101 | With a processor whose every answer is one non-empty line (or none), an admitted client that types lines without `quit` and then `quit` reads exactly the worker's output, one response per line typed |
| `Framing.EchoClientFollowsWorker` | src/com/tylersuehr/ServerProgram.java:370 | With the echo processor each round reads `Processing request...` and `(Echo) ` followed by the line sent |
| `Framing.RefusedClientSendsNothing` | src/com/tylersuehr/ServerProgram.java:248 | A client facing the rejection reply aborts without sending anything |
| `Framing.BlankReplyDesynchronises` | src/edu/psu/ist411/ClientProgram.java:98 | With a processor that answers blank, the client's second round reads the first response's blank line, and the client stops short of the worker's output |

## Findings

| source | as written | input that shows it | evidently intended | confidence | as-written member | corrected member |
|---|---|---|---|---|---|---|
| src/com/tylersuehr/ServerProgram.java:134 | the compound OR-assignment with `~FLAG_RUNNING` sets every bit but RUNNING and leaves RUNNING alone | pause right after start: flags 3 become 0xFF, `isRunning()` stays true and the accept loop keeps admitting | an AND-assignment with `~FLAG_RUNNING`: clear RUNNING and nothing else | high; not executed | `Lifecycle.PauseDoesNotStop` | `Lifecycle.PauseIntendedResumeRoundTrip` |

`Lifecycle.PauseIntended` is the corrected pause. `ServerProgram.PauseClientConnections` keeps the code as written because it models the system as it is. The accept-loop properties above do not rely on either pause: they hold for any flags that keep RUNNING set.

## Left out

- Sockets, `ServerSocket.accept`, `PrintWriter` and `BufferedReader`: I/O is sequences of lines. Flushing is not modelled, because in a sequential model every line is delivered in order. Lines read by `readLine`, on either side, hold no line terminator. `println` of a processor's answer is taken to write one line, which holds for the answers `NeverBlank` admits (one non-empty line each).
- Thread-pool internals (core size 2, the bounded queue of 4, the 30-second idle timeout): only the maximum pool size takes part in admission. The executor starts a thread beyond the core size only when its queue is full, and with at most 4 admitted clients the queue never fills. So at most two workers run at a time, and a third or fourth admitted client waits in the queue, without `SUCC`, until one of the first two ends. The model's pool records admitted workers that have not ended, whether they run or wait.
- Concurrency and the atomicity of `AtomicInteger`: admissions and worker exits are one sequential interleaving, given as a schedule of events.
- The blocking accept loop: `Start` returns once the socket is open, and the loop is the separate `AwaitClientConnections`. `ResumeClientConnections` reports whether the source would re-enter the loop instead of running it.
- Resume on a server that was never started: the source then calls `accept()` on a null socket, which throws. `AwaitClientConnections` requires the listening socket to be open.
- `Server.ServerProgram.AwaitClientConnections`: the schedule is finite, so the model covers a finite prefix of a loop that, in the source, never ends.
- The singleton accessors `getInstance` of both classes, and the `main` methods.
- The `WeakReference` to the client socket: only the case in which it has been cleared is modelled, as the flag `socketAlive`.
- Logging to `System.out`, and exceptions wrapped into `Error` (socket bind in `start`, client I/O).
- A failed read in a worker ends its loop exactly as the end of input does, so it is covered by a shorter input. `PrintWriter` never throws.
- A request processor is a total function on strings: side effects of other implementations are not modelled.
- `ServerWorker.Run`: a processor whose `onProcessRequest` throws an unchecked exception is not modelled. That exception is not caught by the `IOException` handler, so after the `finally` block closes the socket `run()` ends without the decrement. The slot leaks, with the same pool effect as `Admission.ExitReclaimed`; in the model `releasesSlot` holds for every worker whose socket reference is live.
- The deprecated, uncalled `startHandlingClientRequests`.
- `Win_EchoServer.java` and `Win_EchoClient.java`: accept-once demonstrations with no decision logic.
- The client's console: the `Enter text: ` prompt and the `Server: ` prefix are not modelled. The lines the client prints are the replies of each `Exchange`, or the handshake line of an aborted session.
- `Client.Connect`: at the end of standard input the source loops forever, sending `null` each time. The model stops when its finite sequence of reads runs out (`InputExhausted`).
