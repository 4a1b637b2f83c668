# Multistage docker worker: verified model

A Taskcluster worker claims tasks from a queue, runs each as a chain of containers, streams the
log of the run to any number of HTTP clients, and talks to the runner process that launched it
over standard input and output. This project models the four concurrent or byte-level cores of
that worker in Dafny and proves what they promise.

**Protocols.** Each protocol is a labelled transition system on values: `Enabled` and `Apply` give
one atomic action of one goroutine, `Reaches` a whole schedule, and the theorems are about every
schedule. The code that runs inside a protocol is also written as the source writes it, as a
class or method that updates its variables in place, and proved against the same functions.

| files | what they model |
|---|---|
| `Scheduler`, `SchedulerProofs`, `MainLoop` | `Worker.Run`: the select loop, the claimer and up to N task goroutines over `workReq`, `workRes`, `completedTasks` and `stopCh` |
| `Pipeline`, `PipelineProofs`, `PipelineCalls`, `TaskRun`, `TaskOutcome` | one task: `runStep`, `uploadArtifact`, the gatherer, the proxy watcher, `runTaskLogic` and the reporting of `RunTask` |
| `Broadcast`, `BroadcastProofs`, `BroadcastProgress`, `PubSubBuffer` | the subscribable log buffer with its mutex and condition variable, its readers, and the HTTP registry in front of it |
| `Demux` | the demultiplexer of container logs |
| `Json`, `JsonProofs`, `JsonLaws`, `Framing`, `FramingProofs`, `FramingLaws` | the line framing of the runner protocol, with the JSON of its packets |
| `Packets`, `Handshake`, `HandshakeProofs`, `HandshakeRuns`, `Communicator`, `PacketLaws` | the capability handshake, its packets as bytes, and the graceful-termination channel |

## What the proofs found

- **`finish-tasks: true` is not honoured.** The handler closes its channel right after the value,
  so the loop that read `true` can next read `false` and return at once, with tasks running
  (`FinishTasksIsNotHonoured`, a concrete schedule). From any state after the `true`, work can be
  left behind if and only if a slot is in use there (`FinishAbandonsExactly`): the wish to finish
  the tasks is safe exactly when there are none.
- **A claim can be lost with its tasks when `Run` returns.** The call that claims has no context, so
  it goes on, and its answer is then never received (`ClaimIsLost`, for any number of slots). The
  claimer can be stranded this way if and only if it is claiming or delivering when `Run` returns
  (`ClaimerStrandsExactly`); if it is neither, it always comes to its end (`IdleClaimerIsSafe`).
- **A failed reclaim leaves the task goroutine at its send** on the unbuffered `doneCh` for ever, and
  nothing else does (`ResultIsLostExactly`; `ResultIsLost`, a schedule for every task).
- **A clean exit of the proxy hides failed steps** (`ProxyHidesFailure`). While the select has not
  decided, a failure can still end in a report of completion if and only if the proxy has not ended
  with an error and the claim is not lost (`FailureIsHiddenExactly`); on schedules without a clean
  exit a report of completion is always earned (`CompletionIsEarned`). When the redirect artifact
  cannot be created, two reports are made (`OutcomeIsRight`).
- **The framing limit is 4096 bytes** for the tilde and the JSON together, not 4095: a line that
  fills the reader's buffer is still parsed whole, and the newline that is left over is a blank
  line (`PacketArrivesExactly`).
- **Text that trails a packet on its line** goes to the handler as part of the packet, unless it is
  white space, which is trimmed first, or the packet ends where a read of the JSON decoder ends
  (`TrailingTextExactly`; `TextIsSwallowed`, streams on which it happens).
- **`Parse` panics on a line that trims to a single tilde**, unless the handler has refused a packet
  before it (`PanicsExactly`, over whole streams; `LoneTildePanics`).
- **The live log panics on an empty request path**, which a request for a bare host or a `CONNECT` has,
  and on no other (`RouteExactly`).
- **The runner's stream need not begin with the welcome.** `Run` replaces the writer before it sends
  the welcome, so a concurrent `Send` can come first (`WelcomeIsOvertaken`); `RunnerStreamOrder`
  gives the exact condition.
- **Agreement on capabilities is up to the applications.** Packets are dispatched by their type
  alone, so an application that sends a `hello` of its own can make the peer affirm what the sender
  does not have (`ForgedHello`), and a handler under that name replaces the built-in one
  (`ReplacedHandler`). `AffirmedExactly` says what a side affirms on every schedule;
  `AffirmedIsCommon` needs only that no such packet names a capability that its sender lacks, and
  `CapabilitiesAgree` that the two types are left alone.
- The idle timer, the run timeout and the timer of the reclaim are events that may come at any moment.

## Model

| member | source | states |
|---|---|---|
| SchedulerProofs.StepKeepsInv | internal/worker/worker.go:97-225 | the one inductive invariant (slots, the request token, task accounts, flags) is kept by every action of every goroutine |
| SchedulerProofs.SlotsAreConserved | internal/worker/worker.go:87-91 | in every reachable state the free slots, the slots of running tasks and those in `completedTasks` are together 0..N-1, each once; so a finished task can always send its slot, also after `Run` has returned |
| SchedulerProofs.RequestNeverHangs | internal/worker/worker.go:107-137 | whenever the loop is at a send on `workReq`, the claimer is alive and either parked at the receive or one own step away from it |
| SchedulerProofs.CreditIsBounded | internal/worker/worker.go:137-223 | a request asks for exactly the slots that are free when it is sent, and never exceeds them while completions race with it, so with an honest queue the pop from `freeSlots` never goes out of range |
| SchedulerProofs.WorkIsConserved | internal/worker/worker.go:136-223 | at the select, unless shutting down, a free slot means that a request is outstanding or the claimer's close is unread; `isFull` means no free slot and no request, and then a completion is on its way |
| SchedulerProofs.TasksAreAccounted | internal/worker/worker.go:193-217 | the tasks started are those of the accepted responses, in order, each exactly once, and nothing is discarded before the shutdown |
| SchedulerProofs.IdleIsAccurate | internal/worker/worker.go:139-209 | `idleSince` is set exactly when all slots are free, that is when no task runs and no completion is unread; the idle shutdown returns only then, with no request and no claimed task in hand |
| SchedulerProofs.ResponseExactly | internal/worker/worker.go:193-217 | at every reachable select a response returns with the idle shutdown if and only if it is empty, the limit has passed and all slots are free; otherwise all of its tasks are taken to be started, or all discarded if the loop is shutting down |
| SchedulerProofs.ClaimsAreAccounted | internal/worker/worker.go:113-217 | all tasks that the queue has handed out, in order, are those accepted, then those discarded, then those still in the claimer's hands |
| SchedulerProofs.ShutdownStartsNothing | internal/worker/worker.go:201-203 | once shutting down, the loop stays so, and no further task is accepted or started on any schedule |
| SchedulerProofs.ShutdownRunsOut | internal/worker/worker.go:144-223 | while shutting down every action but a claim retry strictly lowers a measure |
| SchedulerProofs.DrainAdvances | internal/worker/worker.go:161-178 | while a slot is in use, or the loop is at a send, some draining action (task return, completion, request, park) is possible |
| SchedulerProofs.CompletionDrains | internal/worker/worker.go:162-173 | during shutdown a completion lowers the slots in use by exactly one and returns from `Run` exactly when it brings them to zero |
| SchedulerProofs.CompletionsCountDown | internal/worker/worker.go:162-173 | over any schedule during shutdown the number of free slots grows by exactly the number of completions received; a drained `Run` received one for every slot that was in use |
| SchedulerProofs.ShutdownDrains | internal/worker/worker.go:144-191 | after shutdown begins at most 2N+17 actions besides claim retries remain, and a schedule with no draining action left has returned with all slots free; the exceptions are exactly an immediate stop, and a `true` from `stopCh` received when idle, which does not make `Run` return |
| SchedulerProofs.FinishIsFollowedByStop | internal/worker/worker.go:154-159 | after `stopCh` gave `true`, it is ready again exactly when closed, and that receive returns from `Run` immediately |
| SchedulerProofs.FinishAbandonsExactly | internal/worker/worker.go:154-159 | for every reachable state after `true` was received and before `Run` has returned: some schedule from it returns and leaves tasks running or completions unread if and only if a slot is in use in that state |
| SchedulerProofs.ReturnAbandonsExactly | internal/worker/worker.go:144-199 | the receive that ends `Run` leaves work behind if and only if it is the receive of `false` from `stopCh` with a slot in use just before it |
| SchedulerProofs.AbandonedExactly | internal/worker/worker.go:146-191 | `Run` has drained whenever it returned for any cause but an immediate stop |
| SchedulerProofs.FinishTasksIsNotHonoured | internal/workerproto/shutdown.go:28-38 | a reachable state in which `true` was received and `Run` has returned with its task still running |
| SchedulerProofs.ClaimerStrandsExactly | internal/worker/worker.go:101-126 | after `Run` returned, some schedule leaves the claimer at `workRes <- resp` for ever if and only if it is claiming or delivering at that moment |
| SchedulerProofs.IdleClaimerIsSafe | internal/worker/worker.go:98-134 | a claimer that is neither claiming nor delivering when `Run` returns never claims again on any schedule, and can always go on until it has ended |
| SchedulerProofs.ClaimIsLost | internal/worker/worker.go:101-152 | for any number of slots, a schedule on which the context ends during the first claim, `Run` returns, and the claimed task is then held for ever by a stranded claimer |
| SchedulerProofs.ClaimStillDelivers | internal/worker/worker.go:101-125 | constructs the schedule on which a claim under way is answered after `Run` has returned |
| SchedulerProofs.ClaimerEndsExactly | internal/worker/worker.go:98-134 | after `Run` returned, an end of the claimer is still possible if and only if it is not delivering at that moment |
| SchedulerProofs.UnreadClaimIsStranded | internal/worker/worker.go:125-126 | a response still undelivered when `Run` has returned stays undelivered on every schedule |
| SchedulerProofs.ClaimerEnd | internal/worker/worker.go:95-133 | constructs the schedule by which any other claimer ends |
| MainLoop.Worker.constructor | internal/worker/worker.go:87-141 | the first request is for all slots, all slots are free |
| MainLoop.Worker.OnContext | internal/worker/worker.go:146-152 | the in-place update of the context arm is the protocol's |
| MainLoop.Worker.OnCompletion | internal/worker/worker.go:162-178 | the same for a completed task, with the request for one more task that follows if all slots had been in use |
| MainLoop.Worker.OnClose | internal/worker/worker.go:181-191 | the same for the closed `workRes` |
| MainLoop.Worker.OnWork | internal/worker/worker.go:193-223 | the same for a response: idle shutdown, discarding, or starting its tasks |
| MainLoop.Worker.StartTasks | internal/worker/worker.go:205-223 | the loop over the tasks does what the protocol does one task at a time, with the request after it |
| MainLoop.StartsExactly | internal/worker/worker.go:205-223 | that loop in closed form: it panics exactly when there are more tasks than free slots; otherwise task i gets the i-th last free slot, and the request is for the slots left, or `isFull` is set |
| MainLoop.RespondsExactly | internal/worker/worker.go:181-223 | what the loop makes of one response, in closed form: nothing once `workRes` is nil or while shutting down, the idle shutdown, or each task started on its own slot and all slots left asked for |
| MainLoop.ReturnsForAReason | internal/worker/worker.go:143-199 | a loop that has returned received what explains the cause it gives: for an idle shutdown, an empty response after the limit had passed |
| MainLoop.Worker.Run | internal/worker/worker.go:143-225 | for any sequence of arrivals the loop ends in the state, and has sent the requests and launched the tasks, that the specification `Follow` gives |
| MainLoop.ProtocolRunsTheLoop | internal/worker/worker.go:136-225 | in every schedule of the whole protocol the main goroutine is where `Run` is when fed with what was received, and the protocol's started tasks are those `Run` launched |
| Pipeline.Wire | internal/worker/run.go:351-386 | the loops that rebuild `leaves` make step k wait for step k-1 (step 0 for the start), every upload for the last step, and the gatherer for all uploads, or for the last step if there are none |
| PipelineProofs.StepKeepsInv | internal/worker/run.go:101-401 | the invariant of chain, fan-out and gatherer is kept by every action |
| PipelineProofs.FailuresAreConserved | internal/worker/run.go:284-386 | what is received from `nextCh` is nil if and only if every step and every upload ended with nil; otherwise it is the error of a leaf |
| PipelineCalls.NilIsEarned | internal/worker/run.go:112-401 | on every schedule what is received from `nextCh` is nil if and only if the calls of every step, read off the schedule, are a pull, a creation and a run without error and with exit code zero, and every upload was made and returned no error |
| PipelineCalls.ErrorIsReal | internal/worker/run.go:112-401 | an error received from `nextCh` is one that a call of a step or an upload on the schedule returned, or the exit code of a container |
| PipelineCalls.UploadArtifact | internal/worker/run.go:278-298 | the body of an upload: it uploads if and only if all it waited for was nil, and sends the result of the upload, or the error that it received |
| PipelineCalls.UploadRunsLikeBody | internal/worker/run.go:278-298 | from any point an upload of the protocol, given the same results, runs to its end with what that body sends |
| PipelineProofs.ErrorReachesOneUpload | internal/worker/run.go:289-297 | when the last step failed and all uploads have received, exactly one got its error and all others read nil from the closed channel |
| PipelineProofs.StepsTakeTurns | internal/worker/run.go:112-213 | creations and removals are always a prefix of create 0, remove 0, create 1, remove 1, ...; a step past its wait has only predecessors that ended with nil and were cleaned up; at most one step has a container |
| PipelineProofs.EveryActionDecreases | internal/worker/run.go:112-400 | every action of every goroutine lowers a measure |
| PipelineProofs.StuckIsQuiet | internal/worker/run.go:112-400 | a state with nothing enabled has every goroutine finished, none stuck at a send, and the select past its receive |
| PipelineProofs.EveryRunDelivers | internal/worker/run.go:351-400 | with n steps and m artifacts every schedule has at most 7n+5m+8 actions, and a maximal one has delivered and left nothing behind |
| PipelineProofs.RunStep | internal/worker/run.go:112-213 | the body of a step with its early returns and deferred calls: it sends nil exactly when every call succeeded and the exit code is zero; a non-zero exit code overrides the error of the run |
| PipelineProofs.StepRunsLikeRunStep | internal/worker/run.go:112-213 | from any point a step of the protocol, given the same results of its calls, runs to its end with the result and container events of that body |
| TaskRun.Runner.Conclude | internal/worker/run.go:422-452 | log closed, upload attempted, then exactly one report, chosen by the kind of error |
| TaskRun.Runner.Run | internal/worker/run.go:456-499 | the select over a due reclaim and the task's result: what ends the run and all it does, for any arrivals; the reclaim counts once |
| TaskRun.ProtocolRunsRunTask | internal/worker/run.go:404-499 | in every schedule of the whole protocol a finished task ended with, and did, exactly what the select loop of `RunTask` makes of what it received |
| TaskRun.OutcomeIsRight | internal/worker/run.go:391-499 | on every finished schedule the log was closed, then uploaded, then one report made (two without the redirect); completed is reported if and only if all steps and uploads ended with nil or the proxy ended without error; an exception if and only if the final error is an exception, or the redirect failed |
| TaskRun.EveryTaskReports | internal/worker/run.go:404-500 | every schedule has at most 7n+5m+21 actions and cannot stop before the report |
| TaskRun.ResultIsLostExactly | internal/worker/run.go:472-489 | in a run that cannot go on, the task goroutine is blocked at its send on `doneCh` if and only if a reclaim failed; otherwise its result was received, or it was never started |
| TaskOutcome.ResultCanBeLost | internal/worker/run.go:472-489 | from every reachable moment before the reclaim, some schedule ends with the report made and the task goroutine at its send for ever |
| TaskOutcome.NothingElseIsLeft | internal/worker/run.go:351-400 | in a run that cannot go on, if the pipeline was begun, all of its goroutines have finished, whichever result the select took |
| TaskOutcome.ResultIsLost | internal/worker/run.go:472-489 | for every number of steps and uploads such a schedule from the start |
| TaskOutcome.CompletionIsEarned | internal/worker/run.go:391-441 | on every schedule on which the proxy does not end without an error, completion is reported if and only if the gatherer's result was delivered and every call of every step and upload was successful |
| TaskOutcome.CompletedExactly | internal/worker/run.go:391-441 | on every schedule completion is reported if and only if the task goroutine delivered its result and that came from the gatherer, with every call of every step and upload successful, or from a proxy that ended without error |
| TaskOutcome.ReportExactly | internal/worker/run.go:303-452 | the whole trace of a finished task, literally: the log closed, then uploaded, then one report, after an internal error if the redirect failed; malformed-payload if and only if the payload did not parse, internal-error for any later call before the pipeline, a lost claim or a failed redirect, and otherwise what the pipeline returned |
| TaskOutcome.FailureIsHiddenExactly | internal/worker/run.go:62-73 | with a step or upload failed and the select undecided, some schedule still reports completion if and only if the proxy has not ended with an error and the claim has not been lost |
| TaskRun.LogClosedFirst | internal/worker/run.go:430-433 | at every moment the upload of the log comes right after its close |
| TaskRun.ProxyHidesFailure | internal/worker/run.go:391-400 | a reachable finished run that reports completion although its only step failed |
| BroadcastProofs.StepKeepsInv | internal/pubsubbuffer/pubsubbuffer.go:39-162 | the monitor invariant (one holder of the mutex, streams, wakeups, accepted writes) is kept by every action |
| BroadcastProofs.SubscribersSeeTheStream | internal/pubsubbuffer/pubsubbuffer.go:129-162 | at every moment, for any writers and readers, what a reader got is the prefix of the accepted writes of length `offset`; EOF comes only after close and with everything delivered, and the copy loop has then written the whole contents |
| BroadcastProofs.NoLostWakeup | internal/pubsubbuffer/pubsubbuffer.go:39-162 | a parked reader has read all of an open buffer, or the holder of the mutex is about to broadcast; if its context is done its waker goroutine is still to broadcast |
| BroadcastProofs.EndsForAReason | internal/pubsubbuffer/pubsubbuffer.go:39-162 | on every schedule the buffer is closed if and only if a call of Close has closed it; a reader's context has ended if and only if it was cancelled, and the reader gives up for that reason only then; a copy loop stops with bytes in its hands if and only if the consumer refused them |
| BroadcastProofs.HolderActs | internal/pubsubbuffer/pubsubbuffer.go:39-162 | whoever holds the mutex can take a step |
| BroadcastProofs.OnlyRightfulSleepers | internal/pubsubbuffer/pubsubbuffer.go:39-162 | when nothing can move by itself, every call has returned, and a sleeping reader has read everything of an open buffer with its context alive |
| BroadcastProofs.FrozenAfterClose | internal/pubsubbuffer/pubsubbuffer.go:39-60 | after the close the contents never change, and a length measured from then on is theirs |
| BroadcastProofs.UploadLengthIsRight | internal/worker/run.go:33-41 | a length measured by a call that takes the mutex after the close equals the number of bytes any subscription has yielded at EOF, whatever else still tries to write |
| BroadcastProofs.UploadAfterClose | internal/worker/run.go:430-433 | the same in the caller's terms: Close has returned before Len is called |
| BroadcastProgress.CallsSettle | internal/pubsubbuffer/pubsubbuffer.go:39-162 | with c calls and r readers, every schedule without new calls or cancellations has at most (c + r)(5r + 9) actions, fair or not; when none is left, all calls have returned and only readers with nothing to read are asleep |
| BroadcastProgress.ReadersReturnAfterClose | internal/pubsubbuffer/pubsubbuffer.go:135-161 | so after a close, or after the end of its context, every reader inside Read returns |
| PubSubBuffer.ReadIsNext | internal/pubsubbuffer/pubsubbuffer.go:135-161 | a read, whatever happens while it waits, returns the next bytes of the contents, as many as fit; EOF only at the end of a closed buffer; an error exactly when its context has ended |
| PubSubBuffer.Buffer.Write | internal/pubsubbuffer/pubsubbuffer.go:48-60 | appends all, or fails and changes nothing, exactly when closed |
| PubSubBuffer.Buffer.Close | internal/pubsubbuffer/pubsubbuffer.go:39-45 | closes and keeps the contents |
| PubSubBuffer.Reader.Take | internal/pubsubbuffer/pubsubbuffer.go:143-154 | copies what the protocol's reader finds, and leaves the rest of the destination as it was |
| PubSubBuffer.Reader.Read | internal/pubsubbuffer/pubsubbuffer.go:129-162 | the loop returns what `ReadFrom` says, with the bytes in the destination and the offset advanced by their number |
| PubSubBuffer.Buffer.ServeHTTP | internal/pubsubbuffer/pubsubbuffer.go:88-119 | 405 unless GET; otherwise, whatever others do before and during each read, the response is a prefix of the contents, and all of them at EOF; it stops early only because the client left, its context ended, or an open buffer has no more; a closed buffer is served completely to a client that stays |
| PubSubBuffer.RouteExactly | internal/pubsubbuffer/server.go:35-45 | the slice of the path is out of range exactly on the empty path; any other path leads to an id exactly when it is the id, non-empty, after the first character, or the id followed by a slash |
| PubSubBuffer.Server.Allocate | internal/pubsubbuffer/server.go:58-71 | registers a new empty open buffer under the id and touches no other entry |
| PubSubBuffer.Server.ServeHTTP | internal/pubsubbuffer/server.go:34-55 | panics exactly on the empty path, with nothing sent; 404 exactly when another path leads to no registered buffer; otherwise that buffer is served, with 200 for a GET and 405 for anything else |
| PubSubBuffer.LogWriter.Close | internal/pubsubbuffer/server.go:79-86 | the buffer is closed with its contents kept, and exactly this id is unregistered |
| Demux.PayloadByChunks | internal/cri/docker.go:250-268 | reading a payload in chunks of 4096 bytes gives what reading it whole gives |
| Demux.ReadHeader | internal/cri/docker.go:227-250 | the next 8 bytes decide how the rest of the stream is read: its end, a fault, a panic, or a payload of a stream and a length |
| Demux.ReadChunk | internal/cri/docker.go:251-260 | a chunk of at most 4096 bytes is what comes first in the rest of the payload; a fault means that nothing more of it is written |
| Demux.CopyPayload | internal/cri/docker.go:251-268 | the inner loop writes the payload of one frame in full, or stops with what the frame-by-frame form gives before the fault |
| Demux.Run | internal/cri/docker.go:199-270 | for every byte stream, also with both streams on one writer: an exit code is returned only where `Split` ends with Exit, with all of `Split`'s output written; on an error or panic exactly the output before it; a failing writer got a prefix |
| Demux.BigEndianInverse | internal/cri/docker.go:250 | every 32-bit length survives its header |
| Demux.BigEndianDigits | internal/cri/docker.go:250 | the length of a header has its most significant byte first |
| Demux.FrameFields | internal/cri/docker.go:239-268 | a frame with its eight header bytes written out: the payload of stream 1 goes to stdout, that of stream 2 to stderr, and both to a writer that is used as both, before the rest of the stream |
| Demux.FramesRefused | internal/cri/docker.go:241-265 | stream 0 panics; an unknown stream with a payload panics once its first chunk of at most 4096 bytes has been read, and is an error if the input ends before |
| Demux.DemuxInvertsMux | internal/cri/docker.go:223-269 | for all frames, demultiplexing the multiplexed stream yields exactly the payloads of each stream in order |
| Demux.CutAnywhere | internal/cri/docker.go:227-260 | a multiplexed stream cut anywhere ends with an exit code if and only if the cut is on a frame boundary and ends with EOF, and the output is a prefix of the whole output |
| Demux.ExitExactlyOnFrames | internal/cri/docker.go:226-260 | a byte stream leads to an exit code if and only if it is a sequence of whole frames |
| Json.StringBack | internal/workerproto/proto.go:69-70 | every byte string, written as a JSON string, reads back as itself with invalid UTF-8 replaced (RFC 8259, section 7) |
| Json.ValueBack | internal/workerproto/proto.go:40-43 | every well-formed value, written, reads back as itself, and what follows it is left over (RFC 8259, sections 4 and 5) |
| JsonLaws.RuneBack | internal/workerproto/proto.go:40-43 | each code point is read with the length with which UTF-8 writes it (RFC 8259, section 8) |
| JsonLaws.RuneIsEncoded | internal/workerproto/proto.go:40-43 | and nothing else is read as one |
| JsonLaws.SurrogatePair | internal/workerproto/proto.go:40-43 | two escaped surrogates stand for one code point (RFC 8259, section 7) |
| JsonLaws.BlankBeforeToken | internal/workerproto/proto.go:40-43 | white space before a token is of no account (RFC 8259, section 2) |
| JsonLaws.NumberExactly | internal/workerproto/proto.go:40-43 | the numbers that are read are exactly those of the grammar (RFC 8259, section 6) |
| JsonLaws.NumberIsRead | internal/workerproto/proto.go:40-43 | and each of them is read as a whole |
| JsonProofs.ValuePrints | internal/workerproto/proto.go:69-73 | written JSON holds no control character, so a packet stays on one line |
| JsonProofs.ValueExtends | internal/workerproto/proto.go:41-43 | more input does not change how a complete value is read |
| JsonProofs.PrefixIsBad | internal/workerproto/proto.go:25-43 | no proper prefix of a written packet is itself a value, so a packet that is cut is not mistaken for a packet |
| Framing.LineReader.ReadLine | internal/workerproto/proto.go:22-30 | the next line, or the next 4096 bytes of it, without its line end |
| Framing.Parse | internal/workerproto/proto.go:21-61 | the loop produces the events and the end that `ParseFrom` gives for the whole stream |
| Framing.Write | internal/workerproto/proto.go:65-77 | appends one tilde, the JSON and two newlines, or nothing if the writer fails |
| FramingProofs.ParseInvertsWrite | internal/workerproto/proto.go:21-77 | for all packets and plain lines that fit the buffer, in any order, parsing what was written gives the handler exactly the packets with a type and the log exactly the other packets and the trimmed non-blank lines, in order, up to where the handler refuses |
| FramingProofs.ParseInvertsUnended | internal/workerproto/proto.go:21-61 | the same for streams whose last packet or line has no newline |
| FramingProofs.NextLineSplits | internal/workerproto/proto.go:25 | reading a line loses nothing but its end, LF or CR LF, and leaves that out only at the end of the input or where the buffer is full |
| FramingLaws.LineIsConserved | internal/workerproto/proto.go:32-59 | nothing of a trimmed line is swallowed: it is skipped if and only if blank, out of range if and only if a lone tilde, handed over if and only if it holds an object with a type behind a tilde, with the rest to be logged, and logged as it is otherwise |
| FramingLaws.TrimExactly | internal/workerproto/proto.go:32 | trimming takes off all white space at both ends and nothing else |
| FramingLaws.WhiteAtStart | internal/workerproto/proto.go:32 | where white space is exactly the code points of that Unicode property |
| FramingLaws.ReadsExactly | internal/workerproto/proto.go:40-45 | the decoder has read up to the first of 512, 1536 and 3584 bytes that holds the packet, or to the end of the line |
| PacketLaws.RuneString | internal/workerproto/proto.go:69-70 | in a string that is written, a code point beyond ASCII stands as it is, but for the two line separators of JavaScript, which are escaped |
| PacketLaws.GreetingOnTheWire | internal/workerproto/proto.go:65-77 | a greeting of simple text on the wire, byte by byte |
| FramingProofs.PacketArrivesExactly | internal/workerproto/proto.go:25-47 | a written packet reaches the handler unchanged if and only if tilde and JSON are at most 4096 bytes |
| FramingProofs.LongPacketIsCut | internal/workerproto/proto.go:25-59 | a longer packet is logged in place of being handled |
| FramingProofs.TrailingTextExactly | internal/workerproto/proto.go:32-55 | for every stream that goes on with a packet, text and a newline that fit the buffer: the next event hands over the packet plus a part of the right-trimmed text, and the rest is logged if the handler accepts; just the packet if and only if the trimmed text is empty or the JSON has 512, 1536 or 3584 bytes |
| FramingProofs.TextIsSwallowed | internal/workerproto/proto.go:40-47 | a packet and text of at most 512 bytes together reach the handler as one |
| FramingProofs.PanicsExactly | internal/workerproto/proto.go:24-50 | for every stream and handler, `Parse` indexes out of range if and only if some line that ReadLine cuts trims to one tilde and the handler has refused nothing that came before it |
| FramingProofs.LoneTildePanics | internal/workerproto/proto.go:32-37 | a stream of any plain line and then a lone tilde: the line is logged and `Parse` panics, whatever follows |
| HandshakeProofs.AffirmedExactly | internal/workerproto/api.go:52-161 | on every schedule, whatever the applications send and handle: a side affirms a capability if and only if it is in its local set and in a greeting that it has read and left to the built-in handler |
| HandshakeProofs.AffirmedIsCommon | internal/workerproto/api.go:52-161 | if every greeting that an application sends itself names only capabilities of its side, and capabilities are valid text, an affirmed one is in both local sets, with any handlers |
| HandshakeProofs.CapabilitiesAgree | internal/workerproto/api.go:52-161 | on schedules on which the applications send no packet of type welcome or hello, add no handler for these, and use valid text: at every point a capability that either side affirms is in both local sets, and once a side has read the other's greeting it affirms exactly the intersection |
| HandshakeRuns.AgreementIsReached | internal/workerproto/api.go:80-161 | from every state of such a schedule, without new application packets, a bounded number of actions remains; when none is left, a side has refused a packet, or both have read everything and affirm exactly the intersection |
| HandshakeRuns.ForgedHello | internal/workerproto/api.go:75-115 | for every capability a schedule on which the runner affirms it and the worker does not have it |
| HandshakeRuns.ReplacedHandler | internal/workerproto/api.go:70-72 | a schedule on which both sides have a capability and the runner, having read the hello, does not affirm it |
| HandshakeProofs.HelloIsAnAnswer | internal/workerproto/api.go:125-140 | on such schedules the worker has said hello if and only if it has read a welcome |
| HandshakeProofs.RunnerStreamOrder | internal/workerproto/api.go:80-106 | on every schedule the runner's stream is: sends that overtook the welcome, its welcome, sends before the copy, the packets queued before `Run` in order, later sends; it begins with its welcome if nothing overtook it and else with what did |
| HandshakeRuns.WelcomeIsOvertaken | internal/workerproto/api.go:81-97 | a reachable serving runner whose stream begins with another goroutine's packet, for any packet |
| Packets.GreetingMeans | internal/workerproto/api.go:90-93 | a greeting as the code makes it, once written and decoded, is the greeting with the same capabilities in order, up to invalid UTF-8 |
| Communicator.HelloBack | internal/workerproto/api.go:120-147 | the same of its bytes: the type and the capabilities decode to themselves, if they are valid text |
| Communicator.MessageBack | internal/workerproto/api.go:74-116 | each packet of at most 4095 bytes of JSON, whatever its type and whoever sends it, arrives as one event, which stands for the same message as in the handshake |
| Communicator.WireCarriesMessages | internal/workerproto/api.go:74-116 | a whole stream of such packets, written as bytes and parsed by a handler that accepts them, is the same messages in order; so the handshake on messages is the one on bytes as long as every packet has at most 4095 bytes of JSON |
| Communicator.Communicator.constructor | internal/workerproto/api.go:32-49 | the built-in handlers are in place and packets are queued |
| Communicator.Communicator.ListCapabilities | internal/workerproto/api.go:85-88 | lists every local capability exactly once |
| Communicator.Communicator.Start | internal/workerproto/api.go:80-105 | the prelude of `Run`: the new writer gets the runner's welcome and then all queued bytes, and the queue is emptied; a failing writer gets nothing |
| Communicator.Communicator.Hear | internal/workerproto/api.go:142-161 | adds exactly the capabilities of the packet, and nothing if it does not decode |
| Communicator.Communicator.Answer | internal/workerproto/api.go:125-140 | the same, and the hello with all local capabilities |
| Communicator.Communicator.Handle | internal/workerproto/api.go:109-116 | with a working writer a handled packet is the step of the handshake protocol, with built-in handlers in place or replaced: same capabilities learnt, same replies on the wire, same refusals |
| Communicator.Termination.Handle | internal/workerproto/shutdown.go:28-38 | the first packet puts its value, if it decodes, and closes the channel; any further packet panics |
| PacketLaws.FinishExactly | internal/workerproto/shutdown.go:31-36 | the value read from the bytes of a packet is that of its `finish-tasks`, wherever it stands, false if it is missing or null, and an error if it is anything else |
| PacketLaws.ListOver | internal/workerproto/api.go:142-147 | a list that is given a second time is read over the first: null keeps what was there |
| PacketLaws.TypeWherever | internal/workerproto/proto.go:12-44 | the type of a packet is that of its `type` member, wherever it stands |
| PacketLaws.CapsWherever | internal/workerproto/api.go:120-147 | the capabilities of a greeting are those of its `capabilities` member, wherever it stands; null is none, and anything but a list of strings and nulls is an error |

## Left out

- The Taskcluster queue, secrets and S3 calls, the Docker client and image pulls are results that may be anything; only container creation, run and removal appear as steps.
- SchedulerProofs.CreditIsBounded: assumes, like every theorem over `Reaches` in the scheduler, that the queue returns no more tasks than it was asked for; `MainLoop.StartsExactly` says what happens when it returns more.
- SchedulerProofs.ShutdownDrains: does not say that tasks end or that a retried claim gives up; it counts the actions and says that none is blocked.
- PipelineProofs.EveryRunDelivers: assumes that pulls, containers, uploads and the proxy return; the run timeout that ends them is not modelled.
- TaskRun.EveryTaskReports: a panic of the task goroutine is not modelled.
- BroadcastProofs.OnlyRightfulSleepers: gives what holds when nothing can move; that this comes about is `BroadcastProgress.CallsSettle`, for as long as nobody starts new calls.
- The goroutines of a task exist from the start; they cannot do anything before the code starts them, except pull, which overlaps with the wiring.
- Time: the idle limit, the run timeout and the reclaim are events that can come at any moment, and nothing is said about leases being renewed.
- The environment that a step merges, its working directory, and the tar stream of an artifact: an override fold and library calls.
- Log formatting, the live log listener and its tunnel, HTTP headers and flushing, the command line and the configuration.
- PubSubBuffer.Server.Allocate: the generated id is a parameter that must be new; slug generation is not modelled.
- PubSubBuffer.Server.ServeHTTP: the registry's own mutex is not modelled, each of its methods being one critical section; what the HTTP library does after a panic is not part of this model.
- Json.ValueBack: values are the shapes that packets use, numbers are kept as their text; values that the encoder refuses, and its ordering of map keys, are not modelled.
- Framing.Write: keys of packets match `type` and the other names up to the case of ASCII letters, without the further Unicode folding of the library.
- Communicator.Communicator.Handle: a handler added by the application accepts or refuses; what else it does is its own affair. `Run` is `Start` followed by `Framing.Parse`, whose handler is a function of the events so far.
- HandshakeRuns.AgreementIsReached: packets longer than the framing limit are not part of the handshake on messages; `FramingProofs.LongPacketIsCut` says what becomes of them.
- Sends from several goroutines write the buffer or stream atomically; the races of an unsynchronised writer are not modelled.
