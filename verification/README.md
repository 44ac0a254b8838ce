# DataPilot, modelled and proved

DataPilot answers questions about data with a tool-calling language-model agent. This project models
the parts of it whose correctness depends on more than one function, and proves what those parts
promise. Everything outside (model, tools, store, network, clock) is an arbitrary input, so the
results hold for every behaviour of the outside.

- **The agent run** (`AgentModels`, `ToolCallAssembly`, `Compaction`, `ModelCall`, `AgentLoop`,
  `AgentRuns`, `Transcripts`, `Provider`, `Usage`): one model call per iteration, five exits, re-planning, streamed
  tool calls, context compaction, and the usage records around the provider. `AgentLoop.Run` is a run
  against an arbitrary model and arbitrary tools; `AgentLoop.Stream` is the loop itself, proved to
  compute it.
- **The resumable chat stream** (`Broker`, `Sse`, `SseRoundTrip`, `LineEnds`, `Worker`, `Views`, `ChatTurn`,
  `Resume`, `ResumeRuns`, `ResumeObjects`, `EndToEnd`): the worker that survives its listeners, the
  append-only log with one shared counter, server-sent events, the incremental parser, the client's
  reducer, reconnects by last id and the snapshot fallback. `Resume` is a state machine whose steps
  may come in any order and whose connections may be cut after any character. `EndToEnd` joins
  everything: what the browser shows at the end is what the agent answered.
- **Idempotent submission** (`Submission`, `Tasks`): any number of submissions, interrupted at every
  await, against the message table and its unique constraints, and the registry of running tasks.
- **The MCP owner and the tool registry** (`Registry`, `McpModel`, `McpProofs`, `McpEffects`,
  `McpClient`, `McpActor`, `McpOwner`): one task that owns a connection, serves a queue, reconnects, and keeps a
  slice of a shared registry equal to the server's tools.
- **Smaller algorithms** (`Csv`, `Headers`, `RateLimit`, `History`).

Code that updates state in place is a class or a method with loops, proved equal to a function on
values; the theorems are about those functions. `dafny verify dfyconfig.toml` checks the project.

Where the code does not do what its documentation or a reader may expect, the exact condition is
proved:

- The documentation says that `client_request_id` prevents duplicate messages (README.md:174). Assistant
  messages and workers are indeed unique (`OneAnswerPerRequest`, `OneWorkerPerRequest`), user
  messages are not: two overlapping submissions can both store the question
  (`OverlapDuplicatesTheQuestion`), exactly when
  two submissions look before an answer is stored and both go on (`DuplicatedIffTwoLookedInVain`). A
  submission adds messages exactly when its lookup finds no stored
  answer (`AddsMessagesIffLookupFindsNothing`). An id reused in a second conversation is never
  answered there and stores its question on every attempt (`ForeignRequestIsNeverAnswered`).
- A reconnect after the end gets the snapshot on top of what is already shown
  (`ReconnectAfterTheEndDoubles`); a snapshot rebuilds the message exactly on an empty draft
  (`SnapshotRebuildsIffNothingShown`) and cannot be resumed half-way (`SnapshotCannotBeResumed`). A cancel
  during the final persist leads there for every waiting client (`UnfinishedLogEndsInSnapshot`).
- After an error the stored text is the reason while the client keeps its streamed text
  (`ErrorReplacesOnlyTheStoredText`). The two agree exactly when there was no error or the reason repeats
  the text (`TextsAgreeIff`); for an agent run with a result, exactly when it completed
  (`LiveTextIsStoredIffCompleted`).
- The repair of an answer that looks abandoned can overwrite a completed one (`LateRepairOverwrites`):
  exactly when the answer was streaming at the lookup, no worker was running at the check, and the
  completed row landed before the write (`RepairOverwritesIff`). Aborting has the same gap
  (`LateAbortOverwrites`, `AbortOverwritesIff`).
- The stream parser keeps one piece per chunk (`SecondToolCallIsDropped`); nothing is lost exactly when no
  chunk carries two (`NothingIsLostIffOnePieceEach`).
- The late callback of an ended chat task can forget a newer one (`RestartBeforeCallbackIsForgotten`);
  it cannot when ids are started once, as message ids are (`StartedOnceIsExact`).
- A single-column export that ends in an empty cell loses its last row in readers that allow a final
  line break (`TolerantReadsBackIff`).
- A delayed increment can start its counter over (`LateIncrementStartsOver`). Checks are counted in their
  place exactly when no increment meets an expired counter (`ExactIffNothingStartsOver`).
- A negative history budget is not a bound (`WithinBudgetIff`).
- A counter about to expire makes the limiter name the whole window as the wait: exactly when less than half
  a second is left (`WaitIsTheTimeToLive`).
- A refresh that fails keeps the connection when a caller asked for it (`RefreshRecords`) and closes it when
  it was the idle tick (`TickOfAConnectedClient`).
- A tool whose handler alone changed counts as unchanged in the diff of a replacement (`DiffPartitions`).

## Model

| member | source | states |
|---|---|---|
| `AgentLoop.Stream` | backend/app/agent/loop.py:69-228 | The generator yields exactly the events, and ends with exactly the result or exception, of the run the properties below quantify over; a result's messages are the system prompt if there is one, the history, the user's question and then one block per recorded step: the assistant message with its calls and one reply per execution, or one re-plan request |
| `AgentLoop.RunningTranscript` | backend/app/agent/loop.py:77-217 | The same of the transcript in every running state of every run |
| `AgentLoop.ResultTranscript` | backend/app/agent/loop.py:88-228 | The same of every result's messages, in each of the five exits |
| `AgentLoop.RepliesAreToolMessages` | backend/app/agent/loop.py:205-217 | The replies of a step, one by one: a tool message under the call's id and name, its text cut to the configured length unless the tool is the plot tool, an error told as such |
| `Transcripts.ModelReceivesTheTranscript` | backend/app/agent/loop.py:77-80 | Before every model call of every run, position by position: what is sent is that transcript, each message whole when the budget holds it and compacted as specified when not |
| `Transcripts.EveryStepIsAResponse` | backend/app/agent/loop.py:88-145 | The k-th recorded step of any run carries number, content, calls and usage of the k-th response, asked for with the transcript of the steps before it |
| `Transcripts.StepIsTheResponse` | backend/app/agent/loop.py:88-217 | Whatever an iteration does, it records its response, and raises exactly when the model call fails |
| `Transcripts.ExecutionsAreTheCalls` | backend/app/agent/loop.py:346-383 | Each call is recorded under its own id, name and arguments; an unknown tool fails without being run, any other has the outcome of running it |
| `Transcripts.SameSignatureIff` | backend/app/agent/loop.py:418-426 | Two calls count as the same work if and only if they name one tool with arguments that normalise alike |
| `Transcripts.EveryResultGivesItsReason` | backend/app/agent/loop.py:112-228 | Every result of every run gives the reason of its status, with the numbers that decided, and none when it completed |
| `AgentLoop.RunIteration` | backend/app/agent/loop.py:88-217 | One pass of the loop takes the exit, re-plan or execution branch of the specified iteration, with the same messages, usage, steps and signatures |
| `AgentLoop.ExecuteToolCalls` | backend/app/agent/loop.py:346-383 | Executions come back in call order, one per call, failures as errors; several tools run at once exactly when the settings allow it, they are no more than the configured number and every one is known and marked safe |
| `AgentRuns.EveryResultIsGood` | backend/app/agent/loop.py:88-228 | For every model and tool behaviour: steps are numbered 1..n and their usages sum to the result's; no executed signature occurs twice; every executed batch respects the per-step limit and started within the token budget; re-plans stay within their limit; the status is the one read off the recorded steps in the fixed precedence; listeners see all steps but the re-planned ones and end with the answer or an empty text; the result comes once, last |
| `AgentRuns.HistoryStaysClean` | backend/app/agent/loop.py:181-203 | In every running state the executed-signature set is exactly the signatures of the recorded executions, and those never repeat |
| `AgentRuns.RunKeepsLedger` | backend/app/agent/loop.py:101-217 | In every running state usage, step numbers, re-plan count and streamed steps agree with the recorded steps, and nothing is left on the listener's screen |
| `AgentRuns.ModelInputsWellFormed` | backend/app/agent/loop.py:77-80 | Given a history without open calls, every list sent to the model at every step of every run answers each tool call in order with matching ids before anything else is said, after compaction too |
| `AgentRuns.TranscriptWellFormed` | backend/app/agent/loop.py:147-163 | The same for the uncompacted transcript: a re-planned batch leaves no dangling call behind |
| `AgentRuns.WellFormedByPosition` | backend/app/agent/loop.py:209-217 | Spelled out by position: an assistant message at `i` with k calls is followed by exactly its k replies, then by no other tool message |
| `AgentRuns.Ending` | backend/app/agent/loop.py:88-88 | A run that has ended ended in one particular iteration, whose predecessor state was still running |
| `ModelCall.StreamModelResponse` | backend/app/agent/loop.py:271-344 | Streaming or not, the text events and the response are the specified ones, including the exception paths |
| `ModelCall.ResponseIsTheModels` | backend/app/agent/loop.py:271-344 | In the mode configured and available, the response is the model's: a whole answer as it is, a stream as its joined text or its assembled calls, with the last usage and finish reason it gave |
| `ModelCall.ScreenAfterModelCall` | backend/app/agent/loop.py:287-344 | In both modes the text left on a listener's screen is the answer when no tool is called, and empty when one is |
| `ModelCall.ModelCallShows` | backend/app/agent/loop.py:271-344 | In both modes, event by event: each non-empty text piece is shown as it comes, and taken back exactly when tools are asked for after something was shown |
| `ToolCallAssembly.AssembleToolCalls` | backend/app/agent/loop.py:443-464 | Walks the indexes in ascending order; nameless parts vanish, missing ids are made from the index, unreadable arguments fail the whole call list |
| `ToolCallAssembly.Sorted` | backend/app/agent/loop.py:447-447 | Each index once, in ascending order |
| `ToolCallAssembly.AssembledSpellsTheParts` | backend/app/agent/loop.py:443-464 | The call list fails exactly when some part that names a tool has arguments that are no object, an empty text reading as an empty object; else it holds one call per naming part, by rising index, with the part's id or `stream-call-` and the index |
| `ToolCallAssembly.PartsAreMergedPerIndex` | backend/app/agent/loop.py:317-328 | The part of an index depends only on that index's own deltas: last given id and name, all argument fragments joined in order; an index has a part exactly when a delta named it |
| `ToolCallAssembly.AssemblyIgnoresInterleavingAndFragmentation` | backend/app/agent/loop.py:317-334 | Streams that agree index by index on last id, last name and joined argument text assemble to the same list, however interleaved or fragmented |
| `ToolCallAssembly.SplittingADeltaIsInvisible` | backend/app/agent/loop.py:323-328 | Cutting one delta's argument text in two changes nothing |
| `ToolCallAssembly.ParseRawCalls` | backend/app/llm/openai_compat.py:265-282 | The appending loop computes the specified list or error |
| `ToolCallAssembly.StreamingRefinesWholeMessageParse` | backend/app/llm/openai_compat.py:265-282 | For calls with non-empty ids and names, streamed assembly and non-streaming parse give the same calls, or both fail, each with its own error |
| `Compaction.CompactMessages` | backend/app/agent/loop.py:230-269 | The in-place overwriting of list slots produces the specified list |
| `Compaction.SummarizeOldResults` | backend/app/agent/loop.py:235-246 | After the first pass exactly the tool results that have at least `keep` tool results behind them are replaced by their summary |
| `Compaction.CutEverythingElse` | backend/app/agent/loop.py:252-268 | After the second pass every tool result is summarised without rows and every other message is cut unless it is a system message or among the last six |
| `Compaction.CompactionChangesOnlyContents` | backend/app/agent/loop.py:230-269 | Same number of messages, same roles, names and call ids, and system messages untouched, for any summariser |
| `Compaction.CompactionKeepsDialoguePrefixes` | backend/app/agent/loop.py:267-268 | A non-tool message keeps a prefix of its text, and all of it when short or among the last six |
| `Compaction.CompactedByPosition` | backend/app/agent/loop.py:230-269 | By position, without the two passes: when the contents fit the budget once old tool results are summarised with their rows, every other message is exactly what it was; when they do not, every tool result is a summary without rows and each older user or assistant text its first 500 characters |
| `Provider.ChatStream` | backend/app/llm/openai_compat.py:114-147 | Attempts go on exactly while nothing has been read, the cause may pass and attempts remain, at most `maxRetries` + 1; the caller gets the events of the last attempt only, a transport failure if its body broke and an HTTP failure if it had none |
| `Provider.ParsedChunksAreWellTyped` | backend/app/llm/openai_compat.py:285-325 | Usage travels only on usage events |
| `Provider.OnlyTheFirstPieceIsKept` | backend/app/llm/openai_compat.py:285-325 | Of all a chunk carries (usage, text, tool calls, finish) the parser keeps exactly the first piece |
| `Provider.NothingIsLostIffOnePieceEach` | backend/app/llm/openai_compat.py:285-325 | The parsed stream is all that the chunks carry if and only if no chunk carries two pieces |
| `Provider.SecondToolCallIsDropped` | backend/app/llm/openai_compat.py:309-320 | A concrete chunk with two tool calls, of which the second is lost |
| `Provider.StreamSaysWhatTheChunksSay` | backend/app/llm/openai_compat.py:285-325 | If no chunk carries two pieces, the stream says what the chunks say: their texts joined, all call deltas in order, the last usage and the last finish reason |
| `Provider.ChunkedAnswerHasTheCallsOfTheMessage` | backend/app/llm/openai_compat.py:265-325 | From raw chunks: if no chunk carries two pieces and together they spell out a message, the streamed answer has the calls of the non-streaming parse and fails exactly when that does |
| `Usage.TrackChat` | backend/app/llm/cost.py:71-107 | The answer is passed through unchanged and recorded once, as a success with its usage or as a failure with none, at the price of that usage |
| `Usage.TrackChatStream` | backend/app/llm/cost.py:109-145 | Every event is passed through; the one record carries the usage of the last event that has one, and whether the stream ended cleanly |
| `Usage.ResultRecords` | backend/app/llm/cost.py:71-145 | A run that yields a result leaves exactly one successful record per step, in step order |
| `Usage.StepRecordsTotals` | backend/app/llm/cost.py:212-216 | Summed over any step list, record tokens are the steps' usage and record costs the cost of that usage |
| `Usage.CostIsAdditive` | backend/app/llm/cost.py:212-216 | The cost of a sum is the sum of the costs, over exact rationals |
| `Usage.PricesArePerMillion` | backend/app/llm/cost.py:212-216 | A million input tokens cost the input price, a million output tokens the output price, any usage its share of each |
| `Usage.UsageIsConserved` | backend/app/llm/cost.py:183-216 | End to end: as many successful records as steps, their tokens sum to the result's usage and their costs to its cost |
| `Broker.InMemoryEventBroker.Publish` | backend/app/chat/events.py:105-117 | Appends to one stream under the next shared number and returns the id |
| `Broker.InMemoryEventBroker.Read` | backend/app/chat/events.py:119-134 | Gives the first `count` events after the cursor, fails on an unreadable cursor, and changes no stream |
| `Broker.PublishKeepsNumbering` | backend/app/chat/events.py:111-117 | Although the counter is shared, every stream keeps own, strictly rising ids, and a publish touches no other stream |
| `Broker.SequenceOfEventId` | backend/app/chat/events.py:113-130 | The number read back from a printed event id is the number printed |
| `Broker.ReadResumes` | backend/app/chat/events.py:128-134 | Reading from the id of the k-th event gives exactly what follows it, without gap or repeat |
| `Broker.EmptyCursorReadsFromTheStart` | backend/app/chat/events.py:119-134 | An empty cursor and the initial one read the same, from the start |
| `Sse.ConsumeFrames` | frontend/src/api/chat.ts:100-118 | The shrinking-buffer loop delivers exactly the complete frames of its input and keeps exactly the rest |
| `Sse.ParseFrameByLine` | frontend/src/api/chat.ts:120-145 | The line loop computes the specified event, comment or exception |
| `Sse.StreamMessage` | frontend/src/api/chat.ts:86-98 | However the body arrives in pieces, the callback sees what the whole text says |
| `Sse.SeparatorIsStable` | frontend/src/api/chat.ts:106-113 | More input never moves a frame boundary already found |
| `Sse.FramesOfPieces` | frontend/src/api/chat.ts:90-113 | Framing a text in two reads, with the rest of the first put in front of the second, equals framing it at once |
| `Sse.StopsAtThrow` | frontend/src/api/chat.ts:113-116 | Once a frame's payload fails to parse, no further input delivers anything |
| `Sse.CutDeliversPrefix` | frontend/src/api/chat.ts:90-116 | A body cut at any character, also inside a frame, delivers a prefix of what the whole body delivers |
| `Sse.LineAdds` | frontend/src/api/chat.ts:125-133 | What each kind of line adds, also when nothing stands behind its colon; any other line adds nothing |
| `LineEnds.LineEndsMakeNoDifference` | frontend/src/api/chat.ts:106-125 | A body whose line feeds are all rewritten as carriage return and line feed delivers the same events and leaves the same text |
| `LineEnds.SeparatorsAreTwoLineEnds` | frontend/src/api/chat.ts:106-106 | A frame ends at two line ends in a row, each of either kind |
| `SseRoundTrip.ReaderUndoesPrinter` | backend/app/chat/sse.py:12-24 | Any list of events interleaved with heartbeats, once printed, reads back to exactly those events with an empty buffer (sections 9.2.5 and 9.2.6 of the WHATWG HTML Standard) |
| `SseRoundTrip.Receive` | backend/app/api/routes/conversations.py:172-179 | The same under any chunking; a partial body gives a prefix and never an exception |
| `SseRoundTrip.CutNeverThrows` | frontend/src/api/chat.ts:113-116 | If the whole body is read without exception, so is every prefix of it |
| `Worker.RunTask` | backend/app/chat/worker.py:24-166 | The task writes exactly the specified log to its own stream and hands exactly the specified message to the store, for every cancellation point, runtime failure and store failure |
| `Worker.LogShape` | backend/app/chat/worker.py:40-166 | Every log is `start`, then steps, texts and resets, then one terminal event that is last and announces the stored status; the terminal event is missing exactly when a cancel lands during the final persist of a completed run |
| `Worker.DoneOnlyAfterPersist` | backend/app/chat/worker.py:132-166 | `done` is never written before the store was asked, and the fallback error branch is never taken |
| `Worker.DoneTellsWhetherStored` | backend/app/chat/worker.py:132-154 | The flag of the `done` event is whether the store accepted the message |
| `Worker.ErrorTellsTheReason` | backend/app/chat/worker.py:79-131 | Whoever listens is told the reason that is stored, or nothing where the default is stored; no text event is empty |
| `Worker.HowItEnds` | backend/app/chat/worker.py:79-131 | For every life of the task, the stored status: decided by the first error or done event that arrives, with the text explaining it; without one aborted if cancelled, an error if the runtime raised, else completed |
| `Views.LiveViewAgreesWithStore` | frontend/src/stores/chat.ts:172-199 | Folding the client's reducer over the whole log gives the stored steps and, unless the turn failed, the stored text; the status agrees whenever a terminal event was written |
| `Views.LiveTextIsSpoken` | frontend/src/stores/chat.ts:172-199 | For every life of the worker, cancelled, failed or finished, the client ends up with exactly the text the runtime said |
| `Views.TextsAgreeIff` | backend/app/chat/worker.py:58-107 | For every life, live and stored text agree if and only if the turn did not fail or the stored reason repeats what was said |
| `Views.ErrorReplacesOnlyTheStoredText` | backend/app/chat/worker.py:79-88 | They do differ: a concrete run in which the store holds the reason and the client the streamed text |
| `Views.SnapshotOntoDraft` | backend/app/api/routes/conversations.py:281-328 | What a snapshot does to any draft: steps and text are added to what is there, a terminal status replaces the draft's |
| `Views.SnapshotRebuildsIffNothingShown` | backend/app/api/routes/conversations.py:281-328 | For a terminal message, a snapshot rebuilds it on a draft if and only if the draft has shown neither text nor steps |
| `Views.CompletedIffIndexesDiffer` | backend/app/chat/service.py:260-309 | A message is replaced exactly when no two of its steps share an index; it then has the text, the status and just these steps, ordered by index |
| `Views.RisingStepsKeepTheirOrder` | backend/app/db/models.py:210-214 | Rows re-read by step index come back in stream order when the step numbers strictly rise |
| `ChatTurn.RuntimeStream` | backend/app/chat/runtime.py:64-99 | One translated event per agent event, in order |
| `ChatTurn.StoredAnswerIsTheResult` | backend/app/chat/worker.py:51-141 | For every run that yields a result, in all five statuses and both modes: stored text is the result's output, stored status is completed exactly when the result is, stored steps are the streamed steps in order |
| `ChatTurn.LiveTextIsOnScreen` | backend/app/chat/runtime.py:64-99 | In every run, with a result or raising, the live text at the end is the text the agent left on screen |
| `ChatTurn.LiveTextIsStoredIffCompleted` | backend/app/chat/worker.py:79-107 | For every run with a result the live text equals the stored text if and only if the run completed; any other result leaves the screen empty and a non-empty reason stored |
| `ChatTurn.LiveTextAfterRaise` | backend/app/chat/worker.py:119-130 | A run that raises stores the exception; live and stored text agree exactly when the text on screen is that text |
| `ChatTurn.StreamedStepsRise` | backend/app/agent/loop.py:88-217 | In every run, also one that raises, streamed step numbers strictly rise |
| `ChatTurn.StoreKeepsStreamOrder` | backend/app/chat/service.py:284-309 | Whatever becomes of a turn, also when cancelled at any event, its steps can be stored and read back unchanged |
| `Resume.EveryRunKeepsInvariant` | backend/app/api/routes/conversations.py:142-181 | After any interleaving of publishes, connects, server turns, arrivals and cuts: what the client has seen is a prefix of its own log, its last id is that prefix's last id, and server and parser stand where they should |
| `Resume.SnapshotServedIff` | backend/app/api/routes/conversations.py:142-154 | A reconnect gets the snapshot exactly when it has nothing left to read and the task is no longer running |
| `ResumeRuns.SeenOnceInOrder` | frontend/src/stores/chat.ts:160-215 | For every run without a snapshot, the client has seen a prefix of its own stream, each event once and in order, and its draft is the fold of just that |
| `ResumeRuns.NoSnapshotBeforeTerminal` | backend/app/api/routes/conversations.py:142-154 | With a worker that writes one terminal event last, a client still waiting for it is never served a snapshot |
| `ResumeRuns.WholeLogOnceTerminalSeen` | backend/app/api/routes/conversations.py:172-181 | Once the terminal event has arrived, the whole log has been seen |
| `ResumeRuns.DraftAgreesWithStore` | frontend/src/stores/chat.ts:172-199 | Then steps and status on screen are the stored ones, and so is the text unless the turn failed |
| `ResumeRuns.CanAlwaysCatchUp` | backend/app/api/routes/conversations.py:157-181 | From every such state in which the client still waits, one more connection can bring it everything written so far |
| `ResumeRuns.OnlyPingsAtTheEnd` | backend/app/api/routes/conversations.py:159-174 | A connection that has been given the whole of a log without a terminal event stays open and carries only heartbeats |
| `ResumeRuns.EveryConnectionStopsAtTerminal` | backend/app/api/routes/conversations.py:142-181 | In every run, snapshot or not, nothing follows a terminal event on a connection, and the connection is closed with it |
| `ResumeRuns.SnapshotFoldsByName` | frontend/src/stores/chat.ts:172-199 | Although all terminal frames of a snapshot carry the same data, acting on their names gives what the snapshot says |
| `ResumeRuns.SnapshotArrives` | backend/app/api/routes/conversations.py:142-154 | A connection that serves a snapshot carries it and nothing else; once its characters have arrived the client has its events behind those it had and shows its content behind what it showed |
| `ResumeRuns.ReconnectAfterTheEndAdds` | backend/app/api/routes/conversations.py:148-154 | A client that reconnects after having seen everything of an ended task gets the snapshot, and its content is added to the draft |
| `ResumeRuns.ReconnectAfterTheEndDoubles` | backend/app/api/routes/conversations.py:148-154 | With the stored message as snapshot, every step then appears twice, and so does the text unless the turn failed |
| `ResumeRuns.SnapshotCannotBeResumed` | backend/app/api/routes/conversations.py:281-328 | Snapshot ids are no cursors: a request that resumes from one fails in the broker |
| `ResumeObjects.EventStream.Turn` | backend/app/api/routes/conversations.py:157-181 | One turn of the server's loop updates cursor and batch and yields as the state machine's step does |
| `Resume.ReactIsReduce` | frontend/src/stores/chat.ts:172-199 | Acting on an event's name and data object is acting on the log event they were printed from |
| `ResumeObjects.ChatClient.OnEvent` | frontend/src/stores/chat.ts:170-199 | The callback dispatches on the event name and updates the fields as the reducer does; the last id is kept when an event has none |
| `ResumeObjects.ChatClient.OnChunk` | frontend/src/api/chat.ts:90-98 | One read delivers every complete frame in order and keeps the unfinished text |
| `ResumeObjects.ChatClient.Reconnect` | frontend/src/stores/chat.ts:160-170 | A new attempt keeps the draft, parses afresh and asks from the last id seen |
| `ResumeObjects.StoredMessage.CompleteMessage` | backend/app/chat/service.py:260-309 | Text, status and steps are replaced together; two steps with one index leave the message as it was |
| `EndToEnd.DrivenIsDisciplined` | backend/app/chat/worker.py:40-166 | A worker that writes its log front to back, in any schedule, gives the order of events the resume theorems need |
| `EndToEnd.BrowserFollowsWorker` | backend/app/api/routes/conversations.py:140-181 | For every life of the worker and every schedule: until a snapshot is served the screen is the fold of a prefix of the worker's log, and once the end is seen it agrees with the store; a life with a terminal event never leads to a snapshot |
| `EndToEnd.UnfinishedLogEndsInSnapshot` | backend/app/chat/worker.py:132-156 | A cancel during the final persist: the browser never sees the end, its next request gets the snapshot exactly when it has read all there is and the worker is gone, and text and steps then appear twice |
| `EndToEnd.BrowserShowsTheAnswer` | backend/app/chat/runtime.py:64-99 | From the model's words to the screen: for every agent run with a result and every schedule of publishes, connections and cuts, a browser that has seen the end shows the streamed steps in order and the right status; its text is the stored text if and only if the run completed, and is then the result's output, otherwise it is empty |
| `Submission.ConversationStore.AppendMessage` | backend/app/chat/service.py:209-247 | A sequence number is drawn and the row inserted together, or neither happens |
| `Submission.ConversationStore.FindAnswer` | backend/app/chat/service.py:379-398 | Finds the assistant message of a request in a conversation if there is one |
| `Submission.Backend.StreamMessage` | backend/app/api/routes/conversations.py:87-138 | Uninterrupted, the route's writes and task start are exactly the submission's steps and always bring it to an end |
| `Submission.RunKeeps` | backend/app/api/routes/conversations.py:87-138 | Every interleaving of submissions, workers, aborts and new conversations keeps numbering, uniqueness, attribution and start-once |
| `Submission.OneAnswerPerRequest` | backend/app/db/models.py:174-177 | In every reachable state two assistant messages never share a request id, over all conversations |
| `Submission.OneWorkerPerRequest` | backend/app/api/routes/conversations.py:111-127 | In every run each request id starts at most one worker, and only for a stored assistant message |
| `Submission.SequencesHaveNoGaps` | backend/app/chat/service.py:219-240 | In every reachable state a conversation's sequence numbers are 1, 2, ... up to `next_sequence` - 1, in insertion order |
| `Submission.CollidesOnlyOnRequest` | backend/app/db/models.py:174-177 | The numbering constraint never fires: an insert fails exactly when its request id is taken |
| `Submission.LaunchKeeps` | backend/app/chat/tasks.py:12-25 | The message about to get its worker never had one before |
| `Submission.AddsMessagesIffLookupFindsNothing` | backend/app/api/routes/conversations.py:89-115 | Whatever runs beside it, a finished submission has added messages if and only if no answer row for its request was stored when it looked; a resubmission after that row adds none |
| `Submission.EverySubmissionIsTracked` | backend/app/api/routes/conversations.py:87-115 | In every run where a submission stands shows what its lookup found: it has written exactly when it looked while no answer stood in its conversation and then took a further step |
| `Submission.DuplicatedIffTwoLookedInVain` | backend/app/api/routes/conversations.py:89-106 | Over every run, told from its steps alone: a request's question is stored twice if and only if two submissions of it each looked while no answer to it stood in the conversation and each then took a further step |
| `Submission.OverlapDuplicatesTheQuestion` | backend/app/api/routes/conversations.py:89-115 | A concrete overlap of two submissions that stores the question twice before the unique constraint stops the second |
| `Submission.ForeignRequestIsNeverAnswered` | backend/app/chat/service.py:388-394 | A request id already answered in another conversation is never answered in this one, in any continuation |
| `Submission.StandsStill` | backend/app/api/routes/conversations.py:87-138 | Whatever others do, a submission moves only by its own steps |
| `Submission.RepairOverwritesIff` | backend/app/api/routes/conversations.py:128-138 | A resubmission turns a completed answer into a failed one if and only if the answer was streaming at its lookup, no worker was running at its check, and the completed row stood when it wrote; the row was then recorded completed after the lookup |
| `Submission.LateRepairOverwrites` | backend/app/api/routes/conversations.py:128-138 | A concrete schedule in which that happens, from a reachable state |
| `Submission.AnsweredIsReached` | backend/app/api/routes/conversations.py:87-127 | The state that schedule starts from is reached by one submission and the arrival of its resubmission |
| `Submission.AbortOverwritesIff` | backend/app/api/routes/conversations.py:205-217 | An abort turns a completed answer into an aborted one if and only if no worker was running when it asked, the answer was streaming when it read, and a completed status landed before it wrote and stood |
| `Submission.LateAbortOverwrites` | backend/app/api/routes/conversations.py:205-217 | A concrete schedule: the worker is gone and its write still on the way when the row is read |
| `Submission.Backend.AbortMessage` | backend/app/api/routes/conversations.py:198-218 | Uninterrupted, the route leaves a running answer to its task, marks one that only looks running, and says whether it did either |
| `Tasks.ChatTaskManager.StartTask` | backend/app/chat/tasks.py:12-25 | Starts unless a live task is registered for the message |
| `Tasks.ChatTaskManager.AbortTask` | backend/app/chat/tasks.py:27-32 | Cancels the live task registered for the message, if any, and says whether there was one |
| `Tasks.ChatTaskManager.IsRunning` | backend/app/chat/tasks.py:34-36 | Says whether a live task is registered for the message, the question the three results below are about |
| `Tasks.ChatTaskManager.DiscardTask` | backend/app/chat/tasks.py:46-51 | The done-callback forgets the message's entry whichever task it names |
| `Tasks.ExactIffNothingForgotten` | backend/app/chat/tasks.py:12-51 | Throughout a run every live task is registered if and only if no late callback meets a newer live task of its message |
| `Tasks.StartedOnceIsExact` | backend/app/chat/tasks.py:34-36 | When each message is started once, `is_running` is true exactly when a task of the message is live, in every run |
| `Tasks.CancelledIffAbortedWhileLive` | backend/app/chat/tasks.py:27-32 | Over every run that starts no id twice, the tasks told to cancel are exactly those whose id was aborted while they were running |
| `Tasks.AbortCancelsTheLiveTask` | backend/app/chat/tasks.py:27-32 | In any state an abort cancels live tasks of its id only, all of them if every live task is registered, and changes nothing else |
| `Tasks.KeptMeansExact` | backend/app/chat/tasks.py:34-36 | While every live task is registered, `is_running` tells the truth and no message has two live tasks |
| `Tasks.RestartBeforeCallbackIsForgotten` | backend/app/chat/tasks.py:46-47 | A restart before the callback of the ended task: the new live task is reported as not running |
| `Registry.ToolRegistry.Register` | backend/app/tools/registry.py:99-102 | Adds a new name at the end, refuses a taken one without change |
| `Registry.ToolRegistry.CollectIncoming` | backend/app/tools/registry.py:115-128 | Accepts a list exactly when the prefix is not empty, all names carry it and none occurs twice |
| `Registry.ToolRegistry.ReplacePrefix` | backend/app/tools/registry.py:110-154 | Succeeds exactly on acceptable lists, otherwise changes nothing; table and diff are the specified ones |
| `Registry.ReplacedSliceIsIncoming` | backend/app/tools/registry.py:130-147 | Afterwards the prefix holds exactly the incoming tools and every other tool is what it was |
| `Registry.ReplacedKeepsOtherOrder` | backend/app/tools/registry.py:130-147 | The other tools also keep their order |
| `Registry.ReplacedOrder` | backend/app/tools/registry.py:127-143 | The order of definitions after a replacement, exactly: tools that stay keep theirs, tools that come in follow in the order in which they came |
| `Registry.ReplacedValid` | backend/app/tools/registry.py:130-147 | Order and dictionary still name the same tools, each once |
| `Registry.DiffPartitions` | backend/app/tools/registry.py:107-150 | Every name is told apart by what the slice shows before and after: removed or added when in one only; when in both, unchanged if description, schema and parallel flag are the same, else updated |
| `McpClient.MCPClient.SyncRegistry` | backend/app/mcp/client.py:421-432 | The registry slice is replaced or, on a bad list, left alone with the error recorded |
| `McpClient.MCPClient.RegisterTools` | backend/app/mcp/client.py:159-161 | Attaches a registry and synchronises it at once |
| `McpClient.MCPClient.ConnectOnce` | backend/app/mcp/client.py:341-384 | Closes what is open, then either all connection fields are set and the registry synchronised, or none is open |
| `McpClient.MCPClient.ConnectWithRetries` | backend/app/mcp/client.py:322-339 | The attempt loop and its sleeps are the specified ones, at least one attempt whatever the number |
| `McpClient.MCPClient.HandleCall` | backend/app/mcp/client.py:247-282 | The call with its reconnects is the specified transition and answer |
| `McpClient.MCPClient.HandleRefresh` | backend/app/mcp/client.py:284-287 | Connects if needed, then lists and synchronises |
| `McpClient.MCPClient.HandlePing` | backend/app/mcp/client.py:289-300 | A failed ping closes the connection and answers false |
| `McpClient.MCPClient.Maintain` | backend/app/mcp/client.py:302-320 | The idle tick reconnects, pings and refreshes as specified, never raising |
| `McpClient.MCPClient.Serve` | backend/app/mcp/client.py:229-245 | The dispatch performs the transition of the request's kind and gives its reply |
| `McpClient.MCPClient.Start` | backend/app/mcp/client.py:197-205 | A failed first connection is recorded and the loop still starts |
| `McpModel.ImageReplaceableIffDuplicateFree` | backend/app/mcp/client.py:421-432 | The registry accepts a tool list exactly when no two of its tools share a name |
| `McpProofs.BackoffIsMonotoneAndCapped` | backend/app/mcp/client.py:322-339 | Delays slept in one connect never shrink, never exceed the cap and are fewer than the attempts |
| `McpProofs.CallReachesServerBoundedly` | backend/app/mcp/client.py:247-282 | One request reaches the server at most 1 + `call_retry_attempts` times, always as the same call; only calls that brought no usable answer are repeated, a business error is the last word, and the caller gets the last outcome |
| `McpEffects.GivingUpMeansEveryRetryWasUsed` | backend/app/mcp/client.py:247-282 | A request that gives up after a first call has used every retry: calls made and reconnects refused since are together 1 + `call_retry_attempts`, every later call on a connection of its own; a request that could not connect was refused as often as a connect may try and called nothing; giving up leaves no connection open, anything else leaves one |
| `McpEffects.ReachableServerIsCalledEachTime` | backend/app/mcp/client.py:266-282 | With a server that never refuses, giving up means exactly 1 + `call_retry_attempts` calls |
| `McpEffects.ConnectSpends` | backend/app/mcp/client.py:322-339 | A connect that fails was refused exactly max(1, attempts) times; one that succeeds fewer times; every refusal but the last is followed by one pause |
| `McpEffects.DelayDoublesUpToTheCap` | backend/app/mcp/client.py:331-336 | The first pause is the base delay, each later one twice the one before, capped |
| `McpEffects.ConnectOnceRecords` | backend/app/mcp/client.py:341-384 | What one attempt leaves: nothing open when refused; session, server, tools, times, a clean record and the reconnect count when let in |
| `McpEffects.RefreshRecords` | backend/app/mcp/client.py:397-405 | A list that comes replaces the old one, with its time and count, and is shown by the registry if its names are distinct; one that fails to come changes nothing and keeps the connection |
| `McpEffects.PingRecords` | backend/app/mcp/client.py:289-300 | Alive exactly when there is a session and the server answers; then its time is booked, else the connection is closed with an error |
| `McpEffects.CallOnceRecords` | backend/app/mcp/client.py:407-418 | A call is made of the server's tool of that name with those arguments, once, and its outcome is recorded as such |
| `McpEffects.TickOfAConnectedClient` | backend/app/mcp/client.py:302-320 | The idle tick pings, and refreshes exactly when the list is older than the interval; a failed ping or refresh closes the connection |
| `McpEffects.TickOfAnUnconnectedClient` | backend/app/mcp/client.py:302-320 | The idle tick asks the server once, without a pause, and records a refusal |
| `McpEffects.SliceOffersTheServersTools` | backend/app/mcp/client.py:437-448 | While the server's list has no duplicate names, the slice offers exactly its tools: prefixed name, the server's tool as handler, never parallel, with the documented fall-backs for description and schema |
| `McpProofs.ConnectOnceKeeps` | backend/app/mcp/client.py:341-384 | Connecting keeps the actor invariant and reports no error exactly when a session is open |
| `McpProofs.RefreshKeeps` | backend/app/mcp/client.py:397-405 | Refreshing keeps the actor invariant, calls no tool and never sleeps |
| `McpProofs.PingKeeps` | backend/app/mcp/client.py:289-300 | Pinging keeps the actor invariant and answers true exactly when the session stays open |
| `McpProofs.MaintenanceKeeps` | backend/app/mcp/client.py:302-320 | An idle tick keeps the actor invariant and calls no tool |
| `McpProofs.AttachEstablishes` | backend/app/mcp/client.py:159-161 | Attaching a registry establishes the agreement between tool list and registry |
| `McpProofs.CurrentToolsAreRegistered` | backend/app/mcp/client.py:421-432 | While the current list has no duplicate names, the `mcp__` slice is its image and every other tool is as it was when attached |
| `McpActor.NextKeepsFifo` | backend/app/mcp/client.py:176-245 | Every submit, abandonment, turn and close keeps the queue first in, first out, with everything taken answered and nothing else |
| `McpActor.EveryAnswerIsItsOwn` | backend/app/mcp/client.py:207-245 | Over every run, each answered request got the reply of handling that very request, at a turn by which exactly the requests queued before it had been taken |
| `McpActor.SettledOnce` | backend/app/mcp/client.py:225-245 | Over every run, a future once answered or abandoned stays just that, whatever follows |
| `McpActor.AbandonedIsNeverAnswered` | backend/app/mcp/client.py:233-245 | A caller that gives up on a pending request gets no answer, whatever follows |
| `McpActor.IdleTurnMaintains` | backend/app/mcp/client.py:207-217 | A turn that finds no request is the idle tick and touches nothing but the connection |
| `McpActor.ShutdownAfterEverythingAhead` | backend/app/mcp/client.py:145-157 | In every run, when shutdown has completed every request queued ahead of it was answered or abandoned, and none queued behind it is ever answered |
| `McpActor.TurnsDrainTheQueue` | backend/app/mcp/client.py:207-245 | k turns answer the k oldest requests if no shutdown is among them |
| `McpActor.EveryRequestIsQueuedUntilClosed` | backend/app/mcp/client.py:145-195 | In every run all requests are queued in order until the client is closed, which happens exactly when close is called after the task has stopped; from then on none is |
| `McpActor.EveryRunKeepsActorInvariant` | backend/app/mcp/client.py:197-432 | In every state of every run: session and transport are both open or both closed, `reconnect_count` is the number of connects minus one (zero if none), and an attached registry shows under its prefix the latest duplicate-free tool list with all other tools and their order untouched |
| `McpOwner.OwnerTask.Enqueue` | backend/app/mcp/client.py:176-195 | Queues the request with a new pending future, or refuses once closed |
| `McpOwner.OwnerTask.ServeNext` | backend/app/mcp/client.py:207-245 | One turn of the loop on the real client and registry is the state machine's turn |
| `McpOwner.OwnerTask.FinishClose` | backend/app/mcp/client.py:145-157 | Closing completes only after the task has stopped |
| `Csv.ExportReadsBackIffColumns` | frontend/src/utils/export.ts:3-12 | Reading an export by section 2 of RFC 4180 gives the header and every stringified cell, for arbitrary cell text, if and only if there is at least one column |
| `Csv.ExportIsInjective` | frontend/src/utils/export.ts:3-12 | Two tables printed alike have the same header and the same cells |
| `Csv.TolerantReadsBackIff` | frontend/src/utils/export.ts:11-11 | A reader that allows a line break after the last record loses a row exactly when a single-column export ends in an empty cell |
| `Csv.CellReadsBack` | frontend/src/utils/export.ts:106-117 | A printed cell followed by a comma, a line break or nothing reads back as its text, quoted or not |
| `Csv.PrintedBareIff` | frontend/src/utils/export.ts:106-117 | A cell is printed as it is exactly when it holds no quote, comma or line break character |
| `Csv.MissingIsEmpty` | frontend/src/utils/export.ts:106-112 | A missing, null or undefined value is an empty cell, an object its JSON text, anything else its string form |
| `Headers.UniqueHeaders` | backend/app/datasets/processor.py:210-223 | The loop ends on every input, and each header is its base if free, else the base with the least free number from 2 |
| `Headers.FirstFree` | backend/app/datasets/processor.py:215-220 | The suffix search terminates because the candidates are pairwise different even when folded and only finitely many names are used |
| `Headers.HeadersAreDistinct` | backend/app/datasets/processor.py:210-223 | No two headers agree when case is ignored |
| `Headers.HeadersAreNonEmpty` | backend/app/datasets/processor.py:214-215 | No header is empty |
| `Headers.HeadersAreDetermined` | backend/app/datasets/processor.py:210-223 | That description leaves exactly one possible result for every input |
| `Headers.DeduplicationIsIdempotent` | backend/app/datasets/processor.py:210-223 | De-duplicating the result again changes nothing |
| `Headers.BaseIsTheTrimmedText` | backend/app/datasets/processor.py:214-215 | A column is called by its text without the white space around it, or by its number from one when nothing is left |
| `Headers.UnnamedColumnsAreNumbered` | backend/app/datasets/processor.py:210-223 | Columns without a text are named by their place |
| `Headers.RepeatedNameIsNumbered` | backend/app/datasets/processor.py:216-223 | Of columns that all want one name the first gets it and the others get it with the numbers from two, in order |
| `Headers.NumberedFoldsApart` | backend/app/datasets/processor.py:218-220 | Different numbers on one base give different folded names |
| `RateLimit.CheckLimit` | backend/app/auth/rate_limit.py:31-50 | The three store calls of an uninterrupted check are the state machine's steps; from every reachable state the answer is: allowed exactly when the counter has been used at most `limit` times since it last started over, this use included, with what that leaves as the remainder |
| `RateLimit.EveryAnswerIsDue` | backend/app/auth/rate_limit.py:31-50 | The same of every answer in every run, however checks interleave: each answered check made exactly one increment of the counter of its identity and bucket, and what it is told is what is due to that increment |
| `RateLimit.AllowedIffWithinLimitSinceRestart` | backend/app/auth/rate_limit.py:38-46 | In every run, without condition, a check is allowed if and only if its counter has been used at most `limit` times since it last started over |
| `RateLimit.CountIsPlaceIffNoRestart` | backend/app/auth/rate_limit.py:40-42 | A check's count is its place among all checks of its identity and bucket if and only if their counter has not started over up to it |
| `RateLimit.ExactIffNothingStartsOver` | backend/app/auth/rate_limit.py:40-42 | Over a whole run, every check is counted in its place if and only if no increment meets an expired counter |
| `RateLimit.OnTimeHasItsPlace` | backend/app/auth/rate_limit.py:38-42 | An increment that reaches the store within its bucket never starts a counter over and always has its place |
| `RateLimit.AllowedIffAmongTheFirst` | backend/app/auth/rate_limit.py:38-46 | In every run, as long as its counter has not started over, a check is allowed if and only if fewer than `limit` checks of the same identity and bucket came before it |
| `RateLimit.AtMostTwiceTheLimit` | backend/app/auth/rate_limit.py:38-46 | Counting every admitted check of every run, any half-open interval of one window length admits per identity at most twice the limit, plus once the limit for each time one of its two counters started over |
| `RateLimit.NoExpiryInsideBucket` | backend/app/auth/rate_limit.py:41-42 | In every run a counter is alive as long as its bucket lasts |
| `RateLimit.RedisKeyInjective` | backend/app/auth/rate_limit.py:39-39 | No two identities or buckets share a counter, also when identities contain colons |
| `RateLimit.LateIncrementStartsOver` | backend/app/auth/rate_limit.py:38-42 | Starting over does happen: an increment delayed past its bucket meets an expired counter and both checks of a limit of one pass |
| `RateLimit.LateIncrementCanBeInPlace` | backend/app/auth/rate_limit.py:38-42 | Being late is not enough: an increment after its bucket but before the expiry still gets its place |
| `RateLimit.WaitIsWithinWindow` | backend/app/auth/rate_limit.py:43-44 | The advertised wait is at least one second and never longer than the window |
| `RateLimit.WaitIsTheTimeToLive` | backend/app/auth/rate_limit.py:43-44 | The advertised wait is the time until the counter expires, to the nearest second, or the window if it has no expiry, is gone or has less than half a second left |
| `RateLimit.OnlyTheFirstCountSetsTheExpiry` | backend/app/auth/rate_limit.py:40-42 | A counter gets its expiry from the check that counted one, a window after that moment, and from no other step |
| `History.GetHistory` | backend/app/chat/service.py:311-338 | Nothing without a conversation; otherwise, by position in the conversation: the newest eligible messages of the window of the last `limit`, none left out between the first chosen and the end, each whole but that the first may be cut, within the budget, and all of the window when the budget is not used up |
| `History.SelectsTheNewest` | backend/app/chat/service.py:321-337 | The same for every limit, positive, zero or negative |
| `History.WhatIsToldOfAMessage` | backend/app/chat/service.py:455-463 | A message counts if its role is the user's or the assistant's and it has words or executed steps; told are the first 6000 characters of its words, of its steps under their heading, or of both with an empty line between |
| `History.SelectionIsTight` | backend/app/chat/service.py:321-337 | For a non-negative budget the selection is, in order, the newest eligible messages, whole except that the oldest may be cut to a prefix, and either all are whole or the total is the budget exactly |
| `History.TightSuffixIsUnique` | backend/app/chat/service.py:321-337 | No other selection has that property |
| `History.WithinBudgetIff` | backend/app/chat/service.py:326-335 | The total stays within the budget if and only if the budget is not negative |
| `History.AtMostLimit` | backend/app/chat/service.py:322-322 | A positive limit bounds the number of messages, a limit of zero bounds nothing |

## Left out

Stated more narrowly than one might expect:

- AtMostTwiceTheLimit: the limits of the checks may differ, `limit` bounds them all.
- BackoffIsMonotoneAndCapped: asks for a non-negative base delay, which the settings enforce (backend/app/core/config.py:66).
- EveryRunKeepsActorInvariant: `register_tools` happens between turns of the owner, not during an await inside one; the registry is changed by nobody else while it is attached.
- OnEvent: the draft's own id, taken over from the first `start` and used to abort, is not modelled.
- RepairOverwritesIff: rows carry a status and no text; the repair also writes back the text it read at its lookup.
- ChunkedAnswerHasTheCallsOfTheMessage: a malformed field inside a chunk, at which the parser would raise, is not modelled.
- UsageIsConserved: speaks of streams made by the provider's chunk parser, and of the records handed to the recorder; a recorder that fails only logs.
- ModelInputsWellFormed: the history handed in must itself leave no call open, as a history of plain user and assistant messages does.
- NoSnapshotBeforeTerminal: asks that the task ends only after its terminal event. `LogShape` says exactly when it does not, and `UnfinishedLogEndsInSnapshot` what a waiting client then gets.
- BrowserShowsTheAnswer: speaks of turns that are not cancelled while the agent runs; `BrowserFollowsWorker` covers those too.
- ReaderUndoesPrinter: the payload codec is any printer that writes one line not starting with white space and a parser that undoes it, as JSON text is (section 7 of RFC 8259).
- UniqueHeaders: of Unicode only this is assumed: digits and the underscore fold to themselves and, like the letters of "column", are not white space.
- SnapshotServedIff: the broker read and the test for a running task are one step. That is exact for the in-memory broker, whose `read` never suspends (backend/app/chat/events.py:119-134); with another broker the worker could end in between.
- WaitIsWithinWindow: the store's time to live is taken to the nearest second.

Not part of this model:

- Redis streams: approximate trimming to a maximal length, the 24-hour expiry and blocking reads; `watch`, which the route does not use.
- A cancel before the worker's body has run, which leaves no log at all; task shutdown at application exit.
- The client's limit of three attempts and its waits between them; any number of reconnects is allowed instead. A clean end of the body without a terminal event.
- Bytes: text is a sequence of characters, UTF-8 decoding across reads is not modelled.
- Cursor spellings that Python's `int` accepts besides plain digits (signs, underscores, surrounding spaces).
- SQL parsing in call signatures, and the JSON content of tool results: normalisation, serialisation and summarising are arbitrary functions.
- The wording of termination reasons, connection errors and prompts, beyond being non-empty; Python's quoting of a tool name that itself contains a quote.
- Wall-clock timing, latency fields and request timeouts; floating-point rounding of costs and delays (exact rationals instead).
- Embeddings, non-streaming HTTP retries, authentication, the rate-limit middleware's headers and exempt paths.
- Conversation titles, archiving, deletion and pagination; workspaces are one fixed workspace.
- Cancellation of the MCP owner task itself, transport set-up, and parsing of tool results.
- Inherited property names of row objects in the CSV export; the Markdown export and file downloads.
- Reading dataset files and normalising cells; only header names are modelled.
