/** The bounded tool-calling loop (`Agent.stream` in backend/app/agent/loop.py): one model call
    per iteration, then one of four early exits, a re-plan, or the execution of a batch of tools. */
module AgentLoop {
  import opened Text
  import opened AgentModels
  import opened Compaction
  import opened ModelCall

  datatype AgentState = AgentState(
    messages: seq<ChatMessage>,
    usage: TokenUsage,
    steps: seq<AgentStep>,
    executedSignatures: set<(string, string)>,
    toolBudgetRetries: nat)

  function SystemMessage(content: string): ChatMessage {
    ChatMessage(System, Some(content), None, None, [])
  }

  function UserMessage(content: string): ChatMessage {
    ChatMessage(User, Some(content), None, None, [])
  }

  function AssistantMessage(r: LLMResponse): ChatMessage {
    ChatMessage(Assistant, r.content, None, None, r.toolCalls)
  }

  function InitialState(userInput: string, systemPrompt: Option<string>, history: seq<ChatMessage>): AgentState {
    AgentState(
      (if Truthy(systemPrompt) then [SystemMessage(systemPrompt.value)] else [])
      + history + [UserMessage(userInput)],
      NO_USAGE, [], {}, 0)
  }

  // Reasons shown to the user; the wording is a stand-in, the numbers are the ones given.

  function TokenBudgetReason(used: nat, budget: nat): string {
    "Token budget reached: used " + Decimal(used) + " of " + Decimal(budget)
  }

  function ReplanRequest(calls: nat, limit: nat): string {
    "Too many tool calls: " + Decimal(calls) + " over " + Decimal(limit) + ", plan again"
  }

  function ToolBudgetReason(calls: nat, limit: nat): string {
    "Too many tool calls: " + Decimal(calls) + " over " + Decimal(limit)
  }

  const LOOP_REASON := "Repeated SQL or tool call"

  function MaxStepsReason(maxSteps: nat): string {
    "Reached the maximum of steps: " + Decimal(maxSteps)
  }

  // Tools

  function ExecuteOne(env: Environment, step: nat, position: nat, call: ToolCall): ToolExecution {
    ToolExecution(
      call.id, call.name, call.arguments,
      if env.parallelSafe(call.name).None? then Err("KeyError: 'Unknown tool: " + call.name + "'")
      else env.invoke(step, position, call))
  }

  function Executions(env: Environment, step: nat, calls: seq<ToolCall>): seq<ToolExecution> {
    seq(|calls|, i requires 0 <= i < |calls| => ExecuteOne(env, step, i, calls[i]))
  }

  predicate CanRunInParallel(cfg: AgentConfig, env: Environment, calls: seq<ToolCall>) {
    && cfg.parallelToolCalls
    && |calls| <= cfg.maxParallelTools
    && forall i :: 0 <= i < |calls| ==> env.parallelSafe(calls[i].name) == Some(true)
  }

  /** Gathering keeps call order however the tools finish; otherwise they run one by one.  `atOnce` is how
      many run at a time: more than one only where the settings and every tool allow it. */
  method ExecuteToolCalls(cfg: AgentConfig, env: Environment, step: nat, calls: seq<ToolCall>)
    returns (executions: seq<ToolExecution>, atOnce: nat)
    ensures executions == Executions(env, step, calls)
    ensures atOnce == 1 || atOnce == |calls|
    ensures |calls| > 1 ==>
              (atOnce > 1 <==>
                 && cfg.parallelToolCalls && |calls| <= cfg.maxParallelTools
                 && forall call :: call in calls ==> env.parallelSafe(call.name) == Some(true))
  {
    if CanRunInParallel(cfg, env, calls) {
      return seq(|calls|, i requires 0 <= i < |calls| => ExecuteOne(env, step, i, calls[i])), |calls|;
    }
    executions, atOnce := [], 1;
    for i := 0 to |calls|
      invariant executions == Executions(env, step, calls)[..i]
    {
      executions := executions + [ExecuteOne(env, step, i, calls[i])];
    }
  }

  const PLOT_TOOL := "plot_chart"

  function SerializeToolExecution(cfg: AgentConfig, env: Environment, e: ToolExecution): string {
    if e.outcome.Ok? && e.toolName == PLOT_TOOL then env.serialize(e)
    else Take(env.serialize(e), cfg.maxToolResultChars)
  }

  function ToolMessage(cfg: AgentConfig, env: Environment, e: ToolExecution): ChatMessage {
    ChatMessage(Tool, Some(SerializeToolExecution(cfg, env, e)), Some(e.toolName), Some(e.toolCallId), [])
  }

  function ToolMessages(cfg: AgentConfig, env: Environment, executions: seq<ToolExecution>): seq<ChatMessage> {
    seq(|executions|, i requires 0 <= i < |executions| => ToolMessage(cfg, env, executions[i]))
  }

  function CallSignatures(env: Environment, calls: seq<ToolCall>): seq<(string, string)> {
    seq(|calls|, i requires 0 <= i < |calls| => (calls[i].name, env.normalize(calls[i].name, calls[i].arguments)))
  }

  function Elements<T>(s: seq<T>): set<T> {
    set x | x in s
  }

  // One iteration

  datatype Iteration =
    | Continue(state: AgentState, events: seq<AgentEvent>)
    | Finish(result: AgentRunResult, events: seq<AgentEvent>)
    | Raise(error: string, events: seq<AgentEvent>)

  function Stop(status: Status, reason: string, messages: seq<ChatMessage>, steps: seq<AgentStep>, usage: TokenUsage)
    : AgentRunResult
  {
    AgentRunResult(status, Some(reason), Some(reason), messages, steps, usage)
  }

  function FinishWith(result: AgentRunResult, shown: seq<AgentEvent>, step: AgentStep): Iteration {
    Finish(result, shown + [Step(step), Finished(result)])
  }

  function AfterResponse(
      cfg: AgentConfig, env: Environment, n: nat, st: AgentState, shown: seq<AgentEvent>, response: LLMResponse)
    : Iteration
  {
    var usage := st.usage.Add(response.usage);
    var messages := st.messages + [AssistantMessage(response)];
    var step := AgentStep(n, response.content, response.toolCalls, [], response.usage);
    var steps := st.steps + [step];
    var calls := response.toolCalls;
    var signatures := CallSignatures(env, calls);
    if calls == [] then
      FinishWith(AgentRunResult(Completed, response.content, None, messages, steps, usage), shown, step)
    else if usage.Total() > cfg.maxTotalTokens then
      FinishWith(Stop(TokenBudgetExceeded, TokenBudgetReason(usage.Total(), cfg.maxTotalTokens),
                      messages, steps, usage), shown, step)
    else if |calls| > cfg.maxToolCallsPerStep then
      if st.toolBudgetRetries < cfg.maxToolBudgetRetries then
        Continue(
          AgentState(st.messages + [UserMessage(ReplanRequest(|calls|, cfg.maxToolCallsPerStep))],
                     usage, steps, st.executedSignatures, st.toolBudgetRetries + 1),
          shown)
      else
        FinishWith(Stop(ToolBudgetExceeded, ToolBudgetReason(|calls|, cfg.maxToolCallsPerStep),
                        messages, steps, usage), shown, step)
    else if st.executedSignatures * Elements(signatures) != {} || |Elements(signatures)| != |signatures| then
      FinishWith(Stop(LoopDetected, LOOP_REASON, messages, steps, usage), shown, step)
    else
      var executions := Executions(env, n, calls);
      var executed := step.(toolExecutions := executions);
      Continue(
        AgentState(messages + ToolMessages(cfg, env, executions), usage, st.steps + [executed],
                   st.executedSignatures + Elements(signatures), st.toolBudgetRetries),
        shown + [Step(executed)])
  }

  /** What the model is sent in the iteration that starts from `st`. */
  function ModelInput(cfg: AgentConfig, env: Environment, st: AgentState): seq<ChatMessage> {
    Compacted(cfg, env.compact, st.messages)
  }

  ghost function Iterate(cfg: AgentConfig, env: Environment, n: nat, st: AgentState): Iteration {
    var call := Outcome(cfg, env, n, ModelInput(cfg, env, st));
    if call.response.Err? then Raise(call.response.error, call.events)
    else AfterResponse(cfg, env, n, st, call.events, call.response.value)
  }

  // Whole runs

  datatype Progress =
    | Running(state: AgentState, events: seq<AgentEvent>)
    | Done(result: AgentRunResult, events: seq<AgentEvent>)
    | Raised(error: string, events: seq<AgentEvent>)

  function Advance(before: seq<AgentEvent>, it: Iteration): Progress {
    match it
    case Continue(st, e) => Running(st, before + e)
    case Finish(r, e) => Done(r, before + e)
    case Raise(m, e) => Raised(m, before + e)
  }

  /** The run after `n` iterations. */
  ghost function RunTo(cfg: AgentConfig, env: Environment, initial: AgentState, n: nat): Progress {
    if n == 0 then Running(initial, [])
    else
      match RunTo(cfg, env, initial, n - 1)
      case Running(st, events) => Advance(events, Iterate(cfg, env, n, st))
      case other => other
  }

  function OutOfSteps(cfg: AgentConfig, st: AgentState): AgentRunResult {
    Stop(MaxSteps, MaxStepsReason(cfg.maxSteps), st.messages, st.steps, st.usage)
  }

  ghost function Run(cfg: AgentConfig, env: Environment, initial: AgentState): Progress {
    match RunTo(cfg, env, initial, cfg.maxSteps)
    case Running(st, events) => Done(OutOfSteps(cfg, st), events + [Finished(OutOfSteps(cfg, st))])
    case other => other
  }

  lemma {:induction false} EndedStaysEnded(cfg: AgentConfig, env: Environment, initial: AgentState, n: nat, m: nat)
    requires n <= m && !RunTo(cfg, env, initial, n).Running?
    ensures RunTo(cfg, env, initial, m) == RunTo(cfg, env, initial, n)
    decreases m
  {
    hide Iterate, Advance;
    if n < m {
      EndedStaysEnded(cfg, env, initial, n, m - 1);
    }
  }

  // The transcript

  /** The text of a tool's reply: cut to the limit, except for a chart that was drawn. */
  function ReplyText(cfg: AgentConfig, env: Environment, e: ToolExecution): string {
    var text := env.serialize(e);
    if (e.outcome.Ok? && e.toolName == "plot_chart") || |text| <= cfg.maxToolResultChars then text
    else text[..cfg.maxToolResultChars]
  }

  function Replies(cfg: AgentConfig, env: Environment, executions: seq<ToolExecution>): seq<ChatMessage> {
    if executions == [] then []
    else
      var e := executions[|executions| - 1];
      Replies(cfg, env, executions[..|executions| - 1])
      + [ChatMessage(Tool, Some(ReplyText(cfg, env, e)), Some(e.toolName), Some(e.toolCallId), [])]
  }

  /** What a recorded step adds: its calls and their replies, or a request to plan again. */
  function StepMessages(cfg: AgentConfig, env: Environment, step: AgentStep): seq<ChatMessage> {
    if |step.toolCalls| > cfg.maxToolCallsPerStep
    then [ChatMessage(User, Some(ReplanRequest(|step.toolCalls|, cfg.maxToolCallsPerStep)), None, None, [])]
    else
      [ChatMessage(Assistant, step.assistantContent, None, None, step.toolCalls)]
      + Replies(cfg, env, step.toolExecutions)
  }

  function StepsMessages(cfg: AgentConfig, env: Environment, steps: seq<AgentStep>): seq<ChatMessage> {
    if steps == [] then []
    else
      StepsMessages(cfg, env, steps[..|steps| - 1]) + StepMessages(cfg, env, steps[|steps| - 1])
  }

  /** The system prompt if there is one, the history, the user's question, then a block per step. */
  predicate IsTranscript(
      cfg: AgentConfig, env: Environment,
      userInput: string, systemPrompt: Option<string>, history: seq<ChatMessage>,
      steps: seq<AgentStep>, messages: seq<ChatMessage>)
  {
    messages ==
    (if systemPrompt.Some? && systemPrompt.value != ""
     then [ChatMessage(System, systemPrompt, None, None, [])] else [])
    + history
    + [ChatMessage(User, Some(userInput), None, None, [])]
    + StepsMessages(cfg, env, steps)
  }

  /** The transcript of a result: all its steps when it ran out of them, else all but the last, and then
      the last answer of the model. */
  predicate IsResultTranscript(
      cfg: AgentConfig, env: Environment,
      userInput: string, systemPrompt: Option<string>, history: seq<ChatMessage>, r: AgentRunResult)
  {
    && r.steps != []
    && if r.status == MaxSteps then IsTranscript(cfg, env, userInput, systemPrompt, history, r.steps, r.messages)
       else
         var last := r.steps[|r.steps| - 1];
         && r.messages != []
         && r.messages[|r.messages| - 1] == ChatMessage(Assistant, last.assistantContent, None, None, last.toolCalls)
         && IsTranscript(cfg, env, userInput, systemPrompt, history,
                         r.steps[..|r.steps| - 1], r.messages[..|r.messages| - 1])
  }

  lemma {:induction false} RepliesAreToolMessages(cfg: AgentConfig, env: Environment, executions: seq<ToolExecution>)
    ensures ToolMessages(cfg, env, executions) == Replies(cfg, env, executions)
  {
    if executions != [] {
      var n := |executions| - 1;
      RepliesAreToolMessages(cfg, env, executions[..n]);
      assert ToolMessages(cfg, env, executions)[..n] == ToolMessages(cfg, env, executions[..n]);
    }
  }

  /** An iteration that goes on adds one step and its messages. */
  lemma ContinuedTranscript(cfg: AgentConfig, env: Environment, n: nat, st: AgentState)
    requires Iterate(cfg, env, n, st).Continue?
    ensures var next := Iterate(cfg, env, n, st).state;
            && |next.steps| == |st.steps| + 1 && next.steps[..|st.steps|] == st.steps
            && next.messages == st.messages + StepMessages(cfg, env, next.steps[|st.steps|])
  {
    hide Outcome, CallSignatures, Executions;
    var next := Iterate(cfg, env, n, st).state;
    RepliesAreToolMessages(cfg, env, next.steps[|st.steps|].toolExecutions);
  }

  /** An iteration that ends the run adds one step and the model's last answer. */
  lemma FinishedTranscript(cfg: AgentConfig, env: Environment, n: nat, st: AgentState)
    requires Iterate(cfg, env, n, st).Finish?
    ensures var r := Iterate(cfg, env, n, st).result;
            && r.status != MaxSteps
            && |r.steps| == |st.steps| + 1 && r.steps[..|st.steps|] == st.steps
            && var last := r.steps[|st.steps|];
               r.messages == st.messages + [ChatMessage(Assistant, last.assistantContent, None, None, last.toolCalls)]
  {
    hide Outcome, CallSignatures, Executions;
  }

  /** In every running state the transcript is just that. */
  lemma {:induction false} RunningTranscript(
      cfg: AgentConfig, env: Environment,
      userInput: string, systemPrompt: Option<string>, history: seq<ChatMessage>, n: nat)
    ensures var p := RunTo(cfg, env, InitialState(userInput, systemPrompt, history), n);
            p.Running? ==> IsTranscript(cfg, env, userInput, systemPrompt, history, p.state.steps, p.state.messages)
  {
    hide Iterate, StepMessages;
    var initial := InitialState(userInput, systemPrompt, history);
    if n > 0 && RunTo(cfg, env, initial, n).Running? {
      RunningTranscript(cfg, env, userInput, systemPrompt, history, n - 1);
      var st := RunTo(cfg, env, initial, n - 1).state;
      ContinuedTranscript(cfg, env, n, st);
      var steps := Iterate(cfg, env, n, st).state.steps;
      assert StepsMessages(cfg, env, steps)
          == StepsMessages(cfg, env, st.steps) + StepMessages(cfg, env, steps[|st.steps|]);
    }
  }

  /** And of every result. */
  lemma ResultTranscript(
      cfg: AgentConfig, env: Environment,
      userInput: string, systemPrompt: Option<string>, history: seq<ChatMessage>)
    requires cfg.maxSteps > 0
    ensures var run := Run(cfg, env, InitialState(userInput, systemPrompt, history));
            run.Done? ==> IsResultTranscript(cfg, env, userInput, systemPrompt, history, run.result)
  {
    hide Iterate, IsTranscript;
    var initial := InitialState(userInput, systemPrompt, history);
    if RunTo(cfg, env, initial, cfg.maxSteps).Running? {
      RunningTranscript(cfg, env, userInput, systemPrompt, history, cfg.maxSteps);
      StepsSoFar(cfg, env, initial, cfg.maxSteps);
    } else {
      DoneTranscript(cfg, env, userInput, systemPrompt, history, cfg.maxSteps);
    }
  }

  lemma {:induction false} StepsSoFar(cfg: AgentConfig, env: Environment, initial: AgentState, n: nat)
    ensures var p := RunTo(cfg, env, initial, n); p.Running? ==> |p.state.steps| == |initial.steps| + n
  {
    hide Iterate;
    if n > 0 && RunTo(cfg, env, initial, n).Running? {
      StepsSoFar(cfg, env, initial, n - 1);
      ContinuedTranscript(cfg, env, n, RunTo(cfg, env, initial, n - 1).state);
    }
  }

  lemma {:induction false} DoneTranscript(
      cfg: AgentConfig, env: Environment,
      userInput: string, systemPrompt: Option<string>, history: seq<ChatMessage>, n: nat)
    ensures var p := RunTo(cfg, env, InitialState(userInput, systemPrompt, history), n);
            p.Done? ==> IsResultTranscript(cfg, env, userInput, systemPrompt, history, p.result)
  {
    hide Iterate, IsTranscript;
    var initial := InitialState(userInput, systemPrompt, history);
    if n > 0 && RunTo(cfg, env, initial, n).Done? {
      match RunTo(cfg, env, initial, n - 1) {
        case Running(st, events) =>
          RunningTranscript(cfg, env, userInput, systemPrompt, history, n - 1);
          FinishedTranscript(cfg, env, n, st);
          var r := Iterate(cfg, env, n, st).result;
          assert r.messages[..|r.messages| - 1] == st.messages;
        case Done(_, _) => DoneTranscript(cfg, env, userInput, systemPrompt, history, n - 1);
        case Raised(_, _) =>
      }
    }
  }

  /** The body of the loop in `Agent.stream`, from the model call on. */
  method RunIteration(cfg: AgentConfig, env: Environment, stepNumber: nat, st: AgentState) returns (it: Iteration)
    requires cfg.Valid()
    ensures it == Iterate(cfg, env, stepNumber, st)
  {
    var messages, usage, steps := st.messages, st.usage, st.steps;
    var modelMessages := CompactMessages(cfg, env.compact, messages);
    var call := StreamModelResponse(cfg, env, stepNumber, modelMessages);
    if call.response.Err? {
      return Raise(call.response.error, call.events);
    }
    var response := call.response.value;
    usage := usage.Add(response.usage);
    messages := messages + [AssistantMessage(response)];
    var step := AgentStep(stepNumber, response.content, response.toolCalls, [], response.usage);

    if response.toolCalls == [] {
      steps := steps + [step];
      var result := AgentRunResult(Completed, response.content, None, messages, steps, usage);
      return FinishWith(result, call.events, step);
    }
    if usage.Total() > cfg.maxTotalTokens {
      steps := steps + [step];
      var reason := TokenBudgetReason(usage.Total(), cfg.maxTotalTokens);
      return FinishWith(Stop(TokenBudgetExceeded, reason, messages, steps, usage), call.events, step);
    }
    if |response.toolCalls| > cfg.maxToolCallsPerStep {
      steps := steps + [step];
      if st.toolBudgetRetries < cfg.maxToolBudgetRetries {
        messages := messages[..|messages| - 1];
        assert messages == st.messages;
        messages := messages + [UserMessage(ReplanRequest(|response.toolCalls|, cfg.maxToolCallsPerStep))];
        return Continue(
          AgentState(messages, usage, steps, st.executedSignatures, st.toolBudgetRetries + 1),
          call.events);
      }
      var reason := ToolBudgetReason(|response.toolCalls|, cfg.maxToolCallsPerStep);
      return FinishWith(Stop(ToolBudgetExceeded, reason, messages, steps, usage), call.events, step);
    }
    var signatures := CallSignatures(env, response.toolCalls);
    if st.executedSignatures * Elements(signatures) != {} || |Elements(signatures)| != |signatures| {
      steps := steps + [step];
      return FinishWith(Stop(LoopDetected, LOOP_REASON, messages, steps, usage), call.events, step);
    }
    var executedSignatures := st.executedSignatures + Elements(signatures);
    var executions, _ := ExecuteToolCalls(cfg, env, stepNumber, response.toolCalls);
    step := step.(toolExecutions := executions);
    steps := steps + [step];
    messages := messages + ToolMessages(cfg, env, executions);
    return Continue(
      AgentState(messages, usage, steps, executedSignatures, st.toolBudgetRetries),
      call.events + [Step(step)]);
  }

  /** `Agent.stream`: the list of events is what the generator yields, in order. */
  method Stream(
      cfg: AgentConfig, env: Environment,
      userInput: string, systemPrompt: Option<string>, history: seq<ChatMessage>)
    returns (events: seq<AgentEvent>, result: Result<AgentRunResult, string>)
    requires cfg.Valid()
    ensures var run := Run(cfg, env, InitialState(userInput, systemPrompt, history));
            && !run.Running?
            && events == run.events
            && result == if run.Done? then Ok(run.result) else Err(run.error)
    ensures result.Ok? ==> IsResultTranscript(cfg, env, userInput, systemPrompt, history, result.value)
  {
    ResultTranscript(cfg, env, userInput, systemPrompt, history);
    hide IsResultTranscript;
    events := [];
    var messages := history;
    if Truthy(systemPrompt) {
      messages := [SystemMessage(systemPrompt.value)] + messages;
    }
    messages := messages + [UserMessage(userInput)];
    ghost var initial := InitialState(userInput, systemPrompt, history);
    var st := AgentState(messages, NO_USAGE, [], {}, 0);
    assert initial.messages == messages;
    for stepNumber := 1 to cfg.maxSteps + 1
      invariant RunTo(cfg, env, initial, stepNumber - 1) == Running(st, events)
    {
      ghost var progress := RunTo(cfg, env, initial, stepNumber);
      var it := RunIteration(cfg, env, stepNumber, st);
      events := events + it.events;
      if !progress.Running? {
        EndedStaysEnded(cfg, env, initial, stepNumber, cfg.maxSteps);
      }
      match it {
        case Continue(next, _) => st := next;
        case Finish(r, _) => return events, Ok(r);
        case Raise(m, _) => return events, Err(m);
      }
    }
    var last := OutOfSteps(cfg, st);
    return events + [Finished(last)], Ok(last);
  }
}
