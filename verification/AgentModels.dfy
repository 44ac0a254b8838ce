/** The values the agent loop works on (backend/app/agent/models.py, backend/app/llm/base.py)
    and the outside world it talks to. */
module AgentModels {
  import opened Text

  datatype Role = System | User | Assistant | Tool

  datatype Status = Completed | MaxSteps | ToolBudgetExceeded | TokenBudgetExceeded | LoopDetected

  /** A decoded JSON object, known by its canonical text. */
  datatype JsonObject = JsonObject(text: string)

  datatype ToolCall = ToolCall(id: string, name: string, arguments: JsonObject)

  datatype ChatMessage = ChatMessage(
    role: Role,
    content: Option<string>,
    name: Option<string>,
    toolCallId: Option<string>,
    toolCalls: seq<ToolCall>)

  datatype TokenUsage = TokenUsage(inputTokens: nat, outputTokens: nat) {
    function Total(): nat {
      inputTokens + outputTokens
    }

    function Add(other: TokenUsage): TokenUsage {
      TokenUsage(inputTokens + other.inputTokens, outputTokens + other.outputTokens)
    }
  }

  const NO_USAGE := TokenUsage(0, 0)

  datatype LLMResponse = LLMResponse(
    content: Option<string>,
    toolCalls: seq<ToolCall>,
    usage: TokenUsage,
    finishReason: Option<string>)

  datatype ToolExecution = ToolExecution(
    toolCallId: string,
    toolName: string,
    arguments: JsonObject,
    outcome: Result<string, string>)

  datatype AgentStep = AgentStep(
    step: nat,
    assistantContent: Option<string>,
    toolCalls: seq<ToolCall>,
    toolExecutions: seq<ToolExecution>,
    usage: TokenUsage)

  datatype AgentConfig = AgentConfig(
    maxSteps: nat,
    maxTotalTokens: nat,
    maxToolCallsPerStep: nat,
    maxToolBudgetRetries: nat,
    maxParallelTools: nat,
    contextCharBudget: nat,
    keepRecentToolResults: nat,
    parallelToolCalls: bool,
    streamModel: bool,
    maxToolResultChars: nat)
  {
    /** The bounds the configuration class enforces when it is built. */
    predicate Valid() {
      && 1 <= maxSteps
      && 1 <= maxTotalTokens
      && 1 <= maxToolCallsPerStep
      && maxToolBudgetRetries <= 2
      && 1 <= maxParallelTools
      && 4000 <= contextCharBudget
      && 1 <= keepRecentToolResults <= 20
      && 256 <= maxToolResultChars
    }
  }

  datatype AgentRunResult = AgentRunResult(
    status: Status,
    output: Option<string>,
    terminationReason: Option<string>,
    messages: seq<ChatMessage>,
    steps: seq<AgentStep>,
    usage: TokenUsage)

  datatype AgentEvent =
    | TextDelta(text: string)
    | TextReset
    | Step(step: AgentStep)
    | Finished(result: AgentRunResult)

  // Provider stream events

  datatype StreamKind = TextKind | ToolCallKind | UsageKind | FinishKind

  datatype ToolCallDelta = ToolCallDelta(
    index: nat,
    id: Option<string>,
    name: Option<string>,
    argumentsDelta: Option<string>)

  datatype StreamEvent = StreamEvent(
    kind: StreamKind,
    contentDelta: Option<string>,
    toolCallDelta: Option<ToolCallDelta>,
    usage: Option<TokenUsage>,
    finishReason: Option<string>)

  /** What one streamed model call delivers: events, then a clean end or an exception. */
  datatype StreamReply = StreamReply(events: seq<StreamEvent>, failure: Option<string>)

  /** Everything outside the loop.  Model and tool outcomes may depend on the step (and the
      position in the batch) at which they are asked for and on what they are sent, so
      quantifying over environments quantifies over every conversation the loop can have. */
  datatype Environment = Environment(
    canStream: bool,
    chat: (nat, seq<ChatMessage>) -> Result<LLMResponse, string>,
    chatStream: (nat, seq<ChatMessage>) -> StreamReply,
    loads: string -> Option<JsonObject>,
    parallelSafe: string -> Option<bool>,
    invoke: (nat, nat, ToolCall) -> Result<string, string>,
    serialize: ToolExecution -> string,
    normalize: (string, JsonObject) -> string,
    compact: (string, string, bool) -> string)
}
