/** Usage tracking around the provider (backend/app/llm/cost.py) and what its records add up to
    over a whole agent run. */
module Usage {
  import opened Text
  import opened AgentModels
  import opened Provider
  import opened ToolCallAssembly
  import opened ModelCall
  import opened AgentLoop
  import opened AgentRuns

  datatype UsageRecord = UsageRecord(usage: TokenUsage, cost: real, success: bool)

  datatype Prices = Prices(inputPerMillion: real, outputPerMillion: real)

  function EstimateCost(prices: Prices, usage: TokenUsage): real {
    (usage.inputTokens as real * prices.inputPerMillion
     + usage.outputTokens as real * prices.outputPerMillion) / 1000000.0
  }

  /** A million input tokens cost the input price, a million output tokens the output price, and any
      usage its share of each. */
  lemma PricesArePerMillion(prices: Prices, usage: TokenUsage)
    ensures EstimateCost(prices, TokenUsage(1000000, 0)) == prices.inputPerMillion
    ensures EstimateCost(prices, TokenUsage(0, 1000000)) == prices.outputPerMillion
    ensures EstimateCost(prices, usage)
         == EstimateCost(prices, TokenUsage(usage.inputTokens, 0))
            + EstimateCost(prices, TokenUsage(0, usage.outputTokens))
  {
    CostIsAdditive(prices, TokenUsage(usage.inputTokens, 0), TokenUsage(0, usage.outputTokens));
  }

  function RecordFor(prices: Prices, usage: TokenUsage, success: bool): UsageRecord {
    UsageRecord(usage, EstimateCost(prices, usage), success)
  }

  function LastUsage(events: seq<StreamEvent>): TokenUsage {
    if events == [] then NO_USAGE
    else if events[|events| - 1].usage.Some? then events[|events| - 1].usage.value
    else LastUsage(events[..|events| - 1])
  }

  /** The usage of the last event that has one; nothing used if none has. */
  ghost predicate IsLastUsage(events: seq<StreamEvent>, usage: TokenUsage) {
    if forall i :: 0 <= i < |events| ==> events[i].usage.None? then usage == TokenUsage(0, 0)
    else exists i :: 0 <= i < |events| && events[i].usage == Some(usage)
                     && forall j :: i < j < |events| ==> events[j].usage.None?
  }

  lemma {:induction false} LastUsageIsLast(events: seq<StreamEvent>)
    ensures IsLastUsage(events, LastUsage(events))
  {
    if events != [] {
      var n := |events| - 1;
      LastUsageIsLast(events[..n]);
      if events[n].usage.None? && exists i :: 0 <= i < n && events[i].usage.Some? {
        var i :| 0 <= i < n && events[..n][i].usage == Some(LastUsage(events[..n]))
                 && forall j :: i < j < n ==> events[..n][j].usage.None?;
        assert events[i].usage == Some(LastUsage(events));
        forall j | i < j < |events|
          ensures events[j].usage.None?
        {
          if j < n {
            assert events[..n][j] == events[j];
          }
        }
      }
    }
  }

  /** `UsageTrackingProvider.chat`: passes the answer through and records it. */
  method TrackChat(prices: Prices, reply: Result<LLMResponse, string>)
    returns (passed: Result<LLMResponse, string>, record: UsageRecord)
    ensures passed == reply
    ensures record == ChatRecord(prices, reply)
    ensures record.success <==> reply.Ok?
    ensures record.usage == if reply.Ok? then reply.value.usage else TokenUsage(0, 0)
    ensures record.cost == EstimateCost(prices, record.usage)
  {
    passed := reply;
    match reply {
      case Err(_) => record := RecordFor(prices, NO_USAGE, false);
      case Ok(response) => record := RecordFor(prices, response.usage, true);
    }
  }

  function ChatRecord(prices: Prices, reply: Result<LLMResponse, string>): UsageRecord {
    RecordFor(prices, if reply.Ok? then reply.value.usage else NO_USAGE, reply.Ok?)
  }

  /** `UsageTrackingProvider.chat_stream`: passes every event through and records the last usage
      seen, whether the stream ends or breaks. */
  method TrackChatStream(prices: Prices, reply: StreamReply)
    returns (passed: StreamReply, record: UsageRecord)
    ensures passed == reply
    ensures record == RecordFor(prices, LastUsage(reply.events), reply.failure.None?)
    ensures record.success <==> reply.failure.None?
    ensures IsLastUsage(reply.events, record.usage) && record.cost == EstimateCost(prices, record.usage)
  {
    LastUsageIsLast(reply.events);
    var usage, success := NO_USAGE, true;
    var events := [];
    for i := 0 to |reply.events|
      invariant usage == LastUsage(reply.events[..i])
      invariant events == reply.events[..i]
    {
      assert reply.events[..i + 1][..i] == reply.events[..i];
      if reply.events[i].usage.Some? {
        usage := reply.events[i].usage.value;
      }
      events := events + [reply.events[i]];
    }
    assert reply.events[..|reply.events|] == reply.events;
    if reply.failure.Some? {
      success := false;
    }
    passed := StreamReply(events, reply.failure);
    record := RecordFor(prices, usage, success);
  }

  // The records of a run

  function CallRecord(
      prices: Prices, cfg: AgentConfig, env: Environment, n: nat, input: seq<ChatMessage>): UsageRecord
  {
    if Streams(cfg, env)
    then
      var reply := env.chatStream(n, input);
      RecordFor(prices, LastUsage(reply.events), reply.failure.None?)
    else ChatRecord(prices, env.chat(n, input))
  }

  /** One record per model call made in the first `n` iterations. */
  ghost function Records(
      prices: Prices, cfg: AgentConfig, env: Environment, initial: AgentState, n: nat): seq<UsageRecord>
  {
    if n == 0 then []
    else
      var before := RunTo(cfg, env, initial, n - 1);
      Records(prices, cfg, env, initial, n - 1)
      + (if before.Running? then [CallRecord(prices, cfg, env, n, ModelInput(cfg, env, before.state))] else [])
  }

  /** Every stream the environment offers was parsed from provider chunks. */
  ghost predicate ProviderBacked(env: Environment) {
    forall n: nat, input: seq<ChatMessage> :: WellTyped(env.chatStream(n, input).events)
  }

  lemma {:induction false} ArrivalUsageIsLastUsage(events: seq<StreamEvent>)
    requires WellTyped(events)
    ensures AbsorbAll(events).usage == LastUsage(events)
  {
    if events != [] {
      assert events[|events| - 1].usage.Some? ==> events[|events| - 1].kind == UsageKind;
      ArrivalUsageIsLastUsage(events[..|events| - 1]);
    }
  }

  /** A model call that ends in a response is recorded once, as a success, with the usage the loop
      adds to its total. */
  lemma RecordAgreesWithResponse(prices: Prices, cfg: AgentConfig, env: Environment, n: nat, input: seq<ChatMessage>)
    requires ProviderBacked(env)
    requires Outcome(cfg, env, n, input).response.Ok?
    ensures CallRecord(prices, cfg, env, n, input)
         == RecordFor(prices, Outcome(cfg, env, n, input).response.value.usage, true)
  {
    hide Assembled;
    if Streams(cfg, env) {
      assert WellTyped(env.chatStream(n, input).events);
      ArrivalUsageIsLastUsage(env.chatStream(n, input).events);
    }
  }

  function RecordsOfSteps(prices: Prices, steps: seq<AgentStep>): seq<UsageRecord> {
    if steps == [] then []
    else RecordsOfSteps(prices, steps[..|steps| - 1]) + [RecordFor(prices, steps[|steps| - 1].usage, true)]
  }

  lemma IterationRecord(prices: Prices, cfg: AgentConfig, env: Environment, n: nat, st: AgentState)
    requires ProviderBacked(env)
    ensures var it := Iterate(cfg, env, n, st);
            !it.Raise? ==>
              var steps := if it.Continue? then it.state.steps else it.result.steps;
              && |steps| == |st.steps| + 1 && steps[..|st.steps|] == st.steps
              && CallRecord(prices, cfg, env, n, ModelInput(cfg, env, st))
                 == RecordFor(prices, steps[|st.steps|].usage, true)
  {
    hide Outcome, CallRecord, ToolMessages, Executions, CallSignatures;
    if Outcome(cfg, env, n, ModelInput(cfg, env, st)).response.Ok? {
      RecordAgreesWithResponse(prices, cfg, env, n, ModelInput(cfg, env, st));
    }
  }

  lemma {:induction false} RecordsFollowSteps(
      prices: Prices, cfg: AgentConfig, env: Environment, initial: AgentState, n: nat)
    requires ProviderBacked(env) && Fresh(initial)
    requires RunTo(cfg, env, initial, n).Running?
    ensures Records(prices, cfg, env, initial, n) == RecordsOfSteps(prices, RunTo(cfg, env, initial, n).state.steps)
  {
    hide Iterate, CallRecord, RecordFor;
    if n > 0 {
      RecordsFollowSteps(prices, cfg, env, initial, n - 1);
      IterationRecord(prices, cfg, env, n, RunTo(cfg, env, initial, n - 1).state);
    }
  }

  lemma {:induction false} NoRecordAfterEnd(
      prices: Prices, cfg: AgentConfig, env: Environment, initial: AgentState, n: nat, m: nat)
    requires n <= m && !RunTo(cfg, env, initial, n).Running?
    ensures Records(prices, cfg, env, initial, m) == Records(prices, cfg, env, initial, n)
    decreases m
  {
    hide Iterate, CallRecord;
    if n < m {
      EndedStaysEnded(cfg, env, initial, n, m - 1);
      NoRecordAfterEnd(prices, cfg, env, initial, n, m - 1);
    }
  }

  /** A run that yields a result leaves exactly one successful record per step, in step order. */
  lemma ResultRecords(
      prices: Prices, cfg: AgentConfig, env: Environment,
      userInput: string, systemPrompt: Option<string>, history: seq<ChatMessage>)
    requires cfg.Valid() && ProviderBacked(env)
    ensures var initial := InitialState(userInput, systemPrompt, history);
            var run := Run(cfg, env, initial);
            run.Done? ==>
              Records(prices, cfg, env, initial, cfg.maxSteps) == RecordsOfSteps(prices, run.result.steps)
  {
    hide Iterate, Records, CallRecord;
    var initial := InitialState(userInput, systemPrompt, history);
    FreshStart(userInput, systemPrompt, history);
    var end := RunTo(cfg, env, initial, cfg.maxSteps);
    if end.Running? {
      RecordsFollowSteps(prices, cfg, env, initial, cfg.maxSteps);
    } else if end.Done? {
      var n := Ending(cfg, env, initial, cfg.maxSteps);
      FinishedRecords(prices, cfg, env, initial, n);
      NoRecordAfterEnd(prices, cfg, env, initial, n, cfg.maxSteps);
    }
  }

  lemma FinishedRecords(prices: Prices, cfg: AgentConfig, env: Environment, initial: AgentState, n: nat)
    requires ProviderBacked(env) && Fresh(initial) && 0 < n
    requires RunTo(cfg, env, initial, n - 1).Running? && RunTo(cfg, env, initial, n).Done?
    ensures Records(prices, cfg, env, initial, n) == RecordsOfSteps(prices, RunTo(cfg, env, initial, n).result.steps)
  {
    hide Iterate, CallRecord, RecordFor;
    RecordsFollowSteps(prices, cfg, env, initial, n - 1);
    IterationRecord(prices, cfg, env, n, RunTo(cfg, env, initial, n - 1).state);
  }

  // Totals

  function TotalUsage(records: seq<UsageRecord>): TokenUsage {
    if records == [] then NO_USAGE else TotalUsage(records[..|records| - 1]).Add(records[|records| - 1].usage)
  }

  function TotalCost(records: seq<UsageRecord>): real {
    if records == [] then 0.0 else TotalCost(records[..|records| - 1]) + records[|records| - 1].cost
  }

  lemma CostIsAdditive(prices: Prices, a: TokenUsage, b: TokenUsage)
    ensures EstimateCost(prices, a.Add(b)) == EstimateCost(prices, a) + EstimateCost(prices, b)
  {
    var i, o := prices.inputPerMillion, prices.outputPerMillion;
    assert (a.inputTokens + b.inputTokens) as real * i == a.inputTokens as real * i + b.inputTokens as real * i;
    assert (a.outputTokens + b.outputTokens) as real * o == a.outputTokens as real * o + b.outputTokens as real * o;
  }

  lemma {:induction false} StepRecordsTotals(prices: Prices, steps: seq<AgentStep>)
    ensures var records := RecordsOfSteps(prices, steps);
            && |records| == |steps|
            && (forall i :: 0 <= i < |records| ==> records[i].success && records[i].usage == steps[i].usage)
            && TotalUsage(records) == UsageOf(steps)
            && TotalCost(records) == EstimateCost(prices, UsageOf(steps))
  {
    if steps != [] {
      var before, last := steps[..|steps| - 1], steps[|steps| - 1];
      StepRecordsTotals(prices, before);
      CostIsAdditive(prices, UsageOf(before), last.usage);
      assert RecordsOfSteps(prices, steps)[..|before|] == RecordsOfSteps(prices, before);
    }
  }

  /** Nothing is lost between provider, records and result: as many successful records as steps,
      their tokens add up to the result's usage, and their costs to the cost of that usage. */
  lemma UsageIsConserved(
      prices: Prices, cfg: AgentConfig, env: Environment,
      userInput: string, systemPrompt: Option<string>, history: seq<ChatMessage>)
    requires cfg.Valid() && ProviderBacked(env)
    ensures var initial := InitialState(userInput, systemPrompt, history);
            var run := Run(cfg, env, initial);
            run.Done? ==>
              var records := Records(prices, cfg, env, initial, cfg.maxSteps);
              && |records| == |run.result.steps|
              && (forall i :: 0 <= i < |records| ==>
                    records[i].success && records[i].usage == run.result.steps[i].usage)
              && TotalUsage(records) == run.result.usage
              && TotalCost(records) == EstimateCost(prices, run.result.usage)
  {
    hide Run, Records, CleanHistory, Verdict, VisibleSteps, AnswerShown, EndsWith;
    var run := Run(cfg, env, InitialState(userInput, systemPrompt, history));
    ResultRecords(prices, cfg, env, userInput, systemPrompt, history);
    EveryResultIsGood(cfg, env, userInput, systemPrompt, history);
    if run.Done? {
      StepRecordsTotals(prices, run.result.steps);
    }
  }
}
