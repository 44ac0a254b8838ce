/** Properties of every run of the agent loop, whatever the model and the tools do. */
module AgentRuns {
  import opened Text
  import opened AgentModels
  import opened Compaction
  import opened ModelCall
  import opened AgentLoop

  /** Where a run leaves the loop: after the last allowed iteration, or in iteration `n`. */
  lemma {:induction false} Ending(cfg: AgentConfig, env: Environment, initial: AgentState, m: nat) returns (n: nat)
    requires !RunTo(cfg, env, initial, m).Running?
    ensures 1 <= n <= m
    ensures RunTo(cfg, env, initial, n - 1).Running?
    ensures RunTo(cfg, env, initial, m) == RunTo(cfg, env, initial, n)
    ensures var before := RunTo(cfg, env, initial, n - 1);
            RunTo(cfg, env, initial, n) == Advance(before.events, Iterate(cfg, env, n, before.state))
  {
    hide Iterate;
    if RunTo(cfg, env, initial, m - 1).Running? {
      n := m;
    } else {
      n := Ending(cfg, env, initial, m - 1);
    }
  }

  // Transcripts

  predicate Answers(m: ChatMessage, call: ToolCall) {
    m.role == Tool && m.toolCallId == Some(call.id)
  }

  function OpenCalls(m: ChatMessage): seq<ToolCall> {
    if m.role == Assistant then m.toolCalls else []
  }

  /** The tool calls still waiting for a reply after message `m`; None when `m` may not come here. */
  function Read(pending: seq<ToolCall>, m: ChatMessage): Option<seq<ToolCall>> {
    if pending == [] then
      if m.role == Tool then None else Some(OpenCalls(m))
    else
      if Answers(m, pending[0]) then Some(pending[1..]) else None
  }

  function PendingAfter(pending: seq<ToolCall>, messages: seq<ChatMessage>): Option<seq<ToolCall>>
    decreases |messages|
  {
    if messages == [] then Some(pending)
    else
      var next := Read(pending, messages[0]);
      if next.None? then None else PendingAfter(next.value, messages[1..])
  }

  /** Every tool call is answered before anything else is said, in call order and with matching
      ids, and no tool message stands anywhere else. */
  predicate WellFormed(messages: seq<ChatMessage>) {
    PendingAfter([], messages) == Some([])
  }

  lemma {:induction false} PendingAppend(pending: seq<ToolCall>, a: seq<ChatMessage>, b: seq<ChatMessage>)
    ensures var p := PendingAfter(pending, a);
            PendingAfter(pending, a + b) == if p.None? then None else PendingAfter(p.value, b)
    decreases |a|
  {
    if a == [] {
      assert a + b == b;
    } else {
      var next := Read(pending, a[0]);
      if next.Some? {
        PendingAppend(next.value, a[1..], b);
        assert (a + b)[1..] == a[1..] + b;
      }
    }
  }

  lemma {:induction false} RepliesClose(calls: seq<ToolCall>, replies: seq<ChatMessage>)
    requires |calls| == |replies|
    requires forall j :: 0 <= j < |calls| ==> Answers(replies[j], calls[j])
    ensures PendingAfter(calls, replies) == Some([])
  {
    if calls != [] {
      RepliesClose(calls[1..], replies[1..]);
    }
  }

  lemma {:induction false} PendingAreAnsweredNext(pending: seq<ToolCall>, messages: seq<ChatMessage>)
    requires PendingAfter(pending, messages) == Some([])
    ensures |pending| <= |messages|
    ensures forall j :: 0 <= j < |pending| ==> Answers(messages[j], pending[j])
    ensures |pending| < |messages| ==> messages[|pending|].role != Tool
  {
    if pending != [] {
      PendingAreAnsweredNext(pending[1..], messages[1..]);
    }
  }

  /** Spelled out by position: an assistant message with tool calls is followed by exactly its
      replies. */
  lemma {:induction false} WellFormedByPosition(messages: seq<ChatMessage>, i: nat)
    requires WellFormed(messages) && i < |messages| && messages[i].role == Assistant
    ensures var calls := messages[i].toolCalls;
            && i + |calls| < |messages|
            && (forall j :: 0 <= j < |calls| ==> Answers(messages[i + 1 + j], calls[j]))
            && (i + 1 + |calls| < |messages| ==> messages[i + 1 + |calls|].role != Tool)
  {
    var calls := messages[i].toolCalls;
    var before, after := messages[..i], messages[i..];
    assert messages == before + after;
    PendingAppend([], before, after);
    var p := PendingAfter([], before).value;
    assert after[1..] == messages[i + 1..];
    assert PendingAfter(calls, after[1..]) == Some([]);
    PendingAreAnsweredNext(calls, after[1..]);
    forall j | 0 <= j < |calls|
      ensures Answers(messages[i + 1 + j], calls[j])
    {
      assert after[1..][j] == messages[i + 1 + j];
    }
  }

  lemma WellFormedAppend(a: seq<ChatMessage>, b: seq<ChatMessage>)
    requires WellFormed(a) && WellFormed(b)
    ensures WellFormed(a + b)
  {
    PendingAppend([], a, b);
  }

  lemma {:induction false} PendingIgnoresContents(pending: seq<ToolCall>, a: seq<ChatMessage>, b: seq<ChatMessage>)
    requires |a| == |b|
    requires forall i :: 0 <= i < |a| ==> SameButContent(a[i], b[i])
    ensures PendingAfter(pending, a) == PendingAfter(pending, b)
    decreases |a|
  {
    if a != [] {
      assert SameButContent(a[0], b[0]);
      var next := Read(pending, a[0]);
      if next.Some? {
        PendingIgnoresContents(next.value, a[1..], b[1..]);
      }
    }
  }

  lemma SingletonWellFormed(m: ChatMessage)
    requires m.role == User || m.role == System
    ensures WellFormed([m])
  {
    assert [m][1..] == [];
  }

  lemma ExecutedBatchWellFormed(cfg: AgentConfig, env: Environment, n: nat, response: LLMResponse)
    ensures WellFormed([AssistantMessage(response)]
                       + ToolMessages(cfg, env, Executions(env, n, response.toolCalls)))
  {
    var replies := ToolMessages(cfg, env, Executions(env, n, response.toolCalls));
    RepliesClose(response.toolCalls, replies);
    assert ([AssistantMessage(response)] + replies)[1..] == replies;
  }

  lemma {:induction false} IterationKeepsTranscript(cfg: AgentConfig, env: Environment, n: nat, st: AgentState)
    requires WellFormed(st.messages) && Iterate(cfg, env, n, st).Continue?
    ensures WellFormed(Iterate(cfg, env, n, st).state.messages)
  {
    hide WellFormed, Outcome;
    var response := Outcome(cfg, env, n, ModelInput(cfg, env, st)).response.value;
    var next := Iterate(cfg, env, n, st).state;
    if |response.toolCalls| > cfg.maxToolCallsPerStep {
      var request := UserMessage(ReplanRequest(|response.toolCalls|, cfg.maxToolCallsPerStep));
      SingletonWellFormed(request);
      WellFormedAppend(st.messages, [request]);
    } else {
      var block := [AssistantMessage(response)] + ToolMessages(cfg, env, Executions(env, n, response.toolCalls));
      ExecutedBatchWellFormed(cfg, env, n, response);
      WellFormedAppend(st.messages, block);
      assert next.messages == st.messages + block;
    }
  }

  lemma {:induction false} TranscriptWellFormed(
      cfg: AgentConfig, env: Environment, initial: AgentState, n: nat)
    requires WellFormed(initial.messages)
    ensures var p := RunTo(cfg, env, initial, n); p.Running? ==> WellFormed(p.state.messages)
  {
    hide Iterate, WellFormed;
    if n > 0 && RunTo(cfg, env, initial, n).Running? {
      TranscriptWellFormed(cfg, env, initial, n - 1);
      IterationKeepsTranscript(cfg, env, n, RunTo(cfg, env, initial, n - 1).state);
    }
  }

  /** At every model call of every run, what the model is sent is a well-formed transcript. */
  lemma ModelInputsWellFormed(
      cfg: AgentConfig, env: Environment,
      userInput: string, systemPrompt: Option<string>, history: seq<ChatMessage>, n: nat)
    requires WellFormed(history)
    ensures var p := RunTo(cfg, env, InitialState(userInput, systemPrompt, history), n);
            p.Running? ==> WellFormed(ModelInput(cfg, env, p.state))
  {
    var initial := InitialState(userInput, systemPrompt, history);
    var prompt := if Truthy(systemPrompt) then [SystemMessage(systemPrompt.value)] else [];
    if prompt != [] {
      SingletonWellFormed(prompt[0]);
    }
    SingletonWellFormed(UserMessage(userInput));
    WellFormedAppend(prompt, history);
    WellFormedAppend(prompt + history, [UserMessage(userInput)]);
    if RunTo(cfg, env, initial, n).Running? {
      TranscriptWellFormed(cfg, env, initial, n);
      var messages := RunTo(cfg, env, initial, n).state.messages;
      CompactionChangesOnlyContents(cfg, env.compact, messages);
      PendingIgnoresContents([], messages, Compacted(cfg, env.compact, messages));
    }
  }

  // Steps, usage and what is streamed

  function UsageOf(steps: seq<AgentStep>): TokenUsage {
    if steps == [] then NO_USAGE else UsageOf(steps[..|steps| - 1]).Add(steps[|steps| - 1].usage)
  }

  function StreamedSteps(events: seq<AgentEvent>): seq<AgentStep> {
    if events == [] then []
    else
      var last := events[|events| - 1];
      StreamedSteps(events[..|events| - 1]) + (if last.Step? then [last.step] else [])
  }

  lemma {:induction false} StreamedStepsAppend(a: seq<AgentEvent>, b: seq<AgentEvent>)
    ensures StreamedSteps(a + b) == StreamedSteps(a) + StreamedSteps(b)
  {
    if b == [] {
      assert a + b == a;
    } else {
      assert (a + b)[..|a + b| - 1] == a + b[..|b| - 1];
      StreamedStepsAppend(a, b[..|b| - 1]);
    }
  }

  lemma {:induction false} OnlyTextStreamsNoStep(events: seq<AgentEvent>)
    requires OnlyText(events)
    ensures StreamedSteps(events) == []
  {
    if events != [] {
      OnlyTextStreamsNoStep(events[..|events| - 1]);
    }
  }

  /** Steps whose batch was not over the per-step limit, that is, not sent back for re-planning. */
  function WithinLimit(cfg: AgentConfig, steps: seq<AgentStep>): seq<AgentStep> {
    if steps == [] then []
    else
      var last := steps[|steps| - 1];
      WithinLimit(cfg, steps[..|steps| - 1])
      + (if |last.toolCalls| <= cfg.maxToolCallsPerStep then [last] else [])
  }

  function Replans(cfg: AgentConfig, steps: seq<AgentStep>): int {
    |steps| - |WithinLimit(cfg, steps)|
  }

  /** The books of a run that is still going after `n` iterations. */
  predicate Books(cfg: AgentConfig, env: Environment, n: nat, st: AgentState) {
    && |st.steps| == n
    && (forall i :: 0 <= i < n ==> st.steps[i].step == i + 1)
    && (forall i :: 0 <= i < n ==> st.steps[i].toolCalls != [])
    && (forall i :: 0 <= i < n ==> st.steps[i].toolExecutions == ExpectedExecutions(cfg, env, i, st.steps[i].toolCalls))
    && st.usage == UsageOf(st.steps)
    && st.toolBudgetRetries == Replans(cfg, st.steps)
    && st.toolBudgetRetries <= cfg.maxToolBudgetRetries
  }

  function ExpectedExecutions(cfg: AgentConfig, env: Environment, i: nat, calls: seq<ToolCall>): seq<ToolExecution> {
    if |calls| <= cfg.maxToolCallsPerStep then Executions(env, i + 1, calls) else []
  }

  predicate Ledger(cfg: AgentConfig, env: Environment, n: nat, st: AgentState, events: seq<AgentEvent>) {
    && Books(cfg, env, n, st)
    && StreamedSteps(events) == WithinLimit(cfg, st.steps)
    && ShownText("", events) == ""
  }

  lemma AddStepKeepsBooks(cfg: AgentConfig, env: Environment, n: nat, st: AgentState, step: AgentStep, next: AgentState)
    requires n > 0 && Books(cfg, env, n - 1, st)
    requires step.step == n && step.toolCalls != []
    requires step.toolExecutions == ExpectedExecutions(cfg, env, n - 1, step.toolCalls)
    requires next.steps == st.steps + [step] && next.usage == st.usage.Add(step.usage)
    requires next.toolBudgetRetries
          == st.toolBudgetRetries + (if |step.toolCalls| <= cfg.maxToolCallsPerStep then 0 else 1)
    requires next.toolBudgetRetries <= cfg.maxToolBudgetRetries
    ensures Books(cfg, env, n, next)
    ensures WithinLimit(cfg, next.steps)
         == WithinLimit(cfg, st.steps) + (if |step.toolCalls| <= cfg.maxToolCallsPerStep then [step] else [])
  {
    hide ExpectedExecutions;
    assert next.steps[..n - 1] == st.steps;
  }

  predicate Fresh(initial: AgentState) {
    && initial.usage == NO_USAGE
    && initial.steps == []
    && initial.executedSignatures == {}
    && initial.toolBudgetRetries == 0
  }

  /** Text and steps of an iteration's events, given how they were put together. */
  lemma EventsAfterCall(before: seq<AgentEvent>, o: CallOutcome, tail: seq<AgentEvent>)
    requires ScreenMatches(o) && o.response.Ok? && ShownText("", before) == ""
    ensures StreamedSteps(before + (o.events + tail)) == StreamedSteps(before) + StreamedSteps(tail)
    ensures ShownText("", before + (o.events + tail)) == ShownText(ShownText("", o.events), tail)
  {
    OnlyTextStreamsNoStep(o.events);
    StreamedStepsAppend(o.events, tail);
    StreamedStepsAppend(before, o.events + tail);
    ShownTextAppend("", o.events, tail);
    ShownTextAppend("", before, o.events + tail);
    assert [] + StreamedSteps(tail) == StreamedSteps(tail);
  }

  lemma TailEvents(shown: string, step: AgentStep, result: AgentRunResult)
    ensures StreamedSteps([Step(step)]) == [step]
    ensures ShownText(shown, [Step(step)]) == shown
    ensures StreamedSteps([Step(step), Finished(result)]) == [step]
    ensures ShownText(shown, [Step(step), Finished(result)]) == shown
    ensures StreamedSteps([]) == [] && ShownText(shown, []) == shown
    ensures StreamedSteps([Finished(result)]) == []
    ensures ShownText(shown, [Finished(result)]) == shown
  {
    assert [Step(step)][..0] == [] && [Finished(result)][..0] == [];
    assert [Step(step), Finished(result)][..1] == [Step(step)];
  }

  lemma NothingRunYet(cfg: AgentConfig, env: Environment, initial: AgentState)
    requires Fresh(initial)
    ensures Ledger(cfg, env, 0, initial, [])
  {
  }

  lemma {:induction false} RunKeepsLedger(cfg: AgentConfig, env: Environment, initial: AgentState, n: nat)
    requires Fresh(initial)
    ensures var p := RunTo(cfg, env, initial, n); p.Running? ==> Ledger(cfg, env, n, p.state, p.events)
  {
    hide Ledger, Iterate, Fresh;
    if n == 0 {
      NothingRunYet(cfg, env, initial);
    } else if RunTo(cfg, env, initial, n).Running? {
      RunKeepsLedger(cfg, env, initial, n - 1);
      var before := RunTo(cfg, env, initial, n - 1);
      IterationKeepsLedger(cfg, env, n, before.state, before.events);
    }
  }

  lemma IterationKeepsLedger(cfg: AgentConfig, env: Environment, n: nat, st: AgentState, before: seq<AgentEvent>)
    requires n > 0 && Ledger(cfg, env, n - 1, st, before)
    requires Iterate(cfg, env, n, st).Continue?
    ensures var it := Iterate(cfg, env, n, st); Ledger(cfg, env, n, it.state, before + it.events)
  {
    hide Outcome, ShownText, Executions, WithinLimit, StreamedSteps, ScreenMatches, Replans, UsageOf;
    var o := Outcome(cfg, env, n, ModelInput(cfg, env, st));
    ScreenAfterModelCall(cfg, env, n, ModelInput(cfg, env, st));
    var response := o.response.value;
    var it := Iterate(cfg, env, n, st);
    var step := it.state.steps[|st.steps|];
    AddStepKeepsBooks(cfg, env, n, st, step, it.state);
    TailEvents("", step, OutOfSteps(cfg, st));
    EventsAfterCall(before, o, if |response.toolCalls| > cfg.maxToolCallsPerStep then [] else [Step(step)]);
    assert o.events + [] == o.events;
  }

  // The end of a run

  lemma FreshStart(userInput: string, systemPrompt: Option<string>, history: seq<ChatMessage>)
    ensures Fresh(InitialState(userInput, systemPrompt, history))
  {
  }

  function Last<T>(s: seq<T>): T
    requires s != []
  {
    s[|s| - 1]
  }

  function ButLast<T>(s: seq<T>): seq<T>
    requires s != []
  {
    s[..|s| - 1]
  }

  function ExecutedCalls(env: Environment, steps: seq<AgentStep>): seq<(string, string)> {
    if steps == [] then []
    else
      ExecutedCalls(env, ButLast(steps))
      + (if Last(steps).toolExecutions == [] then [] else CallSignatures(env, Last(steps).toolCalls))
  }

  predicate Distinct<T(==)>(s: seq<T>) {
    forall i, j :: 0 <= i < j < |s| ==> s[i] != s[j]
  }

  lemma {:induction false} DistinctIffFullCardinality<T>(s: seq<T>)
    ensures |Elements(s)| <= |s|
    ensures |Elements(s)| == |s| <==> Distinct(s)
  {
    if s != [] {
      var a, x := ButLast(s), Last(s);
      DistinctIffFullCardinality(a);
      assert Elements(s) == Elements(a) + {x};
      if x in a {
        assert Elements(s) == Elements(a);
        assert !Distinct(s) by {
          var i :| 0 <= i < |a| && a[i] == x;
          assert s[i] == s[|s| - 1];
        }
      } else {
        assert |Elements(s)| == |Elements(a)| + 1;
        if Distinct(a) {
          forall i, j | 0 <= i < j < |s|
            ensures s[i] != s[j]
          {
            assert s[i] == a[i];
          }
        } else {
          var i, j :| 0 <= i < j < |a| && a[i] == a[j];
          assert s[i] == s[j];
        }
      }
    }
  }

  /** The calls of a step repeat work done in the steps before it, or repeat one another. */
  ghost predicate Repeats(env: Environment, before: seq<AgentStep>, calls: seq<ToolCall>) {
    var signatures := CallSignatures(env, calls);
    || !Distinct(signatures)
    || exists i, j :: 0 <= i < |signatures| && 0 <= j < |ExecutedCalls(env, before)|
                      && signatures[i] == ExecutedCalls(env, before)[j]
  }

  lemma RepeatTestIsRepeats(
      env: Environment, before: seq<AgentStep>, calls: seq<ToolCall>, executed: set<(string, string)>)
    requires executed == Elements(ExecutedCalls(env, before))
    ensures var signatures := CallSignatures(env, calls);
            executed * Elements(signatures) != {} || |Elements(signatures)| != |signatures|
            <==> Repeats(env, before, calls)
  {
    var signatures := CallSignatures(env, calls);
    DistinctIffFullCardinality(signatures);
    if executed * Elements(signatures) != {} {
      var x :| x in executed * Elements(signatures);
      assert x in signatures && x in ExecutedCalls(env, before);
    }
    if i, j :| 0 <= i < |signatures| && 0 <= j < |ExecutedCalls(env, before)|
               && signatures[i] == ExecutedCalls(env, before)[j]
    {
      assert signatures[i] in executed * Elements(signatures);
    }
  }

  /** How a run that has executed or re-planned all of `steps` looks: no signature twice, every
      executed batch within the per-step limit and started within the token budget. */
  ghost predicate CleanHistory(cfg: AgentConfig, env: Environment, steps: seq<AgentStep>) {
    && Distinct(ExecutedCalls(env, steps))
    && (forall k :: 0 <= k < |steps| && steps[k].toolExecutions != [] ==>
          && |steps[k].toolCalls| <= cfg.maxToolCallsPerStep
          && UsageOf(steps[..k + 1]).Total() <= cfg.maxTotalTokens)
  }

  lemma AddReplannedStep(cfg: AgentConfig, env: Environment, steps: seq<AgentStep>, step: AgentStep)
    requires CleanHistory(cfg, env, steps) && step.toolExecutions == []
    ensures CleanHistory(cfg, env, steps + [step])
    ensures ExecutedCalls(env, steps + [step]) == ExecutedCalls(env, steps)
  {
    var all := steps + [step];
    assert ButLast(all) == steps;
    forall k | 0 <= k < |all| && all[k].toolExecutions != []
      ensures |all[k].toolCalls| <= cfg.maxToolCallsPerStep && UsageOf(all[..k + 1]).Total() <= cfg.maxTotalTokens
    {
      assert all[..k + 1] == steps[..k + 1];
    }
  }

  lemma AddExecutedStep(cfg: AgentConfig, env: Environment, steps: seq<AgentStep>, step: AgentStep)
    requires CleanHistory(cfg, env, steps) && step.toolExecutions != []
    requires |step.toolCalls| <= cfg.maxToolCallsPerStep
    requires UsageOf(steps).Add(step.usage).Total() <= cfg.maxTotalTokens
    requires !Repeats(env, steps, step.toolCalls)
    ensures CleanHistory(cfg, env, steps + [step])
    ensures ExecutedCalls(env, steps + [step]) == ExecutedCalls(env, steps) + CallSignatures(env, step.toolCalls)
  {
    var all := steps + [step];
    assert ButLast(all) == steps;
    forall k | 0 <= k < |all| && all[k].toolExecutions != []
      ensures |all[k].toolCalls| <= cfg.maxToolCallsPerStep && UsageOf(all[..k + 1]).Total() <= cfg.maxTotalTokens
    {
      if k < |steps| {
        assert all[..k + 1] == steps[..k + 1];
      } else {
        assert all[..k + 1] == all;
      }
    }
  }

  lemma {:induction false} IterationKeepsHistoryClean(cfg: AgentConfig, env: Environment, n: nat, st: AgentState)
    requires n > 0 && Books(cfg, env, n - 1, st)
    requires CleanHistory(cfg, env, st.steps)
    requires st.executedSignatures == Elements(ExecutedCalls(env, st.steps))
    requires Iterate(cfg, env, n, st).Continue?
    ensures var next := Iterate(cfg, env, n, st).state;
            && CleanHistory(cfg, env, next.steps)
            && next.executedSignatures == Elements(ExecutedCalls(env, next.steps))
  {
    hide Outcome, CleanHistory, ExecutedCalls, Repeats, WithinLimit, UsageOf, ExpectedExecutions, CallSignatures;
    var response := Outcome(cfg, env, n, ModelInput(cfg, env, st)).response.value;
    var next := Iterate(cfg, env, n, st).state;
    var step := next.steps[|st.steps|];
    if |response.toolCalls| > cfg.maxToolCallsPerStep {
      AddReplannedStep(cfg, env, st.steps, step);
    } else {
      RepeatTestIsRepeats(env, st.steps, response.toolCalls, st.executedSignatures);
      AddExecutedStep(cfg, env, st.steps, step);
    }
  }

  lemma {:induction false} HistoryStaysClean(cfg: AgentConfig, env: Environment, initial: AgentState, n: nat)
    requires Fresh(initial)
    ensures var p := RunTo(cfg, env, initial, n);
            p.Running? ==>
              && CleanHistory(cfg, env, p.state.steps)
              && p.state.executedSignatures == Elements(ExecutedCalls(env, p.state.steps))
  {
    hide Iterate;
    if n > 0 && RunTo(cfg, env, initial, n).Running? {
      HistoryStaysClean(cfg, env, initial, n - 1);
      RunKeepsLedger(cfg, env, initial, n - 1);
      IterationKeepsHistoryClean(cfg, env, n, RunTo(cfg, env, initial, n - 1).state);
    }
  }

  /** The status a run must end with, read off its recorded steps alone.  The order of the tests is
      the precedence of the exits. */
  ghost function Verdict(cfg: AgentConfig, env: Environment, steps: seq<AgentStep>): Status
    requires steps != []
  {
    var before, calls := ButLast(steps), Last(steps).toolCalls;
    if calls == [] then Completed
    else if UsageOf(steps).Total() > cfg.maxTotalTokens then TokenBudgetExceeded
    else if |calls| > cfg.maxToolCallsPerStep then
      if Replans(cfg, before) < cfg.maxToolBudgetRetries then MaxSteps else ToolBudgetExceeded
    else if Repeats(env, before, calls) then LoopDetected
    else MaxSteps
  }

  /** Every step is accounted for, in number and in usage. */
  ghost predicate Accounted(cfg: AgentConfig, r: AgentRunResult) {
    && 1 <= |r.steps| <= cfg.maxSteps
    && (forall i :: 0 <= i < |r.steps| ==> r.steps[i].step == i + 1)
    && r.usage == UsageOf(r.steps)
    && 0 <= Replans(cfg, ButLast(r.steps)) <= cfg.maxToolBudgetRetries
  }

  /** The steps a listener sees: all but those sent back for re-planning. */
  ghost function VisibleSteps(cfg: AgentConfig, r: AgentRunResult): seq<AgentStep>
    requires r.steps != []
  {
    if r.status == MaxSteps then WithinLimit(cfg, r.steps) else WithinLimit(cfg, ButLast(r.steps)) + [Last(r.steps)]
  }

  /** The text a listener is left with: the answer of a completed run, nothing for any other. */
  ghost predicate AnswerShown(r: AgentRunResult, events: seq<AgentEvent>)
    requires r.steps != []
  {
    if r.status == Completed
    then r.output == Last(r.steps).assistantContent && ShownText("", events) == OrEmpty(r.output)
    else ShownText("", events) == "" && Truthy(r.output) && r.terminationReason == r.output
  }

  predicate EndsWith(events: seq<AgentEvent>, r: AgentRunResult) {
    && events != [] && Last(events) == Finished(r)
    && forall i :: 0 <= i < |events| - 1 ==> !events[i].Finished?
  }

  ghost predicate GoodResult(cfg: AgentConfig, env: Environment, r: AgentRunResult, events: seq<AgentEvent>) {
    && Accounted(cfg, r)
    && CleanHistory(cfg, env, r.steps)
    && r.status == Verdict(cfg, env, r.steps)
    && (r.status == MaxSteps ==> |r.steps| == cfg.maxSteps)
    && StreamedSteps(events) == VisibleSteps(cfg, r)
    && AnswerShown(r, events)
    && EndsWith(events, r)
  }

  predicate NoFinish(events: seq<AgentEvent>) {
    forall i :: 0 <= i < |events| ==> !events[i].Finished?
  }

  lemma NoFinishAppend(a: seq<AgentEvent>, b: seq<AgentEvent>)
    requires NoFinish(a)
    ensures NoFinish(b) ==> NoFinish(a + b)
    ensures forall r :: EndsWith(b, r) ==> EndsWith(a + b, r)
  {
  }

  lemma {:induction false} RunningHasNoFinish(cfg: AgentConfig, env: Environment, initial: AgentState, n: nat)
    ensures var p := RunTo(cfg, env, initial, n);
            && (!p.Done? ==> NoFinish(p.events))
            && (p.Done? ==> EndsWith(p.events, p.result))
  {
    hide Iterate, EndsWith;
    if n > 0 {
      RunningHasNoFinish(cfg, env, initial, n - 1);
      var before := RunTo(cfg, env, initial, n - 1);
      if before.Running? {
        IterationFinishesLast(cfg, env, n, before.state);
        NoFinishAppend(before.events, Iterate(cfg, env, n, before.state).events);
      }
    }
  }

  lemma IterationFinishesLast(cfg: AgentConfig, env: Environment, n: nat, st: AgentState)
    ensures var it := Iterate(cfg, env, n, st);
            && (!it.Finish? ==> NoFinish(it.events))
            && (it.Finish? ==> EndsWith(it.events, it.result))
  {
    hide ShownText, Outcome;
    ScreenAfterModelCall(cfg, env, n, ModelInput(cfg, env, st));
  }

  lemma FinishedBooks(cfg: AgentConfig, env: Environment, n: nat, st: AgentState)
    requires 0 < n <= cfg.maxSteps && Books(cfg, env, n - 1, st)
    requires CleanHistory(cfg, env, st.steps)
    requires st.executedSignatures == Elements(ExecutedCalls(env, st.steps))
    requires Iterate(cfg, env, n, st).Finish?
    ensures var it := Iterate(cfg, env, n, st);
            && Accounted(cfg, it.result)
            && CleanHistory(cfg, env, it.result.steps)
            && it.result.status == Verdict(cfg, env, it.result.steps)
            && it.result.status != MaxSteps
            && it.result.steps != [] && ButLast(it.result.steps) == st.steps
  {
    hide Outcome, WithinLimit, CleanHistory, ExecutedCalls, Repeats, CallSignatures, ExpectedExecutions;
    var r := Iterate(cfg, env, n, st).result;
    var step := r.steps[|st.steps|];
    assert ButLast(r.steps) == st.steps && Last(r.steps) == step;
    AddReplannedStep(cfg, env, st.steps, step);
    RepeatTestIsRepeats(env, st.steps, step.toolCalls, st.executedSignatures);
  }

  lemma FinishedIteration(cfg: AgentConfig, env: Environment, n: nat, st: AgentState, before: seq<AgentEvent>)
    requires 0 < n <= cfg.maxSteps && Ledger(cfg, env, n - 1, st, before)
    requires CleanHistory(cfg, env, st.steps)
    requires st.executedSignatures == Elements(ExecutedCalls(env, st.steps))
    requires Iterate(cfg, env, n, st).Finish?
    ensures var it := Iterate(cfg, env, n, st);
            && Accounted(cfg, it.result)
            && CleanHistory(cfg, env, it.result.steps)
            && it.result.status == Verdict(cfg, env, it.result.steps)
            && it.result.status != MaxSteps
            && StreamedSteps(before + it.events) == VisibleSteps(cfg, it.result)
            && AnswerShown(it.result, before + it.events)
  {
    FinishedBooks(cfg, env, n, st);
    FinishShape(cfg, env, n, st);
    ScreenAfterModelCall(cfg, env, n, ModelInput(cfg, env, st));
    hide Iterate, Outcome, ShownText, StreamedSteps, WithinLimit, CleanHistory,
      ExecutedCalls, Books, Accounted, Verdict;
    var o := Outcome(cfg, env, n, ModelInput(cfg, env, st));
    var r := Iterate(cfg, env, n, st).result;
    var step := Last(r.steps);
    EventsAfterCall(before, o, [Step(step), Finished(r)]);
    TailEvents(ShownText("", o.events), step, r);
  }

  /** What an iteration that ends the run shows, and the output it ends with. */
  lemma FinishShape(cfg: AgentConfig, env: Environment, n: nat, st: AgentState)
    requires Iterate(cfg, env, n, st).Finish?
    ensures var o := Outcome(cfg, env, n, ModelInput(cfg, env, st));
            var it := Iterate(cfg, env, n, st);
            var r := it.result;
            && r.steps != []
            && o.response.Ok?
            && it.events == o.events + [Step(Last(r.steps)), Finished(r)]
            && (r.status == Completed <==> o.response.value.toolCalls == [])
            && (if r.status == Completed
                then r.output == Last(r.steps).assistantContent == o.response.value.content
                else Truthy(r.output) && r.terminationReason == r.output)
  {
    hide Outcome, CallSignatures, Executions;
  }

  lemma LastStepOfRunning(cfg: AgentConfig, env: Environment, n: nat, st: AgentState)
    requires n > 0 && Books(cfg, env, n - 1, st)
    requires st.executedSignatures == Elements(ExecutedCalls(env, st.steps))
    requires Iterate(cfg, env, n, st).Continue?
    ensures var next := Iterate(cfg, env, n, st).state;
            && next.steps != [] && ButLast(next.steps) == st.steps
            && Verdict(cfg, env, next.steps) == MaxSteps
  {
    hide Outcome, WithinLimit, CleanHistory, ExecutedCalls, Repeats, CallSignatures, ExpectedExecutions;
    var next := Iterate(cfg, env, n, st).state;
    var step := next.steps[|st.steps|];
    assert ButLast(next.steps) == st.steps && Last(next.steps) == step;
    RepeatTestIsRepeats(env, st.steps, step.toolCalls, st.executedSignatures);
  }

  lemma OutOfStepsIsGood(cfg: AgentConfig, env: Environment, initial: AgentState)
    requires cfg.Valid() && Fresh(initial) && RunTo(cfg, env, initial, cfg.maxSteps).Running?
    ensures var p := RunTo(cfg, env, initial, cfg.maxSteps);
            var r := OutOfSteps(cfg, p.state);
            GoodResult(cfg, env, r, p.events + [Finished(r)])
  {
    hide Iterate, ShownText, StreamedSteps, WithinLimit, CleanHistory, ExecutedCalls, Repeats, Verdict;
    var n := cfg.maxSteps;
    var p := RunTo(cfg, env, initial, n);
    var r := OutOfSteps(cfg, p.state);
    RunKeepsLedger(cfg, env, initial, n);
    HistoryStaysClean(cfg, env, initial, n);
    RunKeepsLedger(cfg, env, initial, n - 1);
    HistoryStaysClean(cfg, env, initial, n - 1);
    LastStepOfRunning(cfg, env, n, RunTo(cfg, env, initial, n - 1).state);
    RunningHasNoFinish(cfg, env, initial, n);
    StreamedStepsAppend(p.events, [Finished(r)]);
    ShownTextAppend("", p.events, [Finished(r)]);
    TailEvents("", Last(p.state.steps), r);
  }

  /** Every result of every run is good: nothing repeated, all limits respected, all usage counted,
      the exit the one the recorded steps call for, and exactly the answer left on screen. */
  lemma EveryResultIsGood(
      cfg: AgentConfig, env: Environment,
      userInput: string, systemPrompt: Option<string>, history: seq<ChatMessage>)
    requires cfg.Valid()
    ensures var run := Run(cfg, env, InitialState(userInput, systemPrompt, history));
            run.Done? ==> GoodResult(cfg, env, run.result, run.events)
  {
    hide Iterate, GoodResult;
    var initial := InitialState(userInput, systemPrompt, history);
    FreshStart(userInput, systemPrompt, history);
    var end := RunTo(cfg, env, initial, cfg.maxSteps);
    if end.Running? {
      OutOfStepsIsGood(cfg, env, initial);
    } else if end.Done? {
      var n := Ending(cfg, env, initial, cfg.maxSteps);
      FinishedRunIsGood(cfg, env, initial, n);
    }
  }

  lemma FinishedRunIsGood(cfg: AgentConfig, env: Environment, initial: AgentState, n: nat)
    requires cfg.Valid() && Fresh(initial) && 0 < n <= cfg.maxSteps
    requires RunTo(cfg, env, initial, n - 1).Running? && RunTo(cfg, env, initial, n).Done?
    ensures var end := RunTo(cfg, env, initial, n); GoodResult(cfg, env, end.result, end.events)
  {
    hide Iterate, Ledger, CleanHistory, Verdict, Accounted, StreamedSteps, VisibleSteps, AnswerShown, EndsWith;
    RunKeepsLedger(cfg, env, initial, n - 1);
    HistoryStaysClean(cfg, env, initial, n - 1);
    var before := RunTo(cfg, env, initial, n - 1);
    FinishedIteration(cfg, env, n, before.state, before.events);
    RunningHasNoFinish(cfg, env, initial, n);
  }
}
