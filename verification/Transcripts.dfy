/** What the model is sent and what is recorded of its answers, over every run of the agent loop
    (`Agent.stream` in backend/app/agent/loop.py). */
module Transcripts {
  import opened Text
  import opened AgentModels
  import opened Compaction
  import opened ModelCall
  import opened AgentLoop
  import AgentRuns

  /** Before every model call of every run: the messages sent are the transcript (system prompt, history,
      question and one block per recorded step), position by position, up to compaction. */
  lemma ModelReceivesTheTranscript(
      cfg: AgentConfig, env: Environment,
      userInput: string, systemPrompt: Option<string>, history: seq<ChatMessage>, n: nat)
    ensures var p := RunTo(cfg, env, InitialState(userInput, systemPrompt, history), n);
            p.Running? ==>
              var t, sent := p.state.messages, ModelInput(cfg, env, p.state);
              && IsTranscript(cfg, env, userInput, systemPrompt, history, p.state.steps, t)
              && |sent| == |t|
              && forall i :: 0 <= i < |t| ==>
                   && SameButContent(t[i], sent[i])
                   && if FitsBudget(cfg, env.compact, t)
                      then KeptWhenFitting(cfg, env.compact, t, i, sent[i].content)
                      else CutWhenTooLong(cfg, env.compact, t, i, sent[i].content)
  {
    hide RunTo, Compacted, FitsBudget, KeptWhenFitting, CutWhenTooLong, IsTranscript, SameButContent;
    RunningTranscript(cfg, env, userInput, systemPrompt, history, n);
    var p := RunTo(cfg, env, InitialState(userInput, systemPrompt, history), n);
    if p.Running? {
      var t := p.state.messages;
      CompactionChangesOnlyContents(cfg, env.compact, t);
      forall i | 0 <= i < |t|
        ensures var sent := ModelInput(cfg, env, p.state);
                && |sent| == |t|
                && SameButContent(t[i], sent[i])
                && if FitsBudget(cfg, env.compact, t)
                   then KeptWhenFitting(cfg, env.compact, t, i, sent[i].content)
                   else CutWhenTooLong(cfg, env.compact, t, i, sent[i].content)
      {
        CompactedByPosition(cfg, env.compact, t, i);
      }
    }
  }

  /** What is recorded of a model call: number, content, calls and usage of its response, whatever the
      iteration then does; and a failed call is what the run raises. */
  lemma StepIsTheResponse(cfg: AgentConfig, env: Environment, n: nat, st: AgentState)
    ensures var response := Outcome(cfg, env, n, ModelInput(cfg, env, st)).response;
            match Iterate(cfg, env, n, st)
            case Raise(error, _) => response == Err(error)
            case Continue(next, _) => response.Ok? && RecordsResponse(st.steps, next.steps, n, response.value)
            case Finish(r, _) => response.Ok? && RecordsResponse(st.steps, r.steps, n, response.value)
  {
    hide Outcome, Executions, CallSignatures;
  }

  predicate RecordsResponse(before: seq<AgentStep>, steps: seq<AgentStep>, n: nat, response: LLMResponse) {
    && |steps| == |before| + 1 && steps[..|before|] == before
    && var step := steps[|before|];
       && step.step == n
       && step.assistantContent == response.content
       && step.toolCalls == response.toolCalls
       && step.usage == response.usage
  }

  /** Step `k` of a run carries the answer to model call `k + 1`, asked with the transcript of the steps
      before it. */
  lemma {:induction false} EveryStepIsAResponse(
      cfg: AgentConfig, env: Environment, initial: AgentState, n: nat, k: nat)
    requires initial.steps == []
    ensures var p := RunTo(cfg, env, initial, n);
            p.Running? && k < |p.state.steps| ==>
              var before := RunTo(cfg, env, initial, k);
              && before.Running?
              && before.state.steps == p.state.steps[..k]
              && var response := Outcome(cfg, env, k + 1, ModelInput(cfg, env, before.state)).response;
                 && response.Ok?
                 && RecordsResponse(before.state.steps, p.state.steps[..k + 1], k + 1, response.value)
  {
    hide Iterate, Outcome, ModelInput, RecordsResponse;
    var p := RunTo(cfg, env, initial, n);
    if n > 0 && p.Running? {
      EveryStepIsAResponse(cfg, env, initial, n - 1, k);
      var st := RunTo(cfg, env, initial, n - 1).state;
      StepsSoFar(cfg, env, initial, n - 1);
      ContinuedTranscript(cfg, env, n, st);
      assert k <= |st.steps| ==> p.state.steps[..k] == st.steps[..k];
      if k < |st.steps| {
        assert p.state.steps[..k + 1] == st.steps[..k + 1];
      } else if k == |st.steps| {
        assert p.state.steps[..k + 1] == p.state.steps && st.steps[..k] == st.steps;
        StepIsTheResponse(cfg, env, n, st);
      }
    }
  }

  /** Each executed call is recorded under its own id, name and arguments; an unknown tool fails without
      being run, any other has the outcome of running it. */
  lemma ExecutionsAreTheCalls(env: Environment, step: nat, calls: seq<ToolCall>, j: nat)
    requires j < |calls|
    ensures var executions := Executions(env, step, calls);
            && |executions| == |calls|
            && executions[j].toolCallId == calls[j].id
            && executions[j].toolName == calls[j].name
            && executions[j].arguments == calls[j].arguments
            && (env.parallelSafe(calls[j].name).None? ==>
                  executions[j].outcome == Err("KeyError: 'Unknown tool: " + calls[j].name + "'"))
            && (env.parallelSafe(calls[j].name).Some? ==> executions[j].outcome == env.invoke(step, j, calls[j]))
  {
  }

  /** Two calls count as the same work exactly when they name one tool with arguments that normalise alike. */
  lemma SameSignatureIff(env: Environment, calls: seq<ToolCall>, i: nat, j: nat)
    requires i < |calls| && j < |calls|
    ensures CallSignatures(env, calls)[i] == CallSignatures(env, calls)[j] <==>
              calls[i].name == calls[j].name
              && env.normalize(calls[i].name, calls[i].arguments) == env.normalize(calls[j].name, calls[j].arguments)
  {
  }

  /** The reason a result gives: none when the run completed, else the one of its status, with the numbers
      that decided. */
  predicate GivesItsReason(cfg: AgentConfig, r: AgentRunResult)
    requires r.steps != []
  {
    var calls := |r.steps[|r.steps| - 1].toolCalls|;
    r.terminationReason == match r.status
                           case Completed => None
                           case TokenBudgetExceeded => Some(TokenBudgetReason(r.usage.Total(), cfg.maxTotalTokens))
                           case ToolBudgetExceeded => Some(ToolBudgetReason(calls, cfg.maxToolCallsPerStep))
                           case LoopDetected => Some(LOOP_REASON)
                           case MaxSteps => Some(MaxStepsReason(cfg.maxSteps))
  }

  lemma FinishGivesItsReason(cfg: AgentConfig, env: Environment, n: nat, st: AgentState)
    ensures var it := Iterate(cfg, env, n, st);
            it.Finish? ==> it.result.steps != [] && GivesItsReason(cfg, it.result)
  {
    hide Outcome, CallSignatures, Executions;
  }

  /** Every result of every run gives its reason. */
  lemma EveryResultGivesItsReason(
      cfg: AgentConfig, env: Environment,
      userInput: string, systemPrompt: Option<string>, history: seq<ChatMessage>)
    requires cfg.maxSteps > 0
    ensures var run := Run(cfg, env, InitialState(userInput, systemPrompt, history));
            run.Done? ==> run.result.steps != [] && GivesItsReason(cfg, run.result)
  {
    hide Iterate, GivesItsReason;
    var initial := InitialState(userInput, systemPrompt, history);
    var end := RunTo(cfg, env, initial, cfg.maxSteps);
    if end.Running? {
      StepsSoFar(cfg, env, initial, cfg.maxSteps);
      OutOfStepsGivesItsReason(cfg, end.state);
    } else if end.Done? {
      var n := AgentRuns.Ending(cfg, env, initial, cfg.maxSteps);
      FinishGivesItsReason(cfg, env, n, RunTo(cfg, env, initial, n - 1).state);
    }
  }

  lemma OutOfStepsGivesItsReason(cfg: AgentConfig, st: AgentState)
    requires st.steps != []
    ensures OutOfSteps(cfg, st).steps != [] && GivesItsReason(cfg, OutOfSteps(cfg, st))
  {
  }
}
