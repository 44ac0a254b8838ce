/** One chat turn end to end: agent, runtime (`AgentChatRuntime.stream` in
    backend/app/chat/runtime.py), worker, log and store. */
module ChatTurn {
  import opened Text
  import opened AgentModels
  import opened ModelCall
  import opened AgentLoop
  import AgentRuns
  import opened Worker
  import opened Views

  function StatusName(s: Status): string {
    match s
    case Completed => "completed"
    case MaxSteps => "max_steps"
    case ToolBudgetExceeded => "tool_budget_exceeded"
    case TokenBudgetExceeded => "token_budget_exceeded"
    case LoopDetected => "loop_detected"
  }

  function Blank(kind: RuntimeKind): RuntimeEvent {
    RuntimeEvent(kind, None, None, None, None, None)
  }

  function FailureMessage(r: AgentRunResult): string {
    if Truthy(r.terminationReason) then r.terminationReason.value
    else if Truthy(r.output) then r.output.value
    else "Agent stopped with status: " + StatusName(r.status)
  }

  function Translate(e: AgentEvent): seq<RuntimeEvent> {
    match e
    case TextDelta(t) => if t != "" then [Blank(OutputKind).(text := Some(t))] else []
    case TextReset => [Blank(ResetKind)]
    case Step(s) => [Blank(StepKind).(step := Some(s))]
    case Finished(r) =>
      if r.status == Completed
      then [Blank(DoneKind).(status := Some(StatusName(r.status)), terminationReason := r.terminationReason)]
      else [Blank(ErrorKind).(message := Some(FailureMessage(r)))]
  }

  function TranslateAll(events: seq<AgentEvent>): seq<RuntimeEvent> {
    if events == [] then [] else TranslateAll(events[..|events| - 1]) + Translate(events[|events| - 1])
  }

  /** The runtime's generator: one translation per agent event, in order. */
  method RuntimeStream(events: seq<AgentEvent>) returns (out: seq<RuntimeEvent>)
    ensures out == TranslateAll(events)
  {
    out := [];
    for i := 0 to |events|
      invariant out == TranslateAll(events[..i])
    {
      assert events[..i + 1][..i] == events[..i];
      match events[i] {
        case TextDelta(t) =>
          if t != "" {
            out := out + [Blank(OutputKind).(text := Some(t))];
          }
        case TextReset => out := out + [Blank(ResetKind)];
        case Step(s) => out := out + [Blank(StepKind).(step := Some(s))];
        case Finished(r) =>
          if r.status == Completed {
            out := out + [Blank(DoneKind).(status := Some("completed"), terminationReason := r.terminationReason)];
          } else {
            out := out + [Blank(ErrorKind).(message := Some(FailureMessage(r)))];
          }
      }
    }
    assert events[..|events|] == events;
  }

  /** The worker's life when the agent's run is `run`. */
  ghost function LifeOf(run: Progress, cancelAt: Option<nat>, storeAccepts: bool, cancelledInPersist: bool): Life
    requires !run.Running?
  {
    Life(TranslateAll(run.events), if run.Raised? then Some(run.error) else None,
         cancelAt, storeAccepts, cancelledInPersist)
  }

  // The worker mirrors the screen

  lemma {:induction false} LoopToPrefix(a: seq<RuntimeEvent>, b: seq<RuntimeEvent>, n: nat)
    requires n <= |a|
    ensures LoopTo(a + b, n) == LoopTo(a, n)
  {
    if n > 0 {
      LoopToPrefix(a, b, n - 1);
    }
  }

  lemma LoopOneMore(a: seq<RuntimeEvent>, e: RuntimeEvent)
    ensures var before := LoopTo(a, |a|);
            LoopTo(a + [e], |a| + 1) == if before.stopped then before else Take(before.w, e)
  {
    LoopToPrefix(a, [e], |a|);
  }

  predicate Mirrors(w: Working, events: seq<AgentEvent>) {
    && w.text == ShownText("", events)
    && w.steps == AgentRuns.StreamedSteps(events)
    && w.status == StatusCompleted
    && !w.terminalPublished
  }

  lemma {:induction false} ShownNext(before: seq<AgentEvent>, last: AgentEvent)
    ensures ShownText("", before + [last]) == match last
                                              case TextDelta(t) => ShownText("", before) + t
                                              case TextReset => ""
                                              case _ => ShownText("", before)
  {
    assert (before + [last])[..|before|] == before;
  }

  lemma {:induction false} StreamedNext(before: seq<AgentEvent>, last: AgentEvent)
    ensures AgentRuns.StreamedSteps(before + [last])
         == if last.Step? then AgentRuns.StreamedSteps(before) + [last.step] else AgentRuns.StreamedSteps(before)
  {
    assert (before + [last])[..|before|] == before;
    assert AgentRuns.StreamedSteps(before) + [] == AgentRuns.StreamedSteps(before);
  }

  lemma {:induction false} MirrorsNext(w: Working, before: seq<AgentEvent>, last: AgentEvent)
    requires Mirrors(w, before) && !last.Finished?
    ensures if Translate(last) == [] then Mirrors(w, before + [last])
            else !Take(w, Translate(last)[0]).stopped && Mirrors(Take(w, Translate(last)[0]).w, before + [last])
  {
    hide ShownText, AgentRuns.StreamedSteps, StopReason;
    ShownNext(before, last);
    StreamedNext(before, last);
    assert ShownText("", before) + "" == ShownText("", before);
  }

  lemma {:induction false} WorkerMirrorsScreen(events: seq<AgentEvent>)
    requires AgentRuns.NoFinish(events)
    ensures var t := TranslateAll(events);
            var loop := LoopTo(t, |t|);
            !loop.stopped && Mirrors(loop.w, events)
  {
    if events == [] {
      assert TranslateAll(events) == [];
    } else {
      hide Take, ShownText, Mirrors, Translate;
      var before, last := events[..|events| - 1], events[|events| - 1];
      WorkerMirrorsScreen(before);
      var t := TranslateAll(before);
      MirrorsNext(LoopTo(t, |t|).w, before, last);
      AtMostOne(last);
      assert events == before + [last];
      if Translate(last) == [] {
        assert t + [] == t;
      } else {
        LoopOneMore(t, Translate(last)[0]);
        assert t + Translate(last) == t + [Translate(last)[0]];
      }
    }
  }

  // Whole turns

  /** The events of a finished run: an unfinished stretch, then the result. */
  lemma SplitAtFinish(events: seq<AgentEvent>, r: AgentRunResult)
    requires AgentRuns.EndsWith(events, r)
    ensures var before := events[..|events| - 1];
            && AgentRuns.NoFinish(before)
            && events == before + [Finished(r)]
            && ShownText("", events) == ShownText("", before)
            && AgentRuns.StreamedSteps(events) == AgentRuns.StreamedSteps(before)
  {
    assert events[|events| - 1] == Finished(r);
    assert AgentRuns.StreamedSteps(events[..|events| - 1]) + [] == AgentRuns.StreamedSteps(events[..|events| - 1]);
  }

  /** For every run that yields a result, in every status and streaming mode: what is stored is the
      result's output, completed exactly when the result is, with the streamed steps in order. */
  lemma StoredAnswerIsTheResult(
      cfg: AgentConfig, env: Environment,
      userInput: string, systemPrompt: Option<string>, history: seq<ChatMessage>,
      storeAccepts: bool, cancelledInPersist: bool)
    requires cfg.Valid()
    ensures var run := Run(cfg, env, InitialState(userInput, systemPrompt, history));
            run.Done? ==>
              var stored := Stored(LifeOf(run, None, storeAccepts, cancelledInPersist));
              && stored.content == OrEmpty(run.result.output)
              && stored.status == (if run.result.status == Completed then StatusCompleted else StatusError)
              && stored.steps == AgentRuns.StreamedSteps(run.events)
  {
    hide Run, AgentRuns.CleanHistory, AgentRuns.Verdict, AgentRuns.VisibleSteps, ShownText;
    var run := Run(cfg, env, InitialState(userInput, systemPrompt, history));
    if run.Done? {
      AgentRuns.EveryResultIsGood(cfg, env, userInput, systemPrompt, history);
      ResultIsStored(run.events, run.result, storeAccepts, cancelledInPersist);
    }
  }

  lemma ResultIsStored(events: seq<AgentEvent>, r: AgentRunResult, storeAccepts: bool, cancelledInPersist: bool)
    requires AgentRuns.EndsWith(events, r) && r.steps != [] && AgentRuns.AnswerShown(r, events)
    ensures var stored := Stored(Life(TranslateAll(events), None, None, storeAccepts, cancelledInPersist));
            && stored.content == OrEmpty(r.output)
            && stored.status == (if r.status == Completed then StatusCompleted else StatusError)
            && stored.steps == AgentRuns.StreamedSteps(events)
  {
    hide ShownText, TranslateAll, LoopTo, AgentRuns.StreamedSteps;
    var before := events[..|events| - 1];
    SplitAtFinish(events, r);
    WorkerMirrorsScreen(before);
    TranslateLast(events);
    var t, last := TranslateAll(before), Translate(Finished(r))[0];
    LoopOneMore(t, last);
    assert TranslateAll(events) == t + [last];
  }

  // The text on screen

  lemma SpokenIsOnScreen(events: seq<AgentEvent>)
    requires AgentRuns.NoFinish(events)
    ensures var t := TranslateAll(events); Spoken(t, |t|) == ShownText("", events)
  {
    hide TranslateAll, LoopTo, ShownText, Spoken, Fold;
    var t := TranslateAll(events);
    WorkerMirrorsScreen(events);
    DraftFollowsLoop(t, |t|);
    LoopShowsSpoken(t, |t|);
  }

  lemma {:induction false} SpokenPrefix(a: seq<RuntimeEvent>, b: seq<RuntimeEvent>, n: nat)
    requires n <= |a|
    ensures Spoken(a + b, n) == Spoken(a, n)
  {
    hide LoopTo;
    if n > 0 {
      SpokenPrefix(a, b, n - 1);
      LoopToPrefix(a, b, n - 1);
    }
  }

  lemma FinishSaysNothing(events: seq<AgentEvent>, r: AgentRunResult)
    requires AgentRuns.EndsWith(events, r)
    ensures var t := TranslateAll(events); Spoken(t, |t|) == ShownText("", events)
  {
    hide TranslateAll, LoopTo, ShownText, AgentRuns.StreamedSteps;
    var before := events[..|events| - 1];
    SplitAtFinish(events, r);
    SpokenIsOnScreen(before);
    TranslateLast(events);
    var t, last := TranslateAll(before), Translate(Finished(r))[0];
    SpokenPrefix(t, [last], |t|);
    assert TranslateAll(events) == t + [last];
  }

  /** In every run, whether it yields a result or raises, the live text at the end is exactly the text the
      agent left on screen. */
  lemma LiveTextIsOnScreen(
      cfg: AgentConfig, env: Environment,
      userInput: string, systemPrompt: Option<string>, history: seq<ChatMessage>,
      storeAccepts: bool, cancelledInPersist: bool)
    requires cfg.Valid()
    requires !Run(cfg, env, InitialState(userInput, systemPrompt, history)).Running?
    ensures var run := Run(cfg, env, InitialState(userInput, systemPrompt, history));
            var life := LifeOf(run, None, storeAccepts, cancelledInPersist);
            Fold(FRESH_DRAFT, FullLog(life)).content == ShownText("", run.events)
  {
    hide Run, Fold, FullLog, ShownText, TranslateAll, Spoken, AgentRuns.CleanHistory, AgentRuns.Accounted,
      AgentRuns.Verdict, AgentRuns.VisibleSteps, AgentRuns.AnswerShown, AgentRuns.StreamedSteps;
    var run := Run(cfg, env, InitialState(userInput, systemPrompt, history));
    LiveTextIsSpoken(LifeOf(run, None, storeAccepts, cancelledInPersist));
    if run.Done? {
      AgentRuns.EveryResultIsGood(cfg, env, userInput, systemPrompt, history);
      FinishSaysNothing(run.events, run.result);
    } else {
      RaisedRun(cfg, env, InitialState(userInput, systemPrompt, history));
      AgentRuns.RunningHasNoFinish(cfg, env, InitialState(userInput, systemPrompt, history), cfg.maxSteps);
      SpokenIsOnScreen(run.events);
    }
  }

  /** The exact condition: the live text equals the stored text if and only if the run completed.  A run
      that stopped for any other reason leaves the screen empty and a non-empty reason in the store. */
  lemma LiveTextIsStoredIffCompleted(
      cfg: AgentConfig, env: Environment,
      userInput: string, systemPrompt: Option<string>, history: seq<ChatMessage>,
      storeAccepts: bool, cancelledInPersist: bool)
    requires cfg.Valid()
    ensures var run := Run(cfg, env, InitialState(userInput, systemPrompt, history));
            run.Done? ==>
              var life := LifeOf(run, None, storeAccepts, cancelledInPersist);
              var live := Fold(FRESH_DRAFT, FullLog(life)).content;
              && (live == Stored(life).content <==> run.result.status == Completed)
              && (run.result.status != Completed ==>
                    && live == ""
                    && run.result.output.Some?
                    && Stored(life).content == run.result.output.value != "")
  {
    hide Run, Fold, FullLog, LifeOf, Stored, ShownText, AgentRuns.CleanHistory, AgentRuns.Accounted,
      AgentRuns.Verdict, AgentRuns.VisibleSteps, AgentRuns.StreamedSteps, AgentRuns.EndsWith;
    var run := Run(cfg, env, InitialState(userInput, systemPrompt, history));
    if run.Done? {
      AgentRuns.EveryResultIsGood(cfg, env, userInput, systemPrompt, history);
      StoredAnswerIsTheResult(cfg, env, userInput, systemPrompt, history, storeAccepts, cancelledInPersist);
      LiveTextIsOnScreen(cfg, env, userInput, systemPrompt, history, storeAccepts, cancelledInPersist);
    }
  }

  /** A run that raises keeps its partial text on screen and stores the exception: the two agree only when
      they are the same text. */
  lemma LiveTextAfterRaise(
      cfg: AgentConfig, env: Environment,
      userInput: string, systemPrompt: Option<string>, history: seq<ChatMessage>,
      storeAccepts: bool, cancelledInPersist: bool)
    requires cfg.Valid()
    ensures var run := Run(cfg, env, InitialState(userInput, systemPrompt, history));
            run.Raised? ==>
              var life := LifeOf(run, None, storeAccepts, cancelledInPersist);
              && Stored(life).content == run.error && Stored(life).status == StatusError
              && (Fold(FRESH_DRAFT, FullLog(life)).content == Stored(life).content
                  <==> ShownText("", run.events) == run.error)
  {
    hide Run, Fold, FullLog, ShownText, TranslateAll, LoopTo;
    var initial := InitialState(userInput, systemPrompt, history);
    var run := Run(cfg, env, initial);
    if run.Raised? {
      LiveTextIsOnScreen(cfg, env, userInput, systemPrompt, history, storeAccepts, cancelledInPersist);
      RaisedRun(cfg, env, initial);
      AgentRuns.RunningHasNoFinish(cfg, env, initial, cfg.maxSteps);
      WorkerMirrorsScreen(run.events);
    }
  }

  lemma TranslateLast(events: seq<AgentEvent>)
    requires events != []
    ensures TranslateAll(events) == TranslateAll(events[..|events| - 1]) + Translate(events[|events| - 1])
  {
  }

  // Streamed step numbers rise, so the store gives the steps back as they were streamed.

  lemma {:induction false} WithinLimitRises(cfg: AgentConfig, steps: seq<AgentStep>)
    requires Rising(steps)
    ensures Rising(AgentRuns.WithinLimit(cfg, steps))
    ensures forall s :: s in AgentRuns.WithinLimit(cfg, steps) ==> s in steps
  {
    if steps != [] {
      var before, last := steps[..|steps| - 1], steps[|steps| - 1];
      WithinLimitRises(cfg, before);
      var kept := AgentRuns.WithinLimit(cfg, before);
      forall i | 0 <= i < |kept|
        ensures kept[i].step < last.step
      {
        assert kept[i] in before;
      }
    }
  }

  lemma NumberedStepsRise(steps: seq<AgentStep>)
    requires forall i :: 0 <= i < |steps| ==> steps[i].step == i + 1
    ensures Rising(steps)
  {
  }

  lemma VisibleStepsRise(cfg: AgentConfig, r: AgentRunResult)
    requires AgentRuns.Accounted(cfg, r)
    ensures Rising(AgentRuns.VisibleSteps(cfg, r))
  {
    NumberedStepsRise(r.steps);
    var before := AgentRuns.ButLast(r.steps);
    NumberedStepsRise(before);
    WithinLimitRises(cfg, r.steps);
    WithinLimitRises(cfg, before);
    forall s | s in AgentRuns.WithinLimit(cfg, before)
      ensures s.step < AgentRuns.Last(r.steps).step
    {
      assert s in before;
    }
  }

  /** In every run, also one that raises, the streamed step numbers strictly rise. */
  lemma StreamedStepsRise(
      cfg: AgentConfig, env: Environment,
      userInput: string, systemPrompt: Option<string>, history: seq<ChatMessage>)
    requires cfg.Valid()
    ensures var run := Run(cfg, env, InitialState(userInput, systemPrompt, history));
            Rising(AgentRuns.StreamedSteps(run.events))
  {
    hide Run, Iterate, Rising, AgentRuns.StreamedSteps, AgentRuns.Accounted, AgentRuns.VisibleSteps;
    var initial := InitialState(userInput, systemPrompt, history);
    var run := Run(cfg, env, initial);
    if run.Done? {
      AgentRuns.EveryResultIsGood(cfg, env, userInput, systemPrompt, history);
      VisibleStepsRise(cfg, run.result);
    } else {
      RaisedRun(cfg, env, initial);
      AgentRuns.FreshStart(userInput, systemPrompt, history);
      var n := AgentRuns.Ending(cfg, env, initial, cfg.maxSteps);
      RaisedStepsRise(cfg, env, initial, n);
    }
  }

  lemma RaisedRun(cfg: AgentConfig, env: Environment, initial: AgentState)
    ensures !Run(cfg, env, initial).Done? ==>
      Run(cfg, env, initial) == RunTo(cfg, env, initial, cfg.maxSteps) && Run(cfg, env, initial).Raised?
  {
    hide Iterate;
  }

  lemma RaisedEvents(cfg: AgentConfig, env: Environment, n: nat, st: AgentState)
    requires Iterate(cfg, env, n, st).Raise?
    ensures Iterate(cfg, env, n, st).events == Outcome(cfg, env, n, ModelInput(cfg, env, st)).events
  {
    hide Outcome;
  }

  lemma RaisedStepsRise(cfg: AgentConfig, env: Environment, initial: AgentState, n: nat)
    requires AgentRuns.Fresh(initial) && n > 0
    requires RunTo(cfg, env, initial, n - 1).Running? && RunTo(cfg, env, initial, n).Raised?
    ensures Rising(AgentRuns.StreamedSteps(RunTo(cfg, env, initial, n).events))
  {
    hide Outcome, Iterate, AgentRuns.StreamedSteps, AgentRuns.WithinLimit, ShownText, Rising, OnlyText;
    var before := RunTo(cfg, env, initial, n - 1);
    AgentRuns.RunKeepsLedger(cfg, env, initial, n - 1);
    var input := ModelInput(cfg, env, before.state);
    ScreenAfterModelCall(cfg, env, n, input);
    RaisedEvents(cfg, env, n, before.state);
    var shown := Outcome(cfg, env, n, input).events;
    AgentRuns.OnlyTextStreamsNoStep(shown);
    AgentRuns.StreamedStepsAppend(before.events, shown);
    NumberedStepsRise(before.state.steps);
    WithinLimitRises(cfg, before.state.steps);
    var kept := AgentRuns.WithinLimit(cfg, before.state.steps);
    assert kept + [] == kept;
  }

  lemma TakeSteps(w: Working, e: AgentEvent)
    requires Translate(e) != []
    ensures Take(w, Translate(e)[0]).w.steps == w.steps + (if e.Step? then [e.step] else [])
  {
    assert w.steps + [] == w.steps;
  }

  lemma {:induction false} StoredStepsArePrefix(events: seq<AgentEvent>, n: nat)
    requires n <= |TranslateAll(events)|
    ensures var loop := LoopTo(TranslateAll(events), n);
            && loop.w.steps <= AgentRuns.StreamedSteps(events)
            && (n == |TranslateAll(events)| && !loop.stopped ==> loop.w.steps == AgentRuns.StreamedSteps(events))
  {
    hide Take, Translate;
    if events != [] {
      var before, last := events[..|events| - 1], events[|events| - 1];
      var t := TranslateAll(before);
      AtMostOne(last);
      if n <= |t| {
        StoredStepsArePrefix(before, n);
        LoopToPrefix(t, Translate(last), n);
        assert t + [] == t;
      } else {
        StoredStepsArePrefix(before, |t|);
        LoopOneMore(t, Translate(last)[0]);
        TakeSteps(LoopTo(t, |t|).w, last);
        assert TranslateAll(events) == t + [Translate(last)[0]];
      }
    }
  }

  lemma AtMostOne(e: AgentEvent)
    ensures |Translate(e)| <= 1
    ensures Translate(e) == [] ==> !e.Step?
  {
  }

  /** Whatever becomes of a turn - finished, failed, raised, cancelled at any event - the steps to be
      stored have distinct indexes and read back in the order they were streamed. */
  lemma StoreKeepsStreamOrder(
      cfg: AgentConfig, env: Environment,
      userInput: string, systemPrompt: Option<string>, history: seq<ChatMessage>,
      cancelAt: Option<nat>, storeAccepts: bool, cancelledInPersist: bool)
    requires cfg.Valid()
    requires !Run(cfg, env, InitialState(userInput, systemPrompt, history)).Running?
    ensures var run := Run(cfg, env, InitialState(userInput, systemPrompt, history));
            var call := Stored(LifeOf(run, cancelAt, storeAccepts, cancelledInPersist));
            Complete(call) == Some(MessageView(call.content, call.status, call.steps))
  {
    hide Run, LoopTo, AgentRuns.StreamedSteps, TranslateAll;
    var run := Run(cfg, env, InitialState(userInput, systemPrompt, history));
    var life := LifeOf(run, cancelAt, storeAccepts, cancelledInPersist);
    StoredStepsArePrefix(run.events, Arrivals(life));
    StreamedStepsRise(cfg, env, userInput, systemPrompt, history);
    var steps := Stored(life).steps;
    assert steps <= AgentRuns.StreamedSteps(run.events);
    RisingStepsKeepTheirOrder(steps);
  }
}
