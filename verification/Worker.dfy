/** The background chat task (`ChatWorker.run` in backend/app/chat/worker.py): it folds runtime
    events into the message to store and into the event log, and survives cancellation, runtime
    errors and a failing store. */
module Worker {
  import opened Text
  import opened AgentModels
  import opened Broker

  datatype MessageStatus = StatusStreaming | StatusCompleted | StatusAborted | StatusError

  /** Events as they are written to the log. */
  datatype LogEvent =
    | Start
    | StepLogged(step: AgentStep)
    | TextLogged(text: string)
    | ResetLogged
    | ErrorLogged(message: Option<string>)
    | DoneLogged(persisted: bool)
    | AbortedLogged
    | StreamingLogged

  datatype RuntimeKind = StepKind | OutputKind | ResetKind | DoneKind | ErrorKind

  datatype RuntimeEvent = RuntimeEvent(
    kind: RuntimeKind,
    step: Option<AgentStep>,
    text: Option<string>,
    message: Option<string>,
    status: Option<string>,
    terminationReason: Option<string>)

  /** One life of the task as its surroundings shape it: the runtime's events and how they end,
      the point (if any) at which the task is cancelled while waiting for the next event, whether
      the store accepts the message, and whether a cancel lands while it is being stored. */
  datatype Life = Life(
    events: seq<RuntimeEvent>,
    failure: Option<string>,
    cancelAt: Option<nat>,
    storeAccepts: bool,
    cancelledInPersist: bool)

  // The loop

  datatype Working = Working(
    text: string,
    steps: seq<AgentStep>,
    status: MessageStatus,
    terminalPublished: bool,
    log: seq<LogEvent>)

  const STARTED := Working("", [], StatusCompleted, false, [Start])

  datatype Loop = Loop(w: Working, stopped: bool)

  const DEFAULT_FAILURE := "Agent execution failed."

  function PyStr(s: Option<string>): string {
    if s.Some? then s.value else "None"
  }

  function StopReason(status: string, reason: Option<string>): string {
    if PyStr(reason) != "" then PyStr(reason) else "Agent stopped with status: " + status
  }

  function Take(w: Working, e: RuntimeEvent): Loop {
    if e.kind == StepKind && e.step.Some? then
      Loop(w.(steps := w.steps + [e.step.value], log := w.log + [StepLogged(e.step.value)]), false)
    else if e.kind == OutputKind && Truthy(e.text) then
      Loop(w.(text := w.text + e.text.value, log := w.log + [TextLogged(e.text.value)]), false)
    else if e.kind == ResetKind then
      Loop(w.(text := "", log := w.log + [ResetLogged]), false)
    else if e.kind == ErrorKind then
      Loop(w.(text := if Truthy(e.message) then e.message.value else DEFAULT_FAILURE,
              status := StatusError, terminalPublished := true, log := w.log + [ErrorLogged(e.message)]), true)
    else if e.kind == DoneKind then
      var status := if Truthy(e.status) then e.status.value else "completed";
      if status == "completed" then Loop(w, true)
      else
        var reason := StopReason(status, e.terminationReason);
        Loop(w.(text := reason, status := StatusError, terminalPublished := true,
                log := w.log + [ErrorLogged(Some(reason))]), true)
    else Loop(w, false)
  }

  function LoopTo(events: seq<RuntimeEvent>, n: nat): Loop
    requires n <= |events|
  {
    if n == 0 then Loop(STARTED, false)
    else
      var before := LoopTo(events, n - 1);
      if before.stopped then before else Take(before.w, events[n - 1])
  }

  /** How many events can arrive before the task is cancelled. */
  function Arrivals(life: Life): (n: nat)
    ensures n <= |life.events|
  {
    if life.cancelAt.Some? && life.cancelAt.value <= |life.events| then life.cancelAt.value else |life.events|
  }

  predicate Cancelled(life: Life) {
    life.cancelAt.Some? && life.cancelAt.value <= |life.events| && !LoopTo(life.events, Arrivals(life)).stopped
  }

  function AfterStream(life: Life): Working {
    var loop := LoopTo(life.events, Arrivals(life));
    var w := loop.w;
    if loop.stopped then w
    else if Cancelled(life) then
      w.(status := StatusAborted, terminalPublished := true, log := w.log + [AbortedLogged])
    else if life.failure.Some? then
      w.(text := life.failure.value, status := StatusError, terminalPublished := true,
         log := w.log + [ErrorLogged(life.failure)])
    else w
  }

  const NO_TERMINAL := "Agent task ended without a terminal event."

  /** What reaches the log after the store has been asked to keep the message. */
  function Closing(life: Life, w: Working): seq<LogEvent> {
    if life.cancelledInPersist || w.terminalPublished then []
    else if w.status == StatusCompleted then [DoneLogged(life.storeAccepts)]
    else [ErrorLogged(Some(NO_TERMINAL))]
  }

  function FullLog(life: Life): seq<LogEvent> {
    AfterStream(life).log + Closing(life, AfterStream(life))
  }

  datatype StoreCall = StoreCall(content: string, status: MessageStatus, steps: seq<AgentStep>)

  function Stored(life: Life): StoreCall {
    var w := AfterStream(life);
    StoreCall(w.text, w.status, w.steps)
  }

  // The task itself

  function Payloads<T>(events: seq<BrokerEvent<T>>): seq<T> {
    seq(|events|, i requires 0 <= i < |events| => events[i].payload)
  }

  /** The broker's own stream carries `log` on top of `before`; nothing else moved. */
  ghost predicate Wrote(before: State<LogEvent>, now: State<LogEvent>, messageId: string, log: seq<LogEvent>) {
    && Payloads(now.Stream(messageId)) == Payloads(before.Stream(messageId)) + log
    && (forall m :: m != messageId ==> now.Stream(m) == before.Stream(m))
    && AllNumbered(now)
  }

  lemma WroteOneMore(before: State<LogEvent>, now: State<LogEvent>, messageId: string, log: seq<LogEvent>, e: LogEvent)
    requires Wrote(before, now, messageId, log)
    ensures Wrote(before, now.Published(messageId, e), messageId, log + [e])
  {
    PublishKeepsNumbering(now, messageId, e);
    var stream, more := now.Stream(messageId), now.Published(messageId, e).Stream(messageId);
    assert Payloads(more) == Payloads(stream) + [e];
    assert Payloads(before.Stream(messageId)) + log + [e] == Payloads(before.Stream(messageId)) + (log + [e]);
  }

  method PublishLogged(
      broker: InMemoryEventBroker<LogEvent>, messageId: string, e: LogEvent,
      ghost before: State<LogEvent>, ghost log: seq<LogEvent>)
    requires Wrote(before, broker.View(), messageId, log)
    modifies broker
    ensures Wrote(before, broker.View(), messageId, log + [e])
  {
    WroteOneMore(before, broker.View(), messageId, log, e);
    var _ := broker.Publish(messageId, e);
  }

  method RunTask(broker: InMemoryEventBroker<LogEvent>, messageId: string, life: Life) returns (call: StoreCall)
    requires AllNumbered(broker.View())
    modifies broker
    ensures Wrote(old(broker.View()), broker.View(), messageId, FullLog(life))
    ensures call == Stored(life)
  {
    hide AllNumbered, Payloads;
    ghost var before := broker.View();
    WroteNothing(before, messageId);
    var accumulatedText, steps, messageStatus, terminalPublished := "", [], StatusCompleted, false;
    PublishLogged(broker, messageId, Start, before, []);
    ghost var log := [Start];
    assert [] + [Start] == log;

    var n := Arrivals(life);
    var i, stopped := 0, false;
    while i < n && !stopped
      invariant 0 <= i <= n
      invariant LoopTo(life.events, i)
             == Loop(Working(accumulatedText, steps, messageStatus, terminalPublished, log), stopped)
      invariant Wrote(before, broker.View(), messageId, log)
    {
      var event := life.events[i];
      if event.kind == StepKind && event.step.Some? {
        steps := steps + [event.step.value];
        PublishLogged(broker, messageId, StepLogged(event.step.value), before, log);
        log := log + [StepLogged(event.step.value)];
      } else if event.kind == OutputKind && Truthy(event.text) {
        accumulatedText := accumulatedText + event.text.value;
        PublishLogged(broker, messageId, TextLogged(event.text.value), before, log);
        log := log + [TextLogged(event.text.value)];
      } else if event.kind == ResetKind {
        accumulatedText := "";
        PublishLogged(broker, messageId, ResetLogged, before, log);
        log := log + [ResetLogged];
      } else if event.kind == ErrorKind {
        messageStatus := StatusError;
        accumulatedText := if Truthy(event.message) then event.message.value else DEFAULT_FAILURE;
        PublishLogged(broker, messageId, ErrorLogged(event.message), before, log);
        log := log + [ErrorLogged(event.message)];
        terminalPublished, stopped := true, true;
      } else if event.kind == DoneKind {
        var status := if Truthy(event.status) then event.status.value else "completed";
        if status != "completed" {
          messageStatus := StatusError;
          accumulatedText := StopReason(status, event.terminationReason);
          PublishLogged(broker, messageId, ErrorLogged(Some(accumulatedText)), before, log);
          log := log + [ErrorLogged(Some(accumulatedText))];
          terminalPublished := true;
        }
        stopped := true;
      }
      i := i + 1;
    }
    if stopped {
      StoppedStays(life.events, i, n);
    } else if life.cancelAt.Some? && life.cancelAt.value <= |life.events| {
      messageStatus := StatusAborted;
      PublishLogged(broker, messageId, AbortedLogged, before, log);
      log := log + [AbortedLogged];
      terminalPublished := true;
    } else if life.failure.Some? {
      messageStatus := StatusError;
      accumulatedText := life.failure.value;
      PublishLogged(broker, messageId, ErrorLogged(life.failure), before, log);
      log := log + [ErrorLogged(life.failure)];
      terminalPublished := true;
    }
    assert AfterStream(life) == Working(accumulatedText, steps, messageStatus, terminalPublished, log);

    call := StoreCall(accumulatedText, messageStatus, steps);
    var persisted := life.storeAccepts;
    assert log + [] == log;
    if life.cancelledInPersist {
      return;
    }
    if !terminalPublished {
      if messageStatus == StatusCompleted {
        PublishLogged(broker, messageId, DoneLogged(persisted), before, log);
      } else {
        PublishLogged(broker, messageId, ErrorLogged(Some(NO_TERMINAL)), before, log);
      }
    }
  }

  lemma WroteNothing(before: State<LogEvent>, messageId: string)
    requires AllNumbered(before)
    ensures Wrote(before, before, messageId, [])
  {
    assert Payloads(before.Stream(messageId)) + [] == Payloads(before.Stream(messageId));
  }

  lemma {:induction false} StoppedStays(events: seq<RuntimeEvent>, i: nat, n: nat)
    requires i <= n <= |events| && LoopTo(events, i).stopped
    ensures LoopTo(events, n) == LoopTo(events, i)
    decreases n
  {
    hide Take;
    if i < n {
      StoppedStays(events, i, n - 1);
    }
  }

  // The shape of every log

  predicate IsTerminal(e: LogEvent) {
    e.ErrorLogged? || e.DoneLogged? || e.AbortedLogged?
  }

  predicate IsContent(e: LogEvent) {
    e.StepLogged? || e.TextLogged? || e.ResetLogged?
  }

  /** `start`, then steps, texts and resets. */
  predicate OpenLog(log: seq<LogEvent>) {
    && log != [] && log[0] == Start
    && forall i :: 1 <= i < |log| ==> IsContent(log[i])
  }

  /** An open log followed by one terminal event. */
  predicate ClosedLog(log: seq<LogEvent>) {
    log != [] && OpenLog(log[..|log| - 1]) && IsTerminal(log[|log| - 1])
  }

  /** The terminal event that announces a status. */
  predicate Announces(e: LogEvent, status: MessageStatus) {
    match status
    case StatusCompleted => e.DoneLogged?
    case StatusError => e.ErrorLogged?
    case StatusAborted => e.AbortedLogged?
    case StatusStreaming => false
  }

  predicate LoopShape(loop: Loop) {
    var w := loop.w;
    if w.terminalPublished
    then loop.stopped && w.status == StatusError && ClosedLog(w.log) && w.log[|w.log| - 1].ErrorLogged?
    else w.status == StatusCompleted && OpenLog(w.log)
  }

  lemma {:induction false} LoopKeepsShape(events: seq<RuntimeEvent>, n: nat)
    requires n <= |events|
    ensures LoopShape(LoopTo(events, n))
  {
    if n > 0 {
      LoopKeepsShape(events, n - 1);
      var before := LoopTo(events, n - 1);
      if !before.stopped {
        var w, next := before.w, Take(before.w, events[n - 1]).w;
        assert next.log == w.log || next.log[..|next.log| - 1] == w.log;
      }
    }
  }

  /** Every log is `start`, then steps, texts and resets, then at most one terminal event, which is
      last and announces the stored status.  It is missing exactly when a cancel lands during the
      final persist and nothing terminal was published before. */
  lemma LogShape(life: Life)
    ensures var log := FullLog(life);
            if life.cancelledInPersist && !AfterStream(life).terminalPublished
            then OpenLog(log) && Stored(life).status == StatusCompleted
            else ClosedLog(log) && Announces(log[|log| - 1], Stored(life).status)
  {
    LoopKeepsShape(life.events, Arrivals(life));
    var w, log := AfterStream(life), FullLog(life);
    var loop := LoopTo(life.events, Arrivals(life)).w;
    assert w.log == loop.log || w.log[..|w.log| - 1] == loop.log;
    assert log == w.log || log[..|log| - 1] == w.log;
  }

  /** `done` is never written before the store has been asked, and the branch that reports a task
      without a terminal event is never taken. */
  lemma DoneOnlyAfterPersist(life: Life)
    ensures forall e :: e in AfterStream(life).log ==> !e.DoneLogged?
    ensures Closing(life, AfterStream(life)) != [ErrorLogged(Some(NO_TERMINAL))]
  {
    LoopKeepsShape(life.events, Arrivals(life));
    hide LoopTo;
    var w := AfterStream(life);
    var loop := LoopTo(life.events, Arrivals(life)).w;
    assert w.log == loop.log || (w.log[..|w.log| - 1] == loop.log && !w.log[|w.log| - 1].DoneLogged?);
    forall e | e in w.log
      ensures !e.DoneLogged?
    {
      var i :| 0 <= i < |w.log| && w.log[i] == e;
      if i < |loop.log| {
        assert w.log[i] == loop.log[i];
      }
    }
  }

  // How a task ends

  predicate Stops(e: RuntimeEvent) {
    e.kind == ErrorKind || e.kind == DoneKind
  }

  predicate IsFirstStop(events: seq<RuntimeEvent>, n: nat, i: nat) {
    i < n <= |events| && Stops(events[i]) && forall j :: 0 <= j < i ==> !Stops(events[j])
  }

  lemma {:induction false} GoesOnWithoutStop(events: seq<RuntimeEvent>, n: nat)
    requires n <= |events| && forall i :: 0 <= i < n ==> !Stops(events[i])
    ensures !LoopTo(events, n).stopped && LoopTo(events, n).w.status == StatusCompleted
    ensures !LoopTo(events, n).w.terminalPublished
  {
    if n > 0 {
      GoesOnWithoutStop(events, n - 1);
    }
  }

  lemma FirstStopDecides(events: seq<RuntimeEvent>, n: nat, i: nat)
    requires IsFirstStop(events, n, i)
    ensures LoopTo(events, n) == Take(LoopTo(events, i).w, events[i]) && LoopTo(events, n).stopped
    ensures LoopTo(events, i).w.status == StatusCompleted
  {
    GoesOnWithoutStop(events, i);
    StoppedStays(events, i + 1, n);
  }

  /** A done event that names no other status than completed. */
  predicate EndsWell(e: RuntimeEvent) {
    e.kind == DoneKind && (!Truthy(e.status) || e.status == Some("completed"))
  }

  /** What is stored in place of the answer; a missing reason reads as Python prints it. */
  predicate ExplainsStop(text: string, e: RuntimeEvent) {
    if e.kind == ErrorKind then text == if Truthy(e.message) then e.message.value else "Agent execution failed."
    else if Truthy(e.terminationReason) then text == e.terminationReason.value
    else if e.terminationReason.None? then text == "None"
    else e.status.Some? && text == "Agent stopped with status: " + e.status.value
  }

  /** The status stored, in every life of the task.  The first error or done event that arrives decides: a
      done event completes the message unless it names another status, anything else makes it an error
      explained by that event.  Without one it is aborted if it was cancelled, an error with the
      exception's text if the runtime raised, and completed otherwise. */
  lemma HowItEnds(life: Life)
    ensures var cancelled := life.cancelAt.Some? && life.cancelAt.value <= |life.events|;
            var arrived := if cancelled then life.cancelAt.value else |life.events|;
            var stored := Stored(life);
            && (forall i: nat :: IsFirstStop(life.events, arrived, i) ==>
                  if EndsWell(life.events[i]) then stored.status == StatusCompleted
                  else stored.status == StatusError && ExplainsStop(stored.content, life.events[i]))
            && ((forall i :: 0 <= i < arrived ==> !Stops(life.events[i])) ==>
                  if cancelled then stored.status == StatusAborted
                  else if life.failure.Some? then
                    stored.status == StatusError && stored.content == life.failure.value
                  else stored.status == StatusCompleted)
  {
    hide LoopTo, Take, EndsWell, ExplainsStop;
    var n := Arrivals(life);
    forall i: nat | IsFirstStop(life.events, n, i)
      ensures if EndsWell(life.events[i]) then Stored(life).status == StatusCompleted
              else Stored(life).status == StatusError && ExplainsStop(Stored(life).content, life.events[i])
    {
      FirstStopDecides(life.events, n, i);
      StopExplained(LoopTo(life.events, i).w, life.events[i]);
    }
    if forall i :: 0 <= i < n ==> !Stops(life.events[i]) {
      GoesOnWithoutStop(life.events, n);
    }
  }

  lemma StopExplained(w: Working, e: RuntimeEvent)
    requires Stops(e) && w.status == StatusCompleted
    ensures var after := Take(w, e).w;
            if EndsWell(e) then after.status == StatusCompleted
            else after.status == StatusError && ExplainsStop(after.text, e)
  {
  }

  /** The done event says whether the store kept the message. */
  lemma DoneTellsWhetherStored(life: Life, e: LogEvent)
    requires e in FullLog(life) && e.DoneLogged?
    ensures e.persisted <==> life.storeAccepts
  {
    hide AfterStream;
    DoneOnlyAfterPersist(life);
  }

  /** An error event gives the stored reason, or is silent where the default is stored. */
  predicate TellsReason(e: LogEvent, content: string) {
    e.ErrorLogged? ==>
      e.message == Some(content) || (!Truthy(e.message) && content == "Agent execution failed.")
  }

  /** `e` may stand in the log of a worker that is at `w`. */
  predicate Fits(e: LogEvent, w: Working) {
    TellsReason(e, w.text) && e != TextLogged("") && (!w.terminalPublished ==> !e.ErrorLogged?)
  }

  predicate AllFit(w: Working) {
    forall i :: 0 <= i < |w.log| ==> Fits(w.log[i], w)
  }

  /** Adding an event to a log, and changing the text when no error has been logged. */
  lemma StillFit(w: Working, next: Working)
    requires AllFit(w) && !w.terminalPublished
    requires next.log == w.log
             || (|next.log| == |w.log| + 1 && next.log[..|w.log|] == w.log && Fits(next.log[|w.log|], next))
    ensures AllFit(next)
  {
    forall i | 0 <= i < |next.log|
      ensures Fits(next.log[i], next)
    {
      if i < |w.log| {
        assert Fits(w.log[i], w);
      }
    }
  }

  lemma {:induction false} LoopLogsReasons(events: seq<RuntimeEvent>, n: nat)
    requires n <= |events|
    ensures AllFit(LoopTo(events, n).w)
  {
    if n > 0 {
      LoopLogsReasons(events, n - 1);
      LoopKeepsShape(events, n - 1);
      var before := LoopTo(events, n - 1);
      if !before.stopped {
        hide AllFit;
        StillFit(before.w, Take(before.w, events[n - 1]).w);
      }
    }
  }

  lemma AfterStreamLogsReasons(life: Life)
    ensures AllFit(AfterStream(life))
  {
    var loop := LoopTo(life.events, Arrivals(life));
    LoopLogsReasons(life.events, Arrivals(life));
    LoopKeepsShape(life.events, Arrivals(life));
    hide LoopTo, AllFit;
    if !loop.stopped {
      StillFit(loop.w, AfterStream(life));
    }
  }

  /** Whoever listens is told the reason that is stored, and no text event is empty. */
  lemma ErrorTellsTheReason(life: Life, e: LogEvent)
    requires e in FullLog(life)
    ensures TellsReason(e, Stored(life).content)
    ensures e.TextLogged? ==> e.text != ""
  {
    AfterStreamLogsReasons(life);
    DoneOnlyAfterPersist(life);
    hide AfterStream;
    var w := AfterStream(life);
    if e in w.log {
      var i :| 0 <= i < |w.log| && w.log[i] == e;
      assert Fits(w.log[i], w);
    }
  }
}
