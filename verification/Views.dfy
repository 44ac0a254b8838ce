/** The three views of one answer: what the live client folds from the log
    (`sendMessage` in frontend/src/stores/chat.ts), what the store keeps
    (`complete_assistant_message` in backend/app/chat/service.py), and the snapshot a late
    client is served (`_snapshot_stream` in backend/app/api/routes/conversations.py). */
module Views {
  import opened Text
  import opened AgentModels
  import opened Worker

  // The client

  datatype Draft = Draft(content: string, status: MessageStatus, steps: seq<AgentStep>, error: Option<string>)

  const FRESH_DRAFT := Draft("", StatusStreaming, [], None)
  const DEFAULT_ERROR := "execution failed"

  function Reduce(d: Draft, e: LogEvent): Draft {
    match e
    case Start => d
    case StepLogged(step) => d.(steps := d.steps + [step])
    case TextLogged(text) => d.(content := d.content + text)
    case ResetLogged => d.(content := "")
    case DoneLogged(_) => d.(status := StatusCompleted)
    case AbortedLogged => d.(status := StatusAborted)
    case ErrorLogged(message) => d.(status := StatusError, error := Some(message.GetOr(DEFAULT_ERROR)))
    case StreamingLogged => d
  }

  function Fold(d: Draft, log: seq<LogEvent>): Draft {
    if log == [] then d else Reduce(Fold(d, log[..|log| - 1]), log[|log| - 1])
  }

  lemma {:induction false} FoldAppend(d: Draft, a: seq<LogEvent>, b: seq<LogEvent>)
    ensures Fold(d, a + b) == Fold(Fold(d, a), b)
  {
    if b == [] {
      assert a + b == a;
    } else {
      assert (a + b)[..|a + b| - 1] == a + b[..|b| - 1];
      FoldAppend(d, a, b[..|b| - 1]);
    }
  }

  lemma FoldOne(d: Draft, log: seq<LogEvent>, e: LogEvent)
    ensures Fold(d, log + [e]) == Reduce(Fold(d, log), e)
  {
    assert (log + [e])[..|log|] == log;
  }

  // The store

  datatype MessageView = MessageView(content: string, status: MessageStatus, steps: seq<AgentStep>)

  predicate DistinctIndexes(steps: seq<AgentStep>) {
    forall i, j :: 0 <= i < j < |steps| ==> steps[i].step != steps[j].step
  }

  predicate Rising(steps: seq<AgentStep>) {
    forall i, j :: 0 <= i < j < |steps| ==> steps[i].step < steps[j].step
  }

  /** Rows come back ordered by step index. */
  function InsertByIndex(step: AgentStep, rows: seq<AgentStep>): seq<AgentStep> {
    if rows == [] then [step]
    else if rows[|rows| - 1].step <= step.step then rows + [step]
    else InsertByIndex(step, rows[..|rows| - 1]) + [rows[|rows| - 1]]
  }

  function ByIndex(steps: seq<AgentStep>): seq<AgentStep> {
    if steps == [] then [] else InsertByIndex(steps[|steps| - 1], ByIndex(steps[..|steps| - 1]))
  }

  /** Two rows of one message may not share an index; otherwise the message is replaced whole. */
  function Complete(call: StoreCall): Option<MessageView> {
    if DistinctIndexes(call.steps) then Some(MessageView(call.content, call.status, ByIndex(call.steps))) else None
  }

  lemma {:induction false} InsertedByIndex(step: AgentStep, rows: seq<AgentStep>)
    requires forall i, j :: 0 <= i < j < |rows| ==> rows[i].step <= rows[j].step
    ensures var r := InsertByIndex(step, rows);
            && multiset(r) == multiset(rows) + multiset{step}
            && |r| == |rows| + 1
            && (forall i, j :: 0 <= i < j < |r| ==> r[i].step <= r[j].step)
            && (forall i :: 0 <= i < |r| ==> r[i].step <= step.step || r[i] in rows)
  {
    if rows != [] && !(rows[|rows| - 1].step <= step.step) {
      var n := |rows| - 1;
      assert rows == rows[..n] + [rows[n]];
      InsertedByIndex(step, rows[..n]);
    }
  }

  /** A message is replaced exactly when no two of its steps share an index; then it has the text, the
      status and just these steps, ordered by index. */
  lemma {:induction false} CompletedIffIndexesDiffer(call: StoreCall)
    ensures Complete(call).None? <==>
              exists i, j :: 0 <= i < j < |call.steps| && call.steps[i].step == call.steps[j].step
    ensures Complete(call).Some? ==>
              var m := Complete(call).value;
              && m.content == call.content && m.status == call.status
              && multiset(m.steps) == multiset(call.steps)
              && forall i, j :: 0 <= i < j < |m.steps| ==> m.steps[i].step < m.steps[j].step
  {
    if Complete(call).Some? {
      SortedByIndex(call.steps);
    }
  }

  lemma {:induction false} SortedByIndex(steps: seq<AgentStep>)
    requires DistinctIndexes(steps)
    ensures multiset(ByIndex(steps)) == multiset(steps)
    ensures Rising(ByIndex(steps))
  {
    if steps != [] {
      var n := |steps| - 1;
      SortedByIndex(steps[..n]);
      var rows := ByIndex(steps[..n]);
      InsertedByIndex(steps[n], rows);
      assert steps == steps[..n] + [steps[n]];
      NoEqualIndexes(steps, ByIndex(steps));
    }
  }

  lemma NoEqualIndexes(steps: seq<AgentStep>, rows: seq<AgentStep>)
    requires DistinctIndexes(steps) && multiset(rows) == multiset(steps)
    requires forall i, j :: 0 <= i < j < |rows| ==> rows[i].step <= rows[j].step
    ensures Rising(rows)
  {
    forall i, j | 0 <= i < j < |rows|
      ensures rows[i].step != rows[j].step
    {
      NeverTwice(steps, rows, i, j);
    }
  }

  lemma NeverTwice(steps: seq<AgentStep>, rows: seq<AgentStep>, i: nat, j: nat)
    requires DistinctIndexes(steps) && multiset(rows) == multiset(steps) && i < j < |rows|
    ensures rows[i].step != rows[j].step
  {
    hide DistinctIndexes;
    OncePerIndex(steps, rows[i]);
    Counted(rows, i, j);
    assert rows[i] in multiset(steps) && rows[j] in multiset(steps);
  }

  lemma Counted(rows: seq<AgentStep>, i: nat, j: nat)
    requires i < j < |rows|
    ensures rows[i] == rows[j] ==> multiset(rows)[rows[i]] >= 2
    ensures rows[i] in multiset(rows) && rows[j] in multiset(rows)
  {
    assert rows == rows[..j] + [rows[j]] + rows[j + 1..];
    assert rows[..j][i] == rows[i];
  }

  lemma {:induction false} OncePerIndex(steps: seq<AgentStep>, x: AgentStep)
    requires DistinctIndexes(steps)
    ensures multiset(steps)[x] <= 1
    ensures x in steps ==> forall y :: y in steps && y.step == x.step ==> y == x
  {
    if steps != [] {
      var n := |steps| - 1;
      assert steps == steps[..n] + [steps[n]];
      OncePerIndex(steps[..n], x);
      if steps[n] == x {
        assert x !in steps[..n];
      }
    }
  }

  lemma {:induction false} RisingStepsKeepTheirOrder(steps: seq<AgentStep>)
    requires Rising(steps)
    ensures ByIndex(steps) == steps
  {
    if steps != [] {
      RisingStepsKeepTheirOrder(steps[..|steps| - 1]);
    }
  }

  // Live view against stored view

  /** The client's draft after reading all the worker has written so far. */
  predicate DraftFollows(w: Working) {
    var d := Fold(FRESH_DRAFT, w.log);
    && d.steps == w.steps
    && (w.status != StatusError ==> d.content == w.text)
    && d.status == if w.terminalPublished then w.status else StatusStreaming
  }

  lemma NextEventFollows(w: Working, next: Working, e: LogEvent)
    requires DraftFollows(w) && next.log == w.log + [e]
    requires Reduce(Fold(FRESH_DRAFT, w.log), e).steps == next.steps
    requires next.status != StatusError ==> Reduce(Fold(FRESH_DRAFT, w.log), e).content == next.text
    requires Reduce(Fold(FRESH_DRAFT, w.log), e).status
       == if next.terminalPublished then next.status else StatusStreaming
    ensures DraftFollows(next)
  {
    FoldOne(FRESH_DRAFT, w.log, e);
  }

  lemma TakeFollows(w: Working, e: RuntimeEvent)
    requires DraftFollows(w) && !w.terminalPublished && w.status == StatusCompleted
    ensures DraftFollows(Take(w, e).w)
  {
    hide Fold, StopReason;
    var next := Take(w, e).w;
    if next.log != w.log {
      NextEventFollows(w, next, next.log[|w.log|]);
    }
  }

  lemma {:induction false} DraftFollowsLoop(events: seq<RuntimeEvent>, n: nat)
    requires n <= |events|
    ensures DraftFollows(LoopTo(events, n).w)
  {
    hide Take, OpenLog, ClosedLog;
    if n == 0 {
      assert [Start][..0] == [];
    } else {
      DraftFollowsLoop(events, n - 1);
      LoopKeepsShape(events, n - 1);
      if !LoopTo(events, n - 1).stopped {
        TakeFollows(LoopTo(events, n - 1).w, events[n - 1]);
      }
    }
  }

  lemma DraftFollowsStream(life: Life)
    ensures DraftFollows(AfterStream(life))
  {
    hide Fold, LoopTo, OpenLog, ClosedLog;
    var n := Arrivals(life);
    DraftFollowsLoop(life.events, n);
    LoopKeepsShape(life.events, n);
    var loop, w := LoopTo(life.events, n), AfterStream(life);
    if !loop.stopped && w.log != loop.w.log {
      NextEventFollows(loop.w, w, w.log[|loop.w.log|]);
    }
  }

  /** Folding the whole log gives the stored steps, and the stored status once a terminal event has
      been written; and the stored text too, unless the run ended in an error. */
  lemma LiveViewAgreesWithStore(life: Life)
    ensures var d := Fold(FRESH_DRAFT, FullLog(life));
            && d.steps == Stored(life).steps
            && (Stored(life).status != StatusError ==> d.content == Stored(life).content)
            && d.status == if life.cancelledInPersist && !AfterStream(life).terminalPublished
                           then StatusStreaming else Stored(life).status
  {
    hide Fold, LoopTo, OpenLog, ClosedLog, AfterStream;
    DraftFollowsStream(life);
    DoneOnlyAfterPersist(life);
    var w := AfterStream(life);
    if Closing(life, w) == [] {
      assert FullLog(life) == w.log;
    } else {
      FoldOne(FRESH_DRAFT, w.log, Closing(life, w)[0]);
      assert FullLog(life) == w.log + [Closing(life, w)[0]];
    }
  }

  // The text on screen after an error

  /** What the runtime has said by its first `n` events: outputs since the last reset, up to the event
      that ends the stream. */
  function Spoken(events: seq<RuntimeEvent>, n: nat): string
    requires n <= |events|
  {
    if n == 0 then ""
    else
      var before := Spoken(events, n - 1);
      if LoopTo(events, n - 1).stopped then before else SpokenAfter(before, events[n - 1])
  }

  function SpokenAfter(before: string, e: RuntimeEvent): string {
    if e.kind == OutputKind && Truthy(e.text) then before + e.text.value
    else if e.kind == ResetKind then ""
    else before
  }

  lemma TakeShows(w: Working, e: RuntimeEvent)
    ensures Fold(FRESH_DRAFT, Take(w, e).w.log).content == SpokenAfter(Fold(FRESH_DRAFT, w.log).content, e)
  {
    hide Fold, StopReason;
    var next := Take(w, e).w;
    if next.log != w.log {
      assert next.log == w.log + [next.log[|w.log|]];
      FoldOne(FRESH_DRAFT, w.log, next.log[|w.log|]);
    }
  }

  lemma {:induction false} LoopShowsSpoken(events: seq<RuntimeEvent>, n: nat)
    requires n <= |events|
    ensures Fold(FRESH_DRAFT, LoopTo(events, n).w.log).content == Spoken(events, n)
  {
    hide Take, SpokenAfter;
    if n == 0 {
      assert [Start][..0] == [];
    } else {
      LoopShowsSpoken(events, n - 1);
      if !LoopTo(events, n - 1).stopped {
        TakeShows(LoopTo(events, n - 1).w, events[n - 1]);
      }
    }
  }

  lemma TerminalShowsNothing(log: seq<LogEvent>, e: LogEvent)
    requires IsTerminal(e)
    ensures Fold(FRESH_DRAFT, log + [e]).content == Fold(FRESH_DRAFT, log).content
  {
    FoldOne(FRESH_DRAFT, log, e);
  }

  /** For every life of the worker, the client ends up with what the runtime said, whatever is stored. */
  lemma LiveTextIsSpoken(life: Life)
    ensures Fold(FRESH_DRAFT, FullLog(life)).content == Spoken(life.events, Arrivals(life))
  {
    hide Fold, LoopTo, Spoken;
    LoopShowsSpoken(life.events, Arrivals(life));
    var loop, w := LoopTo(life.events, Arrivals(life)).w, AfterStream(life);
    if w.log != loop.log {
      TerminalShowsNothing(loop.log, w.log[|loop.log|]);
      assert w.log == loop.log + [w.log[|loop.log|]];
    }
    if Closing(life, w) == [] {
      assert FullLog(life) == w.log;
    } else {
      TerminalShowsNothing(w.log, Closing(life, w)[0]);
      assert FullLog(life) == w.log + [Closing(life, w)[0]];
    }
  }

  /** The stored text is what was said, or after an error the reason; so the two texts agree exactly when
      there was no error or the reason repeats what was said. */
  lemma TextsAgreeIff(life: Life)
    ensures var said := Spoken(life.events, Arrivals(life));
            && (Stored(life).status != StatusError ==> Stored(life).content == said)
            && (Fold(FRESH_DRAFT, FullLog(life)).content == Stored(life).content <==>
                  Stored(life).status != StatusError || Stored(life).content == said)
  {
    hide Fold, Stored, FullLog, Spoken;
    LiveTextIsSpoken(life);
    LiveViewAgreesWithStore(life);
  }

  /** They do differ: the reason replaces the text in the store while the client keeps the text it was
      streamed. */
  lemma ErrorReplacesOnlyTheStoredText()
    ensures exists life ::
      && Stored(life).status == StatusError
      && Fold(FRESH_DRAFT, FullLog(life)).status == StatusError
      && Fold(FRESH_DRAFT, FullLog(life)).content != Stored(life).content
  {
    var text := RuntimeEvent(OutputKind, None, Some("partial"), None, None, None);
    var life := Life([text], Some("boom"), None, true, false);
    assert LoopTo([text], 1) == Take(LoopTo([text], 0).w, text);
    assert AfterStream(life).text == "boom";
    var log := FullLog(life);
    assert log == [Start, TextLogged("partial"), ErrorLogged(Some("boom"))];
    assert log[..2] == [Start, TextLogged("partial")] && log[..2][..1] == [Start] && [Start][..0] == [];
    assert Fold(FRESH_DRAFT, [Start]) == FRESH_DRAFT;
    assert Fold(FRESH_DRAFT, log[..2]).content == "" + "partial";
    assert Fold(FRESH_DRAFT, log).content == "partial";
    assert "partial"[0] == 'p' && "boom"[0] == 'b';
  }

  // The snapshot

  function StepEvents(steps: seq<AgentStep>): seq<LogEvent> {
    seq(|steps|, i requires 0 <= i < |steps| => StepLogged(steps[i]))
  }

  function SnapshotTerminal(status: MessageStatus): LogEvent {
    match status
    case StatusCompleted => DoneLogged(true)
    case StatusAborted => AbortedLogged
    case StatusError => ErrorLogged(None)
    case StatusStreaming => StreamingLogged
  }

  function Snapshot(m: MessageView): seq<LogEvent> {
    [Start] + StepEvents(m.steps)
    + (if m.content != "" then [TextLogged(m.content)] else [])
    + [SnapshotTerminal(m.status)]
  }

  lemma {:induction false} FoldSteps(d: Draft, steps: seq<AgentStep>)
    ensures Fold(d, StepEvents(steps)) == d.(steps := d.steps + steps)
  {
    if steps == [] {
      assert d.steps + [] == d.steps;
    } else {
      var before := steps[..|steps| - 1];
      FoldSteps(d, before);
      FoldOne(d, StepEvents(before), StepLogged(steps[|steps| - 1]));
      assert StepEvents(steps) == StepEvents(before) + [StepLogged(steps[|steps| - 1])];
      assert d.steps + before + [steps[|steps| - 1]] == d.steps + steps;
    }
  }

  /** What a snapshot does to any draft: its steps and text are added to what is there. */
  lemma SnapshotOntoDraft(d: Draft, m: MessageView)
    ensures var after := Fold(d, Snapshot(m));
            && after.steps == d.steps + m.steps
            && after.content == d.content + m.content
            && after.status == if m.status == StatusStreaming then d.status else m.status
  {
    var text := if m.content != "" then [TextLogged(m.content)] else [];
    var terminal := SnapshotTerminal(m.status);
    FoldOne(d, [], Start);
    assert [] + [Start] == [Start];
    FoldAppend(d, [Start], StepEvents(m.steps));
    FoldSteps(d, m.steps);
    var shown := d.(steps := d.steps + m.steps);
    FoldAppend(d, [Start] + StepEvents(m.steps), text);
    if m.content != "" {
      FoldOne(shown, [], TextLogged(m.content));
      assert [] + text == text;
    } else {
      assert d.content + m.content == d.content;
    }
    FoldOne(d, [Start] + StepEvents(m.steps) + text, terminal);
  }

  /** A snapshot rebuilds the stored message exactly on a draft that has shown nothing yet, and on
      no other: a client that had already seen part of the answer gets that part twice. */
  lemma SnapshotRebuildsIffNothingShown(d: Draft, m: MessageView)
    requires m.status != StatusStreaming
    ensures var after := Fold(d, Snapshot(m));
            (after.steps == m.steps && after.content == m.content && after.status == m.status)
            <==> (d.steps == [] && d.content == "")
  {
    SnapshotOntoDraft(d, m);
    if d.steps == [] {
      assert d.steps + m.steps == m.steps;
    }
    if d.content == "" {
      assert d.content + m.content == m.content;
    }
  }
}
