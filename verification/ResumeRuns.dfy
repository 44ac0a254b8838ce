/** What the resumable stream promises over whole runs, and the exact limits of the promise. */
module ResumeRuns {
  import opened Text
  import opened AgentModels
  import opened Broker
  import opened Sse
  import opened SseRoundTrip
  import opened Worker
  import opened Views
  import opened Resume

  predicate TerminalSeen(s: System) {
    s.seen != [] && IsTerminalName(s.seen[|s.seen| - 1].event)
  }

  /** What the client's reducer has made of everything the callback saw. */
  function DraftOf(s: System): Draft {
    FoldSeen(FRESH_DRAFT, s.seen)
  }

  function OwnPayloads(s: System, me: string): seq<LogEvent> {
    Payloads(s.broker.Stream(me))
  }

  /** For every interleaving of publishes to any streams and every sequence of connections cut after
      any character: as long as no snapshot had to be served, the client has seen its own log from
      the start, each event once and in order, and its draft is the fold of just that. */
  lemma SeenOnceInOrder(broker: State<LogEvent>, codec: Codec, me: string, steps: seq<Step>)
    requires GoodCodec(codec.print_, codec.parse) && AllNumbered(broker)
    ensures var s := StateAfter(Init(broker), codec, me, steps);
            !s.snapshotServed ==>
              && |s.seen| <= |s.broker.Stream(me)|
              && s.seen == AsEvents(s.broker.Stream(me)[..|s.seen|])
              && DraftOf(s) == Fold(FRESH_DRAFT, OwnPayloads(s, me)[..|s.seen|])
  {
    hide GoodCodec, AllNumbered, ServerOk, ClientOk, StateAfter;
    EveryRunKeepsInvariant(broker, codec, me, steps);
    var s := StateAfter(Init(broker), codec, me, steps);
    if !s.snapshotServed {
      FoldSeenIsFold(FRESH_DRAFT, s.broker.Stream(me)[..|s.seen|]);
      assert Payloads(s.broker.Stream(me)[..|s.seen|]) == OwnPayloads(s, me)[..|s.seen|];
    }
  }

  // The worker's discipline

  /** The log shape the worker keeps: nothing follows a terminal event, and the task ends only after
      writing one; and the client stops reconnecting once it has seen one. */
  predicate Disciplined(s: System, me: string, step: Step) {
    match step
    case Publish(m, _) => m == me ==> !LogClosed(s.broker.Stream(me))
    case TaskEnds => LogClosed(s.broker.Stream(me))
    case Connect(_) => !TerminalSeen(s)
    case _ => true
  }

  predicate LogClosed(log: seq<BrokerEvent<LogEvent>>) {
    log != [] && IsTerminal(log[|log| - 1].payload)
  }

  predicate TerminalOnlyLast(log: seq<BrokerEvent<LogEvent>>) {
    forall i :: 0 <= i < |log| - 1 ==> !IsTerminal(log[i].payload)
  }

  ghost predicate DisciplinedRun(s: System, codec: Codec, me: string, steps: seq<Step>) {
    forall i :: 0 <= i < |steps| ==> Disciplined(StateAfter(s, codec, me, steps[..i]), me, steps[i])
  }

  ghost predicate Orderly(s: System, codec: Codec, me: string) {
    && !s.snapshotServed
    && Invariant(s, codec, me)
    && TerminalOnlyLast(s.broker.Stream(me))
    && (!s.running ==> LogClosed(s.broker.Stream(me)))
  }

  lemma OrderlyServesNoSnapshot(s: System, codec: Codec, me: string)
    requires Orderly(s, codec, me) && !TerminalSeen(s)
    ensures !ServesSnapshot(s, me)
  {
    hide AllNumbered, ServerOk, ClientOk, ServesSnapshot;
    SnapshotServedIff(s, codec, me);
    var log := s.broker.Stream(me);
    if s.seen != [] {
      var n := |s.seen| - 1;
      assert s.seen[n] == AsEvents(log[..n + 1])[n] == AsEvent(log[n]);
      ReactIsReduce(FRESH_DRAFT, log[n].payload);
    }
  }

  lemma {:induction false} PublishKeepsTerminalLast(s: System, me: string, m: string, e: LogEvent)
    requires TerminalOnlyLast(s.broker.Stream(me)) && (m == me ==> !LogClosed(s.broker.Stream(me)))
    requires AllNumbered(s.broker)
    ensures TerminalOnlyLast(s.broker.Published(m, e).Stream(me))
    ensures m != me ==> s.broker.Published(m, e).Stream(me) == s.broker.Stream(me)
  {
    hide AllNumbered;
    PublishKeepsNumbering(s.broker, m, e);
  }

  lemma StepStaysOrderly(s: System, codec: Codec, me: string, step: Step)
    requires GoodCodec(codec.print_, codec.parse)
    requires Orderly(s, codec, me) && Disciplined(s, me, step)
    requires step.Publish? && step.messageId == me ==> s.running
    ensures Orderly(Next(s, codec, me, step), codec, me)
  {
    hide GoodCodec, AllNumbered, SeenIsPrefix, ServerOk, ClientOk, Served, Connected, Arrived, ServesSnapshot;
    SnapshotFlagStays(s, codec, me, step);
    if step.Connect? {
      OrderlyServesNoSnapshot(s, codec, me);
    }
    NextKeepsInvariant(s, codec, me, step);
    LogOnlyGrowsByPublish(s, codec, me, step);
    match step {
      case Publish(m, e) => PublishKeepsTerminalLast(s, me, m, e);
      case _ =>
    }
  }

  lemma LogOnlyGrowsByPublish(s: System, codec: Codec, me: string, step: Step)
    ensures !step.Publish? ==> Next(s, codec, me, step).broker == s.broker
    ensures Next(s, codec, me, step).running == (s.running && !step.TaskEnds?)
  {
  }

  /** With a worker that keeps its log shape, a client that has not seen the terminal event is never
      served a snapshot, so it always reads its own log. */
  lemma {:induction false} NoSnapshotBeforeTerminal(broker: State<LogEvent>, codec: Codec, me: string, steps: seq<Step>)
    requires GoodCodec(codec.print_, codec.parse) && AllNumbered(broker) && broker.Stream(me) == []
    requires DisciplinedRun(Init(broker), codec, me, steps)
    ensures Orderly(StateAfter(Init(broker), codec, me, steps), codec, me)
  {
    hide GoodCodec, AllNumbered, Invariant, Next;
    if steps == [] {
      InitInvariant(broker, codec, me);
    } else {
      var before, step := steps[..|steps| - 1], steps[|steps| - 1];
      forall i | 0 <= i < |before|
        ensures Disciplined(StateAfter(Init(broker), codec, me, before[..i]), me, before[i])
      {
        assert before[..i] == steps[..i] && before[i] == steps[i];
      }
      NoSnapshotBeforeTerminal(broker, codec, me, before);
      var s := StateAfter(Init(broker), codec, me, before);
      assert steps[..|before|] == before;
      assert Disciplined(s, me, step);
      StepStaysOrderly(s, codec, me, step);
    }
  }

  /** Once the terminal event arrives, the whole log has been seen; with the worker's own log, the
      draft then agrees with what was stored. */
  lemma WholeLogOnceTerminalSeen(s: System, codec: Codec, me: string)
    requires Orderly(s, codec, me) && TerminalSeen(s)
    ensures s.seen == AsEvents(s.broker.Stream(me))
    ensures DraftOf(s) == Fold(FRESH_DRAFT, OwnPayloads(s, me))
  {
    hide AllNumbered, ServerOk, ClientOk;
    var log, n := s.broker.Stream(me), |s.seen|;
    assert s.seen[n - 1] == AsEvents(log[..n])[n - 1] == AsEvent(log[n - 1]);
    ReactIsReduce(FRESH_DRAFT, log[n - 1].payload);
    assert log[..n] == log;
    FoldSeenIsFold(FRESH_DRAFT, log);
  }

  lemma DraftAgreesWithStore(s: System, codec: Codec, me: string, life: Life)
    requires Orderly(s, codec, me) && TerminalSeen(s)
    requires OwnPayloads(s, me) == FullLog(life)
    ensures var d := DraftOf(s);
            && d.steps == Stored(life).steps
            && d.status == Stored(life).status
            && (Stored(life).status != StatusError ==> d.content == Stored(life).content)
  {
    hide Fold, AllNumbered, ServerOk, ClientOk, AfterStream, Stored;
    WholeLogOnceTerminalSeen(s, codec, me);
    LiveViewAgreesWithStore(life);
    TerminalMeansClosed(s, codec, me, life);
  }

  lemma TerminalMeansClosed(s: System, codec: Codec, me: string, life: Life)
    requires Orderly(s, codec, me) && TerminalSeen(s)
    requires OwnPayloads(s, me) == FullLog(life)
    ensures !(life.cancelledInPersist && !AfterStream(life).terminalPublished)
  {
    hide AllNumbered, ServerOk, ClientOk, AfterStream, FullLog, Stored;
    LogShape(life);
    var log, n := s.broker.Stream(me), |s.seen|;
    WholeLogOnceTerminalSeen(s, codec, me);
    assert s.seen[n - 1] == AsEvent(log[n - 1]);
    ReactIsReduce(FRESH_DRAFT, log[n - 1].payload);
    assert OwnPayloads(s, me)[n - 1] == log[n - 1].payload;
  }

  // Where the promise ends

  /** What the client makes of a snapshot's frames, read by name, is what the snapshot's events say. */
  lemma {:induction false} SnapshotFoldsByName(d: Draft, events: seq<LogEvent>)
    requires forall i :: 0 <= i < |events| && events[i].ErrorLogged? ==> events[i].message.None?
    ensures var items := seq(|events|, i requires 0 <= i < |events| => SnapshotItem(events[i]));
            FoldSeen(d, EventsOf(items)) == Fold(d, events)
  {
    hide React, Reduce, EventName, PayloadOf, SnapshotId;
    var items := seq(|events|, i requires 0 <= i < |events| => SnapshotItem(events[i]));
    if events != [] {
      var n := |events| - 1;
      SnapshotFoldsByName(d, events[..n]);
      assert items[..n] == seq(n, i requires 0 <= i < n => SnapshotItem(events[..n][i]));
      var more := EventsOf(items[..n]);
      assert EventsOf(items)[..|more|] == more;
      NameDecides(FoldSeen(d, more), events[n]);
    }
  }

  /** For a snapshot's terminal events the name alone says everything. */
  lemma NameDecides(d: Draft, e: LogEvent)
    requires e.ErrorLogged? ==> e.message.None?
    ensures React(d, EventName(e), SnapshotPayload(e)) == Reduce(d, e)
  {
    ReactIsReduce(d, e);
    assert React(d, EventName(e), SnapshotPayload(e)) == React(d, EventName(e), PayloadOf(e)) by {
      hide Reduce;
      assert e.Start? ==> EventName(e)[1] == 't' && EventName(e)[2] == 'a';
    }
  }

  lemma SnapshotShown(d: Draft, view: MessageView)
    ensures var after := FoldSeen(d, EventsOf(SnapshotItems(view)));
            && after.content == d.content + view.content
            && after.steps == d.steps + view.steps
            && after.status == if view.status == StatusStreaming then d.status else view.status
  {
    hide FoldSeen, EventsOf, Fold, SnapshotItem;
    SnapshotFoldsByName(d, Snapshot(view));
    SnapshotOntoDraft(d, view);
  }

  /** A client that reconnects after it has seen everything of an ended task is served the snapshot,
      and whatever the snapshot holds is added to what its draft shows. */
  lemma ReconnectAfterTheEndAdds(s: System, codec: Codec, me: string, view: MessageView)
    requires Invariant(s, codec, me) && |s.seen| == |s.broker.Stream(me)| && !s.running
    ensures Connected(s, me, view).snapshotServed
    ensures var after := FoldSeen(DraftOf(s), EventsOf(SnapshotItems(view)));
            && after.content == DraftOf(s).content + view.content
            && after.steps == DraftOf(s).steps + view.steps
            && after.status == if view.status == StatusStreaming then DraftOf(s).status else view.status
  {
    hide AllNumbered, ServerOk, ClientOk, FoldSeen, EventsOf, Snapshot;
    SnapshotServedIff(s, codec, me);
    RequestCursorIsLastSeen(s, codec, me);
    SnapshotShown(DraftOf(s), view);
  }

  /** So once the end has been seen and the message stored, a reconnect shows every step twice, and the
      stored text behind the text already there: the same text twice unless the turn failed. */
  lemma ReconnectAfterTheEndDoubles(s: System, codec: Codec, me: string, life: Life, view: MessageView)
    requires Orderly(s, codec, me) && TerminalSeen(s) && !s.running
    requires OwnPayloads(s, me) == FullLog(life)
    requires Rising(Stored(life).steps) && Complete(Stored(life)) == Some(view)
    ensures Connected(s, me, view).snapshotServed
    ensures var after, stored := FoldSeen(DraftOf(s), EventsOf(SnapshotItems(view))), Stored(life);
            && after.steps == stored.steps + stored.steps
            && after.content == DraftOf(s).content + stored.content
            && (stored.status != StatusError ==> after.content == stored.content + stored.content)
  {
    hide Invariant, FullLog, Stored, FoldSeen, EventsOf, SnapshotItems, Connected, DraftOf, ByIndex;
    DraftAgreesWithStore(s, codec, me, life);
    WholeLogOnceTerminalSeen(s, codec, me);
    RisingStepsKeepTheirOrder(Stored(life).steps);
    ReconnectAfterTheEndAdds(s, codec, me, view);
  }

  lemma {:induction false} LettersAreNoCursor(s: string, tail: string)
    requires s != "" && !IsDigit(s[0]) && s[0] != '-'
    ensures SequenceOf(s + tail) == None
  {
    assert (s + tail)[0] == s[0];
    assert BeforeDash(s + tail)[0] == s[0];
  }

  /** Snapshot ids are no cursors: a client cut in the middle of a snapshot can not resume, every
      further request with that id fails. */
  lemma SnapshotCannotBeResumed(s: System, me: string, view: MessageView, i: nat, retry: MessageView)
    requires i < |SnapshotItems(view)|
    requires s.lastEventId == SnapshotItems(view)[i].id
    ensures Connected(s, me, retry).conn == None
  {
    var id := s.lastEventId.value;
    var e := Snapshot(view)[i];
    var tail := if e.StepLogged? then Decimal(e.step.step) else EventName(e);
    if e.StepLogged? {
      assert "snapshot-step-" + tail == "snapshot-" + ("step-" + tail);
      LettersAreNoCursor("snapshot-", "step-" + tail);
    } else {
      LettersAreNoCursor("snapshot-", tail);
    }
  }

  // A log that has no more to give

  function Pings(k: nat): seq<Item<Payload>> {
    if k == 0 then [] else Pings(k - 1) + [Ping]
  }

  /** A connection that has been given the whole log, and no terminal event with it, stays open and
      carries only heartbeats. */
  lemma {:induction false} OnlyPingsAtTheEnd(c: Conn, log: seq<BrokerEvent<LogEvent>>, counter: nat, k: nat)
    requires ServerOk(c, log) && Numbered(log, counter) && !c.closed && c.pending == [] && Position(c) == |log|
    ensures ServeTimes(c, log, k) == c.(written := c.written + Pings(k))
    ensures EventsOf(c.written + Pings(k)) == EventsOf(c.written)
  {
    hide AsEvents, EventName, Served, Numbered, ReadResult;
    if k == 0 {
      assert c.written + [] == c.written;
    } else {
      OnlyPingsAtTheEnd(c, log, counter, k - 1);
      ServeTimesSucc(c, log, k - 1);
      assert c.written + Pings(k) == (c.written + Pings(k - 1)) + [Ping];
      EventsOfOneMore(c.written + Pings(k - 1), Ping);
      NextIsAPing(c, log, counter, c.written + Pings(k - 1));
    }
  }

  lemma NextIsAPing(c: Conn, log: seq<BrokerEvent<LogEvent>>, counter: nat, written: seq<Item<Payload>>)
    requires ServerOk(c, log) && Numbered(log, counter) && !c.closed && c.pending == [] && Position(c) == |log|
    ensures Served(c.(written := written), log) == c.(written := written + [Ping])
  {
    hide AsEvents, EventName, Numbered;
    ReadResumes(log, counter, |log|, READ_COUNT);
  }

  // A waiting client can always catch up

  function ServeTimes(c: Conn, log: seq<BrokerEvent<LogEvent>>, k: nat): Conn
    decreases k
  {
    if k == 0 then c else ServeTimes(Served(c, log), log, k - 1)
  }

  lemma ServedPosition(c: Conn, log: seq<BrokerEvent<LogEvent>>, counter: nat)
    requires ServerOk(c, log) && Numbered(log, counter) && TerminalOnlyLast(log)
    requires !c.closed && Position(c) < |log|
    ensures var next := Served(c, log);
            && ServerOk(next, log)
            && next.from == c.from
            && (c.pending == [] ==> Position(next) == Position(c) && next.pending != [] && !next.closed)
            && (c.pending != [] ==> Position(next) == Position(c) + 1 && (Position(next) < |log| ==> !next.closed))
  {
    hide AsEvents, GoodItem, EventName, Numbered;
    var next := Served(c, log);
    if c.pending == [] {
      ServeBatchKeepsServer(c, log, counter);
      ReadResumes(log, counter, Position(c), READ_COUNT);
    } else {
      ServeEventKeepsServer(c, log, counter);
      EventsOfOneMore(c.written, ItemOf(c.pending[0]));
      assert c.pending[0] == log[Position(c)];
    }
  }

  lemma {:induction false} ServeReachesEnd(c: Conn, log: seq<BrokerEvent<LogEvent>>, counter: nat) returns (k: nat)
    requires ServerOk(c, log) && Numbered(log, counter) && TerminalOnlyLast(log)
    requires !c.closed || Position(c) == |log|
    ensures var last := ServeTimes(c, log, k); ServerOk(last, log) && Position(last) == |log| && last.from == c.from
    decreases |log| - Position(c), if c.pending == [] then 1 else 0
  {
    hide ServerOk, Numbered, Served;
    PositionBound(c, log);
    if Position(c) == |log| {
      k := 0;
    } else {
      ServedPosition(c, log, counter);
      PositionBound(Served(c, log), log);
      var more := ServeReachesEnd(Served(c, log), log, counter);
      k := more + 1;
    }
  }

  lemma PositionBound(c: Conn, log: seq<BrokerEvent<LogEvent>>)
    requires ServerOk(c, log)
    ensures c.from <= Position(c) <= |log|
  {
  }

  function Serves(k: nat): seq<Step> {
    if k == 0 then [] else Serves(k - 1) + [Serve]
  }

  lemma {:induction false} ServesAreServeTimes(s: System, codec: Codec, me: string, k: nat)
    requires s.conn.Some?
    ensures StateAfter(s, codec, me, Serves(k))
         == s.(conn := Some(ServeTimes(s.conn.value, s.broker.Stream(me), k)))
  {
    if k > 0 {
      ServesAreServeTimes(s, codec, me, k - 1);
      assert Serves(k)[..|Serves(k)| - 1] == Serves(k - 1);
      ServeTimesSucc(s.conn.value, s.broker.Stream(me), k - 1);
    }
  }

  lemma {:induction false} ServeTimesSucc(c: Conn, log: seq<BrokerEvent<LogEvent>>, k: nat)
    ensures ServeTimes(c, log, k + 1) == Served(ServeTimes(c, log, k), log)
    decreases k
  {
    if k > 0 {
      ServeTimesSucc(Served(c, log), log, k - 1);
    }
  }

  lemma {:induction false} ServesKeepInvariant(s: System, codec: Codec, me: string, k: nat)
    requires GoodCodec(codec.print_, codec.parse) && Invariant(s, codec, me) && !s.snapshotServed
    ensures Invariant(StateAfter(s, codec, me, Serves(k)), codec, me)
    ensures !StateAfter(s, codec, me, Serves(k)).snapshotServed
  {
    hide GoodCodec, Invariant;
    if k > 0 {
      ServesKeepInvariant(s, codec, me, k - 1);
      assert Serves(k)[..|Serves(k)| - 1] == Serves(k - 1);
      NextKeepsInvariant(StateAfter(s, codec, me, Serves(k - 1)), codec, me, Serve);
    }
  }

  lemma {:induction false} ServesDeliverNothing(c: Conn, log: seq<BrokerEvent<LogEvent>>, k: nat)
    ensures var last := ServeTimes(c, log, k);
            last.delivered == c.delivered && last.buffer == c.buffer && last.from == c.from
    decreases k
  {
    if k > 0 {
      ServesDeliverNothing(Served(c, log), log, k - 1);
    }
  }

  lemma {:induction false} StateAfterAppend(s: System, codec: Codec, me: string, a: seq<Step>, b: seq<Step>)
    ensures StateAfter(s, codec, me, a + b) == StateAfter(StateAfter(s, codec, me, a), codec, me, b)
  {
    hide Next;
    if b == [] {
      assert a + b == a;
    } else {
      assert (a + b)[..|a + b| - 1] == a + b[..|b| - 1];
      StateAfterAppend(s, codec, me, a, b[..|b| - 1]);
    }
  }

  lemma StateAfterOne(s: System, codec: Codec, me: string, step: Step)
    ensures StateAfter(s, codec, me, [step]) == Next(s, codec, me, step)
  {
    hide Next;
    assert [step][..0] == [];
  }

  /** All that was written has arrived: the client has seen what the server stood at. */
  lemma ArriveAll(s: System, codec: Codec, me: string)
    requires GoodCodec(codec.print_, codec.parse) && Invariant(s, codec, me)
    requires s.conn.Some? && s.conn.value.delivered == 0 && s.conn.value.from == |s.seen|
    requires Position(s.conn.value) == |s.broker.Stream(me)|
    ensures var all := |WireText(s.conn.value.written, codec.print_)|;
            Next(s, codec, me, Arrive(all)).seen == AsEvents(s.broker.Stream(me))
  {
    hide GoodCodec, AllNumbered, EventsOf, GoodItem, Frames, Deliver, WireText;
    var c, log := s.conn.value, s.broker.Stream(me);
    var text := WireText(c.written, codec.print_);
    ArriveKeepsInvariant(s, codec, me, |text|);
    ArrivalExtends(c, s.seen, codec, |text|);
    ReaderUndoesPrinter(c.written, codec.print_, codec.parse);
    assert text[..0 + |text|] == text && text[0..|text|] == text;
    assert s.seen[c.from..] == [];
    var next := Next(s, codec, me, Arrive(|text|));
    var d := Deliver(Frames(c.buffer + text).frames, codec.parse);
    assert [] + d.events == d.events;
    assert |next.seen| == |log|;
    assert log[..|log|] == log;
  }

  /** From every state of a disciplined run in which the client still waits, one more connection can
      bring it up to the end of the log. */
  lemma CanAlwaysCatchUp(s: System, codec: Codec, me: string, view: MessageView) returns (steps: seq<Step>)
    requires GoodCodec(codec.print_, codec.parse) && Orderly(s, codec, me) && !TerminalSeen(s)
    ensures StateAfter(s, codec, me, steps).seen == AsEvents(s.broker.Stream(me))
  {
    hide GoodCodec, AllNumbered, ServerOk, ClientOk, Served, ServesSnapshot, SeenIsPrefix, StateAfter, Next, Position,
      Serves, TerminalOnlyLast, TerminalSeen, Numbered, AsEvents;
    var log := s.broker.Stream(me);
    OrderlyServesNoSnapshot(s, codec, me);
    var connected := Next(s, codec, me, Connect(view));
    SnapshotFlagStays(s, codec, me, Connect(view));
    NextKeepsInvariant(s, codec, me, Connect(view));
    ConnectedFromSeen(s, codec, me, view);
    NumberedStream(s, me);
    var c := connected.conn.value;
    var k := ServeReachesEnd(c, log, s.broker.counter);
    ServesAreServeTimes(connected, codec, me, k);
    ServesKeepInvariant(connected, codec, me, k);
    ServesDeliverNothing(c, log, k);
    var served := StateAfter(connected, codec, me, Serves(k));
    ArriveAll(served, codec, me);
    var all := Arrive(|WireText(served.conn.value.written, codec.print_)|);
    steps := [Connect(view)] + Serves(k) + [all];
    StateAfterOne(s, codec, me, Connect(view));
    StateAfterAppend(s, codec, me, [Connect(view)], Serves(k));
    StateAfterOne(served, codec, me, all);
    StateAfterAppend(s, codec, me, [Connect(view)] + Serves(k), [all]);
  }

  lemma NumberedStream(s: System, me: string)
    requires AllNumbered(s.broker)
    ensures Numbered(s.broker.Stream(me), s.broker.counter)
  {
  }

  lemma ConnectedFromSeen(s: System, codec: Codec, me: string, view: MessageView)
    requires Invariant(s, codec, me) && !ServesSnapshot(s, me)
    ensures var next := Next(s, codec, me, Connect(view));
            && next.conn.Some?
            && next.conn.value.from == |s.seen| && next.conn.value.delivered == 0 && !next.conn.value.closed
            && next.seen == s.seen && next.broker == s.broker
  {
    hide AllNumbered, ServerOk, ClientOk, ServesSnapshot;
    RequestCursorIsLastSeen(s, codec, me);
  }

  // A snapshot on the wire

  lemma SnapshotItemsAreGood(view: MessageView)
    ensures forall i :: 0 <= i < |SnapshotItems(view)| ==> GoodItem(SnapshotItems(view)[i])
  {
    hide Snapshot, EventName;
    forall i | 0 <= i < |SnapshotItems(view)|
      ensures GoodItem(SnapshotItems(view)[i])
    {
      SnapshotItemIsGood(Snapshot(view)[i]);
    }
  }

  lemma SnapshotItemIsGood(e: LogEvent)
    ensures GoodItem(SnapshotItem(e))
  {
    EventNamesPrintable(e);
    var id := SnapshotId(e);
    if e.StepLogged? {
      var digits := Decimal(e.step.step);
      assert id == "snapshot-step-" + digits && id[|id| - 1] == digits[|digits| - 1];
      assert IsDigit(digits[|digits| - 1]);
      forall i | 0 <= i < |id|
        ensures id[i] != '\r' && id[i] != '\n'
      {
        if i >= |"snapshot-step-"| {
          assert id[i] == digits[i - |"snapshot-step-"|];
        }
      }
    }
  }

  lemma {:induction false} FoldSeenAppend(d: Draft, a: seq<WireEvent>, b: seq<WireEvent>)
    ensures FoldSeen(d, a + b) == FoldSeen(FoldSeen(d, a), b)
  {
    hide React;
    if b == [] {
      assert a + b == a;
    } else {
      var n := |b| - 1;
      assert (a + b)[..|a| + n] == a + b[..n];
      FoldSeenAppend(d, a, b[..n]);
    }
  }

  /** A connection that serves a snapshot carries the snapshot and nothing else; once its characters have
      arrived, the client has the snapshot's events behind those it had, and shows their content
      behind what it showed. */
  lemma SnapshotArrives(s: System, codec: Codec, me: string, view: MessageView, log: seq<BrokerEvent<LogEvent>>)
    requires ServesSnapshot(s, me) && GoodCodec(codec.print_, codec.parse)
    ensures var t := Connected(s, me, view);
            && t.conn.Some? && t.seen == s.seen
            && Served(t.conn.value, log) == t.conn.value
            && var a := Arrived(t, codec, |WireText(t.conn.value.written, codec.print_)|);
               && a.seen == s.seen + EventsOf(SnapshotItems(view))
               && DraftOf(a).content == DraftOf(s).content + view.content
               && DraftOf(a).steps == DraftOf(s).steps + view.steps
               && DraftOf(a).status == if view.status == StatusStreaming then DraftOf(s).status else view.status
  {
    hide SnapshotItems, FoldSeen, EventsOf, GoodItem, GoodCodec, Frames, Deliver, WireText;
    SnapshotItemsAreGood(view);
    var items := SnapshotItems(view);
    ReaderUndoesPrinter(items, codec.print_, codec.parse);
    var text := WireText(items, codec.print_);
    assert "" + text[0..0 + |text|] == text;
    FoldSeenAppend(FRESH_DRAFT, s.seen, EventsOf(items));
    SnapshotShown(DraftOf(s), view);
  }

  // Where a connection stops

  predicate IsTerminalItem(item: Item<Payload>) {
    item.Sent? && IsTerminalName(item.event)
  }

  /** A terminal event is the last thing written, and the connection is closed with it. */
  ghost predicate StopsAtTerminal(c: Conn) {
    forall i :: 0 <= i < |c.written| && IsTerminalItem(c.written[i]) ==> i == |c.written| - 1 && c.closed
  }

  lemma TerminalByName(e: LogEvent)
    ensures IsTerminalName(EventName(e)) <==> IsTerminal(e)
  {
    var name := EventName(e);
    match e {
      case Start => assert name[0] == 's';
      case StepLogged(_) => assert name[0] == 's';
      case TextLogged(_) => assert name[0] == 't';
      case ResetLogged => assert name[0] == 't';
      case StreamingLogged => assert name[0] == 's';
      case _ =>
    }
  }

  lemma ServedStopsAtTerminal(c: Conn, log: seq<BrokerEvent<LogEvent>>)
    requires StopsAtTerminal(c)
    ensures StopsAtTerminal(Served(c, log))
    ensures !c.closed && c.pending != [] ==> (Served(c, log).closed <==> IsTerminal(c.pending[0].payload))
  {
    hide EventName, IsTerminalName, IsTerminal, ReadResult;
    if !c.closed && c.pending != [] {
      TerminalByName(c.pending[0].payload);
    }
  }

  lemma SnapshotStopsAtTerminal(view: MessageView, i: nat)
    requires i < |SnapshotItems(view)| - 1
    ensures !IsTerminalItem(SnapshotItems(view)[i])
  {
    hide EventName, IsTerminalName;
    TerminalByName(Snapshot(view)[i]);
  }

  lemma NextStopsAtTerminal(s: System, codec: Codec, me: string, step: Step)
    requires s.conn.Some? ==> StopsAtTerminal(s.conn.value)
    ensures var t := Next(s, codec, me, step); t.conn.Some? ==> StopsAtTerminal(t.conn.value)
  {
    hide Served, SnapshotItems, ServesSnapshot, ReadResult, Frames, Deliver, WireText, IsTerminalItem;
    match step {
      case Serve =>
        if s.conn.Some? {
          ServedStopsAtTerminal(s.conn.value, s.broker.Stream(me));
        }
      case Connect(view) =>
        forall i | 0 <= i < |SnapshotItems(view)| - 1
          ensures !IsTerminalItem(SnapshotItems(view)[i])
        {
          SnapshotStopsAtTerminal(view, i);
        }
      case _ =>
    }
  }

  /** In every run, snapshot or not: nothing follows a terminal event on a connection, which is closed
      with it. */
  lemma {:induction false} EveryConnectionStopsAtTerminal(
      broker: State<LogEvent>, codec: Codec, me: string, steps: seq<Step>)
    ensures var s := StateAfter(Init(broker), codec, me, steps); s.conn.Some? ==> StopsAtTerminal(s.conn.value)
  {
    hide Next, StopsAtTerminal;
    if steps != [] {
      var n := |steps| - 1;
      EveryConnectionStopsAtTerminal(broker, codec, me, steps[..n]);
      NextStopsAtTerminal(StateAfter(Init(broker), codec, me, steps[..n]), codec, me, steps[n]);
    }
  }
}
