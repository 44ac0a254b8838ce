/** The resumable chat stream: a worker that publishes regardless of who listens, a server loop
    that serves one log from a cursor (`event_stream` in backend/app/api/routes/conversations.py),
    and a browser that parses whatever arrives and reconnects with the last id it saw
    (frontend/src/stores/chat.ts, frontend/src/api/chat.ts).

    The system is a state machine; its steps may come in any order, and a connection may be cut
    after any character. */
module Resume {
  import opened Text
  import AgentModels
  import opened Broker
  import opened Sse
  import opened SseRoundTrip
  import opened Worker
  import opened Views

  /** A decoded data object: the fields the client reads, and the rest of it. */
  datatype Payload = Payload(
    step: Option<AgentModels.AgentStep>,
    text: Option<string>,
    message: Option<string>,
    rest: string)

  type WireEvent = StreamEvent<Payload>

  datatype Codec = Codec(print_: Payload -> string, parse: string -> Option<Payload>)

  function EventName(e: LogEvent): string {
    match e
    case Start => "start"
    case StepLogged(_) => "step"
    case TextLogged(_) => "text"
    case ResetLogged => "text_reset"
    case ErrorLogged(_) => "error"
    case DoneLogged(_) => "done"
    case AbortedLogged => "aborted"
    case StreamingLogged => "streaming"
  }

  function Bare(rest: string): Payload {
    Payload(None, None, None, rest)
  }

  /** What a log event's data object holds; its kind travels in the event name only. */
  function PayloadOf(e: LogEvent): Payload {
    match e
    case Start => Bare("ids")
    case StepLogged(step) => Bare("").(step := Some(step))
    case TextLogged(text) => Bare("").(text := Some(text))
    case ErrorLogged(message) => Bare("").(message := message)
    case DoneLogged(persisted) => Bare(if persisted then "persisted" else "lost")
    case _ => Bare("")
  }

  function ItemOf(e: BrokerEvent<LogEvent>): Item<Payload> {
    Sent(Some(e.id), EventName(e.payload), PayloadOf(e.payload))
  }

  function AsEvent(e: BrokerEvent<LogEvent>): WireEvent {
    StreamEvent(Some(e.id), EventName(e.payload), PayloadOf(e.payload))
  }

  function AsEvents(log: seq<BrokerEvent<LogEvent>>): seq<WireEvent> {
    seq(|log|, i requires 0 <= i < |log| => AsEvent(log[i]))
  }

  // The reducer, which looks at the event's name

  function React(d: Draft, name: string, p: Payload): Draft {
    if name == "step" then (if p.step.Some? then d.(steps := d.steps + [p.step.value]) else d)
    else if name == "text" then d.(content := d.content + OrEmpty(p.text))
    else if name == "text_reset" then d.(content := "")
    else if name == "done" then d.(status := StatusCompleted)
    else if name == "aborted" then d.(status := StatusAborted)
    else if name == "error" then d.(status := StatusError, error := Some(p.message.GetOr(DEFAULT_ERROR)))
    else d
  }

  function FoldSeen(d: Draft, events: seq<WireEvent>): Draft {
    if events == [] then d
    else
      var last := events[|events| - 1];
      React(FoldSeen(d, events[..|events| - 1]), last.event, last.data)
  }

  predicate IsTerminalName(name: string) {
    name == "done" || name == "aborted" || name == "error"
  }

  /** Acting on name and data object is acting on the event they were printed from. */
  lemma ReactIsReduce(d: Draft, e: LogEvent)
    ensures React(d, EventName(e), PayloadOf(e)) == Reduce(d, e)
    ensures IsTerminalName(EventName(e)) <==> IsTerminal(e)
  {
    var n := EventName(e);
    assert n[0] == 's' || n[0] == 't' || n[0] == 'e' || n[0] == 'd' || n[0] == 'a';
    assert e.Start? ==> n[2] == 'a';
    assert e.StreamingLogged? ==> n[2] == 'r';
    assert e.StepLogged? ==> n[2] == 'e';
  }

  lemma {:induction false} FoldSeenIsFold(d: Draft, log: seq<BrokerEvent<LogEvent>>)
    ensures FoldSeen(d, AsEvents(log)) == Fold(d, Payloads(log))
  {
    hide React, Reduce, EventName, PayloadOf;
    if log != [] {
      var n := |log| - 1;
      FoldSeenIsFold(d, log[..n]);
      assert AsEvents(log)[..n] == AsEvents(log[..n]) && Payloads(log)[..n] == Payloads(log[..n]);
      ReactIsReduce(Fold(d, Payloads(log[..n])), log[n].payload);
    }
  }

  // States

  /** One connection: the server generator (cursor, rest of the current batch, whether it has
      returned), what it has written so far, how many characters of that have arrived, and the
      parser's buffer.  `from` is how many events the client had seen when it connected. */
  datatype Conn = Conn(
    from: nat,
    cursor: string,
    pending: seq<BrokerEvent<LogEvent>>,
    written: seq<Item<Payload>>,
    closed: bool,
    delivered: nat,
    buffer: string)

  datatype System = System(
    broker: State<LogEvent>,
    running: bool,
    conn: Option<Conn>,
    seen: seq<WireEvent>,
    lastEventId: Option<string>,
    snapshotServed: bool)

  /** The task has been started, nothing has been seen. */
  function Init(broker: State<LogEvent>): System {
    System(broker, true, None, [], None, false)
  }

  datatype Step =
    | Publish(messageId: string, e: LogEvent)
    | TaskEnds
    | Connect(view: MessageView)
    | Serve
    | Arrive(count: nat)
    | Cut

  // The server

  const NO_CURSOR := "0-0"

  function RequestCursor(lastEventId: Option<string>): string {
    if Truthy(lastEventId) then lastEventId.value else NO_CURSOR
  }

  function SnapshotId(e: LogEvent): string {
    match e
    case StepLogged(step) => "snapshot-step-" + Decimal(step.step)
    case _ => "snapshot-" + EventName(e)
  }

  /** All terminal frames of a snapshot carry the same data object. */
  function SnapshotPayload(e: LogEvent): Payload {
    if e.StepLogged? || e.TextLogged? then PayloadOf(e) else Bare("snapshot")
  }

  function SnapshotItem(e: LogEvent): Item<Payload> {
    Sent(Some(SnapshotId(e)), EventName(e), SnapshotPayload(e))
  }

  function SnapshotItems(view: MessageView): seq<Item<Payload>> {
    var events := Snapshot(view);
    seq(|events|, i requires 0 <= i < |events| => SnapshotItem(events[i]))
  }

  predicate ServesSnapshot(s: System, me: string) {
    var initial := ReadResult(s.broker.Stream(me), RequestCursor(s.lastEventId), READ_COUNT);
    initial.Ok? && initial.value == [] && !s.running
  }

  /** A reconnect drops the old connection and whatever was still under way on it. */
  function Connected(s: System, me: string, view: MessageView): System {
    var cursor := RequestCursor(s.lastEventId);
    var initial := ReadResult(s.broker.Stream(me), cursor, READ_COUNT);
    if initial.Err? then s.(conn := None)
    else if ServesSnapshot(s, me) then
      s.(conn := Some(Conn(|s.seen|, cursor, [], SnapshotItems(view), true, 0, "")), snapshotServed := true)
    else s.(conn := Some(Conn(|s.seen|, cursor, initial.value, [], false, 0, "")))
  }

  /** One turn of the generator: the next event of the batch, or a new batch, or a heartbeat. */
  function Served(c: Conn, log: seq<BrokerEvent<LogEvent>>): Conn {
    if c.closed then c
    else if c.pending != [] then
      var e := c.pending[0];
      c.(cursor := e.id, pending := c.pending[1..], written := c.written + [ItemOf(e)],
         closed := IsTerminal(e.payload))
    else
      var events := ReadResult(log, c.cursor, READ_COUNT);
      if events.Err? then c.(closed := true)
      else if events.value == [] then c.(written := c.written + [Ping])
      else c.(pending := events.value)
  }

  // The client

  function LastIdAfter(last: Option<string>, events: seq<WireEvent>): Option<string> {
    if events == [] then last
    else if Truthy(events[|events| - 1].id) then events[|events| - 1].id
    else LastIdAfter(last, events[..|events| - 1])
  }

  /** `count` more characters arrive; an exception in the callback's parser ends the connection. */
  function Arrived(s: System, codec: Codec, count: nat): System
    requires s.conn.Some?
  {
    var c := s.conn.value;
    var text := WireText(c.written, codec.print_);
    if c.delivered + count > |text| then s
    else
      var split := Frames(c.buffer + text[c.delivered..c.delivered + count]);
      var d := Deliver(split.frames, codec.parse);
      s.(seen := s.seen + d.events,
         lastEventId := LastIdAfter(s.lastEventId, d.events),
         conn := if d.threw then None
                 else Some(c.(delivered := c.delivered + count, buffer := split.rest)))
  }

  function Next(s: System, codec: Codec, me: string, step: Step): System {
    match step
    case Publish(m, e) => s.(broker := s.broker.Published(m, e))
    case TaskEnds => s.(running := false)
    case Connect(view) => Connected(s, me, view)
    case Serve => if s.conn.None? then s else s.(conn := Some(Served(s.conn.value, s.broker.Stream(me))))
    case Arrive(count) => if s.conn.None? then s else Arrived(s, codec, count)
    case Cut => s.(conn := None)
  }

  function StateAfter(s: System, codec: Codec, me: string, steps: seq<Step>): System {
    if steps == [] then s else Next(StateAfter(s, codec, me, steps[..|steps| - 1]), codec, me, steps[|steps| - 1])
  }

  // The invariant

  ghost predicate GoodWrites(written: seq<Item<Payload>>) {
    forall i :: 0 <= i < |written| ==> GoodItem(written[i])
  }

  /** How far along the log the server is on this connection. */
  function Position(c: Conn): nat {
    c.from + |EventsOf(c.written)|
  }

  /** The server half: what was written is the log from where the client stood, and the batch in
      hand is what comes next. */
  ghost predicate ServerOk(c: Conn, log: seq<BrokerEvent<LogEvent>>) {
    var at := Position(c);
    && at + |c.pending| <= |log|
    && EventsOf(c.written) == AsEvents(log[c.from..at])
    && c.pending == log[at..at + |c.pending|]
    && (c.closed || c.cursor == CursorAt(log, at))
    && GoodWrites(c.written)
  }

  /** The client half: buffer and callback are where the arrived characters put them. */
  ghost predicate ClientOk(c: Conn, seen: seq<WireEvent>, codec: Codec) {
    var text := WireText(c.written, codec.print_);
    && c.from <= |seen|
    && c.delivered <= |text|
    && c.buffer == Frames(text[..c.delivered]).rest
    && Deliver(Frames(text[..c.delivered]).frames, codec.parse) == Delivery(seen[c.from..], false)
  }

  ghost predicate SeenIsPrefix(s: System, me: string) {
    var log := s.broker.Stream(me);
    && |s.seen| <= |log|
    && s.seen == AsEvents(log[..|s.seen|])
    && s.lastEventId == if s.seen == [] then None else Some(log[|s.seen| - 1].id)
  }

  ghost predicate Invariant(s: System, codec: Codec, me: string) {
    && AllNumbered(s.broker)
    && SeenIsPrefix(s, me)
    && (s.conn.Some? ==> ServerOk(s.conn.value, s.broker.Stream(me)) && ClientOk(s.conn.value, s.seen, codec))
  }

  lemma OwnIdsPrintable(e: BrokerEvent<LogEvent>, counter: nat)
    requires IsOwn(e, counter)
    ensures e.id != "" && GoodItem(ItemOf(e))
  {
    var digits := Decimal(Number(e));
    assert e.id == digits + "-0";
    assert e.id[0] == digits[0] && IsDigit(digits[0]);
    assert e.id[|e.id| - 1] == '0';
    forall i | 0 <= i < |e.id|
      ensures e.id[i] != '\r' && e.id[i] != '\n'
    {
      if i < |digits| {
        assert e.id[i] == digits[i] && IsDigit(digits[i]);
      }
    }
    EventNamesPrintable(e.payload);
  }

  lemma EventNamesPrintable(e: LogEvent)
    ensures OneLine(EventName(e)) && Trimmed(EventName(e))
  {
  }

  lemma ServerOkOnLongerLog(c: Conn, log: seq<BrokerEvent<LogEvent>>, more: seq<BrokerEvent<LogEvent>>)
    requires ServerOk(c, log) && log <= more
    ensures ServerOk(c, more)
  {
    hide AsEvents, EventsOf, GoodWrites;
    var at := Position(c);
    assert more[c.from..at] == log[c.from..at];
    assert more[at..at + |c.pending|] == log[at..at + |c.pending|];
  }

  lemma PublishKeepsInvariant(s: System, codec: Codec, me: string, m: string, e: LogEvent)
    requires Invariant(s, codec, me)
    ensures Invariant(Next(s, codec, me, Publish(m, e)), codec, me)
  {
    hide AllNumbered, AsEvents, ServerOk, ClientOk;
    PublishKeepsNumbering(s.broker, m, e);
    var log, now := s.broker.Stream(me), s.broker.Published(m, e).Stream(me);
    assert log <= now;
    assert now[..|s.seen|] == log[..|s.seen|];
    if s.conn.Some? {
      ServerOkOnLongerLog(s.conn.value, log, now);
    }
  }

  lemma RequestCursorIsLastSeen(s: System, codec: Codec, me: string)
    requires Invariant(s, codec, me)
    ensures RequestCursor(s.lastEventId) == CursorAt(s.broker.Stream(me), |s.seen|)
    ensures ReadResult(s.broker.Stream(me), RequestCursor(s.lastEventId), READ_COUNT)
         == Ok(FirstOf(s.broker.Stream(me)[|s.seen|..], READ_COUNT))
  {
    var log := s.broker.Stream(me);
    assert Numbered(log, s.broker.counter);
    if s.seen != [] {
      assert IsOwn(log[|s.seen| - 1], s.broker.counter);
      OwnIdsPrintable(log[|s.seen| - 1], s.broker.counter);
    }
    assert EventId(0) == NO_CURSOR by {
      assert Decimal(0) == "0";
    }
    ReadResumes(log, s.broker.counter, |s.seen|, READ_COUNT);
  }

  /** A reconnect is served a snapshot exactly when it has nothing left to read and the task is no
      longer running. */
  lemma SnapshotServedIff(s: System, codec: Codec, me: string)
    requires Invariant(s, codec, me)
    ensures ServesSnapshot(s, me) <==> |s.seen| == |s.broker.Stream(me)| && !s.running
  {
    RequestCursorIsLastSeen(s, codec, me);
    var rest := s.broker.Stream(me)[|s.seen|..];
    assert FirstOf(rest, READ_COUNT) == [] <==> rest == [];
  }

  lemma NothingArrived(codec: Codec)
    ensures Frames("") == Split([], "") && Deliver([], codec.parse) == Delivery([], false)
    ensures WireText([], codec.print_) == ""
  {
  }

  /** A new connection starts where the client stands, with the next batch in hand. */
  lemma NewConnectionOk(
      log: seq<BrokerEvent<LogEvent>>, seen: seq<WireEvent>, codec: Codec, cursor: string,
      batch: seq<BrokerEvent<LogEvent>>)
    requires |seen| <= |log| && cursor == CursorAt(log, |seen|) && batch == FirstOf(log[|seen|..], READ_COUNT)
    ensures var c := Conn(|seen|, cursor, batch, [], false, 0, "");
            ServerOk(c, log) && ClientOk(c, seen, codec)
  {
    hide Frames, Deliver, AsEvent, WireText;
    NothingArrived(codec);
    var n := |seen|;
    assert batch == log[n..n + |batch|];
    assert ""[..0] == "";
    assert seen[n..] == [];
    assert AsEvents(log[n..n]) == [];
  }

  lemma ConnectKeepsInvariant(s: System, codec: Codec, me: string, view: MessageView)
    requires Invariant(s, codec, me) && !ServesSnapshot(s, me)
    ensures Invariant(Next(s, codec, me, Connect(view)), codec, me)
  {
    hide AllNumbered, AsEvents, ServesSnapshot, ServerOk, ClientOk, FirstOf, CursorAt, ReadResult, RequestCursor;
    RequestCursorIsLastSeen(s, codec, me);
    var log, n := s.broker.Stream(me), |s.seen|;
    NewConnectionOk(log, s.seen, codec, RequestCursor(s.lastEventId), FirstOf(log[n..], READ_COUNT));
  }

  lemma EventsOfOneMore(written: seq<Item<Payload>>, item: Item<Payload>)
    ensures EventsOf(written + [item])
         == EventsOf(written) + (if item.Sent? then [StreamEvent(item.id, item.event, item.payload)] else [])
  {
    assert (written + [item])[..|written|] == written;
  }

  lemma WritingKeepsClient(c: Conn, seen: seq<WireEvent>, codec: Codec, item: Item<Payload>)
    requires ClientOk(c, seen, codec)
    ensures ClientOk(c.(written := c.written + [item]), seen, codec)
  {
    var text := WireText(c.written, codec.print_);
    assert (c.written + [item])[..|c.written|] == c.written;
    var more := WireText(c.written + [item], codec.print_);
    assert more == text + ItemText(item, codec.print_);
    assert more[..c.delivered] == text[..c.delivered];
  }

  lemma ServeEventKeepsServer(c: Conn, log: seq<BrokerEvent<LogEvent>>, counter: nat)
    requires ServerOk(c, log) && Numbered(log, counter) && !c.closed && c.pending != []
    ensures ServerOk(Served(c, log), log)
    ensures Served(c, log).written == c.written + [ItemOf(c.pending[0])]
  {
    hide AsEvents, EventsOf, GoodItem, EventName, ReadResult, Numbered;
    var at, e, after := Position(c), c.pending[0], Served(c, log);
    assert e == log[at];
    OwnItemPrintable(log, counter, at);
    EventsOfOneMore(c.written, ItemOf(e));
    assert Position(after) == at + 1;
    AsEventsOneMore(log, c.from, at);
    assert after.pending == log[at + 1..at + 1 + |after.pending|];
  }

  lemma OwnItemPrintable(log: seq<BrokerEvent<LogEvent>>, counter: nat, i: nat)
    requires Numbered(log, counter) && i < |log|
    ensures GoodItem(ItemOf(log[i])) && Truthy(Some(log[i].id))
  {
    assert IsOwn(log[i], counter);
    OwnIdsPrintable(log[i], counter);
  }

  lemma AsEventsOneMore(log: seq<BrokerEvent<LogEvent>>, i: nat, j: nat)
    requires i <= j < |log|
    ensures AsEvents(log[i..j + 1]) == AsEvents(log[i..j]) + [AsEvent(log[j])]
  {
    assert log[i..j + 1] == log[i..j] + [log[j]];
  }

  lemma ServeBatchKeepsServer(c: Conn, log: seq<BrokerEvent<LogEvent>>, counter: nat)
    requires ServerOk(c, log) && Numbered(log, counter) && !c.closed && c.pending == []
    ensures ServerOk(Served(c, log), log)
    ensures Served(c, log).written == c.written || Served(c, log).written == c.written + [Ping]
  {
    hide AsEvents, EventName, PayloadOf, Numbered;
    var at := Position(c);
    ReadResumes(log, counter, at, READ_COUNT);
    var batch := FirstOf(log[at..], READ_COUNT);
    assert batch == log[at..at + |batch|];
    EventsOfOneMore(c.written, Ping);
    assert EventsOf(c.written) + [] == EventsOf(c.written);
  }

  lemma ServeKeepsConnection(c: Conn, seen: seq<WireEvent>, codec: Codec, log: seq<BrokerEvent<LogEvent>>, counter: nat)
    requires ServerOk(c, log) && ClientOk(c, seen, codec) && Numbered(log, counter)
    ensures ServerOk(Served(c, log), log) && ClientOk(Served(c, log), seen, codec)
  {
    hide ServerOk, ClientOk, Numbered, ReadResult, EventName, PayloadOf;
    if c.closed {
    } else if c.pending != [] {
      ServeEventKeepsServer(c, log, counter);
      WritingKeepsClient(c, seen, codec, ItemOf(c.pending[0]));
      ClientIgnoresServerFields(c.(written := c.written + [ItemOf(c.pending[0])]), Served(c, log), seen, codec);
    } else {
      ServeBatchKeepsServer(c, log, counter);
      WritingKeepsClient(c, seen, codec, Ping);
      ClientIgnoresServerFields(c.(written := Served(c, log).written), Served(c, log), seen, codec);
    }
  }

  lemma ServeKeepsInvariant(s: System, codec: Codec, me: string)
    requires Invariant(s, codec, me)
    ensures Invariant(Next(s, codec, me, Serve), codec, me)
  {
    hide ServerOk, ClientOk, Served, Numbered, AsEvents;
    if s.conn.Some? {
      assert Numbered(s.broker.Stream(me), s.broker.counter);
      ServeKeepsConnection(s.conn.value, s.seen, codec, s.broker.Stream(me), s.broker.counter);
    }
  }

  lemma ClientIgnoresServerFields(a: Conn, b: Conn, seen: seq<WireEvent>, codec: Codec)
    requires ClientOk(a, seen, codec)
    requires a.from == b.from && a.written == b.written && a.delivered == b.delivered && a.buffer == b.buffer
    ensures ClientOk(b, seen, codec)
  {
  }

  /** New characters add to what the callback has seen exactly what the longer prefix delivers. */
  lemma ArrivalExtends(c: Conn, seen: seq<WireEvent>, codec: Codec, count: nat)
    requires ClientOk(c, seen, codec) && GoodWrites(c.written) && GoodCodec(codec.print_, codec.parse)
    requires c.delivered + count <= |WireText(c.written, codec.print_)|
    ensures var text := WireText(c.written, codec.print_);
            var split := Frames(c.buffer + text[c.delivered..c.delivered + count]);
            var d := Deliver(split.frames, codec.parse);
            var whole := Deliver(Frames(text[..c.delivered + count]).frames, codec.parse);
            && !d.threw
            && whole == Delivery(seen[c.from..] + d.events, false)
            && split.rest == Frames(text[..c.delivered + count]).rest
            && whole.events <= EventsOf(c.written)
  {
    hide Frames, Deliver, EventsOf, WireText, GoodCodec, GoodItem;
    var text := WireText(c.written, codec.print_);
    var before, more := text[..c.delivered], text[c.delivered..c.delivered + count];
    var prefix := text[..c.delivered + count];
    assert prefix == before + more;
    FramesOfPieces(before, more);
    DeliverMore(Frames(before).frames, Frames(c.buffer + more).frames, codec.parse);
    ReaderUndoesPrinter(c.written, codec.print_, codec.parse);
    CutNeverThrows(prefix, text, codec.parse);
    CutDeliversPrefix(prefix, text, codec.parse);
  }

  lemma {:induction false} LastIdOfLogEvents(last: Option<string>, events: seq<WireEvent>)
    requires forall i :: 0 <= i < |events| ==> Truthy(events[i].id)
    ensures LastIdAfter(last, events) == if events == [] then last else events[|events| - 1].id
  {
  }

  lemma ServerIgnoresClientFields(a: Conn, b: Conn, log: seq<BrokerEvent<LogEvent>>)
    requires ServerOk(a, log)
    requires a.(delivered := b.delivered, buffer := b.buffer) == b
    ensures ServerOk(b, log)
  {
  }

  lemma ArriveKeepsInvariant(s: System, codec: Codec, me: string, count: nat)
    requires GoodCodec(codec.print_, codec.parse) && Invariant(s, codec, me) && s.conn.Some?
    ensures Invariant(Next(s, codec, me, Arrive(count)), codec, me)
  {
    hide Frames, Deliver, EventsOf, WireText, GoodCodec, GoodItem, AllNumbered, SeenIsPrefix, ServerOk, LastIdAfter;
    var c, log := s.conn.value, s.broker.Stream(me);
    var text := WireText(c.written, codec.print_);
    if c.delivered + count <= |text| {
      ServerWritesGood(c, log);
      ArrivalExtends(c, s.seen, codec, count);
      var next := Arrived(s, codec, count);
      var d := Deliver(Frames(c.buffer + text[c.delivered..c.delivered + count]).frames, codec.parse);
      SeenGrowsAlongLog(s, me, c, d.events);
      ServerIgnoresClientFields(c, next.conn.value, log);
      assert next.seen[c.from..] == s.seen[c.from..] + d.events;
      SeenIgnoresConnection(s.(seen := next.seen, lastEventId := next.lastEventId), next, me);
    }
  }

  lemma SeenIgnoresConnection(a: System, b: System, me: string)
    requires SeenIsPrefix(a, me) && a.(conn := b.conn) == b
    ensures SeenIsPrefix(b, me)
  {
  }

  lemma ServerWritesGood(c: Conn, log: seq<BrokerEvent<LogEvent>>)
    requires ServerOk(c, log)
    ensures GoodWrites(c.written)
  {
  }

  /** If what the callback sees since the connect is a prefix of what was written, each event it sees
      is the next one of the log. */
  lemma ArrivedAreNextInLog(
      log: seq<BrokerEvent<LogEvent>>, counter: nat, c: Conn,
      seen: seq<WireEvent>, arrived: seq<WireEvent>, i: nat)
    requires Numbered(log, counter) && c.from <= |seen| && ServerOk(c, log)
    requires seen[c.from..] + arrived <= EventsOf(c.written)
    requires i < |arrived|
    ensures |seen| + i < |log| && arrived[i] == AsEvent(log[|seen| + i]) && Truthy(arrived[i].id)
  {
    hide EventsOf, GoodItem, Numbered, GoodWrites, CursorAt;
    var written := EventsOf(c.written);
    var k := |seen| - c.from + i;
    assert (seen[c.from..] + arrived)[k] == arrived[i];
    assert written[k] == arrived[i];
    assert log[c.from..Position(c)][k] == log[|seen| + i];
    OwnItemPrintable(log, counter, |seen| + i);
  }

  /** So all it has seen is a prefix of the log. */
  lemma SeenGrowsAlongLog(s: System, me: string, c: Conn, arrived: seq<WireEvent>)
    requires AllNumbered(s.broker) && SeenIsPrefix(s, me) && c.from <= |s.seen|
    requires ServerOk(c, s.broker.Stream(me))
    requires s.seen[c.from..] + arrived <= EventsOf(c.written)
    ensures SeenIsPrefix(s.(seen := s.seen + arrived, lastEventId := LastIdAfter(s.lastEventId, arrived)), me)
  {
    hide EventsOf, ServerOk, LastIdAfter, Numbered, EventName, PayloadOf;
    var log := s.broker.Stream(me);
    assert Numbered(log, s.broker.counter);
    var n := |s.seen|;
    forall i | 0 <= i < |arrived|
      ensures n + i < |log| && arrived[i] == AsEvent(log[n + i]) && Truthy(arrived[i].id)
    {
      ArrivedAreNextInLog(log, s.broker.counter, c, s.seen, arrived, i);
    }
    if arrived != [] {
      ArrivedAreNextInLog(log, s.broker.counter, c, s.seen, arrived, |arrived| - 1);
      assert arrived[|arrived| - 1].id == Some(log[n + |arrived| - 1].id);
    }
    forall i | 0 <= i < n + |arrived|
      ensures (s.seen + arrived)[i] == AsEvents(log[..n + |arrived|])[i]
    {
      if i < n {
        assert s.seen[i] == AsEvents(log[..n])[i];
      } else {
        assert arrived[i - n] == AsEvent(log[n + (i - n)]);
      }
    }
    LastIdOfLogEvents(s.lastEventId, arrived);
  }

  // Every run

  /** Along every run that has served no snapshot, the invariant holds. */
  lemma {:induction false} EveryRunKeepsInvariant(broker: State<LogEvent>, codec: Codec, me: string, steps: seq<Step>)
    requires GoodCodec(codec.print_, codec.parse) && AllNumbered(broker)
    ensures var s := StateAfter(Init(broker), codec, me, steps);
            !s.snapshotServed ==> Invariant(s, codec, me)
  {
    hide Connected, Served, Arrived, Invariant, GoodCodec, AllNumbered;
    if steps == [] {
      InitInvariant(broker, codec, me);
    } else {
      var before, step := StateAfter(Init(broker), codec, me, steps[..|steps| - 1]), steps[|steps| - 1];
      EveryRunKeepsInvariant(broker, codec, me, steps[..|steps| - 1]);
      SnapshotFlagStays(before, codec, me, step);
      if !Next(before, codec, me, step).snapshotServed {
        NextKeepsInvariant(before, codec, me, step);
      }
    }
  }

  lemma SnapshotFlagStays(s: System, codec: Codec, me: string, step: Step)
    ensures Next(s, codec, me, step).snapshotServed
         == (s.snapshotServed || (step.Connect? && ServesSnapshot(s, me)))
  {
  }

  lemma InitInvariant(broker: State<LogEvent>, codec: Codec, me: string)
    requires AllNumbered(broker)
    ensures Invariant(Init(broker), codec, me)
  {
    assert AsEvents(broker.Stream(me)[..0]) == [];
  }

  lemma NextKeepsInvariant(s: System, codec: Codec, me: string, step: Step)
    requires GoodCodec(codec.print_, codec.parse) && Invariant(s, codec, me)
    requires !Next(s, codec, me, step).snapshotServed
    ensures Invariant(Next(s, codec, me, step), codec, me)
  {
    hide GoodCodec, AllNumbered, ServerOk, ClientOk, Served, Connected, Arrived, ServesSnapshot;
    match step {
      case Publish(m, e) => PublishKeepsInvariant(s, codec, me, m, e);
      case TaskEnds =>
      case Connect(view) =>
        SnapshotFlagStays(s, codec, me, step);
        ConnectKeepsInvariant(s, codec, me, view);
      case Serve => ServeKeepsInvariant(s, codec, me);
      case Arrive(count) =>
        if s.conn.Some? {
          ArriveKeepsInvariant(s, codec, me, count);
        }
      case Cut =>
    }
  }
}
