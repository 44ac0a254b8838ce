/** The in-memory event broker (`InMemoryEventBroker` in backend/app/chat/events.py): one counter
    numbers the events of all streams; a reader asks for what follows the last id it saw. */
module Broker {
  import opened Text

  datatype BrokerEvent<T> = BrokerEvent(id: string, payload: T)

  const READ_COUNT := 100

  function StreamKey(messageId: string): string {
    "datapilot:chat:stream:" + messageId
  }

  // Event ids

  function EventId(n: nat): string {
    Decimal(n) + "-0"
  }

  function BeforeDash(s: string): string {
    if s == [] || s[0] == '-' then [] else [s[0]] + BeforeDash(s[1..])
  }

  /** The number a cursor stands for; None when it is not a number, which the broker refuses. */
  function SequenceOf(id: string): Option<nat> {
    if id == "" then Some(0) else ParseDecimal(BeforeDash(id))
  }

  lemma {:induction false} BeforeDashOfDigits(digits: string, tail: string)
    requires forall i :: 0 <= i < |digits| ==> IsDigit(digits[i])
    requires tail != [] && tail[0] == '-'
    ensures BeforeDash(digits + tail) == digits
  {
    if digits == [] {
      assert digits + tail == tail;
    } else {
      assert (digits + tail)[1..] == digits[1..] + tail;
      BeforeDashOfDigits(digits[1..], tail);
    }
  }

  lemma SequenceOfEventId(n: nat)
    ensures SequenceOf(EventId(n)) == Some(n)
  {
    BeforeDashOfDigits(Decimal(n), "-0");
    ParseDecimalUndoesDecimal(n);
  }

  // Streams as values

  datatype State<T> = State(streams: map<string, seq<BrokerEvent<T>>>, counter: nat) {
    function Stream(messageId: string): seq<BrokerEvent<T>> {
      if StreamKey(messageId) in streams then streams[StreamKey(messageId)] else []
    }

    function Published(messageId: string, payload: T): State<T> {
      State(
        streams[StreamKey(messageId) := Stream(messageId) + [BrokerEvent(EventId(counter + 1), payload)]],
        counter + 1)
    }
  }

  predicate IsAfter<T>(e: BrokerEvent<T>, last: nat) {
    SequenceOf(e.id).Some? && last < SequenceOf(e.id).value
  }

  function After<T>(events: seq<BrokerEvent<T>>, last: nat): seq<BrokerEvent<T>> {
    if events == [] then []
    else
      var e := events[|events| - 1];
      After(events[..|events| - 1], last) + (if IsAfter(e, last) then [e] else [])
  }

  function FirstOf<T>(events: seq<T>, count: nat): seq<T> {
    if |events| <= count then events else events[..count]
  }

  /** `read`: an unreadable cursor is an error. */
  function ReadResult<T>(
      events: seq<BrokerEvent<T>>, lastEventId: string, count: nat): Result<seq<BrokerEvent<T>>, string>
  {
    var last := SequenceOf(lastEventId);
    if last.None? then Err("ValueError") else Ok(FirstOf(After(events, last.value), count))
  }

  // The broker object

  class InMemoryEventBroker<T> {
    var events: map<string, seq<BrokerEvent<T>>>
    var counter: nat

    constructor ()
      ensures View() == State(map[], 0)
    {
      events := map[];
      counter := 0;
    }

    function View(): State<T>
      reads this
    {
      State(events, counter)
    }

    method Publish(messageId: string, payload: T) returns (id: string)
      modifies this
      ensures View() == old(View()).Published(messageId, payload)
      ensures id == EventId(counter)
    {
      counter := counter + 1;
      id := EventId(counter);
      var key := StreamKey(messageId);
      if key !in events {
        events := events[key := []];
      }
      events := events[key := events[key] + [BrokerEvent(id, payload)]];
    }

    /** Looking at a stream nobody has written to creates it empty, which changes no stream. */
    method Read(messageId: string, lastEventId: string, count: nat)
      returns (r: Result<seq<BrokerEvent<T>>, string>)
      modifies this
      ensures counter == old(counter)
      ensures forall m :: View().Stream(m) == old(View()).Stream(m)
      ensures r == ReadResult(View().Stream(messageId), lastEventId, count)
    {
      var lastSequence := SequenceOf(lastEventId);
      if lastSequence.None? {
        return Err("ValueError");
      }
      var key := StreamKey(messageId);
      if key !in events {
        events := events[key := []];
      }
      var found: seq<BrokerEvent<T>> := [];
      ghost var stream := events[key];
      for i := 0 to |events[key]|
        invariant events[key] == stream
        invariant counter == old(counter)
        invariant forall m :: View().Stream(m) == old(View()).Stream(m)
        invariant found == After(stream[..i], lastSequence.value)
      {
        assert stream[..i + 1][..i] == stream[..i];
        if IsAfter(events[key][i], lastSequence.value) {
          found := found + [events[key][i]];
        }
      }
      assert stream[..|stream|] == stream;
      return Ok(FirstOf(found, count));
    }
  }

  // Cursors

  /** Ids are the broker's own, rising, and not past its counter. */
  ghost predicate Numbered<T>(events: seq<BrokerEvent<T>>, counter: nat) {
    && (forall i :: 0 <= i < |events| ==> IsOwn(events[i], counter))
    && (forall i, j :: 0 <= i < j < |events| ==> Number(events[i]) < Number(events[j]))
  }

  function Number<T>(e: BrokerEvent<T>): nat {
    SequenceOf(e.id).GetOr(0)
  }

  predicate IsOwn<T>(e: BrokerEvent<T>, counter: nat) {
    1 <= Number(e) <= counter && e.id == EventId(Number(e))
  }

  ghost predicate AllNumbered<T>(s: State<T>) {
    forall m :: Numbered(s.Stream(m), s.counter)
  }

  /** Publishing to any stream keeps every stream's numbering, and touches no other stream. */
  lemma PublishKeepsNumbering<T>(s: State<T>, messageId: string, payload: T)
    requires AllNumbered(s)
    ensures AllNumbered(s.Published(messageId, payload))
    ensures forall m :: m != messageId ==> s.Published(messageId, payload).Stream(m) == s.Stream(m)
    ensures s.Published(messageId, payload).Stream(messageId)
         == s.Stream(messageId) + [BrokerEvent(EventId(s.counter + 1), payload)]
    ensures s.Published(messageId, payload).counter == s.counter + 1
  {
    var next := s.Published(messageId, payload);
    SequenceOfEventId(s.counter + 1);
    forall m
      ensures m != messageId ==> next.Stream(m) == s.Stream(m)
      ensures Numbered(next.Stream(m), next.counter)
    {
      if StreamKey(m) == StreamKey(messageId) {
        assert m == StreamKey(m)[|"datapilot:chat:stream:"|..];
        assert messageId == StreamKey(messageId)[|"datapilot:chat:stream:"|..];
      }
      assert Numbered(s.Stream(m), s.counter);
    }
  }

  /** The cursor a reader holds after the first `k` events. */
  function CursorAt<T>(events: seq<BrokerEvent<T>>, k: nat): string
    requires k <= |events|
  {
    if k == 0 then EventId(0) else events[k - 1].id
  }

  lemma {:induction false} AfterSplits<T>(events: seq<BrokerEvent<T>>, k: nat, last: nat)
    requires k <= |events|
    requires forall i :: 0 <= i < k ==> !IsAfter(events[i], last)
    requires forall i :: k <= i < |events| ==> IsAfter(events[i], last)
    ensures After(events, last) == events[k..]
  {
    if events != [] {
      var before := events[..|events| - 1];
      if k < |events| {
        AfterSplits(before, k, last);
        assert events[k..] == before[k..] + [events[|events| - 1]];
      } else {
        AfterSplits(before, k - 1, last);
      }
    }
  }

  lemma AfterCursor<T>(events: seq<BrokerEvent<T>>, counter: nat, k: nat)
    requires Numbered(events, counter) && k <= |events|
    ensures SequenceOf(CursorAt(events, k)).Some?
    ensures After(events, SequenceOf(CursorAt(events, k)).value) == events[k..]
  {
    hide EventId, SequenceOf, After;
    SequenceOfEventId(0);
    if k > 0 {
      SequenceOfEventId(Number(events[k - 1]));
      assert IsOwn(events[k - 1], counter);
    }
    var last := SequenceOf(CursorAt(events, k)).value;
    forall i | 0 <= i < |events|
      ensures IsAfter(events[i], last) <==> k <= i
    {
      SequenceOfEventId(Number(events[i]));
      assert IsOwn(events[i], counter);
    }
    AfterSplits(events, k, last);
  }

  /** Reading from the id of the last event seen gives exactly the events that follow it. */
  lemma ReadResumes<T>(events: seq<BrokerEvent<T>>, counter: nat, k: nat, count: nat)
    requires Numbered(events, counter) && k <= |events|
    ensures ReadResult(events, CursorAt(events, k), count) == Ok(FirstOf(events[k..], count))
  {
    AfterCursor(events, counter, k);
  }

  /** An empty cursor, like that of a reader who has seen nothing, reads from the start. */
  lemma EmptyCursorReadsFromTheStart<T>(events: seq<BrokerEvent<T>>, counter: nat, count: nat)
    requires Numbered(events, counter)
    ensures ReadResult(events, "", count) == Ok(if |events| <= count then events else events[..count])
    ensures ReadResult(events, "", count) == ReadResult(events, EventId(0), count)
  {
    ReadResumes(events, counter, 0, count);
    SequenceOfEventId(0);
    assert events[0..] == events;
  }
}
