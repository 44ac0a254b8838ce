/** The two ends of the resumable stream as the objects they are: the server's generator with its
    cursor and batch, and the browser's draft message with its parser buffer and last id.  Each is
    proved to do exactly the steps of the state machine in `Resume`. */
module ResumeObjects {
  import opened Text
  import opened AgentModels
  import opened Broker
  import opened Sse
  import opened SseRoundTrip
  import opened Worker
  import opened Views
  import opened Resume

  /** `event_stream` in backend/app/api/routes/conversations.py, after its first read. */
  class EventStream {
    const messageId: string
    var cursor: string
    var buffered: seq<BrokerEvent<LogEvent>>
    var returned: bool

    constructor (messageId: string, lastEventId: string, initialEvents: seq<BrokerEvent<LogEvent>>)
      ensures this.messageId == messageId
      ensures cursor == lastEventId && buffered == initialEvents && !returned
    {
      this.messageId := messageId;
      cursor, buffered, returned := lastEventId, initialEvents, false;
    }

    predicate Matches(c: Conn)
      reads this
    {
      c.cursor == cursor && c.pending == buffered && c.closed == returned
    }

    /** One turn: what is yielded, if anything, is what the state machine writes. */
    method Turn(broker: InMemoryEventBroker<LogEvent>, ghost c: Conn) returns (out: Option<Item<Payload>>)
      requires Matches(c)
      modifies this, broker
      ensures forall m :: broker.View().Stream(m) == old(broker.View()).Stream(m)
      ensures broker.counter == old(broker.counter)
      ensures var next := Served(c, old(broker.View()).Stream(messageId));
              && Matches(next)
              && next.written == c.written + (if out.Some? then [out.value] else [])
    {
      out := None;
      assert c.written + [] == c.written;
      if returned {
        return;
      }
      if buffered != [] {
        var event := buffered[0];
        cursor, buffered := event.id, buffered[1..];
        out := Some(ItemOf(event));
        returned := IsTerminal(event.payload);
        return;
      }
      var events := broker.Read(messageId, cursor, READ_COUNT);
      match events {
        case Err(_) => returned := true;
        case Ok(found) =>
          if found == [] {
            out := Some(Ping);
          } else {
            buffered := found;
          }
      }
    }
  }

  /** The assistant draft and the reading loop's variables in frontend/src/stores/chat.ts and
      frontend/src/api/chat.ts. */
  class ChatClient {
    var content: string
    var status: MessageStatus
    var steps: seq<AgentStep>
    var error: Option<string>
    var lastEventId: Option<string>
    var buffer: string

    constructor ()
      ensures View() == FRESH_DRAFT && lastEventId == None && buffer == ""
    {
      content, status, steps, error := "", StatusStreaming, [], None;
      lastEventId, buffer := None, "";
    }

    function View(): Draft
      reads this
    {
      Draft(content, status, steps, error)
    }

    /** The event callback: what it does depends on the event's name. */
    method OnEvent(event: WireEvent)
      modifies this
      ensures View() == React(old(View()), event.event, event.data)
      ensures lastEventId == LastIdAfter(old(lastEventId), [event])
      ensures buffer == old(buffer)
    {
      assert [event][..0] == [];
      if Truthy(event.id) {
        lastEventId := event.id;
      }
      if event.event == "step" {
        if event.data.step.Some? {
          steps := steps + [event.data.step.value];
        }
      } else if event.event == "text" {
        content := content + OrEmpty(event.data.text);
      } else if event.event == "text_reset" {
        content := "";
      } else if event.event == "done" {
        status := StatusCompleted;
      } else if event.event == "aborted" {
        status := StatusAborted;
      } else if event.event == "error" {
        status := StatusError;
        error := Some(event.data.message.GetOr(DEFAULT_ERROR));
      }
    }

    /** A reconnect starts parsing afresh; draft and last id stay. */
    method Reconnect() returns (cursor: string)
      modifies this
      ensures View() == old(View()) && lastEventId == old(lastEventId) && buffer == ""
      ensures cursor == RequestCursor(lastEventId)
    {
      buffer := "";
      cursor := RequestCursor(lastEventId);
    }

    /** One read of the body: every complete frame reaches the callback, in order. */
    method OnChunk(chunk: string, codec: Codec) returns (threw: bool)
      modifies this
      ensures var split := Frames(old(buffer) + chunk);
              var d := Deliver(split.frames, codec.parse);
              && View() == FoldSeen(old(View()), d.events)
              && lastEventId == LastIdAfter(old(lastEventId), d.events)
              && threw == d.threw
              && (!threw ==> buffer == split.rest)
    {
      hide FoldSeen, React, LastIdAfter, Frames, Deliver;
      var d, rest := ConsumeFrames(buffer + chunk, codec.parse);
      NoEvents(old(View()), old(lastEventId), d.events);
      for i := 0 to |d.events|
        invariant View() == FoldSeen(old(View()), d.events[..i])
        invariant lastEventId == LastIdAfter(old(lastEventId), d.events[..i])
      {
        OneMoreEvent(old(View()), old(lastEventId), d.events, i);
        OnEvent(d.events[i]);
      }
      assert d.events[..|d.events|] == d.events;
      threw := d.threw;
      buffer := rest;
    }
  }

  lemma NoEvents(draft: Draft, last: Option<string>, events: seq<WireEvent>)
    ensures FoldSeen(draft, events[..0]) == draft && LastIdAfter(last, events[..0]) == last
  {
  }

  lemma OneMoreEvent(draft: Draft, last: Option<string>, events: seq<WireEvent>, i: nat)
    requires i < |events|
    ensures FoldSeen(draft, events[..i + 1]) == React(FoldSeen(draft, events[..i]), events[i].event, events[i].data)
    ensures LastIdAfter(last, events[..i + 1]) == LastIdAfter(LastIdAfter(last, events[..i]), [events[i]])
  {
    hide React;
    assert events[..i + 1][..i] == events[..i] && [events[i]][..0] == [];
  }

  /** `complete_assistant_message`: the stored row set of one message. */
  class StoredMessage {
    var content: string
    var status: MessageStatus
    var rows: seq<AgentStep>

    constructor ()
      ensures content == "" && status == StatusStreaming && rows == []
    {
      content, status, rows := "", StatusStreaming, [];
    }

    function View(): MessageView
      reads this
    {
      MessageView(content, status, ByIndex(rows))
    }

    /** Replaces text, status and steps in one transaction; two steps with one index abort it and
        leave the message as it was. */
    method CompleteMessage(call: StoreCall) returns (stored: bool)
      modifies this
      ensures stored <==> Complete(call).Some?
      ensures View() == if stored then Complete(call).value else old(View())
    {
      var replaced: seq<AgentStep> := [];
      for i := 0 to |call.steps|
        invariant replaced == call.steps[..i]
        invariant DistinctIndexes(replaced)
      {
        var clash := false;
        for j := 0 to i
          invariant clash <==> exists k :: 0 <= k < j && replaced[k].step == call.steps[i].step
        {
          if replaced[j].step == call.steps[i].step {
            clash := true;
          }
        }
        if clash {
          return false;
        }
        replaced := replaced + [call.steps[i]];
      }
      assert call.steps[..|call.steps|] == call.steps;
      content, status, rows := call.content, call.status, replaced;
      return true;
    }
  }
}
