/** One model call of the agent (`_stream_model_response` in backend/app/agent/loop.py): the
    events it shows while the answer arrives, and the response it ends with. */
module ModelCall {
  import opened Text
  import opened AgentModels
  import opened ToolCallAssembly

  datatype CallOutcome = CallOutcome(events: seq<AgentEvent>, response: Result<LLMResponse, string>)

  /** The running totals kept while a streamed answer arrives. */
  datatype Arrival = Arrival(
    text: string,
    textParts: nat,
    parts: map<nat, Part>,
    usage: TokenUsage,
    finishReason: Option<string>,
    shown: seq<AgentEvent>)

  const NOTHING_YET := Arrival("", 0, map[], NO_USAGE, None, [])

  function Absorb(a: Arrival, e: StreamEvent): Arrival {
    if e.kind == TextKind && Truthy(e.contentDelta) then
      a.(text := a.text + e.contentDelta.value,
         textParts := a.textParts + 1,
         shown := a.shown + [TextDelta(e.contentDelta.value)])
    else if e.kind == ToolCallKind && e.toolCallDelta.Some? then
      a.(parts := AddDelta(a.parts, e.toolCallDelta.value))
    else if e.kind == UsageKind && e.usage.Some? then
      a.(usage := e.usage.value)
    else if e.kind == FinishKind then
      a.(finishReason := e.finishReason)
    else a
  }

  function AbsorbAll(events: seq<StreamEvent>): Arrival {
    if events == [] then NOTHING_YET else Absorb(AbsorbAll(events[..|events| - 1]), events[|events| - 1])
  }

  ghost function StreamedOutcome(reply: StreamReply, loads: string -> Option<JsonObject>): CallOutcome {
    var a := AbsorbAll(reply.events);
    if reply.failure.Some? then CallOutcome(a.shown, Err(reply.failure.value))
    else
      var calls := Assembled(a.parts, loads);
      if calls.Err? then CallOutcome(a.shown, Err(calls.error))
      else CallOutcome(
             a.shown + (if calls.value != [] && a.textParts > 0 then [TextReset] else []),
             Ok(LLMResponse(
                  if calls.value == [] then Some(a.text) else None,
                  calls.value, a.usage, a.finishReason)))
  }

  function WholeOutcome(reply: Result<LLMResponse, string>): CallOutcome {
    if reply.Err? then CallOutcome([], reply)
    else
      var r := reply.value;
      CallOutcome(
        (if Truthy(r.content) then [TextDelta(r.content.value)] else [])
        + (if r.toolCalls != [] && Truthy(r.content) then [TextReset] else []),
        reply)
  }

  predicate Streams(cfg: AgentConfig, env: Environment) {
    cfg.streamModel && env.canStream
  }

  ghost function Outcome(cfg: AgentConfig, env: Environment, step: nat, messages: seq<ChatMessage>): CallOutcome {
    if Streams(cfg, env) then StreamedOutcome(env.chatStream(step, messages), env.loads)
    else WholeOutcome(env.chat(step, messages))
  }

  method StreamModelResponse(cfg: AgentConfig, env: Environment, step: nat, messages: seq<ChatMessage>)
    returns (r: CallOutcome)
    ensures r == Outcome(cfg, env, step, messages)
  {
    var out: seq<AgentEvent> := [];
    if !Streams(cfg, env) {
      var reply := env.chat(step, messages);
      if reply.Err? {
        return CallOutcome(out, reply);
      }
      var response := reply.value;
      if Truthy(response.content) {
        out := out + [TextDelta(response.content.value)];
      }
      if response.toolCalls != [] && Truthy(response.content) {
        out := out + [TextReset];
      }
      return CallOutcome(out, reply);
    }

    var text, textParts, parts := "", 0, map[];
    var usage, finishReason := NO_USAGE, None;
    var reply := env.chatStream(step, messages);
    for i := 0 to |reply.events|
      invariant Arrival(text, textParts, parts, usage, finishReason, out) == AbsorbAll(reply.events[..i])
    {
      var event := reply.events[i];
      assert reply.events[..i + 1][..i] == reply.events[..i];
      if event.kind == TextKind && Truthy(event.contentDelta) {
        text, textParts := text + event.contentDelta.value, textParts + 1;
        out := out + [TextDelta(event.contentDelta.value)];
      } else if event.kind == ToolCallKind && event.toolCallDelta.Some? {
        parts := AddDelta(parts, event.toolCallDelta.value);
      } else if event.kind == UsageKind && event.usage.Some? {
        usage := event.usage.value;
      } else if event.kind == FinishKind {
        finishReason := event.finishReason;
      }
    }
    assert reply.events[..|reply.events|] == reply.events;
    if reply.failure.Some? {
      return CallOutcome(out, Err(reply.failure.value));
    }
    var calls := AssembleToolCalls(parts, env.loads);
    if calls.Err? {
      return CallOutcome(out, Err(calls.error));
    }
    if calls.value != [] && textParts > 0 {
      out := out + [TextReset];
    }
    return CallOutcome(out, Ok(LLMResponse(
                                 if calls.value == [] then Some(text) else None,
                                 calls.value, usage, finishReason)));
  }

  // What a reader of the event stream has on screen

  /** The text shown after `events`, starting from `shown`. */
  function ShownText(shown: string, events: seq<AgentEvent>): string {
    if events == [] then shown
    else
      var before := ShownText(shown, events[..|events| - 1]);
      match events[|events| - 1]
      case TextDelta(t) => before + t
      case TextReset => ""
      case Step(_) => before
      case Finished(_) => before
  }

  lemma {:induction false} ShownTextAppend(shown: string, a: seq<AgentEvent>, b: seq<AgentEvent>)
    ensures ShownText(shown, a + b) == ShownText(ShownText(shown, a), b)
  {
    if b == [] {
      assert a + b == a;
    } else {
      assert (a + b)[..|a + b| - 1] == a + b[..|b| - 1];
      ShownTextAppend(shown, a, b[..|b| - 1]);
    }
  }

  predicate OnlyText(events: seq<AgentEvent>) {
    forall i :: 0 <= i < |events| ==> events[i].TextDelta? || events[i].TextReset?
  }

  predicate ShowsItsText(a: Arrival) {
    && ShownText("", a.shown) == a.text
    && (a.textParts == 0 ==> a.text == "")
    && OnlyText(a.shown)
  }

  lemma {:induction false} AbsorbShowsItsText(a: Arrival, e: StreamEvent)
    requires ShowsItsText(a)
    ensures ShowsItsText(Absorb(a, e))
  {
    hide AddDelta;
    if e.kind == TextKind && Truthy(e.contentDelta) {
      var delta := TextDelta(e.contentDelta.value);
      assert (a.shown + [delta])[..|a.shown|] == a.shown;
    }
  }

  lemma {:induction false} ArrivalShowsItsText(events: seq<StreamEvent>)
    ensures ShowsItsText(AbsorbAll(events))
  {
    hide ShowsItsText, Absorb;
    if events == [] {
      NothingIsShownYet();
    } else {
      ArrivalShowsItsText(events[..|events| - 1]);
      AbsorbShowsItsText(AbsorbAll(events[..|events| - 1]), events[|events| - 1]);
    }
  }

  lemma NothingIsShownYet()
    ensures ShowsItsText(NOTHING_YET)
  {
  }

  lemma ShownByShortLists(shown: string, t: string)
    ensures ShownText(shown, [TextDelta(t)]) == shown + t
    ensures ShownText(shown, [TextReset]) == ""
    ensures ShownText(shown, [TextDelta(t), TextReset]) == ""
  {
    assert [TextDelta(t)][..0] == [];
    assert [TextReset][..0] == [];
  }

  predicate ScreenMatches(o: CallOutcome) {
    && OnlyText(o.events)
    && (o.response.Ok? ==>
          ShownText("", o.events)
          == if o.response.value.toolCalls == [] then OrEmpty(o.response.value.content) else "")
  }

  lemma ScreenAfterStream(reply: StreamReply, loads: string -> Option<JsonObject>)
    ensures ScreenMatches(StreamedOutcome(reply, loads))
  {
    hide AbsorbAll, Assembled, ShownText;
    var a := AbsorbAll(reply.events);
    ArrivalShowsItsText(reply.events);
    ShownTextAppend("", a.shown, [TextReset]);
    ShownByShortLists(a.text, "");
    assert a.shown + [] == a.shown;
  }

  lemma ScreenAfterWhole(reply: Result<LLMResponse, string>)
    ensures ScreenMatches(WholeOutcome(reply))
  {
    var o := WholeOutcome(reply);
    if reply.Ok? && Truthy(reply.value.content) {
      var t := reply.value.content.value;
      ShownByShortLists("", t);
      if reply.value.toolCalls != [] {
        assert o.events == [TextDelta(t), TextReset];
      } else {
        assert o.events == [TextDelta(t)];
      }
    }
  }

  /** On a clean screen, a model call that asks for tools leaves the screen clean, and one that
      answers leaves exactly its answer, whether or not the model streams. */
  lemma ScreenAfterModelCall(cfg: AgentConfig, env: Environment, step: nat, messages: seq<ChatMessage>)
    ensures ScreenMatches(Outcome(cfg, env, step, messages))
  {
    ScreenAfterStream(env.chatStream(step, messages), env.loads);
    ScreenAfterWhole(env.chat(step, messages));
  }

  // What the response says

  /** The text pieces of a stream, joined. */
  function TextIn(events: seq<StreamEvent>): string {
    if events == [] then ""
    else
      var last := events[|events| - 1];
      TextIn(events[..|events| - 1])
      + (if last.kind == TextKind && last.contentDelta.Some? then last.contentDelta.value else "")
  }

  /** The last usage and the last finish reason a stream gives. */
  function UsageIn(events: seq<StreamEvent>): TokenUsage {
    if events == [] then TokenUsage(0, 0)
    else
      var last := events[|events| - 1];
      if last.kind == UsageKind && last.usage.Some? then last.usage.value else UsageIn(events[..|events| - 1])
  }

  function FinishIn(events: seq<StreamEvent>): Option<string> {
    if events == [] then None
    else
      var last := events[|events| - 1];
      if last.kind == FinishKind then last.finishReason else FinishIn(events[..|events| - 1])
  }

  function DeltasIn(events: seq<StreamEvent>): seq<ToolCallDelta> {
    if events == [] then []
    else
      var last := events[|events| - 1];
      DeltasIn(events[..|events| - 1])
      + (if last.kind == ToolCallKind && last.toolCallDelta.Some? then [last.toolCallDelta.value] else [])
  }

  lemma {:induction false} AbsorbedIsWhatArrived(events: seq<StreamEvent>)
    ensures var a := AbsorbAll(events);
            && a.text == TextIn(events)
            && a.usage == UsageIn(events)
            && a.finishReason == FinishIn(events)
            && a.parts == PartsOf(DeltasIn(events))
  {
    hide AddDelta;
    if events != [] {
      var n := |events| - 1;
      AbsorbedIsWhatArrived(events[..n]);
      var before, last := DeltasIn(events[..n]), events[n];
      assert TextIn(events[..n]) + "" == TextIn(events[..n]);
      if last.kind == ToolCallKind && last.toolCallDelta.Some? {
        assert (before + [last.toolCallDelta.value])[..|before|] == before;
      } else {
        assert before + [] == before;
      }
    }
  }

  /** The model is asked in the mode that is configured and available, about just these messages.  A whole
      answer is passed on; a stream that breaks or spells unreadable calls fails, and any other gives its
      calls, or without calls its joined text, with the last usage and finish reason. */
  lemma ResponseIsTheModels(cfg: AgentConfig, env: Environment, step: nat, messages: seq<ChatMessage>)
    ensures var response := Outcome(cfg, env, step, messages).response;
            if cfg.streamModel && env.canStream then
              var reply := env.chatStream(step, messages);
              var calls := Assembled(PartsOf(DeltasIn(reply.events)), env.loads);
              response ==
                if reply.failure.Some? then Err(reply.failure.value)
                else if calls.Err? then Err(calls.error)
                else Ok(LLMResponse(
                          if calls.value == [] then Some(TextIn(reply.events)) else None,
                          calls.value, UsageIn(reply.events), FinishIn(reply.events)))
            else response == env.chat(step, messages)
  {
    hide AbsorbAll, Assembled, PartsOf, TextIn, UsageIn, FinishIn, DeltasIn;
    AbsorbedIsWhatArrived(env.chatStream(step, messages).events);
  }

  // What is shown while it arrives

  /** One event per text piece that is not empty. */
  function PiecesShown(events: seq<StreamEvent>): seq<AgentEvent> {
    if events == [] then []
    else
      var last := events[|events| - 1];
      PiecesShown(events[..|events| - 1])
      + (if last.kind == TextKind && last.contentDelta.Some? && last.contentDelta.value != ""
         then [TextDelta(last.contentDelta.value)] else [])
  }

  lemma {:induction false} AbsorbedIsShown(events: seq<StreamEvent>)
    ensures AbsorbAll(events).shown == PiecesShown(events)
    ensures AbsorbAll(events).textParts == |PiecesShown(events)|
  {
    if events != [] {
      AbsorbedIsShown(events[..|events| - 1]);
    }
  }

  /** A stream shows each of its text pieces, a whole answer its text at once, and nothing shows an empty
      piece; if tools are asked for after something has been shown, and only then, it is taken back. */
  lemma ModelCallShows(cfg: AgentConfig, env: Environment, step: nat, messages: seq<ChatMessage>)
    ensures var o := Outcome(cfg, env, step, messages);
            var shown := if cfg.streamModel && env.canStream then PiecesShown(env.chatStream(step, messages).events)
                         else if o.response.Ok? && OrEmpty(o.response.value.content) != ""
                         then [TextDelta(o.response.value.content.value)]
                         else [];
            o.events == if o.response.Ok? && o.response.value.toolCalls != [] && shown != []
                        then shown + [TextReset]
                        else shown
  {
    hide AbsorbAll, Assembled, PiecesShown;
    var events := env.chatStream(step, messages).events;
    AbsorbedIsShown(events);
    assert PiecesShown(events) + [] == PiecesShown(events);
  }
}
