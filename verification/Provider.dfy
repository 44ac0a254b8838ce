/** The streaming side of the model provider (`chat_stream` and `_parse_stream_chunk` in
    backend/app/llm/openai_compat.py): attempts, retries, and the events one answer yields. */
module Provider {
  import opened Text
  import opened AgentModels
  import opened ToolCallAssembly
  import opened ModelCall

  /** The part of a decoded chunk the parser looks at. */
  datatype Choice = Choice(content: Option<string>, toolCalls: seq<ToolCallDelta>, finishReason: Option<string>)

  datatype Chunk = NotJson | Chunk(usage: Option<TokenUsage>, choice: Option<Choice>)

  function Typed(kind: StreamKind): StreamEvent {
    StreamEvent(kind, None, None, None, None)
  }

  function ParseStreamChunk(c: Chunk): Option<StreamEvent> {
    match c
    case NotJson => None
    case Chunk(usage, choice) =>
      if usage.Some? then Some(Typed(UsageKind).(usage := usage))
      else if choice.None? then None
      else if Truthy(choice.value.content) then Some(Typed(TextKind).(contentDelta := choice.value.content))
      else if choice.value.toolCalls != [] then
        Some(Typed(ToolCallKind).(toolCallDelta := Some(choice.value.toolCalls[0])))
      else if Truthy(choice.value.finishReason) then
        Some(Typed(FinishKind).(finishReason := choice.value.finishReason))
      else None
  }

  function ParseChunks(chunks: seq<Chunk>): seq<StreamEvent> {
    if chunks == [] then []
    else
      var e := ParseStreamChunk(chunks[|chunks| - 1]);
      ParseChunks(chunks[..|chunks| - 1]) + (if e.Some? then [e.value] else [])
  }

  /** One HTTP attempt: a status worth retrying, an error status, or a body that is read until
      its end marker (or end of input) or until the transport breaks. */
  datatype Attempt =
    | RetryableStatus
    | ErrorStatus
    | Body(chunks: seq<Chunk>, broken: bool)

  const HTTP_ERROR := "HTTPStatusError"
  const TRANSPORT_ERROR := "TransportError"

  /** Nothing has been read and the cause may pass: a status worth retrying, or a transport that broke
      before the first chunk. */
  predicate WorthRetrying(a: Attempt) {
    a.RetryableStatus? || (a.Body? && a.broken && a.chunks == [])
  }

  /** The retry loop.  It goes on exactly while an attempt is worth retrying and attempts remain; the
      caller gets the events of the last attempt only, and a failure unless its body came to its end.
      An attempt after which anything was read is never repeated, so no delta is delivered twice. */
  method ChatStream(http: nat -> Attempt, maxRetries: nat) returns (reply: StreamReply, attempts: nat)
    ensures 1 <= attempts <= maxRetries + 1
    ensures forall j :: 0 <= j < attempts - 1 ==> WorthRetrying(http(j))
    ensures WorthRetrying(http(attempts - 1)) ==> attempts == maxRetries + 1
    ensures reply.events == if http(attempts - 1).Body? then ParseChunks(http(attempts - 1).chunks) else []
    ensures reply.failure == match http(attempts - 1) {
              case Body(_, broken) => if broken then Some("TransportError") else None
              case _ => Some("HTTPStatusError")
            }
  {
    var emittedData := false;
    var events: seq<StreamEvent> := [];
    var attempt := 0;
    while true
      invariant attempt <= maxRetries
      invariant !emittedData && events == []
      invariant forall j :: 0 <= j < attempt ==> WorthRetrying(http(j))
      decreases maxRetries - attempt
    {
      var response := http(attempt);
      match response {
        case RetryableStatus =>
          if attempt >= maxRetries {
            return StreamReply(events, Some(HTTP_ERROR)), attempt + 1;
          }
        case ErrorStatus =>
          return StreamReply(events, Some(HTTP_ERROR)), attempt + 1;
        case Body(chunks, broken) =>
          for i := 0 to |chunks|
            invariant events == ParseChunks(chunks[..i])
            invariant emittedData <==> i > 0
          {
            emittedData := true;
            var e := ParseStreamChunk(chunks[i]);
            assert chunks[..i + 1][..i] == chunks[..i];
            if e.Some? {
              events := events + [e.value];
            }
          }
          assert chunks[..|chunks|] == chunks;
          if !broken {
            return StreamReply(events, None), attempt + 1;
          }
          if emittedData || attempt >= maxRetries {
            return StreamReply(events, Some(TRANSPORT_ERROR)), attempt + 1;
          }
      }
      attempt := attempt + 1;
    }
  }

  /** Usage only ever travels on usage events. */
  predicate WellTyped(events: seq<StreamEvent>) {
    forall i :: 0 <= i < |events| ==> (events[i].usage.Some? ==> events[i].kind == UsageKind)
  }

  lemma {:induction false} ParsedChunksAreWellTyped(chunks: seq<Chunk>)
    ensures WellTyped(ParseChunks(chunks))
  {
    if chunks != [] {
      ParsedChunksAreWellTyped(chunks[..|chunks| - 1]);
    }
  }

  // What a chunk loses

  /** Everything a chunk carries, in the order in which the parser looks for it. */
  function PiecesOf(c: Chunk): seq<StreamEvent> {
    if c.NotJson? then []
    else
      (if c.usage.Some? then [Typed(UsageKind).(usage := c.usage)] else [])
      + (if c.choice.None? then [] else ChoicePieces(c.choice.value))
  }

  function ChoicePieces(c: Choice): seq<StreamEvent> {
    (if Truthy(c.content) then [Typed(TextKind).(contentDelta := c.content)] else [])
    + ToolPieces(c.toolCalls)
    + (if Truthy(c.finishReason) then [Typed(FinishKind).(finishReason := c.finishReason)] else [])
  }

  function ToolPieces(deltas: seq<ToolCallDelta>): (r: seq<StreamEvent>)
    ensures |r| == |deltas|
  {
    seq(|deltas|, i requires 0 <= i < |deltas| => Typed(ToolCallKind).(toolCallDelta := Some(deltas[i])))
  }

  function AllPieces(chunks: seq<Chunk>): seq<StreamEvent> {
    if chunks == [] then [] else AllPieces(chunks[..|chunks| - 1]) + PiecesOf(chunks[|chunks| - 1])
  }

  /** Of all a chunk carries the parser keeps the first piece. */
  lemma OnlyTheFirstPieceIsKept(c: Chunk)
    ensures ParseStreamChunk(c) == if PiecesOf(c) == [] then None else Some(PiecesOf(c)[0])
  {
    if c.Chunk? && c.choice.Some? {
      assert ToolPieces(c.choice.value.toolCalls) == [] <==> c.choice.value.toolCalls == [];
    }
  }

  lemma {:induction false} NeverMoreThanAllPieces(chunks: seq<Chunk>)
    ensures |ParseChunks(chunks)| <= |AllPieces(chunks)|
  {
    if chunks != [] {
      NeverMoreThanAllPieces(chunks[..|chunks| - 1]);
      OnlyTheFirstPieceIsKept(chunks[|chunks| - 1]);
    }
  }

  predicate OnePieceEach(chunks: seq<Chunk>) {
    forall i :: 0 <= i < |chunks| ==> |PiecesOf(chunks[i])| <= 1
  }

  /** The parsed stream is all that the chunks carry if and only if no chunk carries two pieces: a second
      tool call, or a tool call or finish beside text or usage, is dropped. */
  lemma {:induction false} NothingIsLostIffOnePieceEach(chunks: seq<Chunk>)
    ensures ParseChunks(chunks) == AllPieces(chunks) <==> OnePieceEach(chunks)
  {
    hide PiecesOf, ParseStreamChunk;
    if chunks != [] {
      var n := |chunks| - 1;
      var before, last := chunks[..n], PiecesOf(chunks[n]);
      NothingIsLostIffOnePieceEach(before);
      NeverMoreThanAllPieces(before);
      OnlyTheFirstPieceIsKept(chunks[n]);
      assert OnePieceEach(chunks) <==> OnePieceEach(before) && |last| <= 1;
      var kept := if last == [] then [] else [last[0]];
      assert ParseChunks(chunks) == ParseChunks(before) + kept && AllPieces(chunks) == AllPieces(before) + last;
      SplitEqual(ParseChunks(before), kept, AllPieces(before), last);
    }
  }

  lemma SplitEqual(a: seq<StreamEvent>, kept: seq<StreamEvent>, b: seq<StreamEvent>, all: seq<StreamEvent>)
    requires |a| <= |b| && kept == if all == [] then [] else [all[0]]
    ensures a + kept == b + all <==> a == b && |all| <= 1
  {
    if a + kept == b + all {
      assert |a| == |b| && |all| <= 1;
      assert a == (a + kept)[..|a|] && b == (b + all)[..|b|];
    }
  }

  lemma SecondToolCallIsDropped(first: ToolCallDelta, second: ToolCallDelta)
    ensures ParseChunks([Chunk(None, Some(Choice(None, [first, second], None)))])
         == [Typed(ToolCallKind).(toolCallDelta := Some(first))]
  {
    var c := Chunk(None, Some(Choice(None, [first, second], None)));
    assert [c][..0] == [];
    assert ParseChunks([]) + [Typed(ToolCallKind).(toolCallDelta := Some(first))]
        == [Typed(ToolCallKind).(toolCallDelta := Some(first))];
  }

  // What a stream spells

  function TextOf(c: Chunk): string {
    if c.Chunk? && c.choice.Some? then c.choice.value.content.GetOr("") else ""
  }

  function DeltasOf(c: Chunk): seq<ToolCallDelta> {
    if c.Chunk? && c.choice.Some? then c.choice.value.toolCalls else []
  }

  function FinishOf(c: Chunk): Option<string> {
    if c.Chunk? && c.choice.Some? && Truthy(c.choice.value.finishReason) then c.choice.value.finishReason else None
  }

  function AllText(chunks: seq<Chunk>): string {
    if chunks == [] then "" else AllText(chunks[..|chunks| - 1]) + TextOf(chunks[|chunks| - 1])
  }

  function AllDeltas(chunks: seq<Chunk>): seq<ToolCallDelta> {
    if chunks == [] then [] else AllDeltas(chunks[..|chunks| - 1]) + DeltasOf(chunks[|chunks| - 1])
  }

  function UsageGiven(chunks: seq<Chunk>): TokenUsage {
    if chunks == [] then TokenUsage(0, 0)
    else
      var last := chunks[|chunks| - 1];
      if last.Chunk? && last.usage.Some? then last.usage.value else UsageGiven(chunks[..|chunks| - 1])
  }

  function FinishGiven(chunks: seq<Chunk>): Option<string> {
    if chunks == [] then None
    else
      var last := FinishOf(chunks[|chunks| - 1]);
      if last.Some? then last else FinishGiven(chunks[..|chunks| - 1])
  }

  lemma {:induction false} TextAppend(a: seq<StreamEvent>, b: seq<StreamEvent>)
    ensures TextIn(a + b) == TextIn(a) + TextIn(b)
    decreases |b|
  {
    if b == [] {
      assert a + b == a;
    } else {
      var n := |b| - 1;
      assert (a + b)[..|a| + n] == a + b[..n];
      TextAppend(a, b[..n]);
    }
  }

  lemma {:induction false} DeltasAppend(a: seq<StreamEvent>, b: seq<StreamEvent>)
    ensures DeltasIn(a + b) == DeltasIn(a) + DeltasIn(b)
    decreases |b|
  {
    if b == [] {
      assert a + b == a;
      assert DeltasIn(a) + [] == DeltasIn(a);
    } else {
      var n := |b| - 1;
      assert (a + b)[..|a| + n] == a + b[..n];
      DeltasAppend(a, b[..n]);
    }
  }

  lemma {:induction false} ToolPiecesSayTheDeltas(deltas: seq<ToolCallDelta>)
    ensures DeltasIn(ToolPieces(deltas)) == deltas && TextIn(ToolPieces(deltas)) == ""
    ensures forall i :: 0 <= i < |deltas| ==> ToolPieces(deltas)[i].kind == ToolCallKind
  {
    var pieces := ToolPieces(deltas);
    if deltas != [] {
      var n := |deltas| - 1;
      ToolPiecesSayTheDeltas(deltas[..n]);
      forall i | 0 <= i < n
        ensures pieces[i] == ToolPieces(deltas[..n])[i]
      {
        assert deltas[..n][i] == deltas[i];
      }
      assert pieces[..n] == ToolPieces(deltas[..n]);
      assert deltas == deltas[..n] + [deltas[n]];
      assert pieces[n] == Typed(ToolCallKind).(toolCallDelta := Some(deltas[n]));
      assert TextIn(pieces) == TextIn(pieces[..n]) + "";
    }
  }

  lemma OnePieceSays(c: Chunk)
    requires |PiecesOf(c)| <= 1
    ensures TextIn(PiecesOf(c)) == TextOf(c) && DeltasIn(PiecesOf(c)) == DeltasOf(c)
  {
    var pieces := PiecesOf(c);
    if c.Chunk? && c.choice.Some? {
      var deltas := c.choice.value.toolCalls;
      ToolPiecesSayTheDeltas(deltas);
      assert deltas != [] ==> pieces == ToolPieces(deltas);
    }
    if pieces != [] {
      assert pieces[..0] == [];
    }
  }

  lemma OnePieceEnds(c: Chunk, before: seq<StreamEvent>)
    requires |PiecesOf(c)| <= 1
    ensures UsageIn(before + PiecesOf(c)) == if c.Chunk? && c.usage.Some? then c.usage.value else UsageIn(before)
    ensures FinishIn(before + PiecesOf(c)) == if FinishOf(c).Some? then FinishOf(c) else FinishIn(before)
  {
    var pieces := PiecesOf(c);
    if c.Chunk? && c.choice.Some? {
      var deltas := c.choice.value.toolCalls;
      ToolPiecesSayTheDeltas(deltas);
      assert deltas != [] ==> pieces == ToolPieces(deltas);
    }
    if pieces == [] {
      assert before + pieces == before;
    } else {
      assert (before + pieces)[..|before|] == before;
    }
  }

  lemma ParsedOneMore(chunks: seq<Chunk>)
    requires OnePieceEach(chunks) && chunks != []
    ensures var n := |chunks| - 1;
            && OnePieceEach(chunks[..n]) && |PiecesOf(chunks[n])| <= 1
            && ParseChunks(chunks) == ParseChunks(chunks[..n]) + PiecesOf(chunks[n])
  {
    hide PiecesOf, ParseStreamChunk;
    var n := |chunks| - 1;
    OnePieceBefore(chunks, n);
    hide OnePieceEach;
    OnlyTheFirstPieceIsKept(chunks[n]);
    var last := PiecesOf(chunks[n]);
    assert last == if last == [] then [] else [last[0]];
  }

  lemma OnePieceBefore(chunks: seq<Chunk>, n: nat)
    requires OnePieceEach(chunks) && n < |chunks|
    ensures OnePieceEach(chunks[..n]) && |PiecesOf(chunks[n])| <= 1
  {
    hide PiecesOf;
  }

  lemma {:induction false} StreamSpells(chunks: seq<Chunk>)
    requires OnePieceEach(chunks)
    ensures TextIn(ParseChunks(chunks)) == AllText(chunks)
    ensures DeltasIn(ParseChunks(chunks)) == AllDeltas(chunks)
  {
    hide PiecesOf, OnePieceEach, TextIn, DeltasIn, TextOf, DeltasOf;
    if chunks == [] {
      NothingSays();
    } else {
      var n := |chunks| - 1;
      ParsedOneMore(chunks);
      StreamSpells(chunks[..n]);
      OnePieceSays(chunks[n]);
      hide ParseChunks;
      TextAppend(ParseChunks(chunks[..n]), PiecesOf(chunks[n]));
      DeltasAppend(ParseChunks(chunks[..n]), PiecesOf(chunks[n]));
    }
  }

  lemma {:induction false} StreamEnds(chunks: seq<Chunk>)
    requires OnePieceEach(chunks)
    ensures UsageIn(ParseChunks(chunks)) == UsageGiven(chunks)
    ensures FinishIn(ParseChunks(chunks)) == FinishGiven(chunks)
  {
    hide PiecesOf, OnePieceEach, UsageIn, FinishIn, FinishOf;
    if chunks == [] {
      NothingSays();
    } else {
      var n := |chunks| - 1;
      ParsedOneMore(chunks);
      StreamEnds(chunks[..n]);
      hide ParseChunks;
      OnePieceEnds(chunks[n], ParseChunks(chunks[..n]));
    }
  }

  lemma NothingSays()
    ensures TextIn([]) == "" && DeltasIn([]) == [] && UsageIn([]) == TokenUsage(0, 0) && FinishIn([]) == None
  {
  }

  /** If no chunk carries two pieces, the stream says what the chunks say: their texts joined, all their
      call deltas in order, and the last usage and finish reason among them. */
  lemma StreamSaysWhatTheChunksSay(chunks: seq<Chunk>)
    requires OnePieceEach(chunks)
    ensures var events := ParseChunks(chunks);
            && TextIn(events) == AllText(chunks) && DeltasIn(events) == AllDeltas(chunks)
            && UsageIn(events) == UsageGiven(chunks) && FinishIn(events) == FinishGiven(chunks)
  {
    StreamSpells(chunks);
    StreamEnds(chunks);
  }

  // From chunks to calls

  /** If no chunk carries two pieces and their call deltas spell out a message's calls, the streamed
      answer has the calls of the non-streaming parser, and fails exactly when that does. */
  lemma ChunkedAnswerHasTheCallsOfTheMessage(chunks: seq<Chunk>, raw: seq<RawCall>, loads: string -> Option<JsonObject>)
    requires OnePieceEach(chunks) && SpellsOut(AllDeltas(chunks), raw)
    ensures var response := StreamedOutcome(StreamReply(ParseChunks(chunks), None), loads).response;
            var whole := ParseToolCalls(raw, loads);
            && (response.Ok? <==> whole.Ok?)
            && (response.Ok? ==> response.value.toolCalls == whole.value)
  {
    hide AbsorbAll, PartsOf, Assembled, DeltasIn, AllDeltas, TextIn, AllText, UsageIn, UsageGiven, FinishIn;
    hide FinishGiven, SpellsOut, OnePieceEach, ParseChunks;
    StreamSaysWhatTheChunksSay(chunks);
    AbsorbedIsWhatArrived(ParseChunks(chunks));
    StreamingRefinesWholeMessageParse(AllDeltas(chunks), raw, loads);
  }
}
