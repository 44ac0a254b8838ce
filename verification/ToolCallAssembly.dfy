/** Putting streamed tool calls back together (`_stream_model_response` and
    `_assemble_tool_calls` in backend/app/agent/loop.py) and why the result is the list the
    non-streaming parser (`_parse_tool_calls` in backend/app/llm/openai_compat.py) gives. */
module ToolCallAssembly {
  import opened Text
  import opened AgentModels

  datatype Part = Part(id: string, name: string, arguments: string)

  const EMPTY_PART := Part("", "", "")

  function AbsorbDelta(part: Part, d: ToolCallDelta): Part {
    Part(
      if Truthy(d.id) then d.id.value else part.id,
      if Truthy(d.name) then d.name.value else part.name,
      part.arguments + OrEmpty(d.argumentsDelta))
  }

  function AddDelta(parts: map<nat, Part>, d: ToolCallDelta): map<nat, Part> {
    var part := if d.index in parts then parts[d.index] else EMPTY_PART;
    parts[d.index := AbsorbDelta(part, d)]
  }

  function PartsOf(deltas: seq<ToolCallDelta>): map<nat, Part> {
    if deltas == [] then map[] else AddDelta(PartsOf(deltas[..|deltas| - 1]), deltas[|deltas| - 1])
  }

  // Ascending order of the indexes seen

  ghost function Least(keys: set<nat>): (m: nat)
    requires keys != {}
    ensures m in keys
    ensures forall k :: k in keys ==> m <= k
  {
    var x :| x in keys;
    if keys == {x} then x
    else
      var m := Least(keys - {x});
      assert forall k :: k in keys ==> k == x || k in keys - {x};
      if x < m then x else m
  }

  ghost function Ascending(keys: set<nat>): (order: seq<nat>)
    ensures forall k :: k in keys <==> k in order
  {
    if keys == {} then [] else [Least(keys)] + Ascending(keys - {Least(keys)})
  }

  method Sorted(keys: set<nat>) returns (order: seq<nat>)
    ensures order == Ascending(keys)
  {
    order := [];
    var rest := keys;
    while rest != {}
      invariant order + Ascending(rest) == Ascending(keys)
      decreases rest
    {
      ghost var least := Least(rest);
      var m :| m in rest && forall k :: k in rest ==> m <= k;
      assert m == least;
      order := order + [m];
      rest := rest - {m};
    }
  }

  function CallAt(index: nat, part: Part, loads: string -> Option<JsonObject>): Option<ToolCall> {
    var arguments := loads(if part.arguments == "" then "{}" else part.arguments);
    if arguments.None? then None
    else Some(ToolCall(
                if part.id != "" then part.id else "stream-call-" + Decimal(index),
                part.name,
                arguments.value))
  }

  const BAD_ARGUMENTS := "ValueError: Invalid streamed tool call arguments"

  function AssembleInOrder(order: seq<nat>, parts: map<nat, Part>, loads: string -> Option<JsonObject>)
    : Result<seq<ToolCall>, string>
    requires forall k :: k in order ==> k in parts
  {
    if order == [] then Ok([])
    else
      var rest := AssembleInOrder(order[1..], parts, loads);
      var part := parts[order[0]];
      if part.name == "" then rest
      else
        var call := CallAt(order[0], part, loads);
        if call.None? then Err(BAD_ARGUMENTS)
        else Prepend([call.value], rest)
  }

  ghost function Assembled(parts: map<nat, Part>, loads: string -> Option<JsonObject>)
    : Result<seq<ToolCall>, string>
  {
    AssembleInOrder(Ascending(parts.Keys), parts, loads)
  }

  function Prepend(calls: seq<ToolCall>, rest: Result<seq<ToolCall>, string>): Result<seq<ToolCall>, string> {
    if rest.Err? then rest else Ok(calls + rest.value)
  }

  lemma PrependNothing(rest: Result<seq<ToolCall>, string>)
    ensures Prepend([], rest) == rest
  {
    if rest.Ok? {
      assert [] + rest.value == rest.value;
    }
  }

  lemma PrependTwice(a: seq<ToolCall>, b: seq<ToolCall>, rest: Result<seq<ToolCall>, string>)
    ensures Prepend(a, Prepend(b, rest)) == Prepend(a + b, rest)
  {
    if rest.Ok? {
      assert a + (b + rest.value) == a + b + rest.value;
    }
  }

  method AssembleToolCalls(parts: map<nat, Part>, loads: string -> Option<JsonObject>)
    returns (r: Result<seq<ToolCall>, string>)
    ensures r == Assembled(parts, loads)
  {
    var order := Sorted(parts.Keys);
    var calls := [];
    var i := 0;
    assert order[0..] == order;
    PrependNothing(Assembled(parts, loads));
    while i < |order|
      invariant 0 <= i <= |order|
      invariant Assembled(parts, loads) == Prepend(calls, AssembleInOrder(order[i..], parts, loads))
    {
      var index := order[i];
      var part := parts[index];
      ghost var rest := AssembleInOrder(order[i + 1..], parts, loads);
      assert order[i..][1..] == order[i + 1..];
      if part.name != "" {
        var call := CallAt(index, part, loads);
        if call.None? {
          return Err(BAD_ARGUMENTS);
        }
        PrependTwice(calls, [call.value], rest);
        calls := calls + [call.value];
      }
      i := i + 1;
    }
    assert order[i..] == [] && calls + [] == calls;
    return Ok(calls);
  }

  // Interleaving and fragmentation do not matter

  /** The deltas of one index, in arrival order. */
  function OwnDeltas(index: nat, deltas: seq<ToolCallDelta>): seq<ToolCallDelta> {
    if deltas == [] then []
    else
      var last := deltas[|deltas| - 1];
      OwnDeltas(index, deltas[..|deltas| - 1]) + (if last.index == index then [last] else [])
  }

  function LastTruthy(values: seq<Option<string>>): string {
    if values == [] then ""
    else if Truthy(values[|values| - 1]) then values[|values| - 1].value
    else LastTruthy(values[..|values| - 1])
  }

  function Concatenated(values: seq<Option<string>>): string {
    if values == [] then "" else Concatenated(values[..|values| - 1]) + OrEmpty(values[|values| - 1])
  }

  function Ids(deltas: seq<ToolCallDelta>): seq<Option<string>> {
    seq(|deltas|, i requires 0 <= i < |deltas| => deltas[i].id)
  }

  function Names(deltas: seq<ToolCallDelta>): seq<Option<string>> {
    seq(|deltas|, i requires 0 <= i < |deltas| => deltas[i].name)
  }

  function Fragments(deltas: seq<ToolCallDelta>): seq<Option<string>> {
    seq(|deltas|, i requires 0 <= i < |deltas| => deltas[i].argumentsDelta)
  }

  /** What one index's own deltas say: the last id and name given, and all its argument text. */
  function Merged(own: seq<ToolCallDelta>): Part {
    Part(LastTruthy(Ids(own)), LastTruthy(Names(own)), Concatenated(Fragments(own)))
  }

  lemma {:induction false} MergedAppend(own: seq<ToolCallDelta>, d: ToolCallDelta)
    ensures Merged(own + [d]) == AbsorbDelta(Merged(own), d)
  {
    var all := own + [d];
    assert Ids(all)[..|own|] == Ids(own);
    assert Names(all)[..|own|] == Names(own);
    assert Fragments(all)[..|own|] == Fragments(own);
  }

  /** Each part depends only on its own index's deltas, whatever they are interleaved with. */
  lemma {:induction false} PartsAreMergedPerIndex(deltas: seq<ToolCallDelta>)
    ensures forall k: nat :: k in PartsOf(deltas) <==> OwnDeltas(k, deltas) != []
    ensures forall k: nat :: k in PartsOf(deltas) ==> PartsOf(deltas)[k] == Merged(OwnDeltas(k, deltas))
  {
    if deltas != [] {
      var before, last := deltas[..|deltas| - 1], deltas[|deltas| - 1];
      PartsAreMergedPerIndex(before);
      MergedAppend(OwnDeltas(last.index, before), last);
      if OwnDeltas(last.index, before) == [] {
        assert Merged([]) == EMPTY_PART;
      }
      forall k: nat | k != last.index
        ensures OwnDeltas(k, deltas) == OwnDeltas(k, before)
      {
      }
    }
  }

  /** Two streams whose indexes carry the same ids, names and joined argument text assemble to the
      same calls: interleaving across indexes and cutting of the argument text are invisible. */
  lemma {:induction false} AssemblyIgnoresInterleavingAndFragmentation(
      a: seq<ToolCallDelta>, b: seq<ToolCallDelta>, loads: string -> Option<JsonObject>)
    requires forall k: nat :: OwnDeltas(k, a) == [] <==> OwnDeltas(k, b) == []
    requires forall k: nat :: Merged(OwnDeltas(k, a)) == Merged(OwnDeltas(k, b))
    ensures Assembled(PartsOf(a), loads) == Assembled(PartsOf(b), loads)
  {
    PartsAreMergedPerIndex(a);
    PartsAreMergedPerIndex(b);
    forall k: nat
      ensures k in PartsOf(a) <==> k in PartsOf(b)
    {
    }
    assert PartsOf(a) == PartsOf(b);
  }

  /** Any way of cutting one delta's argument text in two is absorbed identically. */
  lemma SplittingADeltaIsInvisible(part: Part, d: ToolCallDelta, left: string, right: string)
    requires OrEmpty(d.argumentsDelta) == left + right
    ensures AbsorbDelta(AbsorbDelta(part, d.(argumentsDelta := Some(left))),
                        ToolCallDelta(d.index, None, None, Some(right)))
         == AbsorbDelta(part, d)
  {
    assert part.arguments + (left + right) == part.arguments + left + right;
  }

  // Agreement with the non-streaming parser

  datatype RawCall = RawCall(id: string, name: string, arguments: string)

  const BAD_RESPONSE := "LLMResponseError: Invalid tool call response."

  /** `_parse_tool_calls`: the whole-message form. */
  function ParseToolCalls(raw: seq<RawCall>, loads: string -> Option<JsonObject>): Result<seq<ToolCall>, string> {
    if raw == [] then Ok([])
    else
      var arguments := loads(if raw[0].arguments == "" then "{}" else raw[0].arguments);
      if arguments.None? then Err(BAD_RESPONSE)
      else
        Prepend([ToolCall(raw[0].id, raw[0].name, arguments.value)], ParseToolCalls(raw[1..], loads))
  }

  method ParseRawCalls(raw: seq<RawCall>, loads: string -> Option<JsonObject>)
    returns (r: Result<seq<ToolCall>, string>)
    ensures r == ParseToolCalls(raw, loads)
  {
    var calls := [];
    PrependNothing(ParseToolCalls(raw, loads));
    assert raw[0..] == raw;
    for i := 0 to |raw|
      invariant ParseToolCalls(raw, loads) == Prepend(calls, ParseToolCalls(raw[i..], loads))
    {
      var arguments := loads(if raw[i].arguments == "" then "{}" else raw[i].arguments);
      assert raw[i..][1..] == raw[i + 1..];
      if arguments.None? {
        return Err(BAD_RESPONSE);
      }
      var call := ToolCall(raw[i].id, raw[i].name, arguments.value);
      PrependTwice(calls, [call], ParseToolCalls(raw[i + 1..], loads));
      calls := calls + [call];
    }
    assert raw[|raw|..] == [] && calls + [] == calls;
    return Ok(calls);
  }

  /** The same calls, or both fail, each with its own error. */
  predicate SameCalls(streamed: Result<seq<ToolCall>, string>, whole: Result<seq<ToolCall>, string>) {
    if streamed.Ok? then streamed == whole
    else streamed.error == BAD_ARGUMENTS && whole == Err(BAD_RESPONSE)
  }

  ghost function Range(lo: nat, hi: nat): (r: set<nat>)
    ensures forall k :: k in r <==> lo <= k < hi
    decreases hi - lo
  {
    if lo >= hi then {} else {lo} + Range(lo + 1, hi)
  }

  /** `n` indexes from `lo` on. */
  function Counting(lo: nat, n: nat): (r: seq<nat>)
    ensures |r| == n && forall i :: 0 <= i < n ==> r[i] == lo + i
  {
    seq(n, i => lo + i)
  }

  lemma CountingStep(lo: nat, n: nat)
    requires n > 0
    ensures Counting(lo, n) == [lo] + Counting(lo + 1, n - 1)
    ensures Counting(lo, n)[1..] == Counting(lo + 1, n - 1)
  {
    hide Counting;
  }

  lemma RangeStep(lo: nat, hi: nat)
    requires lo < hi
    ensures Range(lo, hi) != {} && Least(Range(lo, hi)) == lo && Range(lo, hi) - {lo} == Range(lo + 1, hi)
  {
    hide Range;
    assert lo in Range(lo, hi);
  }

  lemma {:induction false} AscendingRange(lo: nat, hi: nat)
    requires lo <= hi
    ensures Ascending(Range(lo, hi)) == Counting(lo, hi - lo)
    decreases hi - lo
  {
    if lo < hi {
      hide Range, Counting, Least;
      RangeStep(lo, hi);
      CountingStep(lo, hi - lo);
      AscendingRange(lo + 1, hi);
    }
  }

  lemma {:induction false} AssembleTail(
      raw: seq<RawCall>, k: nat, parts: map<nat, Part>, loads: string -> Option<JsonObject>)
    requires k <= |raw|
    requires parts.Keys == Range(0, |raw|)
    requires forall i :: 0 <= i < |raw| ==> raw[i].id != "" && raw[i].name != ""
    requires forall i :: 0 <= i < |raw| ==> parts[i] == Part(raw[i].id, raw[i].name, raw[i].arguments)
    ensures SameCalls(AssembleInOrder(Counting(k, |raw| - k), parts, loads), ParseToolCalls(raw[k..], loads))
    decreases |raw| - k
  {
    hide Counting, Range;
    if k < |raw| {
      AssembleTail(raw, k + 1, parts, loads);
      CountingStep(k, |raw| - k);
      assert raw[k..][1..] == raw[k + 1..];
    }
  }

  /** The deltas spell out the calls of a message, index by index and in any interleaving. */
  ghost predicate SpellsOut(deltas: seq<ToolCallDelta>, raw: seq<RawCall>) {
    && (forall i :: 0 <= i < |raw| ==> raw[i].id != "" && raw[i].name != "")
    && (forall k: nat :: OwnDeltas(k, deltas) != [] <==> k < |raw|)
    && (forall k: nat :: k < |raw| ==>
          Merged(OwnDeltas(k, deltas)) == Part(raw[k].id, raw[k].name, raw[k].arguments))
  }

  /** Such a stream assembles to what the non-streaming parser makes of that message, and fails exactly
      when that does. */
  lemma {:induction false} StreamingRefinesWholeMessageParse(
      deltas: seq<ToolCallDelta>, raw: seq<RawCall>, loads: string -> Option<JsonObject>)
    requires SpellsOut(deltas, raw)
    ensures SameCalls(Assembled(PartsOf(deltas), loads), ParseToolCalls(raw, loads))
  {
    hide Counting, AssembleInOrder;
    PartsAreMergedPerIndex(deltas);
    var parts := PartsOf(deltas);
    forall k: nat ensures k in parts.Keys <==> k in Range(0, |raw|) {
    }
    assert parts.Keys == Range(0, |raw|);
    AscendingRange(0, |raw|);
    AssembleTail(raw, 0, parts, loads);
    assert raw[0..] == raw;
  }

  // What the list holds

  function ArgumentText(part: Part): string {
    if part.arguments == "" then "{}" else part.arguments
  }

  /** The indexes, in order, that name a tool. */
  function Named(order: seq<nat>, parts: map<nat, Part>): (at: seq<nat>)
    requires forall k :: k in order ==> k in parts
    ensures forall k :: k in at <==> k in order && parts[k].name != ""
  {
    if order == [] then []
    else
      (if parts[order[0]].name == "" then [] else [order[0]]) + Named(order[1..], parts)
  }

  /** `call` is what the part of index `k` spells. */
  predicate Spells(call: ToolCall, k: nat, part: Part, loads: string -> Option<JsonObject>) {
    && call.id == (if part.id != "" then part.id else "stream-call-" + Decimal(k))
    && call.name == part.name
    && loads(ArgumentText(part)) == Some(call.arguments)
  }

  lemma {:induction false} InOrderFailsIff(order: seq<nat>, parts: map<nat, Part>, loads: string -> Option<JsonObject>)
    requires forall k :: k in order ==> k in parts
    ensures AssembleInOrder(order, parts, loads).Err? <==>
              exists k :: k in Named(order, parts) && loads(ArgumentText(parts[k])).None?
  {
    if order != [] {
      InOrderFailsIff(order[1..], parts, loads);
      var at, rest := Named(order, parts), Named(order[1..], parts);
      if parts[order[0]].name == "" {
        assert at == rest;
      } else {
        assert at == [order[0]] + rest;
        assert forall k :: k in at <==> k == order[0] || k in rest;
      }
    }
  }

  lemma {:induction false} InOrderSpelledOut(
      order: seq<nat>, parts: map<nat, Part>, loads: string -> Option<JsonObject>)
    requires forall k :: k in order ==> k in parts
    requires AssembleInOrder(order, parts, loads).Ok?
    ensures var calls, at := AssembleInOrder(order, parts, loads).value, Named(order, parts);
            |calls| == |at| && forall i :: 0 <= i < |at| ==> Spells(calls[i], at[i], parts[at[i]], loads)
  {
    if order != [] {
      InOrderSpelledOut(order[1..], parts, loads);
      var rest := Named(order[1..], parts);
      if parts[order[0]].name == "" {
        assert Named(order, parts) == rest;
      } else {
        var call := AssembleInOrder(order, parts, loads).value[0];
        assert Spells(call, order[0], parts[order[0]], loads);
        hide Spells, CallAt;
        assert Named(order, parts) == [order[0]] + rest;
      }
    }
  }

  lemma {:induction false} NamedAscends(order: seq<nat>, parts: map<nat, Part>)
    requires forall k :: k in order ==> k in parts
    requires forall i, j :: 0 <= i < j < |order| ==> order[i] < order[j]
    ensures forall i, j :: 0 <= i < j < |Named(order, parts)| ==> Named(order, parts)[i] < Named(order, parts)[j]
  {
    if order != [] {
      NamedAscends(order[1..], parts);
      var at, rest := Named(order, parts), Named(order[1..], parts);
      assert at == (if parts[order[0]].name == "" then [] else [order[0]]) + rest;
      forall j | 0 <= j < |rest|
        ensures order[0] < rest[j]
      {
        assert rest[j] in order[1..];
      }
    }
  }

  lemma {:induction false} AscendingRises(keys: set<nat>)
    ensures forall i, j :: 0 <= i < j < |Ascending(keys)| ==> Ascending(keys)[i] < Ascending(keys)[j]
  {
    if keys != {} {
      var m := Least(keys);
      var rest := Ascending(keys - {m});
      AscendingRises(keys - {m});
      assert Ascending(keys) == [m] + rest;
      forall j | 0 <= j < |rest|
        ensures m < rest[j]
      {
        assert rest[j] in keys - {m};
      }
    }
  }

  /** The call list fails exactly when some part that names a tool has arguments that are no object, an
      empty text reading as `{}`; else it holds one call per part that names a tool, by rising index, with
      the part's id or one made from the index. */
  lemma AssembledSpellsTheParts(parts: map<nat, Part>, loads: string -> Option<JsonObject>) returns (at: seq<nat>)
    ensures forall i, j :: 0 <= i < j < |at| ==> at[i] < at[j]
    ensures forall k :: k in at <==> k in parts && parts[k].name != ""
    ensures var r := Assembled(parts, loads);
            && (r.Err? <==> exists k :: k in parts && parts[k].name != "" && loads(ArgumentText(parts[k])).None?)
            && (r.Ok? ==>
                  && |r.value| == |at|
                  && forall i :: 0 <= i < |at| ==> Spells(r.value[i], at[i], parts[at[i]], loads))
  {
    hide AssembleInOrder, Spells;
    var order := Ascending(parts.Keys);
    AscendingRises(parts.Keys);
    at := Named(order, parts);
    NamedAscends(order, parts);
    InOrderFailsIff(order, parts, loads);
    if Assembled(parts, loads).Ok? {
      InOrderSpelledOut(order, parts, loads);
    }
  }
}
