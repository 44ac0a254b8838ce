/** Context compaction before each model call (`_compacted_messages` in
    backend/app/agent/loop.py).  How one tool result is summarised is left to the environment;
    which slots are summarised, cut or left alone is what is modelled. */
module Compaction {
  import opened Text
  import opened AgentModels

  const OTHER_CONTENT_LIMIT := 500
  const RECENT_NON_TOOL := 6

  type Summarizer = (string, string, bool) -> string

  function Take(s: string, n: nat): string {
    if |s| <= n then s else s[..n]
  }

  function ContentChars(messages: seq<ChatMessage>): nat {
    if messages == [] then 0
    else ContentChars(messages[..|messages| - 1]) + |OrEmpty(messages[|messages| - 1].content)|
  }

  function Summarized(m: ChatMessage, compact: Summarizer, includeRows: bool): ChatMessage {
    m.(content := Some(compact(if Truthy(m.name) then m.name.value else "tool", OrEmpty(m.content), includeRows)))
  }

  /** How many messages after position `i` are tool results (or are not). */
  function CountAfter(messages: seq<ChatMessage>, i: nat, tool: bool): nat
    requires i < |messages|
    decreases |messages| - i
  {
    if i + 1 == |messages| then 0
    else CountAfter(messages, i + 1, tool) + (if (messages[i + 1].role == Tool) == tool then 1 else 0)
  }

  predicate OldToolResult(messages: seq<ChatMessage>, i: nat, keep: nat)
    requires i < |messages|
  {
    messages[i].role == Tool && keep <= CountAfter(messages, i, true)
  }

  predicate RecentNonTool(messages: seq<ChatMessage>, i: nat)
    requires i < |messages|
  {
    messages[i].role != Tool && CountAfter(messages, i, false) < RECENT_NON_TOOL
  }

  function FirstPass(messages: seq<ChatMessage>, keep: nat, compact: Summarizer): (r: seq<ChatMessage>) {
    seq(|messages|, i requires 0 <= i < |messages| =>
      if OldToolResult(messages, i, keep) then Summarized(messages[i], compact, true) else messages[i])
  }

  function SecondPass(messages: seq<ChatMessage>, compact: Summarizer): (r: seq<ChatMessage>) {
    seq(|messages|, i requires 0 <= i < |messages| =>
      if messages[i].role == Tool then Summarized(messages[i], compact, false)
      else if !RecentNonTool(messages, i) && messages[i].role != System && Truthy(messages[i].content)
      then messages[i].(content := Some(Take(messages[i].content.value, OTHER_CONTENT_LIMIT)))
      else messages[i])
  }

  function Compacted(cfg: AgentConfig, compact: Summarizer, messages: seq<ChatMessage>): (r: seq<ChatMessage>) {
    var first := FirstPass(messages, cfg.keepRecentToolResults, compact);
    if ContentChars(first) <= cfg.contextCharBudget then first else SecondPass(first, compact)
  }

  // The in-place form

  /** The ascending list of positions holding (or not holding) tool results. */
  ghost predicate Lists(order: seq<nat>, messages: seq<ChatMessage>, n: nat, tool: bool)
    requires n <= |messages|
  {
    && (forall k :: 0 <= k < |order| ==> order[k] < n && (messages[order[k]].role == Tool) == tool)
    && (forall k, l :: 0 <= k < l < |order| ==> order[k] < order[l])
    && (forall i :: 0 <= i < n && (messages[i].role == Tool) == tool ==> i in order)
  }

  method Indexes(messages: seq<ChatMessage>, tool: bool) returns (order: seq<nat>)
    ensures Lists(order, messages, |messages|, tool)
  {
    order := [];
    for i := 0 to |messages|
      invariant Lists(order, messages, i, tool)
    {
      if (messages[i].role == Tool) == tool {
        ghost var before := order;
        order := order + [i];
        assert forall j :: j in before ==> j in order;
        assert order[|before|] == i;
      }
    }
  }

  /** Position in the list and number of followers determine each other. */
  lemma {:induction false} FollowersFromPosition(order: seq<nat>, messages: seq<ChatMessage>, tool: bool, k: nat)
    requires Lists(order, messages, |messages|, tool) && k < |order|
    ensures CountAfter(messages, order[k], tool) == |order| - 1 - k
    decreases |order| - k
  {
    var next := if k + 1 < |order| then order[k + 1] else |messages|;
    if k + 1 < |order| {
      FollowersFromPosition(order, messages, tool, k + 1);
    }
    CountGap(order, messages, tool, k, order[k], next);
  }

  lemma {:induction false} CountGap(order: seq<nat>, messages: seq<ChatMessage>, tool: bool, k: nat, i: nat, next: nat)
    requires Lists(order, messages, |messages|, tool) && k < |order|
    requires order[k] <= i < next <= |messages|
    requires next == if k + 1 < |order| then order[k + 1] else |messages|
    ensures CountAfter(messages, i, tool)
         == if next == |messages| then 0 else 1 + CountAfter(messages, next, tool)
    decreases next - i
  {
    if i + 1 < next {
      CountGap(order, messages, tool, k, i + 1, next);
      if (messages[i + 1].role == Tool) == tool {
        var l :| 0 <= l < |order| && order[l] == i + 1;
        assert false;
      }
    } else if next < |messages| {
      assert order[k + 1] == next;
    }
  }

  function Stale(toolIndexes: seq<nat>, keep: nat): seq<nat> {
    if keep <= |toolIndexes| then toolIndexes[..|toolIndexes| - keep] else []
  }

  lemma StaleAreOldToolResults(messages: seq<ChatMessage>, toolIndexes: seq<nat>, keep: nat, i: nat)
    requires Lists(toolIndexes, messages, |messages|, true) && i < |messages|
    ensures OldToolResult(messages, i, keep) <==> i in Stale(toolIndexes, keep)
  {
    if messages[i].role == Tool {
      var k :| 0 <= k < |toolIndexes| && toolIndexes[k] == i;
      FollowersFromPosition(toolIndexes, messages, true, k);
      if k < |toolIndexes| - keep {
        assert Stale(toolIndexes, keep)[k] == i;
      }
    }
  }

  function LastSix(nonTool: seq<nat>): seq<nat> {
    if RECENT_NON_TOOL <= |nonTool| then nonTool[|nonTool| - RECENT_NON_TOOL..] else nonTool
  }

  lemma LastSixAreRecentNonTool(messages: seq<ChatMessage>, nonTool: seq<nat>, i: nat)
    requires Lists(nonTool, messages, |messages|, false) && i < |messages|
    ensures RecentNonTool(messages, i) <==> i in LastSix(nonTool)
  {
    if messages[i].role != Tool {
      var k :| 0 <= k < |nonTool| && nonTool[k] == i;
      FollowersFromPosition(nonTool, messages, false, k);
      var skipped := |nonTool| - |LastSix(nonTool)|;
      if skipped <= k {
        assert LastSix(nonTool)[k - skipped] == i;
      }
    }
  }

  method SummarizeOldResults(compacted: array<ChatMessage>, keep: nat, compact: Summarizer)
    modifies compacted
    ensures compacted[..] == FirstPass(old(compacted[..]), keep, compact)
  {
    ghost var messages := compacted[..];
    var toolIndexes := Indexes(compacted[..], true);
    var stale := Stale(toolIndexes, keep);
    forall i | 0 <= i < |messages|
      ensures OldToolResult(messages, i, keep) <==> i in stale
    {
      StaleAreOldToolResults(messages, toolIndexes, keep, i);
    }
    for k := 0 to |stale|
      invariant forall i :: 0 <= i < |messages| ==>
        compacted[i] == if i in stale[..k] then Summarized(messages[i], compact, true) else messages[i]
    {
      var index := stale[k];
      assert index !in stale[..k];
      compacted[index] := Summarized(compacted[index], compact, true);
      assert stale[..k + 1] == stale[..k] + [index];
    }
    assert stale[..|stale|] == stale;
  }

  method CutEverythingElse(compacted: array<ChatMessage>, compact: Summarizer)
    modifies compacted
    ensures compacted[..] == SecondPass(old(compacted[..]), compact)
  {
    ghost var first := compacted[..];
    var nonTool := Indexes(compacted[..], false);
    var recent := LastSix(nonTool);
    forall i | 0 <= i < |first|
      ensures RecentNonTool(first, i) <==> i in recent
    {
      LastSixAreRecentNonTool(first, nonTool, i);
    }
    ghost var second := SecondPass(first, compact);
    for index := 0 to compacted.Length
      invariant forall i :: 0 <= i < compacted.Length ==> compacted[i] == if i < index then second[i] else first[i]
    {
      var message := compacted[index];
      if message.role == Tool {
        compacted[index] := Summarized(message, compact, false);
      } else if index !in recent && message.role != System && Truthy(message.content) {
        compacted[index] := message.(content := Some(Take(message.content.value, OTHER_CONTENT_LIMIT)));
      }
    }
  }

  method CompactMessages(cfg: AgentConfig, compact: Summarizer, messages: seq<ChatMessage>)
    returns (r: seq<ChatMessage>)
    requires cfg.Valid()
    ensures r == Compacted(cfg, compact, messages)
  {
    var compacted := new ChatMessage[|messages|](i requires 0 <= i < |messages| => messages[i]);
    assert compacted[..] == messages;
    SummarizeOldResults(compacted, cfg.keepRecentToolResults, compact);
    ghost var first := compacted[..];
    var total := 0;
    for i := 0 to compacted.Length
      invariant compacted[..] == first
      invariant total == ContentChars(first[..i])
    {
      total := total + |OrEmpty(compacted[i].content)|;
      assert first[..i + 1][..i] == first[..i];
    }
    assert first[..|first|] == first;
    if total > cfg.contextCharBudget {
      CutEverythingElse(compacted, compact);
    }
    return compacted[..];
  }

  // What compaction may and may not touch

  /** Same message up to its content. */
  predicate SameButContent(a: ChatMessage, b: ChatMessage) {
    a.(content := b.content) == b
  }

  lemma CompactionChangesOnlyContents(cfg: AgentConfig, compact: Summarizer, messages: seq<ChatMessage>)
    ensures |Compacted(cfg, compact, messages)| == |messages|
    ensures forall i :: 0 <= i < |messages| ==>
      SameButContent(messages[i], Compacted(cfg, compact, messages)[i])
    ensures forall i :: 0 <= i < |messages| && messages[i].role == System ==>
      Compacted(cfg, compact, messages)[i] == messages[i]
  {
  }

  /** A user or assistant message keeps a prefix of its text, and only long transcripts lose any:
      the six latest such messages are always whole. */
  lemma {:induction false} CompactionKeepsDialoguePrefixes(
      cfg: AgentConfig, compact: Summarizer, messages: seq<ChatMessage>, i: nat)
    requires i < |messages| && messages[i].role != Tool
    ensures OrEmpty(Compacted(cfg, compact, messages)[i].content) <= OrEmpty(messages[i].content)
    ensures CountAfter(messages, i, false) < RECENT_NON_TOOL ==>
      Compacted(cfg, compact, messages)[i] == messages[i]
    ensures |OrEmpty(messages[i].content)| <= OTHER_CONTENT_LIMIT ==>
      Compacted(cfg, compact, messages)[i] == messages[i]
  {
    var first := FirstPass(messages, cfg.keepRecentToolResults, compact);
    SameCounts(messages, first, i, false);
  }

  lemma {:induction false} SameCounts(a: seq<ChatMessage>, b: seq<ChatMessage>, i: nat, tool: bool)
    requires |a| == |b| && i < |a|
    requires forall j :: 0 <= j < |a| ==> a[j].role == b[j].role
    ensures CountAfter(a, i, tool) == CountAfter(b, i, tool)
    decreases |a| - i
  {
    if i + 1 < |a| {
      SameCounts(a, b, i + 1, tool);
    }
  }

  // By position, from the original messages alone

  function NameOrTool(m: ChatMessage): string {
    if m.name.Some? && m.name.value != "" then m.name.value else "tool"
  }

  /** A tool result with at least `keep` tool results behind it. */
  predicate HasManyBehind(messages: seq<ChatMessage>, i: nat, keep: nat)
    requires i < |messages|
  {
    messages[i].role == Tool && CountAfter(messages, i, true) >= keep
  }

  /** The text at `i` once old tool results are replaced by their summary with rows. */
  function TextWithOldSummarized(messages: seq<ChatMessage>, i: nat, keep: nat, compact: Summarizer): string
    requires i < |messages|
  {
    var text := messages[i].content.GetOr("");
    if HasManyBehind(messages, i, keep) then compact(NameOrTool(messages[i]), text, true) else text
  }

  /** How long the first `n` of these texts are together. */
  function CharsWithOldSummarized(messages: seq<ChatMessage>, n: nat, keep: nat, compact: Summarizer): nat
    requires n <= |messages|
  {
    if n == 0 then 0
    else
      CharsWithOldSummarized(messages, n - 1, keep, compact) + |TextWithOldSummarized(messages, n - 1, keep, compact)|
  }

  predicate FitsBudget(cfg: AgentConfig, compact: Summarizer, messages: seq<ChatMessage>) {
    CharsWithOldSummarized(messages, |messages|, cfg.keepRecentToolResults, compact) <= cfg.contextCharBudget
  }

  /** What becomes of the content at `i` when everything fits: only old tool results are summarised. */
  predicate KeptWhenFitting(
      cfg: AgentConfig, compact: Summarizer, messages: seq<ChatMessage>, i: nat, content: Option<string>)
    requires i < |messages|
  {
    content ==
    if HasManyBehind(messages, i, cfg.keepRecentToolResults)
    then Some(compact(NameOrTool(messages[i]), messages[i].content.GetOr(""), true))
    else messages[i].content
  }

  /** And when it does not fit: every tool result is summarised without rows, and a user or assistant text
      longer than 500 characters is cut to them unless at most five such messages follow. */
  predicate CutWhenTooLong(
      cfg: AgentConfig, compact: Summarizer, messages: seq<ChatMessage>, i: nat, content: Option<string>)
    requires i < |messages|
  {
    var m := messages[i];
    var text := TextWithOldSummarized(messages, i, cfg.keepRecentToolResults, compact);
    content ==
    if m.role == Tool then Some(compact(NameOrTool(m), text, false))
    else if m.role != System && CountAfter(messages, i, false) >= 6 && |text| > 500 then Some(text[..500])
    else m.content
  }

  lemma {:induction false} CharsOfFirstPass(messages: seq<ChatMessage>, n: nat, keep: nat, compact: Summarizer)
    requires n <= |messages|
    ensures ContentChars(FirstPass(messages, keep, compact)[..n]) == CharsWithOldSummarized(messages, n, keep, compact)
  {
    hide CountAfter;
    if n > 0 {
      CharsOfFirstPass(messages, n - 1, keep, compact);
      var first := FirstPass(messages, keep, compact);
      assert first[..n][..n - 1] == first[..n - 1];
    }
  }

  /** The messages sent, position by position: which of the two forms they take is decided by whether the
      contents fit the budget once old tool results are summarised. */
  lemma {:induction false} CompactedByPosition(
      cfg: AgentConfig, compact: Summarizer, messages: seq<ChatMessage>, i: nat)
    requires i < |messages|
    ensures var r := Compacted(cfg, compact, messages);
            && |r| == |messages|
            && SameButContent(messages[i], r[i])
            && if FitsBudget(cfg, compact, messages)
               then KeptWhenFitting(cfg, compact, messages, i, r[i].content)
               else CutWhenTooLong(cfg, compact, messages, i, r[i].content)
  {
    hide CountAfter, ContentChars, CharsWithOldSummarized;
    var keep := cfg.keepRecentToolResults;
    var first := FirstPass(messages, keep, compact);
    CharsOfFirstPass(messages, |messages|, keep, compact);
    assert first[..|messages|] == first;
    SameCounts(messages, first, i, false);
  }
}
