/** What an agent run is told about earlier messages (`get_history` and `_history_content` in
    backend/app/chat/service.py): the newest messages that fit a character budget. */
module History {
  import opened Text

  /** `summaries` holds one line per step that executed tools. */
  datatype MessageView = MessageView(role: string, content: Option<string>, summaries: seq<string>)

  datatype ChatMessage = ChatMessage(role: string, content: string)

  const HEADING := "历史工具执行摘要：\n"
  const CONTENT_LIMIT := 6000

  /** `s[:n]`: a negative bound counts from the end. */
  function Upto<T>(s: seq<T>, n: int): (r: seq<T>)
    ensures r <= s
  {
    if n >= 0 then (if n < |s| then s[..n] else s)
    else if -n < |s| then s[..|s| + n]
    else []
  }

  /** `s[-n:]`: zero keeps everything, a negative count skips from the front. */
  function LastOf<T>(s: seq<T>, n: int): seq<T> {
    if n == 0 || n >= |s| then s
    else if n > 0 then s[|s| - n..]
    else if -n < |s| then s[-n..]
    else []
  }

  function HistoryContent(m: MessageView): (r: string)
    ensures |r| <= CONTENT_LIMIT
  {
    var parts :=
      (if Truthy(m.content) then [m.content.value] else [])
      + (if m.summaries != [] then [HEADING + Join("\n", m.summaries)] else []);
    Upto(Join("\n\n", parts), CONTENT_LIMIT)
  }

  predicate IsEligible(m: MessageView) {
    (m.role == "user" || m.role == "assistant") && HistoryContent(m) != ""
  }

  function Eligible(window: seq<MessageView>): seq<ChatMessage> {
    if window == [] then []
    else
      var last := window[|window| - 1];
      Eligible(window[..|window| - 1])
      + (if IsEligible(last) then [ChatMessage(last.role, HistoryContent(last))] else [])
  }

  /** From the newest backwards while budget remains. */
  function Pick(e: seq<ChatMessage>, remaining: int): seq<ChatMessage> {
    if e == [] then []
    else
      var last := e[|e| - 1];
      var content := Upto(last.content, remaining);
      if content == "" then []
      else if remaining - |content| <= 0 then [ChatMessage(last.role, content)]
      else Pick(e[..|e| - 1], remaining - |content|) + [ChatMessage(last.role, content)]
  }

  function Reversed<T>(s: seq<T>): seq<T> {
    if s == [] then [] else [s[|s| - 1]] + Reversed(s[..|s| - 1])
  }

  /** One turn of the selection, with `chosen` already taken, newest first. */
  lemma PickOne(e: seq<ChatMessage>, remaining: int, chosen: seq<ChatMessage>)
    requires e != []
    ensures var last := e[|e| - 1];
            var content := Upto(last.content, remaining);
            var more := Reversed(chosen + [ChatMessage(last.role, content)]);
            Pick(e, remaining) + Reversed(chosen) ==
              if content == "" then Reversed(chosen)
              else if remaining - |content| <= 0 then more
              else Pick(e[..|e| - 1], remaining - |content|) + more
  {
    var m := ChatMessage(e[|e| - 1].role, Upto(e[|e| - 1].content, remaining));
    assert (chosen + [m])[..|chosen|] == chosen;
  }

  lemma EligibleOneMore(window: seq<MessageView>, m: MessageView)
    ensures Eligible(window + [m]) ==
            Eligible(window) + if IsEligible(m) then [ChatMessage(m.role, HistoryContent(m))] else []
  {
    hide HistoryContent;
    assert (window + [m])[..|window|] == window;
  }

  /** What will have been selected in the end, once `chosen` has been taken and `earlier` is left. */
  ghost function InTheEnd(earlier: seq<MessageView>, remaining: int, chosen: seq<ChatMessage>): seq<ChatMessage> {
    Pick(Eligible(earlier), remaining) + Reversed(chosen)
  }

  /** One turn of the loop. */
  lemma TurnKeepsTheEnd(earlier: seq<MessageView>, m: MessageView, remaining: int, chosen: seq<ChatMessage>)
    ensures var content := Upto(HistoryContent(m), remaining);
            var more := chosen + [ChatMessage(m.role, content)];
            InTheEnd(earlier + [m], remaining, chosen) ==
              if !IsEligible(m) then InTheEnd(earlier, remaining, chosen)
              else if content == "" then Reversed(chosen)
              else if remaining - |content| <= 0 then Reversed(more)
              else InTheEnd(earlier, remaining - |content|, more)
  {
    hide HistoryContent, Upto, Pick, Reversed, Eligible;
    EligibleOneMore(earlier, m);
    var e := Eligible(earlier + [m]);
    if IsEligible(m) {
      assert e[..|e| - 1] == Eligible(earlier) && e[|e| - 1] == ChatMessage(m.role, HistoryContent(m));
      PickOne(e, remaining, chosen);
    } else {
      assert Eligible(earlier) + [] == Eligible(earlier);
    }
  }

  lemma TheEndAtTheEnds(window: seq<MessageView>, remaining: int, chosen: seq<ChatMessage>)
    ensures InTheEnd(window, remaining, []) == Pick(Eligible(window), remaining)
    ensures InTheEnd([], remaining, chosen) == Reversed(chosen)
  {
    assert Pick(Eligible(window), remaining) + [] == Pick(Eligible(window), remaining);
    assert [] + Reversed(chosen) == Reversed(chosen);
  }

  method GetHistory(conversation: Option<seq<MessageView>>, limit: int, budget: int)
    returns (selected: seq<ChatMessage>)
    ensures selected == if conversation.None? then [] else Pick(Eligible(LastOf(conversation.value, limit)), budget)
    ensures conversation.Some? && budget >= 0 ==> NewestThatFit(conversation.value, limit, budget, selected)
  {
    hide NewestThatFit, StandsAt, HistoryContent, LastOf, Upto, Pick, Reversed, Eligible, InTheEnd;
    if conversation.None? {
      return [];
    }
    if budget >= 0 {
      SelectsTheNewest(conversation.value, limit, budget);
    }
    selected := [];
    var remaining := budget;
    var window := LastOf(conversation.value, limit);
    var i := |window|;
    TheEndAtTheEnds(window, budget, []);
    assert window[..i] == window;
    while i > 0
      invariant 0 <= i <= |window|
      invariant InTheEnd(window[..i], remaining, selected) == InTheEnd(window, budget, [])
    {
      i := i - 1;
      var message := window[i];
      assert window[..i + 1] == window[..i] + [message];
      TurnKeepsTheEnd(window[..i], message, remaining, selected);
      if message.role != "user" && message.role != "assistant" {
        continue;
      }
      var content := HistoryContent(message);
      if content == "" {
        continue;
      }
      content := Upto(content, remaining);
      if content == "" {
        return Reversed(selected);
      }
      selected := selected + [ChatMessage(message.role, content)];
      remaining := remaining - |content|;
      if remaining <= 0 {
        return Reversed(selected);
      }
    }
    assert window[..0] == [];
    TheEndAtTheEnds(window, remaining, selected);
    selected := Reversed(selected);
  }

  // What is selected

  function Total(messages: seq<ChatMessage>): nat {
    if messages == [] then 0 else Total(messages[..|messages| - 1]) + |messages[|messages| - 1].content|
  }

  /** The newest messages, all whole except that the oldest of them may be cut short, and no more or
      less of them than the budget allows. */
  ghost predicate TightSuffix(e: seq<ChatMessage>, p: seq<ChatMessage>, budget: nat) {
    && |p| <= |e|
    && (p != [] ==>
          && p[1..] == e[|e| - |p| + 1..]
          && p[0].role == e[|e| - |p|].role
          && p[0].content != "" && p[0].content <= e[|e| - |p|].content)
    && Total(p) == if Total(e) <= budget then Total(e) else budget
  }

  ghost predicate NoneEmpty(e: seq<ChatMessage>) {
    forall i :: 0 <= i < |e| ==> e[i].content != ""
  }

  lemma TotalOneMore(e: seq<ChatMessage>, m: ChatMessage)
    ensures Total(e + [m]) == Total(e) + |m.content|
  {
    assert (e + [m])[..|e|] == e;
  }

  /** Adding a whole newest message to a tight choice among the earlier ones. */
  lemma TightOneMore(e: seq<ChatMessage>, p: seq<ChatMessage>, last: ChatMessage, budget: nat)
    requires TightSuffix(e, p, budget) && last.content != ""
    ensures TightSuffix(e + [last], p + [last], budget + |last.content|)
  {
    TotalOneMore(e, last);
    TotalOneMore(p, last);
    var q, f := p + [last], e + [last];
    if p != [] {
      assert q[1..] == p[1..] + [last];
      assert f[|f| - |q| + 1..] == e[|e| - |p| + 1..] + [last];
    }
  }

  lemma NothingIsTight(e: seq<ChatMessage>, budget: nat)
    requires e == [] || budget == 0
    ensures TightSuffix(e, [], budget)
  {
  }

  lemma NewestAloneIsTight(e: seq<ChatMessage>, budget: nat)
    requires e != [] && 0 < budget <= |e[|e| - 1].content|
    ensures TightSuffix(e, [ChatMessage(e[|e| - 1].role, e[|e| - 1].content[..budget])], budget)
  {
    var n, last := |e| - 1, e[|e| - 1];
    var m := ChatMessage(last.role, last.content[..budget]);
    TotalOneMore(e[..n], last);
    assert e == e[..n] + [last];
    TotalOneMore([], m);
    assert [m] == [] + [m];
    hide Total;
    assert [m][1..] == e[|e|..];
  }

  /** Everything fits and is whole, or the budget is used up to the last character. */
  lemma {:induction false} SelectionIsTight(e: seq<ChatMessage>, budget: nat)
    requires NoneEmpty(e)
    ensures TightSuffix(e, Pick(e, budget), budget)
  {
    hide TightSuffix, Total;
    if e == [] || budget == 0 {
      NothingIsTight(e, budget);
    } else if budget <= |e[|e| - 1].content| {
      var whole := e[|e| - 1].content;
      assert whole[..|whole|] == whole;
      assert Upto(whole, budget) == whole[..budget];
      NewestAloneIsTight(e, budget);
    } else {
      var before, last := e[..|e| - 1], e[|e| - 1];
      var rest := budget - |last.content|;
      SelectionIsTight(before, rest);
      assert Pick(e, budget) == Pick(before, rest) + [last];
      hide Pick, NoneEmpty, Upto;
      TightOneMore(before, Pick(before, rest), last, rest);
      assert e == before + [last];
    }
  }

  lemma {:induction false} TotalPositive(e: seq<ChatMessage>)
    requires NoneEmpty(e) && e != []
    ensures Total(e) > 0
  {
  }

  /** No other choice is tight. */
  lemma {:induction false} TightSuffixIsUnique(
      e: seq<ChatMessage>, p: seq<ChatMessage>, q: seq<ChatMessage>, budget: nat)
    requires NoneEmpty(e) && TightSuffix(e, p, budget) && TightSuffix(e, q, budget)
    ensures p == q
    decreases |e|
  {
    SameTotal(e, p, q, budget);
    SuffixNoneEmpty(e, p, budget);
    SuffixNoneEmpty(e, q, budget);
    if p == [] || q == [] {
      hide TightSuffix;
      if p != [] { TotalPositive(p); }
      if q != [] { TotalPositive(q); }
    } else if |p| == 1 && |q| == 1 {
      TotalOneMore([], p[0]);
      TotalOneMore([], q[0]);
      assert p == [] + [p[0]] && q == [] + [q[0]];
      var whole := e[|e| - 1].content;
      assert p[0].content == whole[..|p[0].content|] && q[0].content == whole[..|q[0].content|];
    } else if |p| > 1 && |q| > 1 {
      hide TightSuffix;
      LessLast(e, p, budget);
      LessLast(e, q, budget);
      TightSuffixIsUnique(e[..|e| - 1], p[..|p| - 1], q[..|q| - 1], budget - |e[|e| - 1].content|);
      assert p == p[..|p| - 1] + [e[|e| - 1]] && q == q[..|q| - 1] + [e[|e| - 1]];
    } else {
      hide TightSuffix;
      TotalAgainstLast(e, p, budget);
      TotalAgainstLast(e, q, budget);
    }
  }

  lemma SameTotal(e: seq<ChatMessage>, p: seq<ChatMessage>, q: seq<ChatMessage>, budget: nat)
    requires TightSuffix(e, p, budget) && TightSuffix(e, q, budget)
    ensures Total(p) == Total(q)
  {
  }

  lemma SuffixNoneEmpty(e: seq<ChatMessage>, p: seq<ChatMessage>, budget: nat)
    requires NoneEmpty(e) && TightSuffix(e, p, budget)
    ensures NoneEmpty(p)
  {
    forall i | 1 <= i < |p|
      ensures p[i].content != ""
    {
      assert p[1..][i - 1] == e[|e| - |p| + 1..][i - 1];
    }
  }

  /** A choice of several messages ends with the newest, whole. */
  lemma Whole(e: seq<ChatMessage>, p: seq<ChatMessage>, budget: nat)
    requires TightSuffix(e, p, budget) && p != []
    ensures |p| > 1 ==> p[|p| - 1] == e[|e| - 1]
  {
    if |p| > 1 {
      assert p[1..][|p| - 2] == e[|e| - |p| + 1..][|p| - 2];
    }
  }

  lemma LessLast(e: seq<ChatMessage>, p: seq<ChatMessage>, budget: nat)
    requires TightSuffix(e, p, budget) && |p| > 1 && NoneEmpty(p)
    ensures |e[|e| - 1].content| <= budget && p[|p| - 1] == e[|e| - 1]
    ensures NoneEmpty(e) ==> NoneEmpty(e[..|e| - 1])
    ensures TightSuffix(e[..|e| - 1], p[..|p| - 1], budget - |e[|e| - 1].content|)
  {
    Whole(e, p, budget);
    var n, k := |e| - 1, |p| - 1;
    assert e == e[..n] + [e[n]] && p == p[..k] + [p[k]];
    TotalOneMore(e[..n], e[n]);
    TotalOneMore(p[..k], p[k]);
    hide Total;
    var whole, cut := e[|e| - |p| + 1..], p[1..];
    assert whole == cut;
    assert p[..k][1..] == cut[..k - 1];
    assert e[..n][n - k + 1..] == whole[..k - 1];
  }

  /** One message never weighs more than the newest, several always do. */
  lemma TotalAgainstLast(e: seq<ChatMessage>, p: seq<ChatMessage>, budget: nat)
    requires TightSuffix(e, p, budget) && p != [] && NoneEmpty(p)
    ensures |p| <= |e|
    ensures if |p| == 1 then Total(p) <= |e[|e| - 1].content| else Total(p) > |e[|e| - 1].content|
  {
    hide TightSuffix, NoneEmpty, Total;
    var n := |p| - 1;
    TightFirst(e, p, budget);
    Whole(e, p, budget);
    TotalOfLast(p);
    if n > 0 {
      NoneEmptyBefore(p, n);
      TotalPositive(p[..n]);
    }
  }

  lemma TotalOfLast(p: seq<ChatMessage>)
    requires p != []
    ensures Total(p) == Total(p[..|p| - 1]) + |p[|p| - 1].content|
    ensures |p| == 1 ==> Total(p[..|p| - 1]) == 0
  {
  }

  lemma NoneEmptyBefore(p: seq<ChatMessage>, n: nat)
    requires NoneEmpty(p) && n <= |p|
    ensures NoneEmpty(p[..n])
  {
  }

  /** The budget is an upper bound exactly when it is not negative: a negative one cuts that many
      characters off the end of the newest message instead. */
  lemma WithinBudgetIff(e: seq<ChatMessage>, budget: int)
    requires NoneEmpty(e)
    ensures Total(Pick(e, budget)) <= budget <==> budget >= 0
  {
    if budget >= 0 {
      SelectionIsTight(e, budget);
    }
  }

  /** A positive limit bounds the number of messages; zero bounds nothing. */
  lemma AtMostLimit(messages: seq<MessageView>, limit: int, budget: int)
    ensures limit > 0 ==> |Pick(Eligible(LastOf(messages, limit)), budget)| <= limit
    ensures limit == 0 ==> LastOf(messages, limit) == messages
  {
    hide Pick, Eligible;
    PickIsShorter(Eligible(LastOf(messages, limit)), budget);
    EligibleIsShorter(LastOf(messages, limit));
  }

  lemma {:induction false} PickIsShorter(e: seq<ChatMessage>, budget: int)
    ensures |Pick(e, budget)| <= |e|
    decreases |e|
  {
    if e != [] {
      PickIsShorter(e[..|e| - 1], budget - |Upto(e[|e| - 1].content, budget)|);
    }
  }

  lemma {:induction false} EligibleIsShorter(window: seq<MessageView>)
    ensures |Eligible(window)| <= |window|
  {
    if window != [] {
      EligibleIsShorter(window[..|window| - 1]);
    }
  }

  // What is selected, by the positions in the conversation

  /** The last `limit` messages of `n`; without a limit all of them, with a negative one all but that many
      of the oldest. */
  predicate InWindow(n: nat, limit: int, k: nat) {
    k < n && (if limit > 0 then n - limit <= k else -limit <= k)
  }

  /** `at` says where the selected messages stand: in the window, in the conversation's order. */
  ghost predicate PlacedAt(messages: seq<MessageView>, limit: int, selected: seq<ChatMessage>, at: seq<nat>) {
    && |at| == |selected|
    && (forall i, j :: 0 <= i < j < |at| ==> at[i] < at[j])
    && (forall i :: 0 <= i < |at| ==>
          && InWindow(|messages|, limit, at[i]) && IsEligible(messages[at[i]])
          && selected[i].role == messages[at[i]].role)
  }

  /** No eligible message is left out between the first selected and the conversation's end, and, if `all`,
      none of the window. */
  ghost predicate NoneLeftOut(messages: seq<MessageView>, limit: int, all: bool, at: seq<nat>) {
    forall k :: 0 <= k < |messages| && IsEligible(messages[k]) ==>
      (at != [] && at[0] <= k) || (all && InWindow(|messages|, limit, k)) ==> k in at
  }

  /** Each is whole, but that the first may be cut unless `all` are. */
  ghost predicate WholeAt(messages: seq<MessageView>, selected: seq<ChatMessage>, all: bool, at: seq<nat>)
    requires |at| == |selected| && forall i :: 0 <= i < |at| ==> at[i] < |messages|
  {
    && (forall i :: 0 < i < |at| ==> selected[i].content == HistoryContent(messages[at[i]]))
    && (at != [] ==> selected[0].content != "" && selected[0].content <= HistoryContent(messages[at[0]]))
    && (at != [] && all ==> selected[0].content == HistoryContent(messages[at[0]]))
  }

  /** All of this, within the budget, and `all` unless the budget is used up. */
  ghost predicate StandsAt(
      messages: seq<MessageView>, limit: int, budget: nat, selected: seq<ChatMessage>, at: seq<nat>)
  {
    && PlacedAt(messages, limit, selected, at)
    && NoneLeftOut(messages, limit, Total(selected) < budget, at)
    && WholeAt(messages, selected, Total(selected) < budget, at)
    && Total(selected) <= budget
  }

  ghost predicate NewestThatFit(messages: seq<MessageView>, limit: int, budget: nat, selected: seq<ChatMessage>) {
    exists at: seq<nat> :: StandsAt(messages, limit, budget, selected, at)
  }

  /** Where the eligible messages of a window stand in it. */
  ghost function Positions(window: seq<MessageView>): (r: seq<nat>)
    ensures forall i :: 0 <= i < |r| ==> r[i] < |window|
  {
    if window == [] then []
    else
      var n := |window| - 1;
      Positions(window[..n]) + (if IsEligible(window[n]) then [n] else [])
  }

  lemma {:induction false} PositionsAscend(window: seq<MessageView>)
    ensures forall i :: 0 <= i < |Positions(window)| ==> IsEligible(window[Positions(window)[i]])
    ensures forall i, j :: 0 <= i < j < |Positions(window)| ==> Positions(window)[i] < Positions(window)[j]
  {
    hide IsEligible;
    if window != [] {
      var n := |window| - 1;
      var before := window[..n];
      PositionsAscend(before);
      var r, earlier := Positions(window), Positions(before);
      assert r[..|earlier|] == earlier;
      forall i | 0 <= i < |earlier|
        ensures IsEligible(window[earlier[i]])
      {
        assert before[earlier[i]] == window[earlier[i]];
      }
    }
  }

  lemma {:induction false} PositionOf(window: seq<MessageView>, k: nat) returns (j: nat)
    requires k < |window| && IsEligible(window[k])
    ensures j < |Positions(window)| && Positions(window)[j] == k
  {
    hide IsEligible;
    var n := |window| - 1;
    if k == n {
      j := |Positions(window)| - 1;
    } else {
      assert window[..n][k] == window[k];
      j := PositionOf(window[..n], k);
    }
  }

  lemma {:induction false} EligibleByPosition(window: seq<MessageView>)
    ensures |Eligible(window)| == |Positions(window)|
    ensures forall i :: 0 <= i < |Positions(window)| ==>
              Eligible(window)[i]
              == ChatMessage(window[Positions(window)[i]].role, HistoryContent(window[Positions(window)[i]]))
  {
    hide HistoryContent, IsEligible;
    if window != [] {
      EligibleByPosition(window[..|window| - 1]);
    }
  }

  lemma EligibleSize(window: seq<MessageView>)
    ensures |Eligible(window)| == |Positions(window)|
  {
    EligibleByPosition(window);
  }

  lemma EverythingIsTight(e: seq<ChatMessage>, budget: nat)
    requires NoneEmpty(e) && Total(e) <= budget
    ensures TightSuffix(e, e, budget)
  {
    hide Total;
  }

  lemma TightAt(e: seq<ChatMessage>, p: seq<ChatMessage>, budget: nat, i: nat)
    requires TightSuffix(e, p, budget)
    ensures Total(p) <= budget
    ensures 0 < i < |p| ==> |p| <= |e| && p[i] == e[|e| - |p| + i]
  {
    hide Total;
    if 0 < i < |p| {
      assert p[1..][i - 1] == e[|e| - |p| + 1..][i - 1];
    }
  }

  lemma WindowAt(messages: seq<MessageView>, limit: int)
    ensures var start := |messages| - |LastOf(messages, limit)|;
            && start >= 0 && LastOf(messages, limit) == messages[start..]
            && forall k :: 0 <= k < |messages| ==> (InWindow(|messages|, limit, k) <==> start <= k)
  {
  }

  /** Where the newest `n` eligible messages of the window stand in the conversation. */
  ghost function Newest(messages: seq<MessageView>, limit: int, n: nat): (at: seq<nat>)
    requires n <= |Positions(LastOf(messages, limit))|
    ensures |at| == n
  {
    var window := LastOf(messages, limit);
    WindowAt(messages, limit);
    var all := Positions(window);
    seq(n, i requires 0 <= i < n => |messages| - |window| + all[|all| - n + i])
  }

  lemma NewestAscend(messages: seq<MessageView>, limit: int, n: nat)
    requires n <= |Positions(LastOf(messages, limit))|
    ensures forall i, j :: 0 <= i < j < n ==> Newest(messages, limit, n)[i] < Newest(messages, limit, n)[j]
  {
    hide LastOf, InWindow, Positions;
    PositionsAscend(LastOf(messages, limit));
  }

  lemma NewestAt(messages: seq<MessageView>, limit: int, n: nat, i: nat)
    requires i < n <= |Positions(LastOf(messages, limit))|
    ensures var k, e := Newest(messages, limit, n)[i], Eligible(LastOf(messages, limit));
            && |e| == |Positions(LastOf(messages, limit))|
            && k < |messages| && InWindow(|messages|, limit, k) && IsEligible(messages[k])
            && e[|e| - n + i].role == messages[k].role
            && e[|e| - n + i].content == HistoryContent(messages[k])
  {
    hide HistoryContent, LastOf, InWindow, IsEligible, Eligible, Positions;
    WindowAt(messages, limit);
    EligibleByPosition(LastOf(messages, limit));
    PositionsAscend(LastOf(messages, limit));
  }

  /** None is left out after the first of them, nor any in the window if they are all. */
  lemma NoneAfterIsLeftOut(messages: seq<MessageView>, limit: int, n: nat, k: nat)
    requires n <= |Positions(LastOf(messages, limit))|
    requires k < |messages| && IsEligible(messages[k])
    ensures var at := Newest(messages, limit, n);
            var all := n == |Positions(LastOf(messages, limit))|;
            (n > 0 && at[0] <= k) || (all && InWindow(|messages|, limit, k)) ==> k in at
  {
    hide HistoryContent, LastOf, InWindow, IsEligible, Positions;
    WindowAt(messages, limit);
    var window := LastOf(messages, limit);
    var start, all, at := |messages| - |window|, Positions(window), Newest(messages, limit, n);
    if (n > 0 && at[0] <= k) || (n == |all| && InWindow(|messages|, limit, k)) {
      PositionsAscend(window);
      assert window[k - start] == messages[k];
      var j := PositionOf(window, k - start);
      assert j >= |all| - n;
      assert at[j - (|all| - n)] == k;
    }
  }

  lemma AllMatch(e: seq<ChatMessage>, p: seq<ChatMessage>, budget: nat, i: nat)
    requires NoneEmpty(e) && TightSuffix(e, p, budget) && i < |p| && Total(p) < budget
    ensures |p| == |e| && p[i] == e[i]
  {
    hide Total, TightSuffix, NoneEmpty;
    TightTotal(e, p, budget);
  }

  lemma TightMatches(
      e: seq<ChatMessage>, p: seq<ChatMessage>, budget: nat, i: nat, j: nat, role: string, text: string)
    requires NoneEmpty(e) && TightSuffix(e, p, budget) && i < |p| && j + |p| == |e| + i
    requires e[j].role == role && e[j].content == text
    ensures p[i].role == role
    ensures i > 0 || Total(p) < budget ==> p[i].content == text
    ensures i == 0 ==> p[i].content != "" && p[i].content <= text
  {
    hide Total, TightSuffix, NoneEmpty;
    TightFirst(e, p, budget);
    if i > 0 {
      TightAt(e, p, budget, i);
    } else if Total(p) < budget {
      AllMatch(e, p, budget, i);
    }
  }

  /** A tight choice matches the newest eligible messages one by one. */
  lemma MatchesNewest(
      messages: seq<MessageView>, limit: int, budget: nat, p: seq<ChatMessage>, all: bool, i: nat)
    requires NoneEmpty(Eligible(LastOf(messages, limit)))
    requires TightSuffix(Eligible(LastOf(messages, limit)), p, budget) && i < |p| && (all <==> Total(p) < budget)
    ensures |p| <= |Positions(LastOf(messages, limit))|
    ensures MatchesAt(messages, limit, p, all, i, Newest(messages, limit, |p|)[i])
  {
    hide HistoryContent, LastOf, InWindow, IsEligible, Eligible, Total, TightSuffix, Positions, NoneEmpty, Newest;
    var e := Eligible(LastOf(messages, limit));
    TightFirst(e, p, budget);
    EligibleSize(LastOf(messages, limit));
    NewestAt(messages, limit, |p|, i);
    var m := messages[Newest(messages, limit, |p|)[i]];
    TightMatches(e, p, budget, i, |e| - |p| + i, m.role, HistoryContent(m));
  }

  /** The `i`-th selected message is the one at position `k`, whole, but that the first may be cut. */
  ghost predicate MatchesAt(
      messages: seq<MessageView>, limit: int, p: seq<ChatMessage>, all: bool, i: nat, k: nat)
    requires i < |p|
  {
    && k < |messages| && InWindow(|messages|, limit, k) && IsEligible(messages[k])
    && p[i].role == messages[k].role
    && (i > 0 || all ==> p[i].content == HistoryContent(messages[k]))
    && (i == 0 ==> p[i].content != "" && p[i].content <= HistoryContent(messages[k]))
  }

  lemma MatchingIsPlaced(messages: seq<MessageView>, limit: int, p: seq<ChatMessage>, all: bool, at: seq<nat>)
    requires |at| == |p| && forall i :: 0 <= i < |p| ==> MatchesAt(messages, limit, p, all, i, at[i])
    requires forall i, j :: 0 <= i < j < |at| ==> at[i] < at[j]
    ensures PlacedAt(messages, limit, p, at)
  {
    hide HistoryContent, InWindow, IsEligible;
  }

  lemma MatchingIsWhole(messages: seq<MessageView>, limit: int, p: seq<ChatMessage>, all: bool, at: seq<nat>)
    requires |at| == |p| && forall i :: 0 <= i < |p| ==> MatchesAt(messages, limit, p, all, i, at[i])
    ensures forall i :: 0 <= i < |at| ==> at[i] < |messages|
    ensures WholeAt(messages, p, all, at)
  {
    hide HistoryContent, InWindow, IsEligible;
    forall i | 0 < i < |at|
      ensures p[i].content == HistoryContent(messages[at[i]])
    {
      assert MatchesAt(messages, limit, p, all, i, at[i]);
    }
    if at != [] {
      assert MatchesAt(messages, limit, p, all, 0, at[0]);
    }
  }

  /** So it stands where the newest eligible messages stand. */
  lemma ChosenStands(messages: seq<MessageView>, limit: int, budget: nat, p: seq<ChatMessage>, all: bool)
    requires NoneEmpty(Eligible(LastOf(messages, limit)))
    requires TightSuffix(Eligible(LastOf(messages, limit)), p, budget) && (all <==> Total(p) < budget)
    ensures |p| <= |Positions(LastOf(messages, limit))|
    ensures var at := Newest(messages, limit, |p|);
            && PlacedAt(messages, limit, p, at)
            && (forall i :: 0 <= i < |at| ==> at[i] < |messages|)
            && WholeAt(messages, p, all, at)
  {
    hide LastOf, Eligible, Total, TightSuffix, Positions, NoneEmpty, Newest, MatchesAt, WholeAt, PlacedAt;
    TightFirst(Eligible(LastOf(messages, limit)), p, budget);
    EligibleSize(LastOf(messages, limit));
    NewestAscend(messages, limit, |p|);
    var at := Newest(messages, limit, |p|);
    forall i | 0 <= i < |p|
      ensures MatchesAt(messages, limit, p, all, i, at[i])
    {
      MatchesNewest(messages, limit, budget, p, all, i);
    }
    MatchingIsPlaced(messages, limit, p, all, at);
    MatchingIsWhole(messages, limit, p, all, at);
  }

  /** Whatever the limit: the newest eligible messages of the window, as many as the budget holds. */
  lemma SelectsTheNewest(messages: seq<MessageView>, limit: int, budget: nat)
    ensures NewestThatFit(messages, limit, budget, Pick(Eligible(LastOf(messages, limit)), budget))
  {
    hide LastOf, InWindow, IsEligible, Pick, Eligible, Total, TightSuffix, Positions, NoneEmpty, Newest, PlacedAt;
    hide WholeAt;
    var e := Eligible(LastOf(messages, limit));
    var p := Pick(e, budget);
    SomethingToSay(LastOf(messages, limit));
    SelectionIsTight(e, budget);
    TightAt(e, p, budget, 0);
    TightTotal(e, p, budget);
    ChosenStands(messages, limit, budget, p, Total(p) < budget);
    EligibleSize(LastOf(messages, limit));
    var at := Newest(messages, limit, |p|);
    forall k | 0 <= k < |messages| && IsEligible(messages[k])
      ensures (at != [] && at[0] <= k) || (Total(p) < budget && InWindow(|messages|, limit, k)) ==> k in at
    {
      NoneAfterIsLeftOut(messages, limit, |p|, k);
    }
    assert StandsAt(messages, limit, budget, p, at);
  }

  lemma {:induction false} SomethingToSay(window: seq<MessageView>)
    ensures NoneEmpty(Eligible(window))
  {
    hide HistoryContent;
    if window != [] {
      SomethingToSay(window[..|window| - 1]);
    }
  }

  lemma TightFirst(e: seq<ChatMessage>, p: seq<ChatMessage>, budget: nat)
    requires TightSuffix(e, p, budget)
    ensures |p| <= |e|
    ensures p != [] ==>
              && p[0].role == e[|e| - |p|].role
              && p[0].content != "" && p[0].content <= e[|e| - |p|].content
  {
  }

  lemma TightTotal(e: seq<ChatMessage>, p: seq<ChatMessage>, budget: nat)
    requires NoneEmpty(e) && TightSuffix(e, p, budget)
    ensures Total(p) < budget ==> p == e
  {
    if Total(p) < budget {
      EverythingIsTight(e, budget);
      TightSuffixIsUnique(e, p, e, budget);
    }
  }

  /** A message is told about if its role is the user's or the assistant's and it has words or executed
      steps to tell; what is told is the first 6000 characters of its words, or of its steps under their
      heading, or of both with an empty line between. */
  lemma WhatIsToldOfAMessage(m: MessageView)
    ensures var words, steps := m.content.GetOr(""), "历史工具执行摘要：\n" + Join("\n", m.summaries);
            var whole := if m.summaries == [] then words else if words == "" then steps else words + "\n\n" + steps;
            && HistoryContent(m) <= whole
            && |HistoryContent(m)| == (if |whole| < 6000 then |whole| else 6000)
            && (IsEligible(m) <==> m.role in {"user", "assistant"} && (words != "" || m.summaries != []))
  {
    var steps := HEADING + Join("\n", m.summaries);
    assert [steps][..0] == [];
    var both := [m.content.GetOr(""), steps];
    assert both[..1] == [m.content.GetOr("")];
    assert Join("\n\n", both) == m.content.GetOr("") + "\n\n" + steps;
  }
}
