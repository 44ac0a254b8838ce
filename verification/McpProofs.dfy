/** What every transition of the MCP connection owner keeps, and what one request may cost. */
module McpProofs {
  import opened Text
  import opened Registry
  import opened McpModel

  /** Nothing was called and no delay slept between `a` and `b`. */
  predicate Quiet(a: Actor, b: Actor) {
    b.calls == a.calls && b.delays == a.delays
  }

  lemma RegistryFieldsDecide(a: Actor, b: Actor, attached: Option<Table>)
    requires Invariant(a, attached) && Consistent(b)
    requires b.registry == a.registry && b.synced == a.synced && b.tools == a.tools
    ensures Invariant(b, attached)
  {
    hide TableAgrees, LatestDuplicateFree;
  }

  lemma DisconnectKeeps(w: World, a: Actor, attached: Option<Table>)
    requires Invariant(a, attached)
    ensures Invariant(Disconnect(w, a), attached) && !Disconnect(w, a).session
    ensures Quiet(a, Disconnect(w, a))
  {
    hide RegistryAgrees;
    RegistryFieldsDecide(a, Disconnect(w, a), attached);
  }

  lemma DroppedKeeps(w: World, a: Actor, fault: Fault, attached: Option<Table>)
    requires Invariant(a, attached)
    ensures Invariant(Dropped(w, a, fault), attached) && !Dropped(w, a, fault).session
    ensures Quiet(a, Dropped(w, a, fault))
  {
    hide Disconnect, RegistryAgrees;
    RegistryFieldsDecide(a, Failed(a, fault.text), attached);
    DisconnectKeeps(w, Failed(a, fault.text), attached);
  }

  lemma SyncKeeps(a: Actor, attached: Option<Table>)
    requires Consistent(a) && (attached.Some? <==> a.registry.Some?)
    requires attached.Some? ==> Attached(a, attached.value)
    ensures Invariant(Sync(a).0, attached)
    ensures Sync(a).0.session == a.session && Quiet(a, Sync(a).0)
  {
    hide Attached, RegistryAgrees, Replaceable, Replaced, DiffOf, Image;
    if attached.Some? {
      SyncAgrees(a, attached.value);
    }
  }

  lemma ConnectOnceKeeps(w: World, a: Actor, attached: Option<Table>)
    requires Invariant(a, attached)
    ensures var (b, error) := ConnectOnce(w, a);
            Invariant(b, attached) && Quiet(a, b) && (error.None? <==> b.session)
  {
    hide Disconnect, Sync, TableAgrees, LatestDuplicateFree;
    DisconnectKeeps(w, a, attached);
    var b := Disconnect(w, a);
    var outcome, at := w.connect(b.contacts), w.now(b.contacts);
    var c := b.(contacts := b.contacts + 1);
    match outcome {
      case Refused(_) => RegistryFieldsDecide(b, c, attached);
      case Connected(server, protocol, tools) =>
        SyncKeeps(Booked(Opened(c, server, protocol, tools), at), attached);
    }
  }

  /** The delays slept from attempt `attempt` on: one before each further attempt, as the policy
      says. */
  predicate BackedOff(p: Policy, ds: seq<real>, attempt: nat, attempts: int) {
    && (ds == [] || attempt + |ds| < attempts)
    && forall i :: 0 <= i < |ds| ==> ds[i] == Delay(p, attempt + i)
  }

  lemma DelaysAfter(before: seq<real>, delay: real, all: seq<real>)
    requires |before| < |all| && all[..|before| + 1] == before + [delay]
    ensures all[..|before|] == before
    ensures all[|before|..] == [delay] + all[|before| + 1..]
  {
    assert all[..|before|] == all[..|before| + 1][..|before|];
    assert all[|before|] == all[..|before| + 1][|before|];
  }

  lemma NothingSlept(p: Policy, attempt: nat, attempts: int)
    ensures BackedOff(p, [], attempt, attempts)
  {
  }

  lemma BackedOffOneMore(p: Policy, rest: seq<real>, attempt: nat, attempts: int)
    requires BackedOff(p, rest, attempt + 1, attempts) && attempt + 1 < attempts
    ensures BackedOff(p, [Delay(p, attempt)] + rest, attempt, attempts)
  {
    hide Delay;
    var all := [Delay(p, attempt)] + rest;
    forall i | 0 <= i < |all|
      ensures all[i] == Delay(p, attempt + i)
    {
      if i > 0 {
        assert rest[i - 1] == Delay(p, (attempt + 1) + (i - 1));
      }
    }
  }

  lemma {:induction false} ConnectFromKeeps(
      w: World, p: Policy, a: Actor, attempts: int, attempt: nat, attached: Option<Table>)
    requires Invariant(a, attached)
    ensures var (b, problem) := ConnectFrom(w, p, a, attempts, attempt);
            && Invariant(b, attached)
            && b.calls == a.calls
            && (problem.None? <==> b.session)
            && (problem.Some? ==> problem == Some(ConnectionFault(UNABLE)))
            && |a.delays| <= |b.delays| && b.delays[..|a.delays|] == a.delays
            && BackedOff(p, b.delays[|a.delays|..], attempt, attempts)
    decreases attempts - attempt
  {
    hide ConnectOnce, Delay, Invariant, BackedOff;
    NothingSlept(p, attempt, attempts);
    ConnectOnceKeeps(w, a, attached);
    var (b, error) := ConnectOnce(w, a);
    if error.Some? {
      var c := Failed(b, error.value);
      FailedKeeps(b, error.value, attached);
      if attempt + 1 < attempts {
        var d := c.(delays := c.delays + [Delay(p, attempt)]);
        SleptKeeps(c, Delay(p, attempt), attached);
        ConnectFromKeeps(w, p, d, attempts, attempt + 1, attached);
        var e := ConnectFrom(w, p, d, attempts, attempt + 1).0;
        var rest := e.delays[|d.delays|..];
        DelaysAfter(a.delays, Delay(p, attempt), e.delays);
        BackedOffOneMore(p, rest, attempt, attempts);
      } else {
        assert c.delays[|a.delays|..] == [];
      }
    } else {
      assert b.delays[|a.delays|..] == [];
    }
  }

  lemma FailedKeeps(a: Actor, text: string, attached: Option<Table>)
    requires Invariant(a, attached)
    ensures Invariant(Failed(a, text), attached)
  {
    RegistryFieldsDecide(a, Failed(a, text), attached);
  }

  lemma SleptKeeps(a: Actor, delay: real, attached: Option<Table>)
    requires Invariant(a, attached)
    ensures Invariant(a.(delays := a.delays + [delay]), attached)
  {
    RegistryFieldsDecide(a, a.(delays := a.delays + [delay]), attached);
  }

  lemma {:induction false} Pow2Grows(i: nat, j: nat)
    requires i <= j
    ensures 1 <= Pow2(i) <= Pow2(j)
    decreases j
  {
    if i < j {
      Pow2Grows(i, j - 1);
    } else if i > 0 {
      Pow2Grows(i - 1, i - 1);
    }
  }

  /** Back-off delays never shrink and never exceed the cap, and a connect sleeps between attempts
      only: fewer times than it may attempt. */
  lemma BackoffIsMonotoneAndCapped(w: World, p: Policy, a: Actor, attempts: int, attached: Option<Table>)
    requires Invariant(a, attached) && p.baseDelay >= 0.0
    ensures var b := ConnectWithRetries(w, p, a, attempts).0;
            && |a.delays| <= |b.delays| && b.delays[..|a.delays|] == a.delays
            && var slept := b.delays[|a.delays|..];
            && (slept == [] || |slept| < attempts)
            && (forall i :: 0 <= i < |slept| ==> slept[i] <= p.maxDelay)
            && (forall i, j :: 0 <= i < j < |slept| ==> slept[i] <= slept[j])
  {
    hide ConnectFrom, Invariant, Pow2;
    ConnectFromKeeps(w, p, a, attempts, 0, attached);
    var slept := ConnectWithRetries(w, p, a, attempts).0.delays[|a.delays|..];
    forall i, j | 0 <= i < j < |slept|
      ensures slept[i] <= slept[j]
    {
      Pow2Grows(i, j);
      assert slept[i] == Delay(p, 0 + i) && slept[j] == Delay(p, 0 + j);
      DelayGrows(p, i, j);
    }
  }

  lemma DelayGrows(p: Policy, i: nat, j: nat)
    requires p.baseDelay >= 0.0 && Pow2(i) <= Pow2(j)
    ensures Delay(p, i) <= Delay(p, j)
  {
    hide Pow2;
    ProductGrows(p.baseDelay, Pow2(i) as real, Pow2(j) as real);
  }

  lemma ProductGrows(a: real, x: real, y: real)
    requires a >= 0.0 && x <= y
    ensures a * x <= a * y
  {
    assert a * (y - x) >= 0.0;
  }

  // Calls

  /** No usable answer came back: the transport failed, or the server's answer could not be read. */
  predicate Unusable(o: CallOutcome) {
    o.Transport? || o.Unreadable?
  }

  /** What one request may have sent to the server: the same call each time, again only after an
      attempt that brought no usable answer, and its result is the last attempt's. */
  predicate Attempts(made: seq<ServerCall>, name: string, arguments: string, r: Result<string, Fault>) {
    && (forall i :: 0 <= i < |made| ==> made[i].name == name && made[i].arguments == arguments)
    && (forall i :: 0 <= i < |made| - 1 ==> Unusable(made[i].outcome))
    && (r.Ok? ==> made != [] && made[|made| - 1].outcome == Answer(r.value))
    && (r.Err? && r.error.ToolFault? ==> made != [] && made[|made| - 1].outcome == Business(r.error.text))
    && (r.Err? && !r.error.ToolFault? ==> made != [] ==> Unusable(made[|made| - 1].outcome))
  }

  lemma CallOnceKeeps(w: World, a: Actor, name: string, arguments: string, attached: Option<Table>)
    requires Invariant(a, attached) && a.session
    ensures var (b, r) := CallOnce(w, a, name, arguments);
            && Invariant(b, attached)
            && |b.calls| == |a.calls| + 1 && b.calls[..|a.calls|] == a.calls
            && Attempts([b.calls[|a.calls|]], name, arguments, r)
  {
    hide RegistryAgrees;
    RegistryFieldsDecide(a, CallOnce(w, a, name, arguments).0, attached);
  }

  lemma OneMoreAttempt(
      first: ServerCall, rest: seq<ServerCall>, name: string, arguments: string, r: Result<string, Fault>)
    requires first.name == name && first.arguments == arguments && Unusable(first.outcome)
    requires Attempts(rest, name, arguments, r)
    ensures Attempts([first] + rest, name, arguments, r)
  {
    var made := [first] + rest;
    forall i | 0 <= i < |made| - 1
      ensures Unusable(made[i].outcome)
    {
      if i > 0 {
        assert made[i] == rest[i - 1];
      }
    }
    if rest != [] {
      assert made[|made| - 1] == rest[|rest| - 1];
    }
  }

  lemma {:induction false} RetryCallKeeps(
      w: World, p: Policy, a: Actor, name: string, arguments: string, left: nat, attached: Option<Table>)
    requires Invariant(a, attached)
    ensures var (b, r) := RetryCall(w, p, a, name, arguments, left);
            && Invariant(b, attached)
            && |a.calls| <= |b.calls| <= |a.calls| + left && b.calls[..|a.calls|] == a.calls
            && Attempts(b.calls[|a.calls|..], name, arguments, r)
    decreases left
  {
    hide ConnectFrom, Dropped, CallOnce, Invariant, Attempts, BackedOff;
    if left == 0 {
      NoAttempt(name, arguments, RetryCall(w, p, a, name, arguments, left).1);
      assert a.calls[|a.calls|..] == [];
    } else {
      ConnectFromKeeps(w, p, a, 1, 0, attached);
      var (b, problem) := ConnectWithRetries(w, p, a, 1);
      if problem.Some? {
        DroppedKeeps(w, b, problem.value, attached);
        RetryCallKeeps(w, p, Dropped(w, b, problem.value), name, arguments, left - 1, attached);
      } else {
        CallOnceKeeps(w, b, name, arguments, attached);
        var (c, r) := CallOnce(w, b, name, arguments);
        assert c.calls[|a.calls|..] == [c.calls[|a.calls|]];
        if r.Err? && !r.error.ToolFault? {
          DroppedKeeps(w, c, r.error, attached);
          var d := Dropped(w, c, r.error);
          RetryCallKeeps(w, p, d, name, arguments, left - 1, attached);
          var (e, s) := RetryCall(w, p, d, name, arguments, left - 1);
          FirstUnusable(c.calls[|a.calls|], name, arguments, r);
          OneMoreAttempt(c.calls[|a.calls|], e.calls[|c.calls|..], name, arguments, s);
          assert e.calls[..|a.calls|] == c.calls[..|a.calls|];
          assert e.calls[|a.calls|] == c.calls[|a.calls|];
          assert e.calls[|a.calls|..] == [c.calls[|a.calls|]] + e.calls[|c.calls|..];
        }
      }
    }
  }

  lemma NoAttempt(name: string, arguments: string, r: Result<string, Fault>)
    requires r.Err? && !r.error.ToolFault?
    ensures Attempts([], name, arguments, r)
  {
  }

  lemma FirstUnusable(call: ServerCall, name: string, arguments: string, r: Result<string, Fault>)
    requires Attempts([call], name, arguments, r) && r.Err? && !r.error.ToolFault?
    ensures call.name == name && call.arguments == arguments && Unusable(call.outcome)
  {
    assert [call][0] == call;
  }

  /** One request reaches the server at most `1 + callRetryAttempts` times; a tool's own error is the
      last word and is never sent again; the caller gets the last attempt's outcome. */
  lemma CallReachesServerBoundedly(
      w: World, p: Policy, a: Actor, name: Option<string>, arguments: string, attached: Option<Table>)
    requires Invariant(a, attached)
    ensures var (b, r) := HandleCall(w, p, a, name, arguments);
            && Invariant(b, attached)
            && |a.calls| <= |b.calls| <= |a.calls| + 1 + p.callRetryAttempts
            && b.calls[..|a.calls|] == a.calls
            && (name.None? ==> r == Err(ConnectionFault("MCP tool name is missing.")) && b == a)
            && (name.Some? ==> Attempts(b.calls[|a.calls|..], name.value, arguments, r))
  {
    hide ConnectFrom, Dropped, CallOnce, RetryCall, Invariant, Attempts, BackedOff;
    if name.Some? {
      var n := name.value;
      ConnectFromKeeps(w, p, a, p.connectAttempts, 0, attached);
      var (b, problem) := if a.session then (a, None) else ConnectWithRetries(w, p, a, p.connectAttempts);
      if problem.Some? {
        NoAttempt(n, arguments, Err(problem.value));
        assert b.calls[|a.calls|..] == [];
      } else {
        CallOnceKeeps(w, b, n, arguments, attached);
        var (c, r) := CallOnce(w, b, n, arguments);
        assert c.calls[|a.calls|..] == [c.calls[|a.calls|]];
        if r.Err? && !r.error.ToolFault? {
          DroppedKeeps(w, c, r.error, attached);
          var d := Dropped(w, c, r.error);
          RetryCallKeeps(w, p, d, n, arguments, p.callRetryAttempts, attached);
          var (e, s) := RetryCall(w, p, d, n, arguments, p.callRetryAttempts);
          FirstUnusable(c.calls[|a.calls|], n, arguments, r);
          OneMoreAttempt(c.calls[|a.calls|], e.calls[|c.calls|..], n, arguments, s);
          assert e.calls[..|a.calls|] == c.calls[..|a.calls|];
          assert e.calls[|a.calls|] == c.calls[|a.calls|];
          assert e.calls[|a.calls|..] == [c.calls[|a.calls|]] + e.calls[|c.calls|..];
        }
      }
    }
  }

  // The other transitions

  lemma RefreshKeeps(w: World, a: Actor, attached: Option<Table>)
    requires Invariant(a, attached)
    ensures Invariant(RefreshTools(w, a).0, attached) && Quiet(a, RefreshTools(w, a).0)
  {
    hide Sync, TableAgrees, LatestDuplicateFree;
    if a.session {
      var listed := w.list(a.contacts);
      var b := a.(contacts := a.contacts + 1);
      if listed.Err? {
        RegistryFieldsDecide(a, b, attached);
      } else {
        var c := b.(tools := listed.value, lastRefreshAt := w.now(a.contacts), refreshCount := b.refreshCount + 1);
        SyncKeeps(c, attached);
        assert RefreshTools(w, a).0 == Sync(c).0;
      }
    }
  }

  lemma HandleRefreshKeeps(w: World, p: Policy, a: Actor, attached: Option<Table>)
    requires Invariant(a, attached)
    ensures Invariant(HandleRefresh(w, p, a).0, attached) && HandleRefresh(w, p, a).0.calls == a.calls
  {
    hide ConnectFrom, RefreshTools, Invariant, BackedOff;
    ConnectFromKeeps(w, p, a, p.connectAttempts, 0, attached);
    var (b, problem) := if a.session then (a, None) else ConnectWithRetries(w, p, a, p.connectAttempts);
    if problem.None? {
      RefreshKeeps(w, b, attached);
    }
  }

  lemma PingKeeps(w: World, a: Actor, attached: Option<Table>)
    requires Invariant(a, attached)
    ensures Invariant(HandlePing(w, a).0, attached) && Quiet(a, HandlePing(w, a).0)
    ensures HandlePing(w, a).1 <==> HandlePing(w, a).0.session
  {
    hide Disconnect, RegistryAgrees;
    if a.session {
      var problem := w.ping(a.contacts);
      var b := a.(contacts := a.contacts + 1);
      RegistryFieldsDecide(a, b, attached);
      if problem.Some? {
        FailedKeeps(b, problem.value, attached);
        DisconnectKeeps(w, Failed(b, problem.value), attached);
      } else {
        RegistryFieldsDecide(a, b.(lastPingAt := Some(w.now(a.contacts))), attached);
      }
    }
  }

  lemma MaintenanceKeeps(w: World, p: Policy, a: Actor, attached: Option<Table>)
    requires Invariant(a, attached)
    ensures Invariant(Maintenance(w, p, a), attached) && Maintenance(w, p, a).calls == a.calls
  {
    hide ConnectFrom, RefreshTools, HandlePing, Dropped, Invariant, BackedOff;
    ConnectFromKeeps(w, p, a, 1, 0, attached);
    var (b, problem) := if a.session then (a, None) else ConnectWithRetries(w, p, a, 1);
    if problem.Some? {
      DroppedKeeps(w, b, problem.value, attached);
    } else {
      PingKeeps(w, b, attached);
      var (c, alive) := if a.session then HandlePing(w, b) else (b, true);
      RefreshKeeps(w, c, attached);
      var (d, r) := RefreshTools(w, c);
      if r.Err? {
        DroppedKeeps(w, d, r.error, attached);
      }
    }
  }

  function Attach(a: Actor, t: Table): Actor {
    Sync(a.(registry := Some(t), synced := [])).0
  }

  lemma AttachEstablishes(a: Actor, t: Table)
    requires Consistent(a) && t.Valid()
    ensures Invariant(Attach(a, t), Some(t))
  {
    hide Sync, LatestDuplicateFree;
    NothingSynced();
    SyncKeeps(a.(registry := Some(t), synced := []), Some(t));
  }

  lemma NothingSynced()
    ensures LatestDuplicateFree([]) == None
  {
  }

  /** While the server's current list has no duplicate names, it is exactly what the registry shows
      under the prefix. */
  lemma CurrentToolsAreRegistered(a: Actor, t: Table)
    requires Invariant(a, Some(t)) && DuplicateFree(a.tools)
    ensures a.registry.value.Slice(PREFIX) == ByName(Image(a.tools))
    ensures a.registry.value.Others(PREFIX) == t.Others(PREFIX)
  {
    hide TableAgrees, LatestDuplicateFree, DuplicateFree, Consistent;
    LatestOneMore(a.synced[..|a.synced| - 1], a.tools);
    assert a.synced == a.synced[..|a.synced| - 1] + [a.tools];
    AgreeingSlice(a.registry.value, t, a.tools);
  }

  lemma AgreeingSlice(t: Table, attached: Table, tools: seq<McpTool>)
    requires TableAgrees(t, attached, Some(tools))
    ensures t.Slice(PREFIX) == ByName(Image(tools)) && t.Others(PREFIX) == attached.Others(PREFIX)
  {
    hide Image, ByName;
  }
}
