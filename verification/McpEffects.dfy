/** That the MCP connection owner tries as often as it may before it gives up, and what each contact
    with the server leaves in its fields. */
module McpEffects {
  import opened Text
  import opened Registry
  import opened McpModel
  import opened McpProofs

  function AtLeastOne(n: int): nat {
    if n < 1 then 1 else n
  }

  /** The caller is told that the server could not be reached: neither an answer nor the tool's own error. */
  predicate GaveUp(r: Result<string, Fault>) {
    r.Err? && !r.error.ToolFault?
  }

  /** How many times, from `a` to `b`, the server was called, let the client in, and refused it. */
  ghost predicate Spent(a: Actor, b: Actor, called: int, accepted: int, refused: int) {
    |b.calls| == |a.calls| + called && b.connects == a.connects + accepted && b.refused == a.refused + refused
  }

  // One contact

  lemma DisconnectSpends(w: World, a: Actor)
    ensures Spent(a, Disconnect(w, a), 0, 0, 0) && Disconnect(w, a).delays == a.delays
    ensures !Disconnect(w, a).session && !Disconnect(w, a).stack
    ensures Disconnect(w, a).contacts == a.contacts + (if a.stack then 1 else 0)
    ensures Disconnect(w, a).lastError
         == if a.stack && w.close(a.contacts).Some? then w.close(a.contacts) else a.lastError
  {
  }

  lemma SyncSpends(a: Actor)
    ensures Spent(a, Sync(a).0, 0, 0, 0)
    ensures Sync(a).0
         == a.(registry := Sync(a).0.registry, synced := Sync(a).0.synced, lastError := Sync(a).0.lastError)
    ensures a.registry.None? ==> Sync(a).0 == a
    ensures a.registry.Some? && DuplicateFree(a.tools) ==> Sync(a).0.lastError == a.lastError
  {
    hide Replaceable, Replaced, DiffOf, Image, DuplicateFree;
    ImageReplaceableIffDuplicateFree(a.tools);
  }

  /** One attempt to connect asks the server once, after closing what was open.  Refused, nothing is
      open; let in, the client has the session, the server's name and tools, and a clean record,
      and counts a reconnect unless this is its first connection. */
  lemma ConnectOnceRecords(w: World, a: Actor)
    ensures var at := a.contacts + (if a.stack then 1 else 0);
            var (b, error) := ConnectOnce(w, a);
            && b.delays == a.delays
            && match w.connect(at) {
                 case Refused(e) =>
                   && error == Some(e) && Spent(a, b, 0, 0, 1)
                   && !b.session && !b.stack && b.tools == a.tools && b.registry == a.registry
                 case Connected(server, protocol, tools) =>
                   && error.None? && Spent(a, b, 0, 1, 0)
                   && b.session && b.stack && b.tools == tools && b.server == Some((server, protocol))
                   && b.lastPingAt == Some(w.now(at)) && b.lastRefreshAt == w.now(at)
                   && b.everConnected && b.refreshCount == a.refreshCount
                   && b.reconnectCount == a.reconnectCount + (if a.everConnected then 1 else 0)
                   && (a.registry.None? || DuplicateFree(tools) ==> b.lastError.None?)
               }
  {
    hide Sync, DuplicateFree;
    DisconnectSpends(w, a);
    var b := Disconnect(w, a);
    var c := b.(contacts := b.contacts + 1);
    match w.connect(b.contacts)
    case Refused(e) =>
    case Connected(server, protocol, tools) =>
      SyncSpends(Booked(Opened(c, server, protocol, tools), w.now(b.contacts)));
  }

  // Connecting with retries

  /** A connect that fails was refused as often as it may try, which is at least once; one that
      succeeds was let in once, and before that refused fewer times.  Every refusal but the last
      possible one is followed by a pause. */
  lemma {:induction false} ConnectFromSpends(w: World, p: Policy, a: Actor, attempts: int, attempt: nat)
    ensures var (b, problem) := ConnectFrom(w, p, a, attempts, attempt);
            var refused := b.refused - a.refused;
            && (problem.Some? ==>
                  && problem == Some(ConnectionFault(UNABLE))
                  && Spent(a, b, 0, 0, AtLeastOne(attempts - attempt)) && !b.session)
            && (problem.None? ==>
                  Spent(a, b, 0, 1, refused) && 0 <= refused < AtLeastOne(attempts - attempt) && b.session)
            && |b.delays| == |a.delays| + refused - (if problem.Some? then 1 else 0)
    decreases attempts - attempt
  {
    hide ConnectOnce, Delay;
    ConnectOnceRecords(w, a);
    var (b, error) := ConnectOnce(w, a);
    if error.Some? && attempt + 1 < attempts {
      var d := Failed(b, error.value).(delays := b.delays + [Delay(p, attempt)]);
      ConnectFromSpends(w, p, d, attempts, attempt + 1);
    }
  }

  lemma ConnectSpends(w: World, p: Policy, a: Actor, attempts: int)
    ensures var (b, problem) := ConnectWithRetries(w, p, a, attempts);
            var refused := b.refused - a.refused;
            && (problem.Some? ==>
                  && problem == Some(ConnectionFault(UNABLE))
                  && Spent(a, b, 0, 0, AtLeastOne(attempts)) && !b.session)
            && (problem.None? ==>
                  Spent(a, b, 0, 1, refused) && 0 <= refused < AtLeastOne(attempts) && b.session)
            && |b.delays| == |a.delays| + refused - (if problem.Some? then 1 else 0)
  {
    ConnectFromSpends(w, p, a, attempts, 0);
  }

  /** The first pause is the base delay, each later one twice the one before, and none exceeds the cap. */
  lemma DelayDoublesUpToTheCap(p: Policy, k: nat)
    requires p.baseDelay >= 0.0
    ensures Delay(p, 0) == if p.baseDelay <= p.maxDelay then p.baseDelay else p.maxDelay
    ensures Delay(p, k + 1)
         == if 2.0 * Delay(p, k) <= p.maxDelay && Delay(p, k) < p.maxDelay then 2.0 * Delay(p, k) else p.maxDelay
  {
    assert Pow2(0) == 1;
    var n := Pow2(k) as real;
    assert Pow2(k + 1) as real == 2.0 * n;
    assert p.baseDelay * (2.0 * n) == 2.0 * (p.baseDelay * n);
    assert p.baseDelay * n >= 0.0;
  }

  // Calls

  /** A call is made of the server's tool of that name with those arguments, and recorded as such. */
  lemma CallOnceRecords(w: World, a: Actor, name: string, arguments: string)
    requires a.session
    ensures CallOnce(w, a, name, arguments).0.calls
         == a.calls + [ServerCall(name, arguments, w.call(a.contacts, name, arguments))]
    ensures Spent(a, CallOnce(w, a, name, arguments).0, 1, 0, 0)
    ensures CallOnce(w, a, name, arguments).0.contacts == a.contacts + 1
    ensures CallOnce(w, a, name, arguments).0.session && CallOnce(w, a, name, arguments).0.delays == a.delays
  {
  }

  lemma DroppedSpends(w: World, a: Actor, fault: Fault)
    ensures Spent(a, Dropped(w, a, fault), 0, 0, 0) && !Dropped(w, a, fault).session
    ensures Dropped(w, a, fault).delays == a.delays
  {
    DisconnectSpends(w, Failed(a, fault.text));
  }

  /** Each retry either is refused or opens a new connection and calls once on it, without a pause;
      giving up takes all of them and leaves no connection open. */
  lemma {:induction false} RetryCallSpends(
      w: World, p: Policy, a: Actor, name: string, arguments: string, left: nat)
    requires !a.session
    ensures var (b, r) := RetryCall(w, p, a, name, arguments, left);
            var called, refused := |b.calls| - |a.calls|, b.refused - a.refused;
            && Spent(a, b, called, called, refused) && 0 <= called && 0 <= refused && called + refused <= left
            && (GaveUp(r) ==>
                  called + refused == left
                  && r.error == ConnectionFault("MCP tool '" + name + "' failed after reconnect."))
            && (!GaveUp(r) ==> called > 0)
            && (GaveUp(r) <==> !b.session) && |b.delays| == |a.delays|
    decreases left
  {
    hide ConnectFrom, Dropped, CallOnce;
    if left > 0 {
      ConnectSpends(w, p, a, 1);
      var (b, problem) := ConnectWithRetries(w, p, a, 1);
      if problem.Some? {
        DroppedSpends(w, b, problem.value);
        RetryCallSpends(w, p, Dropped(w, b, problem.value), name, arguments, left - 1);
      } else {
        CallOnceRecords(w, b, name, arguments);
        var (c, r) := CallOnce(w, b, name, arguments);
        if GaveUp(r) {
          DroppedSpends(w, c, r.error);
          RetryCallSpends(w, p, Dropped(w, c, r.error), name, arguments, left - 1);
        }
      }
    }
  }

  /** Where a request makes its first call: with the session it found, or after connecting. */
  function Ready(w: World, p: Policy, a: Actor): (Actor, Option<Fault>) {
    if a.session then (a, None) else ConnectWithRetries(w, p, a, p.connectAttempts)
  }

  /** Giving up means every retry was used.  A request that found no connection and could open none was
      refused as often as a connect may try and calls nothing.  Any other request calls once; if it
      gives up, calls made and reconnects refused since then are together one more than the retries.
      Every call but that first one has a connection of its own, and none is left open after giving up. */
  lemma GivingUpMeansEveryRetryWasUsed(w: World, p: Policy, a: Actor, name: string, arguments: string)
    ensures var (b, r) := HandleCall(w, p, a, Some(name), arguments);
            var (ready, problem) := Ready(w, p, a);
            var called, refused := |b.calls| - |a.calls|, b.refused - ready.refused;
            && (GaveUp(r) <==> !b.session) && |b.delays| == |ready.delays|
            && (problem.Some? ==>
                  GaveUp(r) && Spent(a, b, 0, 0, AtLeastOne(p.connectAttempts)) && !a.session)
            && (problem.None? ==>
                  && Spent(ready, b, called, called - 1, refused)
                  && 1 <= called && 0 <= refused && called + refused <= 1 + p.callRetryAttempts
                  && (GaveUp(r) ==>
                        && called + refused == 1 + p.callRetryAttempts
                        && r.error == ConnectionFault("MCP tool '" + name + "' failed after reconnect.")))
  {
    hide ConnectFrom, Dropped, CallOnce, RetryCall;
    ConnectSpends(w, p, a, p.connectAttempts);
    var (ready, problem) := Ready(w, p, a);
    if problem.None? {
      CallOnceRecords(w, ready, name, arguments);
      var (c, r) := CallOnce(w, ready, name, arguments);
      if GaveUp(r) {
        DroppedSpends(w, c, r.error);
        RetryCallSpends(w, p, Dropped(w, c, r.error), name, arguments, p.callRetryAttempts);
      }
    }
  }

  /** With a server that never refuses, a request that gives up has called it exactly
      `1 + callRetryAttempts` times. */
  lemma ReachableServerIsCalledEachTime(
      w: World, p: Policy, a: Actor, name: string, arguments: string)
    requires forall k :: w.connect(k).Connected?
    requires GaveUp(HandleCall(w, p, a, Some(name), arguments).1)
    ensures |HandleCall(w, p, a, Some(name), arguments).0.calls| == |a.calls| + 1 + p.callRetryAttempts
  {
    hide HandleCall, ConnectFrom;
    GivingUpMeansEveryRetryWasUsed(w, p, a, name, arguments);
    NeverRefused(w, p, a, p.connectAttempts, 0);
    if a.session || Ready(w, p, a).1.None? {
      HandleCallNeverRefused(w, p, a, name, arguments);
    }
  }

  lemma NeverRefused(w: World, p: Policy, a: Actor, attempts: int, attempt: nat)
    requires forall k :: w.connect(k).Connected?
    ensures ConnectFrom(w, p, a, attempts, attempt).1.None?
    ensures ConnectFrom(w, p, a, attempts, attempt).0.refused == a.refused
  {
    hide ConnectOnce;
    ConnectOnceRecords(w, a);
  }

  lemma {:induction false} RetryNeverRefused(
      w: World, p: Policy, a: Actor, name: string, arguments: string, left: nat)
    requires forall k :: w.connect(k).Connected?
    ensures RetryCall(w, p, a, name, arguments, left).0.refused == a.refused
    decreases left
  {
    hide ConnectFrom, Dropped, CallOnce;
    if left > 0 {
      NeverRefused(w, p, a, 1, 0);
      ConnectSpends(w, p, a, 1);
      var b := ConnectWithRetries(w, p, a, 1).0;
      CallOnceRecords(w, b, name, arguments);
      var (c, r) := CallOnce(w, b, name, arguments);
      if GaveUp(r) {
        DroppedSpends(w, c, r.error);
        RetryNeverRefused(w, p, Dropped(w, c, r.error), name, arguments, left - 1);
      }
    }
  }

  lemma HandleCallNeverRefused(w: World, p: Policy, a: Actor, name: string, arguments: string)
    requires forall k :: w.connect(k).Connected?
    ensures HandleCall(w, p, a, Some(name), arguments).0.refused == Ready(w, p, a).0.refused
  {
    hide ConnectFrom, Dropped, CallOnce, RetryCall;
    NeverRefused(w, p, a, p.connectAttempts, 0);
    ConnectSpends(w, p, a, p.connectAttempts);
    var ready := Ready(w, p, a).0;
    CallOnceRecords(w, ready, name, arguments);
    var (c, r) := CallOnce(w, ready, name, arguments);
    if GaveUp(r) {
      DroppedSpends(w, c, r.error);
      RetryNeverRefused(w, p, Dropped(w, c, r.error), name, arguments, p.callRetryAttempts);
    }
  }

  // Refreshing, pinging and the idle tick

  /** A refresh on an open session asks for the list once.  A list that comes takes the place of the old
      one, with its time, and an attached registry shows it if its names are distinct; a list that
      fails to come changes nothing but the count of contacts and keeps the connection. */
  lemma RefreshRecords(w: World, a: Actor)
    requires a.session && (a.registry.Some? ==> a.registry.value.Valid())
    ensures var (b, r) := RefreshTools(w, a);
            && Spent(a, b, 0, 0, 0) && b.session && b.delays == a.delays
            && b.contacts == a.contacts + 1
            && match w.list(a.contacts) {
                 case Err(e) => r == Err(OtherFault(e)) && b == a.(contacts := a.contacts + 1)
                 case Ok(tools) =>
                   && r.Ok? && b.tools == tools && b.stack == a.stack
                   && b.lastRefreshAt == w.now(a.contacts) && b.refreshCount == a.refreshCount + 1
                   && (a.registry.None? ==> b.registry.None? && r.value == NO_CHANGE)
                   && (a.registry.Some? && DuplicateFree(tools) ==>
                         && b.registry.Some? && b.registry.value.Slice(PREFIX) == ByName(Image(tools))
                         && b.registry.value.Others(PREFIX) == a.registry.value.Others(PREFIX)
                         && r.value == DiffOf(a.registry.value, PREFIX, Image(tools)))
                   && (a.registry.Some? && !DuplicateFree(tools) ==>
                         b.registry == a.registry && b.lastError.Some? && r.value == NO_CHANGE)
               }
  {
    hide Replaced, DiffOf, Image, ByName, DuplicateFree, Replaceable;
    if w.list(a.contacts).Ok? {
      var tools := w.list(a.contacts).value;
      ImageReplaceableIffDuplicateFree(tools);
      if a.registry.Some? && DuplicateFree(tools) {
        ReplacedSliceIsIncoming(a.registry.value, PREFIX, Image(tools));
      }
    }
  }

  /** A ping that is answered is booked with its time; one that is not closes the connection. */
  lemma PingRecords(w: World, a: Actor)
    ensures var (b, alive) := HandlePing(w, a);
            && Spent(a, b, 0, 0, 0) && b.delays == a.delays && b.refreshCount == a.refreshCount
            && b.tools == a.tools && b.registry == a.registry
            && (alive <==> a.session && w.ping(a.contacts).None?)
            && (alive ==> b == a.(contacts := a.contacts + 1, lastPingAt := Some(w.now(a.contacts))))
            && (!alive && a.session ==> !b.session && !b.stack && b.lastError.Some?)
            && (!a.session ==> b == a)
  {
  }

  /** Whether the tool list is older than the settings allow. */
  predicate Due(w: World, p: Policy, a: Actor) {
    p.refreshInterval > 0 && w.now(a.contacts) - a.lastRefreshAt >= p.refreshInterval
  }

  /** The idle tick with a connection: if the server no longer answers, the connection is closed and no
      list is asked for; if it does, the list is refreshed exactly when it is due, and a refresh that
      fails closes the connection. */
  lemma TickOfAConnectedClient(w: World, p: Policy, a: Actor)
    requires a.session && (a.registry.Some? ==> a.registry.value.Valid())
    ensures var b := Maintenance(w, p, a);
            var pinged := a.(contacts := a.contacts + 1, lastPingAt := Some(w.now(a.contacts)));
            && Spent(a, b, 0, 0, 0) && b.delays == a.delays
            && (w.ping(a.contacts).Some? ==> !b.session && b.refreshCount == a.refreshCount && b.tools == a.tools)
            && (w.ping(a.contacts).None? && !Due(w, p, pinged) ==> b == pinged)
            && (w.ping(a.contacts).None? && Due(w, p, pinged) ==>
                  && (w.list(a.contacts + 1).Ok? ==>
                        && b.session && b.tools == w.list(a.contacts + 1).value
                        && b.refreshCount == a.refreshCount + 1 && b.lastRefreshAt == w.now(a.contacts + 1))
                  && (w.list(a.contacts + 1).Err? ==>
                        !b.session && b.refreshCount == a.refreshCount && b.tools == a.tools && b.lastError.Some?))
  {
    hide HandlePing, RefreshTools, Replaced, DiffOf, Image, ByName, DuplicateFree;
    PingRecords(w, a);
    var (c, alive) := HandlePing(w, a);
    if alive && Due(w, p, c) {
      RefreshRecords(w, c);
      var (d, r) := RefreshTools(w, c);
      if r.Err? {
        DroppedSpends(w, d, r.error);
      }
    }
  }

  /** The idle tick without a connection asks the server once, without a pause: refused, it stays without
      one and records the error; let in, it has one, and refreshes at once if that is already due. */
  lemma TickOfAnUnconnectedClient(w: World, p: Policy, a: Actor)
    requires !a.session && (a.registry.Some? ==> a.registry.value.Valid())
    ensures var b := Maintenance(w, p, a);
            var at := a.contacts + (if a.stack then 1 else 0);
            && b.delays == a.delays
            && (w.connect(at).Refused? ==> Spent(a, b, 0, 0, 1) && !b.session && b.lastError == Some(UNABLE))
            && (w.connect(at).Connected? ==>
                  && Spent(a, b, 0, 1, 0)
                  && var due := p.refreshInterval > 0 && w.now(at + 1) - w.now(at) >= p.refreshInterval;
                     && (!due ==> b.session && b.refreshCount == a.refreshCount && b.tools == w.connect(at).tools)
                     && (due && w.list(at + 1).Ok? ==>
                           b.session && b.refreshCount == a.refreshCount + 1 && b.tools == w.list(at + 1).value)
                     && (due && w.list(at + 1).Err? ==> !b.session && b.lastError.Some?))
  {
    hide ConnectOnce, RefreshTools, Replaced, DiffOf, Image, ByName, DuplicateFree;
    ConnectOnceRecords(w, a);
    var (c, problem) := ConnectWithRetries(w, p, a, 1);
    assert problem.None? <==> w.connect(a.contacts + (if a.stack then 1 else 0)).Connected?;
    if problem.None? {
      ConnectOnceValid(w, a);
      if Due(w, p, c) {
        RefreshRecords(w, c);
        var (d, r) := RefreshTools(w, c);
        if r.Err? {
          DroppedSpends(w, d, r.error);
        }
      }
    }
  }

  lemma ConnectOnceValid(w: World, a: Actor)
    requires a.registry.Some? ==> a.registry.value.Valid()
    ensures var b := ConnectOnce(w, a).0; b.registry.Some? ==> b.registry.value.Valid()
    ensures ConnectOnce(w, a).1.None? ==>
              ConnectOnce(w, a).0.contacts == a.contacts + (if a.stack then 1 else 0) + 1
  {
    hide Replaced, DiffOf, Image, Replaceable;
    var b := Disconnect(w, a);
    match w.connect(b.contacts)
    case Refused(_) =>
    case Connected(server, protocol, tools) =>
      if a.registry.Some? && Replaceable(PREFIX, Image(tools)) {
        ReplacedValid(a.registry.value, PREFIX, Image(tools));
      }
  }

  // What the registry offers

  /** While the server's list has no duplicate names, the slice offers exactly its tools: each under its
      prefixed name, calling the server's tool of that name, never in parallel with others, described
      by its description, else its title, else its name, with its schema or that of any object. */
  lemma SliceOffersTheServersTools(a: Actor, t: Table)
    requires Invariant(a, Some(t)) && DuplicateFree(a.tools)
    ensures var slice := a.registry.value.Slice("mcp__");
            && (forall n :: n in slice <==> exists j :: 0 <= j < |a.tools| && n == "mcp__" + a.tools[j].name)
            && (forall j :: 0 <= j < |a.tools| ==>
                  var (tool, offered) := (a.tools[j], slice["mcp__" + a.tools[j].name]);
                  && offered.handler == tool.name && !offered.parallelSafe
                  && (Truthy(tool.description) ==> offered.description == "[MCP] " + tool.description.value)
                  && (!Truthy(tool.description) && Truthy(tool.title) ==>
                        offered.description == "[MCP] " + tool.title.value)
                  && (!Truthy(tool.description) && !Truthy(tool.title) ==>
                        offered.description == "[MCP] " + tool.name)
                  && (Truthy(tool.inputSchema) ==> offered.schema == tool.inputSchema.value)
                  && (!Truthy(tool.inputSchema) ==>
                        offered.schema == "{\"type\": \"object\", \"properties\": {}}"))
  {
    hide Consistent, RegistryAgrees, ByName;
    CurrentToolsAreRegistered(a, t);
    ImageReplaceableIffDuplicateFree(a.tools);
    var image := Image(a.tools);
    forall j | 0 <= j < |a.tools|
      ensures image[j].name == "mcp__" + a.tools[j].name
      ensures image[j].name in ByName(image) && ByName(image)[image[j].name] == image[j]
    {
      ByNameAt(image, j);
    }
    forall n | n in ByName(image)
      ensures exists j :: 0 <= j < |a.tools| && n == "mcp__" + a.tools[j].name
    {
      var j :| 0 <= j < |image| && Names(image)[j] == n;
      assert n == "mcp__" + a.tools[j].name;
    }
  }
}
