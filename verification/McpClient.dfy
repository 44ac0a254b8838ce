/** The client object of backend/app/mcp/client.py.  Its methods update its fields in place and,
    through them, a shared tool registry; each is proved to be the transition of the same name in
    `McpModel`. */
module McpClient {
  import opened Text
  import opened Registry
  import opened McpModel

  class MCPClient {
    const world: World
    const policy: Policy

    var session: bool
    var stack: bool
    var tools: seq<McpTool>
    var registry: ToolRegistry?
    var server: Option<(string, string)>
    var lastError: Option<string>
    var lastPingAt: Option<int>
    var lastRefreshAt: int
    var reconnectCount: nat
    var refreshCount: nat
    var everConnected: bool
    var contacts: nat

    // What an observer has seen
    ghost var connects: nat
    ghost var refused: nat
    ghost var synced: seq<seq<McpTool>>
    ghost var calls: seq<ServerCall>
    ghost var delays: seq<real>

    constructor (world: World, policy: Policy)
      ensures this.world == world && this.policy == policy
      ensures Valid() && registry == null
      ensures View() == UNCONNECTED
    {
      this.world, this.policy := world, policy;
      session, stack, tools, registry, server := false, false, [], null, None;
      lastError, lastPingAt, lastRefreshAt := None, None, 0;
      reconnectCount, refreshCount, everConnected, contacts := 0, 0, false, 0;
      connects, refused, synced, calls, delays := 0, 0, [], [], [];
    }

    ghost predicate Valid()
      reads this, registry
    {
      registry != null ==> registry.View().Valid()
    }

    ghost function View(): Actor
      reads this, registry
    {
      Actor(session, stack, tools, if registry == null then None else Some(registry.View()),
            server, lastError, lastPingAt, lastRefreshAt, reconnectCount, refreshCount, everConnected,
            contacts, connects, refused, synced, calls, delays)
    }

    method Disconnect()
      requires Valid()
      modifies this`stack, this`session, this`contacts, this`lastError
      ensures Valid()
      ensures View() == McpModel.Disconnect(world, old(View()))
    {
      var wasOpen := stack;
      stack, session := false, false;
      if wasOpen {
        var problem := world.close(contacts);
        contacts := contacts + 1;
        if problem.Some? {
          lastError := problem;
        }
      }
    }

    method SyncRegistry() returns (diff: Diff)
      requires Valid()
      modifies this`lastError, this`synced, registry
      ensures Valid()
      ensures (View(), diff) == Sync(old(View()))
    {
      hide Replaced, DiffOf, Replaceable, Image;
      if registry == null {
        return NO_CHANGE;
      }
      synced := synced + [tools];
      var r := registry.ReplacePrefix(PREFIX, Image(tools));
      match r {
        case Ok(d) => diff := d;
        case Err(_) =>
          lastError := Some("ValueError");
          diff := NO_CHANGE;
      }
    }

    method RegisterTools(r: ToolRegistry) returns (diff: Diff)
      requires r.View().Valid()
      modifies this, r
      ensures Valid() && registry == r
      ensures (View(), diff) == Sync(old(View()).(registry := Some(old(r.View())), synced := []))
    {
      registry := r;
      synced := [];
      diff := SyncRegistry();
    }

    method Open(name: string, protocol: string, listed: seq<McpTool>)
      modifies this`stack, this`session, this`tools, this`server
      ensures View() == Opened(old(View()), name, protocol, listed)
    {
      stack, session := true, true;
      tools, server := listed, Some((name, protocol));
    }

    method Stamp(at: int)
      modifies this`lastPingAt, this`lastRefreshAt, this`lastError
      ensures View() == old(View()).(lastPingAt := Some(at), lastRefreshAt := at, lastError := None)
    {
      lastPingAt, lastRefreshAt, lastError := Some(at), at, None;
    }

    method Book(at: int)
      modifies this`lastPingAt, this`lastRefreshAt, this`lastError,
               this`reconnectCount, this`everConnected, this`connects
      ensures View() == Booked(old(View()), at)
    {
      Stamp(at);
      if everConnected {
        reconnectCount := reconnectCount + 1;
      }
      everConnected := true;
      connects := connects + 1;
    }

    method ConnectOnce() returns (error: Option<string>)
      requires Valid()
      modifies this, registry
      ensures Valid() && registry == old(registry)
      ensures (View(), error) == McpModel.ConnectOnce(world, old(View()))
    {
      hide Sync, McpModel.Disconnect, Opened, Booked;
      Disconnect();
      var outcome, at := world.connect(contacts), world.now(contacts);
      contacts := contacts + 1;
      match outcome {
        case Refused(e) =>
          refused := refused + 1;
          return Some(e);
        case Connected(name, protocol, listed) =>
          Open(name, protocol, listed);
          Book(at);
          var _ := SyncRegistry();
          return None;
      }
    }

    method ConnectWithRetries(attempts: int) returns (problem: Option<Fault>)
      requires Valid()
      modifies this, registry
      ensures Valid() && registry == old(registry)
      ensures (View(), problem) == McpModel.ConnectWithRetries(world, policy, old(View()), attempts)
    {
      hide McpModel.ConnectOnce;
      var attempt := 0;
      ghost var start := View();
      while true
        invariant Valid() && registry == old(registry)
        invariant ConnectFrom(world, policy, View(), attempts, attempt)
             == ConnectFrom(world, policy, start, attempts, 0)
        decreases attempts - attempt
      {
        var error := ConnectOnce();
        if error.None? {
          return None;
        }
        lastError := error;
        if attempt + 1 >= attempts {
          return Some(ConnectionFault(UNABLE));
        }
        delays := delays + [Delay(policy, attempt)];
        attempt := attempt + 1;
      }
    }

    method CallOnce(name: string, arguments: string) returns (r: Result<string, Fault>)
      requires Valid()
      modifies this`contacts, this`calls
      ensures Valid()
      ensures (View(), r) == McpModel.CallOnce(world, old(View()), name, arguments)
    {
      if !session {
        return Err(ConnectionFault("MCP client is not connected."));
      }
      var outcome := world.call(contacts, name, arguments);
      contacts := contacts + 1;
      calls := calls + [ServerCall(name, arguments, outcome)];
      match outcome {
        case Answer(v) => return Ok(v);
        case Business(e) => return Err(ToolFault(e));
        case Transport(e) => return Err(ConnectionFault(e));
        case Unreadable(e) => return Err(OtherFault(e));
      }
    }

    method Drop(fault: Fault)
      requires Valid()
      modifies this
      ensures Valid() && registry == old(registry)
      ensures View() == Dropped(world, old(View()), fault)
    {
      hide McpModel.Disconnect;
      lastError := Some(fault.text);
      Disconnect();
    }

    method HandleCall(name: Option<string>, arguments: string) returns (r: Result<string, Fault>)
      requires Valid()
      modifies this, registry
      ensures Valid() && registry == old(registry)
      ensures (View(), r) == McpModel.HandleCall(world, policy, old(View()), name, arguments)
    {
      hide ConnectFrom, Dropped, McpModel.CallOnce, RetryCall;
      if name.None? {
        return Err(ConnectionFault("MCP tool name is missing."));
      }
      if !session {
        var problem := ConnectWithRetries(policy.connectAttempts);
        if problem.Some? {
          return Err(problem.value);
        }
      }
      r := CallOnce(name.value, arguments);
      if r.Ok? || r.error.ToolFault? {
        return;
      }
      Drop(r.error);
      r := RetryAfterReconnect(name.value, arguments);
    }

    /** The loop over the remaining attempts. */
    method RetryAfterReconnect(name: string, arguments: string) returns (r: Result<string, Fault>)
      requires Valid()
      modifies this, registry
      ensures Valid() && registry == old(registry)
      ensures (View(), r) == RetryCall(world, policy, old(View()), name, arguments, policy.callRetryAttempts)
    {
      hide ConnectFrom, Dropped, McpModel.CallOnce;
      ghost var start := View();
      var left := policy.callRetryAttempts;
      while left > 0
        invariant Valid() && registry == old(registry)
        invariant RetryCall(world, policy, View(), name, arguments, left)
               == RetryCall(world, policy, start, name, arguments, policy.callRetryAttempts)
      {
        var problem := ConnectWithRetries(1);
        if problem.Some? {
          Drop(problem.value);
        } else {
          r := CallOnce(name, arguments);
          if r.Ok? || r.error.ToolFault? {
            return;
          }
          Drop(r.error);
        }
        left := left - 1;
      }
      return Err(ConnectionFault("MCP tool '" + name + "' failed after reconnect."));
    }

    method RefreshTools() returns (r: Result<Diff, Fault>)
      requires Valid()
      modifies this, registry
      ensures Valid() && registry == old(registry)
      ensures (View(), r) == McpModel.RefreshTools(world, old(View()))
    {
      hide Sync;
      if !session {
        return Err(ConnectionFault("MCP client is not connected."));
      }
      var listed, at := world.list(contacts), world.now(contacts);
      contacts := contacts + 1;
      if listed.Err? {
        return Err(OtherFault(listed.error));
      }
      tools, lastRefreshAt, refreshCount := listed.value, at, refreshCount + 1;
      var diff := SyncRegistry();
      return Ok(diff);
    }

    method HandleRefresh() returns (r: Result<Diff, Fault>)
      requires Valid()
      modifies this, registry
      ensures Valid() && registry == old(registry)
      ensures (View(), r) == McpModel.HandleRefresh(world, policy, old(View()))
    {
      hide ConnectFrom, McpModel.RefreshTools;
      if !session {
        var problem := ConnectWithRetries(policy.connectAttempts);
        if problem.Some? {
          return Err(problem.value);
        }
      }
      r := RefreshTools();
    }

    method HandlePing() returns (alive: bool)
      requires Valid()
      modifies this
      ensures Valid() && registry == old(registry)
      ensures (View(), alive) == McpModel.HandlePing(world, old(View()))
    {
      hide McpModel.Disconnect;
      if !session {
        return false;
      }
      var problem, at := world.ping(contacts), world.now(contacts);
      contacts := contacts + 1;
      if problem.Some? {
        lastError := problem;
        Disconnect();
        return false;
      }
      lastPingAt := Some(at);
      return true;
    }

    method Maintain()
      requires Valid()
      modifies this, registry
      ensures Valid() && registry == old(registry)
      ensures View() == Maintenance(world, policy, old(View()))
    {
      hide ConnectFrom, McpModel.RefreshTools, McpModel.HandlePing, Dropped;
      if !session {
        var problem := ConnectWithRetries(1);
        if problem.Some? {
          Drop(problem.value);
          return;
        }
      } else {
        var alive := HandlePing();
        if !alive {
          return;
        }
      }
      var now := world.now(contacts);
      if session && policy.refreshInterval > 0 && now - lastRefreshAt >= policy.refreshInterval {
        var r := RefreshTools();
        if r.Err? {
          Drop(r.error);
        }
      }
    }

    /** What the owner task does before its loop: a failure to connect is recorded, not fatal. */
    method Start()
      requires Valid()
      modifies this, registry
      ensures Valid() && registry == old(registry)
      ensures View() == Started(world, policy, old(View()))
    {
      hide ConnectFrom;
      var problem := ConnectWithRetries(policy.connectAttempts);
      if problem.Some? {
        lastError := Some(problem.value.text);
      }
    }

    /** The dispatch in the owner loop. */
    method Serve(request: Request) returns (reply: Reply)
      requires Valid()
      modifies this, registry
      ensures Valid() && registry == old(registry)
      ensures (View(), reply) == Handled(world, policy, old(View()), request)
    {
      hide McpModel.HandleCall, McpModel.HandleRefresh, McpModel.HandlePing, McpModel.Disconnect;
      match request.kind {
        case Call =>
          var result := HandleCall(request.name, request.arguments);
          return CallReply(result);
        case Refresh =>
          var diff := HandleRefresh();
          return RefreshReply(diff);
        case Ping =>
          var alive := HandlePing();
          return PingReply(alive);
        case Shutdown =>
          Disconnect();
          return ShutdownReply;
      }
    }
  }
}
