/** The MCP connection owner as a value (backend/app/mcp/client.py): connecting with back-off,
    calling with reconnects, pinging, refreshing, and keeping the `mcp__` slice of the tool
    registry in step with the server's tool list. */
module McpModel {
  import opened Text
  import opened Registry

  const PREFIX := "mcp__"

  datatype McpTool = McpTool(
    name: string,
    title: Option<string>,
    description: Option<string>,
    inputSchema: Option<string>)

  const EMPTY_SCHEMA := "{\"type\": \"object\", \"properties\": {}}"

  function ToRegisteredTool(tool: McpTool): RegisteredTool {
    var about :=
      if Truthy(tool.description) then tool.description.value
      else if Truthy(tool.title) then tool.title.value
      else tool.name;
    RegisteredTool(
      PREFIX + tool.name, "[MCP] " + about,
      if Truthy(tool.inputSchema) then tool.inputSchema.value else EMPTY_SCHEMA,
      false, tool.name)
  }

  function Image(tools: seq<McpTool>): (r: seq<RegisteredTool>)
    ensures |r| == |tools|
  {
    seq(|tools|, i requires 0 <= i < |tools| => ToRegisteredTool(tools[i]))
  }

  predicate DuplicateFree(tools: seq<McpTool>) {
    forall i, j :: 0 <= i < j < |tools| ==> tools[i].name != tools[j].name
  }

  lemma ImageReplaceableIffDuplicateFree(tools: seq<McpTool>)
    ensures Replaceable(PREFIX, Image(tools)) <==> DuplicateFree(tools)
  {
    var names := Names(Image(tools));
    forall i, j | 0 <= i < j < |tools|
      ensures names[i] == names[j] <==> tools[i].name == tools[j].name
    {
      assert names[i] == PREFIX + tools[i].name && names[j] == PREFIX + tools[j].name;
      assert names[i][|PREFIX|..] == tools[i].name && names[j][|PREFIX|..] == tools[j].name;
    }
  }

  // The outside world

  datatype ConnectOutcome = Connected(server: string, protocol: string, tools: seq<McpTool>) | Refused(error: string)

  datatype CallOutcome =
    | Answer(value: string)
    | Business(error: string)
    | Transport(error: string)
    | Unreadable(error: string)

  /** Every contact with the outside is numbered; its outcome is arbitrary. */
  datatype World = World(
    now: nat -> int,
    connect: nat -> ConnectOutcome,
    close: nat -> Option<string>,
    ping: nat -> Option<string>,
    list: nat -> Result<seq<McpTool>, string>,
    call: (nat, string, string) -> CallOutcome)

  datatype Policy = Policy(
    connectAttempts: int,
    baseDelay: real,
    maxDelay: real,
    refreshInterval: int,
    callRetryAttempts: nat)

  datatype ServerCall = ServerCall(name: string, arguments: string, outcome: CallOutcome)

  /** The fields of the client object, and below them what an observer has seen it do. */
  datatype Actor = Actor(
    session: bool,
    stack: bool,
    tools: seq<McpTool>,
    registry: Option<Table>,
    server: Option<(string, string)>,
    lastError: Option<string>,
    lastPingAt: Option<int>,
    lastRefreshAt: int,
    reconnectCount: nat,
    refreshCount: nat,
    everConnected: bool,
    contacts: nat,
    connects: nat,
    refused: nat,
    synced: seq<seq<McpTool>>,
    calls: seq<ServerCall>,
    delays: seq<real>)

  const UNCONNECTED := Actor(false, false, [], None, None, None, None, 0, 0, 0, false, 0, 0, 0, [], [], [])

  datatype Fault = ConnectionFault(text: string) | ToolFault(text: string) | OtherFault(text: string)

  function Failed(a: Actor, text: string): Actor {
    a.(lastError := Some(text))
  }

  // Connection

  function Disconnect(w: World, a: Actor): Actor {
    var b := a.(stack := false, session := false);
    if !a.stack then b
    else
      var problem := w.close(a.contacts);
      var c := b.(contacts := a.contacts + 1);
      if problem.Some? then Failed(c, problem.value) else c
  }

  function Sync(a: Actor): (Actor, Diff) {
    if a.registry.None? then (a, NO_CHANGE)
    else
      var b := a.(synced := a.synced + [a.tools]);
      if Replaceable(PREFIX, Image(a.tools)) then
        (b.(registry := Some(Replaced(a.registry.value, PREFIX, Image(a.tools)))),
         DiffOf(a.registry.value, PREFIX, Image(a.tools)))
      else (Failed(b, "ValueError"), NO_CHANGE)
  }

  /** The fields set once a connection has been opened and the tools listed. */
  function Opened(a: Actor, server: string, protocol: string, tools: seq<McpTool>): Actor {
    a.(stack := true, session := true, tools := tools, server := Some((server, protocol)))
  }

  function Booked(a: Actor, at: int): Actor {
    a.(lastPingAt := Some(at), lastRefreshAt := at, lastError := None,
       reconnectCount := a.reconnectCount + (if a.everConnected then 1 else 0),
       everConnected := true, connects := a.connects + 1)
  }

  function ConnectOnce(w: World, a: Actor): (Actor, Option<string>) {
    var b := Disconnect(w, a);
    var outcome := w.connect(b.contacts);
    var at := w.now(b.contacts);
    var c := b.(contacts := b.contacts + 1);
    match outcome
    case Refused(error) => (c.(refused := c.refused + 1), Some(error))
    case Connected(server, protocol, tools) =>
      (Sync(Booked(Opened(c, server, protocol, tools), at)).0, None)
  }

  function Pow2(n: nat): nat {
    if n == 0 then 1 else 2 * Pow2(n - 1)
  }

  function Delay(p: Policy, attempt: nat): real {
    var raw := p.baseDelay * Pow2(attempt) as real;
    if raw <= p.maxDelay then raw else p.maxDelay
  }

  const UNABLE := "Unable to connect to MCP server"

  /** From the attempt numbered `attempt` on. */
  function ConnectFrom(w: World, p: Policy, a: Actor, attempts: int, attempt: nat): (Actor, Option<Fault>)
    decreases attempts - attempt
  {
    var (b, error) := ConnectOnce(w, a);
    if error.None? then (b, None)
    else
      var c := Failed(b, error.value);
      if attempt + 1 < attempts
      then ConnectFrom(w, p, c.(delays := c.delays + [Delay(p, attempt)]), attempts, attempt + 1)
      else (c, Some(ConnectionFault(UNABLE)))
  }

  function ConnectWithRetries(w: World, p: Policy, a: Actor, attempts: int): (Actor, Option<Fault>) {
    ConnectFrom(w, p, a, attempts, 0)
  }

  // Requests

  function CallOnce(w: World, a: Actor, name: string, arguments: string): (Actor, Result<string, Fault>) {
    if !a.session then (a, Err(ConnectionFault("MCP client is not connected.")))
    else
      var outcome := w.call(a.contacts, name, arguments);
      var b := a.(contacts := a.contacts + 1, calls := a.calls + [ServerCall(name, arguments, outcome)]);
      (b, match outcome
          case Answer(v) => Ok(v)
          case Business(e) => Err(ToolFault(e))
          case Transport(e) => Err(ConnectionFault(e))
          case Unreadable(e) => Err(OtherFault(e)))
  }

  /** A fault that is not the tool's own answer closes the connection. */
  function Dropped(w: World, a: Actor, fault: Fault): Actor {
    Disconnect(w, Failed(a, fault.text))
  }

  function RetryCall(
      w: World, p: Policy, a: Actor, name: string, arguments: string, left: nat): (Actor, Result<string, Fault>)
    decreases left
  {
    if left == 0 then (a, Err(ConnectionFault("MCP tool '" + name + "' failed after reconnect.")))
    else
      var (b, problem) := ConnectWithRetries(w, p, a, 1);
      if problem.Some? then RetryCall(w, p, Dropped(w, b, problem.value), name, arguments, left - 1)
      else
        var (c, r) := CallOnce(w, b, name, arguments);
        if r.Ok? || r.error.ToolFault? then (c, r)
        else RetryCall(w, p, Dropped(w, c, r.error), name, arguments, left - 1)
  }

  function HandleCall(
      w: World, p: Policy, a: Actor, name: Option<string>, arguments: string): (Actor, Result<string, Fault>)
  {
    if name.None? then (a, Err(ConnectionFault("MCP tool name is missing.")))
    else
      var (b, problem) := if a.session then (a, None) else ConnectWithRetries(w, p, a, p.connectAttempts);
      if problem.Some? then (b, Err(problem.value))
      else
        var (c, r) := CallOnce(w, b, name.value, arguments);
        if r.Ok? || r.error.ToolFault? then (c, r)
        else RetryCall(w, p, Dropped(w, c, r.error), name.value, arguments, p.callRetryAttempts)
  }

  function RefreshTools(w: World, a: Actor): (Actor, Result<Diff, Fault>) {
    if !a.session then (a, Err(ConnectionFault("MCP client is not connected.")))
    else
      var listed := w.list(a.contacts);
      var b := a.(contacts := a.contacts + 1);
      if listed.Err? then (b, Err(OtherFault(listed.error)))
      else
        var c := b.(tools := listed.value, lastRefreshAt := w.now(a.contacts), refreshCount := b.refreshCount + 1);
        (Sync(c).0, Ok(Sync(c).1))
  }

  function HandleRefresh(w: World, p: Policy, a: Actor): (Actor, Result<Diff, Fault>) {
    var (b, problem) := if a.session then (a, None) else ConnectWithRetries(w, p, a, p.connectAttempts);
    if problem.Some? then (b, Err(problem.value)) else RefreshTools(w, b)
  }

  function HandlePing(w: World, a: Actor): (Actor, bool) {
    if !a.session then (a, false)
    else
      var problem := w.ping(a.contacts);
      var b := a.(contacts := a.contacts + 1);
      if problem.Some? then (Disconnect(w, Failed(b, problem.value)), false)
      else (b.(lastPingAt := Some(w.now(a.contacts))), true)
  }

  function Maintenance(w: World, p: Policy, a: Actor): Actor {
    var (b, problem) := if a.session then (a, None) else ConnectWithRetries(w, p, a, 1);
    if problem.Some? then Dropped(w, b, problem.value)
    else
      var (c, alive) := if a.session then HandlePing(w, b) else (b, true);
      if !alive then c
      else if c.session && p.refreshInterval > 0 && w.now(c.contacts) - c.lastRefreshAt >= p.refreshInterval then
        var (d, r) := RefreshTools(w, c);
        if r.Err? then Dropped(w, d, r.error) else d
      else c
  }

  // One request of the queue

  datatype Kind = Call | Refresh | Ping | Shutdown

  datatype Request = Request(kind: Kind, name: Option<string>, arguments: string)

  datatype Reply =
    | CallReply(result: Result<string, Fault>)
    | RefreshReply(diff: Result<Diff, Fault>)
    | PingReply(alive: bool)
    | ShutdownReply

  function Handled(w: World, p: Policy, a: Actor, r: Request): (Actor, Reply) {
    match r.kind
    case Call => var (b, result) := HandleCall(w, p, a, r.name, r.arguments); (b, CallReply(result))
    case Refresh => var (b, diff) := HandleRefresh(w, p, a); (b, RefreshReply(diff))
    case Ping => var (b, alive) := HandlePing(w, a); (b, PingReply(alive))
    case Shutdown => (Disconnect(w, a), ShutdownReply)
  }

  /** Before the loop: one connect with retries; failing it is not fatal. */
  function Started(w: World, p: Policy, a: Actor): Actor {
    var (b, problem) := ConnectWithRetries(w, p, a, p.connectAttempts);
    if problem.Some? then Failed(b, problem.value.text) else b
  }

  // What every transition keeps

  /** The latest list that had no duplicate names, if any was ever synchronized. */
  function LatestDuplicateFree(synced: seq<seq<McpTool>>): Option<seq<McpTool>> {
    if synced == [] then None
    else if DuplicateFree(synced[|synced| - 1]) then Some(synced[|synced| - 1])
    else LatestDuplicateFree(synced[..|synced| - 1])
  }

  /** With a registry attached when it looked like `attached`: other tools are untouched, and the
      slice is the image of the latest duplicate-free list. */
  ghost predicate RegistryAgrees(a: Actor, attached: Table) {
    && Attached(a, attached)
    && a.synced != [] && a.synced[|a.synced| - 1] == a.tools
  }

  ghost predicate Consistent(a: Actor) {
    && a.session == a.stack
    && (a.everConnected <==> a.connects > 0)
    && a.reconnectCount == (if a.connects == 0 then 0 else a.connects - 1)
    && (a.session ==> a.everConnected)
  }

  /** All that holds between any two actor transitions, before and after a registry is attached. */
  ghost predicate Invariant(a: Actor, attached: Option<Table>) {
    && Consistent(a)
    && (attached.Some? <==> a.registry.Some?)
    && (attached.Some? ==> RegistryAgrees(a, attached.value))
  }

  /** As `RegistryAgrees`, but the tool list may be newer than what the registry was last given. */
  ghost predicate Attached(a: Actor, attached: Table) {
    a.registry.Some? && TableAgrees(a.registry.value, attached, LatestDuplicateFree(a.synced))
  }

  ghost predicate TableAgrees(t: Table, attached: Table, latest: Option<seq<McpTool>>) {
    && t.Valid()
    && t.Others(PREFIX) == attached.Others(PREFIX)
    && t.OtherOrder(PREFIX) == attached.OtherOrder(PREFIX)
    && t.Slice(PREFIX) == match latest
                          case Some(tools) => ByName(Image(tools))
                          case None => attached.Slice(PREFIX)
  }

  lemma ReplacedTableAgrees(t: Table, attached: Table, latest: Option<seq<McpTool>>, tools: seq<McpTool>)
    requires TableAgrees(t, attached, latest) && Replaceable(PREFIX, Image(tools))
    ensures TableAgrees(Replaced(t, PREFIX, Image(tools)), attached, Some(tools))
  {
    hide Replaceable, Replaced, ByName, Image;
    ReplacedValid(t, PREFIX, Image(tools));
    ReplacedSliceIsIncoming(t, PREFIX, Image(tools));
    ReplacedKeepsOtherOrder(t, PREFIX, Image(tools));
  }

  lemma LatestOneMore(synced: seq<seq<McpTool>>, tools: seq<McpTool>)
    ensures LatestDuplicateFree(synced + [tools])
       == if DuplicateFree(tools) then Some(tools) else LatestDuplicateFree(synced)
  {
    assert (synced + [tools])[..|synced|] == synced;
  }

  lemma SyncAgrees(a: Actor, attached: Table)
    requires Attached(a, attached)
    ensures RegistryAgrees(Sync(a).0, attached)
    ensures Sync(a).0
       == a.(registry := Sync(a).0.registry, synced := Sync(a).0.synced, lastError := Sync(a).0.lastError)
  {
    hide LatestDuplicateFree, Replaceable, DuplicateFree, Replaced, Image, DiffOf, TableAgrees;
    ImageReplaceableIffDuplicateFree(a.tools);
    LatestOneMore(a.synced, a.tools);
    if Replaceable(PREFIX, Image(a.tools)) {
      ReplacedTableAgrees(a.registry.value, attached, LatestDuplicateFree(a.synced), a.tools);
    }
  }
}
