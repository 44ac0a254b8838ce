/** The owner task and its request queue (`_submit`, `_owner_loop`, `close` in
    backend/app/mcp/client.py): callers queue requests and wait on futures, one task serves them. */
module McpActor {
  import opened Text
  import opened Registry
  import opened McpModel
  import opened McpProofs

  datatype Future = Pending | Resolved(reply: Reply) | Abandoned

  /** `submitted` and `served` are history: all requests ever queued and how many were taken. */
  datatype Owner = Owner(
    actor: Actor,
    queue: seq<Request>,
    futures: seq<Future>,
    stopped: bool,
    closed: bool,
    submitted: seq<Request>,
    served: nat)

  datatype Step =
    | Submit(request: Request)
    | Abandon(id: nat)
    | Attaching(registry: Table)
    | Turn
    | Close

  function Init(w: World, p: Policy): Owner {
    Owner(Started(w, p, UNCONNECTED), [], [], false, false, [], 0)
  }

  /** A future that is already done is left alone. */
  function Set(futures: seq<Future>, id: nat, reply: Reply): seq<Future>
    requires id < |futures|
  {
    if futures[id].Pending? then futures[id := Resolved(reply)] else futures
  }

  /** One turn of the loop: an idle tick, or the request at the head. */
  function TakeTurn(w: World, p: Policy, o: Owner): Owner
    requires o.served < |o.futures| || o.queue == []
  {
    if o.stopped then o
    else if o.queue == [] then o.(actor := Maintenance(w, p, o.actor))
    else
      var (a, reply) := Handled(w, p, o.actor, o.queue[0]);
      o.(actor := a, queue := o.queue[1..], futures := Set(o.futures, o.served, reply),
         served := o.served + 1, stopped := o.queue[0].kind == Shutdown)
  }

  function Next(w: World, p: Policy, o: Owner, step: Step): Owner
    requires o.served < |o.futures| || o.queue == []
  {
    match step
    case Submit(r) =>
      if o.closed then o
      else o.(queue := o.queue + [r], futures := o.futures + [Pending], submitted := o.submitted + [r])
    case Abandon(id) =>
      if id < |o.futures| && o.futures[id].Pending? then o.(futures := o.futures[id := Abandoned]) else o
    case Attaching(t) => o.(actor := Attach(o.actor, t))
    case Turn => TakeTurn(w, p, o)
    case Close => if o.stopped then o.(closed := true) else o
  }

  predicate NoShutdown(requests: seq<Request>) {
    forall i :: 0 <= i < |requests| ==> requests[i].kind != Shutdown
  }

  /** First in, first out: the queue is what was submitted and not yet taken; everything taken is
      answered or was abandoned, nothing else is answered; and the loop stops at the first
      shutdown request. */
  ghost predicate Fifo(o: Owner) {
    && |o.futures| == |o.submitted|
    && o.served <= |o.submitted|
    && o.queue == o.submitted[o.served..]
    && (forall i :: 0 <= i < o.served ==> !o.futures[i].Pending?)
    && (forall i :: o.served <= i < |o.futures| ==> !o.futures[i].Resolved?)
    && (if o.stopped
        then o.served > 0 && o.submitted[o.served - 1].kind == Shutdown && NoShutdown(o.submitted[..o.served - 1])
        else NoShutdown(o.submitted[..o.served]))
  }

  lemma TurnKeepsFifo(w: World, p: Policy, o: Owner)
    requires Fifo(o)
    ensures Fifo(TakeTurn(w, p, o))
  {
    hide Handled, Maintenance;
    if !o.stopped && o.queue != [] {
      var r := o.queue[0];
      assert r == o.submitted[o.served];
      assert o.submitted[o.served..][1..] == o.submitted[o.served + 1..];
      assert o.submitted[..o.served + 1] == o.submitted[..o.served] + [r];
    }
  }

  lemma NextKeepsFifo(w: World, p: Policy, o: Owner, step: Step)
    requires Fifo(o)
    ensures Fifo(Next(w, p, o, step))
  {
    hide TakeTurn, Attach;
    match step {
      case Turn => TurnKeepsFifo(w, p, o);
      case Submit(r) =>
        var more := o.submitted + [r];
        assert more[..o.served] == o.submitted[..o.served];
        assert o.served > 0 ==> more[..o.served - 1] == o.submitted[..o.served - 1];
        assert more[o.served..] == o.submitted[o.served..] + [r];
      case _ =>
    }
  }

  /** No future is ever set twice: once resolved or abandoned it never changes again. */
  lemma SetAtMostOnce(w: World, p: Policy, o: Owner, step: Step, id: nat)
    requires Fifo(o) && id < |o.futures| && !o.futures[id].Pending?
    ensures var next := Next(w, p, o, step); id < |next.futures| && next.futures[id] == o.futures[id]
  {
    hide Handled, Maintenance, Attach;
  }

  // Every run

  ghost function RunTo(w: World, p: Policy, steps: seq<Step>): (o: Owner)
    ensures Fifo(o)
  {
    hide Handled, Maintenance, Attach, Started, TakeTurn;
    if steps == [] then Init(w, p)
    else
      var before := RunTo(w, p, steps[..|steps| - 1]);
      NextKeepsFifo(w, p, before, steps[|steps| - 1]);
      Next(w, p, before, steps[|steps| - 1])
  }

  /** When shutdown completes, every request queued ahead of it has been answered (or abandoned by its
      caller), and none queued behind it ever is. */
  lemma ShutdownAfterEverythingAhead(w: World, p: Policy, steps: seq<Step>)
    ensures var o := RunTo(w, p, steps);
            o.stopped ==>
              && o.served > 0 && o.submitted[o.served - 1].kind == Shutdown
              && (forall i :: 0 <= i < o.served - 1 ==> o.submitted[i].kind != Shutdown)
              && (forall i :: 0 <= i < o.served ==> !o.futures[i].Pending?)
              && (forall i :: o.served <= i < |o.futures| ==> !o.futures[i].Resolved?)
  {
    hide RunTo;
    var o := RunTo(w, p, steps);
    if o.stopped {
      forall i | 0 <= i < o.served - 1
        ensures o.submitted[i].kind != Shutdown
      {
        assert o.submitted[..o.served - 1][i] == o.submitted[i];
      }
    }
  }

  lemma {:induction false} StoppedStays(w: World, p: Policy, o: Owner, step: Step)
    requires Fifo(o) && o.stopped
    ensures Next(w, p, o, step).stopped && Next(w, p, o, step).served == o.served
  {
    hide Handled, Maintenance, Attach;
  }

  lemma RunOneMore(w: World, p: Policy, steps: seq<Step>, step: Step)
    ensures RunTo(w, p, steps + [step]) == Next(w, p, RunTo(w, p, steps), step)
  {
    hide Next, Handled, Maintenance, Attach, Started, Fifo;
    assert (steps + [step])[..|steps|] == steps;
  }

  /** Over every run: once a future is answered or abandoned it stays just that, whatever follows. */
  lemma {:induction false} SettledOnce(w: World, p: Policy, steps: seq<Step>, more: seq<Step>, id: nat)
    requires id < |RunTo(w, p, steps).futures| && !RunTo(w, p, steps).futures[id].Pending?
    ensures var after := RunTo(w, p, steps + more);
            id < |after.futures| && after.futures[id] == RunTo(w, p, steps).futures[id]
    decreases |more|
  {
    hide RunTo, Next, Fifo;
    if more == [] {
      assert steps + more == steps;
    } else {
      var n := |more| - 1;
      SettledOnce(w, p, steps, more[..n], id);
      assert steps + more == (steps + more[..n]) + [more[n]];
      RunOneMore(w, p, steps + more[..n], more[n]);
      SetAtMostOnce(w, p, RunTo(w, p, steps + more[..n]), more[n], id);
    }
  }

  /** The reply comes from handling that very request, when all older ones had been taken and no other. */
  ghost predicate HandledAt(w: World, p: Policy, steps: seq<Step>, id: nat, request: Request, reply: Reply, k: nat) {
    && k < |steps| && steps[k].Turn?
    && RunTo(w, p, steps[..k]).served == id
    && (RunTo(w, p, steps[..k + 1]).actor, reply) == Handled(w, p, RunTo(w, p, steps[..k]).actor, request)
  }

  lemma HandledLater(
      w: World, p: Policy, steps: seq<Step>, step: Step, id: nat, request: Request, reply: Reply, k: nat)
    requires HandledAt(w, p, steps, id, request, reply, k)
    ensures HandledAt(w, p, steps + [step], id, request, reply, k)
  {
    hide RunTo, Handled;
    assert (steps + [step])[..k] == steps[..k] && (steps + [step])[..k + 1] == steps[..k + 1];
  }

  /** What a step may add to the answers: one, to the oldest request, by a turn. */
  lemma NewAnswer(w: World, p: Policy, o: Owner, step: Step, id: nat)
    requires Fifo(o) && id < |Next(w, p, o, step).futures|
    ensures var next := Next(w, p, o, step);
            && (id < |o.submitted| ==> id < |next.submitted| && next.submitted[id] == o.submitted[id])
            && (next.futures[id].Resolved? ==>
                  || (id < |o.futures| && o.futures[id] == next.futures[id])
                  || (step.Turn? && id == o.served < |o.submitted|
                      && (next.actor, next.futures[id].reply) == Handled(w, p, o.actor, o.submitted[id])))
  {
    hide Handled, Maintenance, Attach;
  }

  /** Over every run: each answered request got the reply of handling that very request, in the order in
      which the requests were queued. */
  lemma {:induction false} EveryAnswerIsItsOwn(w: World, p: Policy, steps: seq<Step>, id: nat) returns (k: nat)
    requires id < |RunTo(w, p, steps).futures| && RunTo(w, p, steps).futures[id].Resolved?
    ensures var o := RunTo(w, p, steps);
            id < |o.submitted| && HandledAt(w, p, steps, id, o.submitted[id], o.futures[id].reply, k)
  {
    hide RunTo, Next, Handled, HandledAt;
    var n := |steps| - 1;
    if steps == [] {
      NothingAnsweredYet(w, p);
    } else {
      var before, step := steps[..n], steps[n];
      var o := RunTo(w, p, before);
      assert steps == before + [step];
      RunOneMore(w, p, before, step);
      NewAnswer(w, p, o, step, id);
      if id < |o.futures| && o.futures[id] == RunTo(w, p, steps).futures[id] {
        k := EveryAnswerIsItsOwn(w, p, before, id);
        HandledLater(w, p, before, step, id, o.submitted[id], o.futures[id].reply, k);
      } else {
        k := n;
        AnsweredHere(w, p, before, step, id, RunTo(w, p, steps).futures[id].reply);
      }
    }
  }

  lemma NothingAnsweredYet(w: World, p: Policy)
    ensures RunTo(w, p, []).futures == []
  {
    hide Started;
  }

  lemma AnsweredHere(w: World, p: Policy, before: seq<Step>, step: Step, id: nat, reply: Reply)
    requires var o := RunTo(w, p, before);
             && step.Turn? && id == o.served < |o.submitted|
             && (RunTo(w, p, before + [step]).actor, reply) == Handled(w, p, o.actor, o.submitted[id])
    ensures HandledAt(w, p, before + [step], id, RunTo(w, p, before).submitted[id], reply, |before|)
  {
    hide RunTo, Handled;
    assert (before + [step])[..|before|] == before;
    assert (before + [step])[..|before| + 1] == before + [step];
  }

  function Turns(k: nat): seq<Step> {
    if k == 0 then [] else Turns(k - 1) + [Turn]
  }

  lemma TurnServesOne(w: World, p: Policy, o: Owner)
    requires Fifo(o) && !o.stopped && o.queue != [] && o.queue[0].kind != Shutdown
    ensures var next := TakeTurn(w, p, o);
            !next.stopped && next.submitted == o.submitted && next.served == o.served + 1
  {
    hide Handled;
  }

  /** `k` turns answer the `k` oldest requests, if no shutdown is among them. */
  lemma {:induction false} TurnsDrainTheQueue(w: World, p: Policy, steps: seq<Step>, k: nat)
    requires var o := RunTo(w, p, steps);
             !o.stopped && k <= |o.queue| && NoShutdown(o.queue[..k])
    ensures var o, after := RunTo(w, p, steps), RunTo(w, p, steps + Turns(k));
            && !after.stopped
            && after.submitted == o.submitted
            && after.served == o.served + k
  {
    hide RunTo, TakeTurn;
    var o := RunTo(w, p, steps);
    if k == 0 {
      assert steps + Turns(0) == steps;
    } else {
      assert o.queue[..k - 1] == o.queue[..k][..k - 1];
      TurnsDrainTheQueue(w, p, steps, k - 1);
      assert steps + Turns(k) == (steps + Turns(k - 1)) + [Turn];
      RunOneMore(w, p, steps + Turns(k - 1), Turn);
      var before := RunTo(w, p, steps + Turns(k - 1));
      assert before.queue[0] == o.queue[..k][k - 1];
      TurnServesOne(w, p, before);
    }
  }

  // The actor's invariant over every run

  /** The table of the last registry attached, if any. */
  function AttachedBy(steps: seq<Step>): Option<Table> {
    if steps == [] then None
    else if steps[|steps| - 1].Attaching? then Some(steps[|steps| - 1].registry)
    else AttachedBy(steps[..|steps| - 1])
  }

  lemma HandledKeeps(w: World, p: Policy, a: Actor, r: Request, attached: Option<Table>)
    requires McpModel.Invariant(a, attached)
    ensures McpModel.Invariant(Handled(w, p, a, r).0, attached)
  {
    hide HandleCall, HandleRefresh, HandlePing, Disconnect, McpModel.Invariant, Attempts;
    match r.kind {
      case Call => CallReachesServerBoundedly(w, p, a, r.name, r.arguments, attached);
      case Refresh => HandleRefreshKeeps(w, p, a, attached);
      case Ping => PingKeeps(w, a, attached);
      case Shutdown => DisconnectKeeps(w, a, attached);
    }
  }

  lemma StartedKeeps(w: World, p: Policy)
    ensures McpModel.Invariant(Started(w, p, UNCONNECTED), None)
  {
    hide ConnectFrom, BackedOff;
    ConnectFromKeeps(w, p, UNCONNECTED, p.connectAttempts, 0, None);
  }

  lemma NextKeepsActor(w: World, p: Policy, o: Owner, step: Step, attached: Option<Table>)
    requires Fifo(o) && McpModel.Invariant(o.actor, attached)
    requires step.Attaching? ==> step.registry.Valid()
    ensures McpModel.Invariant(Next(w, p, o, step).actor, if step.Attaching? then Some(step.registry) else attached)
  {
    hide Handled, Maintenance, Attach, RegistryAgrees;
    match step {
      case Attaching(t) => AttachEstablishes(o.actor, t);
      case Turn =>
        MaintenanceKeeps(w, p, o.actor, attached);
        if o.queue != [] {
          HandledKeeps(w, p, o.actor, o.queue[0], attached);
        }
      case _ =>
    }
  }

  /** In every state of every run: session and transport are open or closed together, reconnects are
      connects after the first, and an attached registry shows under its prefix exactly the latest
      duplicate-free tool list, with all other tools as they were. */
  lemma {:induction false} EveryRunKeepsActorInvariant(w: World, p: Policy, steps: seq<Step>)
    requires forall i :: 0 <= i < |steps| ==> steps[i].Attaching? ==> steps[i].registry.Valid()
    ensures McpModel.Invariant(RunTo(w, p, steps).actor, AttachedBy(steps))
  {
    hide Handled, Maintenance, Attach, Started, TakeTurn, McpModel.Invariant, Fifo;
    if steps == [] {
      StartedKeeps(w, p);
    } else {
      var before := steps[..|steps| - 1];
      EveryRunKeepsActorInvariant(w, p, before);
      NextKeepsActor(w, p, RunTo(w, p, before), steps[|steps| - 1], AttachedBy(before));
    }
  }

  // Closing

  /** The requests of a run, whether or not they were taken in. */
  function Requests(steps: seq<Step>): seq<Request> {
    if steps == [] then []
    else
      var last := steps[|steps| - 1];
      Requests(steps[..|steps| - 1]) + (if last.Submit? then [last.request] else [])
  }

  /** Until the client is closed every request is queued, in order; it is closed by a call of close once
      the task has stopped, and by nothing else; from then on no request is queued. */
  lemma {:induction false} EveryRequestIsQueuedUntilClosed(w: World, p: Policy, steps: seq<Step>)
    ensures !RunTo(w, p, steps).closed ==> RunTo(w, p, steps).submitted == Requests(steps)
    ensures RunTo(w, p, steps).closed <==>
              exists k :: 0 <= k < |steps| && steps[k].Close? && RunTo(w, p, steps[..k]).stopped
    ensures forall k :: 0 <= k < |steps| && RunTo(w, p, steps[..k]).closed ==>
              RunTo(w, p, steps).submitted == RunTo(w, p, steps[..k]).submitted
  {
    hide RunTo, Next;
    if steps == [] {
      StartsOpen(w, p);
    } else {
      var n := |steps| - 1;
      var before, step := steps[..n], steps[n];
      EveryRequestIsQueuedUntilClosed(w, p, before);
      assert steps == before + [step];
      RunOneMore(w, p, before, step);
      StepTakesInUntilClosed(w, p, RunTo(w, p, before), step);
      assert forall k :: 0 <= k < n ==> steps[..k] == before[..k] && steps[k] == before[k];
      forall k | 0 <= k < |steps| && RunTo(w, p, steps[..k]).closed
        ensures RunTo(w, p, steps).submitted == RunTo(w, p, steps[..k]).submitted
        ensures RunTo(w, p, before).closed
      {
        if k < n {
          assert RunTo(w, p, before[..k]).closed;
          ClosedStays(w, p, before, k);
        }
      }
    }
  }

  lemma {:induction false} ClosedStays(w: World, p: Policy, steps: seq<Step>, k: nat)
    requires k <= |steps| && RunTo(w, p, steps[..k]).closed
    ensures RunTo(w, p, steps).closed
    decreases |steps|
  {
    hide RunTo, Next;
    if k == |steps| {
      assert steps[..k] == steps;
    } else {
      var n := |steps| - 1;
      assert steps[..n][..k] == steps[..k];
      ClosedStays(w, p, steps[..n], k);
      assert steps == steps[..n] + [steps[n]];
      RunOneMore(w, p, steps[..n], steps[n]);
      StepTakesInUntilClosed(w, p, RunTo(w, p, steps[..n]), steps[n]);
    }
  }

  lemma StartsOpen(w: World, p: Policy)
    ensures !RunTo(w, p, []).closed && RunTo(w, p, []).submitted == []
  {
    hide Started;
  }

  lemma StepTakesInUntilClosed(w: World, p: Policy, o: Owner, step: Step)
    requires Fifo(o)
    ensures var next := Next(w, p, o, step);
            && (next.closed <==> o.closed || (step.Close? && o.stopped))
            && next.submitted == o.submitted + (if step.Submit? && !o.closed then [step.request] else [])
  {
    hide Handled, Maintenance, Attach;
  }

  // Abandoned requests and idle turns

  lemma AbandonSettles(w: World, p: Policy, o: Owner, id: nat)
    requires Fifo(o) && id < |o.futures| && o.futures[id].Pending?
    ensures id < |Next(w, p, o, Abandon(id)).futures| && Next(w, p, o, Abandon(id)).futures[id] == Abandoned
  {
  }

  /** A caller that gives up on a pending request gets no answer, whatever follows. */
  lemma AbandonedIsNeverAnswered(w: World, p: Policy, steps: seq<Step>, id: nat, more: seq<Step>)
    requires id < |RunTo(w, p, steps).futures| && RunTo(w, p, steps).futures[id].Pending?
    ensures var after := RunTo(w, p, steps + [Abandon(id)] + more);
            id < |after.futures| && after.futures[id] == Abandoned
  {
    hide RunTo, Next, Fifo;
    RunOneMore(w, p, steps, Abandon(id));
    AbandonSettles(w, p, RunTo(w, p, steps), id);
    SettledOnce(w, p, steps + [Abandon(id)], more, id);
  }

  /** A turn that finds no request is the idle tick, and touches nothing but the connection. */
  lemma IdleTurnMaintains(w: World, p: Policy, steps: seq<Step>)
    requires !RunTo(w, p, steps).stopped && RunTo(w, p, steps).queue == []
    ensures var o := RunTo(w, p, steps);
            RunTo(w, p, steps + [Turn]) == o.(actor := Maintenance(w, p, o.actor))
  {
    hide RunTo, Maintenance, Fifo;
    RunOneMore(w, p, steps, Turn);
  }
}
