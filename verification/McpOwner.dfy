/** The owner task as an object: a client, the queue its callers fill and the futures they wait on
    (`_submit`, `_owner_loop`, `close` in backend/app/mcp/client.py). */
module McpOwner {
  import opened Text
  import opened McpModel
  import opened McpActor
  import opened McpClient

  class OwnerTask {
    const client: MCPClient
    var queue: seq<Request>
    var futures: seq<Future>
    var stopped: bool
    var closed: bool
    var served: nat
    ghost var submitted: seq<Request>

    constructor (world: World, policy: Policy)
      ensures fresh(client) && client.world == world && client.policy == policy
      ensures Valid() && client.registry == null
      ensures View() == Init(world, policy)
    {
      hide ConnectWithRetries;
      client := new MCPClient(world, policy);
      queue, futures, stopped, closed, served := [], [], false, false, 0;
      submitted := [];
      new;
      assert client.View() == UNCONNECTED;
      client.Start();
    }

    ghost predicate Valid()
      reads this, client, client.registry
    {
      client.Valid() && Fifo(View())
    }

    ghost function View(): Owner
      reads this, client, client.registry
    {
      Owner(client.View(), queue, futures, stopped, closed, submitted, served)
    }

    /** Queues a request; the caller waits on the future it gets. */
    method Enqueue(request: Request) returns (future: Option<nat>)
      requires Valid()
      modifies this`queue, this`futures, this`submitted
      ensures Valid()
      ensures View() == Next(client.world, client.policy, old(View()), Submit(request))
      ensures if closed then future.None? else future == Some(|old(futures)|)
    {
      NextKeepsFifo(client.world, client.policy, View(), Submit(request));
      if closed {
        return None;
      }
      future := Some(|futures|);
      queue := queue + [request];
      futures := futures + [Pending];
      submitted := submitted + [request];
    }

    /** One turn of the loop: maintenance on an empty queue, else the oldest request is served. */
    method ServeNext()
      requires Valid()
      modifies this`queue, this`futures, this`stopped, this`served, client, client.registry
      ensures Valid() && client.registry == old(client.registry)
      ensures View() == Next(client.world, client.policy, old(View()), Turn)
    {
      hide Handled, Maintenance;
      TurnKeepsFifo(client.world, client.policy, View());
      if stopped {
        return;
      }
      if queue == [] {
        client.Maintain();
        return;
      }
      var request := queue[0];
      queue := queue[1..];
      var reply := client.Serve(request);
      if futures[served].Pending? {
        futures := futures[served := Resolved(reply)];
      }
      served := served + 1;
      stopped := request.kind == Shutdown;
    }

    /** The end of `close`, once the task has finished. */
    method FinishClose()
      requires Valid()
      modifies this`closed
      ensures Valid()
      ensures View() == Next(client.world, client.policy, old(View()), Close)
    {
      if stopped {
        closed := true;
      }
    }
  }
}
