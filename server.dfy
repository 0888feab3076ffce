/**
 * The server as one object: the handler table, the allow list, the work
 * queue and the event-loop callback that is installed, with the operations
 * of its life cycle (InitHTTPServer, InterruptHTTPServer, StopHTTPServer),
 * the request callback, and the loop each worker thread runs.
 *
 * Threads are not modelled: a worker's loop runs until it would wait, and
 * a handler is given as a function from (handler, sub-path) to the reply it
 * writes, None when it returns without replying.
 */
module Server {
  import opened Basics
  import opened Methods
  import Config
  import opened WorkQueues
  import opened PathHandlers
  import opened Requests
  import opened Dispatcher

  /** A queued request: its context, the matched sub-path and the handler (HTTPWorkItem). */
  datatype WorkItem<H> = WorkItem(req: HttpRequest, path: string, handler: H)

  ghost function RequestsOf<H>(items: seq<WorkItem<H>>): set<HttpRequest>
  {
    set i | 0 <= i < |items| :: items[i].req
  }

  /** Every queued context is waiting for its reply, and each is queued once. */
  ghost predicate AllPending<H>(items: seq<WorkItem<H>>)
    reads RequestsOf(items)
  {
    && (forall i :: 0 <= i < |items| ==> items[i].req.Valid() && !items[i].req.replySent)
    && (forall i, j :: 0 <= i < j < |items| ==> items[i].req != items[j].req)
  }

  /** The context of the item has replied exactly once, with the given reply. */
  ghost predicate RepliedWith<H>(item: WorkItem<H>, reply: Reply)
    reads item.req
  {
    item.req.Valid() && item.req.replySent && item.req.scheduled == [reply]
  }

  /**
   * A handler, as the reply it writes when called with the sub-path and the
   * request context (None when it returns without replying). It is called
   * with the context itself, so requests with the same handler and sub-path
   * may be answered differently.
   */
  type Responder<-H> = (H, string, HttpRequest) -> Option<Reply>

  /** The reply a request ends up with when its handler responds `response`. */
  function FinalReply(response: Option<Reply>): Reply
  {
    response.GetOr(UnhandledReply)
  }

  /**
   * A worker running one item: the handler, then the end of the item's life,
   * which releases the context. The context ends with exactly one reply:
   * the handler's, or the fallback when the handler wrote none.
   */
  method RunWorkItem<H>(item: WorkItem<H>, respond: Responder<H>, shutdownRequested: bool)
    requires item.req.Valid() && !item.req.replySent
    modifies item.req
    ensures RepliedWith(item, FinalReply(respond(item.handler, item.path, item.req)))
  {
    var response := respond(item.handler, item.path, item.req);
    if response.Some? {
      item.req.WriteReply(response.value.status, response.value.body, shutdownRequested);
    }
    item.req.Release(shutdownRequested);
  }

  class HttpServer<A, S, H> {
    /** The registered path handlers. */
    const table: HandlerTable<H>
    /** Address validity and subnet matching, from the network layer. */
    const isValid: A -> bool
    const matches: (S, A) -> bool
    /** The subnets allowed to connect. */
    var allowList: seq<S>
    /** The endpoints the transport is listening on. */
    var boundSockets: seq<Config.Endpoint>
    /** The transport's HTTP server object exists. */
    var hasEventHttp: bool
    /** The reject-everything callback is installed in place of the request callback. */
    var rejecting: bool
    /** The work queue, null before Init and after Stop. */
    var queue: WorkQueue?<WorkItem<H>>

    ghost predicate Valid()
      reads this, queue, if queue == null then {} else RequestsOf(queue.items)
    {
      queue != null ==> queue.Valid() && AllPending(queue.items)
    }

    /** The server before InitHTTPServer: nothing created yet. */
    constructor (table: HandlerTable<H>, isValid: A -> bool, matches: (S, A) -> bool)
      ensures Valid()
      ensures this.table == table && this.isValid == isValid && this.matches == matches
      ensures allowList == [] && boundSockets == [] && !hasEventHttp && !rejecting && queue == null
    {
      this.table := table;
      this.isValid := isValid;
      this.matches := matches;
      allowList := [];
      boundSockets := [];
      hasEventHttp := false;
      rejecting := false;
      queue := null;
    }

    /**
     * InitHTTPServer. The results of the steps that belong to the network
     * layer and the transport are inputs: the allow list built from the
     * configuration (None if an entry is invalid), whether the transport's
     * server object could be created, `SplitHostPort`, and which endpoints
     * bind. The endpoints tried are the ones `Config.BindEndpoints` chooses
     * from -rpcallowip, -rpcbind and -rpcport. Startup fails
     * at the first of these that fails, binding failing when no endpoint
     * binds, and then nothing changes. On success the work queue exists,
     * empty and running, with the clamped depth.
     */
    method Init(allowList: Option<seq<S>>, evhttpCreated: bool,
                allowIpSet: bool, bindSet: bool, bindArgs: seq<string>, rpcPort: Config.Int64,
                splitHostPort: (string, int) -> (string, int), binds: Config.Binder,
                depthArg: Config.Int64)
      returns (ok: bool)
      requires queue == null && !hasEventHttp
      modifies this
      ensures Valid()
      ensures
        var endpoints := Config.BindEndpoints(allowIpSet, bindSet, bindArgs, rpcPort, splitHostPort);
        ok <==> allowList.Some? && evhttpCreated && Config.BoundSockets(endpoints, binds) != []
      ensures ok ==> (
        && this.allowList == allowList.value && hasEventHttp && !rejecting
        && boundSockets == Config.BoundSockets(
             Config.BindEndpoints(allowIpSet, bindSet, bindArgs, rpcPort, splitHostPort), binds)
        && queue != null && fresh(queue)
        && queue.State() == QueueState([], true, Config.AtLeastOne(depthArg as int)))
      ensures !ok ==> unchanged(this)
    {
      if allowList.None? || !evhttpCreated {
        return false;
      }
      var endpoints := Config.BindEndpoints(allowIpSet, bindSet, bindArgs, rpcPort, splitHostPort);
      var bound := Config.BindAll(endpoints, binds);
      if bound == [] {
        return false;
      }
      this.allowList := allowList.value;
      boundSockets := bound;
      hasEventHttp := true;
      rejecting := false;
      queue := new WorkQueue(Config.AtLeastOne(depthArg as int));
      ok := true;
    }

    /**
     * The transport's callback for one request. Once the server has been
     * interrupted every request is refused with ServiceUnavailable and no
     * context is made. Otherwise the request callback builds a context and
     * follows Dispatch: it replies at once through the context, or it queues
     * the context, unanswered, together with its handler and sub-path.
     * Only commands the transport lets through reach the callback.
     */
    method OnRequest(peer: A, command: Command, uri: string, shutdownRequested: bool)
      returns (v: Verdict<H>, req: HttpRequest?)
      requires Valid() && hasEventHttp && (rejecting || queue != null)
      requires Allowed(command)
      modifies queue
      ensures Valid()
      ensures rejecting ==> (
        && v == Replied(Reply(ServiceUnavailable, "")) && req == null
        && (queue != null ==> queue.State() == old(queue.State())))
      ensures !rejecting ==> (
        && req != null && fresh(req) && req.Valid() && queue != null
        && (v, queue.State()) ==
           Dispatch(ClientAllowed(peer, allowList, isValid, matches), GetRequestMethod(command),
                    table.entries, uri, old(queue.State()), (h, p) => WorkItem(req, p, h)))
      ensures !rejecting && v.Replied? ==> req.replySent && req.scheduled == [v.reply]
      ensures !rejecting && v.Queued? ==> !req.replySent && req.scheduled == []
    {
      if rejecting {
        return Replied(Reply(ServiceUnavailable, "")), null;
      }
      ghost var q0 := queue.State();
      var r := new HttpRequest();
      req := r;
      ghost var wrap := (h, p) => WorkItem(r, p, h);
      assert r !in RequestsOf(queue.items);
      var allowed := ClientAllowed(peer, allowList, isValid, matches);
      var verb := GetRequestMethod(command);
      if !allowed || verb == UNKNOWN {
        v := if !allowed then Replied(Reply(Forbidden, "")) else Replied(Reply(BadMethod, ""));
        assert (v, q0) == Dispatch(allowed, verb, table.entries, uri, q0, wrap);
        ReplyNow(r, v.reply, shutdownRequested);
        return;
      }
      var route := table.Resolve(uri);
      if route.None? {
        v := Replied(Reply(NotFound, ""));
        assert (v, q0) == Dispatch(allowed, verb, table.entries, uri, q0, wrap);
        ReplyNow(r, v.reply, shutdownRequested);
        return;
      }
      var item := WorkItem(r, route.value.path, route.value.handler);
      var accepted := EnqueueNew(item);
      if accepted {
        v := Queued(route.value.handler, route.value.path);
        assert (v, queue.State()) == Dispatch(allowed, verb, table.entries, uri, q0, wrap);
        return;
      }
      v := Replied(QueueFullReply);
      assert (v, q0) == Dispatch(allowed, verb, table.entries, uri, q0, wrap);
      ReplyNow(r, v.reply, shutdownRequested);
    }

    /** Replies at once through a context the queue does not hold. */
    method ReplyNow(r: HttpRequest, reply: Reply, shutdownRequested: bool)
      requires Valid() && r.Valid() && !r.replySent
      requires queue != null ==> r !in RequestsOf(queue.items)
      modifies r
      ensures Valid() && r.Valid() && r.replySent && r.scheduled == [reply]
    {
      r.WriteReply(reply.status, reply.body, shutdownRequested);
    }

    /** Offers the queue an item whose context is new to it and still waiting for its reply. */
    method EnqueueNew(item: WorkItem<H>) returns (accepted: bool)
      requires Valid() && queue != null
      requires item.req.Valid() && !item.req.replySent && item.req !in RequestsOf(queue.items)
      modifies queue
      ensures Valid() && queue != null
      ensures (queue.State(), accepted) == EnqueueStep(old(queue.State()), item)
    {
      accepted := queue.Enqueue(item);
      assert accepted ==> queue.items == old(queue.items) + [item];
    }

    /**
     * A worker thread's loop (WorkQueue::Run with the item's call). While the
     * queue runs, the worker takes the items front first and runs each, until
     * the queue is empty and it would wait. Once the queue has stopped, the
     * worker exits at once and touches none of the remaining items.
     */
    method WorkerRun(respond: Responder<H>, shutdownRequested: bool)
      returns (stopped: bool)
      requires Valid() && queue != null
      modifies queue, RequestsOf(queue.items)
      ensures Valid() && queue != null
      ensures queue.running == old(queue.running) && queue.maxDepth == old(queue.maxDepth)
      ensures stopped <==> !old(queue.running)
      ensures stopped ==> queue.items == old(queue.items) && unchanged(RequestsOf(old(queue.items)))
      ensures !stopped ==> queue.items == [] && forall i :: 0 <= i < |old(queue.items)| ==>
        RepliedWith(old(queue.items)[i], FinalReply(respond(old(queue.items)[i].handler, old(queue.items)[i].path, old(queue.items)[i].req)))
    {
      ghost var pending := queue.items;
      ghost var k := 0;
      while true
        invariant queue.Valid() && queue.running == old(queue.running) && queue.maxDepth == old(queue.maxDepth)
        invariant 0 <= k <= |pending| && queue.items == pending[k..]
        invariant k > 0 ==> queue.running
        invariant k == 0 ==> unchanged(RequestsOf(pending))
        invariant forall i, j :: 0 <= i < j < |pending| ==> pending[i].req != pending[j].req
        invariant forall i :: k <= i < |pending| ==> pending[i].req.Valid() && !pending[i].req.replySent
        invariant forall i :: 0 <= i < k ==>
          RepliedWith(pending[i], FinalReply(respond(pending[i].handler, pending[i].path, pending[i].req)))
        decreases |queue.items|
      {
        var step := queue.TryDequeue();
        match step {
          case Stop =>
            return true;
          case Blocked =>
            return false;
          case Item(item) =>
            assert item == pending[k] && item.req in RequestsOf(pending);
            RunWorkItem(item, respond, shutdownRequested);
            k := k + 1;
        }
      }
    }

    /**
     * InterruptHTTPServer: installs the reject-everything callback if the
     * transport's server exists, and interrupts the work queue if it exists.
     * Queued items stay queued.
     */
    method Interrupt()
      requires Valid()
      modifies this, queue
      ensures Valid()
      ensures queue == old(queue) && allowList == old(allowList) && hasEventHttp == old(hasEventHttp)
      ensures boundSockets == old(boundSockets)
      ensures rejecting == (old(rejecting) || hasEventHttp)
      ensures queue != null ==> queue.State() == InterruptStep(old(queue.State()))
    {
      if hasEventHttp {
        rejecting := true;
      }
      if queue != null {
        queue.Interrupt();
      }
    }

    /**
     * StopHTTPServer. Joining the workers only returns once they have
     * exited, so the queue must have been interrupted. Deleting the queue
     * releases every item still in it, and each of those contexts then
     * replies with the fallback "Unhandled request" exactly once. The
     * sockets stop listening; the allow list and the installed callback are
     * left as they were.
     */
    method Stop(shutdownRequested: bool)
      requires Valid()
      requires queue != null ==> !queue.running
      modifies this, if queue == null then {} else RequestsOf(queue.items)
      ensures Valid() && queue == null && boundSockets == [] && !hasEventHttp
      ensures allowList == old(allowList) && rejecting == old(rejecting)
      ensures old(queue) != null ==>
        forall i :: 0 <= i < |old(queue.items)| ==> RepliedWith(old(queue.items)[i], UnhandledReply)
    {
      if queue != null {
        var items := queue.items;
        var k := 0;
        while k < |items|
          invariant 0 <= k <= |items|
          invariant forall i, j :: 0 <= i < j < |items| ==> items[i].req != items[j].req
          invariant forall i :: k <= i < |items| ==> items[i].req.Valid() && !items[i].req.replySent
          invariant forall i :: 0 <= i < k ==> RepliedWith(items[i], UnhandledReply)
          invariant allowList == old(allowList) && rejecting == old(rejecting)
        {
          assert items[k].req in RequestsOf(items);
          items[k].req.Release(shutdownRequested);
          k := k + 1;
        }
        queue := null;
      }
      boundSockets := [];
      hasEventHttp := false;
    }
  }

  /**
   * Shutdown with a request in the queue: a request is queued and not yet taken by any
   * worker when the server is interrupted; a later request is refused with
   * ServiceUnavailable; once the server stops, the queued request has
   * received the fallback reply, exactly once.
   */
  method ShutdownScenario<A, S, H>(peer: A, subnet: S, isValid: A -> bool, matches: (S, A) -> bool, h: H)
    returns (req: HttpRequest)
    requires isValid(peer) && matches(subnet, peer)
    ensures req.Valid() && req.scheduled == [UnhandledReply]
  {
    var table := new HandlerTable<H>();
    table.Register("/", false, h);
    var server := new HttpServer(table, isValid, matches);
    var ok := server.Init(Some([subnet]), true, false, false, [], 8332, (s, p) => (s, p), (bound, e) => true, 16);
    assert Matches(Entry("/", false, h), "/");
    var v, r := server.OnRequest(peer, ReqPost, "/", false);
    assert v.Queued? && server.queue.items == [WorkItem(r, "", h)];
    server.Interrupt();
    var late, none := server.OnRequest(peer, ReqPost, "/", true);
    assert late == Replied(Reply(ServiceUnavailable, ""));
    ghost var queued := server.queue.items;
    assert queued[0].req == r;
    server.Stop(true);
    assert RepliedWith(queued[0], UnhandledReply);
    req := r;
  }
}
