/**
 * The decision the request callback takes for each request (http_request_cb):
 * four gates in a fixed order, each with its own reply, and the allow-list
 * check that is the first of them (ClientAllowed). Subnet matching and
 * address validity are parameters: they belong to the network layer.
 */
module Dispatcher {
  import opened Methods
  import opened PathHandlers
  import opened WorkQueues
  import opened Requests

  /** Does some subnet of the list match the address? (The loop of ClientAllowed.) */
  function AnySubnetMatches<A, S>(addr: A, subnets: seq<S>, matches: (S, A) -> bool): (r: bool)
    ensures r <==> exists i :: 0 <= i < |subnets| && matches(subnets[i], addr)
  {
    if subnets == [] then false
    else if matches(subnets[0], addr) then true
    else
      assert forall i :: 1 <= i < |subnets| ==> subnets[i] == subnets[1..][i - 1];
      AnySubnetMatches(addr, subnets[1..], matches)
  }

  /** A peer may use the server when its address is valid and some allowed subnet matches it. */
  function ClientAllowed<A, S>(addr: A, subnets: seq<S>, isValid: A -> bool, matches: (S, A) -> bool): (r: bool)
    ensures r <==> isValid(addr) && exists i :: 0 <= i < |subnets| && matches(subnets[i], addr)
  {
    if !isValid(addr) then false
    else AnySubnetMatches(addr, subnets, matches)
  }

  /** What the callback did with a request: replied at once, or queued it for a worker. */
  datatype Verdict<H> = Replied(reply: Reply) | Queued(handler: H, path: string)

  /** The reply to a request that finds the work queue full. */
  const QueueFullReply: Reply := Reply(Internal, "Work queue depth exceeded")

  /**
   * The request callback's decision and the work queue after it. The gates,
   * in order: the peer must be allowed, the method known, a route found and
   * the work item accepted by the queue. Each failing gate has its own reply
   * and leaves the queue unchanged; when all pass, the item built by `wrap`
   * from the route's handler and sub-path is queued and no reply is written.
   */
  function Dispatch<X, H>(allowed: bool, verb: RequestMethod, entries: seq<Entry<H>>, uri: string,
                          q: QueueState<X>, wrap: (H, string) -> X): (r: (Verdict<H>, QueueState<X>))
    ensures !allowed ==> r.0 == Replied(Reply(Forbidden, ""))
    ensures allowed && verb == UNKNOWN ==> r.0 == Replied(Reply(BadMethod, ""))
    ensures allowed && verb != UNKNOWN && RouteFor(entries, uri).None? ==>
      r.0 == Replied(Reply(NotFound, ""))
    ensures allowed && verb != UNKNOWN && RouteFor(entries, uri).Some? && |q.items| >= q.maxDepth ==>
      r.0 == Replied(QueueFullReply)
    ensures r.0.Queued? <==>
      allowed && verb != UNKNOWN && RouteFor(entries, uri).Some? && |q.items| < q.maxDepth
    ensures r.0.Queued? ==> (
      && r.0.handler == RouteFor(entries, uri).value.handler
      && r.0.path == RouteFor(entries, uri).value.path
      && r.1 == q.(items := q.items + [wrap(r.0.handler, r.0.path)]))
    ensures r.0.Replied? ==> r.1 == q
    ensures Bounded(q) ==> Bounded(r.1)
  {
    if !allowed then (Replied(Reply(Forbidden, "")), q)
    else if verb == UNKNOWN then (Replied(Reply(BadMethod, "")), q)
    else
      match RouteFor(entries, uri)
      case None => (Replied(Reply(NotFound, "")), q)
      case Some(route) =>
        var (q', accepted) := EnqueueStep(q, wrap(route.handler, route.path));
        if accepted then (Queued(route.handler, route.path), q')
        else (Replied(QueueFullReply), q)
  }

  /**
   * A peer that no allowed subnet matches is answered Forbidden, whatever
   * its method and URI, and nothing reaches the queue, so no handler runs.
   */
  lemma DisallowedPeerForbidden<A, S, X, H>(addr: A, subnets: seq<S>, isValid: A -> bool,
                                            matches: (S, A) -> bool, verb: RequestMethod,
                                            entries: seq<Entry<H>>, uri: string,
                                            q: QueueState<X>, wrap: (H, string) -> X)
    requires forall i :: 0 <= i < |subnets| ==> !matches(subnets[i], addr)
    ensures Dispatch(ClientAllowed(addr, subnets, isValid, matches), verb, entries, uri, q, wrap)
            == (Replied(Reply(Forbidden, "")), q)
  {
  }

  /**
   * Overload of a queue of depth 1: the first of two requests
   * for a routed URI is queued and the second is answered "Work queue depth
   * exceeded"; once a worker has taken the first, a third is queued again.
   */
  lemma OverloadScenario<X, H>(command: Command, entries: seq<Entry<H>>, uri: string, wrap: (H, string) -> X)
    requires command in KnownCommands && RouteFor(entries, uri).Some?
    ensures
      var m := GetRequestMethod(command);
      var q0 := QueueState([], true, 1);
      var (v1, q1) := Dispatch(true, m, entries, uri, q0, wrap);
      var (v2, q2) := Dispatch(true, m, entries, uri, q1, wrap);
      var (s, q3) := DequeueStep(q2);
      var (v3, q4) := Dispatch(true, m, entries, uri, q3, wrap);
      && v1.Queued? && |q1.items| == 1
      && v2 == Replied(QueueFullReply) && q2 == q1
      && s == Item(wrap(v1.handler, v1.path)) && q3.items == []
      && v3.Queued? && |q4.items| == 1
  {
  }
}
