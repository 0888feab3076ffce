/**
 * The per-request context (HTTPRequest) and its reply-exactly-once rule.
 * A reply is not transmitted by the thread that writes it: WriteReply hands
 * (status, body) to the event-loop thread and lets go of the transport
 * request. The ghost log `scheduled` records every reply handed over.
 */
module Requests {

  /**
   * Reply statuses. The numbers behind the named ones are defined outside
   * this model, so they are kept symbolic; Code carries any status a
   * handler chooses.
   */
  datatype Status = Forbidden | BadMethod | NotFound | Internal | ServiceUnavailable | Code(n: int)

  /** A reply as handed to the event-loop thread. */
  datatype Reply = Reply(status: Status, body: string)

  /** The reply a request receives if it is released without one. */
  const UnhandledReply: Reply := Reply(Internal, "Unhandled request")

  class HttpRequest {
    /** The transport request is still held (the `req` pointer is non-null). */
    var hasReq: bool
    var replySent: bool
    /** Headers added to the reply. */
    var outputHeaders: seq<(string, string)>
    /** The replies scheduled for transmission on the event-loop thread. */
    ghost var scheduled: seq<Reply>

    /**
     * A context holds its transport request exactly until it has replied,
     * and it has scheduled one reply once it replied, none before.
     */
    ghost predicate Valid()
      reads this
    {
      && hasReq == !replySent
      && |scheduled| == (if replySent then 1 else 0)
    }

    /** A context is created around a transport request, with no reply yet. */
    constructor ()
      ensures Valid() && hasReq && !replySent
      ensures outputHeaders == [] && scheduled == []
    {
      hasReq := true;
      replySent := false;
      outputHeaders := [];
      scheduled := [];
    }

    /** Adds a header to the reply; needs the transport request. */
    method WriteHeader(name: string, value: string)
      requires hasReq
      modifies this
      ensures outputHeaders == old(outputHeaders) + [(name, value)]
      ensures hasReq == old(hasReq) && replySent == old(replySent) && scheduled == old(scheduled)
    {
      outputHeaders := outputHeaders + [(name, value)];
    }

    /**
     * Schedules the reply. Writing a second reply is a fatal error in the
     * source (an assertion), so here it is a precondition. While a shutdown
     * is requested the reply also asks for the connection to be closed.
     */
    method WriteReply(status: Status, body: string, shutdownRequested: bool)
      requires Valid()
      requires !replySent && hasReq
      modifies this
      ensures Valid()
      ensures replySent && !hasReq
      ensures scheduled == old(scheduled) + [Reply(status, body)] && scheduled == [Reply(status, body)]
      ensures outputHeaders == old(outputHeaders) + (if shutdownRequested then [("Connection", "close")] else [])
    {
      if shutdownRequested {
        WriteHeader("Connection", "close");
      }
      scheduled := scheduled + [Reply(status, body)];
      replySent := true;
      hasReq := false;
    }

    /**
     * The destructor: a context released without a reply replies with
     * Internal "Unhandled request", so that afterwards every context has
     * exactly one reply; one that has replied is left as it is.
     */
    method Release(shutdownRequested: bool)
      requires Valid()
      modifies this
      ensures Valid() && replySent && |scheduled| == 1
      ensures old(replySent) ==> scheduled == old(scheduled) && outputHeaders == old(outputHeaders)
      ensures !old(replySent) ==> scheduled == [UnhandledReply]
      ensures !old(replySent) ==>
        outputHeaders == old(outputHeaders) + (if shutdownRequested then [("Connection", "close")] else [])
    {
      if !replySent {
        WriteReply(UnhandledReply.status, UnhandledReply.body, shutdownRequested);
      }
    }
  }
}
