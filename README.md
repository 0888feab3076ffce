# HTTP server core: work queue, routing, dispatch and reply-once

A Dafny model of the request-serving core of a node's local HTTP/RPC
interface (`src/httpserver.cpp`). The transport hands each inbound request to
a callback on the event-loop thread. The callback checks the peer against an
allow list, rejects unknown methods, finds a handler by URI prefix in an
ordered table, and puts a work item on a bounded queue. Worker threads take
items from the front of the queue and run the handler. Every request context
must reply exactly once: a context released without a reply sends
`Internal "Unhandled request"`. Interrupting the server installs a
reject-everything callback and stops the queue. Stopping the server deletes
the queue, and every item still in it then gets the fallback reply.

Files and modules:

- `basics.dfy` (`Basics`): `Option`.
- `methods.dfy` (`Methods`): transport commands, the method enumeration, `GetRequestMethod`, `RequestMethodString`.
- `config.dfy` (`Config`): the depth and thread-count clamps, the C++ integer conversions they go through, and the choice of listening endpoints.
- `work_queue.dfy` (`WorkQueues`): pure queue steps, lemmas over whole sequences of operations, and the `WorkQueue` class whose methods are tied to those steps.
- `path_handlers.dfy` (`PathHandlers`): handler entries, matching, first-match lookup, unregistering, and the `HandlerTable` class with the source's loops.
- `request.dfy` (`Requests`): statuses, replies, and the `HttpRequest` class with its reply-once invariant. A ghost log `scheduled` records every reply handed to the event-loop thread.
- `dispatch.dfy` (`Dispatcher`): `ClientAllowed` and the request callback's four gates as the function `Dispatch`.
- `server.dfy` (`Server`): the server object with `Init`, `OnRequest`, `WorkerRun`, `Interrupt` and `Stop`.

Inputs that come from outside the core are parameters:

- address validity and subnet matching (`isValid`, `matches`);
- the allow list after parsing;
- whether the transport objects could be created, and which endpoints bind;
- the shutdown flag;
- `SplitHostPort`;
- option values, as 64-bit integers;
- a handler's behaviour, given as the reply it writes for a sub-path and a request context, or `None` when it returns without one;
- whether binding an endpoint succeeds, given the endpoints already bound.

The numeric HTTP status codes are defined outside this file, so `Status` keeps them symbolic.

Two behaviours of the code worth knowing:

- `WorkQueue::Enqueue` does not look at `running`, so an interrupted queue still accepts items while it has room. In the server, the reject-all callback is what keeps new requests out after an interrupt.
- There is no explicit server state machine. The life cycle is carried by which objects exist (`hasEventHttp`, `queue`) and which callback is installed (`rejecting`).

## Model

| member | source | states |
|---|---|---|
| `Methods.GetRequestMethod` | src/httpserver.cpp:708-723 | the result is a known method exactly for GET, POST, HEAD, PUT and OPTIONS; every other command is UNKNOWN; a known method's name is the command's own token |
| `Methods.RequestMethodString` | src/httpserver.cpp:203-218 | the name is "unknown" exactly for UNKNOWN; a known method's name is the token of a known command |
| `Methods.RequestMethodStringInjective` | src/httpserver.cpp:203-218 | distinct methods have distinct names |
| `Methods.Allowed` | src/httpserver.cpp:437-439 | the transport lets a command through exactly when the server knows it or it is DELETE; TRACE, CONNECT and PATCH are refused |
| `Methods.AllowedButUnknown` | src/httpserver.cpp:437-439 | DELETE is the only command the transport lets through that maps to UNKNOWN, so a DELETE request from an allowed peer is answered BadMethod |
| `Config.NarrowToInt` | src/httpserver.cpp:447-448 | storing a value in an `int` gives a 32-bit value congruent to it modulo 2^32, and equal to it when it fits |
| `Config.ToSizeT` | src/httpserver.cpp:451 | passing the `int` depth to the `size_t` constructor parameter reduces it modulo 2^64 |
| `Config.ToUInt16` | src/httpserver.cpp:337-353 | endpoint ports are stored as `uint16_t`: reduced modulo 2^16 |
| `Config.AtLeastOne` | src/httpserver.cpp:447-448 | `std::max(value, 1L)`, the depth and worker count as intended: at least 1 and at least the configured value, and either that value or 1 |
| `Config.WorkQueueDepthAsWritten` | src/httpserver.cpp:447-451 | the depth the queue is built with as the code is written: below 2^64, congruent to the clamped value modulo 2^32, and equal to it when the clamped value fits an `int` |
| `Config.WorkerThreadsAsWritten` | src/httpserver.cpp:477-484 | the number of worker threads started as the code is written: at most `INT32_MAX`, either 0 or congruent to the clamped value modulo 2^32, and equal to it when the clamped value fits an `int` |
| `Config.WorkQueueDepthAsWrittenCanBeZero` | src/httpserver.cpp:447-451 | with the code as written, `-rpcworkqueue=4294967296` builds a queue of depth 0 |
| `Config.WorkerThreadsAsWrittenCanBeZero` | src/httpserver.cpp:477-484 | with the code as written, `-rpcthreads=4294967296` starts no worker thread |
| `Config.AsWrittenAgreesBelowIntMax` | src/httpserver.cpp:447-484 | for every value that fits an `int`, the code as written gives the intended depth and thread count |
| `Config.BindEndpoints` | src/httpserver.cpp:330-355 | unless both -rpcallowip and -rpcbind are set, the endpoints are ::1 and 127.0.0.1 on the RPC port; otherwise one endpoint per -rpcbind value, in order |
| `Config.SplitAll` | src/httpserver.cpp:349-354 | one endpoint per bind string, each the host and port split from it |
| `Config.LoopbackUnlessAllowIp` | src/httpserver.cpp:335-346 | without -rpcallowip the server listens only on loopback addresses |
| `Config.BindFrom` | src/httpserver.cpp:356-372 | binding endpoints in turn after those already bound only appends: each added endpoint was tried and binds given the ones before it; nothing is added exactly when each endpoint fails against what is bound |
| `Config.BoundSockets` | src/httpserver.cpp:356-372 | the sockets bound from nothing: each was tried and binds given the ones bound before it; none exactly when every endpoint fails on its own |
| `Config.BindFromAppend` | src/httpserver.cpp:356-372 | binding `a + b` is binding `a`, then binding `b` on top of what `a` left bound |
| `Config.BindFromOne` | src/httpserver.cpp:362-370 | one endpoint is appended exactly when it binds given what is bound |
| `Config.RepeatedEndpointBoundOnce` | src/httpserver.cpp:349-370 | an endpoint given twice is listened on once when a bound endpoint cannot be bound again |
| `Config.BindAll` | src/httpserver.cpp:356-372 | the loop over the endpoints returns exactly `BoundSockets` |
| `WorkQueues.EnqueueStep` | src/httpserver.cpp:94-102 | accepted exactly when the length is below the depth; an accepted item is appended at the back; a refused one leaves the queue unchanged; the bound is preserved |
| `WorkQueues.DequeueStep` | src/httpserver.cpp:105-121 | Stop exactly when not running, even with items left; Blocked when running and empty; otherwise the front item, removed from the queue |
| `WorkQueues.InterruptStep` | src/httpserver.cpp:124-128 | clears `running` and leaves the items and the depth alone |
| `WorkQueues.ReplayBounded` | src/httpserver.cpp:94-102 | over any sequence of enqueues, worker steps and interrupts, the queue never exceeds its depth, and the depth never changes |
| `WorkQueues.ReplayFifo` | src/httpserver.cpp:99-117 | over any sequence of operations, the items handed to workers followed by the items still queued equal the initial items followed by the accepted ones |
| `WorkQueues.ServedInAcceptedOrder` | src/httpserver.cpp:99-117 | starting from a new queue, workers receive a prefix of the accepted items, in acceptance order |
| `WorkQueues.NothingServedAfterHalt` | src/httpserver.cpp:110-115 | after an interrupt the queue stays stopped and no worker receives another item |
| `WorkQueues.InterruptIdempotent` | src/httpserver.cpp:124-128 | a second interrupt right after the first changes nothing |
| `WorkQueues.WorkQueue.constructor` | src/httpserver.cpp:87 | a new queue is empty, running, with the given depth |
| `WorkQueues.WorkQueue.Enqueue` | src/httpserver.cpp:94-102 | accepted exactly when the old length is below the depth; the new state is the one `EnqueueStep` gives |
| `WorkQueues.WorkQueue.TryDequeue` | src/httpserver.cpp:106-118 | the step and the new state are the ones `DequeueStep` gives |
| `WorkQueues.WorkQueue.Interrupt` | src/httpserver.cpp:124-128 | the new state is the one `InterruptStep` gives |
| `PathHandlers.Substr` | src/httpserver.cpp:285-288 | `substr(pos, n)` is the part of the string from pos, at most n characters long |
| `PathHandlers.Matches` | src/httpserver.cpp:281-286 | an exact entry matches only the URI equal to its prefix; a prefix entry, which compares the first |prefix| characters, matches exactly when its prefix starts the URI |
| `PathHandlers.FirstMatch` | src/httpserver.cpp:278-291 | the position of the first matching entry in registration order, or None exactly when no entry matches |
| `PathHandlers.RouteFor` | src/httpserver.cpp:276-291 | no route exactly when nothing matches; otherwise the first match's handler and a sub-path such that prefix + sub-path is the URI, empty for an exact entry |
| `PathHandlers.FindKey` | src/httpserver.cpp:733-739 | the position of the first entry with the same prefix and match mode, or None when there is none |
| `PathHandlers.Unregistered` | src/httpserver.cpp:732-746 | removes exactly the first entry with the key and keeps the others in order; without one, nothing changes |
| `PathHandlers.FirstMatchIs` | src/httpserver.cpp:278-291 | a matching position with no earlier match is the one the lookup finds |
| `PathHandlers.FindKeyIs` | src/httpserver.cpp:733-739 | a position with the key and none before it is the one the search finds |
| `PathHandlers.FirstMatchAppend` | src/httpserver.cpp:278-291 | appending an entry only matters for a URI that no earlier entry matches |
| `PathHandlers.FindKeyAppend` | src/httpserver.cpp:725-739 | an appended entry with a new key is found at the end |
| `PathHandlers.RegisterKeepsRoutes` | src/httpserver.cpp:725-730 | first match wins: registering never changes the route of a URI that already had one |
| `PathHandlers.RegisterAddsRoute` | src/httpserver.cpp:725-730 | a URI without a route goes to a newly registered entry that matches it |
| `PathHandlers.UnregisterUndoesRegister` | src/httpserver.cpp:725-746 | unregistering right after registering a new key gives back the original table |
| `PathHandlers.RoutingExamples` | src/httpserver.cpp:276-291 | with an exact "/status" entry and a prefix "/rest/" entry: "/status" has sub-path "", "/rest/headers/5" has "headers/5", and "/unknown" and "/status/x" have no route |
| `PathHandlers.HandlerTable.constructor` | src/httpserver.cpp:151 | the table starts empty |
| `PathHandlers.HandlerTable.Register` | src/httpserver.cpp:725-730 | the entry is appended at the end |
| `PathHandlers.HandlerTable.Unregister` | src/httpserver.cpp:732-746 | the new table is `Unregistered` of the old one |
| `PathHandlers.HandlerTable.Resolve` | src/httpserver.cpp:276-291 | the lookup loop returns `RouteFor` of the table |
| `Requests.HttpRequest.constructor` | src/httpserver.cpp:561-562 | a new context holds its transport request and has no reply |
| `Requests.HttpRequest.WriteHeader` | src/httpserver.cpp:623-628 | appends the header and changes nothing else |
| `Requests.HttpRequest.WriteReply` | src/httpserver.cpp:635-689 | needs a context with no reply; afterwards it has replied, let go of the transport request, and scheduled exactly this one reply; during a shutdown it adds "Connection: close" |
| `Requests.HttpRequest.Release` | src/httpserver.cpp:563-570 | afterwards the context has exactly one reply: the fallback Internal "Unhandled request" if it had none, otherwise the previous one |
| `Dispatcher.AnySubnetMatches` | src/httpserver.cpp:160-165 | true exactly when some subnet of the list matches the address |
| `Dispatcher.ClientAllowed` | src/httpserver.cpp:156-166 | allowed exactly when the address is valid and some allowed subnet matches it |
| `Dispatcher.Dispatch` | src/httpserver.cpp:254-310 | gates in order: Forbidden, then BadMethod, then NotFound, then Internal "Work queue depth exceeded"; every rejection leaves the queue unchanged; queued exactly when all four pass, and then the item with the route's handler and sub-path is appended |
| `Dispatcher.DisallowedPeerForbidden` | src/httpserver.cpp:254-260 | a peer that no subnet matches is answered Forbidden with the queue unchanged, whatever its method and URI |
| `Dispatcher.OverloadScenario` | src/httpserver.cpp:293-306 | with depth 1: a first request is queued, a second is refused "Work queue depth exceeded", and after a worker takes the first, a third is queued |
| `Server.RunWorkItem` | src/httpserver.cpp:63 | after the handler runs on the item's sub-path and context and the item is destroyed, the context has exactly one reply: the handler's, or the fallback |
| `Server.HttpServer.constructor` | src/httpserver.cpp:140-153 | before Init there is no transport server, no queue and no allow list |
| `Server.HttpServer.Init` | src/httpserver.cpp:396-456 | startup succeeds exactly when the allow list is valid, the transport server is created and binding the endpoints chosen by `BindEndpoints` leaves some socket bound; then the listening endpoints are `BoundSockets` of those and the queue is new, empty and running with the clamped depth; on failure nothing changes |
| `Server.HttpServer.OnRequest` | src/httpserver.cpp:221-316 | needs a command the transport lets through (`Allowed`); after an interrupt, ServiceUnavailable with no context; otherwise the verdict and the new queue are those of `Dispatch`; a rejected request has exactly that one reply; a queued one has none yet |
| `Server.HttpServer.ReplyNow` | src/httpserver.cpp:258-308 | a reply written at dispatch changes no queued context |
| `Server.HttpServer.EnqueueNew` | src/httpserver.cpp:298-300 | queueing a new, unanswered context keeps every queued context unanswered and distinct |
| `Server.HttpServer.WorkerRun` | src/httpserver.cpp:105-121 | a worker on a stopped queue exits and touches no item; on a running queue it serves every item front first, each ending with exactly one reply, until the queue is empty |
| `Server.HttpServer.Interrupt` | src/httpserver.cpp:487-496 | installs the reject-all callback if the transport server exists and interrupts the queue if it exists; queued items stay |
| `Server.HttpServer.Stop` | src/httpserver.cpp:498-528 | needs an interrupted queue; every item still queued ends with exactly one reply, the fallback; the queue, the listening endpoints and the transport server are gone; the allow list and the installed callback stay |
| `Server.ShutdownScenario` | src/httpserver.cpp:487-528 | a request queued when the server is interrupted receives the fallback reply exactly once when it stops |

## Left out

- `StartHTTPServer` is not modelled, because threads are not. The worker count it would use is `Config.AtLeastOne` of -rpcthreads as intended, or `Config.WorkerThreadsAsWritten` as written.
- Threads, the mutex and the condition variable: a worker that would wait on an empty running queue gets `Blocked`, and `WorkerRun` returns there. Thread creation, thread names and joins are not modelled; `Stop` instead requires that the queue was interrupted.
- Calls into the transport (libevent) are not modelled: the event base, `evhttp` settings, `HTTPEvent` and its callback, `evhttp_send_reply` and `evhttp_send_error`, and the bufferevent read/write workaround. A reply handed to the event loop is an entry in the ghost log `scheduled`. The reply sent by the reject-all callback is the `Verdict` that `OnRequest` returns.
- `ReadBody`, `GetHeader`, `GetAllHeaders`, `GetPeer` and `GetURI` are thin accessors; their results are inputs. The reply body is carried in the scheduled reply rather than in an output buffer.
- `InitHTTPAllowList`, subnet parsing and matching, and address lookups belong to the network layer. Their results are parameters.
- Logging, tracing, `libevent_log_cb`, `UpdateHTTPServerLogging` and `SanitizeString` only produce output.
- Option lookups, the timeouts and the header and body size limits are not modelled. Their values only configure the transport.
- The transport calls that unbind sockets and free transport objects in `StopHTTPServer` are left out. The model only records that no endpoint is listening any more (`boundSockets`) and that the transport server is gone (`hasEventHttp`).
- Whether an endpoint binds is decided by the transport and the operating system. It is the parameter `binds`, which sees the endpoint and the endpoints bound before it, not the rest of the system.
- Handler bodies are opaque. A handler is the reply it writes for its sub-path and its request context, or none; how it reads the body and headers is not modelled. A handler that writes two replies is excluded by `WriteReply`'s precondition.
- The order in which `Stop` releases the remaining items is not modelled. Each item ends with its own fallback reply.
- `Server.HttpServer.Init`: a failed start keeps the old allow list. The code rebuilds the allow list before the transport server is created and before binding, so a start that fails later leaves the new list behind. No operation looks at the allow list while the transport server does not exist.
- `Server.HttpServer.Init` uses the intended clamp `Config.AtLeastOne`, not the code as written; see Findings.

## Findings

| source | as written | input that shows it | evidently intended | confidence | as-written member | corrected member |
|---|---|---|---|---|---|---|
| src/httpserver.cpp:447-451 | `int workQueueDepth = std::max((long)..., 1L)` stores the clamped 64-bit value in an `int`, so large values wrap | `-rpcworkqueue=4294967296`: the clamp keeps 4294967296, the `int` holds 0, and the queue refuses every request | a depth of at least 1 | not executed; assumes 64-bit `long` and modular narrowing | `Config.WorkQueueDepthAsWritten`, `Config.WorkQueueDepthAsWrittenCanBeZero` | `Config.AtLeastOne` |
| src/httpserver.cpp:477-484 | `int rpcThreads = std::max((long)..., 1L)` narrows the same way | `-rpcthreads=4294967296`: the `int` holds 0, so no worker starts and queued requests are never served | at least 1 worker thread | not executed; assumes 64-bit `long` and modular narrowing | `Config.WorkerThreadsAsWritten`, `Config.WorkerThreadsAsWrittenCanBeZero` | `Config.AtLeastOne` |
