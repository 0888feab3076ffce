/**
 * Configuration arithmetic of the server: the clamps on the work-queue depth
 * and the worker-thread count, the C++ integer conversions they pass through,
 * and the rule that chooses the listening endpoints.
 */
module Config {

  /** A 64-bit signed integer, the type in which option values are read. */
  newtype Int64 = x: int | -0x8000_0000_0000_0000 <= x < 0x8000_0000_0000_0000

  const INT32_MIN: int := -0x8000_0000
  const INT32_MAX: int := 0x7fff_ffff

  /** Conversion of an integer to a 32-bit `int`: two's-complement wrap-around. */
  function NarrowToInt(v: int): (r: int)
    ensures INT32_MIN <= r <= INT32_MAX
    ensures (v - r) % 0x1_0000_0000 == 0
    ensures INT32_MIN <= v <= INT32_MAX ==> r == v
  {
    (v - INT32_MIN) % 0x1_0000_0000 + INT32_MIN
  }

  /** Conversion of an integer to `size_t` (64 bits): reduction modulo 2^64. */
  function ToSizeT(v: int): (r: nat)
    ensures r < 0x1_0000_0000_0000_0000
    ensures (v - r) % 0x1_0000_0000_0000_0000 == 0
    ensures 0 <= v < 0x1_0000_0000_0000_0000 ==> r == v
  {
    v % 0x1_0000_0000_0000_0000
  }

  /** Conversion of an integer to `uint16_t`: reduction modulo 2^16. */
  function ToUInt16(v: int): (r: nat)
    ensures r < 0x1_0000
    ensures (v - r) % 0x1_0000 == 0
    ensures 0 <= v < 0x1_0000 ==> r == v
  {
    v % 0x1_0000
  }

  /**
   * `std::max(v, 1L)` on the option value: the configured value, but never
   * below 1. This is the depth of the work queue and the number of worker
   * threads the code means to use.
   */
  function AtLeastOne(v: int): (r: int)
    ensures r >= 1 && r >= v
    ensures r == v || r == 1
  {
    if v < 1 then 1 else v
  }

  // ---- The clamps as the code writes them: the clamped `long` is stored in an `int`.

  /**
   * The depth the work queue is built with: the clamped value stored in an
   * `int`, then passed as `size_t`. It agrees with the clamp modulo 2^32,
   * and equals it whenever the clamp fits an `int`.
   */
  function WorkQueueDepthAsWritten(arg: Int64): (r: nat)
    ensures r < 0x1_0000_0000_0000_0000
    ensures (r - AtLeastOne(arg as int)) % 0x1_0000_0000 == 0
    ensures AtLeastOne(arg as int) <= INT32_MAX ==> r == AtLeastOne(arg as int)
  {
    var n := NarrowToInt(AtLeastOne(arg as int));
    var r := ToSizeT(n);
    assert (r - n) % 0x1_0000_0000 == 0 by {
      assert (n - r) % 0x1_0000_0000_0000_0000 == 0;
      var k := (n - r) / 0x1_0000_0000_0000_0000;
      assert n - r == k * 0x1_0000_0000_0000_0000;
      assert r - n == (-k * 0x1_0000_0000) * 0x1_0000_0000;
    }
    r
  }

  /**
   * The number of worker threads started by `for (int i = 0; i < n; i++)`
   * with n the clamped value stored in an `int`: none when n is negative,
   * otherwise n, which agrees with the clamp modulo 2^32 and equals it
   * whenever the clamp fits an `int`.
   */
  function WorkerThreadsAsWritten(arg: Int64): (r: nat)
    ensures r <= INT32_MAX
    ensures r == 0 || (r - AtLeastOne(arg as int)) % 0x1_0000_0000 == 0
    ensures AtLeastOne(arg as int) <= INT32_MAX ==> r == AtLeastOne(arg as int)
  {
    var n := NarrowToInt(AtLeastOne(arg as int));
    if n < 0 then 0 else n
  }

  /** An option value of 2^32 is clamped to itself and then wraps to a depth of 0. */
  lemma WorkQueueDepthAsWrittenCanBeZero()
    ensures WorkQueueDepthAsWritten(0x1_0000_0000) == 0
  {
  }

  /** The same value starts no worker thread at all. */
  lemma WorkerThreadsAsWrittenCanBeZero()
    ensures WorkerThreadsAsWritten(0x1_0000_0000) == 0
  {
  }

  /** The code as written agrees with the intended clamp on every value that fits an `int`. */
  lemma AsWrittenAgreesBelowIntMax(arg: Int64)
    requires arg as int <= INT32_MAX
    ensures WorkQueueDepthAsWritten(arg) == AtLeastOne(arg as int)
    ensures WorkerThreadsAsWritten(arg) == AtLeastOne(arg as int)
  {
  }

  // ---- Choosing the endpoints to listen on (HTTPBindAddresses).

  datatype Endpoint = Endpoint(host: string, port: nat)

  /**
   * The endpoints to bind. Unless both -rpcallowip and -rpcbind are given,
   * only the two loopback addresses on the RPC port; otherwise one endpoint
   * per -rpcbind value, in order, each split into host and port by
   * `splitHostPort` (whose port argument is the default port). Ports are
   * stored as `uint16_t`; the RPC port passes through an `int` first.
   */
  function BindEndpoints(allowIpSet: bool, bindSet: bool, bindArgs: seq<string>, rpcPort: Int64,
                         splitHostPort: (string, int) -> (string, int)): (r: seq<Endpoint>)
    ensures !(allowIpSet && bindSet) ==>
      r == [Endpoint("::1", ToUInt16(NarrowToInt(rpcPort as int))),
            Endpoint("127.0.0.1", ToUInt16(NarrowToInt(rpcPort as int)))]
    ensures allowIpSet && bindSet ==> (
      && |r| == |bindArgs|
      && forall i :: 0 <= i < |bindArgs| ==>
           var (host, port) := splitHostPort(bindArgs[i], NarrowToInt(rpcPort as int));
           r[i] == Endpoint(host, ToUInt16(port)))
  {
    var httpPort := NarrowToInt(rpcPort as int);
    if !(allowIpSet && bindSet) then
      [Endpoint("::1", ToUInt16(httpPort)), Endpoint("127.0.0.1", ToUInt16(httpPort))]
    else
      SplitAll(bindArgs, httpPort, splitHostPort)
  }

  /** One endpoint per bind specification. */
  function SplitAll(bindArgs: seq<string>, defaultPort: int,
                    splitHostPort: (string, int) -> (string, int)): (r: seq<Endpoint>)
    ensures |r| == |bindArgs|
    ensures forall i :: 0 <= i < |bindArgs| ==>
      var (host, port) := splitHostPort(bindArgs[i], defaultPort);
      r[i] == Endpoint(host, ToUInt16(port))
  {
    if bindArgs == [] then []
    else
      var (host, port) := splitHostPort(bindArgs[0], defaultPort);
      [Endpoint(host, ToUInt16(port))] + SplitAll(bindArgs[1..], defaultPort, splitHostPort)
  }

  /** Without -rpcallowip the server never listens on anything but a loopback address. */
  lemma LoopbackUnlessAllowIp(bindSet: bool, bindArgs: seq<string>, rpcPort: Int64,
                              splitHostPort: (string, int) -> (string, int))
    ensures forall e :: e in BindEndpoints(false, bindSet, bindArgs, rpcPort, splitHostPort) ==>
      e.host == "::1" || e.host == "127.0.0.1"
  {
  }

  // ---- Binding the chosen endpoints.

  /**
   * Whether binding an endpoint succeeds is up to the operating system, and
   * depends on what is bound already: `binds(bound, e)` says whether `e`
   * binds when the endpoints in `bound` have been bound before it.
   */
  type Binder = (seq<Endpoint>, Endpoint) -> bool

  /**
   * Binding `endpoints` in turn after `bound`: each endpoint that binds is
   * appended. Only endpoints that were tried are added, each one bound in
   * the state left by those before it; nothing is added exactly when every
   * endpoint fails against `bound`.
   */
  function BindFrom(bound: seq<Endpoint>, endpoints: seq<Endpoint>, binds: Binder): (r: seq<Endpoint>)
    ensures bound <= r && |r| <= |bound| + |endpoints|
    ensures forall i :: |bound| <= i < |r| ==> r[i] in endpoints && binds(r[..i], r[i])
    ensures r == bound <==> forall i :: 0 <= i < |endpoints| ==> !binds(bound, endpoints[i])
    decreases |endpoints|
  {
    if endpoints == [] then bound
    else
      var next := if binds(bound, endpoints[0]) then bound + [endpoints[0]] else bound;
      var r := BindFrom(next, endpoints[1..], binds);
      assert forall i :: 1 <= i < |endpoints| ==> endpoints[i] == endpoints[1..][i - 1];
      assert next != bound ==> r[..|bound|] == bound && r[|bound|] == endpoints[0];
      r
  }

  /** The sockets HTTPBindAddresses ends with: the endpoints bound, starting from none. */
  function BoundSockets(endpoints: seq<Endpoint>, binds: Binder): (r: seq<Endpoint>)
    ensures |r| <= |endpoints|
    ensures forall i :: 0 <= i < |r| ==> r[i] in endpoints && binds(r[..i], r[i])
    ensures r == [] <==> forall i :: 0 <= i < |endpoints| ==> !binds([], endpoints[i])
  {
    BindFrom([], endpoints, binds)
  }

  /**
   * Binding is done endpoint by endpoint: binding `a + b` is binding `a`,
   * then binding `b` on top of what `a` left bound.
   */
  lemma {:induction false} BindFromAppend(bound: seq<Endpoint>, a: seq<Endpoint>, b: seq<Endpoint>, binds: Binder)
    ensures BindFrom(bound, a + b, binds) == BindFrom(BindFrom(bound, a, binds), b, binds)
    decreases |a|
  {
    if a == [] {
      assert a + b == b;
    } else {
      assert (a + b)[0] == a[0];
      assert (a + b)[1..] == a[1..] + b;
      var next := if binds(bound, a[0]) then bound + [a[0]] else bound;
      BindFromAppend(next, a[1..], b, binds);
    }
  }

  /** One endpoint is appended exactly when it binds on top of what is bound. */
  lemma BindFromOne(bound: seq<Endpoint>, e: Endpoint, binds: Binder)
    ensures BindFrom(bound, [e], binds) == if binds(bound, e) then bound + [e] else bound
  {
    assert [e][1..] == [];
  }

  /**
   * A -rpcbind value given twice: when an endpoint that is already bound
   * cannot be bound again, it is listened on once.
   */
  lemma RepeatedEndpointBoundOnce(e: Endpoint)
    ensures BoundSockets([e, e], (bound: seq<Endpoint>, x: Endpoint) => x !in bound) == [e]
  {
    var binds: Binder := (bound: seq<Endpoint>, x: Endpoint) => x !in bound;
    assert [e, e] == [e] + [e];
    BindFromAppend([], [e], [e], binds);
    BindFromOne([], e, binds);
    BindFromOne([e], e, binds);
  }

  /**
   * The loop of HTTPBindAddresses: tries every endpoint in turn and keeps
   * those that bind. The server starts only if the result is not empty.
   */
  method BindAll(endpoints: seq<Endpoint>, binds: Binder) returns (bound: seq<Endpoint>)
    ensures bound == BoundSockets(endpoints, binds)
  {
    bound := [];
    var i := 0;
    while i < |endpoints|
      invariant 0 <= i <= |endpoints|
      invariant BindFrom(bound, endpoints[i..], binds) == BoundSockets(endpoints, binds)
    {
      assert endpoints[i..][0] == endpoints[i];
      assert endpoints[i..][1..] == endpoints[i + 1..];
      if binds(bound, endpoints[i]) {
        bound := bound + [endpoints[i]];
      }
      i := i + 1;
    }
    assert endpoints[i..] == [];
  }
}
