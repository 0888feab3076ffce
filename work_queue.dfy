/**
 * The bounded work queue that hands requests from the event-loop thread to
 * the worker threads (WorkQueue in the source).
 *
 * The queue's behaviour is first given as pure steps on a QueueState value,
 * and properties over whole sequences of steps are proved about those
 * (Replay and the lemmas after it). The class WorkQueue is the mutable
 * object the server uses; each of its methods is tied to one step.
 * The mutex and the condition variable are not modelled: a worker that
 * would wait on an empty running queue receives Blocked instead.
 */
module WorkQueues {

  /** The queue's state: pending items front first, the running flag, the capacity. */
  datatype QueueState<T> = QueueState(items: seq<T>, running: bool, maxDepth: nat)

  /** The queue never holds more items than its capacity. */
  predicate Bounded<T>(q: QueueState<T>)
  {
    |q.items| <= q.maxDepth
  }

  /** What one pass of a worker's loop obtains from the queue. */
  datatype Step<T> =
    | Stop            // the queue is no longer running: the worker exits
    | Blocked         // running but empty: the worker would wait for a notification
    | Item(item: T)   // the front item, now owned by the worker

  /**
   * Enqueue: non-blocking and bounded. Accepted exactly when there is room;
   * an accepted item goes to the back, a refused one leaves the queue as it
   * was. The running flag is not consulted.
   */
  function EnqueueStep<T>(q: QueueState<T>, x: T): (r: (QueueState<T>, bool))
    ensures r.1 <==> |q.items| < q.maxDepth
    ensures r.1 ==> r.0 == q.(items := q.items + [x])
    ensures !r.1 ==> r.0 == q
    ensures Bounded(q) ==> Bounded(r.0)
  {
    if |q.items| >= q.maxDepth then (q, false)
    else (q.(items := q.items + [x]), true)
  }

  /**
   * One iteration of Run: once the queue is not running the worker stops,
   * even if items remain; otherwise it takes the front item, or blocks when
   * there is none.
   */
  function DequeueStep<T>(q: QueueState<T>): (r: (Step<T>, QueueState<T>))
    ensures r.0.Stop? <==> !q.running
    ensures r.0.Blocked? <==> q.running && q.items == []
    ensures r.0.Item? ==> q.items != [] && r.0.item == q.items[0] && r.1 == q.(items := q.items[1..])
    ensures !r.0.Item? ==> r.1 == q
  {
    if !q.running then (Stop, q)
    else if q.items == [] then (Blocked, q)
    else (Item(q.items[0]), q.(items := q.items[1..]))
  }

  /** Interrupt: clears the running flag; the pending items stay where they are. */
  function InterruptStep<T>(q: QueueState<T>): (r: QueueState<T>)
    ensures !r.running && r.items == q.items && r.maxDepth == q.maxDepth
  {
    q.(running := false)
  }

  // ---- Sequences of operations.

  /** An operation on the queue: a producer's Enqueue, a worker's step, an Interrupt. */
  datatype Event<T> = Submit(x: T) | Take | Halt

  /** The state after some events, with the items accepted and the items handed to workers. */
  datatype Trace<T> = Trace(state: QueueState<T>, accepted: seq<T>, served: seq<T>)

  function Apply<T>(t: Trace<T>, e: Event<T>): Trace<T>
  {
    match e
    case Submit(x) =>
      var (q', ok) := EnqueueStep(t.state, x);
      Trace(q', if ok then t.accepted + [x] else t.accepted, t.served)
    case Take =>
      var (s, q') := DequeueStep(t.state);
      Trace(q', t.accepted, if s.Item? then t.served + [s.item] else t.served)
    case Halt =>
      Trace(InterruptStep(t.state), t.accepted, t.served)
  }

  /** Runs the events in order from state q. */
  function Replay<T>(q: QueueState<T>, evs: seq<Event<T>>): Trace<T>
    decreases |evs|
  {
    if evs == [] then Trace(q, [], [])
    else Apply(Replay(q, evs[..|evs| - 1]), evs[|evs| - 1])
  }

  /** Capacity: whatever the events, the queue never exceeds its capacity, which never changes. */
  lemma {:induction false} ReplayBounded<T>(q: QueueState<T>, evs: seq<Event<T>>)
    requires Bounded(q)
    ensures Bounded(Replay(q, evs).state)
    ensures Replay(q, evs).state.maxDepth == q.maxDepth
    decreases |evs|
  {
    if evs != [] {
      ReplayBounded(q, evs[..|evs| - 1]);
    }
  }

  /**
   * FIFO: what the workers have been handed, followed by what is still
   * queued, is exactly what was queued at the start followed by what was
   * accepted since, in the same order.
   */
  lemma {:induction false} ReplayFifo<T>(q: QueueState<T>, evs: seq<Event<T>>)
    ensures Replay(q, evs).served + Replay(q, evs).state.items == q.items + Replay(q, evs).accepted
    decreases |evs|
  {
    if evs != [] {
      var t := Replay(q, evs[..|evs| - 1]);
      ReplayFifo(q, evs[..|evs| - 1]);
      match evs[|evs| - 1]
      case Submit(x) =>
        if |t.state.items| < t.state.maxDepth {
          assert t.served + (t.state.items + [x]) == (t.served + t.state.items) + [x];
        }
      case Take =>
        if t.state.running && t.state.items != [] {
          var s := t.state.items;
          assert (t.served + [s[0]]) + s[1..] == t.served + s;
        }
      case Halt =>
    }
  }

  /** So workers are handed items in the order in which they were accepted. */
  lemma ServedInAcceptedOrder<T>(evs: seq<Event<T>>, maxDepth: nat)
    ensures Replay(QueueState([], true, maxDepth), evs).served <= Replay(QueueState([], true, maxDepth), evs).accepted
  {
    var t := Replay(QueueState([], true, maxDepth), evs);
    ReplayFifo(QueueState([], true, maxDepth), evs);
    assert t.accepted == t.served + t.state.items;
  }

  /**
   * Stop means stop: after an Interrupt the queue stays stopped and no
   * worker is handed another item, even if items remain queued.
   */
  lemma {:induction false} NothingServedAfterHalt<T>(q: QueueState<T>, evs: seq<Event<T>>, k: nat)
    requires k < |evs| && evs[k] == Halt
    ensures !Replay(q, evs).state.running
    ensures Replay(q, evs).served == Replay(q, evs[..k + 1]).served
    decreases |evs|
  {
    if |evs| == k + 1 {
      assert evs[..k + 1] == evs;
    } else {
      var init := evs[..|evs| - 1];
      assert init[..k + 1] == evs[..k + 1];
      NothingServedAfterHalt(q, init, k);
    }
  }

  /** Interrupt is idempotent: a second Interrupt right after the first changes nothing. */
  lemma InterruptIdempotent<T>(q: QueueState<T>, evs: seq<Event<T>>)
    ensures Replay(q, evs + [Halt, Halt]) == Replay(q, evs + [Halt])
  {
    assert (evs + [Halt, Halt])[..|evs| + 1] == evs + [Halt];
    assert (evs + [Halt])[..|evs|] == evs;
  }

  /** The queue object. */
  class WorkQueue<T> {
    var items: seq<T>
    var running: bool
    const maxDepth: nat

    /** The abstract state of the object. */
    function State(): QueueState<T>
      reads this
    {
      QueueState(items, running, maxDepth)
    }

    ghost predicate Valid()
      reads this
    {
      Bounded(State())
    }

    /** A new queue is empty and running. */
    constructor (maxDepth: nat)
      ensures Valid() && State() == QueueState([], true, maxDepth)
    {
      this.items := [];
      this.running := true;
      this.maxDepth := maxDepth;
    }

    /** Appends the item if there is room; reports whether it was accepted. */
    method Enqueue(item: T) returns (accepted: bool)
      requires Valid()
      modifies this
      ensures Valid()
      ensures accepted <==> |old(items)| < maxDepth
      ensures (State(), accepted) == EnqueueStep(old(State()), item)
    {
      if |items| >= maxDepth {
        return false;
      }
      items := items + [item];
      accepted := true;
    }

    /** The body of one iteration of a worker's loop. */
    method TryDequeue() returns (s: Step<T>)
      requires Valid()
      modifies this
      ensures Valid()
      ensures (s, State()) == DequeueStep(old(State()))
    {
      if !running {
        return Stop;
      }
      if items == [] {
        return Blocked;
      }
      s := Item(items[0]);
      items := items[1..];
    }

    /** Makes every worker's next step a Stop. */
    method Interrupt()
      requires Valid()
      modifies this
      ensures Valid()
      ensures State() == InterruptStep(old(State()))
    {
      running := false;
    }
  }
}
