/** The timer a door registers its adapter with. The header declares `Timer`
    as an interface with a single `tregister(int, TimerClient*)`; two
    implementations exist: the firing timer of the library, which waits (its
    `sleep` is empty) and then calls the client back on the calling thread,
    and the demo's `RealTimer`, whose `tregister` does nothing. */
module Timers {
  import opened Outcomes

  /** The two timer strategies. */
  datatype Timer =
    | Synchronous  // fires the client's `Timeout` inside `tregister`
    | Silent       // never calls the client

  /** `Timer::tregister(duration, client)`: the sequence of `Timeout`
      callbacks the registration delivers, in order, before it returns.
      A client is any `TimerClient`, so the timer is generic over its type;
      `None` is a null client pointer. The delay is waited out by `sleep`,
      which has no effect, so the duration plays no part in the result. */
  function Register<C>(timer: Timer, duration: Int32, client: Option<C>): (calls: seq<C>)
    ensures |calls| <= 1
    ensures forall i :: 0 <= i < |calls| ==> client == Some(calls[i])
    ensures |calls| == 1 <==> timer.Synchronous? && client.Some?
  {
    match timer
    case Synchronous =>
      if client.Some? then [client.value] else []
    case Silent =>
      []
  }

  /** The firing timer calls a non-null client back exactly once, and calls
      nothing for a null one. */
  lemma SynchronousFiresOnce<C>(duration: Int32, client: Option<C>)
    ensures client.Some? ==> Register(Synchronous, duration, client) == [client.value]
    ensures client.None? ==> Register(Synchronous, duration, client) == []
  {
  }

  /** `sleep` does nothing: registering with any two durations delivers the
      same callbacks. */
  lemma RegisterIgnoresDuration<C>(timer: Timer, d1: Int32, d2: Int32, client: Option<C>)
    ensures Register(timer, d1, client) == Register(timer, d2, client)
  {
  }
}
