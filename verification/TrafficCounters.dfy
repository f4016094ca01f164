/** The counters every request task and the sampler share, one atomic operation at a time. */
module TrafficCounting {
  import opened Wrappers
  import opened RingBuffers
  import opened Percentile

  datatype Outcome = Outcome(latencyUs: U64, isError: bool)

  // What one tick of the sampler reads, and what it then publishes.
  datatype Tick = Tick(active: I64, rps: U64, eps: U64, p99Us: int)

  // The shared state: three atomics, the ring, and the provider's totals and gauges.
  datatype Counters = Counters(
    inFlight: I64, requests: U64, errors: U64, ring: Ring,
    requestsTotal: nat, errorsTotal: nat, gauges: Tick)

  const NO_GAUGES := Tick(0, 0, 0, 0)

  function Fresh(): Counters {
    Counters(0, 0, 0, Empty(RING_CAPACITY), 0, 0, NO_GAUGES)
  }

  // ---- One atomic operation each ----

  function Enter(c: Counters): Counters {
    c.(inFlight := WrapI64(c.inFlight + 1))
  }

  function Release(c: Counters): Counters {
    c.(inFlight := WrapI64(c.inFlight - 1))
  }

  function CountRequest(c: Counters): Counters {
    c.(requests := WrapU64(c.requests + 1))
  }

  function TotalRequest(c: Counters): Counters {
    c.(requestsTotal := c.requestsTotal + 1)
  }

  function CountError(c: Counters): Counters {
    c.(errors := WrapU64(c.errors + 1))
  }

  function TotalError(c: Counters): Counters {
    c.(errorsTotal := c.errorsTotal + 1)
  }

  function Record(c: Counters, latencyUs: U64): Counters
    requires |c.ring.buf| > 0
  {
    c.(ring := Pushed(c.ring, latencyUs))
  }

  // `on_end` with nobody else running in between.
  function Ended(c: Counters, o: Outcome): Counters
    requires |c.ring.buf| > 0
  {
    var c := TotalRequest(CountRequest(Release(c)));
    Record(if o.isError then TotalError(CountError(c)) else c, o.latencyUs)
  }

  function DrainRequests(c: Counters): Counters {
    c.(requests := 0)
  }

  function DrainErrors(c: Counters): Counters {
    c.(errors := 0)
  }

  function Publish(c: Counters, t: Tick): Counters {
    c.(gauges := t)
  }

  // One tick with nobody else running in between.
  function TickOf(c: Counters): Tick {
    Tick(c.inFlight, c.requests, c.errors, P99(c.ring.buf))
  }

  function Sampled(c: Counters): Counters {
    Publish(DrainErrors(DrainRequests(c)), TickOf(c))
  }

  class TrafficCounters {
    var requestsInFlight: I64
    var requestsSinceTick: U64
    var errorsSinceTick: U64
    const latencyRing: RingBuffer
    var requestsTotal: nat
    var errorsTotal: nat
    var gauges: Tick

    ghost predicate Valid()
      reads this, latencyRing
    {
      latencyRing.buf.Length > 0
    }

    ghost function Model(): Counters
      reads this, latencyRing, latencyRing.buf
    {
      Counters(requestsInFlight, requestsSinceTick, errorsSinceTick, latencyRing.Model(),
               requestsTotal, errorsTotal, gauges)
    }

    constructor ()
      ensures Valid() && Model() == Fresh()
      ensures fresh(latencyRing) && fresh(latencyRing.buf)
    {
      requestsInFlight, requestsSinceTick, errorsSinceTick := 0, 0, 0;
      requestsTotal, errorsTotal, gauges := 0, 0, NO_GAUGES;
      latencyRing := new RingBuffer(RING_CAPACITY);
    }

    method OnStart()
      modifies this`requestsInFlight
      ensures Model() == Enter(old(Model()))
    {
      requestsInFlight := WrapI64(requestsInFlight + 1);
    }

    method OnEnd(latencyUs: U64, isError: bool)
      requires Valid()
      modifies this, latencyRing, latencyRing.buf
      ensures Valid() && Model() == Ended(old(Model()), Outcome(latencyUs, isError))
    {
      requestsInFlight := WrapI64(requestsInFlight - 1);
      requestsSinceTick := WrapU64(requestsSinceTick + 1);
      requestsTotal := requestsTotal + 1;
      if isError {
        errorsSinceTick := WrapU64(errorsSinceTick + 1);
        errorsTotal := errorsTotal + 1;
      }
      latencyRing.Push(latencyUs);
    }

    // The body of the sampler's endless loop.
    method SampleOnce() returns (t: Tick)
      requires Valid()
      modifies this
      ensures Valid() && t == TickOf(old(Model())) && Model() == Sampled(old(Model()))
    {
      var active := requestsInFlight;
      var rps := requestsSinceTick;
      requestsSinceTick := 0;
      var eps := errorsSinceTick;
      errorsSinceTick := 0;
      var p99 := latencyRing.P99Us();
      t := Tick(active, rps, eps, p99);
      gauges := t;
    }
  }

  // `HttpLoadMonitor::handle` and both `GrpcLoadMonitor` methods run to completion: the
  // inner call's result comes back unchanged, and exactly one start and one end are counted.
  method Handle<T>(counters: TrafficCounters, inner: Result<T, string>, elapsedUs: U64)
    returns (result: Result<T, string>)
    requires counters.Valid()
    modifies counters, counters.latencyRing, counters.latencyRing.buf
    ensures counters.Valid() && result == inner
    ensures counters.Model() == Ended(Enter(old(counters.Model())), Outcome(elapsedUs, inner.Err?))
  {
    counters.OnStart();
    result := inner;
    counters.OnEnd(elapsedUs, result.Err?);
  }
}
