/** Every interleaving of request tasks with the sampler, and the laws that survive all of them. */
module LoadAccounting {
  import opened Wrappers
  import opened RingBuffers
  import opened Percentile
  import opened TrafficCounting
  import opened LoadStack

  // Where a call is. The phases between Open and Done are the atomic operations of `on_end`;
  // a dropped future never gets there. Calls that pass no monitor go from Open to Done.
  datatype Phase =
    | Open
    | Released(o: Outcome)
    | Counted(o: Outcome)
    | Totalled(o: Outcome)
    | ErrorCounted(o: Outcome)
    | ErrorTotalled(o: Outcome)
    | Done(o: Outcome)
    | Dropped

  // Which requests pass a load monitor; the decorator stack decides it (module LoadStack).
  type Passes = Request -> bool

  datatype Call = Call(req: Request, monitored: bool, phase: Phase)

  // The sampler between two of its operations.
  datatype Sampler =
    | Idle
    | Loaded(active: I64)
    | DrainedRequests(active: I64, rps: U64)
    | DrainedErrors(active: I64, rps: U64, eps: U64)
    | Measured(tick: Tick)

  // The shared counters, all calls so far, and what an observer of the sampler has seen:
  // `drained*` sum the swapped values and `*Wraps` say how often a counter overflowed.
  datatype State = State(
    c: Counters, calls: seq<Call>, sampler: Sampler,
    drainedRequests: nat, drainedErrors: nat, requestWraps: nat, errorWraps: nat,
    latencies: seq<nat>, ticks: seq<Tick>)

  datatype Step =
    | Arrive(req: Request)
    | Finish(i: nat, o: Outcome)
    | Advance(i: nat)
    | Drop(i: nat)
    | Sample

  function Init(): State {
    State(Fresh(), [], Idle, 0, 0, 0, 0, [], [])
  }

  predicate Enabled(s: State, step: Step) {
    match step
    case Arrive(_) => true
    case Finish(i, _) => i < |s.calls| && s.calls[i].phase.Open?
    case Drop(i) => i < |s.calls| && s.calls[i].phase.Open?
    case Advance(i) => i < |s.calls| && Ending(s.calls[i].phase)
    case Sample => |s.c.ring.buf| > 0
  }

  // Inside `on_end`, which has no await point and so cannot be dropped.
  predicate Ending(p: Phase) {
    !p.Open? && !p.Done? && !p.Dropped?
  }

  // The seven atomic operations a call performs, named by the milestone they leave behind.
  datatype Milestone = AtStart | AtRelease | AtRequest | AtTotal | AtError | AtErrorTotal | AtRing

  function Perform(c: Counters, m: Milestone, o: Outcome): Counters
    requires |c.ring.buf| > 0
  {
    match m
    case AtStart => Enter(c)
    case AtRelease => Release(c)
    case AtRequest => CountRequest(c)
    case AtTotal => TotalRequest(c)
    case AtError => CountError(c)
    case AtErrorTotal => TotalError(c)
    case AtRing => Record(c, o.latencyUs)
  }

  // The operation a step performs for its call, if any.
  function Performs(call: Call, step: Step): Option<Milestone>
    requires step.Finish? || step.Drop? || (step.Advance? && Ending(call.phase))
  {
    if !call.monitored || step.Drop? then None
    else if step.Finish? then Some(AtRelease)
    else match call.phase
      case Released(_) => Some(AtRequest)
      case Counted(_) => Some(AtTotal)
      case Totalled(o) => Some(if o.isError then AtError else AtRing)
      case ErrorCounted(_) => Some(AtErrorTotal)
      case ErrorTotalled(_) => Some(AtRing)
  }

  function NextPhase(call: Call, step: Step): (p: Phase)
    requires step.Finish? || step.Drop? || (step.Advance? && Ending(call.phase))
    ensures !step.Drop? ==> !p.Open? && !p.Dropped?
  {
    match step
    case Drop(_) => Dropped
    case Finish(_, o) => if call.monitored then Released(o) else Done(o)
    case Advance(_) =>
      match call.phase
      case Released(o) => Counted(o)
      case Counted(o) => Totalled(o)
      case Totalled(o) => if o.isError then ErrorCounted(o) else Done(o)
      case ErrorCounted(o) => ErrorTotalled(o)
      case ErrorTotalled(o) => Done(o)
  }

  function Next(passes: Passes, s: State, step: Step): State
    requires Enabled(s, step) && |s.c.ring.buf| > 0
  {
    match step
    case Arrive(req) =>
      var m := passes(req);
      s.(calls := s.calls + [Call(req, m, Open)], c := if m then Enter(s.c) else s.c)
    case Sample => SamplerStep(s)
    case _ => CallStep(s, step, step.i)
  }

  function CallStep(s: State, step: Step, i: nat): State
    requires StepOf(step, i) && Enabled(s, step) && |s.c.ring.buf| > 0
  {
    var call := s.calls[i];
    var p := NextPhase(call, step);
    var t := s.(calls := s.calls[i := call.(phase := p)]);
    if Performs(call, step).None? then t else WithOperation(t, Performs(call, step).value, p.o)
  }

  predicate StepOf(step: Step, i: nat) {
    (step.Finish? || step.Drop? || step.Advance?) && step.i == i
  }

  // The shared state after one operation, and the history that goes with it.
  function WithOperation(t: State, m: Milestone, o: Outcome): State
    requires |t.c.ring.buf| > 0
  {
    t.(c := Perform(t.c, m, o),
       requestWraps := t.requestWraps + if m.AtRequest? && t.c.requests == 0xFFFF_FFFF_FFFF_FFFF then 1 else 0,
       errorWraps := t.errorWraps + if m.AtError? && t.c.errors == 0xFFFF_FFFF_FFFF_FFFF then 1 else 0,
       latencies := if m.AtRing? then t.latencies + [o.latencyUs] else t.latencies)
  }

  function SamplerStep(s: State): State {
    match s.sampler
    case Idle => s.(sampler := Loaded(s.c.inFlight))
    case Loaded(active) =>
      s.(sampler := DrainedRequests(active, s.c.requests), c := DrainRequests(s.c),
         drainedRequests := s.drainedRequests + s.c.requests)
    case DrainedRequests(active, rps) =>
      s.(sampler := DrainedErrors(active, rps, s.c.errors), c := DrainErrors(s.c),
         drainedErrors := s.drainedErrors + s.c.errors)
    case DrainedErrors(active, rps, eps) =>
      s.(sampler := Measured(Tick(active, rps, eps, P99(s.c.ring.buf))))
    case Measured(t) =>
      s.(sampler := Idle, c := Publish(s.c, t), ticks := s.ticks + [t])
  }

  // The state after a run, or None when some step was not possible.
  function Run(passes: Passes, steps: seq<Step>): (r: Option<State>)
    ensures r.Some? ==> |r.value.c.ring.buf| == RING_CAPACITY
  {
    if steps == [] then Some(Init())
    else
      var prev := Run(passes, steps[..|steps| - 1]);
      var step := steps[|steps| - 1];
      if prev.Some? && Enabled(prev.value, step) then Some(Next(passes, prev.value, step)) else None
  }

  // ---- Counting calls by how far they got ----

  // How many operations of the monitor a call is past.
  function Rank(p: Phase): nat {
    match p
    case Open => 0
    case Dropped => 0
    case Released(_) => 1
    case Counted(_) => 2
    case Totalled(_) => 3
    case ErrorCounted(_) => 4
    case ErrorTotalled(_) => 5
    case Done(_) => 6
  }

  function Needed(m: Milestone): nat {
    match m
    case AtStart => 0
    case AtRelease => 1
    case AtRequest => 2
    case AtTotal => 3
    case AtError => 4
    case AtErrorTotal => 5
    case AtRing => 6
  }

  predicate Reached(call: Call, m: Milestone) {
    && call.monitored
    && Rank(call.phase) >= Needed(m)
    && (m.AtError? || m.AtErrorTotal? ==> call.phase.o.isError)
  }

  function Count(calls: seq<Call>, m: Milestone): nat {
    if calls == [] then 0
    else Count(calls[..|calls| - 1], m) + if Reached(calls[|calls| - 1], m) then 1 else 0
  }

  function Bit(call: Call, m: Milestone): nat {
    if Reached(call, m) then 1 else 0
  }

  lemma {:induction false} CountMoved(calls: seq<Call>, i: nat, call: Call, m: Milestone)
    requires i < |calls|
    ensures Count(calls[i := call], m) == Count(calls, m) - Bit(calls[i], m) + Bit(call, m)
  {
    var n := |calls| - 1;
    if i < n {
      CountMoved(calls[..n], i, call, m);
      assert calls[i := call][..n] == calls[..n][i := call];
    } else {
      assert calls[i := call][..n] == calls[..n];
    }
  }

  lemma {:induction false} CountAppended(calls: seq<Call>, call: Call, m: Milestone)
    ensures Count(calls + [call], m) == Count(calls, m) + Bit(call, m)
  {}

  // Every call past one milestone is past the other.
  ghost predicate Implies(a: Milestone, b: Milestone) {
    forall call: Call :: Reached(call, a) ==> Reached(call, b)
  }

  lemma {:induction false} CountMonotone(calls: seq<Call>, a: Milestone, b: Milestone)
    requires Implies(a, b)
    ensures Count(calls, a) <= Count(calls, b)
  {
    if calls == [] {
    } else {
      CountMonotone(calls[..|calls| - 1], a, b);
    }
  }

  // ---- The invariant of every run ----

  ghost predicate FlightAgrees(s: State) {
    s.c.inFlight == WrapI64(Count(s.calls, AtStart) - Count(s.calls, AtRelease))
  }

  ghost predicate RequestsAgree(s: State) {
    && s.drainedRequests + s.c.requests + Lost(s.requestWraps) == Count(s.calls, AtRequest)
    && s.c.requestsTotal == Count(s.calls, AtTotal)
  }

  ghost predicate ErrorsAgree(s: State) {
    && s.drainedErrors + s.c.errors + Lost(s.errorWraps) == Count(s.calls, AtError)
    && s.c.errorsTotal == Count(s.calls, AtErrorTotal)
  }

  ghost predicate RingAgrees(s: State) {
    && s.c.ring == After(RING_CAPACITY, s.latencies)
    && |s.latencies| == Count(s.calls, AtRing)
  }

  // A phase inside `on_end` has an error behind it only in a call that failed.
  ghost predicate CallAgrees(passes: Passes, call: Call) {
    && call.monitored == passes(call.req)
    && (Ending(call.phase) ==> call.monitored)
    && (call.phase.ErrorCounted? || call.phase.ErrorTotalled? ==> call.phase.o.isError)
  }

  ghost predicate CallsAgree(passes: Passes, calls: seq<Call>) {
    forall i :: 0 <= i < |calls| ==> CallAgrees(passes, calls[i])
  }

  // What a 64-bit counter forgets when it overflows.
  function Lost(wraps: nat): nat {
    0x1_0000_0000_0000_0000 * wraps
  }

  function SumRps(ticks: seq<Tick>): nat {
    if ticks == [] then 0 else SumRps(ticks[..|ticks| - 1]) + ticks[|ticks| - 1].rps
  }

  function SumEps(ticks: seq<Tick>): nat {
    if ticks == [] then 0 else SumEps(ticks[..|ticks| - 1]) + ticks[|ticks| - 1].eps
  }

  // Swapped out of the counters but not published yet.
  function HeldRps(p: Sampler): nat {
    if p.DrainedRequests? || p.DrainedErrors? then p.rps else if p.Measured? then p.tick.rps else 0
  }

  function HeldEps(p: Sampler): nat {
    if p.DrainedErrors? then p.eps else if p.Measured? then p.tick.eps else 0
  }

  // What was drained is what the gauges have shown plus what the sampler still holds.
  ghost predicate SamplerAgrees(s: State) {
    && s.drainedRequests == SumRps(s.ticks) + HeldRps(s.sampler)
    && s.drainedErrors == SumEps(s.ticks) + HeldEps(s.sampler)
    && s.c.gauges == if s.ticks == [] then NO_GAUGES else s.ticks[|s.ticks| - 1]
  }

  ghost predicate Laws(s: State) {
    FlightAgrees(s) && RequestsAgree(s) && ErrorsAgree(s) && RingAgrees(s) && SamplerAgrees(s)
  }

  ghost predicate Inv(passes: Passes, s: State) {
    Laws(s) && CallsAgree(passes, s.calls)
  }

  lemma {:induction false} NextKeepsInv(passes: Passes, s: State, step: Step)
    requires Inv(passes, s) && Enabled(s, step)
    ensures Inv(passes, Next(passes, s, step))
  {
    match step
    case Arrive(req) => ArriveKeepsInv(passes, s, req);
    case Finish(i, _) => MoveKeepsInv(passes, s, step, i);
    case Drop(i) => MoveKeepsInv(passes, s, step, i);
    case Advance(i) => MoveKeepsInv(passes, s, step, i);
    case Sample => SampleKeepsLaws(s);
  }

  lemma {:induction false} SampleKeepsLaws(s: State)
    requires Laws(s)
    ensures Laws(SamplerStep(s))
  {
    SampleKeepsCounters(s);
    SampleKeepsTicks(s);
  }

  lemma {:induction false} SampleKeepsCounters(s: State)
    requires FlightAgrees(s) && RequestsAgree(s) && ErrorsAgree(s) && RingAgrees(s)
    ensures var t := SamplerStep(s); FlightAgrees(t) && RequestsAgree(t) && ErrorsAgree(t) && RingAgrees(t)
  {}

  lemma {:induction false} SampleKeepsTicks(s: State)
    requires SamplerAgrees(s)
    ensures SamplerAgrees(SamplerStep(s))
  {}

  lemma {:induction false} ArriveKeepsInv(passes: Passes, s: State, req: Request)
    requires Inv(passes, s)
    ensures Inv(passes, Next(passes, s, Arrive(req)))
  {
    var call := Call(req, passes(req), Open);
    var t := Next(passes, s, Arrive(req));
    forall m: Milestone
      ensures Count(t.calls, m) == Count(s.calls, m) + if m.AtStart? && call.monitored then 1 else 0
    {
      CountAppended(s.calls, call, m);
    }
    ArriveKeepsFlight(s, t, call.monitored);
    ArriveKeepsRest(s, t, call.monitored);
    ArriveKeepsCalls(passes, s.calls, call);
  }

  lemma {:induction false} ArriveKeepsFlight(s: State, t: State, monitored: bool)
    requires FlightAgrees(s) && t.c == if monitored then Enter(s.c) else s.c
    requires Count(t.calls, AtStart) == Count(s.calls, AtStart) + if monitored then 1 else 0
    requires Count(t.calls, AtRelease) == Count(s.calls, AtRelease)
    ensures FlightAgrees(t)
  {
    WrapI64Steps(Count(s.calls, AtStart) - Count(s.calls, AtRelease));
  }

  lemma {:induction false} ArriveKeepsRest(s: State, t: State, monitored: bool)
    requires Laws(s) && t == s.(calls := t.calls, c := if monitored then Enter(s.c) else s.c)
    requires forall m: Milestone :: !m.AtStart? ==> Count(t.calls, m) == Count(s.calls, m)
    ensures RequestsAgree(t) && ErrorsAgree(t) && RingAgrees(t) && SamplerAgrees(t)
  {}

  lemma {:induction false} ArriveKeepsCalls(passes: Passes, calls: seq<Call>, call: Call)
    requires CallsAgree(passes, calls) && call.phase.Open? && call.monitored == passes(call.req)
    ensures CallsAgree(passes, calls + [call])
  {}

  lemma {:induction false} WrapI64Steps(x: int)
    ensures WrapI64(WrapI64(x) + 1) == WrapI64(x + 1)
    ensures WrapI64(WrapI64(x) - 1) == WrapI64(x - 1)
  {}

  // A step of a call passes exactly the milestone of the operation it performs.
  lemma {:induction false} PassesItsMilestone(passes: Passes, call: Call, step: Step, m: Milestone)
    requires step.Finish? || step.Drop? ==> call.phase.Open?
    requires step.Finish? || step.Drop? || (step.Advance? && Ending(call.phase))
    requires CallAgrees(passes, call)
    ensures var call' := call.(phase := NextPhase(call, step));
      && CallAgrees(passes, call')
      && Bit(call', m) == Bit(call, m) + if Performs(call, step) == Some(m) then 1 else 0
  {}

  lemma {:induction false} MoveKeepsInv(passes: Passes, s: State, step: Step, i: nat)
    requires Inv(passes, s) && Enabled(s, step) && StepOf(step, i)
    ensures Inv(passes, CallStep(s, step, i))
  {
    var call := s.calls[i];
    var p := NextPhase(call, step);
    var t := s.(calls := s.calls[i := call.(phase := p)]);
    forall m: Milestone
      ensures Count(t.calls, m) == Count(s.calls, m) + if Performs(call, step) == Some(m) then 1 else 0
      ensures CallAgrees(passes, t.calls[i])
    {
      PassesItsMilestone(passes, call, step, m);
      CountMoved(s.calls, i, t.calls[i], m);
    }
    assert Performs(call, step) != Some(AtStart);
    match Performs(call, step)
    case None => SameCountsKeepLaws(s, t);
    case Some(m) => OperationKeepsLaws(s, t, m, p.o);
  }

  lemma {:induction false} SameCountsKeepLaws(s: State, t: State)
    requires Laws(s) && t == s.(calls := t.calls)
    requires forall m: Milestone :: Count(t.calls, m) == Count(s.calls, m)
    ensures Laws(t)
  {}

  // t is s with one more call past milestone m.
  ghost predicate OneMore(s: State, t: State, m: Milestone) {
    && t == s.(calls := t.calls) && m != AtStart
    && forall k: Milestone :: Count(t.calls, k) == Count(s.calls, k) + if m == k then 1 else 0
  }

  // Performing m restores every law.
  lemma {:induction false} OperationKeepsLaws(s: State, t: State, m: Milestone, o: Outcome)
    requires Laws(s) && OneMore(s, t, m)
    ensures Laws(WithOperation(t, m, o))
  {
    OperationKeepsCounters(s, t, m, o);
    OperationKeepsRing(s, t, m, o);
  }

  lemma {:induction false} OperationKeepsCounters(s: State, t: State, m: Milestone, o: Outcome)
    requires FlightAgrees(s) && RequestsAgree(s) && ErrorsAgree(s)
    requires OneMore(s, t, m) && |t.c.ring.buf| > 0
    ensures var u := WithOperation(t, m, o); FlightAgrees(u) && RequestsAgree(u) && ErrorsAgree(u)
  {
    OperationKeepsFlight(s, t, m, o);
    OperationKeepsRequests(s, t, m, o);
    OperationKeepsErrors(s, t, m, o);
  }

  lemma {:induction false} OperationKeepsFlight(s: State, t: State, m: Milestone, o: Outcome)
    requires FlightAgrees(s) && OneMore(s, t, m) && |t.c.ring.buf| > 0
    ensures FlightAgrees(WithOperation(t, m, o))
  {
    WrapI64Steps(Count(s.calls, AtStart) - Count(s.calls, AtRelease));
  }

  lemma {:induction false} OperationKeepsRequests(s: State, t: State, m: Milestone, o: Outcome)
    requires RequestsAgree(s) && OneMore(s, t, m) && |t.c.ring.buf| > 0
    ensures RequestsAgree(WithOperation(t, m, o))
  {}

  lemma {:induction false} OperationKeepsErrors(s: State, t: State, m: Milestone, o: Outcome)
    requires ErrorsAgree(s) && OneMore(s, t, m) && |t.c.ring.buf| > 0
    ensures ErrorsAgree(WithOperation(t, m, o))
  {}

  lemma {:induction false} OperationKeepsRing(s: State, t: State, m: Milestone, o: Outcome)
    requires RingAgrees(s) && OneMore(s, t, m)
    ensures RingAgrees(WithOperation(t, m, o))
  {}

  lemma {:induction false} EveryRunKeepsInv(passes: Passes, steps: seq<Step>)
    requires Run(passes, steps).Some?
    ensures Inv(passes, Run(passes, steps).value)
  {
    if steps == [] {
      InitInv(passes);
    } else {
      var prev := Run(passes, steps[..|steps| - 1]).value;
      EveryRunKeepsInv(passes, steps[..|steps| - 1]);
      NextKeepsInv(passes, prev, steps[|steps| - 1]);
    }
  }

  lemma {:induction false} InitInv(passes: Passes)
    ensures Inv(passes, Init())
  {
    NothingYet(passes, Init());
  }

  lemma {:induction false} NothingYet(passes: Passes, s: State)
    requires s.calls == [] && s.latencies == [] && s.ticks == [] && s.sampler.Idle?
    requires s.drainedRequests == s.drainedErrors == s.requestWraps == s.errorWraps == 0
    requires s.c.inFlight == s.c.requests == s.c.errors == s.c.requestsTotal == s.c.errorsTotal == 0
    requires s.c.ring == Empty(RING_CAPACITY) && s.c.gauges == NO_GAUGES
    ensures Inv(passes, s)
  {}

  // ---- Main results, for every interleaving ----

  // Per counter: shown by the gauges, held by the sampler, pending, and wrapped away add up to
  // the calls past the counting step; nothing is wrapped away below 2^64 of them.
  lemma {:induction false} RequestsConserved(passes: Passes, steps: seq<Step>)
    requires Run(passes, steps).Some?
    ensures var s := Run(passes, steps).value;
      && SumRps(s.ticks) + HeldRps(s.sampler) + s.c.requests + Lost(s.requestWraps) == Count(s.calls, AtRequest)
      && (Count(s.calls, AtRequest) < TWO_64 ==> s.requestWraps == 0)
  {
    EveryRunKeepsInv(passes, steps);
  }

  lemma {:induction false} ErrorsConserved(passes: Passes, steps: seq<Step>)
    requires Run(passes, steps).Some?
    ensures var s := Run(passes, steps).value;
      && SumEps(s.ticks) + HeldEps(s.sampler) + s.c.errors + Lost(s.errorWraps) == Count(s.calls, AtError)
      && (Count(s.calls, AtError) < TWO_64 ==> s.errorWraps == 0)
  {
    EveryRunKeepsInv(passes, steps);
  }

  // Across counters: this one needs the steps to be sequentially consistent.
  lemma {:induction false} ErrorsNeverOvertakeRequests(passes: Passes, steps: seq<Step>)
    requires Run(passes, steps).Some?
    ensures var s := Run(passes, steps).value;
      && s.drainedErrors + s.c.errors + Lost(s.errorWraps) <= s.drainedRequests + s.c.requests + Lost(s.requestWraps)
      && (Count(s.calls, AtRequest) < TWO_64 ==>
            SumEps(s.ticks) <= SumRps(s.ticks) + HeldRps(s.sampler) + s.c.requests)
  {
    EveryRunKeepsInv(passes, steps);
    ErrorsBehindRequests(Run(passes, steps).value);
  }

  lemma {:induction false} ErrorsBehindRequests(s: State)
    requires RequestsAgree(s) && ErrorsAgree(s) && SamplerAgrees(s)
    ensures s.drainedErrors + s.c.errors + Lost(s.errorWraps) <= s.drainedRequests + s.c.requests + Lost(s.requestWraps)
    ensures Count(s.calls, AtRequest) < TWO_64 ==>
      SumEps(s.ticks) <= SumRps(s.ticks) + HeldRps(s.sampler) + s.c.requests
  {
    CountMonotone(s.calls, AtError, AtRequest);
  }

  // Yet one tick may: a call counted before a tick can report its error after it.
  lemma {:induction false} OneTickMayShowMoreErrors(passes: Passes, req: Request)
    requires passes(req)
    ensures exists steps :: Run(passes, steps).Some? && var s := Run(passes, steps).value;
      |s.ticks| == 2 && s.ticks[1].eps > s.ticks[1].rps
  {
    var steps := LateErrorRun(passes, req);
  }

  lemma {:induction false} LateErrorRun(passes: Passes, req: Request) returns (steps: seq<Step>)
    requires passes(req)
    ensures Run(passes, steps).Some?
    ensures var s := Run(passes, steps).value; |s.ticks| == 2 && s.ticks[1].eps > s.ticks[1].rps
  {
    steps := CallEnding(passes, req);
    steps := TickBetweenCounters(passes, req, steps);
    steps := LateError(passes, req, steps);
    steps := SampleTick(passes, steps);
  }

  const LATE := Outcome(7, true)

  // Nothing is counted but the call that is in the given phase.
  ghost predicate OnlyCall(s: State, req: Request, phase: Phase) {
    s.calls == [Call(req, true, phase)] && s.c.requests == 0 && s.sampler.Idle?
  }

  lemma {:induction false} CallEnding(passes: Passes, req: Request) returns (steps: seq<Step>)
    requires passes(req)
    ensures Run(passes, steps).Some?
    ensures var s := Run(passes, steps).value;
      OnlyCall(s, req, Released(LATE)) && s.c.errors == 0 && s.ticks == []
  {
    steps := Extend(passes, [], Arrive(req));
    steps := Extend(passes, steps, Finish(0, LATE));
  }

  lemma {:induction false} TickBetweenCounters(passes: Passes, req: Request, steps: seq<Step>) returns (more: seq<Step>)
    requires Run(passes, steps).Some?
    requires var s := Run(passes, steps).value;
      OnlyCall(s, req, Released(LATE)) && s.c.errors == 0 && s.ticks == []
    ensures Run(passes, more).Some?
    ensures var s := Run(passes, more).value;
      OnlyCall(s, req, Counted(LATE)) && s.c.errors == 0 && |s.ticks| == 1
  {
    more := Extend(passes, steps, Advance(0));
    more := SampleTick(passes, more);
  }

  lemma {:induction false} LateError(passes: Passes, req: Request, steps: seq<Step>) returns (more: seq<Step>)
    requires Run(passes, steps).Some?
    requires var s := Run(passes, steps).value;
      OnlyCall(s, req, Counted(LATE)) && s.c.errors == 0 && |s.ticks| == 1
    ensures Run(passes, more).Some?
    ensures var s := Run(passes, more).value;
      OnlyCall(s, req, ErrorCounted(LATE)) && s.c.errors == 1 && |s.ticks| == 1
  {
    var s := Run(passes, steps).value;
    LateTotal(s, req);
    LateCount(CallStep(s, Advance(0), 0), req);
    more := Extend(passes, steps, Advance(0));
    more := Extend(passes, more, Advance(0));
  }

  lemma {:induction false} LateTotal(s: State, req: Request)
    requires OnlyCall(s, req, Counted(LATE)) && |s.c.ring.buf| > 0
    ensures var t := CallStep(s, Advance(0), 0);
      && OnlyCall(t, req, Totalled(LATE)) && t.c.errors == s.c.errors && t.ticks == s.ticks
      && t.c.ring == s.c.ring
  {}

  lemma {:induction false} LateCount(s: State, req: Request)
    requires OnlyCall(s, req, Totalled(LATE)) && s.c.errors == 0 && |s.c.ring.buf| > 0
    ensures var t := CallStep(s, Advance(0), 0);
      OnlyCall(t, req, ErrorCounted(LATE)) && t.c.errors == 1 && t.ticks == s.ticks
  {}

  lemma {:induction false} Extend(passes: Passes, steps: seq<Step>, step: Step) returns (more: seq<Step>)
    requires Run(passes, steps).Some? && Enabled(Run(passes, steps).value, step)
    ensures more == steps + [step]
    ensures Run(passes, more) == Some(Next(passes, Run(passes, steps).value, step))
  {
    more := steps + [step];
    assert more[..|more| - 1] == steps;
  }

  // A whole tick with no request task in between is the body of the sampler's loop.
  lemma {:induction false} SampleTick(passes: Passes, steps: seq<Step>) returns (more: seq<Step>)
    requires Run(passes, steps).Some? && Run(passes, steps).value.sampler.Idle?
    ensures Run(passes, more).Some?
    ensures var s, t := Run(passes, steps).value, Run(passes, more).value;
      && t.c == Sampled(s.c) && t.ticks == s.ticks + [TickOf(s.c)]
      && t.calls == s.calls && t.sampler.Idle?
  {
    var s := Run(passes, steps).value;
    FiveStepsAreATick(s);
    more := Extend(passes, steps, Sample);
    more := Extend(passes, more, Sample);
    more := Extend(passes, more, Sample);
    more := Extend(passes, more, Sample);
    more := Extend(passes, more, Sample);
  }

  lemma {:induction false} FiveStepsAreATick(s: State)
    requires s.sampler.Idle?
    ensures var t := SamplerStep(SamplerStep(SamplerStep(SamplerStep(SamplerStep(s)))));
      && t.c == Sampled(s.c) && t.ticks == s.ticks + [TickOf(s.c)]
      && t.calls == s.calls && t.sampler.Idle?
  {}

  // `on_end` with nobody in between: the steps of one call add up to the method's effect.
  function Uninterrupted(s: State, i: nat): State
    requires i < |s.calls| && |s.c.ring.buf| > 0
    decreases 6 - Rank(s.calls[i].phase)
  {
    if Ending(s.calls[i].phase) && s.calls[i].monitored
    then Uninterrupted(CallStep(s, Advance(i), i), i)
    else s
  }

  lemma {:induction false} OnEndIsItsSteps(s: State, i: nat, o: Outcome)
    requires i < |s.calls| && s.calls[i].phase.Open? && s.calls[i].monitored && |s.c.ring.buf| > 0
    ensures Uninterrupted(CallStep(s, Finish(i, o), i), i).c == Ended(s.c, o)
  {
    var s1 := CallStep(s, Finish(i, o), i);
    var s2 := CallStep(s1, Advance(i), i);
    var s3 := CallStep(s2, Advance(i), i);
    assert s3.c == TotalRequest(CountRequest(Release(s.c)));
    var s4 := CallStep(s3, Advance(i), i);
    if o.isError {
      var s5 := CallStep(s4, Advance(i), i);
      var s6 := CallStep(s5, Advance(i), i);
      assert Uninterrupted(s5, i) == s6;
      assert Uninterrupted(s3, i) == Uninterrupted(s4, i) == s6;
    } else {
      assert Uninterrupted(s3, i) == s4;
    }
    assert Uninterrupted(s1, i) == Uninterrupted(s2, i) == Uninterrupted(s3, i);
  }

  // ---- Counting calls with a property ----

  function CountIf(calls: seq<Call>, p: Call -> bool): nat {
    if calls == [] then 0
    else CountIf(calls[..|calls| - 1], p) + if p(calls[|calls| - 1]) then 1 else 0
  }

  lemma {:induction false} CountIfMoved(calls: seq<Call>, i: nat, call: Call, p: Call -> bool)
    requires i < |calls|
    ensures CountIf(calls[i := call], p) + (if p(calls[i]) then 1 else 0) == CountIf(calls, p) + if p(call) then 1 else 0
  {
    var n := |calls| - 1;
    if i < n {
      CountIfMoved(calls[..n], i, call, p);
      assert calls[i := call][..n] == calls[..n][i := call];
    } else {
      assert calls[i := call][..n] == calls[..n];
    }
  }

  lemma {:induction false} CountIfAppended(calls: seq<Call>, call: Call, p: Call -> bool)
    ensures CountIf(calls + [call], p) == CountIf(calls, p) + if p(call) then 1 else 0
  {
    assert (calls + [call])[..|calls|] == calls;
  }

  lemma {:induction false} CountIfNone(calls: seq<Call>, p: Call -> bool)
    ensures CountIf(calls, p) == 0 <==> forall i :: 0 <= i < |calls| ==> !p(calls[i])
  {
    if calls == [] {
    } else {
      CountIfNone(calls[..|calls| - 1], p);
    }
  }

  // The steps a call can make from its phase.
  predicate Moves(call: Call, step: Step) {
    || ((step.Finish? || step.Drop?) && call.phase.Open?)
    || (step.Advance? && Ending(call.phase))
  }

  // A property no step takes away from a call.
  ghost predicate Lasting(p: Call -> bool) {
    forall call: Call, step: Step :: Moves(call, step) && p(call) ==> p(call.(phase := NextPhase(call, step)))
  }

  lemma {:induction false} StepKeepsLasting(passes: Passes, s: State, step: Step, p: Call -> bool)
    requires Lasting(p) && Enabled(s, step) && |s.c.ring.buf| > 0
    ensures CountIf(s.calls, p) <= CountIf(Next(passes, s, step).calls, p)
  {
    match step
    case Arrive(req) => CountIfAppended(s.calls, Call(req, passes(req), Open), p);
    case Sample =>
    case _ =>
      var call := s.calls[step.i];
      assert Moves(call, step);
      CountIfMoved(s.calls, step.i, call.(phase := NextPhase(call, step)), p);
  }

  lemma {:induction false} RunKeepsLasting(passes: Passes, steps: seq<Step>, more: seq<Step>, p: Call -> bool)
    requires Lasting(p) && Run(passes, steps).Some? && Run(passes, steps + more).Some?
    ensures CountIf(Run(passes, steps).value.calls, p) <= CountIf(Run(passes, steps + more).value.calls, p)
  {
    if more == [] {
      assert steps + more == steps;
    } else {
      var n := |more| - 1;
      Shorter(passes, steps, more);
      RunKeepsLasting(passes, steps, more[..n], p);
      StepKeepsLasting(passes, Run(passes, steps + more[..n]).value, more[n], p);
    }
  }

  // A run that goes on was possible up to its last step.
  lemma {:induction false} Shorter(passes: Passes, steps: seq<Step>, more: seq<Step>)
    requires more != [] && Run(passes, steps + more).Some?
    ensures var prev := Run(passes, steps + more[..|more| - 1]);
      && prev.Some? && Enabled(prev.value, more[|more| - 1])
      && Run(passes, steps + more) == Some(Next(passes, prev.value, more[|more| - 1]))
  {
    assert (steps + more)[..|steps + more| - 1] == steps + more[..|more| - 1];
  }

  // ---- In flight: open calls, and dropped ones for ever ----

  predicate Live(call: Call) {
    call.monitored && call.phase.Open?
  }

  predicate Gone(call: Call) {
    call.monitored && call.phase.Dropped?
  }

  predicate Unfinished(call: Call) {
    Live(call) || Gone(call)
  }

  lemma {:induction false} UnfinishedIsEnteredMinusEnded(calls: seq<Call>)
    ensures CountIf(calls, Unfinished) == Count(calls, AtStart) - Count(calls, AtRelease)
    ensures CountIf(calls, Unfinished) == CountIf(calls, Live) + CountIf(calls, Gone)
  {
    if calls == [] {
    } else {
      UnfinishedIsEnteredMinusEnded(calls[..|calls| - 1]);
    }
  }

  // The in-flight gauge counts open calls plus dropped ones.
  lemma {:induction false} InFlightCountsOpenAndDropped(passes: Passes, steps: seq<Step>)
    requires Run(passes, steps).Some?
    ensures var s := Run(passes, steps).value;
      && s.c.inFlight == WrapI64(CountIf(s.calls, Live) + CountIf(s.calls, Gone))
      && (CountIf(s.calls, Unfinished) < TWO_63 <==> s.c.inFlight == CountIf(s.calls, Live) + CountIf(s.calls, Gone))
  {
    EveryRunFlight(passes, steps);
    FlightIsUnfinished(Run(passes, steps).value);
  }

  lemma {:induction false} EveryRunFlight(passes: Passes, steps: seq<Step>)
    requires Run(passes, steps).Some?
    ensures FlightAgrees(Run(passes, steps).value)
  {
    EveryRunKeepsInv(passes, steps);
  }

  lemma {:induction false} FlightIsUnfinished(s: State)
    requires FlightAgrees(s)
    ensures CountIf(s.calls, Unfinished) == CountIf(s.calls, Live) + CountIf(s.calls, Gone)
    ensures s.c.inFlight == WrapI64(CountIf(s.calls, Unfinished))
    ensures CountIf(s.calls, Unfinished) < TWO_63 <==> s.c.inFlight == CountIf(s.calls, Unfinished)
  {
    UnfinishedIsEnteredMinusEnded(s.calls);
    WrapI64Exact(CountIf(s.calls, Unfinished));
  }

  lemma {:induction false} WrapI64Exact(n: nat)
    ensures WrapI64(n) == n <==> n < TWO_63
  {}

  // It is the number of calls in progress exactly while no monitored call was ever dropped.
  lemma {:induction false} InFlightIsOpenIff(passes: Passes, steps: seq<Step>)
    requires Run(passes, steps).Some? && CountIf(Run(passes, steps).value.calls, Unfinished) < TWO_63
    ensures var s := Run(passes, steps).value;
      s.c.inFlight == CountIf(s.calls, Live) <==> forall i :: 0 <= i < |s.calls| ==> !Gone(s.calls[i])
  {
    EveryRunFlight(passes, steps);
    FlightIsUnfinished(Run(passes, steps).value);
    CountIfNone(Run(passes, steps).value.calls, Gone);
  }

  // The shortest run on which it is not: one call, dropped.
  lemma {:induction false} DroppedCallStaysInFlight(passes: Passes, req: Request) returns (steps: seq<Step>)
    requires passes(req)
    ensures steps == [Arrive(req), Drop(0)] && Run(passes, steps).Some?
    ensures var s := Run(passes, steps).value; s.c.inFlight == 1 && CountIf(s.calls, Live) == 0
  {
    var first := Extend(passes, [], Arrive(req));
    var s := Next(passes, Init(), Arrive(req));
    assert s.calls == [Call(req, true, Open)] && s.c.inFlight == 1;
    DropTheOnly(s, req);
    steps := Extend(passes, first, Drop(0));
    assert Run(passes, steps) == Some(CallStep(s, Drop(0), 0));
  }

  lemma {:induction false} DropTheOnly(s: State, req: Request)
    requires s.calls == [Call(req, true, Open)] && |s.c.ring.buf| > 0
    ensures var t := CallStep(s, Drop(0), 0); t.c == s.c && CountIf(t.calls, Live) == 0
  {
    var t := CallStep(s, Drop(0), 0);
    assert t.calls == [Call(req, true, Dropped)];
    CountIfNone(t.calls, Live);
  }

  // A dropped call stays dropped, so the gauge never comes down to the calls in progress again.
  lemma {:induction false} DroppedForGood(passes: Passes, steps: seq<Step>, more: seq<Step>, i: nat)
    requires Run(passes, steps).Some? && Run(passes, steps + more).Some?
    requires i < |Run(passes, steps).value.calls| && Run(passes, steps).value.calls[i].phase.Dropped?
    ensures var later := Run(passes, steps + more).value.calls;
      i < |later| && later[i] == Run(passes, steps).value.calls[i]
  {
    if more == [] {
      assert steps + more == steps;
    } else {
      Shorter(passes, steps, more);
      DroppedForGood(passes, steps, more[..|more| - 1], i);
    }
  }

  // ---- How many more errors than requests a tick can show ----

  // A failed call between its request step and its error step.
  predicate Late(call: Call) {
    call.monitored && (call.phase.Counted? || call.phase.Totalled?) && call.phase.o.isError
  }

  predicate Asked(call: Call) {
    Reached(call, AtRequest)
  }

  predicate Sound(call: Call) {
    Asked(call) && !call.phase.o.isError
  }

  lemma {:induction false} RequestsSplit(calls: seq<Call>)
    ensures Count(calls, AtRequest) == CountIf(calls, Asked)
    ensures Count(calls, AtRequest) == CountIf(calls, Sound) + CountIf(calls, Late) + Count(calls, AtError)
  {
    if calls == [] {
    } else {
      RequestsSplit(calls[..|calls| - 1]);
    }
  }

  // From any state of a run to any later one, the errors counted meanwhile are at most the
  // requests counted meanwhile and the late calls at its beginning; what is late at its end
  // comes off that.
  lemma {:induction false} ErrorsMeanwhile(passes: Passes, steps: seq<Step>, more: seq<Step>)
    requires Run(passes, steps).Some? && Run(passes, steps + more).Some?
    ensures var s, t := Run(passes, steps).value.calls, Run(passes, steps + more).value.calls;
      && Count(t, AtError) - Count(s, AtError) + CountIf(t, Late)
           <= Count(t, AtRequest) - Count(s, AtRequest) + CountIf(s, Late)
      && Count(s, AtRequest) <= Count(t, AtRequest)
  {
    RequestsSplit(Run(passes, steps).value.calls);
    RequestsSplit(Run(passes, steps + more).value.calls);
    RunKeepsLasting(passes, steps, more, Asked);
    RunKeepsLasting(passes, steps, more, Sound);
  }

  ghost predicate NoOverflow(s: State, t: State) {
    t.requestWraps == s.requestWraps && t.errorWraps == s.errorWraps
  }

  // What the sampler drained is what it published plus what it holds, tick by tick.
  lemma {:induction false} OneTickFurther(passes: Passes, steps: seq<Step>, more: seq<Step>)
    requires Run(passes, steps).Some? && Run(passes, steps + more).Some?
    requires Run(passes, steps).value.sampler.DrainedErrors?
    ensures var s, t := Run(passes, steps).value, Run(passes, steps + more).value;
      && |s.ticks| <= |t.ticks|
      && (|t.ticks| == |s.ticks| ==>
            && t.ticks == s.ticks && (t.sampler.DrainedErrors? || t.sampler.Measured?)
            && HeldRps(t.sampler) == HeldRps(s.sampler) && HeldEps(t.sampler) == HeldEps(s.sampler))
      && (|t.ticks| == |s.ticks| + 1 ==>
            && SumRps(t.ticks) == SumRps(s.ticks) + HeldRps(s.sampler)
            && SumEps(t.ticks) == SumEps(s.ticks) + HeldEps(s.sampler))
  {
    if more == [] {
      assert steps + more == steps;
    } else {
      var n := |more| - 1;
      Shorter(passes, steps, more);
      OneTickFurther(passes, steps, more[..n]);
      PublishedGrows(passes, Run(passes, steps + more[..n]).value, more[n]);
    }
  }

  lemma {:induction false} PublishedGrows(passes: Passes, s: State, step: Step)
    requires Enabled(s, step) && |s.c.ring.buf| > 0
    ensures var t := Next(passes, s, step);
      if step.Sample? && s.sampler.Measured?
      then |t.ticks| == |s.ticks| + 1 && SumRps(t.ticks) == SumRps(s.ticks) + HeldRps(s.sampler)
           && SumEps(t.ticks) == SumEps(s.ticks) + HeldEps(s.sampler)
      else
        && t.ticks == s.ticks
        && (s.sampler.DrainedErrors? || s.sampler.Measured? ==>
              && (t.sampler.DrainedErrors? || t.sampler.Measured?)
              && HeldRps(t.sampler) == HeldRps(s.sampler) && HeldEps(t.sampler) == HeldEps(s.sampler))
  {
    if step.Sample? && s.sampler.Measured? {
      assert (s.ticks + [s.sampler.tick])[..|s.ticks|] == s.ticks;
    }
  }

  // In every interleaving, a tick shows at most as many errors as requests, and besides those
  // only the errors that were late or pending when the tick before was drained, and those of
  // requests that slipped in between its own two swaps.
  lemma {:induction false} TickExcess(passes: Passes, steps: seq<Step>, more: seq<Step>)
    requires Run(passes, steps).Some? && Run(passes, steps + more).Some?
    requires var s, t := Run(passes, steps).value, Run(passes, steps + more).value;
      s.sampler.DrainedErrors? && t.sampler.DrainedErrors? && |t.ticks| == |s.ticks| + 1 && NoOverflow(s, t)
    ensures var s, t := Run(passes, steps).value, Run(passes, steps + more).value;
      t.sampler.eps + t.c.errors + CountIf(t.calls, Late) + s.c.requests
        <= t.sampler.rps + t.c.requests + CountIf(s.calls, Late) + s.c.errors
  {
    EveryRunKeepsInv(passes, steps);
    EveryRunKeepsInv(passes, steps + more);
    OneTickFurther(passes, steps, more);
    ErrorsMeanwhile(passes, steps, more);
    ExcessOf(Run(passes, steps).value, Run(passes, steps + more).value);
  }

  lemma {:induction false} ExcessOf(s: State, t: State)
    requires RequestsAgree(s) && ErrorsAgree(s) && SamplerAgrees(s) && s.sampler.DrainedErrors?
    requires RequestsAgree(t) && ErrorsAgree(t) && SamplerAgrees(t) && t.sampler.DrainedErrors?
    requires SumRps(t.ticks) == SumRps(s.ticks) + HeldRps(s.sampler) && NoOverflow(s, t)
    requires SumEps(t.ticks) == SumEps(s.ticks) + HeldEps(s.sampler)
    requires Count(t.calls, AtError) - Count(s.calls, AtError) + CountIf(t.calls, Late)
               <= Count(t.calls, AtRequest) - Count(s.calls, AtRequest) + CountIf(s.calls, Late)
    ensures t.sampler.eps + t.c.errors + CountIf(t.calls, Late) + s.c.requests
        <= t.sampler.rps + t.c.requests + CountIf(s.calls, Late) + s.c.errors
  {}

  // ---- Exactly when the next undisturbed tick can show more errors than requests ----

  predicate NoSample(steps: seq<Step>) {
    forall k :: 0 <= k < |steps| ==> !steps[k].Sample?
  }

  // Going on from a run without the sampler, a tick at the end would show more errors.
  ghost predicate Overtakes(passes: Passes, steps: seq<Step>, more: seq<Step>) {
    && Run(passes, steps).Some? && Run(passes, steps + more).Some?
    && NoOverflow(Run(passes, steps).value, Run(passes, steps + more).value)
    && var tick := TickOf(Run(passes, steps + more).value.c); tick.eps > tick.rps
  }

  lemma {:induction false} SamplerUntouched(passes: Passes, steps: seq<Step>, more: seq<Step>)
    requires Run(passes, steps).Some? && Run(passes, steps + more).Some? && NoSample(more)
    ensures var s, t := Run(passes, steps).value, Run(passes, steps + more).value;
      && t.drainedRequests == s.drainedRequests && t.drainedErrors == s.drainedErrors
      && t.sampler == s.sampler && t.ticks == s.ticks
  {
    if more == [] {
      assert steps + more == steps;
    } else {
      Shorter(passes, steps, more);
      SamplerUntouched(passes, steps, more[..|more| - 1]);
    }
  }

  lemma {:induction false} OvertakingNeedsLate(passes: Passes, steps: seq<Step>, more: seq<Step>)
    requires NoSample(more) && Overtakes(passes, steps, more)
    ensures var s := Run(passes, steps).value;
      s.c.requests < s.c.errors + CountIf(s.calls, Late) && s.c.requests < TWO_64 - 1
  {
    EveryRunKeepsInv(passes, steps);
    EveryRunKeepsInv(passes, steps + more);
    SamplerUntouched(passes, steps, more);
    ErrorsMeanwhile(passes, steps, more);
  }

  // A late call moves on without anything but its own error being counted.
  lemma {:induction false} LateMoves(s: State, i: nat)
    requires i < |s.calls| && Late(s.calls[i]) && s.c.errors < TWO_64 - 1 && |s.c.ring.buf| > 0
    ensures var t := CallStep(s, Advance(i), i);
      && t.c.requests == s.c.requests && NoOverflow(s, t)
      && (if s.calls[i].phase.Totalled?
          then t.c.errors == s.c.errors + 1 && CountIf(t.calls, Late) + 1 == CountIf(s.calls, Late)
          else t.c.errors == s.c.errors && CountIf(t.calls, Late) == CountIf(s.calls, Late)
               && Late(t.calls[i]) && t.calls[i].phase.Totalled?)
  {
    var call := s.calls[i];
    CountIfMoved(s.calls, i, call.(phase := NextPhase(call, Advance(i))), Late);
  }

  lemma {:induction false} LateStep(passes: Passes, steps: seq<Step>, s: State, i: nat)
    requires Run(passes, steps) == Some(s) && i < |s.calls| && Late(s.calls[i])
    ensures Run(passes, steps + [Advance(i)]) == Some(CallStep(s, Advance(i), i))
  {
    var more := Extend(passes, steps, Advance(i));
  }

  lemma {:induction false} Regroup(steps: seq<Step>, a: seq<Step>, b: seq<Step>)
    requires NoSample(a) && NoSample(b)
    ensures steps + (a + b) == (steps + a) + b && NoSample(a + b)
  {}

  lemma {:induction false} LateArrives(passes: Passes, steps: seq<Step>, s: State, i: nat)
    returns (more: seq<Step>, t: State)
    requires Run(passes, steps) == Some(s) && i < |s.calls| && Late(s.calls[i]) && s.c.errors < TWO_64 - 1
    ensures NoSample(more) && Run(passes, steps + more) == Some(t)
    ensures NoOverflow(s, t) && t.c.errors == s.c.errors + 1 && t.c.requests == s.c.requests
    ensures CountIf(t.calls, Late) + 1 == CountIf(s.calls, Late)
  {
    var first := [Advance(i)];
    var u := CallStep(s, Advance(i), i);
    LateStep(passes, steps, s, i);
    LateMoves(s, i);
    if s.calls[i].phase.Totalled? {
      more, t := first, u;
    } else {
      LateStep(passes, steps + first, u, i);
      LateMoves(u, i);
      Regroup(steps, first, first);
      more, t := first + first, CallStep(u, Advance(i), i);
    }
  }

  lemma {:induction false} LateOvertakes(passes: Passes, steps: seq<Step>, s: State)
    returns (more: seq<Step>, t: State)
    requires Run(passes, steps) == Some(s)
    requires s.c.requests < s.c.errors + CountIf(s.calls, Late) && s.c.requests < TWO_64 - 1
    ensures NoSample(more) && Run(passes, steps + more) == Some(t)
    ensures NoOverflow(s, t) && t.c.errors > t.c.requests
    decreases CountIf(s.calls, Late)
  {
    if s.c.errors > s.c.requests {
      more, t := [], s;
      assert steps + more == steps;
    } else {
      var i := SomeLate(s.calls);
      var first, u := LateArrives(passes, steps, s, i);
      var rest: seq<Step>;
      rest, t := LateOvertakes(passes, steps + first, u);
      Regroup(steps, first, rest);
      more := first + rest;
    }
  }

  lemma {:induction false} SomeLate(calls: seq<Call>) returns (i: nat)
    requires CountIf(calls, Late) > 0
    ensures i < |calls| && Late(calls[i])
  {
    CountIfNone(calls, Late);
    i :| 0 <= i < |calls| && Late(calls[i]);
  }

  // After any run, the next tick can show more errors than requests exactly when the pending
  // errors and the late calls outnumber the pending requests.
  lemma {:induction false} NextTickIff(passes: Passes, steps: seq<Step>)
    requires Run(passes, steps).Some?
    ensures var s := Run(passes, steps).value;
      (exists more :: NoSample(more) && Overtakes(passes, steps, more)) <==>
        s.c.requests < s.c.errors + CountIf(s.calls, Late) && s.c.requests < TWO_64 - 1
  {
    var s := Run(passes, steps).value;
    if s.c.requests < s.c.errors + CountIf(s.calls, Late) && s.c.requests < TWO_64 - 1 {
      var more, t := LateOvertakes(passes, steps, s);
      assert Overtakes(passes, steps, more);
    }
    forall more | NoSample(more) && Overtakes(passes, steps, more)
      ensures s.c.requests < s.c.errors + CountIf(s.calls, Late) && s.c.requests < TWO_64 - 1
    {
      OvertakingNeedsLate(passes, steps, more);
    }
  }

  // So right after an undisturbed tick, it is exactly when a failed call was late then.
  lemma {:induction false} TickAfterTickIff(passes: Passes, steps: seq<Step>) returns (ticked: seq<Step>)
    requires Run(passes, steps).Some? && Run(passes, steps).value.sampler.Idle?
    ensures Run(passes, ticked).Some?
    ensures var s, t := Run(passes, steps).value, Run(passes, ticked).value;
      && t.c == Sampled(s.c) && t.ticks == s.ticks + [TickOf(s.c)] && t.calls == s.calls && t.sampler.Idle?
    ensures (exists more :: NoSample(more) && Overtakes(passes, ticked, more)) <==>
      exists i :: 0 <= i < |Run(passes, steps).value.calls| && Late(Run(passes, steps).value.calls[i])
  {
    ticked := SampleTick(passes, steps);
    NextTickIff(passes, ticked);
    CountIfNone(Run(passes, steps).value.calls, Late);
  }

  // Calls that came back and were to be counted.
  function CountServed(passes: Passes, calls: seq<Call>): nat {
    if calls == [] then 0
    else
      var call := calls[|calls| - 1];
      CountServed(passes, calls[..|calls| - 1]) +
      if call.phase.Done? && passes(call.req) then 1 else 0
  }

  predicate Quiet(calls: seq<Call>) {
    forall i :: 0 <= i < |calls| ==> !Ending(calls[i].phase)
  }

  lemma {:induction false} ServedIsTotalled(passes: Passes, calls: seq<Call>)
    requires CallsAgree(passes, calls)
    ensures CountServed(passes, calls) == Count(calls, AtRing) <= Count(calls, AtTotal)
    ensures Quiet(calls) ==> CountServed(passes, calls) == Count(calls, AtTotal)
  {
    if calls == [] {
    } else {
      var n := |calls| - 1;
      ServedIsTotalled(passes, calls[..n]);
      assert CallAgrees(passes, calls[n]);
    }
  }

  lemma {:induction false} TotalCountsServedCalls(passes: Passes, steps: seq<Step>)
    requires Run(passes, steps).Some?
    ensures var s := Run(passes, steps).value;
      && CountServed(passes, s.calls) <= s.c.requestsTotal
      && (Quiet(s.calls) ==> s.c.requestsTotal == CountServed(passes, s.calls))
  {
    EveryRunKeepsInv(passes, steps);
    ServedIsTotalled(passes, Run(passes, steps).value.calls);
  }

  // The same count under two descriptions of which calls matter.
  lemma {:induction false} CountServedAgrees(p: Passes, q: Passes, calls: seq<Call>)
    requires forall req :: p(req) == q(req)
    ensures CountServed(p, calls) == CountServed(q, calls)
  {
    if calls == [] {
    } else {
      CountServedAgrees(p, q, calls[..|calls| - 1]);
    }
  }

  // With the decorators stacked as `serve` stacks them, the request total counts the completed
  // calls that the guard let through and the reflection router did not take.
  lemma {:induction false} TotalCountsApplicationCalls(w: Wiring, steps: seq<Step>)
    requires Run(req => Monitored(w, req), steps).Some?
    ensures var s := Run(req => Monitored(w, req), steps).value;
      var served := CountServed(req => ForApplication(w, req), s.calls);
      && served <= s.c.requestsTotal
      && (Quiet(s.calls) ==> s.c.requestsTotal == served)
  {
    var stacked := (req: Request) => Monitored(w, req);
    TotalCountsServedCalls(stacked, steps);
    forall req ensures Monitored(w, req) == ForApplication(w, req) {
      MonitoredIffForApplication(w, req);
    }
    CountServedAgrees(stacked, req => ForApplication(w, req), Run(stacked, steps).value.calls);
  }

  // What a call has left in the ring.
  function Recorded(call: Call): multiset<nat> {
    if call.monitored && call.phase.Done? then multiset{call.phase.o.latencyUs} else multiset{}
  }

  function RecordedAll(calls: seq<Call>): multiset<nat> {
    if calls == [] then multiset{} else RecordedAll(calls[..|calls| - 1]) + Recorded(calls[|calls| - 1])
  }

  lemma {:induction false} RecordedMoved(calls: seq<Call>, i: nat, call: Call)
    requires i < |calls| && Recorded(calls[i]) == multiset{}
    ensures RecordedAll(calls[i := call]) == RecordedAll(calls) + Recorded(call)
  {
    var n := |calls| - 1;
    if i < n {
      RecordedMoved(calls[..n], i, call);
      assert calls[i := call][..n] == calls[..n][i := call];
    } else {
      assert calls[i := call][..n] == calls[..n];
    }
  }

  // The latencies pushed are those of the completed monitored calls, one for one.
  lemma {:induction false} LatenciesAreTheCalls(passes: Passes, steps: seq<Step>)
    requires Run(passes, steps).Some?
    ensures var s := Run(passes, steps).value; multiset(s.latencies) == RecordedAll(s.calls)
  {
    if steps == [] {
      assert Init().latencies == [] && Init().calls == [];
    } else {
      LatenciesAreTheCalls(passes, steps[..|steps| - 1]);
      StepKeepsRecorded(passes, Run(passes, steps[..|steps| - 1]).value, steps[|steps| - 1]);
    }
  }

  lemma {:induction false} StepKeepsRecorded(passes: Passes, s: State, step: Step)
    requires Enabled(s, step) && |s.c.ring.buf| > 0 && multiset(s.latencies) == RecordedAll(s.calls)
    ensures var t := Next(passes, s, step); multiset(t.latencies) == RecordedAll(t.calls)
  {
    match step
    case Arrive(req) => OpenRecordsNothing(s.calls, Call(req, passes(req), Open));
    case Sample => SampleKeepsLatencies(s);
    case _ => MoveKeepsRecorded(s, step, step.i);
  }

  lemma {:induction false} OpenRecordsNothing(calls: seq<Call>, call: Call)
    requires call.phase.Open?
    ensures RecordedAll(calls + [call]) == RecordedAll(calls)
  {
    assert (calls + [call])[..|calls|] == calls;
  }

  lemma {:induction false} SampleKeepsLatencies(s: State)
    ensures SamplerStep(s).latencies == s.latencies && SamplerStep(s).calls == s.calls
  {}

  lemma {:induction false} MoveLatencies(s: State, step: Step, i: nat)
    requires StepOf(step, i) && Enabled(s, step) && |s.c.ring.buf| > 0
    ensures var call := s.calls[i];
      var p, t := NextPhase(call, step), CallStep(s, step, i);
      && t.calls == s.calls[i := call.(phase := p)]
      && t.latencies == if Performs(call, step) == Some(AtRing) then s.latencies + [p.o.latencyUs] else s.latencies
  {}

  lemma {:induction false} MoveKeepsRecorded(s: State, step: Step, i: nat)
    requires StepOf(step, i) && Enabled(s, step) && |s.c.ring.buf| > 0
    requires multiset(s.latencies) == RecordedAll(s.calls)
    ensures var t := CallStep(s, step, i); multiset(t.latencies) == RecordedAll(t.calls)
  {
    MoveLatencies(s, step, i);
    MoveRecords(s.calls[i], step);
    RecordedMoved(s.calls, i, s.calls[i].(phase := NextPhase(s.calls[i], step)));
  }

  // A call leaves its latency with the step that completes it, and with no other.
  lemma {:induction false} MoveRecords(call: Call, step: Step)
    requires Moves(call, step)
    ensures Recorded(call) == multiset{}
    ensures var p := NextPhase(call, step);
      Recorded(call.(phase := p)) ==
        if Performs(call, step) == Some(AtRing) then multiset{p.o.latencyUs} else multiset{}
  {}

  // From s to t the gauges came to show the calls in flight, the requests and errors counted and
  // not shown before, and the percentile of the latest latencies; both counters are at zero.
  ghost predicate TickShown(s: State, t: State) {
    && t.calls == s.calls && |t.ticks| == |s.ticks| + 1 && t.ticks[..|s.ticks|] == s.ticks
    && t.c.gauges == t.ticks[|s.ticks|] && t.c.requests == 0 && t.c.errors == 0
    && t.c.gauges.active == WrapI64(CountIf(s.calls, Live) + CountIf(s.calls, Gone))
    && t.c.gauges.rps + SumRps(s.ticks) + Lost(s.requestWraps) == Count(s.calls, AtRequest)
    && t.c.gauges.eps + SumEps(s.ticks) + Lost(s.errorWraps) == Count(s.calls, AtError)
    && t.c.gauges.p99Us == P99(Latest(s.latencies, 1024))
  }

  // That is what an undisturbed tick does, after any run.
  lemma {:induction false} TickShows(passes: Passes, steps: seq<Step>) returns (ticked: seq<Step>)
    requires Run(passes, steps).Some? && Run(passes, steps).value.sampler.Idle?
    ensures Run(passes, ticked).Some?
    ensures TickShown(Run(passes, steps).value, Run(passes, ticked).value)
  {
    ticked := SampleTick(passes, steps);
    EveryRunKeepsInv(passes, steps);
    TickReads(Run(passes, steps).value, Run(passes, ticked).value);
  }

  lemma {:induction false} TickReads(s: State, t: State)
    requires Laws(s) && s.sampler.Idle?
    requires t.c == Sampled(s.c) && t.ticks == s.ticks + [TickOf(s.c)] && t.calls == s.calls
    ensures TickShown(s, t)
  {
    FlightIsUnfinished(s);
    P99OfRing(s.latencies);
  }

  // Whenever the sampler measures, it measures the latest latencies, whoever pushed them.
  lemma {:induction false} MeasuresLatestLatencies(passes: Passes, steps: seq<Step>)
    requires Run(passes, steps).Some? && Run(passes, steps).value.sampler.DrainedErrors?
    ensures var s := Run(passes, steps).value;
      SamplerStep(s).sampler.tick.p99Us == P99(Latest(s.latencies, 1024))
  {
    EveryRunKeepsInv(passes, steps);
    P99OfRing(Run(passes, steps).value.latencies);
  }
}
