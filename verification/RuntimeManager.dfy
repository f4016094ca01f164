/** `DefaultRuntimeManager`: start, shutdown and health as sections between awaits. */
module RuntimeManagers {
  import opened Wrappers

  datatype Status = Starting | Running | Stopping | Stopped | Degraded

  datatype RuntimeError = StartFailed(reason: string) | ShutdownFailed(reason: string) | ShutdownTimeout(secs: U64)

  // The two lifecycle sub-calls whose outcome decides what a call may write.
  datatype SubCall = BackgroundStart | LifecycleShutdown

  // The history of a manager; `call` numbers the start and shutdown calls.
  datatype Event = Called(call: nat, sub: SubCall) | Succeeded(call: nat, sub: SubCall) | Wrote(call: nat, status: Status)

  datatype Shared = Shared(status: Status, startedAt: Option<nat>, log: seq<Event>)

  const FRESH := Shared(Stopped, None, [])

  // ---- What one section does to the shared state ----

  function Logged(sh: Shared, e: Event): Shared {
    sh.(log := sh.log + [e])
  }

  function Write(sh: Shared, me: nat, status: Status): Shared {
    Logged(sh, Wrote(me, status)).(status := status)
  }

  // A start finds the manager running, or claims it.
  function EnterStart(sh: Shared, me: nat): Shared {
    if sh.status.Running? then sh else Write(sh, me, Starting)
  }

  // A shutdown finds the manager stopped, or begins to drain it.
  function EnterShutdown(sh: Shared, me: nat): Shared {
    if sh.status.Stopped? then sh else Write(sh, me, Stopping)
  }

  function MarkStarted(sh: Shared, now: nat): Shared {
    sh.(startedAt := Some(now))
  }

  // ---- Whole calls with nobody in between ----

  function StartAlone(sh: Shared, me: nat, hasIngress: bool, background: Result<(), string>, now: nat)
    : (Shared, Result<(), RuntimeError>)
  {
    if sh.status.Running? then (sh, Ok(()))
    else
      var claimed := EnterStart(sh, me);
      if !hasIngress then (claimed, Err(StartFailed("no ingress transport configured — add http or grpc")))
      else
        var called := Logged(claimed, Called(me, BackgroundStart));
        if background.Err? then (called, Err(StartFailed(background.error)))
        else (MarkStarted(Write(Logged(called, Succeeded(me, BackgroundStart)), me, Running), now), Ok(()))
  }

  // `drained` is None when the caller gives up waiting for `lifecycle.shutdown`.
  function ShutdownAlone(sh: Shared, me: nat, drained: Option<Result<(), string>>)
    : (Shared, Option<Result<(), RuntimeError>>)
  {
    if sh.status.Stopped? then (sh, Some(Ok(())))
    else
      var called := Logged(EnterShutdown(sh, me), Called(me, LifecycleShutdown));
      if drained.None? then (called, None)
      else if drained.value.Err? then (called, Some(Err(ShutdownFailed(drained.value.error))))
      else (Write(Logged(called, Succeeded(me, LifecycleShutdown)), me, Stopped), Some(Ok(())))
  }

  // What a start does to a manager in any state: one that is running is left alone; any other
  // ends up Running, or Starting when it failed, and only a success sets the start time.
  lemma {:induction false} StartAnswers(sh: Shared, me: nat, hasIngress: bool, background: Result<(), string>, now: nat)
    ensures var (sh', r) := StartAlone(sh, me, hasIngress, background, now);
      if sh.status.Running? then sh' == sh && r == Ok(())
      else
        && (r.Ok? <==> hasIngress && background.Ok?)
        && sh'.status == (if hasIngress && background.Ok? then Running else Starting)
        && sh'.startedAt == (if hasIngress && background.Ok? then Some(now) else sh.startedAt)
        && (r.Err? ==> r.error.StartFailed?)
        && (hasIngress && background.Err? ==> r == Err(StartFailed(background.error)))
        && (!hasIngress ==> r == Err(StartFailed("no ingress transport configured — add http or grpc")))
        && (!hasIngress ==> sh'.log == sh.log + [Wrote(me, Starting)])
        && (hasIngress ==> sh.log + [Wrote(me, Starting), Called(me, BackgroundStart)] <= sh'.log)
  {}

  // What a shutdown does to a manager in any state: one that is stopped is left alone; any other
  // ends up Stopped, or Stopping when the drain failed or was given up.
  lemma {:induction false} ShutdownAnswers(sh: Shared, me: nat, drained: Option<Result<(), string>>)
    ensures var (sh', r) := ShutdownAlone(sh, me, drained);
      if sh.status.Stopped? then sh' == sh && r == Some(Ok(()))
      else
        && sh'.status == (if drained.Some? && drained.value.Ok? then Stopped else Stopping)
        && sh'.startedAt == sh.startedAt
        && (r.None? <==> drained.None?)
        && (r.Some? && r.value.Ok? <==> drained.Some? && drained.value.Ok?)
        && (drained.Some? && drained.value.Err? ==> r == Some(Err(ShutdownFailed(drained.value.error))))
        && sh.log + [Wrote(me, Stopping), Called(me, LifecycleShutdown)] <= sh'.log
  {}

  // ---- Health ----

  datatype ComponentHealth = ComponentHealth(name: string, healthy: bool, message: Option<string>)

  // What `lifecycle.health` reports of one component.
  datatype Component = Component(id: string, healthy: bool, message: Option<string>)

  // A transport that is configured, and how its own health call ended.
  datatype Probe = Probe(name: string, outcome: Result<(), string>)

  function FromComponent(c: Component): ComponentHealth {
    ComponentHealth(c.id, c.healthy, if c.healthy then None else Some(c.message.GetOr("degraded")))
  }

  function FromProbe(p: Probe): ComponentHealth {
    ComponentHealth(p.name, p.outcome.Ok?, if p.outcome.Ok? then None else Some(p.outcome.error))
  }

  // `Instant::elapsed`, which never goes below zero; a manager never started has been up for 0.
  function Elapsed(startedAt: Option<nat>, now: nat): nat {
    if startedAt.None? || now < startedAt.value then 0 else now - startedAt.value
  }

  class DefaultRuntimeManager {
    const hasIngress: bool
    var status: Status
    var startedAt: Option<nat>
    ghost var log: seq<Event>

    ghost function Model(): Shared
      reads this
    {
      Shared(status, startedAt, log)
    }

    constructor (hasIngress: bool)
      ensures Model() == FRESH && this.hasIngress == hasIngress
    {
      this.hasIngress := hasIngress;
      status, startedAt, log := Stopped, None, [];
    }

    method Start(ghost me: nat, background: Result<(), string>, now: nat)
      returns (r: Result<(), RuntimeError>)
      modifies this
      ensures (Model(), r) == StartAlone(old(Model()), me, hasIngress, background, now)
    {
      if status == Running {
        return Ok(());
      }
      status := Starting;
      log := log + [Wrote(me, Starting)];
      if !hasIngress {
        return Err(StartFailed("no ingress transport configured — add http or grpc"));
      }
      log := log + [Called(me, BackgroundStart)];
      if background.Err? {
        return Err(StartFailed(background.error));
      }
      log := log + [Succeeded(me, BackgroundStart)];
      // The probes that follow have their results thrown away.
      status := Running;
      log := log + [Wrote(me, Running)];
      startedAt := Some(now);
      r := Ok(());
    }

    method Shutdown(ghost me: nat, drained: Option<Result<(), string>>)
      returns (r: Option<Result<(), RuntimeError>>)
      modifies this
      ensures (Model(), r) == ShutdownAlone(old(Model()), me, drained)
    {
      if status == Stopped {
        return Some(Ok(()));
      }
      status := Stopping;
      log := log + [Wrote(me, Stopping)];
      log := log + [Called(me, LifecycleShutdown)];
      if drained.None? {
        return None;
      }
      if drained.value.Err? {
        return Some(Err(ShutdownFailed(drained.value.error)));
      }
      log := log + [Succeeded(me, LifecycleShutdown)];
      status := Stopped;
      log := log + [Wrote(me, Stopped)];
      r := Some(Ok(()));
    }

    // A failed lifecycle report contributes nothing; a probe that answers at all is healthy.
    method Health(lifecycle: Result<seq<Component>, string>, probes: seq<Probe>, now: nat)
      returns (read: Status, components: seq<ComponentHealth>, uptime: nat)
      ensures read == status
      ensures uptime == Elapsed(startedAt, now)
      ensures var own := if lifecycle.Ok? then |lifecycle.value| else 0;
        && |components| == own + |probes|
        && (forall i :: 0 <= i < own ==> components[i] == FromComponent(lifecycle.value[i]))
        && (forall i :: 0 <= i < |probes| ==> components[own + i] == FromProbe(probes[i]))
        && (forall i :: 0 <= i < own ==>
              && components[i].name == lifecycle.value[i].id && components[i].healthy == lifecycle.value[i].healthy
              && components[i].message ==
                   if lifecycle.value[i].healthy then None
                   else if lifecycle.value[i].message.Some? then lifecycle.value[i].message else Some("degraded"))
        && (forall i :: 0 <= i < |probes| ==>
              && components[own + i].name == probes[i].name
              && (components[own + i].healthy <==> probes[i].outcome.Ok?)
              && components[own + i].message == if probes[i].outcome.Ok? then None else Some(probes[i].outcome.error))
      ensures startedAt.None? ==> uptime == 0
      ensures startedAt.Some? && startedAt.value <= now ==> uptime == now - startedAt.value
    {
      read := status;
      var report := if lifecycle.Ok? then lifecycle.value else [];
      uptime := Elapsed(startedAt, now);
      components := seq(|report|, i requires 0 <= i < |report| => FromComponent(report[i]));
      for i := 0 to |probes|
        invariant |components| == |report| + i
        invariant forall k :: 0 <= k < |report| ==> components[k] == FromComponent(report[k])
        invariant forall k :: 0 <= k < i ==> components[|report| + k] == FromProbe(probes[k])
      {
        components := components + [FromProbe(probes[i])];
      }
    }
  }
}
