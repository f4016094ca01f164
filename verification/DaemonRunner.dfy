/** `DaemonRunner::run_until_signal`: start, wait for the signal, drain within a limit. */
module DaemonRunning {
  import opened Wrappers
  import opened RuntimeManagers

  // How `lifecycle.shutdown` behaves once called: done after some milliseconds, or never.
  datatype Drain = Finishes(afterMs: nat, result: Result<(), string>) | Hangs

  // What the world does to one run. The signal is taken to arrive.
  datatype Env = Env(background: Result<(), string>, startedAt: nat, drain: Drain)

  // `tokio::time::timeout` polls the drain before its own timer.
  predicate DrainsInTime(drain: Drain, secs: U64) {
    drain.Finishes? && drain.afterMs <= secs * 1000
  }

  const START_CALL: nat := 0
  const SHUTDOWN_CALL: nat := 1

  // The manager and the result after a run, and the milliseconds from the signal to the return.
  function RunOutcome(sh: Shared, hasIngress: bool, secs: U64, env: Env): (Shared, Result<(), RuntimeError>, nat) {
    var (started, r) := StartAlone(sh, START_CALL, hasIngress, env.background, env.startedAt);
    if r.Err? then (started, r, 0)
    else
      var inTime := DrainsInTime(env.drain, secs);
      var (stopped, s) :=
        ShutdownAlone(started, SHUTDOWN_CALL, if inTime then Some(env.drain.result) else None);
      if s.None? then (stopped, Err(ShutdownTimeout(secs)), secs * 1000)
      else (stopped, s.value, env.drain.afterMs)
  }

  // The answer of a run from a fresh manager, in milliseconds.
  ghost predicate RunnerAnswers(hasIngress: bool, secs: U64, env: Env, r: Result<(), RuntimeError>,
                                elapsedMs: nat, status: Status)
  {
    var started := hasIngress && env.background.Ok?;
    var inTime := env.drain.Finishes? && env.drain.afterMs <= 1000 * secs;
    && (r.Ok? <==> started && inTime && env.drain.result.Ok?)
    && (r.Err? && r.error.StartFailed? <==> !started)
    && (hasIngress && env.background.Err? ==> r == Err(StartFailed(env.background.error)))
    && (r.Err? && r.error.ShutdownTimeout? <==> started && !inTime)
    && (started && !inTime ==> r == Err(ShutdownTimeout(secs)))
    && (r.Err? && r.error.ShutdownFailed? <==> started && inTime && env.drain.result.Err?)
    && (started && inTime && env.drain.result.Err? ==> r == Err(ShutdownFailed(env.drain.result.error)))
    && elapsedMs == (if !started then 0 else if inTime then env.drain.afterMs else 1000 * secs)
    && status == (if !started then Starting else if r.Ok? then Stopped else Stopping)
  }

  lemma {:induction false} FreshRunnerAnswers(hasIngress: bool, secs: U64, env: Env)
    ensures var (sh, r, elapsedMs) := RunOutcome(FRESH, hasIngress, secs, env);
      RunnerAnswers(hasIngress, secs, env, r, elapsedMs, sh.status)
  {}

  method RunUntilSignal(manager: DefaultRuntimeManager, secs: U64, env: Env)
    returns (r: Result<(), RuntimeError>, elapsedMs: nat)
    modifies manager
    ensures (manager.Model(), r, elapsedMs) == RunOutcome(old(manager.Model()), manager.hasIngress, secs, env)
    ensures old(manager.Model()) == FRESH ==>
      RunnerAnswers(manager.hasIngress, secs, env, r, elapsedMs, manager.status)
  {
    FreshRunnerAnswers(manager.hasIngress, secs, env);
    elapsedMs := 0;
    r := manager.Start(START_CALL, env.background, env.startedAt);
    if r.Err? {
      return;
    }
    if DrainsInTime(env.drain, secs) {
      var s := manager.Shutdown(SHUTDOWN_CALL, Some(env.drain.result));
      r := s.value;
      elapsedMs := env.drain.afterMs;
    } else {
      // The timer fires and drops the shutdown call where it awaits.
      var s := manager.Shutdown(SHUTDOWN_CALL, None);
      r := Err(ShutdownTimeout(secs));
      elapsedMs := secs * 1000;
    }
  }

  // The statuses a manager went through, in order.
  function Statuses(log: seq<Event>): seq<Status> {
    if log == [] then []
    else Statuses(log[..|log| - 1]) + if log[|log| - 1].Wrote? then [log[|log| - 1].status] else []
  }

  function Calls(log: seq<Event>, sub: SubCall): nat {
    if log == [] then 0
    else
      var e := log[|log| - 1];
      Calls(log[..|log| - 1], sub) + if e.Called? && e.sub == sub then 1 else 0
  }

  const FULL_CYCLE := [Starting, Running, Stopping, Stopped]

  // The log of a run that gets past 0, 1, 2 or 3 of: claiming the manager, the background
  // start, the drain.
  function CycleLog(stage: nat): seq<Event> {
    if stage == 0 then [Wrote(START_CALL, Starting)]
    else if stage == 1 then CycleLog(0) + [Called(START_CALL, BackgroundStart)]
    else if stage == 2 then
      CycleLog(1) + [Succeeded(START_CALL, BackgroundStart), Wrote(START_CALL, Running)]
      + [Wrote(SHUTDOWN_CALL, Stopping), Called(SHUTDOWN_CALL, LifecycleShutdown)]
    else CycleLog(2) + [Succeeded(SHUTDOWN_CALL, LifecycleShutdown), Wrote(SHUTDOWN_CALL, Stopped)]
  }

  function Stage(hasIngress: bool, secs: U64, env: Env): nat {
    if !hasIngress then 0
    else if env.background.Err? then 1
    else if !DrainsInTime(env.drain, secs) || env.drain.result.Err? then 2
    else 3
  }

  lemma {:induction false} RunnerLog(hasIngress: bool, secs: U64, env: Env)
    ensures var (sh, r, _) := RunOutcome(FRESH, hasIngress, secs, env);
      var stage := Stage(hasIngress, secs, env);
      && sh.log == CycleLog(stage)
      && (r.Ok? <==> stage == 3)
      && (r.Err? && r.error.StartFailed? <==> stage <= 1)
      && sh.status == if stage <= 1 then Starting else if stage == 2 then Stopping else Stopped
  {}

  lemma {:induction false} StagesOfTheCycle()
    ensures forall stage :: 0 <= stage <= 3 ==>
      Statuses(CycleLog(stage)) == FULL_CYCLE[..if stage <= 1 then 1 else stage + 1]
    ensures forall stage :: 0 <= stage <= 3 ==> Calls(CycleLog(stage), BackgroundStart) == if stage == 0 then 0 else 1
    ensures forall stage :: 0 <= stage <= 3 ==> Calls(CycleLog(stage), LifecycleShutdown) == if stage <= 1 then 0 else 1
  {
    LogEnds([], Wrote(START_CALL, Starting));
    assert [] + CycleLog(0) == CycleLog(0);
    LogEnds(CycleLog(0), Called(START_CALL, BackgroundStart));
    var running := CycleLog(1) + [Succeeded(START_CALL, BackgroundStart), Wrote(START_CALL, Running)];
    LogEndsTwice(CycleLog(1), Succeeded(START_CALL, BackgroundStart), Wrote(START_CALL, Running));
    LogEndsTwice(running, Wrote(SHUTDOWN_CALL, Stopping), Called(SHUTDOWN_CALL, LifecycleShutdown));
    LogEndsTwice(CycleLog(2), Succeeded(SHUTDOWN_CALL, LifecycleShutdown), Wrote(SHUTDOWN_CALL, Stopped));
  }

  // A fresh manager only ever walks along the full cycle, and the result says how far it got.
  lemma {:induction false} RunnerFollowsTheCycle(hasIngress: bool, secs: U64, env: Env)
    ensures var (sh, r, _) := RunOutcome(FRESH, hasIngress, secs, env);
      && Statuses(sh.log) <= FULL_CYCLE
      && (r.Ok? <==> Statuses(sh.log) == FULL_CYCLE)
      && (r.Ok? <==> hasIngress && env.background.Ok? && DrainsInTime(env.drain, secs) && env.drain.result.Ok?)
      && (r.Ok? ==> Calls(sh.log, BackgroundStart) == 1 && Calls(sh.log, LifecycleShutdown) == 1)
  {
    RunnerLog(hasIngress, secs, env);
    StagesOfTheCycle();
  }

  // A failed start leaves Starting behind and never asks for a shutdown; a drain that ran over
  // its limit, and only that, is reported as a timeout, and leaves Stopping behind.
  lemma {:induction false} RunnerErrors(hasIngress: bool, secs: U64, env: Env)
    ensures var (sh, r, _) := RunOutcome(FRESH, hasIngress, secs, env);
      && (r.Err? && r.error.StartFailed? <==> sh.status.Starting?)
      && (sh.status.Starting? ==> Calls(sh.log, LifecycleShutdown) == 0 && Statuses(sh.log) == [Starting])
      && (r.Err? && !r.error.StartFailed? <==> sh.status.Stopping?)
      && (r == Err(ShutdownTimeout(secs)) <==> sh.status.Stopping? && !DrainsInTime(env.drain, secs))
  {
    RunnerLog(hasIngress, secs, env);
    StagesOfTheCycle();
  }

  lemma {:induction false} LogEnds(log: seq<Event>, e: Event)
    ensures Statuses(log + [e]) == Statuses(log) + if e.Wrote? then [e.status] else []
    ensures forall sub: SubCall ::
      Calls(log + [e], sub) == Calls(log, sub) + if e.Called? && e.sub == sub then 1 else 0
  {}

  lemma {:induction false} LogEndsTwice(log: seq<Event>, a: Event, b: Event)
    ensures Statuses(log + [a, b]) ==
      Statuses(log) + (if a.Wrote? then [a.status] else []) + (if b.Wrote? then [b.status] else [])
    ensures forall sub: SubCall ::
      Calls(log + [a, b], sub) ==
        Calls(log, sub) + (if a.Called? && a.sub == sub then 1 else 0) + (if b.Called? && b.sub == sub then 1 else 0)
  {
    assert log + [a, b] == log + [a] + [b];
    LogEnds(log, a);
    LogEnds(log + [a], b);
  }

  // However the drain behaves, the runner returns within its limit of the signal.
  lemma {:induction false} RunnerKeepsItsLimit(sh: Shared, hasIngress: bool, secs: U64, env: Env)
    ensures RunOutcome(sh, hasIngress, secs, env).2 <= secs * 1000
  {}
}
