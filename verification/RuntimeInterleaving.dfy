/** Any number of start, shutdown and health calls, interleaved at their awaits and locks. */
module RuntimeInterleaving {
  import opened Wrappers
  import opened RuntimeManagers

  // Where a call stands. StartHolding has written Running and still holds the status lock.
  datatype Call =
    | StartBegin | StartChecking | StartAwaiting | StartProbing | StartHolding
    | ShutdownBegin | ShutdownAwaiting | ShutdownDrained
    | HealthBegin | HealthAwaiting(read: Status) | HealthReported(read: Status, startedAt: Option<nat>)
    | Returned(ok: bool) | Cancelled

  datatype State = State(sh: Shared, holder: Option<nat>, calls: seq<Call>)

  // `ok` is the outcome of the sub-call a call is waiting for, `now` the clock.
  datatype Step = Begin(call: Call) | Advance(i: nat, ok: bool, now: nat) | Cancel(i: nat)

  predicate IsEntry(c: Call) {
    c.StartBegin? || c.ShutdownBegin? || c.HealthBegin?
  }

  predicate NeedsStatusLock(c: Call) {
    IsEntry(c) || c.StartProbing? || c.ShutdownDrained?
  }

  predicate Finished(c: Call) {
    c.Returned? || c.Cancelled? || c.HealthReported?
  }

  // A future can be dropped before its first poll and wherever it awaits.
  predicate CanCancel(c: Call) {
    IsEntry(c) || c.StartAwaiting? || c.StartProbing? || c.ShutdownAwaiting? || c.HealthAwaiting?
  }

  predicate Enabled(s: State, step: Step) {
    match step
    case Begin(c) => IsEntry(c)
    case Cancel(i) => i < |s.calls| && CanCancel(s.calls[i])
    case Advance(i, _, _) =>
      && i < |s.calls| && !Finished(s.calls[i])
      && (NeedsStatusLock(s.calls[i]) ==> s.holder.None?)
  }

  function Next(hasIngress: bool, s: State, step: Step): State
    requires Enabled(s, step)
  {
    match step
    case Begin(c) => s.(calls := s.calls + [c])
    case Cancel(i) => s.(calls := s.calls[i := Cancelled])
    case Advance(i, ok, now) =>
      var (sh, c) := Section(hasIngress, s.sh, s.calls[i], i, ok, now);
      State(sh, if c.StartHolding? then Some(i) else if s.calls[i].StartHolding? then None else s.holder,
            s.calls[i := c])
  }

  // The section call `me` runs next, and where it leaves the call.
  function Section(hasIngress: bool, sh: Shared, c: Call, me: nat, ok: bool, now: nat): (Shared, Call)
    requires !Finished(c)
  {
    match c
    case StartBegin => (EnterStart(sh, me), if sh.status.Running? then Returned(true) else StartChecking)
    case StartChecking =>
      if hasIngress then (Logged(sh, Called(me, BackgroundStart)), StartAwaiting) else (sh, Returned(false))
    case StartAwaiting =>
      if ok then (Logged(sh, Succeeded(me, BackgroundStart)), StartProbing) else (sh, Returned(false))
    case StartProbing => (Write(sh, me, Running), StartHolding)
    case StartHolding => (MarkStarted(sh, now), Returned(true))
    case ShutdownBegin =>
      if sh.status.Stopped? then (sh, Returned(true))
      else (Logged(EnterShutdown(sh, me), Called(me, LifecycleShutdown)), ShutdownAwaiting)
    case ShutdownAwaiting =>
      if ok then (Logged(sh, Succeeded(me, LifecycleShutdown)), ShutdownDrained) else (sh, Returned(false))
    case ShutdownDrained => (Write(sh, me, Stopped), Returned(true))
    case HealthBegin => (sh, HealthAwaiting(sh.status))
    case HealthAwaiting(read) => (sh, HealthReported(read, sh.startedAt))
  }

  function Run(hasIngress: bool, steps: seq<Step>): Option<State> {
    if steps == [] then Some(State(FRESH, None, []))
    else
      var prev := Run(hasIngress, steps[..|steps| - 1]);
      var step := steps[|steps| - 1];
      if prev.Some? && Enabled(prev.value, step) then Some(Next(hasIngress, prev.value, step)) else None
  }

  // ---- What every run keeps ----

  // Running and Stopped are written only by a call whose own sub-call has succeeded.
  ghost predicate Earned(log: seq<Event>, k: nat)
    requires k < |log|
  {
    && (log[k].Wrote? && log[k].status.Running? ==> Succeeded(log[k].call, BackgroundStart) in log[..k])
    && (log[k].Wrote? && log[k].status.Stopped? ==> Succeeded(log[k].call, LifecycleShutdown) in log[..k])
    && (log[k].Succeeded? ==> Called(log[k].call, log[k].sub) in log[..k])
    && (log[k].Wrote? ==> !log[k].status.Degraded?)
  }

  ghost predicate AllEarned(log: seq<Event>) {
    forall k :: 0 <= k < |log| ==> Earned(log, k)
  }

  // The status is the last one written.
  function LastWritten(log: seq<Event>): Status {
    if log == [] then Stopped
    else if log[|log| - 1].Wrote? then log[|log| - 1].status
    else LastWritten(log[..|log| - 1])
  }

  ghost predicate CallFits(sh: Shared, c: Call, me: nat) {
    match c
    case StartAwaiting => Called(me, BackgroundStart) in sh.log
    case StartProbing => Succeeded(me, BackgroundStart) in sh.log
    case StartHolding => sh.status.Running?
    case ShutdownAwaiting => Called(me, LifecycleShutdown) in sh.log
    case ShutdownDrained => Succeeded(me, LifecycleShutdown) in sh.log
    case HealthAwaiting(read) => read.Running? ==> sh.startedAt.Some?
    case HealthReported(read, started) => read.Running? ==> started.Some?
    case _ => true
  }

  ghost predicate Inv(s: State) {
    && AllEarned(s.sh.log)
    && s.sh.status == LastWritten(s.sh.log)
    && (s.sh.status.Running? && s.holder.None? ==> s.sh.startedAt.Some?)
    && (s.holder.Some? ==> s.holder.value < |s.calls| && s.calls[s.holder.value].StartHolding?)
    && (forall i :: 0 <= i < |s.calls| ==> CallFits(s.sh, s.calls[i], i))
    && (forall i :: 0 <= i < |s.calls| && s.calls[i].StartHolding? ==> s.holder == Some(i))
  }

  lemma {:induction false} LoggingKeepsEarned(log: seq<Event>, e: Event)
    requires AllEarned(log)
    requires e.Wrote? && e.status.Running? ==> Succeeded(e.call, BackgroundStart) in log
    requires e.Wrote? && e.status.Stopped? ==> Succeeded(e.call, LifecycleShutdown) in log
    requires e.Succeeded? ==> Called(e.call, e.sub) in log
    requires e.Wrote? ==> !e.status.Degraded?
    ensures AllEarned(log + [e])
    ensures LastWritten(log + [e]) == if e.Wrote? then e.status else LastWritten(log)
  {
    assert (log + [e])[..|log|] == log;
    forall k | 0 <= k < |log| + 1 ensures Earned(log + [e], k) {
      if k < |log| {
        assert Earned(log, k);
        assert (log + [e])[..k] == log[..k];
      }
    }
  }

  // Each section keeps the log earned and ends with a call that fits.
  lemma {:induction false} SectionKeepsLog(hasIngress: bool, sh: Shared, c: Call, me: nat, ok: bool, now: nat)
    requires !Finished(c) && AllEarned(sh.log) && sh.status == LastWritten(sh.log) && CallFits(sh, c, me)
    requires sh.status.Running? && c.HealthBegin? ==> sh.startedAt.Some?
    ensures var (sh', c') := Section(hasIngress, sh, c, me, ok, now);
      && AllEarned(sh'.log) && sh'.status == LastWritten(sh'.log) && CallFits(sh', c', me)
      && sh.log <= sh'.log
      && (sh.startedAt.Some? ==> sh'.startedAt.Some?)
  {
    var (sh', c') := Section(hasIngress, sh, c, me, ok, now);
    if c.ShutdownBegin? && !sh.status.Stopped? {
      LoggingKeepsEarned(sh.log, Wrote(me, Stopping));
      LoggingKeepsEarned(EnterShutdown(sh, me).log, Called(me, LifecycleShutdown));
    } else if sh'.log != sh.log {
      LoggingKeepsEarned(sh.log, sh'.log[|sh.log|]);
    }
  }

  lemma {:induction false} NextKeepsInv(hasIngress: bool, s: State, step: Step)
    requires Inv(s) && Enabled(s, step)
    ensures Inv(Next(hasIngress, s, step))
  {
    if step.Advance? {
      AdvanceKeepsInv(hasIngress, s, step.i, step.ok, step.now);
    }
  }

  lemma {:induction false} AdvanceKeepsInv(hasIngress: bool, s: State, i: nat, ok: bool, now: nat)
    requires Inv(s) && Enabled(s, Advance(i, ok, now))
    ensures Inv(Next(hasIngress, s, Advance(i, ok, now)))
  {
    SectionKeepsLog(hasIngress, s.sh, s.calls[i], i, ok, now);
    var t := Next(hasIngress, s, Advance(i, ok, now));
    forall k | 0 <= k < |t.calls| ensures CallFits(t.sh, t.calls[k], k) {
      if k != i {
        OthersStillFit(s, t, i, k, hasIngress, ok, now);
      }
    }
  }

  lemma {:induction false} OthersStillFit(s: State, t: State, i: nat, k: nat, hasIngress: bool, ok: bool, now: nat)
    requires Inv(s) && Enabled(s, Advance(i, ok, now)) && t == Next(hasIngress, s, Advance(i, ok, now))
    requires k < |s.calls| && k != i && s.sh.log <= t.sh.log
    ensures CallFits(t.sh, s.calls[k], k)
  {}

  lemma {:induction false} EveryRunKeepsInv(hasIngress: bool, steps: seq<Step>)
    requires Run(hasIngress, steps).Some?
    ensures Inv(Run(hasIngress, steps).value)
  {
    if steps == [] {
    } else {
      var prev := steps[..|steps| - 1];
      EveryRunKeepsInv(hasIngress, prev);
      NextKeepsInv(hasIngress, Run(hasIngress, prev).value, steps[|steps| - 1]);
    }
  }

  // ---- Main results ----

  // Once the status lock is free, Running comes with a start time; Degraded is never reached;
  // and a health report that read Running read a start time too.
  lemma {:induction false} RunningHasStarted(hasIngress: bool, steps: seq<Step>)
    requires Run(hasIngress, steps).Some?
    ensures var s := Run(hasIngress, steps).value;
      && (s.sh.status.Running? && s.holder.None? ==> s.sh.startedAt.Some?)
      && !s.sh.status.Degraded?
      && forall i :: 0 <= i < |s.calls| && s.calls[i].HealthReported? && s.calls[i].read.Running?
           ==> s.calls[i].startedAt.Some?
  {
    EveryRunKeepsInv(hasIngress, steps);
    var s := Run(hasIngress, steps).value;
    NeverDegraded(s.sh.log);
    forall i | 0 <= i < |s.calls| && s.calls[i].HealthReported? && s.calls[i].read.Running?
      ensures s.calls[i].startedAt.Some?
    {
      assert CallFits(s.sh, s.calls[i], i);
    }
  }

  lemma {:induction false} NeverDegraded(log: seq<Event>)
    requires AllEarned(log)
    ensures !LastWritten(log).Degraded?
  {
    if log == [] {
    } else {
      var n := |log| - 1;
      forall k | 0 <= k < n ensures Earned(log[..n], k) {
        assert Earned(log, k);
        assert log[..n][..k] == log[..k];
      }
      NeverDegraded(log[..n]);
      assert Earned(log, n);
    }
  }

  // Who may enter Running or Stopped, in every interleaving.
  lemma {:induction false} StatusIsEarned(hasIngress: bool, steps: seq<Step>, k: nat)
    requires Run(hasIngress, steps).Some? && k < |Run(hasIngress, steps).value.sh.log|
    ensures var log := Run(hasIngress, steps).value.sh.log;
      && (log[k].Wrote? && log[k].status.Running? ==> Succeeded(log[k].call, BackgroundStart) in log[..k])
      && (log[k].Wrote? && log[k].status.Stopped? ==> Succeeded(log[k].call, LifecycleShutdown) in log[..k])
      && Run(hasIngress, steps).value.sh.status == LastWritten(log)
  {
    EveryRunKeepsInv(hasIngress, steps);
    assert Earned(Run(hasIngress, steps).value.sh.log, k);
  }

  lemma {:induction false} Extend(hasIngress: bool, steps: seq<Step>, step: Step) returns (more: seq<Step>)
    requires Run(hasIngress, steps).Some? && Enabled(Run(hasIngress, steps).value, step)
    ensures more == steps + [step]
    ensures Run(hasIngress, more) == Some(Next(hasIngress, Run(hasIngress, steps).value, step))
  {
    more := steps + [step];
    assert more[..|more| - 1] == steps;
  }

  // What is not promised: a shutdown that overlaps a start can return Ok and leave Running behind.
  lemma {:induction false} ShutdownMayLoseToStart()
    ensures exists steps :: Run(true, steps).Some? && var s := Run(true, steps).value;
      s.calls == [Returned(true), Returned(true)] && s.sh.status.Running?
      && Wrote(1, Stopped) in s.sh.log
  {
    var steps := OverlappingCalls();
  }

  lemma {:induction false} OverlappingCalls() returns (steps: seq<Step>)
    ensures Run(true, steps).Some?
    ensures var s := Run(true, steps).value;
      s.calls == [Returned(true), Returned(true)] && s.sh.status.Running? && Wrote(1, Stopped) in s.sh.log
  {
    steps := BothBegun(true);
    steps := BothClaim(true, steps);
    steps := ShutdownReturns(true, steps);
    steps := StartAwaits(true, steps);
    steps := StartReturns(true, steps);
  }

  lemma {:induction false} BothBegun(hasIngress: bool) returns (steps: seq<Step>)
    ensures Run(hasIngress, steps) == Some(State(FRESH, None, [StartBegin, ShutdownBegin]))
  {
    steps := Extend(hasIngress, [], Begin(StartBegin));
    assert Run(hasIngress, steps).value.calls == [StartBegin];
    steps := Extend(hasIngress, steps, Begin(ShutdownBegin));
    assert Run(hasIngress, steps).value.calls == [StartBegin, ShutdownBegin];
  }

  lemma {:induction false} BothClaim(hasIngress: bool, steps: seq<Step>) returns (more: seq<Step>)
    requires Run(hasIngress, steps) == Some(State(FRESH, None, [StartBegin, ShutdownBegin]))
    ensures Run(hasIngress, more).Some?
    ensures var s := Run(hasIngress, more).value;
      s.calls == [StartChecking, ShutdownAwaiting] && s.holder.None?
  {
    more := Extend(hasIngress, steps, Advance(0, true, 0));
    more := Extend(hasIngress, more, Advance(1, true, 0));
  }

  lemma {:induction false} ShutdownReturns(hasIngress: bool, steps: seq<Step>) returns (more: seq<Step>)
    requires Run(hasIngress, steps).Some?
    requires var s := Run(hasIngress, steps).value; s.calls == [StartChecking, ShutdownAwaiting] && s.holder.None?
    ensures Run(hasIngress, more).Some?
    ensures var s := Run(hasIngress, more).value;
      s.calls == [StartChecking, Returned(true)] && s.holder.None? && Wrote(1, Stopped) in s.sh.log
  {
    more := Extend(hasIngress, steps, Advance(1, true, 0));
    more := Extend(hasIngress, more, Advance(1, true, 0));
    var log := Run(hasIngress, more).value.sh.log;
    assert log[|log| - 1] == Wrote(1, Stopped);
  }

  lemma {:induction false} StartAwaits(hasIngress: bool, steps: seq<Step>) returns (more: seq<Step>)
    requires hasIngress && Run(hasIngress, steps).Some?
    requires var s := Run(hasIngress, steps).value;
      s.calls == [StartChecking, Returned(true)] && s.holder.None? && Wrote(1, Stopped) in s.sh.log
    ensures Run(hasIngress, more).Some?
    ensures var s := Run(hasIngress, more).value;
      s.calls == [StartProbing, Returned(true)] && s.holder.None? && Wrote(1, Stopped) in s.sh.log
  {
    more := Extend(hasIngress, steps, Advance(0, true, 0));
    more := Extend(hasIngress, more, Advance(0, true, 0));
  }

  lemma {:induction false} StartReturns(hasIngress: bool, steps: seq<Step>) returns (more: seq<Step>)
    requires Run(hasIngress, steps).Some?
    requires var s := Run(hasIngress, steps).value;
      s.calls == [StartProbing, Returned(true)] && s.holder.None? && Wrote(1, Stopped) in s.sh.log
    ensures Run(hasIngress, more).Some?
    ensures var s := Run(hasIngress, more).value;
      s.calls == [Returned(true), Returned(true)] && s.sh.status.Running? && Wrote(1, Stopped) in s.sh.log
  {
    more := Extend(hasIngress, steps, Advance(0, true, 0));
    more := Extend(hasIngress, more, Advance(0, true, 0));
  }

  // ---- Exactly when a manager that is not running can run again without a new start ----

  // A start call that is still on its way and will not be turned back for want of an ingress.
  predicate CanStillStart(hasIngress: bool, c: Call) {
    c.StartProbing? || c.StartAwaiting? || (hasIngress && (c.StartBegin? || c.StartChecking?))
  }

  predicate NoNewStart(steps: seq<Step>) {
    forall k :: 0 <= k < |steps| ==> steps[k] != Begin(StartBegin)
  }

  ghost predicate Idle(hasIngress: bool, s: State) {
    !s.sh.status.Running? && forall i :: 0 <= i < |s.calls| ==> !CanStillStart(hasIngress, s.calls[i])
  }

  // Whatever shutdowns, health checks and doomed starts do, an idle manager does not run.
  lemma {:induction false} IdleStaysIdle(hasIngress: bool, s: State, step: Step)
    requires Inv(s) && Idle(hasIngress, s) && Enabled(s, step) && step != Begin(StartBegin)
    ensures Idle(hasIngress, Next(hasIngress, s, step))
  {}

  lemma {:induction false} IdleRuns(hasIngress: bool, steps: seq<Step>, more: seq<Step>)
    requires Run(hasIngress, steps).Some? && Run(hasIngress, steps + more).Some? && NoNewStart(more)
    requires Idle(hasIngress, Run(hasIngress, steps).value)
    ensures Idle(hasIngress, Run(hasIngress, steps + more).value)
  {
    if more == [] {
      assert steps + more == steps;
    } else {
      var n := |more| - 1;
      assert (steps + more)[..|steps + more| - 1] == steps + more[..n];
      IdleRuns(hasIngress, steps, more[..n]);
      EveryRunKeepsInv(hasIngress, steps + more[..n]);
      IdleStaysIdle(hasIngress, Run(hasIngress, steps + more[..n]).value, more[n]);
    }
  }

  // A start on its way gets there if it is scheduled alone and its background tasks start.
  lemma {:induction false} StartArrives(hasIngress: bool, steps: seq<Step>, i: nat) returns (more: seq<Step>)
    requires Run(hasIngress, steps).Some? && Run(hasIngress, steps).value.holder.None?
    requires !Run(hasIngress, steps).value.sh.status.Running?
    requires i < |Run(hasIngress, steps).value.calls|
    requires CanStillStart(hasIngress, Run(hasIngress, steps).value.calls[i])
    ensures NoNewStart(more)
    ensures Run(hasIngress, steps + more).Some? && Run(hasIngress, steps + more).value.sh.status.Running?
    decreases SectionsLeft(Run(hasIngress, steps).value.calls[i])
  {
    var step := Advance(i, true, 0);
    var next := Extend(hasIngress, steps, step);
    if Run(hasIngress, steps).value.calls[i].StartProbing? {
      more := [step];
    } else {
      var rest := StartArrives(hasIngress, next, i);
      more := [step] + rest;
      assert steps + more == next + rest;
    }
  }

  // So after a shutdown the manager can come up again by itself exactly when it left a start
  // call on its way.
  lemma {:induction false} RunsAgainIff(hasIngress: bool, steps: seq<Step>)
    requires Run(hasIngress, steps).Some? && !Run(hasIngress, steps).value.sh.status.Running?
    ensures (exists more :: NoNewStart(more) && Run(hasIngress, steps + more).Some?
               && Run(hasIngress, steps + more).value.sh.status.Running?) <==>
      exists i :: 0 <= i < |Run(hasIngress, steps).value.calls|
        && CanStillStart(hasIngress, Run(hasIngress, steps).value.calls[i])
  {
    var s := Run(hasIngress, steps).value;
    EveryRunKeepsInv(hasIngress, steps);
    assert s.holder.None?;
    if i :| 0 <= i < |s.calls| && CanStillStart(hasIngress, s.calls[i]) {
      var more := StartArrives(hasIngress, steps, i);
    } else {
      forall more | NoNewStart(more) && Run(hasIngress, steps + more).Some?
        ensures !Run(hasIngress, steps + more).value.sh.status.Running?
      {
        IdleRuns(hasIngress, steps, more);
      }
    }
  }

  // ---- The sections of an undisturbed call are the method ----

  function SectionsLeft(c: Call): nat {
    match c
    case StartBegin => 5
    case StartChecking => 4
    case StartAwaiting => 3
    case StartProbing => 2
    case ShutdownBegin => 3
    case ShutdownAwaiting => 2
    case HealthBegin => 2
    case Returned(_) => 0
    case Cancelled => 0
    case HealthReported(_, _) => 0
    case _ => 1
  }

  // Runs a call to its end, with one outcome and one clock reading for its sub-call.
  function Alone(hasIngress: bool, sh: Shared, c: Call, me: nat, ok: bool, now: nat): (Shared, Call)
    decreases SectionsLeft(c)
  {
    if Finished(c) then (sh, c)
    else
      var (sh', c') := Section(hasIngress, sh, c, me, ok, now);
      Alone(hasIngress, sh', c', me, ok, now)
  }

  lemma {:induction false} StartIsItsSections(hasIngress: bool, sh: Shared, me: nat, background: Result<(), string>, now: nat)
    ensures var (sh', r) := StartAlone(sh, me, hasIngress, background, now);
      Alone(hasIngress, sh, StartBegin, me, background.Ok?, now) == (sh', Returned(r.Ok?))
  {}

  lemma {:induction false} ShutdownIsItsSections(hasIngress: bool, sh: Shared, me: nat, drained: Result<(), string>, now: nat)
    ensures var (sh', r) := ShutdownAlone(sh, me, Some(drained));
      r.Some? && Alone(hasIngress, sh, ShutdownBegin, me, drained.Ok?, now) == (sh', Returned(r.value.Ok?))
  {}
}
