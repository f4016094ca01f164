/** `RuntimeBuilder::serve`: what it spawns, every way it returns, and how it tears down. */
module Serving {
  import opened Wrappers
  import opened RuntimeManagers
  import opened DaemonRunning

  datatype TaskKind = HttpServer | GrpcServer | MetricsServer | SchedulerThread

  // The sending half of a one-shot channel. Its receiver resolves on a send and on a drop alike.
  // `at` is when it was sent.
  datatype Sender = Held | Sent(at: nat) | SenderDropped

  class Oneshot {
    var sender: Sender

    constructor ()
      ensures sender == Held
    {
      sender := Held;
    }

    predicate Resolved()
      reads this
    {
      sender != Held
    }

    method Send(now: nat)
      modifies this
      ensures sender == Sent(now)
    {
      sender := Sent(now);
    }

    // What leaving the scope does to a sender that still lives in it.
    method DropSender()
      modifies this
      ensures sender == if old(sender) == Held then SenderDropped else old(sender)
    {
      if sender == Held {
        sender := SenderDropped;
      }
    }
  }

  // A spawned task waits on the receiver of its channel.
  datatype Task = Task(kind: TaskKind, shutdown: Oneshot)

  // What the builder and the configuration ask for. Each list holds the outcomes of fallible
  // steps in source order; `scheduler` says whether its thread can be spawned.
  datatype Setup = Setup(
    backends: seq<Option<string>>, http: bool, grpc: bool, egress: seq<Option<string>>,
    grpcServer: seq<Option<string>>, metrics: bool, scheduler: Option<Option<string>>, secs: U64)

  const JOIN_LIMIT_MS: nat := 5000

  function FirstError(steps: seq<Option<string>>): Option<string> {
    if steps == [] then None else if steps[0].Some? then steps[0] else FirstError(steps[1..])
  }

  // The error of an early return before any server task exists.
  function SetupError(s: Setup): Option<string> {
    if FirstError(s.backends).Some? then FirstError(s.backends)
    else if !s.http && !s.grpc then Some("Runtime: no handler registered — call .http_route() or .grpc_route()")
    else FirstError(s.egress)
  }

  function GrpcError(s: Setup): Option<string> {
    if s.grpc then FirstError(s.grpcServer) else None
  }

  function SchedulerError(s: Setup): Option<string> {
    if s.scheduler.Some? then s.scheduler.value else None
  }

  function EarlyError(s: Setup): Option<string> {
    if SetupError(s).Some? then SetupError(s)
    else if GrpcError(s).Some? then GrpcError(s)
    else SchedulerError(s)
  }

  // The servers the setup wants, in spawn order.
  function Servers(s: Setup): seq<TaskKind> {
    (if s.http then [HttpServer] else []) + (if s.grpc then [GrpcServer] else [])
    + (if s.metrics then [MetricsServer] else [])
  }

  // Everything the setup wants running, in spawn order.
  function Wanted(s: Setup): seq<TaskKind> {
    Servers(s) + if s.scheduler.Some? then [SchedulerThread] else []
  }

  // How many of the wanted tasks exist when `serve` returns.
  function Spawned(s: Setup): seq<TaskKind> {
    if SetupError(s).Some? then []
    else if GrpcError(s).Some? then if s.http then [HttpServer] else []
    else if SchedulerError(s).Some? then Wanted(s)[..|Wanted(s)| - 1]
    else Wanted(s)
  }

  function ServeResult(s: Setup, env: Env): Result<(), RuntimeError> {
    if EarlyError(s).Some? then Err(StartFailed(EarlyError(s).value))
    else RunOutcome(FRESH, s.http || s.grpc, s.secs, env).1
  }

  // ---- What is asked for, from the flags alone ----

  predicate AllFine(steps: seq<Option<string>>) {
    forall i :: 0 <= i < |steps| ==> steps[i].None?
  }

  ghost predicate FirstFails(steps: seq<Option<string>>, e: string) {
    exists i :: 0 <= i < |steps| && steps[i] == Some(e) && forall j :: 0 <= j < i ==> steps[j].None?
  }

  // Set-up gets as far as the servers.
  predicate SetupFine(s: Setup) {
    AllFine(s.backends) && (s.http || s.grpc) && AllFine(s.egress)
  }

  predicate GrpcFine(s: Setup) {
    s.grpc ==> AllFine(s.grpcServer)
  }

  // Nothing stands in the way of running.
  predicate Ready(s: Setup) {
    SetupFine(s) && GrpcFine(s) && (s.scheduler.Some? ==> s.scheduler.value.None?)
  }

  // The error that ends `serve` before it runs: the first in the order of the steps.
  ghost predicate EndsEarly(s: Setup, e: string) {
    || FirstFails(s.backends, e)
    || (&& AllFine(s.backends) && !s.http && !s.grpc
        && e == "Runtime: no handler registered — call .http_route() or .grpc_route()")
    || (AllFine(s.backends) && (s.http || s.grpc) && FirstFails(s.egress, e))
    || (SetupFine(s) && s.grpc && FirstFails(s.grpcServer, e))
    || (SetupFine(s) && GrpcFine(s) && s.scheduler == Some(Some(e)))
  }

  function Position(kind: TaskKind): nat {
    match kind
    case HttpServer => 0
    case GrpcServer => 1
    case MetricsServer => 2
    case SchedulerThread => 3
  }

  // Exactly these tasks, each once, in the order HTTP, gRPC, metrics, scheduler.
  predicate AreTasks(kinds: seq<TaskKind>, http: bool, grpc: bool, metrics: bool, scheduler: bool) {
    && (HttpServer in kinds <==> http) && (GrpcServer in kinds <==> grpc)
    && (MetricsServer in kinds <==> metrics) && (SchedulerThread in kinds <==> scheduler)
    && forall i, j :: 0 <= i < j < |kinds| ==> Position(kinds[i]) < Position(kinds[j])
  }

  predicate AsksFor(s: Setup, kind: TaskKind) {
    match kind
    case HttpServer => s.http
    case GrpcServer => s.grpc
    case MetricsServer => s.metrics
    case SchedulerThread => s.scheduler.Some?
  }

  // What `serve` answers, which tasks it leaves behind it, and how long it waits for them.
  ghost predicate ServeAnswers(s: Setup, env: Env, stop: Stops, r: Result<(), RuntimeError>, kinds: seq<TaskKind>,
                               afterSignalMs: nat)
  {
    && (!SetupFine(s) ==> kinds == [])
    && (SetupFine(s) && !GrpcFine(s) ==> AreTasks(kinds, s.http, false, false, false))
    && (SetupFine(s) && GrpcFine(s) && !Ready(s) ==> AreTasks(kinds, s.http, s.grpc, s.metrics, false))
    && (Ready(s) ==> AreTasks(kinds, s.http, s.grpc, s.metrics, s.scheduler.Some?))
    && (forall e :: EndsEarly(s, e) ==> r == Err(StartFailed(e)))
    && (Ready(s) <==> forall e :: !EndsEarly(s, e))
    && (Ready(s) ==> RunsAndWaits(s, env, stop, r, afterSignalMs))
  }

  ghost predicate RunsAndWaits(s: Setup, env: Env, stop: Stops, r: Result<(), RuntimeError>, afterSignalMs: nat) {
    exists drainedMs, status ::
      RunnerAnswers(true, s.secs, env, r, drainedMs, status) && WaitsFrom(s, stop, drainedMs, afterSignalMs)
  }

  // The return is no earlier than the end of any task asked for that stops within five seconds,
  // and no later than five seconds a task.
  ghost predicate WaitsFrom(s: Setup, stop: Stops, drainedMs: nat, afterSignalMs: nat) {
    && (forall kind, ms :: AsksFor(s, kind) && stop(kind) == Some(ms) && ms <= 5000 ==> drainedMs + ms <= afterSignalMs)
    && drainedMs <= afterSignalMs <= drainedMs + 5000 * ((if s.http then 1 else 0) + (if s.grpc then 1 else 0)
         + (if s.metrics then 1 else 0) + (if s.scheduler.Some? then 1 else 0))
  }

  // ---- The clock of a teardown ----

  // When each task ends, in milliseconds after it was told to stop; None never does.
  type Stops = TaskKind -> Option<nat>

  function Max(a: nat, b: nat): nat {
    if a < b then b else a
  }

  // A join begun at `now` ends when the task does or has already, or when its timeout fires.
  function JoinEnd(now: nat, told: nat, stop: Option<nat>): nat {
    if stop.None? || told + stop.value > now + JOIN_LIMIT_MS then now + JOIN_LIMIT_MS
    else Max(now, told + stop.value)
  }

  // Joins one after the other of tasks that were all told at one moment.
  function JoinAll(now: nat, told: nat, kinds: seq<TaskKind>, stop: Stops): nat
    decreases |kinds|
  {
    if kinds == [] then now else JoinAll(JoinEnd(now, told, stop(kinds[0])), told, kinds[1..], stop)
  }

  // The servers are told together; the scheduler only after the last server was joined.
  function TeardownEnd(s: Setup, stop: Stops, start: nat): nat {
    var served := JoinAll(start, start, Servers(s), stop);
    if s.scheduler.Some? then JoinEnd(served, served, stop(SchedulerThread)) else served
  }

  method CheckAll(steps: seq<Option<string>>) returns (error: Option<string>)
    ensures error == FirstError(steps)
  {
    for i := 0 to |steps|
      invariant FirstError(steps) == FirstError(steps[i..])
    {
      if steps[i].Some? {
        return steps[i];
      }
      assert steps[i..][1..] == steps[i + 1..];
    }
    error := None;
  }

  // A task that was never told to stop runs into the timeout.
  method Join(task: Task, stop: Stops, now: nat) returns (end: nat)
    ensures end == if task.shutdown.sender.Sent? then JoinEnd(now, task.shutdown.sender.at, stop(task.kind))
                   else now + JOIN_LIMIT_MS
  {
    end := now + JOIN_LIMIT_MS;
    if task.shutdown.sender.Sent? && stop(task.kind).Some? {
      var ends := task.shutdown.sender.at + stop(task.kind).value;
      if ends <= now {
        end := now;
      } else if ends < end {
        end := ends;
      }
    }
  }

  // The senders `serve` holds: one for every server it might spawn.
  datatype Channels = Channels(http: Oneshot, grpc: Oneshot, metrics: Oneshot, scheduler: Oneshot) {
    ghost function All(): set<Oneshot> {
      {http, grpc, metrics, scheduler}
    }

    ghost predicate Distinct() {
      http != grpc && http != metrics && http != scheduler
      && grpc != metrics && grpc != scheduler && metrics != scheduler
    }

    function Of(kind: TaskKind): Oneshot {
      match kind
      case HttpServer => http
      case GrpcServer => grpc
      case MetricsServer => metrics
      case SchedulerThread => scheduler
    }
  }

  method NewChannels() returns (ch: Channels)
    ensures fresh(ch.All()) && forall o :: o in ch.All() ==> o.sender == Held
    ensures ch.Distinct()
  {
    var http := new Oneshot();
    var grpc := new Oneshot();
    var metrics := new Oneshot();
    var scheduler := new Oneshot();
    ch := Channels(http, grpc, metrics, scheduler);
  }

  function Tasks(kinds: seq<TaskKind>, ch: Channels): seq<Task> {
    seq(|kinds|, i requires 0 <= i < |kinds| => Task(kinds[i], ch.Of(kinds[i])))
  }

  function KindsOf(tasks: seq<Task>): seq<TaskKind> {
    seq(|tasks|, i requires 0 <= i < |tasks| => tasks[i].kind)
  }

  method Prepare(s: Setup) returns (error: Option<string>)
    ensures error == SetupError(s)
  {
    error := CheckAll(s.backends);
    if error.Some? {
      return;
    }
    if !s.http && !s.grpc {
      return Some("Runtime: no handler registered — call .http_route() or .grpc_route()");
    }
    error := CheckAll(s.egress);
  }

  // Spawns the servers in order; an error returns at once and leaves the earlier ones running.
  method Spawn(s: Setup) returns (error: Option<string>, kinds: seq<TaskKind>)
    requires SetupError(s).None?
    ensures error == EarlyError(s) && kinds == Spawned(s)
  {
    kinds := if s.http then [HttpServer] else [];
    if s.grpc {
      error := CheckAll(s.grpcServer);
      if error.Some? {
        return;
      }
      kinds := kinds + [GrpcServer];
    }
    if s.metrics {
      kinds := kinds + [MetricsServer];
    }
    error := None;
    if s.scheduler.Some? {
      if s.scheduler.value.Some? {
        error := s.scheduler.value;
        assert Wanted(s) == kinds + [SchedulerThread];
        return;
      }
      kinds := kinds + [SchedulerThread];
    }
  }

  // Leaving the scope drops every sender that was not used.
  method DropSenders(ch: Channels)
    modifies ch.All()
    ensures forall o :: o in ch.All() ==>
      o.sender == if old(o.sender) == Held then SenderDropped else old(o.sender)
  {
    ch.http.DropSender();
    ch.grpc.DropSender();
    ch.metrics.DropSender();
    ch.scheduler.DropSender();
  }

  method Teardown(s: Setup, ch: Channels, stop: Stops, start: nat) returns (end: nat)
    requires ch.Distinct()
    modifies ch.All()
    ensures end == TeardownEnd(s, stop, start)
    ensures ch.http.sender == ch.grpc.sender == Sent(start)
    ensures s.metrics ==> ch.metrics.sender == Sent(start)
    ensures s.scheduler.Some? ==> ch.scheduler.sender == Sent(JoinAll(start, start, Servers(s), stop))
  {
    ch.http.Send(start);
    ch.grpc.Send(start);
    if s.metrics {
      ch.metrics.Send(start);
    }
    end := JoinServers(s, ch, stop, start);
    if s.scheduler.Some? {
      ch.scheduler.Send(end);
      end := Join(Task(SchedulerThread, ch.scheduler), stop, end);
    }
  }

  // The servers' joins, in spawn order.
  method JoinServers(s: Setup, ch: Channels, stop: Stops, start: nat) returns (end: nat)
    requires ch.http.sender == ch.grpc.sender == Sent(start)
    requires s.metrics ==> ch.metrics.sender == Sent(start)
    ensures end == JoinAll(start, start, Servers(s), stop)
  {
    end := start;
    ghost var joined: seq<TaskKind> := [];
    if s.http {
      JoinOneMore(start, start, joined, HttpServer, stop);
      joined := joined + [HttpServer];
      end := Join(Task(HttpServer, ch.http), stop, end);
    }
    if s.grpc {
      JoinOneMore(start, start, joined, GrpcServer, stop);
      joined := joined + [GrpcServer];
      end := Join(Task(GrpcServer, ch.grpc), stop, end);
    }
    if s.metrics {
      JoinOneMore(start, start, joined, MetricsServer, stop);
      joined := joined + [MetricsServer];
      end := Join(Task(MetricsServer, ch.metrics), stop, end);
    }
    assert joined == Servers(s);
  }

  lemma {:induction false} JoinOneMore(now: nat, told: nat, kinds: seq<TaskKind>, kind: TaskKind, stop: Stops)
    ensures JoinAll(now, told, kinds + [kind], stop) == JoinEnd(JoinAll(now, told, kinds, stop), told, stop(kind))
    decreases |kinds|
  {
    if kinds == [] {
      assert ([] + [kind])[1..] == [];
      var end := JoinEnd(now, told, stop(kind));
      assert JoinAll(end, told, [], stop) == end;
    } else {
      assert (kinds + [kind])[1..] == kinds[1..] + [kind];
      JoinOneMore(JoinEnd(now, told, stop(kinds[0])), told, kinds[1..], kind, stop);
    }
  }

  // Once everything is spawned: run until the signal, tear down, leave the scope.
  method RunAndTeardown(s: Setup, ch: Channels, env: Env, stop: Stops)
    returns (r: Result<(), RuntimeError>, ms: nat)
    requires ch.Distinct()
    modifies ch.All()
    ensures r == RunOutcome(FRESH, s.http || s.grpc, s.secs, env).1
    ensures ms == ServeMs(s, env, stop)
    ensures forall kind :: kind in Wanted(s) ==> ch.Of(kind).sender.Sent?
  {
    var manager := new DefaultRuntimeManager(s.http || s.grpc);
    r, ms := RunUntilSignal(manager, s.secs, env);
    ms := Teardown(s, ch, stop, ms);
    DropSenders(ch);
    WantedKinds(s);
  }

  // `afterSignalMs` runs from the signal, or from a start that failed.
  method Serve(s: Setup, env: Env, stop: Stops)
    returns (r: Result<(), RuntimeError>, tasks: seq<Task>, afterSignalMs: nat)
    ensures r == ServeResult(s, env)
    ensures TasksOf(s, tasks) && forall i :: 0 <= i < |tasks| ==> fresh(tasks[i].shutdown)
    ensures EarlyError(s).None? ==> afterSignalMs == ServeMs(s, env, stop)
    ensures ServeAnswers(s, env, stop, r, KindsOf(tasks), afterSignalMs)
  {
    tasks, afterSignalMs := [], 0;
    var error := Prepare(s);
    if error.Some? {
      r := Err(StartFailed(error.value));
    } else {
      r, tasks, afterSignalMs := SpawnAndRun(s, env, stop);
    }
    AnswersTo(s, env, stop, r, tasks, afterSignalMs);
  }

  // The tasks that are left behind: each waits on a channel of its own, which has resolved.
  ghost predicate TasksOf(s: Setup, tasks: seq<Task>)
    reads set i | 0 <= i < |tasks| :: tasks[i].shutdown
  {
    && |tasks| == |Spawned(s)|
    && (forall i :: 0 <= i < |tasks| ==>
          && tasks[i].kind == Spawned(s)[i]
          && tasks[i].shutdown.Resolved()
          && (if EarlyError(s).Some? then tasks[i].shutdown.sender.SenderDropped? else tasks[i].shutdown.sender.Sent?))
    && forall i, j :: 0 <= i < j < |tasks| ==> tasks[i].shutdown != tasks[j].shutdown
  }

  // What `serve` does once everything but the servers is set up.
  method SpawnAndRun(s: Setup, env: Env, stop: Stops)
    returns (r: Result<(), RuntimeError>, tasks: seq<Task>, afterSignalMs: nat)
    requires SetupError(s).None?
    ensures r == ServeResult(s, env)
    ensures TasksOf(s, tasks) && forall i :: 0 <= i < |tasks| ==> fresh(tasks[i].shutdown)
    ensures EarlyError(s).None? ==> afterSignalMs == ServeMs(s, env, stop)
  {
    var ch := NewChannels();
    var error, kinds := Spawn(s);
    tasks, afterSignalMs := Tasks(kinds, ch), 0;
    TasksHaveTheirOwn(s, ch);
    if error.Some? {
      DropSenders(ch);
      return Err(StartFailed(error.value)), tasks, 0;
    }
    r, afterSignalMs := RunAndTeardown(s, ch, env, stop);
  }

  lemma {:induction false} AnswersTo(s: Setup, env: Env, stop: Stops, r: Result<(), RuntimeError>, tasks: seq<Task>,
                                     ms: nat)
    requires r == ServeResult(s, env)
    requires |tasks| == |Spawned(s)| && forall i :: 0 <= i < |tasks| ==> tasks[i].kind == Spawned(s)[i]
    requires EarlyError(s).None? ==> ms == ServeMs(s, env, stop)
    ensures ServeAnswers(s, env, stop, r, KindsOf(tasks), ms)
  {
    assert KindsOf(tasks) == Spawned(s);
    ServeAnswersHold(s, env, stop);
  }

  // No two tasks wait on one channel.
  lemma {:induction false} TasksHaveTheirOwn(s: Setup, ch: Channels)
    requires ch.Distinct()
    ensures var tasks := Tasks(Spawned(s), ch);
      forall i, j :: 0 <= i < j < |tasks| ==> tasks[i].shutdown != tasks[j].shutdown
  {
    assert forall i, j :: 0 <= i < j < |Wanted(s)| ==> Wanted(s)[i] != Wanted(s)[j];
    EarlyReturnLeavesAPrefix(s);
  }

  lemma {:induction false} WantedKinds(s: Setup)
    ensures MetricsServer in Wanted(s) ==> s.metrics
    ensures SchedulerThread in Wanted(s) ==> s.scheduler.Some?
  {}

  // ---- Main results ----

  // From the signal, or the failed start, to the return.
  function ServeMs(s: Setup, env: Env, stop: Stops): nat {
    TeardownEnd(s, stop, RunOutcome(FRESH, s.http || s.grpc, s.secs, env).2)
  }

  lemma {:induction false} JoinsTakeFiveEach(now: nat, told: nat, kinds: seq<TaskKind>, stop: Stops)
    ensures now <= JoinAll(now, told, kinds, stop) <= now + JOIN_LIMIT_MS * |kinds|
    decreases |kinds|
  {
    if kinds == [] {
    } else {
      JoinsTakeFiveEach(JoinEnd(now, told, stop(kinds[0])), told, kinds[1..], stop);
    }
  }

  // The limit is used up exactly by tasks that are still there when each of their timeouts fires.
  lemma {:induction false} FiveEachIff(now: nat, told: nat, kinds: seq<TaskKind>, stop: Stops)
    ensures JoinAll(now, told, kinds, stop) == now + JOIN_LIMIT_MS * |kinds| <==>
      forall i :: 0 <= i < |kinds| ==>
        stop(kinds[i]).None? || told + stop(kinds[i]).value >= now + JOIN_LIMIT_MS * (i + 1)
    decreases |kinds|
  {
    if kinds == [] {
    } else {
      var next, rest := JoinEnd(now, told, stop(kinds[0])), kinds[1..];
      JoinsTakeFiveEach(next, told, rest, stop);
      if next == now + JOIN_LIMIT_MS {
        FiveEachIff(next, told, rest, stop);
        assert forall i :: 1 <= i < |kinds| ==> kinds[i] == rest[i - 1];
        assert forall i :: 0 <= i < |rest| ==> rest[i] == kinds[i + 1];
      }
    }
  }

  ghost predicate AllStop(kinds: seq<TaskKind>, stop: Stops) {
    forall i :: 0 <= i < |kinds| ==> stop(kinds[i]).Some?
  }

  // The longest any of the tasks needs.
  function Slowest(kinds: seq<TaskKind>, stop: Stops): nat {
    if kinds == [] then 0 else Max(stop(kinds[0]).GetOr(0), Slowest(kinds[1..], stop))
  }

  // Tasks that were told together stop together: their joins end with the slowest, and exactly
  // then if none of them outlasts its timeout.
  lemma {:induction false} JoinsEndWithTheSlowest(now: nat, told: nat, kinds: seq<TaskKind>, stop: Stops)
    requires told <= now && AllStop(kinds, stop)
    ensures JoinAll(now, told, kinds, stop) <= Max(now, told + Slowest(kinds, stop))
    ensures Slowest(kinds, stop) <= JOIN_LIMIT_MS ==>
      JoinAll(now, told, kinds, stop) == Max(now, told + Slowest(kinds, stop))
    decreases |kinds|
  {
    if kinds == [] {
    } else {
      JoinsEndWithTheSlowest(JoinEnd(now, told, stop(kinds[0])), told, kinds[1..], stop);
    }
  }

  // So a teardown of prompt servers costs the slowest of them, not their sum, and then the
  // scheduler's own time.
  lemma {:induction false} PromptTeardown(s: Setup, stop: Stops, start: nat)
    requires AllStop(Servers(s), stop) && Slowest(Servers(s), stop) <= JOIN_LIMIT_MS
    ensures TeardownEnd(s, stop, start) ==
      start + Slowest(Servers(s), stop) + if s.scheduler.Some? then JoinEnd(0, 0, stop(SchedulerThread)) else 0
  {
    JoinsEndWithTheSlowest(start, start, Servers(s), stop);
  }

  // From the signal to the return: the drain limit plus five seconds a task, however slow the
  // joins are; and the result does not depend on them.
  lemma {:induction false} ServeReturnsInTime(s: Setup, env: Env, stop: Stops)
    requires EarlyError(s).None?
    ensures ServeMs(s, env, stop) <= s.secs * 1000 + JOIN_LIMIT_MS * |Spawned(s)|
    ensures |Spawned(s)| <= 4
  {
    var drained := RunOutcome(FRESH, s.http || s.grpc, s.secs, env).2;
    RunnerKeepsItsLimit(FRESH, s.http || s.grpc, s.secs, env);
    JoinsTakeFiveEach(drained, drained, Servers(s), stop);
  }

  // The answer of the specification, from the flags, the drain and the clock.
  lemma {:induction false} ServeAnswersHold(s: Setup, env: Env, stop: Stops)
    ensures ServeAnswers(s, env, stop, ServeResult(s, env), Spawned(s), ServeMs(s, env, stop))
    ensures EarlyError(s).Some? ==>
      forall ms :: ServeAnswers(s, env, stop, ServeResult(s, env), Spawned(s), ms)
  {
    EarlyErrorIs(s);
    SpawnedAreAsked(s);
    FreshRunnerAnswers(s.http || s.grpc, s.secs, env);
    var (sh, r, drainedMs) := RunOutcome(FRESH, s.http || s.grpc, s.secs, env);
    TeardownWaits(s, stop, drainedMs);
    if EarlyError(s).None? {
      assert RunnerAnswers(true, s.secs, env, r, drainedMs, sh.status);
    }
  }

  lemma {:induction false} FirstErrorIs(steps: seq<Option<string>>)
    ensures FirstError(steps).None? <==> AllFine(steps)
    ensures forall e :: FirstError(steps) == Some(e) <==> FirstFails(steps, e)
  {
    if steps == [] {
    } else {
      FirstErrorIs(steps[1..]);
      forall e ensures FirstError(steps) == Some(e) <==> FirstFails(steps, e) {
        FirstFailsLater(steps, e);
      }
    }
  }

  lemma {:induction false} FirstFailsLater(steps: seq<Option<string>>, e: string)
    requires steps != []
    ensures AllFine(steps) <==> steps[0].None? && AllFine(steps[1..])
    ensures FirstFails(steps, e) <==> steps[0] == Some(e) || (steps[0].None? && FirstFails(steps[1..], e))
  {
    var rest := steps[1..];
    assert forall i :: 0 <= i < |rest| ==> rest[i] == steps[i + 1];
    assert forall i :: 1 <= i < |steps| ==> steps[i] == rest[i - 1];
  }

  lemma {:induction false} EarlyErrorIs(s: Setup)
    ensures SetupError(s).None? <==> SetupFine(s)
    ensures GrpcError(s).None? <==> GrpcFine(s)
    ensures EarlyError(s).None? <==> Ready(s)
    ensures forall e :: EarlyError(s) == Some(e) <==> EndsEarly(s, e)
  {
    FirstErrorIs(s.backends);
    FirstErrorIs(s.egress);
    FirstErrorIs(s.grpcServer);
    forall e ensures EarlyError(s) == Some(e) <==> EndsEarly(s, e) {
      EarlyErrorIsThis(s, e);
    }
  }

  lemma {:induction false} EarlyErrorIsThis(s: Setup, e: string)
    ensures EarlyError(s) == Some(e) <==> EndsEarly(s, e)
  {
    FirstErrorIs(s.backends);
    FirstErrorIs(s.egress);
    FirstErrorIs(s.grpcServer);
    if !AllFine(s.backends) {
      assert FirstError(s.backends).Some?;
    } else if s.http || s.grpc {
      assert SetupError(s) == FirstError(s.egress);
    }
  }

  lemma {:induction false} SpawnedAreAsked(s: Setup)
    ensures SetupError(s).Some? ==> Spawned(s) == []
    ensures SetupError(s).None? && GrpcError(s).Some? ==> AreTasks(Spawned(s), s.http, false, false, false)
    ensures SetupError(s).None? && GrpcError(s).None? ==>
      AreTasks(Spawned(s), s.http, s.grpc, s.metrics, s.scheduler.Some? && s.scheduler.value.None?)
  {
    ServersAreAsked(s);
    if SetupError(s).None? && GrpcError(s).None? {
      if SchedulerError(s).Some? {
        assert Wanted(s)[..|Wanted(s)| - 1] == Servers(s);
      } else if s.scheduler.None? {
        assert Wanted(s) == Servers(s);
      } else {
        SchedulerComesLast(Servers(s), s.http, s.grpc, s.metrics);
      }
    }
  }

  lemma {:induction false} ServersAreAsked(s: Setup)
    ensures AreTasks(Servers(s), s.http, s.grpc, s.metrics, false)
  {}

  lemma {:induction false} SchedulerComesLast(kinds: seq<TaskKind>, http: bool, grpc: bool, metrics: bool)
    requires AreTasks(kinds, http, grpc, metrics, false)
    ensures AreTasks(kinds + [SchedulerThread], http, grpc, metrics, true)
  {
    forall i | 0 <= i < |kinds| ensures Position(kinds[i]) < 3 {
      assert kinds[i] in kinds;
    }
    assert (kinds + [SchedulerThread])[|kinds|] == SchedulerThread;
  }

  lemma {:induction false} JoinAllWaits(now: nat, told: nat, kinds: seq<TaskKind>, stop: Stops, kind: TaskKind, ms: nat)
    requires told <= now && kind in kinds && stop(kind) == Some(ms) && ms <= JOIN_LIMIT_MS
    ensures told + ms <= JoinAll(now, told, kinds, stop)
    decreases |kinds|
  {
    var next := JoinEnd(now, told, stop(kinds[0]));
    JoinsTakeFiveEach(next, told, kinds[1..], stop);
    if kind != kinds[0] {
      JoinAllWaits(next, told, kinds[1..], stop, kind, ms);
    }
  }

  lemma {:induction false} TeardownWaits(s: Setup, stop: Stops, start: nat)
    ensures WaitsFrom(s, stop, start, TeardownEnd(s, stop, start))
  {
    JoinsTakeFiveEach(start, start, Servers(s), stop);
    forall kind, ms | AsksFor(s, kind) && stop(kind) == Some(ms) && ms <= 5000
      ensures start + ms <= TeardownEnd(s, stop, start)
    {
      if kind in Servers(s) {
        JoinAllWaits(start, start, Servers(s), stop, kind, ms);
      }
    }
  }

  // An early return stops somewhere along the wanted list, and never at its end.
  lemma {:induction false} EarlyReturnLeavesAPrefix(s: Setup)
    ensures Spawned(s) <= Wanted(s)
    ensures EarlyError(s).None? <==> Spawned(s) == Wanted(s) != []
  {}

  // The result is the runner's own unless setting up failed, and then nothing was started.
  lemma {:induction false} ServeOkMeansFullCycle(s: Setup, env: Env)
    ensures ServeResult(s, env).Ok? <==>
      EarlyError(s).None? && Statuses(RunOutcome(FRESH, s.http || s.grpc, s.secs, env).0.log) == FULL_CYCLE
  {
    RunnerFollowsTheCycle(s.http || s.grpc, s.secs, env);
  }
}
