# Verified model of swe-edge-bootstrap

This project models the parts of swe-edge-bootstrap that hold real state, loops or arithmetic,
and proves what they keep over every input, every run and every interleaving.

| part | files |
|---|---|
| latency ring and its 99th percentile | `RingBuffer.dfy`, `Percentile.dfy` |
| load accounting: shared counters, sampler, decorators | `TrafficCounters.dfy`, `LoadAccounting.dfy`, `LoadStack.dfy` |
| lifecycle: manager, interleavings, runner, `serve` | `RuntimeManager.dfy`, `RuntimeInterleaving.dfy`, `DaemonRunner.dfy`, `Serve.dfy` |
| layered configuration | `ConfigOverride.dfy`, `ConfigLoader.dfy`, `ConfigSections.dfy`, `Strings.dfy` |
| affected packages in the pre-commit hook | `Worklist.dfy`, `AffectedPackages.dfy` |
| route tables | `HttpJob.dfy`, `GrpcJob.dfy` |
| Prometheus text | `PrometheusText.dfy` |

`Wrappers.dfy` holds `Option`, `Result` and the wrapping 64-bit integers. `dafny verify
dfyconfig.toml` checks everything.

How the pieces fit. Code that updates state in place is a class or a method, proved equal to a
specification function of the old state; the laws are lemmas about that function. Where tasks run
concurrently, a step machine performs one atomic operation, or one section between awaits and
locks, at a time. Its steps use the same functions, and a lemma says that the steps of an
undisturbed call add up to the method (`OnEndIsItsSteps`, `FiveStepsAreATick`,
`StartIsItsSections`, `ShutdownIsItsSections`). What an operation answers is also stated without
its specification function, in literals and in terms of its inputs alone (`Answers`, `RunnerAnswers`,
`ServeAnswers`, `Prints`, `PathRuns`, `ScopeIs`). Values the outside world decides (whether a file
exists, what a sub-call answers, how long a task takes to stop) are parameters.

What turned out not to hold, with the exact condition proved instead:

- A capacity that does not divide 2^64 makes the ring keep a stale sample once its head has
  wrapped (`WindowIffCapacityDivides`); the capacity in use, 1024, divides it.
- One sampler tick may show more errors than requests (`OneTickMayShowMoreErrors`); by how much at
  most (`TickExcess`) and exactly when (`NextTickIff`, `TickAfterTickIff`).
- The in-flight gauge is not the number of calls in progress once a monitored call was dropped, and
  only then (`DroppedCallStaysInFlight`, `InFlightIsOpenIff`, `DroppedForGood`).
- A shutdown that overlaps a start can return Ok and leave the manager Running. This can happen
  exactly when a start call is still on its way (`ShutdownMayLoseToStart`, `RunsAgainIff`).
- The XDG Base Directory Specification gives the default for `XDG_CONFIG_DIRS` when it is unset or
  empty, and ignores relative paths. The code uses the default only when it is unset, and keeps
  relative segments (`SystemDirsMissSpec`); the two agree exactly as `SystemDirsMeetSpecIff` says.
- The comment on `ApplicationConfigLoader` (lines 17-19) says each directory's tenant file overlays
  the previous result, read here as: over the base chain, lowest directory first. The code reads
  one tenant file, that of the highest directory that has one. `LowerTenantFileIsIgnored` is an
  input on which they differ, `TenantAsDocumentedIff` says when a field agrees. A tenant id set in
  an earlier layer is kept (`TenantIdIsRequested`).
- `RuntimeConfig` documents `[services.<name>]`, `[metrics_backend]`, `[tracer_backend]`,
  `[log_backend]` and `[intrusion]` sections (lines 91-151 of
  `scm/main/port/runtime/src/types/runtime_config.rs`). The overlay has no such fields, so loading
  leaves them at their defaults, whatever the files hold (`LoadField`).
- The merge of sections is not associative (`MergeAssociativeIff`), and `a.b` can hold more than
  the merged `a` has at `b` (`ShadowedEntryComesBack`, `ReplacedParentKeepsChild`); in any readable
  files they are equal exactly as `SubsectionIsParentIff` says.
- A failed HTTP registration can still replace the handler of a live route (`DuplicateTakesOver`,
  `FailureChangesNothingIff`). The only caller, `http_route_with` in
  `scm/main/adapter/src/core/runtime/types/runtime_builder.rs` (lines 114-115), panics on a failure,
  so that take-over is seen only inside `register_route`; a second handler with the same id and
  another pattern registers without an error and takes over in the same way (`LastAcceptedRuns`).
- A gRPC handler that the registry refuses stays health-checked though it cannot be reached, until
  its id is claimed (`GrpcTablesAgreeIff`).
- Label values are printed without escaping (`QuotesCollide`, `BreaksCollide`); exactly which
  characters make that ambiguous, for well-formed names, is `DeterminedIff`.

Two properties hold in the form the tools give the hook its data, with the exact condition proved.
It keeps reverse dependencies as words in a string, which is faithful exactly when ids contain no
blanks (`DependentsAreEdgesIff`); the ids it keeps are `path+file` URLs, in which blanks are
percent-encoded. And it looks up the name of every affected id, which exists exactly as
`AffectedInWorkspaceIff` says.

## Model

| member | source | states |
|---|---|---|
| `RingBuffers.RingBuffer.constructor` | `scm/main/port/monitor/src/types/ring_buffer.rs:11-16` | A new ring has the given number of slots, all zero, and its head at 0. |
| `RingBuffers.RingBuffer.Push` | `scm/main/port/monitor/src/types/ring_buffer.rs:19-23` | In place: one slot is overwritten and the wrapping head moves on; everything else stays. No slots, no push. |
| `RingBuffers.RingBuffer.P99Us` | `scm/main/port/monitor/src/types/ring_buffer.rs:26-34` | The filter, sort and floor-rank loop computes the percentile of the current slots, 0 with no non-zero sample. |
| `RingBuffers.SlotsAfter` | `scm/main/port/monitor/src/types/ring_buffer.rs:19-23` | After any pushes, each of the latest values sits at its own position modulo the capacity and unused slots are zero, also past head wrap-around when the capacity divides 2^64. |
| `RingBuffers.HoldsLatestWhileSlotsSurvive` | `scm/main/port/monitor/src/types/ring_buffer.rs:18-23` | The ring then holds exactly the last min(n, capacity) values and zeros elsewhere: each push evicts the oldest. |
| `RingBuffers.WindowIffCapacityDivides` | `scm/main/port/monitor/src/types/ring_buffer.rs:18-23` | "Overwriting the oldest" is true of every run if and only if the capacity divides 2^64. |
| `RingBuffers.StaleAfterWrap` | `scm/main/port/monitor/src/types/ring_buffer.rs:22` | For every other capacity, a concrete run after which the value that should have been evicted is still there. |
| `RingBuffers.P99OfRing` | `scm/main/port/monitor/src/types/traffic_counters.rs:11` | With the 1024 slots in use, the percentile of the ring is the percentile of the last 1024 latencies, after any run. |
| `Percentile.P99Index` | `scm/main/port/monitor/src/types/ring_buffer.rs:32` | The rank is always an index into the samples. |
| `Percentile.P99IsTheRank` | `scm/main/port/monitor/src/types/ring_buffer.rs:27-33` | The result is the one sample with fewer than max(1, floor(99n/100)) samples below it and at least that many at or below it; both directions, without mentioning sorting. |
| `Percentile.P99Bounds` | `scm/main/port/monitor/src/types/ring_buffer.rs:27-33` | It is a non-zero sample; at least one and at least floor(99n/100) samples are at or below it, at most ceil(n/100) above. |
| `Percentile.P99OfNothing` | `scm/main/port/monitor/src/types/ring_buffer.rs:28-30` | With no sample above zero the percentile is 0. |
| `Percentile.P99DependsOnMultiset` | `scm/main/port/monitor/src/types/ring_buffer.rs:31` | Rotating or permuting the window cannot change the percentile. |
| `Percentile.NonZeroDropsZeros` | `scm/main/port/monitor/src/types/ring_buffer.rs:27` | Slots never written do not count. |
| `TrafficCounting.TrafficCounters.constructor` | `scm/main/port/monitor/src/types/traffic_counters.rs:31-39` | Counters start at zero over an empty ring of 1024. |
| `TrafficCounting.TrafficCounters.OnStart` | `scm/main/port/monitor/src/types/traffic_counters.rs:41-44` | In-flight goes up by one, wrapping; nothing else changes. |
| `TrafficCounting.TrafficCounters.OnEnd` | `scm/main/port/monitor/src/types/traffic_counters.rs:51-61` | The whole new shared state of a call that ends undisturbed. |
| `TrafficCounting.TrafficCounters.SampleOnce` | `scm/main/adapter/src/core/monitor/sampler.rs:28-37` | One undisturbed tick reads, drains by swap, measures and publishes; the gauges are what was read. |
| `TrafficCounting.Handle` | `scm/main/adapter/src/core/monitor/http_load_monitor.rs:26-51` | A monitored call that completes counts exactly one start and one end, an error exactly when the inner call failed, and hands the inner result back. |
| `LoadAccounting.OnEndIsItsSteps` | `scm/main/port/monitor/src/types/traffic_counters.rs:51-61` | The atomic steps of one call, run without interruption, add up to the method `OnEnd`. |
| `LoadAccounting.FiveStepsAreATick` | `scm/main/adapter/src/core/monitor/sampler.rs:28-37` | The sampler steps, run without interruption, add up to the method `SampleOnce`. |
| `LoadAccounting.EveryRunKeepsInv` | `scm/main/port/monitor/src/types/traffic_counters.rs:41-61` | Every interleaving of any number of calls, dropped futures and sampler steps keeps all accounting laws. |
| `LoadAccounting.RequestsConserved` | `scm/main/adapter/src/core/monitor/sampler.rs:29` | Published request gauges, the value the sampler holds, the pending counter and what overflow lost add up to the calls past their request step; nothing is lost below 2^64 calls. |
| `LoadAccounting.ErrorsConserved` | `scm/main/adapter/src/core/monitor/sampler.rs:30` | The same conservation for errors. |
| `LoadAccounting.ErrorsNeverOvertakeRequests` | `scm/main/port/monitor/src/types/traffic_counters.rs:53-59` | Cumulatively, errors shown never exceed requests shown, held and pending. |
| `LoadAccounting.OneTickMayShowMoreErrors` | `scm/main/adapter/src/core/monitor/sampler.rs:29-30` | A single tick may: a concrete interleaving whose second tick shows an error and no request. |
| `LoadAccounting.ErrorsMeanwhile` | `scm/main/port/monitor/src/types/traffic_counters.rs:53-59` | Between any two states of a run, the errors counted are at most the requests counted plus the failed calls between their two counting steps at the beginning, less those at the end. |
| `LoadAccounting.TickExcess` | `scm/main/adapter/src/core/monitor/sampler.rs:28-31` | In every interleaving, what a tick shows of errors is at most its requests, plus the calls late when the tick before was drained, plus requests slipping between its own two swaps (with the exact terms, while no counter overflows). |
| `LoadAccounting.NextTickIff` | `scm/main/adapter/src/core/monitor/sampler.rs:28-31` | After any run, the next undisturbed tick can show more errors than requests if and only if pending errors and late calls outnumber the pending requests (which are below 2^64 - 1). |
| `LoadAccounting.TickAfterTickIff` | `scm/main/adapter/src/core/monitor/sampler.rs:28-31` | Right after an undisturbed tick: if and only if some failed call was between its request step and its error step. |
| `LoadAccounting.InFlightCountsOpenAndDropped` | `scm/main/adapter/src/core/monitor/grpc_load_monitor.rs:27-65` | In every reachable state in-flight is the number of open plus dropped monitored calls, exactly while that is below 2^63. |
| `LoadAccounting.InFlightIsOpenIff` | `scm/main/adapter/src/core/monitor/http_load_monitor.rs:33-50` | Below 2^63 it is the number of calls in progress if and only if no monitored call was ever dropped. |
| `LoadAccounting.DroppedCallStaysInFlight` | `scm/main/adapter/src/core/monitor/http_load_monitor.rs:33-50` | The run of one call that is dropped: nothing in progress, and the gauge at 1. |
| `LoadAccounting.DroppedForGood` | `scm/main/adapter/src/core/monitor/http_load_monitor.rs:36-50` | A dropped call stays dropped in every continuation, so it never comes off the gauge. |
| `LoadAccounting.TotalCountsServedCalls` | `scm/main/port/monitor/src/types/traffic_counters.rs:53-55` | The request total counts the completed monitored calls, exactly so when no call is inside `on_end`. |
| `LoadAccounting.TotalCountsApplicationCalls` | `scm/main/adapter/src/core/runtime/runtime_builder_serve.rs:260-341` | With guard, reflection router and monitor stacked as `serve` stacks them, the request total counts exactly the completed calls that were allowed and not routed to reflection. |
| `LoadAccounting.MeasuresLatestLatencies` | `scm/main/adapter/src/core/monitor/sampler.rs:31` | Whenever the sampler measures, in any interleaving, it gets the percentile of the last 1024 recorded latencies. |
| `LoadAccounting.LatenciesAreTheCalls` | `scm/main/port/monitor/src/types/traffic_counters.rs:60` | In every reachable state the latencies pushed are those of the completed monitored calls, one for one. |
| `LoadAccounting.TickShows` | `scm/main/adapter/src/core/monitor/sampler.rs:28-37` | After any run, an undisturbed tick shows the open and dropped calls, exactly the requests and errors counted and not shown before, and the percentile of the last 1024 latencies, and leaves both counters at zero. |
| `LoadStack.MonitoredIffForApplication` | `scm/main/adapter/src/core/composite/composite_grpc_ingress.rs:27-33` | A call passes a load monitor if and only if the guard allows it and, with reflection on, it is not a reflection call. |
| `LoadStack.ToReflectionIff` | `scm/main/adapter/src/core/composite/composite_grpc_ingress.rs:27-33` | A call is routed to reflection if and only if it is a gRPC call whose method begins with `/grpc.reflection.`. |
| `RuntimeManagers.DefaultRuntimeManager.constructor` | `scm/main/adapter/src/core/runtime/manager/default_runtime_manager.rs:31-48` | A new manager is Stopped and was never started. |
| `RuntimeManagers.DefaultRuntimeManager.Start` | `scm/main/adapter/src/core/runtime/manager/default_runtime_manager.rs:104-181` | New status, start time, history and result of an undisturbed start, for every outcome of the background start. |
| `RuntimeManagers.DefaultRuntimeManager.Shutdown` | `scm/main/adapter/src/core/runtime/manager/default_runtime_manager.rs:183-208` | The same for a shutdown, including one whose caller gives up waiting. |
| `RuntimeManagers.StartAnswers` | `scm/main/adapter/src/core/runtime/manager/default_runtime_manager.rs:104-181` | From any state: a running manager is left alone; else Ok exactly with an ingress and a successful background start, then Running with the start time set, and otherwise Starting with the old start time and the reason. |
| `RuntimeManagers.ShutdownAnswers` | `scm/main/adapter/src/core/runtime/manager/default_runtime_manager.rs:183-208` | From any state: a stopped manager is left alone; else Stopped exactly when the drain succeeded, and otherwise Stopping with its error, if it had one. |
| `RuntimeManagers.DefaultRuntimeManager.Health` | `scm/main/adapter/src/core/runtime/manager/default_runtime_manager.rs:210-308` | The components of the lifecycle report in order, none if that report failed, then one per probe; a probe that answers is healthy; uptime is 0 before a start. |
| `RuntimeInterleaving.EveryRunKeepsInv` | `scm/main/adapter/src/core/runtime/manager/default_runtime_manager.rs:104-308` | Every interleaving of start, shutdown and health calls, cut at awaits and locks and with cancellation, keeps the invariant. |
| `RuntimeInterleaving.RunningHasStarted` | `scm/main/adapter/src/core/runtime/manager/default_runtime_manager.rs:162-166` | Running with the status lock free comes with a start time, Degraded is never reached, and a health report that read Running read a start time. |
| `RuntimeInterleaving.StatusIsEarned` | `scm/main/adapter/src/core/runtime/manager/default_runtime_manager.rs:120-202` | Running is written only by a call whose own background start succeeded, Stopped only by a call whose own lifecycle shutdown succeeded. |
| `RuntimeInterleaving.ShutdownMayLoseToStart` | `scm/main/adapter/src/core/runtime/manager/default_runtime_manager.rs:183-208` | A concrete overlap in which start and shutdown both return Ok and the manager is left Running. |
| `RuntimeInterleaving.RunsAgainIff` | `scm/main/adapter/src/core/runtime/manager/default_runtime_manager.rs:104-208` | Exactly when: a manager that is not Running can come to run without a new start if and only if some start call is still on its way (and will not be turned back for want of an ingress). |
| `RuntimeInterleaving.StartArrives` | `scm/main/adapter/src/core/runtime/manager/default_runtime_manager.rs:106-166` | Any start call still on its way can be completed to Running by scheduling it alone. |
| `RuntimeInterleaving.StartIsItsSections` | `scm/main/adapter/src/core/runtime/manager/default_runtime_manager.rs:104-181` | The sections of an undisturbed start add up to the method `Start`. |
| `RuntimeInterleaving.ShutdownIsItsSections` | `scm/main/adapter/src/core/runtime/manager/default_runtime_manager.rs:183-208` | The sections of an undisturbed shutdown add up to the method `Shutdown`. |
| `DaemonRunning.RunUntilSignal` | `scm/main/adapter/src/core/runner/runner.rs:19-40` | Final manager state, result and time for every behaviour of the drain; from a fresh manager: Ok exactly if started and drained without error within 1000 ms a second, a timeout exactly if the drain took longer or hung, a failure exactly with the drain's error in time, and the elapsed milliseconds of each. |
| `DaemonRunning.FreshRunnerAnswers` | `scm/main/adapter/src/core/runner/runner.rs:19-40` | The same of the specification function, in numbers. |
| `DaemonRunning.RunnerFollowsTheCycle` | `scm/main/adapter/src/core/runner/runner.rs:19-40` | A fresh manager passes only through prefixes of Starting, Running, Stopping, Stopped; Ok if and only if the whole cycle, with exactly one background start and one lifecycle shutdown. |
| `DaemonRunning.RunnerErrors` | `scm/main/adapter/src/core/runner/runner.rs:28-39` | A start error means status Starting and no shutdown call; a timeout error means, and is meant by, a drain that ran over its limit with status Stopping. |
| `DaemonRunning.RunnerKeepsItsLimit` | `scm/main/adapter/src/core/runner/runner.rs:34-39` | The runner returns within the limit of the signal. |
| `Serving.Oneshot.Send` | `scm/main/adapter/src/core/runtime/runtime_builder_serve.rs:456-460` | Sending resolves the receiver. |
| `Serving.Oneshot.DropSender` | `scm/main/adapter/src/core/runtime/runtime_builder_serve.rs:259-386` | Dropping an unused sender resolves the receiver too; a sent one stays sent. |
| `Serving.Prepare` | `scm/main/adapter/src/core/runtime/runtime_builder_serve.rs:53-245` | The error of the first failing set-up step, in source order, including "no handler registered". |
| `Serving.Spawn` | `scm/main/adapter/src/core/runtime/runtime_builder_serve.rs:259-436` | Which servers exist when spawning ends, and with which error. |
| `Serving.SpawnedAreAsked` | `scm/main/adapter/src/core/runtime/runtime_builder_serve.rs:259-436` | From the flags alone: HTTP, gRPC, metrics and scheduler tasks exist exactly as asked for, each once and in that order; only HTTP on a gRPC error, all but the scheduler on a scheduler error, none before. |
| `Serving.EarlyErrorIs` | `scm/main/adapter/src/core/runtime/runtime_builder_serve.rs:53-436` | `serve` ends early exactly with the first failing step, in source order, or for want of a handler. |
| `Serving.Join` | `scm/main/adapter/src/core/runtime/runtime_builder_serve.rs:461-483` | A join ends when the task has ended, or five seconds after it began. |
| `Serving.Teardown` | `scm/main/adapter/src/core/runtime/runtime_builder_serve.rs:456-484` | The clock of a teardown: http, gRPC and metrics are told at its start, the scheduler when the last of them was joined, and the end time is that of the joins one after the other. |
| `Serving.Serve` | `scm/main/adapter/src/core/runtime/runtime_builder_serve.rs:53-485` | On every way out each spawned task has a receiver of its own that is resolved, by a drop after an early error and by a send otherwise; from the flags alone which tasks there are; the early error, or the result of the drain in numbers; and a return no earlier than any task asked for that ends within five seconds. |
| `Serving.TeardownWaits` | `scm/main/adapter/src/core/runtime/runtime_builder_serve.rs:456-484` | The end of a teardown is no earlier than that of any task asked for that stops within 5000 ms, and no later than 5000 ms a task. |
| `Serving.JoinsTakeFiveEach` | `scm/main/adapter/src/core/runtime/runtime_builder_serve.rs:461-469` | Joining any list of tasks one after the other takes at most five seconds each. |
| `Serving.FiveEachIff` | `scm/main/adapter/src/core/runtime/runtime_builder_serve.rs:461-469` | It takes all of that if and only if each task is still running when its own timeout fires. |
| `Serving.JoinsEndWithTheSlowest` | `scm/main/adapter/src/core/runtime/runtime_builder_serve.rs:456-469` | Tasks told together are joined no later than the slowest of them ends, and exactly then when none outlasts five seconds. |
| `Serving.PromptTeardown` | `scm/main/adapter/src/core/runtime/runtime_builder_serve.rs:456-484` | So prompt servers cost a teardown the maximum of their times, not the sum, and then the scheduler's time. |
| `Serving.ServeReturnsInTime` | `scm/main/adapter/src/core/runtime/runtime_builder_serve.rs:434-484` | From the signal to the return: at most the drain limit plus five seconds per spawned task. |
| `Serving.EarlyReturnLeavesAPrefix` | `scm/main/adapter/src/core/runtime/runtime_builder_serve.rs:259-436` | What was spawned is a prefix of what was wanted, and all of it if and only if there was no early error. |
| `Serving.ServeOkMeansFullCycle` | `scm/main/adapter/src/core/runtime/runtime_builder_serve.rs:442-484` | `serve` returns Ok if and only if nothing failed early and the manager went through its full cycle. |
| `ConfigOverrides.ApplyTo` | `scm/main/adapter/src/core/config/types/config_override.rs:41-93` | Field by field assignment computes the overlaid configuration. |
| `ConfigOverrides.OverlaidField` | `scm/main/adapter/src/core/config/types/config_override.rs:41-93` | Each of the sixteen fields takes its setting or keeps its value, an empty tenant id sets nothing, and the other six fields are untouched. |
| `ConfigOverrides.CopyRestores` | `scm/main/adapter/src/core/config/types/config_override.rs:41-93` | An overlay copied from a configuration, field name by field name, gives all those fields back over any other configuration. |
| `ConfigOverrides.ChainField` | `scm/main/adapter/src/core/config/loader/application_config_loader.rs:82-88` | After any chain of overlays each field has the value of the last overlay that sets it, else the base value. |
| `ConfigOverrides.OverlaidTwice` | `scm/main/adapter/src/core/config/types/config_override.rs:41-93` | Two overlays in a row are one combined overlay. |
| `ConfigOverrides.ChainIsOneOverlay` | `scm/main/adapter/src/core/config/loader/application_config_loader.rs:82-88` | Any chain is one combined overlay, over any base. |
| `ConfigLoading.ApplyFileIfExists` | `scm/main/adapter/src/core/config/loader/application_config_loader.rs:90-110` | A missing file changes nothing; no metadata, more than 1048576 bytes or unreadable is an Io error, malformed a Parse error; otherwise the overlay is applied. |
| `ConfigLoading.PathsAre` | `scm/main/adapter/src/core/config/loader/application_config_loader.rs:85` | The files are `<dir>/application.toml` and `<dir>/tenants/<id>.toml`. |
| `ConfigLoading.LoadBase` | `scm/main/adapter/src/core/config/loader/application_config_loader.rs:82-88` | The loop over directories gives the whole chain, or the error of the first bad file. |
| `ConfigLoading.FirstErrorWins` | `scm/main/adapter/src/core/config/loader/application_config_loader.rs:85` | An error in a lower directory is the error of the load, whatever the later directories hold. |
| `ConfigLoading.BaseIsLookup` | `scm/main/adapter/src/core/config/loader/application_config_loader.rs:82-88` | The fold refines a lookup: each field has the value of the first directory, searched from the highest, that sets it, else the default; the six fields outside the overlay keep their defaults. |
| `ConfigLoading.Xdg` | `scm/main/adapter/src/core/config/loader/application_config_loader.rs:57-80` | Reversing the segments and appending yields the search order: explicit directory, user directory, system directories as listed. |
| `ConfigLoading.SearchOrderIs` | `scm/main/adapter/src/core/config/loader/application_config_loader.rs:57-80` | The search order is the explicit directory if set, the user directory if known, then the system directories as listed. |
| `ConfigLoading.XdgPrecedence` | `scm/main/adapter/src/core/config/loader/application_config_loader.rs:57-88` | For every XDG_CONFIG_DIRS string the loaded value is the one a direct lookup in that search order finds. |
| `ConfigLoading.SystemDirsMeetSpecIff` | `scm/main/adapter/src/core/config/loader/application_config_loader.rs:60-68` | The system directories are those of the XDG Base Directory Specification if and only if the variable is unset, or is not empty and has no relative segment. |
| `ConfigLoading.SystemDirsMissSpec` | `scm/main/adapter/src/core/config/loader/application_config_loader.rs:60-68` | The empty variable and a relative path, on which the code and the specification differ. |
| `ConfigLoading.XdgFollowsSpec` | `scm/main/adapter/src/core/config/loader/application_config_loader.rs:57-88` | Under that condition the loaded value is the one the specified search finds. |
| `ConfigLoading.NoSystemDirs` | `scm/main/adapter/src/core/config/loader/application_config_loader.rs:62-68` | No system directory is searched if and only if the variable is set and consists of colons only, or of nothing. |
| `ConfigLoading.ApplyEnv` | `scm/main/adapter/src/core/config/loader/application_config_loader.rs:112-132` | The environment assigns six fields; a bad timeout is an error. |
| `ConfigLoading.EnvAnswers` | `scm/main/adapter/src/core/config/loader/application_config_loader.rs:112-132` | Variable by variable, which field each sets, and the one error. |
| `ConfigLoading.YesIff` | `scm/main/adapter/src/core/config/loader/application_config_loader.rs:126` | Systemd notification is switched on exactly by 1, true or yes in any mixture of capitals. |
| `ConfigLoading.WithEnvField` | `scm/main/adapter/src/core/config/loader/application_config_loader.rs:112-132` | Per field: the environment wins, and the rest is unchanged. |
| `ConfigLoading.Load` | `scm/main/adapter/src/core/config/loader/application_config_loader.rs:191-193` | Base chain, then environment, with their errors. |
| `ConfigLoading.LoadField` | `scm/main/adapter/src/core/config/loader/application_config_loader.rs:191-193` | Each field of a load is the environment's, else the first directory's that sets it, else the default; the six fields outside the overlay are the defaults. |
| `ConfigLoading.NothingSet` | `scm/main/port/runtime/src/types/runtime_config.rs:154-181` | With no file and no variable a load gives the default configuration, value by value. |
| `ConfigLoading.ValidTenantIdIff` | `scm/main/adapter/src/core/config/loader/application_config_loader.rs:176-185` | An id is accepted exactly if it is not empty and all its characters are ASCII letters, digits, underscores or hyphens. |
| `ConfigLoading.TenantFileStaysInside` | `scm/main/adapter/src/core/config/loader/application_config_loader.rs:172-185` | A valid id names one plain file in `tenants`, with no dot and no separator in the id, and different ids name different files. |
| `ConfigLoading.FindTenantPath` | `scm/main/adapter/src/core/config/loader/application_config_loader.rs:134-139` | The search from the highest directory down. |
| `ConfigLoading.TenantPathIsHighest` | `scm/main/adapter/src/core/config/loader/application_config_loader.rs:134-139` | The file chosen is that of the highest directory that has one, and none is chosen when none has. |
| `ConfigLoading.TenantAsDocumentedIff` | `scm/main/adapter/src/core/config/loader/application_config_loader.rs:17-19` | A field of a tenant load is what overlaying all tenant files would give if and only if those files can be read, and the environment or the chosen file sets the field, or no other tenant file sets it to anything but what it has anyway. |
| `ConfigLoading.LowerTenantFileIsIgnored` | `scm/main/adapter/src/core/config/loader/application_config_loader.rs:134-139` | Two directories for which the load and the documented overlay differ. |
| `ConfigLoading.LoadForTenant` | `scm/main/adapter/src/core/config/loader/application_config_loader.rs:195-207` | Validation, base, one tenant file, environment, last-resort id, with each error in its place. |
| `ConfigLoading.TenantFails` | `scm/main/adapter/src/core/config/loader/application_config_loader.rs:195-207` | Each way a tenant load fails, in order: a bad id, a bad base, no tenant file anywhere, a bad tenant file, a bad environment. |
| `ConfigLoading.TenantField` | `scm/main/adapter/src/core/config/loader/application_config_loader.rs:195-207` | A successful tenant load has each field from the environment, else the tenant file, else the base chain, and always has a tenant id. |
| `ConfigLoading.TenantKeepsTheRest` | `scm/main/adapter/src/core/config/loader/application_config_loader.rs:195-207` | Every field but the id that the tenant file does not set is as in `load`. |
| `ConfigLoading.TenantIdIsRequested` | `scm/main/adapter/src/core/config/loader/application_config_loader.rs:203-205` | The id of the loaded configuration is the requested one if and only if no layer sets another. |
| `Strings.ParsePrinted` | `scm/main/adapter/src/core/config/loader/application_config_loader.rs:164-170` | A timeout that prints a number parses back to it exactly while it is below 2^64, also behind a plus, never behind a minus. |
| `Strings.ParseIff` | `scm/main/adapter/src/core/config/loader/application_config_loader.rs:164-170` | A timeout parses exactly if it is digits, perhaps behind a plus, denoting a number below 2^64, and to that number. |
| `Strings.JoinSplit` | `scm/main/adapter/src/core/config/loader/application_config_loader.rs:63` | Splitting loses nothing and leaves no separator in a part. |
| `ConfigSections.MergeValues` | `scm/main/adapter/src/core/config/loader/application_config_loader.rs:142-152` | Inserting entry by entry is the shallow merge, and anything else is replaced. |
| `ConfigSections.MergeAssociativeIff` | `scm/main/adapter/src/core/config/loader/application_config_loader.rs:142-152` | The merge is associative except exactly when a non-table stands between two tables and the lower has a key the higher lacks. |
| `ConfigSections.ExtractDotted` | `scm/main/adapter/src/core/config/loader/application_config_loader.rs:155-161` | The loop walks the dotted key from table to table. |
| `ConfigSections.LoadSection` | `scm/main/adapter/src/core/config/loader/application_config_loader.rs:221-257` | The answer in terms of the files alone: the first bad file's error; else each entry from the highest file that has it, with nothing but tables above, or the highest file's plain value; and the default exactly when that is an empty table. |
| `ConfigSections.LoadedAnswers` | `scm/main/adapter/src/core/config/loader/application_config_loader.rs:221-257` | The same of the specification function. |
| `ConfigSections.AnswerIsUnique` | `scm/main/adapter/src/core/config/loader/application_config_loader.rs:221-257` | The files admit no other answer. |
| `ConfigSections.LoadsRefine` | `scm/main/adapter/src/core/config/loader/application_config_loader.rs:142-257` | Of two loads: what was loaded under `a` holds under `c` is what is loaded under `a.c` when it is plain, and is contained in it entry by entry when it is a table. |
| `ConfigSections.FoldClosedForm` | `scm/main/adapter/src/core/config/loader/application_config_loader.rs:221-252` | A key of the result comes from the highest-priority directory holding it among the table sections after the last non-table section. |
| `ConfigSections.DefaultIffNothingHeld` | `scm/main/adapter/src/core/config/loader/application_config_loader.rs:250-252` | The type default is returned if and only if the last section, if any, is a table and every section that counts is empty. |
| `ConfigSections.SubsectionsAreHeld` | `scm/main/adapter/src/core/config/loader/application_config_loader.rs:155-161` | The sections under a longer key are what the sections under the shorter key hold along the rest, file by file, and they fail together. |
| `ConfigSections.SubsectionRefinesParent` | `scm/main/adapter/src/core/config/loader/application_config_loader.rs:142-161` | For any dotted rest, loading the longer key gives the very value the merged `a` holds there, or a table with all its entries; where `a` is a table in every file that has it, nothing held one key further loads as nothing. |
| `ConfigSections.SubsectionIsParentIff` | `scm/main/adapter/src/core/config/loader/application_config_loader.rs:142-161` | In any readable files the two are equal if and only if no table still merged below the held value has a key it lacks (for nothing held: no section that counts holds anything). |
| `ConfigSections.ShadowedEntryComesBack` | `scm/main/adapter/src/core/config/loader/application_config_loader.rs:142-161` | Two files for which they differ: entries that the merged `a` hides are back in `a.b`. |
| `ConfigSections.ReplacedParentKeepsChild` | `scm/main/adapter/src/core/config/loader/application_config_loader.rs:142-161` | Two files for which they differ the other way: `a` ends as a plain value, and `a.b` is still loaded. |
| `AffectedPackages.FindOwner` | `scm/scripts/hooks/pre-commit:123-135` | The loop finds a longest owning directory, first in enumeration order. |
| `AffectedPackages.OwnsIff` | `scm/scripts/hooks/pre-commit:127-128` | A directory owns exactly itself and what is below it, not what merely begins like it. |
| `AffectedPackages.BestOfIsBestOwner` | `scm/scripts/hooks/pre-commit:123-135` | What it finds owns the file from a longest directory, and it finds nothing only when nobody owns the file. |
| `AffectedPackages.OrderIrrelevantIff` | `scm/scripts/hooks/pre-commit:125-135` | The enumeration order never matters for a file if and only if its best owner is unambiguous. |
| `AffectedPackages.DistinctDirsAreUnambiguous` | `scm/scripts/hooks/pre-commit:126-134` | Distinct directories leave no ties. |
| `AffectedPackages.SeedsIgnoreOrder` | `scm/scripts/hooks/pre-commit:121-142` | So neither do the seeds depend on the enumeration order. |
| `AffectedPackages.Seed` | `scm/scripts/hooks/pre-commit:121-142` | The seeding loop marks and queues exactly the owners of staged files, each once. |
| `AffectedPackages.BuildReverse` | `scm/scripts/hooks/pre-commit:103-114` | The reverse table is built by appending words to strings. |
| `AffectedPackages.DependentsAreEdgesIff` | `scm/scripts/hooks/pre-commit:106-149` | Word splitting gives back exactly the dependency edges if and only if no depending id contains a blank or is empty. |
| `Worklist.EnqueueNew` | `scm/scripts/hooks/pre-commit:149-154` | The inner loop marks and queues the dependents not affected yet, each once. |
| `Worklist.Spread` | `scm/scripts/hooks/pre-commit:146-155` | The breadth-first loop ends on every graph with exactly the reachable packages, each enqueued once. |
| `Worklist.ReachableIsLeast` | `scm/scripts/hooks/pre-commit:144-155` | That set is the least one around the seeds that is closed under reverse dependencies. |
| `AffectedPackages.Affected` | `scm/scripts/hooks/pre-commit:86-155` | The hook's scope: everything when a manifest is staged, else what is reachable from the owners of staged files. |
| `AffectedPackages.ScopeIs` | `scm/scripts/hooks/pre-commit:86-155` | From staged files, directories and edges alone: every package when a workspace manifest is staged, else exactly what depends, by a chain of edges, on the best owner of a staged file (for distinct directories and ids without blanks). |
| `AffectedPackages.AffectedInWorkspaceIff` | `scm/scripts/hooks/pre-commit:144-172` | Every affected id is a workspace package, whose name the hook then looks up, if and only if everything is affected or no package depending on a reachable one is outside the workspace. |
| `AffectedPackages.WalksAreDependencyChains` | `scm/scripts/hooks/pre-commit:103-155` | Reachability is by chains of real dependency edges, when ids have no blanks. |
| `AffectedPackages.AffectedOfUnion` | `scm/scripts/hooks/pre-commit:121-155` | Without a staged manifest, the scope of a union of staged sets is the union of their scopes. |
| `HttpJobs.DefaultHttpJob.constructor` | `scm/main/adapter/src/core/dispatch/default_http_job.rs:144-152` | A new job has no routes and no handlers. |
| `HttpJobs.DefaultHttpJob.RegisterRoute` | `scm/main/adapter/src/core/dispatch/default_http_job.rs:157-214` | All three tables and the result after a registration, also one that fails half-way. |
| `HttpJobs.DefaultHttpJob.Run` | `scm/main/adapter/src/core/dispatch/default_http_job.rs:251-274` | The request's own path is matched against the routed patterns; the handler registered under the id of the pattern found executes, or the lookup that failed is reported. |
| `HttpJobs.PathRuns` | `scm/main/adapter/src/core/dispatch/default_http_job.rs:157-274` | After any registrations: no match exactly when the path matches no routed pattern; else the handler last accepted under the id of the registration that routed the pattern it matches. |
| `HttpJobs.RoutedIff` | `scm/main/adapter/src/core/dispatch/default_http_job.rs:206-213` | The routed patterns are exactly those of the successful registrations. |
| `HttpJobs.LastAcceptedIs` | `scm/main/adapter/src/core/dispatch/default_http_job.rs:203-205` | The last accepted handler of an id is that of the last registration with that id, a pattern, and a registry that takes it. |
| `HttpJobs.RejectedBecause` | `scm/main/adapter/src/core/dispatch/default_http_job.rs:167-187` | The reason of each rejection, first things first. |
| `HttpJobs.AllHealthy` | `scm/main/adapter/src/core/dispatch/default_http_job.rs:237-246` | The loop of both health checks finds an unhealthy handler if there is one. |
| `HttpJobs.DefaultHttpJob.HealthCheck` | `scm/main/adapter/src/core/dispatch/default_http_job.rs:237-246` | True if and only if every handler in the health table is healthy. |
| `HttpJobs.AlwaysComplete` | `scm/main/adapter/src/core/dispatch/default_http_job.rs:157-214` | After any registrations, failed ones included, every id the router can give out is in the registry. |
| `HttpJobs.NeverUnavailable` | `scm/main/adapter/src/core/dispatch/default_http_job.rs:262-274` | So a run never reports an unavailable handler, and finds one exactly when a route matches. |
| `HttpJobs.TablesHoldTheLast` | `scm/main/adapter/src/core/dispatch/default_http_job.rs:195-205` | After any registrations, the registry holds for each id the last handler it accepted, and the health table the last that was offered. |
| `HttpJobs.LastAcceptedRuns` | `scm/main/adapter/src/core/dispatch/default_http_job.rs:262-274` | So a request runs the last handler accepted for the id its route leads to, or finds no route. |
| `HttpJobs.TablesAgreeIff` | `scm/main/adapter/src/core/dispatch/default_http_job.rs:195-205` | After any registrations the handlers health-checked are those in the registry if and only if, for every id, the last one offered is the last one accepted. |
| `HttpJobs.HealthChecksWhatRuns` | `scm/main/adapter/src/core/dispatch/default_http_job.rs:195-205` | The handler dispatched for an id is the one health-checked, when the registry overwrites and refuses nothing. |
| `HttpJobs.TablesPartIff` | `scm/main/adapter/src/core/dispatch/default_http_job.rs:195-205` | One registration on any tables: they agree afterwards if and only if they agreed elsewhere and the registry holds what was offered. |
| `HttpJobs.FailureChangesNothingIff` | `scm/main/adapter/src/core/dispatch/default_http_job.rs:167-213` | On any tables: when a registration succeeds; a failure leaves routes alone, and leaves everything alone if and only if the handler was turned down first or is the one the tables it reached already held. |
| `HttpJobs.DuplicateTakesOver` | `scm/main/adapter/src/core/dispatch/default_http_job.rs:203-212` | Registering a duplicate fails, and the new handler serves the old route from then on. |
| `HttpJobs.RoutesAreKept` | `scm/main/adapter/src/core/dispatch/default_http_job.rs:206-212` | A routed pattern keeps its id under any further registrations. |
| `HttpJobs.RoutedBySuccess` | `scm/main/adapter/src/core/dispatch/default_http_job.rs:206-213` | Only a successful registration routed it, to its own handler's id. |
| `GrpcJobs.DefaultGrpcJob.RegisterRoute` | `scm/main/adapter/src/core/dispatch/default_grpc_job.rs:154-222` | Both tables and the result after a registration. |
| `GrpcJobs.DefaultGrpcJob.Run` | `scm/main/adapter/src/core/dispatch/default_grpc_job.rs:240-267` | The handler that executes a call, or no match. |
| `GrpcJobs.DefaultGrpcJob.HealthCheck` | `scm/main/adapter/src/core/dispatch/default_grpc_job.rs:228-237` | True if and only if every handler in the health table is healthy. |
| `GrpcJobs.FirstClaimRuns` | `scm/main/adapter/src/core/dispatch/default_grpc_job.rs:192-221` | Whatever else is or fails to be registered, an id runs the handler of the first registration that claims it, and nothing before that. |
| `GrpcJobs.TurnedAwayChangesNothing` | `scm/main/adapter/src/core/dispatch/default_grpc_job.rs:164-221` | When a registration succeeds; a failure leaves the routes alone; and everything stays if and only if the handler has no usable id or pattern, the id is taken, or the registry refuses a handler the health table already holds. |
| `GrpcJobs.DefaultGrpcJob.ListRouteIds` | `scm/main/adapter/src/core/dispatch/default_grpc_job.rs:284-291` | The ids listed are exactly those a call finds a handler for. |
| `GrpcJobs.ListedAreClaimed` | `scm/main/adapter/src/core/dispatch/default_grpc_job.rs:284-291` | After any registrations they are exactly the ids some registration claimed. |
| `GrpcJobs.GrpcTablesAgree` | `scm/main/adapter/src/core/dispatch/default_grpc_job.rs:210-220` | With a registry that refuses nothing they are the ids health-checked, handler for handler. |
| `GrpcJobs.HealthHolds` | `scm/main/adapter/src/core/dispatch/default_grpc_job.rs:192-220` | The health table holds the first claim of an id, and before any claim the last handler offered. |
| `GrpcJobs.GrpcTablesAgreeIff` | `scm/main/adapter/src/core/dispatch/default_grpc_job.rs:192-220` | After any registrations the handlers health-checked are those dispatched if and only if every id offered was claimed. |
| `GrpcJobs.GrpcTablesPartIff` | `scm/main/adapter/src/core/dispatch/default_grpc_job.rs:192-220` | One registration on any tables: they agree afterwards if and only if it was turned away and they agreed, or it was accepted and they agreed elsewhere. |
| `PrometheusText.RenderPrometheus` | `scm/main/adapter/src/core/metrics/handler/metrics_handler.rs:35-57` | The text itself: for each snapshot in order `# TYPE`, its name and counter or gauge on a line, then its name, labels in braces or nothing, a blank and its value on a line, and nothing else. |
| `PrometheusText.RenderedPrints` | `scm/main/adapter/src/core/metrics/handler/metrics_handler.rs:43-54` | The same of the specification function. |
| `PrometheusText.TypeLineIff` | `scm/main/adapter/src/core/metrics/handler/metrics_handler.rs:38-43` | The type line says counter exactly for a counter, and gauge exactly for a gauge or histogram. |
| `PrometheusText.TextDeterminesSnapshots` | `scm/main/adapter/src/core/metrics/handler/metrics_handler.rs:35-57` | Two lists print alike if and only if they are the same up to histograms shown as gauges: for quote-free label values, and for well-formed names also with every value whose characters cannot pass for another label or record after a quote. |
| `PrometheusText.QuotesCollide` | `scm/main/adapter/src/core/metrics/handler/metrics_handler.rs:50` | Values are not escaped: any label value with a quote, a comma, a name, an equals sign and a quote in it prints like two labels. |
| `PrometheusText.BreaksCollide` | `scm/main/adapter/src/core/metrics/handler/metrics_handler.rs:43-54` | A label value with a quote, the end of its record and the beginning of another prints like two snapshots. |
| `PrometheusText.DeterminedIff` | `scm/main/adapter/src/core/metrics/handler/metrics_handler.rs:43-54` | Over any set of characters for label values, the text determines the snapshots if and only if the set does not hold the quotation mark together with all it takes to write another label, or to end a record and open another. |
| `PrometheusText.TwoLinesEach` | `scm/main/adapter/src/core/metrics/handler/metrics_handler.rs:43-54` | Exactly one type line and one sample line per snapshot, when nothing printed contains a newline. |

## Left out

- LoadAccounting.ErrorsNeverOvertakeRequests: stated for sequentially consistent steps. The code uses `Relaxed` ordering, under which laws across two counters need not be observed; the laws of a single counter do not depend on this.
- TrafficCounting.TrafficCounters.SampleOnce: is one pass of the sampler's endless loop; that the loop never ends, and that `serve` never stops it, is not modelled, nor are the autoscale warnings. In the step machine the four gauges are published in one step.
- TrafficCounting.Handle: is the completed call; a future dropped before it completes is a step of the interleaving model instead.
- RingBuffers.RingBuffer.P99Us: is in microseconds and takes the library sort by its result; the division by 1000 and floating point are not modelled. A window of 1024 cannot overflow the multiplication by 99.
- RuntimeManagers.DefaultRuntimeManager.Start: the probes whose results are thrown away, and the log lines, are not modelled.
- RuntimeInterleaving.EveryRunKeepsInv: the probe awaits of a start are one await, and so are those of a health call; both only yield.
- DaemonRunning.RunUntilSignal: the signal is taken to arrive, and time is the drain's own; the timer is polled after the drain, as the library does.
- Serving.Serve: time runs from the signal, or from a start that failed; the bodies of the servers, their listening sockets, TLS and authentication are outcomes of set-up steps; a channel is created for every server, also for those not wanted.
- Serving.Teardown: a task is given by the time it needs to end once told to stop, and sending takes no time; the background sampler is not among the tasks.
- LoadAccounting.TickExcess: is for ticks between which no 64-bit counter overflows; the conservation laws above account for overflow.
- ConfigLoading.LoadBase: reading and parsing a file is given by its result; an error names the file, not the library's message.
- ConfigLoading.Xdg: `dirs::config_dir()` is a parameter, paths are strings joined with a slash, and a variable that is not Unicode counts as unset.
- ConfigLoading.ApplyEnv: lower-casing covers ASCII letters only, which is all the accepted words consist of.
- ConfigOverrides.ApplyTo: nested sections (TLS, JWT, egress, metrics, observability) are opaque text; the builder setters are not modelled.
- ConfigSections.LoadSection: deserialization of the merged value is left to its caller; every value that is not a table is opaque text, and the order of a table's entries is not modelled.
- AffectedPackages.Affected: file-name expansion of unquoted words, and how `cargo metadata` and `git` produce the packages, edges and staged files, are not modelled; a package table never holds the empty id, since the hook skips such lines.
- HttpJobs.DefaultHttpJob.RegisterRoute: the path router is a set of patterns with an insertion test and a match, assumed to refuse a present pattern and to match only present ones where a lemma says `Sane`; the registry is an overwriting map that may refuse. Rejection messages are shortened, and the pipeline around a handler is the handler.
- HttpJobs.DefaultHttpJob.Run: extracting the path from a URL, the handler's execution and encoding are not modelled.
- GrpcJobs.DefaultGrpcJob.RegisterRoute: rejection messages are those of the HTTP job.
- PrometheusText.RenderPrometheus: values print through a parameter; how floating-point values print is not modelled. Where label values may hold quotation marks, printed values are taken to hold none.
- Metrics switched off: without a metrics section no counters and no monitors exist, so nothing is counted.
- Load balancer pools, `ServiceRegistry`, `ConfigValidator`, the intrusion engine, port traits, codecs, builders and observability bridges: delegation or single branches, which would only add easy members.
