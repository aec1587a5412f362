# Resilience lab: measurement chain and run lifecycle

This project models the measurement chain of a fault-injection lab for multirotors, and the protocol that carries and
persists its results, and proves what the chain promises. A scenario is played by an engine against a target; the
engine classifies what it observes into a log; the analysis reads recovery, containment and availability back from
that log; an orchestrator moves the run through its lifecycle and stores events and telemetry; a client merges and
draws them; a recording can be replayed. The statements are about every scenario, every target and every schedule,
and most of them join two stages: that the log replayed by the analysis agrees with what the engine tracked live, that
the timelines drawn from log and samples agree, that the metrics of a mock session are bounded by how the mock spreads
faults.

## How it is built

Where the original changes things step by step, a class or a method with loops does so here: `ScenarioEngine`,
`MockSimulation`, `ReplayAdapter`, `RunRow` and `Orchestrator`, `RunTables`, `LiveRun`, the breadth-first search, the
metrics loops, the timeline loops, the telemetry query, the merges. Each is proved equal to a function on values, or to
a description of its result, and the theorems are lemmas about those.

| files | content |
|---|---|
| `states`, `run_states`, `topology`, `rounding`, `sorting`, `heap_queue`, `run_log` | vocabularies, transition table, propagation depths, rounding to milliseconds, the heap of scheduled clears, events and observations |
| `engine`, `scenario_engine`, `engine_clock` | the engine as functions and as a class, and the times of its log entries |
| `engine_pairing`, `engine_ledger`, `engine_expectations`, `engine_mirror` | open faults against the replayed log, conservation of injections, verdicts of expectations, states and telemetry |
| `engine_attribution`, `engine_schedule`, `engine_endings` | causes of changes, reasons for requests and clears, adapter calls, how runs end, batches |
| `recovery`, `analysis`, `time_metrics`, `containment`, `system_modes` | the metrics |
| `timelines`, `timeline_agreement` | the report's and the client's timelines, and when they agree |
| `blinking`, `edge_cases` | concrete runs in which rounding, a cancel request or a late observation shows |
| `mock_derive`, `mock_vehicle`, `mock_simulation`, `mock_runs`, `mock_spread` | the mock vehicle: derivation, step, class, mission and timers, spread of faults |
| `mock_effects`, `mock_policy` | what each fault does, and what the recovery policy makes of it |
| `lab` | engine and mock in a closed loop |
| `run_lifecycle`, `orchestrator`, `run_messages`, `watchdog`, `storage`, `delivery` | run rows, handlers and watchdog, stored events and telemetry, and what a run leaves behind |
| `live_store`, `replay`, `durations` | the client's merges, the replay adapter, duration strings |

Times are real numbers. Rounding to milliseconds is modelled where it decides (round half to even, as the language
does it); where the binary representation decides a tie, the direction of the tie is a parameter. The answer of a
target to an injection, random draws, kinematics, heartbeat times, the moment of a stop or a cancellation and the
success of an analysis are parameters, so that theorems hold for all of them. Model history that the original does not
keep - the log, the calls and the dropped transients of an engine, the states a row went through, what a mock run
targeted and impaired - is carried along to state properties.

## Findings

Where an obvious claim fails, the code is kept as it is and the exact condition is proved.

- A fault duration recomputed from rounded times can differ from the stamped one by a millisecond, already at three
  samples per second (`Blinking.StampMayDiffer`); they agree exactly when the rounding shifts of the two observation times
  agree (`Rounding.ShiftsAgree`, `Analysis.RecordsFitRun`), on whole milliseconds always.
- A failed preparation reports collecting straight after preparing, which the transition table rejects
  (`EngineMirror.RunReportsPath`); the orchestrator drops the message and later stamps a start time on a run that never
  ran (`RunLifecycle.FailedPreparation`).
- Injections with a duration that have not ended when the scenario does get no clear event. They are not yet due at the
  last processed observation (`EngineLedger.RunLeavesActive`). After a cancel request they may be overdue
  (`EdgeCases.CancelLeavesOverdue`), exactly when their end falls between the last processed observation and the one that
  found the request (`EngineLedger.OverdueOnlyWhenCancelled`).
- The first observation past a deadline still counts for an expectation (`EdgeCases.LateTickCounts`); the verdict is that of
  the window up to the deadline exactly when this observation does not show what was still missing
  (`EngineExpectations.StrictUnlessLateTick`).
- The client draws a state from the rounded time of its event on, so at a sample time it shows the last observation whose
  rounded time is not later (`TimelineAgreement.ClientFollows`). Its track lags behind the sample when the time rounds up
  (`Blinking.TrackMayLag`), and runs ahead of it when a later observation falls into the same rounded millisecond
  (`Blinking.TrackMayLead`). For observations a millisecond apart only the first can happen.
- System mode times add up to the sampled span, and to the reported duration only when the fallback to the last event
  does not act (`TimeMetrics.ModesFillRun`).
- The shortcut of the sample merge neither sorts nor deduplicates (`LiveStore.ShortcutMayDiffer`); for a batch within the
  cap it is the merge exactly when the batch is ascending (`LiveStore.ShortcutIsMerge`).
- The chunk selection of the telemetry query can lose samples (`Storage.SelectionMayLose`); it is harmless exactly when
  every chunk has its earliest sample first and its latest last (`Storage.SelectionIsHarmless`), as the chunks of every run
  do (`Delivery.TelemetryIsRead`). A limit below one still returns one sample.
- The look-ahead of the duration pattern has no effect (`Durations.LookaheadIsFree`), and the client's printer can be off
  by 0.55 s (`Durations.ClientBoundIsReached`).
- The comment on the event merge says that a reconnect snapshot is applied on top of what the client holds; the store
  action replaces both lists instead (`LiveStore.LiveRun.ApplySnapshot`), and the model follows the code.

## Model

| member | source | states |
|---|---|---|
| States.AggregateSystemMode | packages/core/reslab_core/states.py:254-271 | The loop with early returns yields the documented mode - failed, degraded or nominal - whatever the order in which the map is visited. |
| States.NominalMeansObservedHealthy | packages/core/reslab_core/states.py:254-271 | The mode is nominal exactly when every observed component is healthy. |
| SystemModes.ModeByComponent | packages/core/reslab_core/states.py:262-271 | Alone, a failed component fails the system, one that is unavailable or recovering fails it only when critical and degrades it otherwise, a degraded one degrades it, and any other leaves it nominal. |
| SystemModes.ModeIsWorst | packages/core/reslab_core/states.py:254-271 | The mode of a system is the worst of the modes its components cause alone. |
| Topology.SystemTopology.Downstream | packages/core/reslab_core/topology.py:141-142 | The result lists exactly the dependents of a component. |
| Topology.SystemTopology.Upstream | packages/core/reslab_core/topology.py:144-145 | The result lists exactly the providers of a component. |
| Topology.SystemTopology.CriticalComponentIds | packages/core/reslab_core/topology.py:135-136 | Exactly the ids of the components marked critical. |
| Topology.SeedQueue | packages/core/reslab_core/topology.py:147-160 | Seeding discovers exactly the affected origins, at depth zero, each of them queued. |
| Topology.Expand | packages/core/reslab_core/topology.py:161-166 | Expanding a component discovers every affected dependent, one level below, and keeps every shortest-route fact of the search. |
| Topology.MarkUnreached | packages/core/reslab_core/topology.py:167-169 | Affected components that were not found get -1, the others keep their depth. |
| Topology.PropagationDepths | packages/core/reslab_core/topology.py:147-169 | The breadth-first loop terminates and returns the depth map: keys are the affected components, a depth is the length of a shortest route through affected components from an origin, -1 says there is none. |
| Topology.DepthsUnique | packages/core/reslab_core/topology.py:147-169 | That description determines the map. |
| Topology.ClosedUnderRoutes | packages/core/reslab_core/topology.py:147-169 | Once every discovered component is expanded, no route is shorter than the depth of its end. |
| HeapQueue.PushKeepsHeap | packages/core/reslab_core/engine/scenario_engine.py:456-461 | Pushing a scheduled clear keeps the heap order (and, by the contract of Push, exactly the entries). |
| HeapQueue.PopKeepsHeap | packages/core/reslab_core/engine/scenario_engine.py:423-425 | Popping keeps the heap order (and, by the contract of Pop, removes exactly the root). |
| HeapQueue.RootIsEarliest | packages/core/reslab_core/engine/scenario_engine.py:423-425 | The root of the heap is due no later than any other entry. |
| HeapQueue.TiesMaySwap | packages/core/reslab_core/engine/scenario_engine.py:423-425 | A heap in which of two entries due together the later one is popped first, as the standard heap does. |
| Engine.ScenarioEngine.Emit | packages/core/reslab_core/engine/scenario_engine.py:174-207 | Appends one event numbered by the running sequence and stamped with the rounded time. |
| Engine.ScenarioEngine.SetRunState | packages/core/reslab_core/engine/scenario_engine.py:209-217 | Reports a run state to the sink exactly when it differs from the current one. |
| Engine.ScenarioEngine.AddWatches | packages/core/reslab_core/engine/scenario_engine.py:473-481 | Puts every expectation of the event under watch, with its deadline. |
| Engine.ScenarioEngine.Inject | packages/core/reslab_core/engine/scenario_engine.py:427-493 | Performs the injection step of the model: request, call, then applied with clear and expectations, or rejected. |
| Engine.ScenarioEngine.Accept | packages/core/reslab_core/engine/scenario_engine.py:455-481 | What an applied injection adds to the active set, the heap, the log and the watch list. |
| Engine.ScenarioEngine.Clear | packages/core/reslab_core/engine/scenario_engine.py:495-516 | Performs the clear step: nothing for an inactive id, else call, removal and event. |
| Engine.ScenarioEngine.ProcessScheduled | packages/core/reslab_core/engine/scenario_engine.py:419-425 | Both loops together perform the scheduling step: everything due is injected, then everything due is cleared, earliest first. |
| Engine.ScenarioEngine.ClearAll | packages/core/reslab_core/engine/scenario_engine.py:518-525 | The loop over the snapshot clears persistent injections, drops transient ones, leaves bounded ones, and empties the heap. |
| Engine.ScenarioEngine.AttributeCause | packages/core/reslab_core/engine/scenario_engine.py:529-545 | The first active injection on the component, else the first on a provider, else none. |
| Engine.ScenarioEngine.RetireTransients | packages/core/reslab_core/engine/scenario_engine.py:563-569 | Exactly the transient injections on the component leave the active set. |
| Engine.ScenarioEngine.Recover | packages/core/reslab_core/engine/scenario_engine.py:563-586 | A recovery retires transients, closes the open fault and stamps its duration. |
| Engine.ScenarioEngine.Impair | packages/core/reslab_core/engine/scenario_engine.py:587-608 | An impairment opens a fault when the component was healthy or never observed. |
| Engine.ScenarioEngine.RecordChange | packages/core/reslab_core/engine/scenario_engine.py:549-620 | Classifies a change as recovery, effect or relabelling and updates states, faults, active set and log accordingly. |
| Engine.ScenarioEngine.ProcessObservation | packages/core/reslab_core/engine/scenario_engine.py:547-648 | The loops over changes, responses and mission events, and the toggle between running and recovering, perform the observation step. |
| Engine.ScenarioEngine.ProcessExpectations | packages/core/reslab_core/engine/scenario_engine.py:682-693 | One pass over the watch list: decided expectations are logged and dropped, undecided ones kept in order. |
| Engine.ScenarioEngine.FlushExpectationsAtEnd | packages/core/reslab_core/engine/scenario_engine.py:695-699 | Decides everything still under watch and empties the list. |
| Engine.ScenarioEngine.EmitExpectation | packages/core/reslab_core/engine/scenario_engine.py:701-726 | Logs one verdict with the observed state and the elapsed time. |
| Engine.ScenarioEngine.FlushBatch | packages/core/reslab_core/engine/scenario_engine.py:741-746 | Hands over a non-empty batch once and starts a new one. |
| Engine.ScenarioEngine.BufferSample | packages/core/reslab_core/engine/scenario_engine.py:730-739 | Buffers a sample and hands the batch over by age or size. |
| Engine.ScenarioEngine.ProcessTick | packages/core/reslab_core/engine/scenario_engine.py:291-294 | One processed observation performs scheduling, observation, expectations and buffering in this order. |
| Engine.ScenarioEngine.Observe | packages/core/reslab_core/engine/scenario_engine.py:274-316 | The loop is left by cancellation, by the end of the mission, by the timeout or by the end of the stream, in the state the model computes. |
| Engine.ScenarioEngine.Close | packages/core/reslab_core/engine/scenario_engine.py:318-375 | The closing steps for each way of leaving the loop, and the final state. |
| Engine.ScenarioEngine.Run | packages/core/reslab_core/engine/scenario_engine.py:236-394 | A whole run - unsupported, cancelled or failed preparation, or the loop and the closing steps - ends as in the model. |
| EnginePairing.RunAgrees | packages/core/reslab_core/engine/scenario_engine.py:547-608 | For every run with initial states healthy or unknown and a clock that never goes back: replaying the log gives the faults the engine holds open, opened by the observations whose times it remembers, and pairs exactly the stamped recoveries, each stamped with the rounded difference of the two observation times. |
| EnginePairing.RunAgreesWithin | packages/core/reslab_core/engine/scenario_engine.py:547-608 | The same agreement inside every observation: after any number of its changes the log written so far replays to the faults the engine holds open at that moment. |
| EnginePairing.WithinIsPrefix | packages/core/reslab_core/engine/scenario_engine.py:547-608 | What was logged at such a moment begins the log of the loop, so the agreement holds along its prefixes. |
| EnginePairing.RunTicks | packages/core/reslab_core/engine/scenario_engine.py:275-316 | The k-th processed observation has the time of the k-th delivered one, which ties the times of log entries to the feed. |
| EnginePairing.TickKeepsAgreement | packages/core/reslab_core/engine/scenario_engine.py:547-608 | One processed observation at a time no earlier than the last keeps the agreement. |
| EnginePairing.RecordMatchesStamp | packages/core/reslab_core/analysis/metrics.py:383-384 | The duration the analysis derives from rounded times is within one millisecond of the stamp, and equal to it exactly when the rounding shifts of both ends agree. |
| Blinking.StampMayDiffer | packages/core/reslab_core/analysis/metrics.py:383-384 | A run at three samples per second, down at 0.333333 s and back at 0.666666 s: the engine stamps 0.333 s, the record says 0.334 s. |
| EnginePairing.RunInOrder | packages/core/reslab_core/engine/scenario_engine.py:189-206 | The log of every run is numbered by position and never goes back in time. |
| EngineLedger.Conservation | packages/core/reslab_core/engine/scenario_engine.py:419-569 | In every balanced state: applied events = cleared events + injections the engine dropped as transients, on recovery or at scenario end, + active injections. |
| EngineLedger.TickKeepsLedger | packages/core/reslab_core/engine/scenario_engine.py:419-569 | Every processed observation keeps the balance, the freshness of pending ids, the heap order, and for every active bounded injection a heap entry at its application time plus its duration. |
| EngineLedger.NothingDueIsLeft | packages/core/reslab_core/engine/scenario_engine.py:419-426 | After the scheduling step of an observation nothing due by then is pending, no clear due by then is scheduled, and every active bounded injection ends strictly later. |
| EngineLedger.NoIdTwice | packages/core/reslab_core/engine/scenario_engine.py:455-516 | In a balanced log no id is applied twice and none is cleared twice. |
| EngineLedger.RunIsBalanced | packages/core/reslab_core/engine/scenario_engine.py:419-569 | For every run with unique ids, however it ends: applied events = cleared events + dropped transients + active injections, each id in one place only. |
| EngineLedger.RunLeavesActive | packages/core/reslab_core/engine/scenario_engine.py:518-525 | What stays active at the end is exactly what was active and is bounded and not transient, or everything when the target failed; none of it is cleared in the log, and whatever has a duration was not yet due at the last processed observation. |
| EngineSchedule.RunIsRecorded | packages/core/reslab_core/engine/scenario_engine.py:419-525 | In the log of every run: events are requested in order, each at most once and none before its time; each request is answered by the next entry as the adapter decided; a clear comes after the duration has passed since the application, or at the end for an injection that would not end otherwise; and the adapter was called for exactly what the log reports, in that order. |
| EngineSchedule.AbandonedAsksNothing | packages/core/reslab_core/engine/scenario_engine.py:236-272 | A run whose target never became ready requests nothing and calls for nothing. |
| EngineSchedule.InjectWatches | packages/core/reslab_core/engine/scenario_engine.py:473-481 | An applied injection puts each of its expectations under watch, requested now and due its time from now; a rejected one changes neither watches nor schedule. |
| EngineSchedule.PutIs | packages/core/reslab_core/engine/scenario_engine.py:455-456 | An injection enters the active set in place of the one with its id, else behind all others. |
| EngineEndings.LoopStops | packages/core/reslab_core/engine/scenario_engine.py:275-316 | Why and where the loop is left: by the first pending cancel request, else by the first observation that finishes the mission or reaches the timeout, else at the end of the feed. |
| EngineEndings.RunEnds | packages/core/reslab_core/engine/scenario_engine.py:318-394 | On the inputs alone: the run ends cancelled exactly when a cancel request was noticed before or in the loop, failed exactly when preparation failed or the target failed after the whole feed, and collecting otherwise. |
| EngineEndings.RunCuts | packages/core/reslab_core/engine/scenario_engine.py:730-746 | Every batch but the last is handed over with the very sample that makes it two hundred long or as old as a batch may get; the last may still have been filling. |
| EngineEndings.JudgementSays | packages/core/reslab_core/engine/scenario_engine.py:682-726 | Each entry of a judgement names the component, the event that asked, the state seen, and the time since the request of an expectation under watch. |
| EngineEndings.FlushSays | packages/core/reslab_core/engine/scenario_engine.py:695-726 | At the end there is one such entry for each expectation left, in their order. |
| EngineEndings.ResponsesAreLogged | packages/core/reslab_core/engine/scenario_engine.py:622-632 | Every response makes one entry, in order, with its component and whether it is a safe state. |
| EngineEndings.MissionIsLogged | packages/core/reslab_core/engine/scenario_engine.py:633-643 | Every mission event makes one entry, in order. |
| EngineEndings.ObservationIsLogged | packages/core/reslab_core/engine/scenario_engine.py:547-648 | An observation logs its changes, then one entry for each response, then one for each mission event, and nothing else. |
| EngineAttribution.CauseIsNearest | packages/core/reslab_core/engine/scenario_engine.py:529-545 | The cause is the first active injection on the component whenever there is one, else the first on a provider, and none exactly when there is neither; stated on the active injections and the dependencies. |
| EngineAttribution.ChangeIsLogged | packages/core/reslab_core/engine/scenario_engine.py:549-620 | The entry of a change: recovery, effect or log line by the states before and after; its cause is the one the target names, else the attributed one; it is direct exactly when the blamed injection is active on the component. |
| EngineAttribution.DirectIsNamed | packages/core/reslab_core/engine/scenario_engine.py:555-608 | A change nobody explains, on a component with an active injection, is blamed on the first of those and direct. |
| EngineAttribution.PropagatedIsNamed | packages/core/reslab_core/engine/scenario_engine.py:555-608 | Without one it is not direct, and blamed on the first active injection of a provider, or on nothing when there is none. |
| EngineAttribution.WithinIsDistinct | packages/core/reslab_core/engine/scenario_engine.py:419-620 | In the middle of every observation of every run the active injections have distinct ids. |
| EngineAttribution.RunNamesDirect | packages/core/reslab_core/engine/scenario_engine.py:529-620 | In every run, wherever an unexplained change meets an active injection on its component, the log entry names that injection and is direct. |
| EngineLedger.OverdueOnlyWhenCancelled | packages/core/reslab_core/engine/scenario_engine.py:275-320 | The exact condition for an overdue injection to stay active: the loop was left by a cancel request, and the injection was due between the last processed observation and the one that found the request. |
| EdgeCases.CancelLeavesOverdue | packages/core/reslab_core/engine/scenario_engine.py:275-292 | A cancelled run that ends at 2.5 s with an injection active that was due at 2 s. |
| EngineExpectations.ScanMeansHolds | packages/core/reslab_core/engine/scenario_engine.py:652-680 | The step-by-step status computes the declarative reading: always healthy, left and returned, or exact state seen, over the ticks after the request up to the first one past the deadline. |
| EngineExpectations.RunDecidesEachOnce | packages/core/reslab_core/engine/scenario_engine.py:682-699 | Every expectation ever made gets exactly one verdict by the normal end of the loop, and it is that reading. |
| EngineExpectations.StrictUnlessLateTick | packages/core/reslab_core/engine/scenario_engine.py:652-699 | For ordered observations and all three readings: the verdict equals the reading of the strict window, up to the deadline, if and only if the first observation past the deadline does not show what was still missing. |
| EngineExpectations.RunDecidesInTime | packages/core/reslab_core/engine/scenario_engine.py:652-699 | The same for the logged verdict of every expectation of a run. |
| EdgeCases.LateTickCounts | packages/core/reslab_core/engine/scenario_engine.py:652-675 | A run whose expectation passes by the first observation after its deadline although none before shows the state. |
| EngineExpectations.AppliedAreWatched | packages/core/reslab_core/engine/scenario_engine.py:473-481 | Every injection the log calls applied had all its expectations made, requested at the time of the observation that applied it, with deadlines counted from there. |
| EngineMirror.RunMirrors | packages/core/reslab_core/engine/scenario_engine.py:549-554 | With a faithful target, however the run ends: after every tick the engine's states are the sample's and folding the log gives the same map; folding the finished log, log lines and the verdicts of the final flush included, gives the final states. |
| EngineMirror.CloseRestates | packages/core/reslab_core/engine/scenario_engine.py:318-352 | The closing entries of a run only repeat states the log already gave, at the rounded time of the last observation. |
| EngineMirror.RunHandsOverSamples | packages/core/reslab_core/engine/scenario_engine.py:730-746 | Every sample of a processed observation is handed over exactly once, in order, in batches of 1 to 200. |
| EngineMirror.TickTracksRecovery | packages/core/reslab_core/engine/scenario_engine.py:644-648 | During the loop the reported state is recovering exactly while some component recovers. |
| EngineMirror.RunReportsPath | packages/core/reslab_core/engine/scenario_engine.py:256-375 | The reported run states follow the transition table exactly when the target became ready; a failed preparation goes from preparing straight to collecting. |
| RecoveryAnalysis.IndexClears | packages/core/reslab_core/analysis/metrics.py:314-322 | The clear index holds the last elapsed clear of each injection and all of each component. |
| RecoveryAnalysis.EndOfDisturbance | packages/core/reslab_core/analysis/metrics.py:352-362 | The maximum over the candidates is the latest bounded clear related to the fault. |
| RecoveryAnalysis.PairFaults | packages/core/reslab_core/analysis/metrics.py:334-386 | The pairing loop returns the faults left open and one record for each closed one, in the order of the recoveries. |
| RecoveryAnalysis.RecordUnresolved | packages/core/reslab_core/analysis/metrics.py:387-412 | One record for each fault left open, with the expectation of recovery by the persistence of its cause. |
| RecoveryAnalysis.ComputeRecovery | packages/core/reslab_core/analysis/metrics.py:314-412 | Both loops together: closed faults first, then open ones. |
| RecoveryAnalysis.RecoveryWithinFault | packages/core/reslab_core/analysis/metrics.py:363-384 | 0 <= recovery time <= fault duration for every pair. |
| RecoveryAnalysis.DisturbanceEndIs | packages/core/reslab_core/analysis/metrics.py:341-362 | The disturbance end, on the clear entries of the log: the latest of those that ran out on the component or a provider between fault and recovery, and of the last one of the fault's own cause; none exactly when there is none. |
| RecoveryAnalysis.RecoveryIsMeasured | packages/core/reslab_core/analysis/metrics.py:363-384 | On the log alone: with an end between fault and recovery the recovery time is the rounded time from that end, with an end after the recovery it is zero, and without one or with one before the fault it is the fault duration. |
| RecoveryAnalysis.ExpectedUnlessLasting | packages/core/reslab_core/analysis/metrics.py:387-412 | A fault left open is expected to recover unless its cause was not transient and either was never cleared or was cleared last by the end of the scenario. |
| RecoveryAnalysis.UnresolvedSays | packages/core/reslab_core/analysis/metrics.py:387-412 | The record of a fault left open: the state it showed, whether it was direct, and the last clear of its cause that ran out. |
| RecoveryAnalysis.SuccessMeansClosed | packages/core/reslab_core/analysis/metrics.py:386-435 | For the records of any log: the recovered faults are the closed ones, and all required faults recovered exactly when every fault left open has a cause that persists to the end. |
| Analysis.SortedLogIsLog | packages/core/reslab_core/analysis/metrics.py:276-276 | Sorting the log of a run by time and sequence returns it as emitted. |
| Analysis.RecordsFitRun | packages/core/reslab_core/analysis/metrics.py:276-412 | For every run: one record for each stamped recovery, in order, with 0 <= recovery <= fault duration, and with the stamped duration exactly when the rounding shifts of the observations that opened and closed the fault agree; one for each fault the engine still holds open, started when it says. |
| Analysis.GridRecordsMatch | packages/core/reslab_core/analysis/metrics.py:383-384 | When all observation times are whole milliseconds every record carries exactly the stamped duration. |
| TimeMetrics.TimeInState | packages/core/reslab_core/analysis/metrics.py:223-229 | The table holds, for every component and state, the time spent in it. |
| TimeMetrics.DomainAvailability | packages/core/reslab_core/analysis/metrics.py:232-253 | The share of time during which every observed component of the domain was healthy, before rounding. |
| TimeMetrics.WeightedIntegrity | packages/core/reslab_core/analysis/metrics.py:256-267 | The integrity score, degraded time counting half, before rounding. |
| TimeMetrics.ModeTimes | packages/core/reslab_core/analysis/metrics.py:490-501 | The time in each system mode. |
| TimeMetrics.MissionTimes | packages/core/reslab_core/analysis/metrics.py:286-296 | The time in hold and in mission modes. |
| TimeMetrics.ModesFillRun | packages/core/reslab_core/analysis/metrics.py:276-280 | Nominal, degraded and failed time add up to the sampled span, and to the reported duration exactly when the fallback to the last event does not act or is zero. |
| TimeMetrics.NominalWithinAvailable | packages/core/reslab_core/analysis/metrics.py:232-253 | Nominal time is at most the available time of any domain. |
| TimeMetrics.IntegritySplits | packages/core/reslab_core/analysis/metrics.py:256-267 | Integrity time is available time plus half the degraded time of the component, exactly. |
| TimeMetrics.RatiosAreExact | packages/core/reslab_core/analysis/metrics.py:232-267 | For ordered samples no clamp ever acts: each ratio times the total is the integral, and all relations hold exactly. |
| TimeMetrics.RatiosMean | packages/core/reslab_core/analysis/metrics.py:232-267 | With nothing to measure availability and integrity are one; otherwise they are the share of the measured time in the total, cut off at one. |
| TimeMetrics.HoldAndMissionAreDisjoint | packages/core/reslab_core/analysis/metrics.py:286-296 | Hold and mission time never overlap, so the continuity needs no clamp. |
| SystemModes.TimeShares | packages/core/reslab_core/analysis/metrics.py:288-296 | A sample counts as hold exactly in the hold or return mode or the holding phase, and as mission exactly in the mission, takeoff or landing mode otherwise. |
| SystemModes.HealthShares | packages/core/reslab_core/analysis/metrics.py:232-267 | A sample counts as available unless some observed component of the domain is degraded or out; for the integrity it counts half when the component is degraded, and not at all when it is out. |
| TimeMetrics.SortedByTime | packages/core/reslab_core/analysis/metrics.py:277-277 | Sorting puts the samples in time order and leaves ordered samples as they are. |
| Containment.MaxDepth | packages/core/reslab_core/analysis/metrics.py:483-483 | The largest non-negative depth, zero when there is none. |
| Containment.PropagationMetrics | packages/core/reslab_core/analysis/metrics.py:442-488 | Injected, affected and propagated sets, depths, containment and boundary crossing as documented. |
| Containment.SetsOfLog | packages/core/reslab_core/analysis/metrics.py:442-455 | Injected is what an applied injection names, affected what an effect entry shows degraded, unavailable, failed or recovering. |
| Containment.DomainsMean | packages/core/reslab_core/analysis/metrics.py:458-465 | The domains of a set of components are those of the topology's components with these ids. |
| Containment.LossMeans | packages/core/reslab_core/analysis/metrics.py:518-530 | Control counts as lost exactly when a sample shows the flight core failed, or an armed vehicle in a known mode without authority. |
| Timelines.SubsystemTimeline | packages/core/reslab_core/report/builder.py:31-55 | The nested loops compress every component's history into its track, closed at the last sample. |
| Timelines.TrackTiles | packages/core/reslab_core/report/builder.py:31-55 | A track tiles the time from its first sample to the end, neighbours in different states. |
| Timelines.HistoryIs | packages/core/reslab_core/report/builder.py:31-55 | The history of a component has one point for each sample that reports it, with that time and state, in order. |
| Timelines.TrackExpands | packages/core/reslab_core/report/builder.py:31-55 | At every sample time the track gives back the sampled state. |
| Timelines.TrackDurations | packages/core/reslab_core/report/builder.py:31-55 | The durations of a state's pieces add up to the time spent in it. |
| Timelines.HistoryTime | packages/core/reslab_core/analysis/metrics.py:223-229 | That time is the entry of the time-in-state table. |
| Timelines.GroupTransitions | apps/web/src/lib/run-view.ts:56-63 | The events with a component and a new state, grouped by component in order. |
| Timelines.BuildTrack | apps/web/src/lib/run-view.ts:70-85 | The segment loop draws the track of a component from its changes. |
| Timelines.BuildTimeline | apps/web/src/lib/run-view.ts:50-100 | A track for every component that changed or is always included, and for no other. |
| Timelines.EventTrackShowsLast | apps/web/src/lib/run-view.ts:70-85 | Within the drawn time the track shows the last state changed to. |
| Timelines.SamplesUpTo | apps/web/src/lib/run-view.ts:283-296 | The binary search returns exactly the samples up to a time. |
| TimelineAgreement.ClientFollows | apps/web/src/lib/run-view.ts:50-94 | For every run with a faithful feed and a clock that never goes back, at every drawn time the client's track of a component that starts healthy shows the health at the last observation whose rounded time is not later. |
| TimelineAgreement.TimelinesAgree | apps/web/src/lib/run-view.ts:50-94 | For strictly increasing times the report shows the sampled state at every sample; the client does exactly when the component was in that state at the last observation whose rounded time is not later. |
| TimelineAgreement.SpacedTimelinesAgree | apps/web/src/lib/run-view.ts:50-94 | A millisecond apart this means: exactly when the sample time does not round up or the component did not change at that sample. |
| Blinking.TrackMayLag | apps/web/src/lib/run-view.ts:70-85 | A run at three samples per second whose sample at 0.666666 s sees a component healthy while the client still draws it down. |
| Blinking.TrackMayLead | apps/web/src/lib/run-view.ts:70-85 | A run with two observations in one millisecond: at the first, which sees the component down, the client already draws it healthy. |
| MockDerive.CatalogueMatchesTopology | packages/core/reslab_core/scenario/catalog.py:197-215 | The catalogue covers exactly the components of the default topology, with their healthy states. |
| MockDerive.AllowedByEffect | packages/core/reslab_core/scenario/catalog.py:165-215 | The catalogue by effect: the components each effect may be injected into. |
| MockDerive.DirectSeverity | adapters/mock/reslab_adapter_mock/simulation.py:236-286 | The severity from direct effects is the worst of them, whatever their order. |
| MockDerive.SeverityReference | adapters/mock/reslab_adapter_mock/simulation.py:230-425 | The derived severity of every component is the order-free reference: worst direct effect, or what its providers and the brownout impose. |
| MockDerive.FlagsReference | adapters/mock/reslab_adapter_mock/simulation.py:379-421 | Command path, C2 link, telemetry link and loss of control, by the same reference. |
| MockDerive.BrownoutReference | adapters/mock/reslab_adapter_mock/simulation.py:332-351 | A brownout runs exactly when one was running or the bus is down or weak now. |
| MockDerive.MoreEffectsNeverHelp | adapters/mock/reslab_adapter_mock/simulation.py:230-425 | Adding catalogue-allowed effects never lowers a severity, never restores commands, C2 or telemetry, and never unsets loss of control. |
| MockDerive.OrderDoesNotMatter | adapters/mock/reslab_adapter_mock/simulation.py:230-425 | Severities and flags do not depend on the order of the effects. |
| MockDerive.EffectByKind | adapters/mock/reslab_adapter_mock/simulation.py:252-295 | The state an effect leaves on its target for every kind, and how low that puts it: down for unavailable, disconnect, the off phase, restart and crash, failed for a crash before its restart, degraded for the rest. |
| MockEffects.SingleEffect | adapters/mock/reslab_adapter_mock/simulation.py:230-295 | With a single effect on the vehicle its target shows exactly that state. |
| MockEffects.OnDuringDuty | adapters/mock/reslab_adapter_mock/simulation.py:222-226 | An intermittent fault lets its target work exactly during the first share of each period since its injection. |
| MockEffects.StagesBegin | adapters/mock/reslab_adapter_mock/simulation.py:158-195 | A restart is over once its time has passed, a crash stays failed until its watchdog has expired, other effects have no stages. |
| MockEffects.StagesAdvance | adapters/mock/reslab_adapter_mock/simulation.py:208-220 | One step keeps exactly the effects whose restart is not over, turns crashes whose watchdog expired into restarts of the stated length, and marks exactly the components whose restart is over. |
| MockEffects.InjectionTakes | adapters/mock/reslab_adapter_mock/simulation.py:158-188 | An injection into a known component puts its effect in place of the one with its id, else behind all others; into an unknown one nothing. |
| MockEffects.ClearTakesOut | adapters/mock/reslab_adapter_mock/simulation.py:190-195 | Clearing takes out the effect with this id and nothing else. |
| MockEffects.DirectIsLastWorst | adapters/mock/reslab_adapter_mock/simulation.py:236-295 | Of several effects on a component the worst counts, and of equally bad ones the last. |
| MockEffects.UntouchedFollows | adapters/mock/reslab_adapter_mock/simulation.py:230-400 | The state of a component no effect targets: its healthy one, or recovered while marked, unless what it relies on is in trouble; for each such relation the state it takes then. |
| MockEffects.BrownoutLasts | adapters/mock/reslab_adapter_mock/simulation.py:344-363 | A brownout begins when the bus fails, lasts for the time drawn, and marks the computer when it is over. |
| MockEffects.MarksAre | adapters/mock/reslab_adapter_mock/simulation.py:208-220 | After a step exactly those components are marked that were or whose restart or brownout just ended, and that the step before did not show as recovered. |
| MockEffects.RecoveredTwice | adapters/mock/reslab_adapter_mock/simulation.py:777-804 | A restart that ends shows as recovered in exactly two observations and as healthy after them, when nothing else happens to the component. |
| MockEffects.UsableByLast | adapters/mock/reslab_adapter_mock/simulation.py:300-308 | The last effect on the receiver that decides about aiding decides. |
| MockEffects.AidingIs | adapters/mock/reslab_adapter_mock/simulation.py:297-311 | The receiver aids the estimator exactly when nothing takes it down, and the last deciding effect on it is a degradation or, without one, nothing impairs it. |
| MockEffects.BatteryIs | adapters/mock/reslab_adapter_mock/simulation.py:336-343 | The battery factor is the lowest level any degradation leaves, at least three tenths, and one unless the battery is degraded and not down. |
| MockPolicy.PolicyDecides | adapters/mock/reslab_adapter_mock/simulation.py:449-525 | On the plan, the derived facts, the battery and the timers: when a decision lands, completes the takeoff, returns, holds or goes on, in this order, and what becomes of both timers. |
| MockPolicy.ControlLossEnds | adapters/mock/reslab_adapter_mock/simulation.py:432-447 | Losing control aborts the mission at once; a mission that is over is left alone. |
| MockPolicy.CommandsLost | adapters/mock/reslab_adapter_mock/simulation.py:457-463 | With only the command path lost: hold, return or land, as the plan says. |
| MockPolicy.AidingLost | adapters/mock/reslab_adapter_mock/simulation.py:465-478 | With only aiding lost: hold, land, or go on until dead reckoning has lasted too long, as the plan says. |
| MockPolicy.LinkLost | adapters/mock/reslab_adapter_mock/simulation.py:480-487 | With only the C2 link lost: hold, return, or go on under local autonomy, as the plan says. |
| MockPolicy.BatteryLow | adapters/mock/reslab_adapter_mock/simulation.py:488-490 | With everything else fine a weak battery, by factor or charge, means return, and nothing else does. |
| MockPolicy.HandOverAnnounced | adapters/mock/reslab_adapter_mock/simulation.py:527-555 | Who has the vehicle after a decision, and exactly when the hand-overs to local autonomy and back are announced. |
| MockPolicy.FailsafeAnnounced | adapters/mock/reslab_adapter_mock/simulation.py:557-588 | Exactly when holding, returning, landing and resuming are announced, the failsafes as safe states and last. |
| MockPolicy.MissionAdvances | adapters/mock/reslab_adapter_mock/simulation.py:696-751 | How takeoff, waypoints, the way home and the landing end, with the events they report. |
| MockPolicy.StandsWhenComplete | adapters/mock/reslab_adapter_mock/simulation.py:777-785 | A vehicle whose mission is complete stands still; any other moves, also after an abort. |
| MockPolicy.ProgressIs | adapters/mock/reslab_adapter_mock/simulation.py:753-774 | The reported progress by phase: height during the takeoff, legs behind and share of the present one on the way, descent after the last waypoint. |
| MockPolicy.PathCutStopsMission | adapters/mock/reslab_adapter_mock/simulation.py:777-817 | From fault to reaction: while an effect cuts the command path and none takes the core or the motors down, the step reports the mode the plan chose for it or one that goes before it, never the mission mode. |
| MockPolicy.LinkCutReacts | adapters/mock/reslab_adapter_mock/simulation.py:777-817 | The same for effects that cut the C2 link. |
| MockStep.DirectStates | adapters/mock/reslab_adapter_mock/simulation.py:230-286 | The map overwritten in place by the effect loop holds every component's direct state. |
| MockStep.GnssUsable | adapters/mock/reslab_adapter_mock/simulation.py:288-300 | The flag computed by the loop is whether the receiver aids the estimator. |
| MockStep.SpreadNavigation | adapters/mock/reslab_adapter_mock/simulation.py:287-322 | The repeated overwrites leave the derived states of estimator and flight core. |
| MockStep.LowestLevel | adapters/mock/reslab_adapter_mock/simulation.py:326-337 | The minimum over the degradations of a component. |
| MockStep.SpreadCompute | adapters/mock/reslab_adapter_mock/simulation.py:352-374 | The overwrites leave the derived states of planner and services. |
| MockStep.MockSimulation.Start | adapters/mock/reslab_adapter_mock/simulation.py:152-156 | Armed, taking off. |
| MockStep.MockSimulation.Inject | adapters/mock/reslab_adapter_mock/simulation.py:158-188 | Adds or replaces the effect with its stage; refuses unknown components. |
| MockStep.MockSimulation.Clear | adapters/mock/reslab_adapter_mock/simulation.py:190-195 | Removes the effect with this id, if any. |
| MockStep.MockSimulation.AdvanceTransients | adapters/mock/reslab_adapter_mock/simulation.py:208-220 | The in-place loop leaves exactly the effects that go on and marks the components that restarted. |
| MockStep.MockSimulation.SpreadPower | adapters/mock/reslab_adapter_mock/simulation.py:332-351 | Starts, keeps or ends the brownout and overwrites the computer's state accordingly. |
| MockStep.MockSimulation.Derive | adapters/mock/reslab_adapter_mock/simulation.py:230-425 | The whole derivation, in the order of the source, returns the component-by-component definition. |
| MockStep.MockSimulation.Requests | adapters/mock/reslab_adapter_mock/simulation.py:449-495 | What the policy asks for - hold, return, land - with the two timers. |
| MockStep.MockSimulation.SelectMode | adapters/mock/reslab_adapter_mock/simulation.py:497-519 | Mode and phase by priority: landing, returning, holding, mission. |
| MockStep.MockSimulation.Attribute | adapters/mock/reslab_adapter_mock/simulation.py:521-547 | Who is in charge, and the responses that announce it. |
| MockStep.MockSimulation.Announce | adapters/mock/reslab_adapter_mock/simulation.py:549-588 | The response that announces a change of mode. |
| MockStep.MockSimulation.DecideMode | adapters/mock/reslab_adapter_mock/simulation.py:429-589 | The whole decision performs the step of the model. |
| MockStep.MockSimulation.AdvanceMission | adapters/mock/reslab_adapter_mock/simulation.py:696-751 | Takeoff, waypoints, return and landing perform the step of the model. |
| MockStep.MockSimulation.Changes | adapters/mock/reslab_adapter_mock/simulation.py:787-799 | The differences to the previous states, in component order. |
| MockStep.MockSimulation.DropReported | adapters/mock/reslab_adapter_mock/simulation.py:800-803 | Exactly the marks whose component was reported recovered are dropped. |
| MockStep.MockSimulation.Step | adapters/mock/reslab_adapter_mock/simulation.py:777-817 | One step: the new vehicle and the observation of the model. |
| MockRuns.RunsKeepMission | adapters/mock/reslab_adapter_mock/simulation.py:429-785 | The mission invariant holds at every point of every run, for all noise. |
| MockRuns.MissionOutcome | adapters/mock/reslab_adapter_mock/simulation.py:696-751 | Finished exactly when complete or aborted, both for good; complete means all waypoints reached and disarmed; the index is one plus the waypoints reported and never drops. |
| MockRuns.RunsGoOnward | adapters/mock/reslab_adapter_mock/simulation.py:429-785 | From any point of any run on, a finished mission stays as it is and waypoints are never given back. |
| MockRuns.ProgressMeaning | adapters/mock/reslab_adapter_mock/simulation.py:753-773 | Progress lies in [0, 1], is 1 exactly for a complete mission and at most 0.999 before. |
| MockRuns.StepReportsProgress | adapters/mock/reslab_adapter_mock/simulation.py:753-817 | The reported progress is 1 exactly when the step leaves the mission complete, finished and disarmed. |
| MockRuns.ArmedUntilLanded | adapters/mock/reslab_adapter_mock/simulation.py:152-156 | A run that begins with the start is armed from then on until it has landed. |
| MockRuns.TimersRespected | adapters/mock/reslab_adapter_mock/simulation.py:464-519 | After one decision HOLD is within the hold timeout and unaided MISSION under dead reckoning within its maximum. |
| MockRuns.StretchesEnd | adapters/mock/reslab_adapter_mock/simulation.py:464-519 | In any run no uninterrupted stretch of HOLD outlasts the hold timeout, and none of unaided MISSION under dead reckoning outlasts its maximum. |
| MockSpread.DerivationExplained | adapters/mock/reslab_adapter_mock/simulation.py:230-425 | Whatever a derivation leaves impaired is a target or lies behind an impaired target. |
| MockSpread.RunsKeepSpread | adapters/mock/reslab_adapter_mock/simulation.py:230-425 | At every point of every run each component ever impaired is explained, brownouts that outlive their cause included. |
| MockSpread.DepthAtMostTwo | packages/core/reslab_core/analysis/metrics.py:464-464 | For every run of catalogue-allowed injections every depth is 0, 1 or 2. |
| MockSpread.CriticalStaysHealthy | adapters/mock/reslab_adapter_mock/simulation.py:409-421 | A run that targets neither flight control nor actuation leaves both healthy and in control at every step. |
| MockSpread.CriticalMatchesTopology | packages/core/reslab_core/topology.py:336-367 | The four components named critical are those of the two critical domains. |
| Lab.PlayIsLoop | packages/core/reslab_core/engine/scenario_engine.py:274-316 | A closed session of engine and mock is a run of the engine on the observations it recorded. |
| Lab.MockIsFaithful | adapters/mock/reslab_adapter_mock/simulation.py:787-817 | The mock reports exactly what changed since its previous step. |
| Lab.LabDepths | packages/core/reslab_core/analysis/metrics.py:442-488 | In the finished log of every session on the mock every depth is 0, 1 or 2. |
| Lab.LabContained | packages/core/reslab_core/analysis/metrics.py:469-530 | A scenario that spares the critical domains has none of their components affected and no loss of control. |
| Lab.LabMetrics | packages/core/reslab_core/analysis/metrics.py:469-488 | The propagation metrics of a session: maximum depth at most 2, no independent fault, and contained when the scenario spares the critical domains. |
| Lab.LabAgrees | packages/core/reslab_core/analysis/metrics.py:334-397 | For every session the finished log replays to the faults the engine tracked, and folds to the vehicle's states after every tick and at the end. |
| Lab.LabTimelines | apps/web/src/lib/run-view.ts:50-94 | For every session with steps a millisecond apart, whose rate the scenario bounds at 50 Hz: at every step the report shows the vehicle's state, and the client, drawing the finished log, does exactly when the step time does not round up or the component did not change. |
| RunStates.TransitionAdvances | packages/core/reslab_core/states.py:195-211 | Every transition leaves a non-terminal state and advances the rank, except between running and recovering. |
| RunStates.TransitionRules | packages/core/reslab_core/states.py:195-222 | The table by its rules: one rank at a time, a preparation only into running, running and recovering alternate, cancelling up to collecting, failing from validating on, completing only after the analysis. |
| RunStates.OnlyRecoveryRepeats | packages/core/reslab_core/states.py:195-211 | Along any legal history only running and recovering occur twice, and nothing follows a terminal state. |
| Orchestration.RunRow.Transition | packages/platform/reslab_platform/db/repository.py:146-174 | The validated transition: nothing for the same state, refusal for an illegal one, else state and stamps. |
| Orchestration.LeadToCollecting | services/orchestrator/reslab_orchestrator/service.py:250-258 | The steps that make up for lost messages are those of the model. |
| Orchestration.FinalizeRow | services/orchestrator/reslab_orchestrator/service.py:242-284 | Finalization in place is the walk of the model; a refusal is reported. |
| Orchestration.Orchestrator.OnLifecycle | services/orchestrator/reslab_orchestrator/service.py:145-189 | A lifecycle message: ignored for unknown or terminal runs, dropped when illegal, else applied. |
| Orchestration.Orchestrator.OnFinished | services/orchestrator/reslab_orchestrator/service.py:234-240 | A finished message finalizes the run, or leaves everything as it was when that is refused. |
| Orchestration.Orchestrator.OnHeartbeat | services/orchestrator/reslab_orchestrator/service.py:286-300 | Remembers when the runner was heard and what it executes. |
| Orchestration.Orchestrator.CancelRun | services/api/reslab_api/services/runs.py:215-232 | Runs no runner has picked up are cancelled at once, others are left. |
| Orchestration.Orchestrator.CreateRun | services/api/reslab_api/services/runs.py:127-212 | Creation leaves a queued or a failed run. |
| Orchestration.Orchestrator.Inspect | services/orchestrator/reslab_orchestrator/service.py:324-386 | The nested exits of the watchdog take the action of the model for one run. |
| Orchestration.Orchestrator.WatchdogTick | services/orchestrator/reslab_orchestrator/service.py:310-389 | One session for all runs: every active run is inspected, a refusal undoes the whole tick. |
| RunLifecycle.FinalizeRefuses | services/orchestrator/reslab_orchestrator/service.py:242-284 | Finalization raises exactly for: created unless cancelled, validating when completed, analysing when cancelled. |
| RunLifecycle.FinalizeEnds | services/orchestrator/reslab_orchestrator/service.py:242-284 | From every state a committed row can have, finalization never raises and ends in the terminal state of the outcome along a legal path. |
| RunLifecycle.LifecycleHolds | services/orchestrator/reslab_orchestrator/service.py:145-189 | A lifecycle message keeps a committed row legal and appends at most its state to the history. |
| RunLifecycle.LifecycleRepeats | services/orchestrator/reslab_orchestrator/service.py:145-189 | Handling a message twice changes nothing but the time stamp. |
| RunLifecycle.InOrderIsAccepted | services/orchestrator/reslab_orchestrator/service.py:145-189 | Messages that follow the table are all accepted and become the history. |
| RunLifecycle.FailedPreparation | services/orchestrator/reslab_orchestrator/service.py:250-258 | After a failed preparation the collecting message is dropped and finalization leads the row through running, so a run that never ran gets a start time. |
| RunMessages.LifecycleTakes | services/orchestrator/reslab_orchestrator/service.py:145-189 | A reported state is taken exactly when it is the present one or one of the six next steps, with the whole row that results; any other report changes nothing. |
| RunMessages.FinishedFillsIn | services/orchestrator/reslab_orchestrator/service.py:242-284 | A finished message fills in the states a run missed, from its state on, stamps the start if it was missed, and ends it now in the state of the outcome. |
| RunMessages.CreationEnds | services/api/reslab_api/services/runs.py:130-212 | A created run ends up queued, failed at once when its scenario is rejected, or failed from the queue when its job cannot be published. |
| RunMessages.CancelCloses | services/api/reslab_api/services/runs.py:215-224 | Cancelling closes a run that waits in the queue and leaves a run that a runner has. |
| Orchestration.RowsStayLegal | services/orchestrator/reslab_orchestrator/service.py:145-389 | Under any interleaving every committed row is the end of a legal path from created, never created, validating or analysing, with an end time exactly when terminal. |
| Orchestration.HistoryIsKept | packages/platform/reslab_platform/db/repository.py:146-174 | From any point of any interleaving on, histories only grow and terminal rows keep state, history and stamps. |
| Orchestration.HistoriesAreOrdered | packages/core/reslab_core/states.py:195-211 | Along any history only running and recovering repeat, nothing follows a terminal state, the rank never drops. |
| Orchestration.FinishedCloses | services/orchestrator/reslab_orchestrator/service.py:234-284 | Whatever was lost before, a finished message closes its run. |
| Watchdog.WatchdogCloses | services/orchestrator/reslab_orchestrator/service.py:310-389 | On rows, heartbeats and reported sets: a tick fails a run exactly when it waited too long in the queue, or was silent too long in preparation, or is stale with a runner that is unknown, unheard or without it, the grace period over; every other run keeps its row. |
| Watchdog.AttendedIsLeft | services/orchestrator/reslab_orchestrator/service.py:344-389 | A run whose runner was heard in time and reports it is left, a preparation that takes too long aside. |
| Watchdog.RecentIsLeft | services/orchestrator/reslab_orchestrator/service.py:344-361 | A run with any of its three stamps within the limit is left. |
| Watchdog.DroppedIsFailed | services/orchestrator/reslab_orchestrator/service.py:359-389 | A stale run whose runner is unknown, silent, or reports its runs without it is failed. |
| Watchdog.LastHeartbeatCounts | services/orchestrator/reslab_orchestrator/service.py:286-298 | Under any interleaving a runner was heard at its last heartbeat and has the runs it reported then. |
| Watchdog.DataKeepsAlive | services/orchestrator/reslab_orchestrator/service.py:191-225 | Data that arrives only moves the stamp of its run, and a tick within the limit leaves the run. |
| Storage.RunTables.InsertEvents | packages/platform/reslab_platform/db/repository.py:222-249 | Inserts what has a new sequence number and counts it. |
| Storage.RunTables.InsertTelemetryChunk | packages/platform/reslab_platform/db/repository.py:284-302 | Inserts a non-empty chunk with a new sequence number, and says whether it did. |
| Storage.RunTables.OnEvent | services/orchestrator/reslab_orchestrator/service.py:191-200 | Stores an event and counts it once. |
| Storage.RunTables.OnTelemetry | services/orchestrator/reslab_orchestrator/service.py:202-213 | Stores a chunk and counts its samples once. |
| Storage.AlwaysConsistent | services/orchestrator/reslab_orchestrator/service.py:191-213 | After any selection of a run's messages, in any order and number, the rows are the emitted ones and the counters count them. |
| Storage.StoreIsDetermined | services/orchestrator/reslab_orchestrator/service.py:191-213 | Once every message was handled at least once, rows and counters are those of the run, whatever the schedule. |
| Storage.PageOfRun | packages/platform/reslab_platform/db/repository.py:252-269 | For every cursor, limit and choice of kinds a page holds the first matching entries behind the cursor in emission order; unfiltered and with a sufficient limit, the whole log. |
| Storage.ReadChunks | packages/platform/reslab_platform/db/repository.py:322-338 | The nested loops return every stride-th sample of the window up to the limit; a limit below one still returns one sample. |
| Storage.QueryAt | packages/platform/reslab_platform/db/repository.py:322-338 | Without a limit the j-th sample of a query is the one at j times the stride in the window, and there are as many as fit; a stride below one counts as one. |
| Storage.LastTimeIs | services/orchestrator/reslab_orchestrator/service.py:191-225 | The last simulation time is that of the last message that brought something new; repeated messages leave it alone. |
| Storage.ListTelemetry | packages/platform/reslab_platform/db/repository.py:305-338 | The same over the chunks the query selects, for any chunks; over all chunks when each is bounded by its ends. |
| Storage.SelectionIsLossless | packages/platform/reslab_platform/db/repository.py:314-321 | One window loses samples exactly when a dropped chunk holds some of it. |
| Storage.SelectionIsHarmless | packages/platform/reslab_platform/db/repository.py:314-321 | The exact condition: no window loses a sample if and only if in every chunk the first sample is the earliest and the last the latest. |
| Storage.SelectionMayLose | packages/platform/reslab_platform/db/repository.py:314-321 | A chunk and a window for which a sample is lost. |
| Delivery.RunIsStored | services/orchestrator/reslab_orchestrator/service.py:191-213 | Any schedule of a run's messages stores the engine's log and the samples of its processed observations. |
| Delivery.TelemetryIsRead | packages/platform/reslab_platform/db/repository.py:305-338 | Whatever the schedule, every telemetry query on the stored run is answered from the samples of the processed observations; the selection of chunks loses none. |
| Delivery.RunIsRecorded | services/orchestrator/reslab_orchestrator/service.py:145-284 | Delivered in order, the messages of a run make its row record the engine's states and the closing states of its outcome. |
| Delivery.RunEndsInRow | services/orchestrator/reslab_orchestrator/service.py:231-284 | The state the row ends in, on the inputs of the run: cancelled exactly when a cancel request was noticed, completed exactly when the target did not fail after the whole feed either and the analysis succeeded, failed otherwise. |
| LiveStore.MergeEvents | apps/web/src/stores/live-run.ts:32-43 | The newest entries of both lists in ascending order, incoming ones winning; with nothing incoming the list as it is. |
| LiveStore.MergeSamples | apps/web/src/stores/live-run.ts:46-63 | The same, or for batches newer than everything held the appended list. |
| LiveStore.MergeIsAscending | apps/web/src/stores/live-run.ts:32-43 | A merge is strictly ascending and within the cap. |
| LiveStore.StoreKeeps | apps/web/src/stores/live-run.ts:32-63 | The store keeps the newest 2000 events and 6000 samples, and all of them while there are no more. |
| LiveStore.ShortcutIsMerge | apps/web/src/stores/live-run.ts:46-63 | For every list, cap and batch the shortcut takes, appending is the merge exactly when the kept end is ascending and everything cut off is older or repeated in it; for a batch within the cap, exactly when the batch is ascending. |
| LiveStore.ShortcutMayDiffer | apps/web/src/stores/live-run.ts:46-63 | An unsorted batch that the shortcut leaves as it came, unlike the merge. |
| LiveStore.FlushTimingIsIrrelevant | apps/web/src/stores/live-run.ts:32-43 | Merging two batches in turn gives what merging them at once gives, for every list held and every cap. |
| LiveStore.SnapshotIsAbsorbed | apps/web/src/stores/live-run.ts:32-43 | Merging entries already held changes nothing. |
| LiveStore.ArrivalOrderIsIrrelevant | apps/web/src/stores/live-run.ts:32-43 | Batches that agree where they overlap may be merged in either order. |
| LiveStore.LiveRun.Ingest | apps/web/src/stores/live-run.ts:177-190 | A flush merges both batches, remembers the last sample and never lets the clock go back; the store stays in order exactly when the shortcut takes no batch whose kept end is unsorted. |
| LiveStore.LiveRun.ApplySnapshot | apps/web/src/stores/live-run.ts:151-167 | A snapshot replaces both lists; its last sample as sent becomes the latest. |
| LiveStore.LiveRun.ReplaceHistory | apps/web/src/stores/live-run.ts:208-224 | Fetched histories replace what was streamed, each if given. |
| Replay.PendingTimes | adapters/replay/reslab_adapter_replay/adapter.py:120-120 | The sorted set of the times at which something is replayed. |
| Replay.ReplayAdapter.Prepare | adapters/replay/reslab_adapter_replay/adapter.py:65-71 | The healthy states, overwritten by the first sample. |
| Replay.ReplayAdapter.DiffStates | adapters/replay/reslab_adapter_replay/adapter.py:126-137 | Exactly the components whose state differs are reported, each once, and remembered. |
| Replay.ReplayAdapter.TakeDue | adapters/replay/reslab_adapter_replay/adapter.py:138-145 | The cursor takes exactly the events due at this sample; the second part of its guard never holds it back. |
| Replay.ReplayAdapter.Observe | adapters/replay/reslab_adapter_replay/adapter.py:121-169 | The whole replay: samples, differences, due events and the end flag, up to the end or the stop. |
| Replay.ReplayEmitsOnce | adapters/replay/reslab_adapter_replay/adapter.py:138-145 | Each recorded response and each recorded mission event of the replayed types is emitted exactly once, if some emitted sample lies at or after it, in time order, whatever the order of the sample times. |
| Replay.FirstSampleAfter | adapters/replay/reslab_adapter_replay/adapter.py:138-145 | An event comes with the first sample at or after it. |
| Replay.KnownBefore | adapters/replay/reslab_adapter_replay/adapter.py:126-137 | What is known of a component before a sample: the state in the last earlier sample that reports it, else the initial one. |
| Replay.ReplayedTypes | adapters/replay/reslab_adapter_replay/adapter.py:110-120 | Of the recorded mission events exactly takeoff, waypoints and landing are replayed, of the responses all. |
| Replay.FinishesOnce | adapters/replay/reslab_adapter_replay/adapter.py:146-169 | A replay is finished by its last sample, or before it by the first of a mission that is complete or aborted. |
| Replay.PairwiseDifferences | adapters/replay/reslab_adapter_replay/adapter.py:126-137 | With one set of components the changes are exactly the differences between neighbouring samples, none for the first. |
| Replay.ReplayIsFaithful | adapters/replay/reslab_adapter_replay/adapter.py:126-137 | For the engine each observation of such a replay is a faithful one. |
| Replay.ReplayedRunMirrors | adapters/replay/reslab_adapter_replay/adapter.py:93-169 | A whole replay is a faithful feed: in a run on it the engine's states after every processed observation are the recorded ones, and so is the fold of the log. |
| Durations.ParsesExactly | packages/core/reslab_core/duration.py:11-37 | The parser accepts exactly the texts of the pattern, each with its only possible groups. |
| Durations.LookaheadIsFree | packages/core/reslab_core/duration.py:11-13 | The look-ahead behind the minutes excludes nothing. |
| Durations.TrimIs | packages/core/reslab_core/duration.py:31-33 | What is parsed is the stretch of the text between the white space at both ends, and it neither begins nor ends with any. |
| Durations.FormatRoundTrip | packages/core/reslab_core/duration.py:44-57 | What is printed parses back: exact below a second for whole milliseconds, within 0.05 s below a minute, within 0.5 s beyond, carries to 60s included. |
| Durations.NegativeIsNotParsed | packages/core/reslab_core/duration.py:44-48 | A negative duration prints with a sign the parser rejects. |
| Durations.ClientRoundTrip | apps/web/src/lib/duration.ts:31-40 | The same for the client's printer, within 0.55 s beyond a minute. |
| Durations.ClientBoundIsReached | apps/web/src/lib/duration.ts:31-40 | 60.45 s may be printed as 1m1s. |
| Rounding.RoundedDifference | packages/core/reslab_core/engine/scenario_engine.py:571-571 | Rounding a difference and differencing rounded times agree within a millisecond, and exactly under a guard on the rounding shifts. |

## Left out

- Floating point: times, durations and metrics are exact reals; the final rounding of metrics to three or six decimals is not modelled.
- Engine.ScenarioEngine.Run: an interrupted runner task, exceptions a target raises inside an injection, a clear or an observation other than at the end of the feed, and failures while collecting artifacts or stopping the target.
- Texts: messages, severities, sources, reasons, and the result details of a clear.
- The engine's support check and the preparation itself are one outcome of `Setup`; identities of expectation objects are serial numbers.
- The effect of an injection whose request was not logged is not looked up in the mechanism of its application: the engine always logs the request.
- MockStep.MockSimulation.Changes: causes and reasons of a mock state change are not modelled, so changes carry no cause and the engine attributes them itself.
- MockStep.MockSimulation.Derive: causes, reasons, speed factor, latency, packet loss and attitude noise are left out; the speed factor is not monotone in the effects, and receiver aiding, which is not monotone either, is modelled without such a claim.
- MockDerive.InDuty: a period that is not positive counts as never on; durations given as text parameters are numbers here.
- MockStep.MockSimulation.Step: the causes of changes, and the rounding of the reported progress to four decimals.
- Containment.PropagationMetrics: the alphabetical order of the lists of components and domains, which are sets here.
- Kinematics, wind, battery drain and the navigation estimate are arbitrary inputs; altitude is only known to be non-negative.
- A mock mission need not end: a lasting reason to return keeps it returning, so landing is not claimed.
- Timelines.SubsystemTimeline: the final sort by component name, which only groups the intervals.
- Timelines.BuildTimeline: names, domains, worst states and the order of the tracks.
- Concurrent database transactions on one run row: each handler is one atomic step, the two commits of a creation whose job cannot be published included.
- A restart of the orchestrator, which forgets what the runners last reported and starts a new grace period.
- Orchestration.Orchestrator.CreateRun: the reasons for which a scenario is rejected are one outcome, and a request that never gets a row is no step.
- Columns of a run row that do not take part in the lifecycle; their change is the flag `news` of a message, and every data message touches the row.
- Message subjects, acknowledgements and redelivery counts: a schedule is any sequence of successfully handled messages.
- Storage.ListEvents: the query is described by its result, since the database evaluates it.
- LiveStore.LiveRun: the summary, lifecycle and completion actions, which only copy fields.
- Pacing against the wall clock in the mock and replay adapters, and the planned path of a recording without one.
- Durations.Parse: digits and white space outside ASCII, and inputs that are not text.
- The PX4 adapter, message transport, the object store, views, reports, command line, settings, validation and scoring.
