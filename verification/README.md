# Stop stage of the traffic-light unprotected right turn scenario

This Dafny project models the stop stage of the traffic-light "unprotected right turn"
scenario in the planning module. The stage is `TrafficLightUnprotectedRightTurnStageStop` in
`modules/planning/scenarios/traffic_light/unprotected_right_turn/stage_stop.cc`. On every control
cycle, `Process` does four things:

- It refreshes the stage's copy of the scenario configuration.
- It ends the whole scenario when no traffic-light overlap is active (`FinishScenario`).
- Otherwise it walks the active overlap ids in order. Each id that resolves on the reference line
  makes that junction lose right of way and has its signal looked up. The walk breaks at the first
  crossing that is too far from the vehicle's front edge or is not GREEN.
- It then ends the stage towards intersection cruise, or towards creep once a right-turn-on-red
  wait has lasted longer than the configured duration (`FinishStage`). Failing both, it stays
  RUNNING.

Layout:

- `stop_types.dfy` (module `StopTypes`): the values. These are the signal color, the
  configuration, the stage types and statuses, a right-of-way update, the frame snapshot
  `FrameView`, the persisted `StopState` and one cycle's inputs `Tick`.
- `stop_decision.dfy` (module `StopDecision`): one cycle as functions.
  - `Aggregate` is the ordered fold with its early exit.
  - `Cycle` is the whole per-cycle transition.
  - `FinishScenarioState` and `FinishStageState` give the state the two finishers leave.
  - `RunCycles` is the assumed driver: one call of the stage per tick until it finishes.
- `stage_stop.dfy` (module `UnprotectedRightTurn`): the stage as objects updated in place. They
  are `ReferenceLine`, `Frame`, the shared `StageContext`, the traffic-light part of the
  `PlanningStatus`, and `StopStage` with `Process`, its loop `CheckTrafficLights`,
  `FinishScenario` and `FinishStage`. `Process` is proved to leave exactly the state, status and
  call logs that `Cycle` gives.
- `stop_properties.dfy` (module `StopProperties`): the properties of the fold, of one cycle and
  of a run of cycles.

How the collaborators are represented:

- Overlap resolution is the map `ReferenceLine.signalOverlaps` from id to `start_s`. An absent
  id does not resolve.
- `GetSignal` reads the total function `Frame.signals`.
- `AdcSlBoundary().end_s()` is `ReferenceLine.adcFrontEdgeS`.
- `SetJunctionRightOfWay` calls and `GetSignal` lookups are appended to the logs
  `ReferenceLine.junctionRightOfWay` and `Frame.signalQueries`.
- The clock is the parameter `now`.
- The process-wide planning status is an explicit `PlanningStatus` object held by the stage.

Two details of the code that the model keeps:

- The wait anchor `stop_start_time` is a real, and `0.0` means unset (line 110). The model does
  not use an optional timestamp.
- The signal color is looked up (line 82) before the distance check (lines 89-93). So the
  crossing at which the walk stops always has its color looked up, even when it is too far away.

## Model

| member | source | states |
|---|---|---|
| `StopDecision.Aggregate` | modules/planning/scenarios/traffic_light/unprotected_right_turn/stage_stop.cc:61-100 | no contract of its own (the loop method proved equal to it stays within the resource limit that way); its shape is given by `AggregateShape`, `AggregateVisitsResolvedPrefix`, `AggregateAllPassIff` and `AggregateSkipsUnresolved` |
| `StopDecision.Cycle` | modules/planning/scenarios/traffic_light/unprotected_right_turn/stage_stop.cc:43-126 | no contract of its own; `Process` is proved equal to it, and the single-cycle lemmas below state its outcomes |
| `StopDecision.FinishScenarioState` | modules/planning/scenarios/traffic_light/unprotected_right_turn/stage_stop.cc:128-133 | no contract of its own; `FinishScenario` is proved to leave exactly this state, and `EmptyIdsFinishScenario` states it in terms of a cycle |
| `StopDecision.FinishStageState` | modules/planning/scenarios/traffic_light/unprotected_right_turn/stage_stop.cc:135-159 | no contract of its own; `FinishStage` is proved to leave exactly this state, and `CruiseIffAllResolvedPass` and `CreepRewritesDoneList` state what it changes |
| `StopDecision.Resolved` | modules/planning/scenarios/traffic_light/unprotected_right_turn/stage_stop.cc:67-73 | the ids that resolve to an overlap are exactly the active ids present in the overlap map, and there are no more of them than active ids |
| `StopProperties.AggregateShape` | modules/planning/scenarios/traffic_light/unprotected_right_turn/stage_stop.cc:61-100 | every visited crossing gets one right-of-way update `(start_s, false)` and one color lookup, the k-th update belonging to the k-th lookup (that the lookups follow list order is `AggregateVisitsResolvedPrefix`). All visited crossings but the last pass both checks. The walk stops at the last one exactly when it fails a check. The cleared flag names the failed check (distance first). So at most one of `allStop`, `allGreen` is false |
| `StopProperties.AggregateSkipsUnresolved` | modules/planning/scenarios/traffic_light/unprotected_right_turn/stage_stop.cc:64-73 | dropping the ids that do not resolve changes nothing: the same flags, the same updates, the same lookups |
| `StopProperties.AggregateVisitsResolvedPrefix` | modules/planning/scenarios/traffic_light/unprotected_right_turn/stage_stop.cc:64-100 | the looked-up ids are a prefix of the resolved ids in order. They are all of them when both flags stay set, so no crossing after a break is updated or looked up |
| `StopProperties.AggregateAllPassIff` | modules/planning/scenarios/traffic_light/unprotected_right_turn/stage_stop.cc:61-100 | both flags stay true exactly when every resolved crossing is within `max_valid_stop_distance` and GREEN. This includes the case where none resolves |
| `StopProperties.FarCrossingHidesTheRest` | modules/planning/scenarios/traffic_light/unprotected_right_turn/stage_stop.cc:88-93 | a first crossing that is too far away ends the walk with `allStop` false and `allGreen` still true. It gets its update and lookup, and nothing after it does |
| `StopProperties.EmptyIdsFinishScenario` | modules/planning/scenarios/traffic_light/unprotected_right_turn/stage_stop.cc:55-57 | with no active ids the cycle is FINISHED with next stage NO_STAGE and the traffic-light status cleared, whatever the configuration, colors or timer. There are no updates and no lookups |
| `StopProperties.CruiseIffAllResolvedPass` | modules/planning/scenarios/traffic_light/unprotected_right_turn/stage_stop.cc:102-104 | with active ids, the cycle finishes towards intersection cruise exactly when every resolved crossing is within range and GREEN. Then only the next stage changes: the done list, wait anchor and creep time are untouched |
| `StopProperties.RunningWhenOutOfRangeOrPolicyOff` | modules/planning/scenarios/traffic_light/unprotected_right_turn/stage_stop.cc:102-125 | when the cruise rule does not fire, and the walk stops at a crossing that is too far away (the fold clears `allStop`) or right turn on red is disabled, the cycle is RUNNING and the persisted state is unchanged, wait anchor included |
| `StopProperties.WaitTimerStep` | modules/planning/scenarios/traffic_light/unprotected_right_turn/stage_stop.cc:107-122 | with right turn on red enabled and the walk stopping at an in-range crossing that is not GREEN: an unset anchor is set to `now` and the cycle is RUNNING. A set anchor gives FINISHED exactly when `now - stop_start_time` exceeds the duration, and otherwise changes nothing |
| `StopProperties.WaitAnchorOnlySetOnce` | modules/planning/scenarios/traffic_light/unprotected_right_turn/stage_stop.cc:107-122 | a cycle either keeps `stop_start_time` or, from unset (0.0), sets it to `now` while staying RUNNING. The stage never clears it |
| `StopProperties.CreepRewritesDoneList` | modules/planning/scenarios/traffic_light/unprotected_right_turn/stage_stop.cc:143-158 | a cycle that finishes towards creep meets three conditions: right turn on red is enabled, the set anchor has expired, and the walk stopped at an in-range crossing that is not GREEN. The done list then equals the active ids in order, `creep_start_time` is `now`, and nothing else changes |
| `StopProperties.NoCreepWithoutRightTurnOnRed` | modules/planning/scenarios/traffic_light/unprotected_right_turn/stage_stop.cc:106-125 | over any number of cycles with right turn on red disabled, the stage never creeps and never touches the wait anchor |
| `StopProperties.NeverFinishesOutOfRange` | modules/planning/scenarios/traffic_light/unprotected_right_turn/stage_stop.cc:88-125 | while every cycle's walk stops at a crossing that is too far away (the fold clears `allStop`), the stage stays RUNNING with its state unchanged, however much time passes |
| `StopProperties.WaitsUntilExpiry` | modules/planning/scenarios/traffic_light/unprotected_right_turn/stage_stop.cc:112-121 | with the anchor set and every cycle waiting at red (its walk stops at an in-range crossing that is not GREEN, with right turn on red enabled) within the duration, the stage stays RUNNING and changes nothing |
| `StopProperties.CreepsAtFirstExpiry` | modules/planning/scenarios/traffic_light/unprotected_right_turn/stage_stop.cc:112-121 | with the anchor set and a sustained wait at red, the stage finishes towards creep on the first cycle whose wait exceeds the duration |
| `StopProperties.SustainedRedLightWaits` | modules/planning/scenarios/traffic_light/unprotected_right_turn/stage_stop.cc:107-122 | from an unset anchor and with a first cycle at a nonzero time (at 0.0 the anchor stays unset, line 110), the first cycle of a sustained wait at red anchors at its own time. The stage stays RUNNING while the elapsed time is at most the duration |
| `StopProperties.SustainedRedLightCreeps` | modules/planning/scenarios/traffic_light/unprotected_right_turn/stage_stop.cc:107-122 | from an unset anchor and with a first cycle at a nonzero time, a sustained wait at red ends with creep on the first cycle past the duration. The done list then equals the active ids in order and the anchor is the first cycle's time |
| `StopProperties.TwoLightsFirstRedScenario` | modules/planning/scenarios/traffic_light/unprotected_right_turn/stage_stop.cc:64-125 | two lights, the first 1.0 ahead and RED with a 2.0 range: the walk stops at the first light and the first cycle anchors the wait. A cycle 6 s later, with a 5 s duration, creeps with both ids done |
| `UnprotectedRightTurn.StopStage.Process` | modules/planning/scenarios/traffic_light/unprotected_right_turn/stage_stop.cc:43-126 | refreshes the configuration copy. The returned status, the new context, planning status and next stage, and the right-of-way and lookup calls made are exactly those of `Cycle` on the old state |
| `UnprotectedRightTurn.StopStage.CheckTrafficLights` | modules/planning/scenarios/traffic_light/unprotected_right_turn/stage_stop.cc:61-100 | the loop with its breaks yields the flags of `Aggregate`. It appends exactly `Aggregate`'s updates and lookups to the reference line's and frame's logs |
| `UnprotectedRightTurn.StopStage.FinishScenario` | modules/planning/scenarios/traffic_light/unprotected_right_turn/stage_stop.cc:128-133 | returns FINISHED. The traffic-light status is cleared, the next stage is NO_STAGE, and the context is untouched |
| `UnprotectedRightTurn.StopStage.FinishStage` | modules/planning/scenarios/traffic_light/unprotected_right_turn/stage_stop.cc:135-159 | returns FINISHED. In protected mode only the next stage changes, to intersection cruise. Otherwise the done list is cleared and refilled with the active ids in order, `creep_start_time` becomes `now`, and the next stage is creep |
| `UnprotectedRightTurn.ReferenceLine.SetJunctionRightOfWay` | modules/planning/scenarios/traffic_light/unprotected_right_turn/stage_stop.cc:76-77 | the update is appended to the reference line's right-of-way log |
| `UnprotectedRightTurn.Frame.GetSignal` | modules/planning/scenarios/traffic_light/unprotected_right_turn/stage_stop.cc:82 | returns the perceived color of the id and records the lookup |
| `UnprotectedRightTurn.PlanningStatus.ClearTrafficLight` | modules/planning/scenarios/traffic_light/unprotected_right_turn/stage_stop.cc:129 | the traffic-light status goes back to absent, with an empty done list |
| `UnprotectedRightTurn.PlanningStatus.ClearDoneTrafficLightOverlapIds` | modules/planning/scenarios/traffic_light/unprotected_right_turn/stage_stop.cc:144-147 | the traffic-light status is present and its done list is empty |
| `UnprotectedRightTurn.PlanningStatus.AddDoneTrafficLightOverlapId` | modules/planning/scenarios/traffic_light/unprotected_right_turn/stage_stop.cc:150-152 | the id is appended to the done list |

## Left out

- `ExecuteTaskOnReferenceLine` (lines 50-53) is not modelled. It is the external trajectory planner, and its result is only logged.
- Logging is not modelled.
- `CHECK_NOTNULL(frame)` is not modelled as a check. The frame is a non-null `Frame` parameter instead.
- The clock is read at most twice per cycle: at line 111 when the wait is anchored, or at line 114 and then at line 155 when the stage creeps. The model uses one `now` per cycle, so `creep_start_time` equals the time used in the expiry check, whereas the code reads the clock again for it.
- Floating-point behaviour (NaN, rounding) is not modelled. Distances and times are `real`; the code only subtracts and compares them.
- `scenario_config_.CopyFrom` is modelled only for the three fields the stage reads.
- The internals of `scenario::util::GetOverlapOnReferenceLine`, `Frame::GetSignal`, `ReferenceLineInfo::AdcSlBoundary` and `SetJunctionRightOfWay` are foreign code. They are not part of this model; the model keeps only the inputs and logs described above.
- `reference_line_info().front()` is taken to exist. The frame holds exactly one reference line.
- Of the process-wide planning status, only the traffic-light part (present or not, and its done list) is modelled. Its other fields are not.
- The relative order of a crossing's right-of-way update and its color lookup is not recorded, because they go to two separate logs. Each log keeps its own order, and the k-th update belongs to the k-th lookup.
- The ERROR stage status is not modelled, because this stage never returns it.
- `RunCycles` assumes that nothing else writes the stage context between cycles. It models no reset of the wait anchor by the owning scenario.
- The loop of `Process` (lines 61-100) is the separate method `CheckTrafficLights` here. It updates the same objects in the same order.
