# Verification of the 2identify safety core

This project models the parts of 2identify on which people's safety and the consistency of its records
depend, and proves properties of them over all inputs, all runs and all interleavings. It has three cores.

**The Operator's engines and the start gate.** `AlertCycles` is the alert engine as a state machine over
observation cycles, and `AlertEngine` is the object with its two loops, proved to do exactly that.
`AlertTiming` and `AlertTrace` say, in terms of a key's whole history and nothing else, when an alert is
raised, escalated and resolved, and `AlertPayloads` what it then says; `AlertRuns` adds refused calls and
resets; `AlertDeltas` and `AlertReplay` treat a consumer that only sees deltas. `Lockstep` and `Monitoring`
are the two engines of the active monitoring controller side by side, `MonitoringRuns` what they are given and
what the Admin hears, `MissingItems` the way from the evidence window to a report, and `OperatorSnapshots`
what the signal device is told. `PpeStability`, `PpeSafety`, `StartGate`, `GateHistory`, `WorkSessionService`
and `Station` lead from observed frames to a work session. `Segments`, `RiskAreaGeometry`, `SimplePolygons`,
`RiskAreaEngine`, `Enclosure`, `RiskAreaPoses` and `RiskAreaPixels` are the geometry of risk areas.

**The API's broker and aggregator.** `Broker` holds the lock-protected pieces and the writers,
`BrokerTasks` the calls of any number of tasks in any order, `BrokerCalls` what these calls bring about,
`SafetyAggregation` the aggregator with the pure fold it must agree with, and `DeviceStream` and `DeviceRounds`
the two together, as a signal device sees them.

**Idempotent ingestion.** `AlertIngestion` is a database on which any number of deliveries run, statement by
statement, in any order, failing or dying anywhere; `IngestionRuns` says what every such run leaves behind,
`IngestionAgreement` when a repeated delivery is accepted, `IngestionContents` that whatever is answered for an
event says the same, and `SafetyAlertRepository` is `store` itself, shown to be one of those interleavings.

## How to read it

Time is integer ticks, ratios and coordinates are real numbers, and identities are numbers. What the source
raises as an exception is a `Result`. A `Valid()` of an input says what the constructor of that value has
already checked. Random identities are a `draw` function from the number of ids drawn so far to an id; where a
result needs the ids to be different, it requires `draw` to be injective, and says so. The payload hash is an
arbitrary function of the hashed text; it is required to be injective only where a conflict is claimed for
different texts. Objects that the source updates in place are classes; their methods are proved equal to a
step function, and the theorems are about runs of that function. A `hide` statement only keeps a definition
out of a proof that does not need it.

## What turned out not to hold

- **A self-crossing area can be accepted.** The crossing test compares a product of two double areas with the
  tolerance, so a crossing whose product is smaller is missed. `SimplePolygons.CrossedAreaAccepted` gives an
  area with four vertices inside the frame that passes every check while two of its edges cross;
  `SimplePolygons.SimpleUnlessFaint` says which polygons are affected, and `SimplePolygons.SimpleExactly` that
  with exact arithmetic the checks accept precisely the simple polygons.
- **A closed vertex list cannot be rotated.** A list that repeats its first vertex at the end is accepted, but
  no longer once it starts anywhere else (`RiskAreaGeometries.ListFromAnyVertex`, exact for every accepted list, with the error;
  `SimplePolygons.ClosedTriangleTurned` is one).
- **A warning stored with the old hash can never be escalated.** Its critical re-send differs from the stored
  hash in both forms and is refused as a conflict (`IngestionAgreement.OldWarningsStayWarnings`,
  `IngestionAgreement.OldWarningConflicts`).
- **The aggregator stops describing its sources above 10,000 conditions.** Its message type refuses a larger
  count, the update fails, and the message in force stays the old one although the source has been recorded
  (`SafetyAggregation.AggregatorRun.CurrentDescribesLatest`, exact in both directions). The request schema's limit
  of 100 conditions puts this out of reach of 100 sources, but not of 101: the work sessions of a single operator
  are enough (`SafetyAggregation.HundredSourcesDescribed`, `SafetyAggregation.OneSourceTooMany`).
- **Escalation measures the current streak.** A clear cycle restarts the time that `critical_after` is compared
  with, even while the alert stays open (`AlertTrace.Trace.TraceCharacterisation`).
- **A refused observation is not without effect.** A repeated key is refused only after session and time have
  been recorded, so the refused call still bounds later ones; what is tracked and drawn is untouched
  (`AlertCycles.ObserveInv`, `AlertCycles.RepeatedKeyIsRemembered`).

## What the monitoring controller counts on

A stop with no session shown makes the engines forget their alerts and sends nothing, so a device could go on showing
conditions that nobody tracks (`Monitoring.DeviceCanBeOutdated`). The page never does that: it stops monitoring before
it lets go of the session (2identify_operador/app/ui/active/active_operation_page.py, lines 175 to 181), and in such
runs the device shows exactly what is tracked (`Monitoring.MonitorRun.DeviceAlwaysUpToDate`; without the condition,
`Monitoring.MonitorRun.DeviceUpToDate`). The device is never milder than the Admin in any case.

## Model

| member | source | states |
|---|---|---|
| `SafetyAlerts.KeyTextInjective` | 2identify_operador/app/domain/alert.py:72-74 | The text of a deduplication key determines violation type and subject, so the engine's dictionary never confuses two conditions. |
| `SafetyAlerts.Alert.Resolve` | 2identify_operador/app/domain/alert.py:128-137 | Closing succeeds exactly for an active alert at a time not before its raise, and keeps identity, key and validity. |
| `AlertCycles.CycleAt` | 2identify_operador/app/engine/alert.py:135-191 | Whatever the order of violations and of the dictionary, one cycle treats every key by its own step alone: new condition and reported deltas of a key depend on nothing but its old condition, its violation and the id drawn. |
| `AlertCycles.ObserveInv` | 2identify_operador/app/engine/alert.py:109-191 | Every call keeps the engine's invariant, and a refused one leaves tracked conditions and the id factory as they were. |
| `AlertCycles.AcceptedExactly` | 2identify_operador/app/engine/alert.py:109-130 | A call is accepted exactly for an active session, not before its start, not before the last call, for the session observed so far and without a repeated key; each error has exactly its own cause, the earlier one first. |
| `AlertCycles.FirstDuplicateIs` | 2identify_operador/app/engine/alert.py:193-205 | The key named in the refusal is that of the first violation that repeats an earlier one. |
| `AlertCycles.RepeatedKeyIsRemembered` | 2identify_operador/app/engine/alert.py:118-130 | A call refused for a repeated key still records its time and session: an earlier call is then refused for its time, a call of another session for its session. |
| `AlertCycles.CycleInv` | 2identify_operador/app/domain/alert.py:93-126 | Every alert an accepted cycle raises, escalates or resolves satisfies the alert constructor's checks and has the status its list stands for. |
| `AlertEngines.AlertEngine.Observe` | 2identify_operador/app/engine/alert.py:109-191 | The object with its two loops computes exactly the cycle of the state machine, answers and errors included; `AlertTrace` and `AlertPayloads` say when that cycle reports an alert and what the alert then says. |
| `AlertEngines.AlertEngine.ClearMissing` | 2identify_operador/app/engine/alert.py:165-184 | The second loop closes or counts exactly the tracked keys that were not reported, in dictionary order; closing never fails there. |
| `AlertEngines.AlertEngine.NormalizeViolations` | 2identify_operador/app/engine/alert.py:193-205 | A key set exactly when no key repeats, otherwise the first repetition. |
| `AlertEngines.AlertEngine.Reset` | 2identify_operador/app/engine/alert.py:102-107 | All local state is gone; the id factory goes on. |
| `AlertTiming.History.Characterisation` | 2identify_operador/app/engine/alert.py:135-260 | For one key: raise, escalation and resolution at a cycle are equivalent to predicates over the whole history of presences and events. |
| `AlertTrace.Trace.TraceCharacterisation` | 2identify_operador/app/engine/alert.py:109-260 | In a run with all keys together, a key is raised, escalated or resolved at cycle i exactly when its own history demands it: streak length, streak duration and cooldown since the last resolution; the current streak of a warning reaching the critical duration; the last N cycles all clear. |
| `AlertTrace.Trace.RaiseRateBound` | 2identify_operador/app/engine/alert.py:142-184 | In n cycles a key is raised k times with k·(N+M) ≤ n+N. |
| `AlertTrace.Trace.RaiseSeparation` | 2identify_operador/app/engine/alert.py:165-221 | Between two raises of a key lies a resolution at least the cooldown older than the second raise. |
| `AlertPayloads.RaisedOpens` | 2identify_operador/app/engine/alert.py:223-260 | A raised alert names the session, operator, operation, camera and area of the cycle's work session, says what the key's violation of this cycle says, was first observed when the key's current streak began and raised now, and is critical exactly when that streak has lasted the critical duration. |
| `AlertPayloads.EscalatedContinues` | 2identify_operador/app/engine/alert.py:148-163 | An escalated alert is the open one of its key, now critical: the one raised last and not resolved since, its payload unchanged. |
| `AlertPayloads.ResolvedContinues` | 2identify_operador/app/engine/alert.py:165-184 | A resolved alert is the open one of its key, closed now, and a warning exactly when it was raised as one and never escalated. |
| `AlertPayloads.ListedContinues` | 2identify_operador/app/engine/alert.py:262-272 | So is every alert of the active tuple, still open. |
| `AlertPayloads.RunPayloads` | 2identify_operador/app/engine/alert.py:102-272 | The same for runs with refusals and resets: what an accepted call reports is about that call's own session, violation and time. |
| `AlertDeltas.ActiveAlertsListing` | 2identify_operador/app/engine/alert.py:262-272 | The active tuple lists each open alert once, by the time of its raise and then by identity, and nothing else. |
| `AlertDeltas.ReplayOneCycle` | 2identify_operador/app/engine/alert.py:135-191 | Applying a cycle's deltas to the active alerts before it gives the active alerts after it. |
| `AlertDeltas.DeltasDisjoint` | 2identify_operador/app/engine/alert.py:130-191 | No key is in two of the three delta lists of one cycle. |
| `AlertReplay.DeltasAreComplete` | 2identify_operador/app/engine/alert.py:109-191 | Over whole traces, replaying the deltas from nothing gives exactly the active alerts of every update. |
| `AlertReplay.RunDeltasAreComplete` | 2identify_operador/app/engine/alert.py:102-191 | The same for runs with refusals and resets, for a consumer that starts empty after each reset. |
| `AlertRuns.Run.RunIsTrace` | 2identify_operador/app/engine/alert.py:102-191 | A run of observations, refusals and resets is, in what it tracks and draws, the trace of the cycles accepted since the last reset. |
| `AlertRuns.Run.AnswersAreUpdates` | 2identify_operador/app/engine/alert.py:102-191 | What an accepted call of such a run reports is the update of its cycle in that trace. |
| `AlertRuns.Run.RunCharacterisation` | 2identify_operador/app/engine/alert.py:102-260 | With refused calls and resets in between, an accepted call reports a key as raised, escalated or resolved exactly when the key's history since the last reset demands it. |
| `AlertRuns.Run.OnePayloadPerAlert` | 2identify_operador/app/engine/alert.py:140-163 | All snapshots of one alert that a run ever reports agree on every field but severity and closing, even when the violation's summary changes between frames. |
| `OperatorSnapshots.SnapshotAccepted` | 2identify_operador/app/services/safety_state_service.py:34-121 | The snapshot constructor never refuses the active alerts of an engine. The snapshot is that of the session's operation and camera; it lists, once each and by key text, exactly the alerts of the three hardware kinds, each with the reason of its kind, its age, and critical exactly when the alert is. |
| `Lockstep.CoversAlways` | 2identify_operador/app/engine/alert.py:135-221 | Over every history of a key, an alert open with the cooldown is open without it, at least as critical and with the same clear counter. |
| `Lockstep.NeverMilder` | 2identify_operador/app/controllers/active_ppe_monitoring_controller.py:80-105 | For engines kept in lockstep: every active alert of the cooldown engine is active in the safety engine, with the same counter, and critical there if critical here. |
| `Monitoring.MonitorRun.DeviceNeverMilder` | 2identify_operador/app/controllers/active_ppe_monitoring_controller.py:254-370 | Over every run of the controller's events, through failures, restarts and stops: the last snapshot sent to the signal device covers every active alert of the Admin, no milder; while nothing has been sent, no alert is active. |
| `Monitoring.MonitorRun.DeviceUpToDate` | 2identify_operador/app/controllers/active_ppe_monitoring_controller.py:166-190 | The last snapshot is exactly what the safety engine tracks, unless monitoring was stopped with no session shown and nothing has been sent since; then the engine tracks nothing and the device may still show old conditions. |
| `Monitoring.MonitorRun.DeviceAlwaysUpToDate` | 2identify_operador/app/controllers/active_ppe_monitoring_controller.py:166-190 | In a run in which every stop came with a session, the last snapshot sent is always exactly what the safety engine tracks. |
| `MonitoringRuns.DeviceToldInTime` | 2identify_operador/app/controllers/active_ppe_monitoring_controller.py:308-358 | Right after an accepted observation the last snapshot is younger than the synchronization interval. |
| `Monitoring.DeviceCanBeOutdated` | 2identify_operador/app/controllers/active_ppe_monitoring_controller.py:166-190 | A concrete run in which monitoring is stopped unseen and the device goes on showing an intrusion. |
| `Monitoring.ActivePpeMonitoringController.ObserveAlertsNow` | 2identify_operador/app/controllers/active_ppe_monitoring_controller.py:254-320 | The handler computes the model's step: first engine, second only if the first accepts, local update only with deltas, snapshot when due; after a refusal nothing has been sent. `MonitoringRuns` says what this means over whole runs. |
| `Monitoring.RefusedByFirstOnly` | 2identify_operador/app/controllers/active_ppe_monitoring_controller.py:254-319 | An observation fails exactly when the first engine refuses it, with that engine's error; the second engine and the snapshot constructor never refuse, and a snapshot is sent exactly when the second engine reports something, nothing has been sent yet, or the interval has elapsed. |
| `MonitoringRuns.AdminEngineIsRun` | 2identify_operador/app/controllers/active_ppe_monitoring_controller.py:230-281 | Over every run of events: the alert engine observes, in each assessment while monitoring is active for a session, the latest findings of all three sources since the last start, failure or stop, and is reset by every stop; what goes out as local updates is exactly its accepted updates that report something, in order. |
| `MonitoringRuns.AdminHearsExactly` | 2identify_operador/app/controllers/active_ppe_monitoring_controller.py:254-281 | What an assessment makes the Admin hear about a key is exactly what the key's history in those findings demands, and nothing when the observation is refused. |
| `MonitoringRuns.LocalUpdatesReplay` | 2identify_operador/app/controllers/active_ppe_monitoring_controller.py:166-190 | Applying the local updates sent since the last stop, from nothing, gives exactly the alert engine's active alerts after every event of every run. |
| `MonitoringRuns.SignalEngineIsRun` | 2identify_operador/app/controllers/active_ppe_monitoring_controller.py:93-105 | The engine behind the signal device has the same thresholds and no cooldown, observes exactly what the alert engine accepts, and is reset with it. |
| `Monitoring.MonitorRun.NoRepetitionRefused` | 2identify_operador/app/controllers/active_ppe_monitoring_controller.py:254-319 | In every run in which the ergonomic and the risk-area engine each report violations of their own kind without repeating a key, no observation is ever refused for a repeated violation: the three sources share no key, and the absent items repeat none. |
| `Monitoring.ActivePpeMonitoringController.Stop` | 2identify_operador/app/controllers/active_ppe_monitoring_controller.py:166-190 | With a session shown, stopping tells the device that no condition is left, then forgets everything. |
| `Monitoring.ViolationsForExactly` | 2identify_operador/app/controllers/active_ppe_monitoring_controller.py:370-385 | The violations of an assessment are exactly those of its absent items. |
| `MissingItems.ReportedExactly` | 2identify_operador/app/controllers/active_ppe_monitoring_controller.py:370-385 | From the window to the report: an assessment's violations are exactly the critical reports, under number and name, of the required items whose class is known, tracked and seen in at most the absent share of enough frames. |
| `Decimals.ValueOfDecimal` | 2identify_operador/app/controllers/active_ppe_monitoring_controller.py:370-385 | The number in a subject key reads as that number, so different numbers give different keys. |
| `PpeStability.PpeStabilityEngine.Reset` | 2identify_operador/app/engine/ppe_stability.py:123-136 | The evidence is emptied and the class set replaced, without repetitions; an empty name changes nothing. |
| `PpeStability.PpeStabilityEngine.Observe` | 2identify_operador/app/engine/ppe_stability.py:138-156 | The window is always the last min(n, W) frames since the reset, and the snapshot decides every class over it. |
| `PpeStability.DecisionsMean` | 2identify_operador/app/engine/ppe_stability.py:138-182 | Every tracked class, and no other, gets a decision: its count is the number of frames showing it, its ratio that count over the frames, and its state collecting, present or absent exactly when the frames are too few, at least the present share or at most the absent share of them. |
| `PpeStability.Hysteresis` | 2identify_operador/app/engine/ppe_stability.py:123-182 | With a full window, going from confirmed present to confirmed absent, or back, takes at least (present − absent)·W observations. |
| `PpeSafety.EvaluateAccepted` | 2identify_operador/app/engine/ppe_safety.py:69-131 | The assessment constructor never refuses what the engine builds. |
| `PpeSafety.StateExactly` | 2identify_operador/app/engine/ppe_safety.py:168-197 | Each of the five states of an item, against the window itself: unmapped, awaiting samples, confirmed, absent or unstable, one equivalence each; the item keeps its number, name and class. |
| `PpeSafety.BlockedExactly` | 2identify_operador/app/engine/ppe_safety.py:199-213 | An assessment is blocked exactly for an inactive operation, one without requirements, or one with an item that is unmapped or absent. |
| `PpeSafety.CompliantExactly` | 2identify_operador/app/engine/ppe_safety.py:136-213 | An operation may start exactly when it is active, requires something, and every requirement is mapped to a known class confirmed present. |
| `StartGate.PpeInferenceController.HandleModelReady` | 2identify_operador/app/controllers/ppe_inference_controller.py:156-183 | A ready model empties the evidence and installs the classes of the shown operation that the model knows. |
| `StartGate.RequiredClassesFacts` | 2identify_operador/app/controllers/ppe_inference_controller.py:158-170 | The classes installed are exactly the operation's mapped classes that the model knows, without repetition and never empty. |
| `StartGate.PpeInferenceController.HandleDetections` | 2identify_operador/app/controllers/ppe_inference_controller.py:185-208 | A frame is observed and assessed exactly while the model is ready, no authorization stands and an operation is shown. |
| `StartGate.PpeInferenceController.HandleOperationStartRequested` | 2identify_operador/app/controllers/ppe_inference_controller.py:210-251 | One authorization, for the shown operation, from a fresh compliant assessment, or none and no change. |
| `StartGate.Run.EmptiedBetween` | 2identify_operador/app/controllers/ppe_inference_controller.py:91-145 | Between any two authorizations the window is emptied, and nothing is observed before it is, across every order of events. |
| `StartGate.Run.NoFrameSupportsTwo` | 2identify_operador/app/controllers/ppe_inference_controller.py:185-275 | No observed frame ever supports two start authorizations. |
| `StartGate.Run.AuthorizationAttests` | 2identify_operador/app/controllers/ppe_inference_controller.py:210-251 | Behind every authorization stands a window of consecutive frames, each really observed, in which every requirement is confirmed; ids, counts and age agree with it. |
| `GateHistory.AuthorizedExactly` | 2identify_operador/app/controllers/ppe_inference_controller.py:91-275 | In terms of the events alone, in both directions: a request is authorized exactly when the model became ready and nothing has reset it since, nothing has been authorized since, the last frame's assessment has not timed out and is not too old, and its window supports every item of the active operation that is shown and requested. |
| `WorkSessionServices.StartsExactly` | 2identify_operador/app/services/work_session_service.py:70-184 | A session starts if and only if none is active, the operation is active and requires something, the authorization is for it, its verified ids are the required ids as sets, and it is neither from the future nor too old; it then carries the operation's camera and area and the authorization's ids, counts and time. A refusal changes nothing and has its own cause. |
| `WorkSessionServices.WorkSessionService.Start` | 2identify_operador/app/services/work_session_service.py:70-118 | The object does exactly that; the new session is current under the next identity. |
| `WorkSessionServices.WorkSessionService.Complete` | 2identify_operador/app/services/work_session_service.py:126-160 | Only the session named is closed, at this time and as completed, nothing else about it changed; otherwise nothing changes. |
| `WorkSessionServices.WorkSessionService.InterruptActive` | 2identify_operador/app/services/work_session_service.py:131-160 | The open session, if any, ends at this time as interrupted, nothing else about it changed, unless the time is before its start. |
| `Station.StationRun.SessionsAreVerified` | 2identify_operador/app/controllers/application_controller.py:497-527 | End to end: every session ever started stands on a window of observed frames in which each required item was confirmed, carries exactly the required ids, the operator signed in and the time of its authorization, and starts at most twice the maximum age after that assessment. |
| `Station.StationRun.SessionsShareNoFrame` | 2identify_operador/app/controllers/application_controller.py:497-527 | Two sessions never rest on the same frame. |
| `Station.StationRun.StartedExactly` | 2identify_operador/app/controllers/application_controller.py:497-527 | A session starts exactly when an authorization is given for the operation shown, somebody is signed in, no session is open, and the authorization still covers the operation and is not too old. |
| `Station.StationRun.SessionGoesOn` | 2identify_operador/app/controllers/application_controller.py:497-545 | An open session stays open and the same until it is completed by name, somebody logs out, or an authorization finds nobody signed in; it then ends there. A new session is open afterwards, or interrupted at once when the page fails. |
| `Segments.CrossingMeets` | 2identify_operador/app/domain/risk_area.py:84-97 | If the strict clause of the intersection test holds, the constructed point lies strictly inside both segments. |
| `Segments.ExactTest` | 2identify_operador/app/domain/risk_area.py:84-131 | With tolerance zero the whole test is equivalent to the segments having a common point, degenerate segments included. |
| `Segments.IntersectionSymmetric` | 2identify_operador/app/domain/risk_area.py:84-131 | The test does not depend on the order of the segments or on their directions. |
| `RiskAreaGeometries.ScanIsCyclic` | 2identify_operador/app/domain/risk_area.py:59-72 | The scan by index pairs looks at exactly the pairs of edges that are not neighbours on the ring. |
| `RiskAreaGeometries.AcceptedFromAnyVertex` | 2identify_operador/app/domain/risk_area.py:35-72 | Acceptance does not depend on the vertex a polygon is read from or on its direction, for every tolerance. |
| `RiskAreaGeometries.ListFromAnyVertex` | 2identify_operador/app/domain/risk_area.py:35-49 | An accepted raw list is accepted from any other of its positions exactly when it does not repeat its first vertex at the end, and otherwise refused for a repeated vertex; each of these lists is accepted exactly when its reversal is. |
| `SimplePolygons.AreaByFan` | 2identify_operador/app/domain/risk_area.py:51-57 | The sum over the edges is the signed area: that of the triangles on the first vertex. |
| `SimplePolygons.SimpleExactly` | 2identify_operador/app/domain/risk_area.py:29-72 | With tolerance zero the checks accept precisely the polygons with distinct vertices and an area whose edges meet only as neighbours at their common vertex. |
| `SimplePolygons.SimpleUnlessFaint` | 2identify_operador/app/domain/risk_area.py:59-100 | With any tolerance an accepted polygon is simple exactly when no two edges that are not neighbours cross, and those that still cross are ones the test cannot see. |
| `SimplePolygons.CrossedAreaAccepted` | 2identify_operador/app/domain/risk_area.py:8-49 | A concrete area in the frame that passes every check with the repository's tolerance and crosses itself. |
| `SimplePolygons.ClosedTriangleTurned` | 2identify_operador/app/domain/risk_area.py:35-49 | A concrete closed list that is accepted, and refused once it starts at its second vertex. |
| `RiskAreaEngines.RiskAreaSpatialEngine.ClassifyPoint` | 2identify_operador/app/engine/risk_area.py:31-61 | The loop with its early return answers boundary exactly when some edge is touched, and otherwise the parity over all edges. |
| `RiskAreaEngines.RiskAreaSpatialEngine.ContainsPoint` | 2identify_operador/app/engine/risk_area.py:63-76 | Membership under the chosen boundary policy. |
| `RiskAreaEngines.MeetsBySide` | 2identify_operador/app/engine/risk_area.py:49-55 | The division-based crossing test is a straddle together with the sign of an orientation. |
| `RiskAreaEngines.ClassifiedFromAnyVertex` | 2identify_operador/app/engine/risk_area.py:43-61 | Classification depends neither on the vertex the area is read from nor on the direction of the list. |
| `RiskAreaEngines.InteriorWithinBounds` | 2identify_operador/app/engine/risk_area.py:45-61 | For every vertex list, an interior point lies within the bounding box. |
| `RiskAreaEngines.RingChangesEvenly` | 2identify_operador/app/engine/risk_area.py:49-56 | Around a ring a flag changes an even number of times. |
| `RiskAreaEngines.OddInTriangle` | 2identify_operador/app/engine/risk_area.py:43-61 | For a triangle, degenerate or not, and a point off its boundary, the parity is odd exactly when the three orientations share a strict sign. |
| `RiskAreaEngines.OddByFan` | 2identify_operador/app/engine/risk_area.py:43-61 | For every polygon and point the loop's parity is the exclusive or of the parities of the fan's triangles. |
| `RiskAreaEngines.InteriorByTriangles` | 2identify_operador/app/engine/risk_area.py:43-61 | Off the fan's sides and diagonals, ray casting agrees with a definition by orientations alone: an odd number of fan triangles have the point strictly inside. |
| `Enclosure.ParityConstant` | 2identify_operador/app/engine/risk_area.py:43-61 | For every vertex list, two points whose connecting segment touches no edge have the same parity: it changes only across the outline. |
| `Enclosure.NoWayOut` | 2identify_operador/app/engine/risk_area.py:31-61 | A way of any number of straight pieces that starts at an interior point and touches no edge stays interior, and so within the bounding box, at each of its points. |
| `RiskAreaPoses.RiskAreaPoseEngine.Evaluate` | 2identify_operador/app/engine/risk_area.py:79-163 | The counts are the numbers of poses with a reliable point and with one in the area; one fixed critical violation exactly when somebody is in it; clear exactly when somebody was seen reliably and nobody entered; errors for a bad area id or name. |
| `RiskAreaPixels.EnteredInPixels` | 2identify_operador/app/engine/risk_area.py:118-141 | Without normalizing: somebody was seen exactly when one of their body points is confident enough and in the frame, and is in the area exactly when such a point's pixel is inside or on the outline of the area stretched to the frame's width and height, the tolerance stretched with it. |
| `RiskAreaPoses.VisibleIsNormalized` | 2identify_operador/app/engine/risk_area.py:125-134 | The normalized point of a visible keypoint is never refused. |
| `Brokers.ApplyInv` | 2identify_api/app/realtime/broker.py:175-320 | Every locked block and every writer step keeps the global and per-owner limits, the queue bound and the account of accepted, delivered, in-flight and queued messages. |
| `Brokers.InMemoryRealtimeEventBroker.Subscribe` | 2identify_api/app/realtime/broker.py:175-206 | A new subscriber within the limits, or the error and no change. |
| `BrokerCalls.JoinsExactly` | 2identify_api/app/realtime/broker.py:175-206 | A subscription is accepted exactly within all limits, each error has exactly its own cause, and a new subscriber starts empty while nobody else is touched. |
| `Brokers.InMemoryRealtimeEventBroker.OfferTo` | 2identify_api/app/realtime/broker.py:228-251 | Unknown, queued in order, or removed because its queue is full. |
| `Brokers.InMemoryRealtimeEventBroker.PopSubscriber` | 2identify_api/app/realtime/broker.py:215-226 | True for the one caller that removes the subscriber. |
| `Brokers.InMemoryRealtimeEventBroker.CloseBroker` | 2identify_api/app/realtime/broker.py:268-281 | The one closing caller gets all subscribers; every later caller gets none. |
| `Brokers.InMemoryRealtimeEventBroker.WriterGet` | 2identify_api/app/realtime/broker.py:283-303 | A waiting writer takes the oldest queued message. |
| `Brokers.InMemoryRealtimeEventBroker.RemoveFailedWriter` | 2identify_api/app/realtime/broker.py:305-319 | True exactly when the failed writer removed its own subscriber. |
| `BrokerTasks.SystemRun.NoSilentLoss` | 2identify_api/app/realtime/broker.py:175-338 | In every interleaving: for a registered subscriber delivered, in flight and queue make up what was accepted, in order; for any other what was delivered is a prefix of it; all limits hold; a closed broker stays empty. |
| `BrokerCalls.PublishReachesEverybody` | 2identify_api/app/realtime/broker.py:228-266 | In every interleaving: a publish makes exactly one send of its message to each subscriber registered when it lists them; the send runs at most once, queues the message if there is room and otherwise disconnects; once it has run, a subscriber still registered has been promised the message since. Nobody else gets anything from it. |
| `BrokerCalls.OnlySendsPromise` | 2identify_api/app/realtime/broker.py:175-320 | Nothing but a send adds to what a subscriber has been promised, nothing takes from it, and a removed subscriber never comes back. |
| `BrokerCalls.CloseIsFinal` | 2identify_api/app/realtime/broker.py:268-281 | After a close has run nobody is ever registered again, and everybody who was is shut down: their sink is closed exactly once. |
| `BrokerCalls.DisconnectIsFinal` | 2identify_api/app/realtime/broker.py:215-226 | Whoever is disconnected is never registered again, nobody else is removed by it, and the sink is closed exactly once. |
| `BrokerCalls.ShutdownStops` | 2identify_api/app/realtime/broker.py:321-338 | From a shutdown whose cancellation takes effect on, nothing more is delivered to the subscriber, whatever else happens. |
| `BrokerCalls.FailureIsFinal` | 2identify_api/app/realtime/broker.py:283-319 | A send that raises costs its own subscriber the connection, for good, by the time its writer has cleaned up; nobody else is touched, and the sink is closed exactly once. |
| `BrokerCalls.EverythingArrives` | 2identify_api/app/realtime/broker.py:283-303 | A waiting writer that works off its queue delivers it in order, and then everything promised has been delivered. |
| `BrokerTasks.SystemRun.SinkClosedOnce` | 2identify_api/app/realtime/broker.py:215-338 | Each removal has exactly one remover and its sink is closed exactly once, never while registered. |
| `SafetyAggregation.CalculateDescribes` | 2identify_api/app/services/safety_state.py:92-115 | The message is computed exactly up to the cap, and then describes the multiset of active conditions: level, leading reason, count. |
| `SafetyAggregation.SafetyStateAggregator.Update` | 2identify_api/app/services/safety_state.py:68-90 | The object's update is the model's step: record or forget the source, recompute, replace the message only if something visible changed. |
| `SafetyAggregation.AggregatorRun.CurrentDescribesLatest` | 2identify_api/app/services/safety_state.py:68-115 | After any updates the message in force describes the latest non-empty snapshot of every source, independent of dictionary order, if and only if these hold at most 10,000 conditions. |
| `SafetyAggregation.HundredSourcesDescribed` | 2identify_api/app/schemas/safety_state.py:45-71 | With the limit of 100 conditions per request, the message in force always describes up to 100 sources. |
| `SafetyAggregation.OneSourceTooMany` | 2identify_api/app/schemas/safety_state.py:74-92 | A run of 101 acceptable requests whose last one fails: the message in force stays the old one and describes something else than what is recorded. |
| `SafetyAggregation.AggregatorRun.PublishesOnlyChanges` | 2identify_api/app/services/safety_state.py:80-129 | Consecutive published messages differ in state, reason or count, and the last one is in force. |
| `SafetyAggregation.UpdatesCommute` | 2identify_api/app/services/safety_state.py:68-115 | Updates of different sources commute, up to the time stamp. |
| `DeviceStream.StreamRun.DeviceSeesGapFreeSuffix` | 2identify_api/app/api/routes/device_safety.py:134-137 | In every interleaving of updates, subscriptions, reconnect snapshots, writer steps and removals, what a synchronized registered device was sent is, without adjacent repetitions, a suffix of the published history ending in the message in force. |
| `DeviceStream.StreamRun.DeviceAtMostOneBehind` | 2identify_api/app/services/safety_state.py:60-90 | A synchronized registered device has been sent a suffix of the history ending in its last message, or, only while a publish is under way that has not reached it, one ending in the message before; nothing sent means nothing, or only that message, was published. |
| `DeviceStream.StreamRun.DeliveredIsGapFree` | 2identify_api/app/realtime/broker.py:228-303 | What has reached any device, connected or removed, is without adjacent repetitions a gap-free stretch of the published history. |
| `DeviceRounds.RoundReachesDevices` | 2identify_api/app/services/safety_state.py:68-90 | A whole round: an update that changes the message in force queues it once for every connected device with room, in whatever order the sends run, disconnects those without, and leaves the aggregator free; one that changes nothing visible sends nothing. |
| `DeviceRounds.ReconnectSynchronizes` | 2identify_api/app/services/safety_state.py:60-66 | A connected device that asks while the aggregator is free is sent the message in force, and only that, and counts as synchronized. |
| `AlertIngestion.StepKeeps` | 2identify_api/app/repositories/safety_alert_repository.py:36-154 | Every statement, commit, refusal and crash of any delivery keeps the database consistent and the deliveries out of each other's way. |
| `IngestionRuns.ChainsStayWhole` | 2identify_api/app/repositories/safety_alert_repository.py:62-117 | From any consistent database, every run keeps ingestions, alerts and occurrences in chains: the rows outside any chain are those of the start, and nothing is removed. |
| `IngestionRuns.OneAlertPerEvent` | 2identify_api/app/repositories/safety_alert_repository.py:53-154 | All answers for an event name the same alert and occurrence; at most one says created and at most one escalated, the second only if it was created as a warning. |
| `IngestionRuns.EventsShareNothing` | 2identify_api/app/repositories/safety_alert_repository.py:63-117 | Answers for different events never share an alert or an occurrence. |
| `IngestionRuns.RowsHoldTheirCreator` | 2identify_api/app/repositories/safety_alert_repository.py:63-102 | The rows of an event go on holding what the delivery that created it said; only level and hash change. |
| `IngestionRuns.AnswersStayTrue` | 2identify_api/app/repositories/safety_alert_repository.py:119-154 | An answer given stays true whatever is delivered afterwards; a critical delivery once answered leaves a critical alert. |
| `IngestionRuns.StoredExactly` | 2identify_api/app/repositories/safety_alert_repository.py:53-117 | An event is stored exactly when it already was or some delivery was told it created it, and never both. |
| `IngestionRuns.CriticalExactly` | 2identify_api/app/repositories/safety_alert_repository.py:135-148 | An alert is critical exactly when it already was or a critical delivery was answered with it. |
| `IngestionRuns.LinksNeverBroken` | 2identify_api/app/repositories/safety_alert_repository.py:128-134 | The error for an ingestion without its alert never occurs. |
| `IngestionAgreement.SeverityNeverConflicts` | 2identify_api/app/services/operator_alerts.py:30-53 | Deliveries of an event that differ in severity only never conflict, in any interleaving, once the row carries the severity-free hash. |
| `IngestionContents.AnsweredAgree` | 2identify_api/app/repositories/safety_alert_repository.py:53-127 | In every interleaving, all deliveries of one event that are ever answered agree in every field but the severity; one that says something else is never answered. |
| `IngestionContents.OnlyStoredContents` | 2identify_api/app/repositories/safety_alert_repository.py:119-134 | An event stored under the severity-free hash answers deliveries with its contents only. |
| `IngestionAgreement.EscalatedAcceptsBoth` | 2identify_api/app/repositories/safety_alert_repository.py:135-148 | Once escalated, an event accepts every later delivery that differs in severity only, whatever hash it was stored with. |
| `IngestionAgreement.OldWarningsStayWarnings` | 2identify_api/app/repositories/safety_alert_repository.py:126-148 | A warning stored with the old hash stays a warning over every run, and only deliveries equal to the first are answered. |
| `IngestionAgreement.OldWarningConflicts` | 2identify_api/app/repositories/safety_alert_repository.py:126-127 | Its critical re-send ends in a conflict and changes nothing. |
| `IngestionAgreement.EngineDeliveriesNeverConflict` | 2identify_operador/app/api/client.py:312-324 | Whatever snapshots of an engine's alert are sent, repeated and interleaved with each other and with any deliveries of other events, none of them conflicts. |
| `IngestionAgreement.StoredAsReported` | 2identify_operador/app/api/client.py:312-324 | From the Operator to the database: once the delivery of an alert snapshot has stored its event, the rows go on saying what the alert says: session, operation, area, camera, kind, subject, summary and time, and critical if it is. |
| `SafetyAlertRepositories.SafetyAlertRepository.Store` | 2identify_api/app/repositories/safety_alert_repository.py:36-117 | With other deliveries taking any steps between its statements, `store` is one of the modelled interleavings; its answer leads to the stored rows; while the database accepts its commits it is answered or conflicts, and it is answered when all deliveries of the event differ in severity only. |
| `SafetyAlertRepositories.SafetyAlertRepository.Existing` | 2identify_api/app/repositories/safety_alert_repository.py:119-154 | The comparison, the wait for a locked row, the guarded update and the answer, with the same guarantees. |

## Left out

- Qt widgets, threads, timers and signal plumbing: workers, pages and timers appear only as the events they cause; the timer that expires an assessment is an event that may come at any time.
- Text normalization: subject keys, names and summaries are taken as already stripped and case-folded, and the screening of summaries is not modelled.
- Constructors that reject their own configuration or their arguments' types: a configuration is required to be valid where an engine, broker or controller is built, and types are Dafny's.
- Time zones: every instant is on one axis; the conversion to UTC is the identity.
- Floating point: coordinates, areas and ratios are exact real numbers, so rounding within a computation is not captured.
- The engine's condition records are values in a map keyed by the pair that the key text stands for; no alias of a record escapes the engine, so sharing is not modelled.
- Identities: uuid4 is the injective `draw`, and database sequences only grow; collisions are not modelled.
- Reading an alert's open list between two cycles, and the logging of every component.
- `BrokerTasks`: cancellation of a task inside `publish` or `close`, and the bounded wait for a cancelled writer, whose outcome is a free choice of the model.
- `DeviceStream.StreamRun.DeviceSeesGapFreeSuffix`: while a slow subscriber is being shut down the aggregator's lock is held; the model lets the publish end at any later time and says nothing about how long that takes.
- The handshake, the bearer token and the receive loop of the device stream; only the order subscribe, send current, receive, unsubscribe is kept.
- Source records of the aggregator hold conditions only. Of the request body that carries them, the limit of 100 conditions and their different ids are modelled, where a result needs them; formats and time stamps are not.
- `IngestionRuns.OneAlertPerEvent`: the operator's account and the time of reception are not part of the stored rows of the model, and closing of alerts by the Admin is not modelled.
- Isolation of the database: each SQL statement and each commit is indivisible and sees what is committed; a delivery that dies after its commit counts as answered.
- SHA-256 and JSON: the hash is a function of the payload with or without its severity; the serialized text is not modelled.
- Publication of an ingested alert to the Admin: the route publishes exactly the answers that are not duplicates, so `IngestionRuns.OneAlertPerEvent` bounds it to two per event, but the background task is not modelled.
- Ergonomics angles, pose and item tracking, person detection: foreign models and floating trigonometry; pose types are not part of this model beyond their points.
- The Admin client, operation and account management, authentication, settings, migrations and the Admin's and API's own copies of the polygon checks: they would add only easy members.
