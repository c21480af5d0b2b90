/** Fail-closed comparison of an operation's PPE requirements with stabilized evidence. */
module PpeSafety {
  import opened Wrappers
  import opened WorkSessions
  import opened PpeStability

  datatype Requirement = Requirement(ppeId: int, name: string, detectionClass: Option<string>)
  {
    predicate Valid() {
      ppeId > 0 && name != "" && (detectionClass.Some? ==> detectionClass.value != "")
    }
  }

  datatype RiskAreaReference = RiskAreaReference(riskAreaId: int, cameraId: Option<int>)

  datatype Operation = Operation(operationId: int, required: seq<Requirement>, riskArea: Option<RiskAreaReference>,
                                 active: bool)
  {
    predicate Valid() {
      && operationId > 0
      && (forall r :: r in required ==> r.Valid())
      && (forall i, j :: 0 <= i < j < |required| ==>
        && required[i].ppeId != required[j].ppeId
        && (required[i].detectionClass.Some? ==> required[i].detectionClass != required[j].detectionClass))
      && (riskArea.Some? ==> riskArea.value.riskAreaId > 0 && PositiveIfPresent(riskArea.value.cameraId))
    }
  }

  datatype RequirementState = AwaitingSamples | Confirmed | Absent | NotStable | Unmapped

  datatype RequirementAssessment = RequirementAssessment(ppeId: int, name: string, detectionClass: Option<string>,
                                                         state: RequirementState)

  datatype SafetyStatus = Pending | Blocked | Compliant

  datatype Assessment = Assessment(
    operationId: int,
    operationActive: bool,
    status: SafetyStatus,
    requirements: seq<RequirementAssessment>,
    sampleCount: nat,
    windowSize: nat)
  {
    predicate CanStartOperation() {
      status == Compliant
    }
  }

  datatype AssessmentError = BadOperation | BadSampling | RepeatedPpe | StatusMismatch

  function StatesOf(requirements: seq<RequirementAssessment>): set<RequirementState> {
    set r | r in requirements :: r.state
  }

  function ExpectedStatus(active: bool, requirements: seq<RequirementAssessment>): SafetyStatus {
    if !active || requirements == [] then Blocked
    else if StatesOf(requirements) * {Absent, Unmapped} != {} then Blocked
    else if StatesOf(requirements) == {Confirmed} then Compliant
    else Pending
  }

  /** The assessment constructor with its checks. */
  function Construct(a: Assessment): Result<Assessment, AssessmentError> {
    if a.operationId <= 0 then Err(BadOperation)
    else if a.windowSize < 1 || !(1 <= a.sampleCount <= a.windowSize) then Err(BadSampling)
    else if |set r | r in a.requirements :: r.ppeId| != |a.requirements| then Err(RepeatedPpe)
    else if a.status != ExpectedStatus(a.operationActive, a.requirements) then Err(StatusMismatch)
    else Ok(a)
  }

  function StateFor(s: StabilityState): RequirementState {
    match s
    case Collecting => AwaitingSamples
    case ConfirmedPresent => Confirmed
    case ConfirmedAbsent => Absent
    case Unstable => NotStable
  }

  function EvaluateRequirement(r: Requirement, modelClasses: set<string>, snapshot: Snapshot): RequirementAssessment {
    var state :=
      if r.detectionClass.None? || r.detectionClass.value !in modelClasses then Unmapped
      else
        var decision := snapshot.DecisionFor(r.detectionClass.value);
        if decision.Some? then StateFor(decision.value.state) else AwaitingSamples;
    RequirementAssessment(r.ppeId, r.name, r.detectionClass, state)
  }

  function EvaluateAll(rs: seq<Requirement>, modelClasses: set<string>,
                       snapshot: Snapshot): (out: seq<RequirementAssessment>)
    ensures |out| == |rs|
    ensures forall i :: 0 <= i < |rs| ==> out[i] == EvaluateRequirement(rs[i], modelClasses, snapshot)
  {
    if rs == [] then []
      else [EvaluateRequirement(rs[0], modelClasses, snapshot)] + EvaluateAll(rs[1..], modelClasses, snapshot)
  }

  function StatusFor(operation: Operation, requirements: seq<RequirementAssessment>): SafetyStatus {
    if !operation.active || requirements == [] then Blocked
    else
      var states := StatesOf(requirements);
      if states * {Absent, Unmapped} != {} then Blocked
      else if states == {Confirmed} then Compliant
      else Pending
  }

  function Assessed(operation: Operation, modelClasses: set<string>, snapshot: Snapshot): Assessment {
    var requirements := EvaluateAll(operation.required, modelClasses, snapshot);
    Assessment(operation.operationId, operation.active, StatusFor(operation, requirements), requirements,
               snapshot.sampleCount, snapshot.windowSize)
  }

  function Evaluate(operation: Operation, modelClasses: set<string>,
                    snapshot: Snapshot): Result<Assessment, AssessmentError>
  {
    Construct(Assessed(operation, modelClasses, snapshot))
  }

  lemma {:induction false} DistinctIds(rs: seq<RequirementAssessment>)
    requires forall i, j :: 0 <= i < j < |rs| ==> rs[i].ppeId != rs[j].ppeId
    ensures |set r | r in rs :: r.ppeId| == |rs|
  {
    if rs == [] {
      assert (set r | r in rs :: r.ppeId) == {};
    } else {
      var n := |rs| - 1;
      DistinctIds(rs[..n]);
      assert rs == rs[..n] + [rs[n]];
      assert (set r | r in rs :: r.ppeId) == (set r | r in rs[..n] :: r.ppeId) + {rs[n].ppeId};
    }
  }

  /** The constructor never refuses what the engine builds for a valid operation and a snapshot of its window. */
  lemma EvaluateAccepted(operation: Operation, modelClasses: set<string>, snapshot: Snapshot)
    requires operation.Valid() && 1 <= snapshot.sampleCount <= snapshot.windowSize
    ensures Evaluate(operation, modelClasses, snapshot) == Ok(Assessed(operation, modelClasses, snapshot))
  {
    DistinctIds(EvaluateAll(operation.required, modelClasses, snapshot));
  }

  /** The item has a class, and the model knows it. */
  predicate Known(modelClasses: set<string>, r: Requirement) {
    r.detectionClass.Some? && r.detectionClass.value in modelClasses
  }

  /** Every required item has a class the model knows, confirmed present over the window. */
  ghost predicate Supported(cfg: StabilityConfig, required: seq<string>, window: seq<Frame>,
                            modelClasses: set<string>, r: Requirement)
  {
    && r.detectionClass.Some? && r.detectionClass.value in modelClasses && r.detectionClass.value in required
    && MostlySeen(cfg, window, r.detectionClass.value)
  }

  /** The class of a required item is known and tracked, and rarely seen over enough frames. */
  ghost predicate Missing(cfg: StabilityConfig, required: seq<string>, window: seq<Frame>, modelClasses: set<string>,
                          r: Requirement)
  {
    Known(modelClasses, r) && r.detectionClass.value in required && RarelySeen(cfg, window, r.detectionClass.value)
  }

  /** Each state an item can be assessed to be in, against the window itself; the item keeps its identity. */
  lemma StateExactly(cfg: StabilityConfig, required: seq<string>, window: seq<Frame>, modelClasses: set<string>,
                     r: Requirement)
    requires cfg.Valid() && window != []
    ensures var a := EvaluateRequirement(r, modelClasses, SnapshotOf(cfg, required, window));
      && a.ppeId == r.ppeId && a.name == r.name && a.detectionClass == r.detectionClass
      && (a.state == Unmapped <==> !Known(modelClasses, r))
      && (a.state == AwaitingSamples <==>
        Known(modelClasses, r) && (r.detectionClass.value !in required || |window| < cfg.minimumSamples))
      && (a.state == Confirmed <==> Supported(cfg, required, window, modelClasses, r))
      && (a.state == Absent <==> Missing(cfg, required, window, modelClasses, r))
      && (a.state == NotStable <==>
        && Known(modelClasses, r) && r.detectionClass.value in required && |window| >= cfg.minimumSamples
        && !MostlySeen(cfg, window, r.detectionClass.value) && !RarelySeen(cfg, window, r.detectionClass.value))
  {
    if r.detectionClass.Some? {
      var c := r.detectionClass.value;
      DecisionsHave(cfg, required, window, c);
      PresentExactly(cfg, window, c);
      AbsentExactly(cfg, window, c);
    }
  }

  lemma BlockedByItem(operation: Operation, rs: seq<RequirementAssessment>)
    ensures StatusFor(operation, rs) == Blocked <==>
      || !operation.active || rs == []
      || (exists i :: 0 <= i < |rs| && (rs[i].state == Absent || rs[i].state == Unmapped))
  {
    if s :| s in StatesOf(rs) * {Absent, Unmapped} {
      var x :| x in rs && x.state == s;
    }
    if i :| 0 <= i < |rs| && (rs[i].state == Absent || rs[i].state == Unmapped) {
      assert rs[i] in rs;
      assert rs[i].state in StatesOf(rs) * {Absent, Unmapped};
    }
  }

  /** No requirement of the operation is unmapped or missing. */
  ghost predicate NothingBlocks(cfg: StabilityConfig, required: seq<string>, window: seq<Frame>,
                                modelClasses: set<string>, operation: Operation)
  {
    forall r :: r in operation.required ==>
      Known(modelClasses, r) && !Missing(cfg, required, window, modelClasses, r)
  }

  /** An assessment is blocked exactly for an inactive or empty operation or an item that is unmapped or missing. */
  lemma BlockedExactly(cfg: StabilityConfig, required: seq<string>, window: seq<Frame>, modelClasses: set<string>,
                       operation: Operation)
    requires cfg.Valid() && window != []
    ensures Assessed(operation, modelClasses, SnapshotOf(cfg, required, window)).status == Blocked <==>
      || !operation.active || operation.required == []
      || !NothingBlocks(cfg, required, window, modelClasses, operation)
  {
    hide EvaluateRequirement, Known, Missing, Supported, StatusFor;
    var os := operation.required;
    var rs := EvaluateAll(os, modelClasses, SnapshotOf(cfg, required, window));
    BlockedByItem(operation, rs);
    forall i | 0 <= i < |os|
      ensures os[i] in os
      ensures rs[i].state == Absent || rs[i].state == Unmapped <==>
        !Known(modelClasses, os[i]) || Missing(cfg, required, window, modelClasses, os[i])
    {
      StateExactly(cfg, required, window, modelClasses, os[i]);
    }
    if r :| r in os && !(Known(modelClasses, r) && !Missing(cfg, required, window, modelClasses, r)) {
      var i :| 0 <= i < |os| && os[i] == r;
      assert rs[i].state == Absent || rs[i].state == Unmapped;
    }
  }

  /** The gate opens exactly for an active operation with requirements, all of them supported by the window. */
  lemma CompliantExactly(cfg: StabilityConfig, required: seq<string>, window: seq<Frame>, modelClasses: set<string>,
                         operation: Operation)
    requires cfg.Valid() && window != []
    ensures Assessed(operation, modelClasses, SnapshotOf(cfg, required, window)).CanStartOperation() <==>
      && operation.active && operation.required != []
      && forall r :: r in operation.required ==> Supported(cfg, required, window, modelClasses, r)
  {
    var snapshot := SnapshotOf(cfg, required, window);
    var rs := EvaluateAll(operation.required, modelClasses, snapshot);
    forall i | 0 <= i < |rs|
      ensures rs[i].state == Confirmed <==> Supported(cfg, required, window, modelClasses, operation.required[i])
      ensures rs[i].state in StatesOf(rs)
    {
      StateExactly(cfg, required, window, modelClasses, operation.required[i]);
      assert rs[i] in rs;
    }
    if forall r :: r in operation.required ==> Supported(cfg, required, window, modelClasses, r) {
      forall s | s in StatesOf(rs) ensures s == Confirmed {
        var x :| x in rs && x.state == s;
        var i :| 0 <= i < |rs| && rs[i] == x;
        assert operation.required[i] in operation.required;
      }
      if rs != [] { assert rs[0].state == Confirmed; }
    }
    if StatesOf(rs) == {Confirmed} {
      forall r | r in operation.required ensures Supported(cfg, required, window, modelClasses, r) {
        var i :| 0 <= i < |rs| && operation.required[i] == r;
        assert rs[i].state in StatesOf(rs);
      }
    }
  }
}
