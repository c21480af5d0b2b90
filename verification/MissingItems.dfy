/** From the evidence window to the violations of an assessment: who is told that an item is missing. */
module MissingItems {
  import opened Wrappers
  import opened Decimals
  import opened PpeStability
  import opened PpeSafety
  import opened SafetyAlerts
  import opened Monitoring

  /** The violation says, under the item's number and name, that the item is missing. */
  predicate Reports(v: Violation, r: Requirement) {
    && v.kind == PpeAbsent && v.severity == Critical && v.trackId == None
    && r.ppeId > 0 && v.subjectKey == "ppe:" + Decimal(r.ppeId)
    && v.summary == "EPI obrigatório ausente: " + r.name
    && v.ppeId == Some(r.ppeId) && v.ppeName == Some(r.name)
  }

  /** The violation reports a required item that the window shows to be missing. */
  ghost predicate ReportsMissing(cfg: StabilityConfig, required: seq<string>, window: seq<Frame>,
                                 modelClasses: set<string>, operation: Operation, v: Violation)
  {
    exists r :: r in operation.required && Missing(cfg, required, window, modelClasses, r) && Reports(v, r)
  }

  lemma AssessedAreValid(operation: Operation, modelClasses: set<string>, snapshot: Snapshot)
    requires operation.Valid()
    ensures ValidRequirements(Assessed(operation, modelClasses, snapshot).requirements)
  {
    var rs := EvaluateAll(operation.required, modelClasses, snapshot);
    forall i | 0 <= i < |rs| ensures rs[i].ppeId > 0 && rs[i].name != "" {
      assert operation.required[i] in operation.required;
    }
  }

  lemma AbsenceReports(a: RequirementAssessment, r: Requirement, v: Violation)
    requires a.ppeId > 0 && a.ppeId == r.ppeId && a.name == r.name
    ensures v == AbsenceOf(a) <==> Reports(v, r)
  {
  }

  /** What is assessed as absent is what the window rarely shows. */
  lemma AbsentIsMissing(cfg: StabilityConfig, required: seq<string>, window: seq<Frame>, modelClasses: set<string>,
                        operation: Operation, v: Violation)
    requires cfg.Valid() && window != [] && operation.Valid()
    ensures var rs := Assessed(operation, modelClasses, SnapshotOf(cfg, required, window)).requirements;
      && ValidRequirements(rs)
      && (IsAbsenceIn(rs, v) <==> ReportsMissing(cfg, required, window, modelClasses, operation, v))
  {
    hide EvaluateRequirement, AbsenceOf, Reports, Missing, Known, Supported;
    var os := operation.required;
    var rs := EvaluateAll(os, modelClasses, SnapshotOf(cfg, required, window));
    AssessedAreValid(operation, modelClasses, SnapshotOf(cfg, required, window));
    forall i | 0 <= i < |os|
      ensures rs[i].state == Absent <==> Missing(cfg, required, window, modelClasses, os[i])
      ensures v == AbsenceOf(rs[i]) <==> Reports(v, os[i])
    {
      StateExactly(cfg, required, window, modelClasses, os[i]);
      AbsenceReports(rs[i], os[i], v);
    }
    if r :| r in os && Missing(cfg, required, window, modelClasses, r) && Reports(v, r) {
      var i :| 0 <= i < |os| && os[i] == r;
      assert rs[i].state == Absent;
    }
  }

  /**
   The violations of an assessment are exactly the reports about required items whose class is known and
   tracked, and seen in at most the absent share of enough frames.
   */
  lemma ReportedExactly(cfg: StabilityConfig, required: seq<string>, window: seq<Frame>, modelClasses: set<string>,
                        operation: Operation, v: Violation)
    requires cfg.Valid() && window != [] && operation.Valid()
    ensures var rs := Assessed(operation, modelClasses, SnapshotOf(cfg, required, window)).requirements;
      && ValidRequirements(rs)
      && (v in ViolationsFor(rs) <==> ReportsMissing(cfg, required, window, modelClasses, operation, v))
  {
    hide *;
    AbsentIsMissing(cfg, required, window, modelClasses, operation, v);
    ViolationsForExactly(Assessed(operation, modelClasses, SnapshotOf(cfg, required, window)).requirements, v);
  }
}
