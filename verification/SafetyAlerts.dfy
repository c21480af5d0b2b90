/** Safety violations and the alerts raised for them. */
module SafetyAlerts {
  import opened Wrappers
  import opened WorkSessions

  /** An alert identity: the 128-bit integer of its UUID, whose order is the order of its text. */
  type AlertId = nat

  datatype ViolationType = PpeAbsent | PersonInRiskArea | MonitoringInterrupted | ErgonomicRisk

  datatype Severity = Warning | Critical

  function TypeValue(kind: ViolationType): string {
    match kind
    case PpeAbsent => "ppe_absent"
    case PersonInRiskArea => "person_in_risk_area"
    case MonitoringInterrupted => "monitoring_interrupted"
    case ErgonomicRisk => "ergonomic_risk"
  }

  /**
   The deduplication key. The engine's dictionary is keyed by the text; the text determines
   the pair (`KeyTextInjective`), so the model keys by the pair.
   */
  datatype ConditionKey = ConditionKey(kind: ViolationType, subjectKey: string)
  {
    function Text(): string {
      TypeValue(kind) + ":" + subjectKey
    }
  }

  /** The key text names exactly one violation type and one subject. */
  lemma KeyTextInjective(a: ConditionKey, b: ConditionKey)
    ensures a.Text() == b.Text() <==> a == b
  {
    if a.Text() == b.Text() {
      var ta, tb := a.Text(), b.Text();
      assert ta[0] == TypeValue(a.kind)[0] && ta[1] == TypeValue(a.kind)[1];
      assert tb[0] == TypeValue(b.kind)[0] && tb[1] == TypeValue(b.kind)[1];
      assert a.kind == b.kind;
      var n := |TypeValue(a.kind)| + 1;
      assert a.subjectKey == ta[n..] && b.subjectKey == tb[n..];
    }
  }

  /** Subject keys are already stripped and case-folded. */
  datatype Violation = Violation(
    kind: ViolationType,
    subjectKey: string,
    summary: string,
    severity: Severity,
    ppeId: Option<int>,
    ppeName: Option<string>,
    trackId: Option<int>)
  {
    predicate Valid() {
      && subjectKey != "" && summary != ""
      && PositiveIfPresent(ppeId) && PositiveIfPresent(trackId)
      && (ppeName.Some? ==> ppeName.value != "")
      && (kind.PpeAbsent? ==> ppeId.Some? && ppeName.Some?)
    }

    function Key(): ConditionKey {
      ConditionKey(kind, subjectKey)
    }
  }

  datatype AlertStatus = ActiveAlert | ResolvedAlert

  datatype AlertError = NotActive | ResolvedBeforeRaised

  datatype Alert = Alert(
    alertId: AlertId,
    workSessionId: nat,
    operatorId: int,
    operationId: int,
    cameraId: Option<int>,
    riskAreaId: Option<int>,
    violation: Violation,
    firstObservedAt: Time,
    raisedAt: Time,
    resolvedAt: Option<Time>,
    status: AlertStatus)
  {
    predicate Valid() {
      && operatorId > 0 && operationId > 0
      && PositiveIfPresent(cameraId) && PositiveIfPresent(riskAreaId)
      && violation.Valid()
      && firstObservedAt <= raisedAt
      && (status.ActiveAlert? <==> resolvedAt.None?)
      && (resolvedAt.Some? ==> raisedAt <= resolvedAt.value)
    }

    function Key(): ConditionKey {
      violation.Key()
    }

    function WithSeverity(severity: Severity): Alert {
      this.(violation := violation.(severity := severity))
    }

    function ClosedAt(at: Time): Alert {
      this.(resolvedAt := Some(at), status := ResolvedAlert)
    }

    /** Closing keeps the identity; it is refused for a closed alert and for a time before the raise. */
    function Resolve(at: Time): (r: Result<Alert, AlertError>)
      requires Valid()
      ensures r.Ok? <==> status.ActiveAlert? && raisedAt <= at
      ensures r.Ok? ==> r.value.Valid() && r.value.alertId == alertId && r.value.Key() == Key()
    {
      if !status.ActiveAlert? then Err(NotActive)
      else if at < raisedAt then Err(ResolvedBeforeRaised)
      else Ok(ClosedAt(at))
    }
  }

  /** What every snapshot of one alert must share: everything except severity and closing. */
  function Core(a: Alert): Alert {
    a.WithSeverity(Warning).(resolvedAt := None, status := ActiveAlert)
  }
}
