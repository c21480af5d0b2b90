/** The complete safety state of one work session, as sent to the aggregator. */
module OperatorSnapshots {
  import opened Wrappers
  import opened WorkSessions
  import opened SafetyAlerts
  import opened AlertCycles
  import opened AlertDeltas
  import opened Sorting

  datatype Level = Medium | CriticalLevel

  datatype Reason = PpeMissing | ErgonomicRiskReason | PersonInArea

  function ReasonFor(kind: ViolationType): Option<Reason> {
    match kind
    case PpeAbsent => Some(PpeMissing)
    case ErgonomicRisk => Some(ErgonomicRiskReason)
    case PersonInRiskArea => Some(PersonInArea)
    case MonitoringInterrupted => None
  }

  datatype ConditionState = ConditionState(conditionId: ConditionKey, reason: Reason, level: Level,
                                           firstObservedAt: Time)

  datatype Snapshot = Snapshot(
    workSessionId: nat,
    operationId: int,
    cameraId: Option<int>,
    observedAt: Time,
    conditions: seq<ConditionState>)

  datatype SnapshotError = NotActiveAlert | BadSession | DuplicateCondition | ConditionAfterSnapshot

  function LevelOf(severity: Severity): Level {
    if severity == Critical then CriticalLevel else Medium
  }

  function ConditionFor(a: Alert): Option<ConditionState> {
    var reason := ReasonFor(a.violation.kind);
    if reason.None? then None
    else Some(ConditionState(a.Key(), reason.value, LevelOf(a.violation.severity), a.firstObservedAt))
  }

  function ConditionsFor(alerts: seq<Alert>): seq<ConditionState> {
    if alerts == [] then []
    else
      var last := ConditionFor(alerts[|alerts| - 1]);
      ConditionsFor(alerts[..|alerts| - 1]) + (if last.Some? then [last.value] else [])
  }

  function IdOf(c: ConditionState): ConditionKey {
    c.conditionId
  }

  predicate IdLeq(a: ConditionState, b: ConditionState) {
    TextLeq(a.conditionId.Text(), b.conditionId.Text())
  }

  lemma IdLeqTotal()
    ensures TotalOrder(IdLeq)
  {
    forall a, b ensures IdLeq(a, b) || IdLeq(b, a) {
      TextTotal(a.conditionId.Text(), b.conditionId.Text());
    }
    forall a, b, c | IdLeq(a, b) && IdLeq(b, c) ensures IdLeq(a, c) {
      TextTransitive(a.conditionId.Text(), b.conditionId.Text(), c.conditionId.Text());
    }
  }

  /** The snapshot constructor with its checks. */
  function Construct(session: WorkSession, conditions: seq<ConditionState>,
                     observedAt: Time): Result<Snapshot, SnapshotError>
  {
    if session.operationId <= 0 || !PositiveIfPresent(session.cameraId) then Err(BadSession)
    else if |set c | c in conditions :: c.conditionId| != |conditions| then Err(DuplicateCondition)
    else if exists c :: c in conditions && c.firstObservedAt > observedAt then Err(ConditionAfterSnapshot)
    else Ok(Snapshot(session.sessionId, session.operationId, session.cameraId, observedAt, conditions))
  }

  function Build(session: WorkSession, alerts: seq<Alert>, observedAt: Time): Result<Snapshot, SnapshotError> {
    if exists a :: a in alerts && !a.status.ActiveAlert? then Err(NotActiveAlert)
    else Construct(session, SortBy(IdLeq, ConditionsFor(alerts)), observedAt)
  }

  method FromAlerts(session: WorkSession, alerts: seq<Alert>, observedAt: Time)
    returns (r: Result<Snapshot, SnapshotError>)
    ensures r == Build(session, alerts, observedAt)
  {
    var conditions: seq<ConditionState> := [];
    for i := 0 to |alerts|
      invariant forall j :: 0 <= j < i ==> alerts[j].status.ActiveAlert?
      invariant conditions == ConditionsFor(alerts[..i])
    {
      if !alerts[i].status.ActiveAlert? {
        assert alerts[i] in alerts;
        return Err(NotActiveAlert);
      }
      assert alerts[..i + 1][..i] == alerts[..i];
      var condition := ConditionFor(alerts[i]);
      if condition.Some? {
        conditions := conditions + [condition.value];
      }
    }
    assert alerts[..|alerts|] == alerts;
    r := Construct(session, SortBy(IdLeq, conditions), observedAt);
  }

  /**
   The condition tells of the alert: it has its key and age, says what kind of danger it is, and is critical
   exactly when the alert is. No condition tells of an interruption of the monitoring.
   */
  predicate Tells(c: ConditionState, a: Alert) {
    && c.conditionId == ConditionKey(a.violation.kind, a.violation.subjectKey)
    && (c.reason == PpeMissing <==> a.violation.kind == PpeAbsent)
    && (c.reason == ErgonomicRiskReason <==> a.violation.kind == ErgonomicRisk)
    && (c.reason == PersonInArea <==> a.violation.kind == PersonInRiskArea)
    && (c.level == CriticalLevel <==> a.violation.severity == Critical)
    && c.firstObservedAt == a.firstObservedAt
  }

  lemma TellsExactly(c: ConditionState, a: Alert)
    ensures ConditionFor(a) == Some(c) <==> Tells(c, a)
  {
  }

  /** The snapshot lists exactly the conditions that tell of an active alert. */
  ghost predicate Shows(s: Snapshot, active: ActiveMap) {
    forall c :: c in s.conditions <==> c.conditionId in active && Tells(c, active[c.conditionId])
  }

  /** Nothing is listed twice, and the list is in the order of the key texts. */
  ghost predicate InKeyOrder(s: Snapshot) {
    forall i, j :: 0 <= i < j < |s.conditions| ==>
      && s.conditions[i].conditionId != s.conditions[j].conditionId
      && Precedes(s.conditions[i].conditionId.Text(), s.conditions[j].conditionId.Text())
  }

  lemma {:induction false} ConditionsForHas(alerts: seq<Alert>)
    requires DistinctAlertKeys(alerts)
    ensures DistinctBy(IdOf, ConditionsFor(alerts))
    ensures forall c :: c in ConditionsFor(alerts) <==> exists a :: a in alerts && ConditionFor(a) == Some(c)
  {
    if alerts != [] {
      var n := |alerts| - 1;
      var rest, last := alerts[..n], alerts[n];
      ConditionsForHas(rest);
      InPrefixOrLast(alerts);
      forall c | c in ConditionsFor(rest) ensures c.conditionId != last.Key() {
        var a :| a in rest && ConditionFor(a) == Some(c);
        var i :| 0 <= i < n && rest[i] == a;
        assert KeyOf(alerts[i]) != KeyOf(alerts[n]);
      }
    }
  }

  lemma {:induction false} DistinctCount(s: seq<ConditionState>)
    requires DistinctBy(IdOf, s)
    ensures |set c | c in s :: c.conditionId| == |s|
  {
    if s == [] {
      assert (set c | c in s :: c.conditionId) == {};
    } else {
      var n := |s| - 1;
      DistinctCount(s[..n]);
      assert s == s[..n] + [s[n]];
      assert (set c | c in s :: c.conditionId) == (set c | c in s[..n] :: c.conditionId) + {s[n].conditionId};
      forall c | c in s[..n] ensures c.conditionId != s[n].conditionId {
        var i :| 0 <= i < n && s[i] == c;
        assert IdOf(s[i]) != IdOf(s[n]);
      }
    }
  }

  /** A condition belongs to an active alert exactly when it tells of the alert under its key. */
  lemma ShownExactly(st: EngineState, c: ConditionState)
    requires ShapeInv(st)
    ensures (exists a :: a in ActiveAlerts(st.states, st.order) && ConditionFor(a) == Some(c)) <==>
      c.conditionId in ActiveOf(st.states) && Tells(c, ActiveOf(st.states)[c.conditionId])
  {
    hide ConditionFor, Tells;
    ActiveAlertsListing(st);
    var alerts, active := ActiveAlerts(st.states, st.order), ActiveOf(st.states);
    if a :| a in alerts && ConditionFor(a) == Some(c) {
      TellsExactly(c, a);
      TellsOfKey(c, a);
      assert a.Key() in active && active[a.Key()] == a;
    }
    if c.conditionId in active && Tells(c, active[c.conditionId]) {
      TellsExactly(c, active[c.conditionId]);
      assert st.states[c.conditionId].active == Some(active[c.conditionId]);
    }
  }

  lemma TellsOfKey(c: ConditionState, a: Alert)
    requires Tells(c, a)
    ensures c.conditionId == a.Key()
  {
  }

  /** The conditions as the constructor is given them. */
  lemma ListedExactly(st: EngineState)
    requires ShapeInv(st)
    ensures var s := SortBy(IdLeq, ConditionsFor(ActiveAlerts(st.states, st.order)));
      && DistinctBy(IdOf, s) && SortedBy(IdLeq, s)
      && forall c :: c in s <==> c.conditionId in ActiveOf(st.states) && Tells(c, ActiveOf(st.states)[c.conditionId])
  {
    hide ConditionFor, Tells, ShapeInv, IdLeq, ActiveAlerts, ActiveOf;
    var alerts := ActiveAlerts(st.states, st.order);
    ActiveAlertsListing(st);
    ConditionsForHas(alerts);
    IdLeqTotal();
    SortKeeps(IdLeq, IdOf, ConditionsFor(alerts));
    forall c
      ensures c in ConditionsFor(alerts) <==>
        c.conditionId in ActiveOf(st.states) && Tells(c, ActiveOf(st.states)[c.conditionId])
    {
      ShownExactly(st, c);
    }
  }

  /** No alert of the engine is younger than the observation. */
  lemma NoneYounger(cfg: Config, st: EngineState, observedAt: Time, c: ConditionState)
    requires StateInv(cfg, st) && (st.last.Some? ==> st.last.value <= observedAt)
    requires c.conditionId in ActiveOf(st.states) && Tells(c, ActiveOf(st.states)[c.conditionId])
    ensures c.firstObservedAt <= observedAt
  {
    assert ConditionInv(cfg, st.last, c.conditionId, st.states[c.conditionId]);
  }

  lemma OrderOfKeys(s: Snapshot)
    requires DistinctBy(IdOf, s.conditions) && SortedBy(IdLeq, s.conditions)
    ensures InKeyOrder(s)
  {
    forall i, j | 0 <= i < j < |s.conditions|
      ensures s.conditions[i].conditionId != s.conditions[j].conditionId
      ensures Precedes(s.conditions[i].conditionId.Text(), s.conditions[j].conditionId.Text())
    {
      TextLeqExactly(s.conditions[i].conditionId.Text(), s.conditions[j].conditionId.Text());
      assert IdOf(s.conditions[i]) != IdOf(s.conditions[j]);
    }
  }

  lemma OnlyActiveListed(cfg: Config, st: EngineState)
    requires StateInv(cfg, st)
    ensures forall a :: a in ActiveAlerts(st.states, st.order) ==> a.status.ActiveAlert?
  {
    hide ActiveAlerts;
    StateInvShape(cfg, st);
    ActiveAlertsListing(st);
    forall a | a in ActiveAlerts(st.states, st.order) ensures a.status.ActiveAlert? {
      assert ConditionInv(cfg, st.last, a.Key(), st.states[a.Key()]);
    }
  }

  /** A snapshot is never refused for the active alerts of an engine, and it shows all of them, each once. */
  lemma SnapshotAccepted(cfg: Config, session: WorkSession, st: EngineState, observedAt: Time)
    requires StateInv(cfg, st) && session.Valid()
    requires st.last.Some? ==> st.last.value <= observedAt
    ensures var r := Build(session, ActiveAlerts(st.states, st.order), observedAt);
      && r.Ok? && Shows(r.value, ActiveOf(st.states)) && InKeyOrder(r.value)
      && r.value.workSessionId == session.sessionId && r.value.observedAt == observedAt
      && r.value.operationId == session.operationId && r.value.cameraId == session.cameraId
  {
    hide StateInv, Tells, ActiveAlerts, ActiveOf, ConditionsFor, IdLeq, InKeyOrder;
    StateInvShape(cfg, st);
    OnlyActiveListed(cfg, st);
    ListedExactly(st);
    var sorted := SortBy(IdLeq, ConditionsFor(ActiveAlerts(st.states, st.order)));
    DistinctCount(sorted);
    forall c | c in sorted ensures c.firstObservedAt <= observedAt {
      NoneYounger(cfg, st, observedAt, c);
    }
    OrderOfKeys(Build(session, ActiveAlerts(st.states, st.order), observedAt).value);
  }
}
