/**
 The active monitoring controller: two alert engines fed with the same violations, one for the
 alerts sent to the Admin and one, without cooldown, for the signal device.
 */
module Monitoring {
  import opened Wrappers
  import opened Decimals
  import opened WorkSessions
  import opened SafetyAlerts
  import opened AlertCycles
  import opened AlertDeltas
  import opened AlertEngines
  import opened Lockstep
  import opened OperatorSnapshots
  import PpeSafety

  /** What the page shows: whether monitoring is active, and the work session. */
  datatype Page = Page(active: bool, session: Option<WorkSession>)

  datatype MonitorState = MonitorState(
    alert: EngineState,
    safety: EngineState,
    ppe: seq<Violation>,
    ergonomic: seq<Violation>,
    riskArea: seq<Violation>,
    lastSync: Option<Time>,
    localUpdates: seq<Update>,
    snapshots: seq<Snapshot>)

  datatype MonitorConfig = MonitorConfig(cfg: Config, alertIds: nat -> AlertId, safetyIds: nat -> AlertId,
                                         syncInterval: Time)

  datatype MonitorEvent =
    | Started
    | PpeAssessed(assessment: PpeSafety.Assessment, page: Page, now: Time)
    | ErgonomicAssessed(violations: seq<Violation>, page: Page, now: Time)
    | RiskAreaAssessed(violations: seq<Violation>, page: Page, now: Time)
    | InferenceFailed
    | Stopped(page: Page, now: Time)

  // ---------------------------------------------------------------- violations of an assessment

  function AbsenceOf(r: PpeSafety.RequirementAssessment): Violation
    requires r.ppeId > 0
  {
    Violation(PpeAbsent, "ppe:" + Decimal(r.ppeId), "EPI obrigatório ausente: " + r.name, Critical, Some(r.ppeId),
              Some(r.name), None)
  }

  predicate ValidRequirements(rs: seq<PpeSafety.RequirementAssessment>) {
    && (forall i :: 0 <= i < |rs| ==> rs[i].ppeId > 0 && rs[i].name != "")
    && (forall i, j :: 0 <= i < j < |rs| ==> rs[i].ppeId != rs[j].ppeId)
  }

  function ViolationsFor(rs: seq<PpeSafety.RequirementAssessment>): seq<Violation>
    requires ValidRequirements(rs)
  {
    if rs == [] then []
    else
      var last := rs[|rs| - 1];
      ViolationsFor(rs[..|rs| - 1]) + (if last.state == PpeSafety.Absent then [AbsenceOf(last)] else [])
  }

  lemma AbsenceKeyInjective(a: PpeSafety.RequirementAssessment, b: PpeSafety.RequirementAssessment)
    requires a.ppeId > 0 && b.ppeId > 0 && a.ppeId != b.ppeId
    ensures AbsenceOf(a).Key() != AbsenceOf(b).Key()
  {
    var x, y := AbsenceOf(a).subjectKey, AbsenceOf(b).subjectKey;
    if x == y {
      assert Decimal(a.ppeId) == x[4..] && Decimal(b.ppeId) == y[4..];
      DecimalInjective(a.ppeId, b.ppeId);
    }
  }

  lemma AbsenceFacts(r: PpeSafety.RequirementAssessment)
    requires r.ppeId > 0 && r.name != ""
    ensures AbsenceOf(r).Valid() && AbsenceOf(r).kind == PpeAbsent
  {
  }

  ghost predicate IsAbsenceIn(rs: seq<PpeSafety.RequirementAssessment>, v: Violation)
    requires ValidRequirements(rs)
  {
    exists i :: 0 <= i < |rs| && rs[i].state == PpeSafety.Absent && v == AbsenceOf(rs[i])
  }

  lemma AbsenceInLonger(rs: seq<PpeSafety.RequirementAssessment>, v: Violation)
    requires ValidRequirements(rs) && rs != []
    ensures var last := rs[|rs| - 1];
      IsAbsenceIn(rs, v) <==> IsAbsenceIn(rs[..|rs| - 1], v) || (last.state == PpeSafety.Absent && v == AbsenceOf(last))
  {
    hide AbsenceOf;
    var n := |rs| - 1;
    if IsAbsenceIn(rs[..n], v) {
      var i :| 0 <= i < n && rs[..n][i].state == PpeSafety.Absent && v == AbsenceOf(rs[..n][i]);
      assert rs[i].state == PpeSafety.Absent && v == AbsenceOf(rs[i]);
    }
    if IsAbsenceIn(rs, v) {
      var i :| 0 <= i < |rs| && rs[i].state == PpeSafety.Absent && v == AbsenceOf(rs[i]);
      assert i < n ==> rs[..n][i] == rs[i];
    }
  }

  /** Exactly the absent items give a violation. */
  lemma {:induction false} ViolationsForExactly(rs: seq<PpeSafety.RequirementAssessment>, v: Violation)
    requires ValidRequirements(rs)
    ensures v in ViolationsFor(rs) <==> IsAbsenceIn(rs, v)
  {
    if rs != [] {
      hide AbsenceOf;
      ViolationsForExactly(rs[..|rs| - 1], v);
      AbsenceInLonger(rs, v);
    }
  }

  /** Each absent item gives one violation, under a key no other item has. */
  lemma {:induction false} ViolationsForFacts(rs: seq<PpeSafety.RequirementAssessment>)
    requires ValidRequirements(rs)
    ensures DistinctKeys(ViolationsFor(rs))
    ensures forall v :: v in ViolationsFor(rs) ==> v.Valid() && v.kind == PpeAbsent
  {
    if rs != [] {
      hide AbsenceOf;
      var n := |rs| - 1;
      ViolationsForFacts(rs[..n]);
      AbsenceFacts(rs[n]);
      var vs := ViolationsFor(rs[..n]);
      forall j | 0 <= j < |vs| ensures vs[j].Key() != AbsenceOf(rs[n]).Key() {
        ViolationsForExactly(rs[..n], vs[j]);
        var i :| 0 <= i < n && vs[j] == AbsenceOf(rs[..n][i]);
        AbsenceKeyInjective(rs[i], rs[n]);
      }
    }
  }

  // ---------------------------------------------------------------- one event

  function Combined(s: MonitorState): seq<Violation> {
    s.ppe + s.ergonomic + s.riskArea
  }

  predicate HasDeltas(u: Update) {
    u.raised != [] || u.resolved != [] || u.escalated != []
  }

  function Emit(s: MonitorState, session: WorkSession, alerts: seq<Alert>, now: Time): MonitorState {
    match Build(session, alerts, now)
    case Err(_) => s
    case Ok(snapshot) => s.(lastSync := Some(now), snapshots := s.snapshots + [snapshot])
  }

  /** The accepted updates of both engines sent on: local deltas if there are any, a snapshot if one is due. */
  function Announced(m: MonitorConfig, s: MonitorState, u: Update, v: Update, session: WorkSession,
                     now: Time): MonitorState
  {
    var t := s.(localUpdates := if HasDeltas(u) then s.localUpdates + [u] else s.localUpdates);
    if Due(m, s, v, now) then Emit(t, session, v.active, now) else t
  }

  predicate Due(m: MonitorConfig, s: MonitorState, v: Update, now: Time) {
    HasDeltas(v) || s.lastSync.None? || now - s.lastSync.value >= m.syncInterval
  }

  /** `_observe_alerts`; a refusal by an engine ends the handler where it stands. */
  function ObserveAlerts(m: MonitorConfig, s: MonitorState, page: Page, now: Time)
    : (MonitorState, Result<(), EngineError>)
  {
    if !page.active || page.session.None? then (s, Ok(()))
    else
      var input := CycleInput(page.session.value, Combined(s), now);
      var (a, r) := Observe(m.cfg, m.alertIds, s.alert, input);
      if r.Err? then (s.(alert := a), Err(r.error))
      else
        var (b, q) := Observe(WithoutCooldown(m.cfg), m.safetyIds, s.safety, input);
        if q.Err? then (s.(alert := a, safety := b), Err(q.error))
        else (Announced(m, s.(alert := a, safety := b), r.value, q.value, page.session.value, now), Ok(()))
  }

  function ResetRuntime(s: MonitorState): MonitorState {
    s.(ppe := [], ergonomic := [], riskArea := [], lastSync := None)
  }

  function StopStep(s: MonitorState, page: Page, now: Time): MonitorState {
    var t := ResetRuntime(if page.session.Some? then Emit(s, page.session.value, [], now) else s);
    t.(alert := Fresh(t.alert.drawn), safety := Fresh(t.safety.drawn))
  }

  ghost predicate ValidPage(page: Page) {
    page.session.Some? ==> page.session.value.Valid()
  }

  ghost predicate ValidMonitorEvent(e: MonitorEvent) {
    match e
    case PpeAssessed(a, page, _) => ValidRequirements(a.requirements) && ValidPage(page)
    case ErgonomicAssessed(vs, page, _) => (forall v :: v in vs ==> v.Valid()) && ValidPage(page)
    case RiskAreaAssessed(vs, page, _) => (forall v :: v in vs ==> v.Valid()) && ValidPage(page)
    case Stopped(page, _) => ValidPage(page)
    case _ => true
  }

  function MonitorStep(m: MonitorConfig, s: MonitorState, e: MonitorEvent): (MonitorState, Result<(), EngineError>)
    requires ValidMonitorEvent(e)
  {
    match e
    case Started => (ResetRuntime(s), Ok(()))
    case PpeAssessed(a, page, now) => ObserveAlerts(m, s.(ppe := ViolationsFor(a.requirements)), page, now)
    case ErgonomicAssessed(vs, page, now) => ObserveAlerts(m, s.(ergonomic := vs), page, now)
    case RiskAreaAssessed(vs, page, now) => ObserveAlerts(m, s.(riskArea := vs), page, now)
    case InferenceFailed => (ResetRuntime(s), Ok(()))
    case Stopped(page, now) => (StopStep(s, page, now), Ok(()))
  }

  // ---------------------------------------------------------------- invariant

  ghost predicate MonitorInv(m: MonitorConfig, s: MonitorState) {
    && StateInv(m.cfg, s.alert) && StateInv(WithoutCooldown(m.cfg), s.safety)
    && InLockstep(s.alert, s.safety)
    && (forall v :: v in Combined(s) ==> v.Valid())
    && ToldInv(s)
  }

  /** What the device was last told is what the engine tracks, or the engine tracks nothing any more. */
  ghost predicate ToldInv(s: MonitorState) {
    && (s.snapshots == [] ==> ActiveOf(s.safety.states) == map[] && s.lastSync.None?)
    && (s.snapshots != [] ==> UpToDate(s) || (ActiveOf(s.safety.states) == map[] && s.lastSync.None?))
    && (s.lastSync.Some? ==>
      s.safety.session == Some(LastSnapshot(s).workSessionId) && s.lastSync == Some(LastSnapshot(s).observedAt))
  }

  function LastSnapshot(s: MonitorState): Snapshot
    requires s.snapshots != []
  {
    s.snapshots[|s.snapshots| - 1]
  }

  /** The last snapshot shows exactly the alerts of the safety-state engine that have a hardware reason. */
  ghost predicate UpToDate(s: MonitorState)
    requires s.snapshots != []
  {
    Shows(LastSnapshot(s), ActiveOf(s.safety.states))
  }

  /** An update without deltas leaves the active alerts as they were. */
  lemma QuietUpdate(active: ActiveMap, u: Update)
    requires !HasDeltas(u)
    ensures Replay(active, u) == active
  {
    assert AlertKeys(u.resolved) == {};
  }

  lemma LockstepAfterRefusal(m: MonitorConfig, s: MonitorState, input: CycleInput)
    requires MonitorInv(m, s) && ValidInput(input)
    requires Observe(m.cfg, m.alertIds, s.alert, input).1.Err?
    ensures MonitorInv(m, s.(alert := Observe(m.cfg, m.alertIds, s.alert, input).0))
  {
    var a := Observe(m.cfg, m.alertIds, s.alert, input).0;
    ObserveInv(m.cfg, m.alertIds, s.alert, input);
    forall k ensures Covers(TimingIn(a, k), TimingIn(s.safety, k), s.safety.last) {
      assert Covers(TimingIn(s.alert, k), TimingIn(s.safety, k), s.safety.last);
    }
  }

  /** Both engines after an accepted observation, before anything is emitted. */
  function BothObserved(m: MonitorConfig, s: MonitorState, input: CycleInput): (MonitorState, Update, Update) {
    var (a, u) := Cycle(m.cfg, m.alertIds, s.alert, input);
    var (b, v) := Cycle(WithoutCooldown(m.cfg), m.safetyIds, s.safety, input);
    (s.(alert := a, safety := b), u, v)
  }

  lemma BothObservedInv(m: MonitorConfig, s: MonitorState, input: CycleInput)
    requires MonitorInv(m, s) && ValidInput(input)
    requires Refusal(s.alert, input).None? && DistinctKeys(input.violations)
    ensures Refusal(s.safety, input).None?
    ensures var (t, u, v) := BothObserved(m, s, input);
      && StateInv(m.cfg, t.alert) && StateInv(WithoutCooldown(m.cfg), t.safety) && InLockstep(t.alert, t.safety)
      && v.active == ActiveAlerts(t.safety.states, t.safety.order)
      && t.safety.last == Some(input.now) && t.safety.session == Some(input.session.sessionId)
      && (!HasDeltas(v) ==> ActiveOf(t.safety.states) == ActiveOf(s.safety.states))
  {
    var cfg' := WithoutCooldown(m.cfg);
    BothAccept(s.alert, s.safety, input);
    StateInvShape(m.cfg, s.alert);
    StateInvShape(cfg', s.safety);
    CycleInv(m.cfg, m.alertIds, s.alert, input);
    CycleInv(cfg', m.safetyIds, s.safety, input);
    LockstepKept(m.cfg, m.alertIds, m.safetyIds, s.alert, s.safety, input);
    ReplayOneCycle(cfg', m.safetyIds, s.safety, input);
    var v := Cycle(cfg', m.safetyIds, s.safety, input).1;
    if !HasDeltas(v) {
      QuietUpdate(ActiveOf(s.safety.states), v);
    }
  }

  /** After an accepted observation a snapshot of the current safety alerts is out; none is ever refused. */
  lemma ObservedInv(m: MonitorConfig, s: MonitorState, page: Page, now: Time)
    requires MonitorInv(m, s) && ValidPage(page)
    ensures var (t, r) := ObserveAlerts(m, s, page, now);
      && MonitorInv(m, t)
      && (r.Ok? && page.active && page.session.Some? ==> UpToDateAfter(t))
      && (t.snapshots != s.snapshots ==> UpToDateAfter(t))
      && (t.snapshots == s.snapshots ==> ActiveOf(t.safety.states) == ActiveOf(s.safety.states))
  {
    if page.active && page.session.Some? {
      var input := CycleInput(page.session.value, Combined(s), now);
      ObserveInv(m.cfg, m.alertIds, s.alert, input);
      if Observe(m.cfg, m.alertIds, s.alert, input).1.Err? {
        LockstepAfterRefusal(m, s, input);
      } else {
        BothObservedInv(m, s, input);
        ObserveInv(WithoutCooldown(m.cfg), m.safetyIds, s.safety, input);
        var (t, u, v) := BothObserved(m, s, input);
        SnapshotAccepted(WithoutCooldown(m.cfg), page.session.value, t.safety, now);
        AnnouncedInv(m, s, t, page.session.value, u, v, now);
      }
    }
  }

  ghost predicate UpToDateAfter(s: MonitorState) {
    s.snapshots != [] && UpToDate(s) && s.lastSync.Some?
  }

  lemma AnnouncedInv(m: MonitorConfig, s: MonitorState, t: MonitorState, session: WorkSession, u: Update, v: Update,
                     now: Time)
    requires MonitorInv(m, s)
    requires StateInv(m.cfg, t.alert) && StateInv(WithoutCooldown(m.cfg), t.safety) && InLockstep(t.alert, t.safety)
    requires Combined(t) == Combined(s) && t.lastSync == s.lastSync && t.snapshots == s.snapshots
    requires t.safety.session == Some(session.sessionId)
      && (s.safety.session.Some? ==> s.safety.session == t.safety.session)
    requires !HasDeltas(v) ==> ActiveOf(t.safety.states) == ActiveOf(s.safety.states)
    requires var r := Build(session, v.active, now);
      && r.Ok? && Shows(r.value, ActiveOf(t.safety.states))
      && r.value.workSessionId == session.sessionId && r.value.observedAt == now
    ensures var x := Announced(m, t, u, v, session, now);
      && MonitorInv(m, x) && UpToDateAfter(x)
      && (x.snapshots == s.snapshots ==> ActiveOf(x.safety.states) == ActiveOf(s.safety.states))
  {
    hide StateInv, InLockstep, Shows, Build;
    var x := Announced(m, t, u, v, session, now);
    assert x.snapshots == if Due(m, t, v, now) then t.snapshots + [Build(session, v.active, now).value]
      else t.snapshots;
  }

  lemma FreshInLockstep(x: nat, y: nat)
    ensures InLockstep(Fresh(x), Fresh(y))
  {
  }

  /** The violations of a source can be replaced by any valid ones. */
  lemma NewSourcesKeep(m: MonitorConfig, s: MonitorState, ppe: seq<Violation>, ergonomic: seq<Violation>,
                       riskArea: seq<Violation>)
    requires MonitorInv(m, s) && forall v :: v in ppe + ergonomic + riskArea ==> v.Valid()
    ensures MonitorInv(m, s.(ppe := ppe, ergonomic := ergonomic, riskArea := riskArea))
  {
  }

  lemma MonitorStepInv(m: MonitorConfig, s: MonitorState, e: MonitorEvent)
    requires MonitorInv(m, s) && ValidMonitorEvent(e)
    ensures MonitorInv(m, MonitorStep(m, s, e).0)
  {
    match e
    case PpeAssessed(a, page, now) =>
      ViolationsForFacts(a.requirements);
      ObservedInv(m, s.(ppe := ViolationsFor(a.requirements)), page, now);
    case ErgonomicAssessed(vs, page, now) =>
      ObservedInv(m, s.(ergonomic := vs), page, now);
    case RiskAreaAssessed(vs, page, now) =>
      ObservedInv(m, s.(riskArea := vs), page, now);
    case Stopped(page, now) =>
      FreshInLockstep(s.alert.drawn, s.safety.drawn);
    case _ =>
  }

  /** The snapshot shows every active Admin alert that has a hardware reason, at least as critical. */
  ghost predicate NoMilderThan(snapshot: Snapshot, alerts: ActiveMap) {
    forall k :: k in alerts && !k.kind.MonitoringInterrupted? ==>
      ShownAtLeast(snapshot, k, alerts[k].violation.severity)
  }

  ghost predicate ShownAtLeast(snapshot: Snapshot, k: ConditionKey, severity: Severity) {
    exists c :: c in snapshot.conditions && c.conditionId == k && (severity == Critical ==> c.level == CriticalLevel)
  }

  lemma SignalNeverMilder(m: MonitorConfig, s: MonitorState)
    requires MonitorInv(m, s)
    ensures s.snapshots == [] ==> ActiveOf(s.alert.states) == map[]
    ensures s.snapshots != [] ==> NoMilderThan(LastSnapshot(s), ActiveOf(s.alert.states))
  {
    var admin, signal := ActiveOf(s.alert.states), ActiveOf(s.safety.states);
    forall k | k in admin ensures s.snapshots != []
      ensures !k.kind.MonitoringInterrupted? ==> ShownAtLeast(LastSnapshot(s), k, admin[k].violation.severity)
    {
      NeverMilder(s.alert, s.safety, k);
      assert signal[k].Key() == k;
      if !k.kind.MonitoringInterrupted? {
        var c := ConditionFor(signal[k]).value;
        TellsExactly(c, signal[k]);
        assert c in LastSnapshot(s).conditions;
      }
    }
  }

  /** A stop while the page shows no session: the engines forget, and the device is not told. */
  predicate StopsUnseen(e: MonitorEvent) {
    e.Stopped? && e.page.session.None?
  }

  lemma ShowsNothing(snapshot: Snapshot)
    ensures Shows(snapshot, map[]) <==> snapshot.conditions == []
  {
    if snapshot.conditions != [] {
      assert snapshot.conditions[0] in snapshot.conditions;
    }
  }

  /** A stop with a session shown tells the device that nothing is left. */
  lemma StopTells(m: MonitorConfig, s: MonitorState, page: Page, now: Time)
    requires ValidPage(page)
    ensures var t := StopStep(s, page, now);
      if page.session.None? then t.snapshots == s.snapshots
      else t.snapshots != [] && |t.snapshots| == |s.snapshots| + 1 && LastSnapshot(t).conditions == [] && UpToDate(t)
  {
    if page.session.Some? {
      ShowsNothing(LastSnapshot(StopStep(s, page, now)));
    }
  }

  /** What one event does to what the device knows. */
  lemma ToldStep(m: MonitorConfig, s: MonitorState, e: MonitorEvent)
    requires MonitorInv(m, s) && ValidMonitorEvent(e)
    ensures var t := MonitorStep(m, s, e).0;
      && (t.snapshots != s.snapshots ==> t.snapshots != [] && UpToDate(t))
      && (t.snapshots == s.snapshots && !StopsUnseen(e) ==> ActiveOf(t.safety.states) == ActiveOf(s.safety.states))
  {
    hide StateInv, InLockstep, ObserveAlerts, Shows;
    match e
    case PpeAssessed(a, page, now) =>
      ViolationsForFacts(a.requirements);
      ObservedInv(m, s.(ppe := ViolationsFor(a.requirements)), page, now);
    case ErgonomicAssessed(vs, page, now) =>
      ObservedInv(m, s.(ergonomic := vs), page, now);
    case RiskAreaAssessed(vs, page, now) =>
      ObservedInv(m, s.(riskArea := vs), page, now);
    case Stopped(page, now) => StopTells(m, s, page, now);
    case _ =>
  }

  /** When the alert engine accepts, so does the other, and its active alerts make a snapshot. */
  lemma SecondAccepts(m: MonitorConfig, s: MonitorState, input: CycleInput)
    requires MonitorInv(m, s) && ValidInput(input)
    ensures Observe(m.cfg, m.alertIds, s.alert, input).1.Ok? ==>
      var q := Observe(WithoutCooldown(m.cfg), m.safetyIds, s.safety, input).1;
      q.Ok? && Build(input.session, q.value.active, input.now).Ok?
  {
    ObserveInv(m.cfg, m.alertIds, s.alert, input);
    if Observe(m.cfg, m.alertIds, s.alert, input).1.Ok? {
      BothObservedInv(m, s, input);
      ObserveInv(WithoutCooldown(m.cfg), m.safetyIds, s.safety, input);
      SnapshotAccepted(WithoutCooldown(m.cfg), input.session, BothObserved(m, s, input).0.safety, input.now);
    }
  }

  /** An observation fails exactly when the first engine refuses it, and then nothing is sent. */
  lemma RefusedByFirstOnly(m: MonitorConfig, s: MonitorState, page: Page, now: Time)
    requires MonitorInv(m, s) && ValidPage(page)
    ensures var (t, r) := ObserveAlerts(m, s, page, now);
      if page.active && page.session.Some? then
        var first := Observe(m.cfg, m.alertIds, s.alert, CycleInput(page.session.value, Combined(s), now)).1;
        && (r.Err? <==> first.Err?)
        && (r.Err? ==>
          && r.error == first.error && t.safety == s.safety
          && t.snapshots == s.snapshots && t.localUpdates == s.localUpdates)
        && (r.Ok? ==>
          var second := Observe(WithoutCooldown(m.cfg), m.safetyIds, s.safety,
                                CycleInput(page.session.value, Combined(s), now)).1;
          && second.Ok?
          && |t.snapshots| == |s.snapshots| +
            if second.value.raised != [] || second.value.resolved != [] || second.value.escalated != []
               || s.lastSync.None? || now - s.lastSync.value >= m.syncInterval then 1 else 0)
      else t == s && r.Ok?
  {
    if page.active && page.session.Some? {
      SecondAccepts(m, s, CycleInput(page.session.value, Combined(s), now));
    }
  }

  // ---------------------------------------------------------------- three sources

  /** The violations are of one kind and repeat no key. */
  ghost predicate OneSource(vs: seq<Violation>, kind: ViolationType) {
    DistinctKeys(vs) && forall v :: v in vs ==> v.kind == kind
  }

  /** The event reports what its engine reports: violations of its own kind, each key once. */
  ghost predicate WellSourced(e: MonitorEvent) {
    match e
    case ErgonomicAssessed(vs, _, _) => OneSource(vs, ErgonomicRisk)
    case RiskAreaAssessed(vs, _, _) => OneSource(vs, PersonInRiskArea)
    case _ => true
  }

  ghost predicate SourcesInv(s: MonitorState) {
    OneSource(s.ppe, PpeAbsent) && OneSource(s.ergonomic, ErgonomicRisk) && OneSource(s.riskArea, PersonInRiskArea)
  }

  lemma SourcesNeverCollide(s: MonitorState)
    requires SourcesInv(s)
    ensures DistinctKeys(Combined(s))
  {
    var all := Combined(s);
    var m, n := |s.ppe|, |s.ppe| + |s.ergonomic|;
    forall i | 0 <= i < |all|
      ensures all[i].kind == if i < m then PpeAbsent else if i < n then ErgonomicRisk else PersonInRiskArea
    {
      if i < m {
        assert all[i] in s.ppe;
      } else if i < n {
        assert all[i] in s.ergonomic;
      } else {
        assert all[i] in s.riskArea;
      }
    }
  }

  lemma ObservingKeepsSources(m: MonitorConfig, s: MonitorState, page: Page, now: Time)
    ensures var t := ObserveAlerts(m, s, page, now).0;
      t.ppe == s.ppe && t.ergonomic == s.ergonomic && t.riskArea == s.riskArea
  {
    hide Observe, Build, HasDeltas;
  }

  lemma SourcesObserved(m: MonitorConfig, s: MonitorState, page: Page, now: Time)
    requires MonitorInv(m, s) && SourcesInv(s) && ValidPage(page)
    ensures var (t, r) := ObserveAlerts(m, s, page, now);
      SourcesInv(t) && !(r.Err? && r.error.DuplicateViolation?)
  {
    hide MonitorInv, Build, DistinctKeys, Cycle, ObserveAlerts;
    ObservingKeepsSources(m, s, page, now);
    RefusedByFirstOnly(m, s, page, now);
    SourcesNeverCollide(s);
    FirstDuplicateNone(Combined(s));
  }

  /** One event keeps the three sources apart, and repeats no key. */
  lemma SourcesStep(m: MonitorConfig, s: MonitorState, e: MonitorEvent)
    requires MonitorInv(m, s) && SourcesInv(s) && ValidMonitorEvent(e) && WellSourced(e)
    ensures var (t, r) := MonitorStep(m, s, e);
      SourcesInv(t) && !(r.Err? && r.error.DuplicateViolation?)
  {
    hide StateInv, InLockstep, ObserveAlerts, Shows;
    match e
    case PpeAssessed(a, page, now) =>
      ViolationsForFacts(a.requirements);
      SourcesObserved(m, s.(ppe := ViolationsFor(a.requirements)), page, now);
    case ErgonomicAssessed(vs, page, now) =>
      SourcesObserved(m, s.(ergonomic := vs), page, now);
    case RiskAreaAssessed(vs, page, now) =>
      SourcesObserved(m, s.(riskArea := vs), page, now);
    case _ =>
  }

  // ---------------------------------------------------------------- whole runs

  const EMPTY := MonitorState(Fresh(0), Fresh(0), [], [], [], None, [], [])

  datatype MonitorRun = MonitorRun(m: MonitorConfig, events: seq<MonitorEvent>)
  {
    ghost predicate Valid() {
      m.cfg.Valid() && forall i :: 0 <= i < |events| ==> ValidMonitorEvent(events[i])
    }

    ghost function After(n: nat): MonitorState
      requires Valid() && n <= |events|
    {
      if n == 0 then EMPTY else MonitorStep(m, After(n - 1), events[n - 1]).0
    }

    lemma Beginning()
      requires Valid()
      ensures MonitorInv(m, After(0))
    {
      FreshInLockstep(0, 0);
    }

    lemma InvNext(i: nat)
      requires Valid() && i < |events| && MonitorInv(m, After(i))
      ensures MonitorInv(m, After(i + 1))
    {
      hide MonitorInv, MonitorStep;
      MonitorStepInv(m, After(i), events[i]);
    }

    lemma {:induction false} InvKept(n: nat)
      requires Valid() && n <= |events|
      ensures MonitorInv(m, After(n))
    {
      hide *;
      if n == 0 {
        Beginning();
      } else {
        InvKept(n - 1);
        InvNext(n - 1);
      }
    }

    /**
     Over every run, through failures, restarts and stops: the last thing the signal device was told
     covers every active Admin alert, no milder; while it has been told nothing, no alert is active.
     */
    lemma DeviceNeverMilder(n: nat)
      requires Valid() && n <= |events|
      ensures var s := After(n);
        && (s.snapshots == [] ==> ActiveOf(s.alert.states) == map[])
        && (s.snapshots != [] ==> NoMilderThan(LastSnapshot(s), ActiveOf(s.alert.states)))
    {
      InvKept(n);
      SignalNeverMilder(m, After(n));
    }

    ghost predicate AllWellSourced() {
      forall i :: 0 <= i < |events| ==> WellSourced(events[i])
    }

    lemma SourcesNext(i: nat)
      requires Valid() && AllWellSourced() && i < |events| && MonitorInv(m, After(i)) && SourcesInv(After(i))
      ensures SourcesInv(After(i + 1))
    {
      hide MonitorInv, MonitorStep, SourcesInv, WellSourced;
      SourcesStep(m, After(i), events[i]);
    }

    lemma {:induction false} SourcesKept(n: nat)
      requires Valid() && AllWellSourced() && n <= |events|
      ensures SourcesInv(After(n))
    {
      hide MonitorInv, MonitorStep, WellSourced;
      if n > 0 {
        InvKept(n - 1);
        SourcesKept(n - 1);
        SourcesNext(n - 1);
      }
    }

    /** While each source repeats no key, no observation of a run is ever refused for a repeated violation. */
    lemma NoRepetitionRefused(n: nat)
      requires Valid() && AllWellSourced() && n < |events|
      ensures var r := MonitorStep(m, After(n), events[n]).1; r.Err? ==> !r.error.DuplicateViolation?
    {
      hide MonitorInv, MonitorStep, SourcesInv, WellSourced;
      InvKept(n);
      SourcesKept(n);
      SourcesStep(m, After(n), events[n]);
    }

    /** Monitoring was stopped unseen before event `n`, and the device has been told nothing since. */
    ghost predicate ForgottenSince(i: nat, n: nat)
      requires Valid() && i < n <= |events|
    {
      StopsUnseen(events[i]) && After(i).snapshots == After(n).snapshots
    }

    /**
     What the device was last told is exactly what the safety-state engine tracks, unless monitoring was
     stopped unseen since: then the engine tracks nothing and the device may still show old conditions.
     */
    lemma DeviceUpToDate(n: nat)
      requires Valid() && n <= |events| && After(n).snapshots != []
      ensures var s := After(n); UpToDate(s) <==>
        (ActiveOf(s.safety.states) == map[] ==> LastSnapshot(s).conditions == [])
      ensures !UpToDate(After(n)) ==> exists i :: 0 <= i < n && ForgottenSince(i, n)
    {
      InvKept(n);
      ShowsNothing(LastSnapshot(After(n)));
      OutdatedSince(n);
    }

    /** While every stop has been shown the session, the device shows exactly what is tracked. */
    lemma DeviceAlwaysUpToDate(n: nat)
      requires Valid() && n <= |events| && After(n).snapshots != []
      requires forall i :: 0 <= i < n ==> !StopsUnseen(events[i])
      ensures UpToDate(After(n))
    {
      hide StopsUnseen, UpToDate;
      DeviceUpToDate(n);
    }

    /** A stop that the device is not told of leaves what it shows and empties what is tracked. */
    lemma UnseenStopOutdates(n: nat)
      requires Valid() && n < |events| && StopsUnseen(events[n])
      requires After(n).snapshots != [] && LastSnapshot(After(n)).conditions != []
      ensures After(n + 1).snapshots == After(n).snapshots && ActiveOf(After(n + 1).safety.states) == map[]
      ensures !UpToDate(After(n + 1))
    {
      ShowsNothing(LastSnapshot(After(n)));
    }

    lemma {:induction false} OutdatedSince(n: nat)
      requires Valid() && n <= |events| && After(n).snapshots != []
      ensures !UpToDate(After(n)) ==> exists i :: 0 <= i < n && ForgottenSince(i, n)
    {
      hide MonitorInv, MonitorStep, StopsUnseen, Shows, ActiveOf;
      if n > 0 {
        InvKept(n - 1);
        ToldStep(m, After(n - 1), events[n - 1]);
        if !UpToDate(After(n)) {
          assert After(n).snapshots == After(n - 1).snapshots;
          OutdatedSince(n - 1);
          if StopsUnseen(events[n - 1]) {
            assert ForgottenSince(n - 1, n);
          } else {
            var i :| 0 <= i < n - 1 && ForgottenSince(i, n - 1);
            assert ForgottenSince(i, n);
          }
        }
      }
    }
  }

  // ---------------------------------------------------------------- a device left behind

  const INTRUSION := Violation(PersonInRiskArea, "risk_area:1", "Pessoa detectada", Critical, None, None, None)

  const SHIFT := WorkSession(0, 1, 1, Some(1), Some(1), [1], 0, 1, 1, 0, None, ActiveSession)

  /** Somebody enters the area, and monitoring is stopped after the page has let go of the session. */
  const LEFT_BEHIND := MonitorRun(
    MonitorConfig(Config(1, 0, 1, 0, 1), (n: nat) => n, (n: nat) => n, 1),
    [RiskAreaAssessed([INTRUSION], Page(true, Some(SHIFT)), 0), Stopped(Page(false, None), 1)])

  lemma LeftBehindValid()
    ensures LEFT_BEHIND.Valid()
  {
  }

  /** The first observation of the intrusion opens an alert in the safety-state engine. */
  lemma IntrusionIsTracked(draw: nat -> AlertId)
    ensures var st := Cycle(Config(1, 0, 1, 0, 1), draw, Fresh(0), CycleInput(SHIFT, [INTRUSION], 0)).0;
      INTRUSION.Key() in ActiveOf(st.states) && ActiveOf(st.states)[INTRUSION.Key()].violation.kind == PersonInRiskArea
  {
    var (cfg, input) := (Config(1, 0, 1, 0, 1), CycleInput(SHIFT, [INTRUSION], 0));
    assert INTRUSION in input.violations;
    CycleAt(cfg, draw, Fresh(0), input, INTRUSION.Key());
  }

  lemma LeftBehindShows()
    requires LEFT_BEHIND.Valid()
    ensures var s := LEFT_BEHIND.After(1); s.snapshots != [] && LastSnapshot(s).conditions != []
  {
    var (r, input) := (LEFT_BEHIND, CycleInput(SHIFT, [INTRUSION], 0));
    var s := EMPTY.(riskArea := [INTRUSION]);
    r.InvKept(0);
    r.InvKept(1);
    NewSourcesKeep(r.m, EMPTY, [], [], [INTRUSION]);
    FirstDuplicateNone(input.violations);
    assert Combined(s) == [INTRUSION];
    SecondAccepts(r.m, s, input);
    IntrusionIsTracked(r.m.safetyIds);
    var t := r.After(1);
    assert t.safety == Cycle(WithoutCooldown(r.m.cfg), r.m.safetyIds, Fresh(0), input).0;
    var a := ActiveOf(t.safety.states)[INTRUSION.Key()];
    TellsExactly(ConditionFor(a).value, a);
  }

  /** A run after which the device goes on showing an intrusion that nobody tracks any more. */
  lemma DeviceCanBeOutdated()
    ensures LEFT_BEHIND.Valid()
    ensures var s := LEFT_BEHIND.After(2);
      s.snapshots != [] && LastSnapshot(s).conditions != [] && ActiveOf(s.safety.states) == map[] && !UpToDate(s)
  {
    LeftBehindValid();
    LeftBehindShows();
    LEFT_BEHIND.UnseenStopOutdates(1);
  }

  // ---------------------------------------------------------------- the controller object

  class ActivePpeMonitoringController {
    const syncInterval: Time
    const alertEngine: AlertEngine
    const safetyStateEngine: AlertEngine
    var ppeViolations: seq<Violation>
    var ergonomicViolations: seq<Violation>
    var riskAreaViolations: seq<Violation>
    var lastSafetyStateSyncAt: Option<Time>
    var localUpdates: seq<Update>        // emitted through local_alert_update_ready
    var snapshots: seq<Snapshot>         // emitted through safety_state_snapshot_ready

    ghost function Setup(): MonitorConfig {
      MonitorConfig(alertEngine.cfg, alertEngine.draw, safetyStateEngine.draw, syncInterval)
    }

    ghost function Model(): MonitorState
      reads this, alertEngine, safetyStateEngine
    {
      MonitorState(alertEngine.Model(), safetyStateEngine.Model(), ppeViolations, ergonomicViolations,
                   riskAreaViolations, lastSafetyStateSyncAt, localUpdates, snapshots)
    }

    ghost predicate Valid()
      reads this, alertEngine, safetyStateEngine
    {
      && alertEngine != safetyStateEngine
      && safetyStateEngine.cfg == WithoutCooldown(alertEngine.cfg)
      && MonitorInv(Setup(), Model())
    }

    constructor (cfg: Config, alertIds: nat -> AlertId, safetyIds: nat -> AlertId, syncInterval: Time)
      requires cfg.Valid()
      ensures Valid() && fresh(alertEngine) && fresh(safetyStateEngine)
      ensures Setup() == MonitorConfig(cfg, alertIds, safetyIds, syncInterval) && Model() == EMPTY
    {
      alertEngine := new AlertEngine(cfg, alertIds);
      safetyStateEngine := new AlertEngine(WithoutCooldown(cfg), safetyIds);
      this.syncInterval := syncInterval;
      ppeViolations, ergonomicViolations, riskAreaViolations := [], [], [];
      lastSafetyStateSyncAt, localUpdates, snapshots := None, [], [];
      new;
      FreshInLockstep(0, 0);
    }

    /** Sends the given alerts to the signal device; the snapshot constructor accepts them. */
    method EmitSnapshot(session: WorkSession, alerts: seq<Alert>, now: Time)
      requires Build(session, alerts, now).Ok?
      modifies this`lastSafetyStateSyncAt, this`snapshots
      ensures lastSafetyStateSyncAt == Some(now) && snapshots == old(snapshots) + [Build(session, alerts, now).value]
    {
      var snapshot := FromAlerts(session, alerts, now);
      lastSafetyStateSyncAt := Some(now);
      snapshots := snapshots + [snapshot.value];
    }

    /** The alert engine first; the other only when the first accepts. */
    method ObserveEngines(session: WorkSession, violations: seq<Violation>, now: Time)
      returns (r: Result<(Update, Update), EngineError>)
      requires alertEngine != safetyStateEngine && alertEngine.Valid() && safetyStateEngine.Valid()
      requires ValidInput(CycleInput(session, violations, now))
      modifies alertEngine, safetyStateEngine
      ensures var input := CycleInput(session, violations, now);
        var (a, p) := Observe(alertEngine.cfg, alertEngine.draw, old(alertEngine.Model()), input);
        var (b, q) := Observe(safetyStateEngine.cfg, safetyStateEngine.draw, old(safetyStateEngine.Model()), input);
        && alertEngine.Model() == a
        && safetyStateEngine.Model() == (if p.Ok? then b else old(safetyStateEngine.Model()))
        && r == if p.Err? then Err(p.error) else if q.Err? then Err(q.error) else Ok((p.value, q.value))
    {
      var alertUpdate := alertEngine.Observe(session, violations, now);
      if alertUpdate.Err? {
        return Err(alertUpdate.error);
      }
      var safetyUpdate := safetyStateEngine.Observe(session, violations, now);
      if safetyUpdate.Err? {
        return Err(safetyUpdate.error);
      }
      r := Ok((alertUpdate.value, safetyUpdate.value));
    }

    /** The accepted updates of both engines, sent on. */
    method Announce(alertUpdate: Update, safetyUpdate: Update, session: WorkSession, now: Time)
      requires Build(session, safetyUpdate.active, now).Ok?
      modifies this`localUpdates, this`lastSafetyStateSyncAt, this`snapshots
      ensures Model() == Announced(Setup(), old(Model()), alertUpdate, safetyUpdate, session, now)
    {
      if HasDeltas(alertUpdate) {
        localUpdates := localUpdates + [alertUpdate];
      }
      if HasDeltas(safetyUpdate) || lastSafetyStateSyncAt.None? || now - lastSafetyStateSyncAt.value >= syncInterval {
        EmitSnapshot(session, safetyUpdate.active, now);
      }
    }

    method ObserveAlertsNow(page: Page, now: Time) returns (r: Result<(), EngineError>)
      requires Valid() && ValidPage(page)
      modifies this, alertEngine, safetyStateEngine
      ensures Valid()
      ensures (Model(), r) == ObserveAlerts(Setup(), old(Model()), page, now)
      ensures r.Err? ==>
        page.active && page.session.Some? && snapshots == old(snapshots) && localUpdates == old(localUpdates)
    {
      ghost var m, s := Setup(), Model();
      ObservedInv(m, s, page, now);
      RefusedByFirstOnly(m, s, page, now);
      if !page.active || page.session.None? {
        return Ok(());
      }
      var session := page.session.value;
      var violations := ppeViolations + ergonomicViolations + riskAreaViolations;
      SecondAccepts(m, s, CycleInput(session, violations, now));
      var updates := ObserveEngines(session, violations, now);
      if updates.Err? {
        return Err(updates.error);
      }
      Announce(updates.value.0, updates.value.1, session, now);
      r := Ok(());
    }

    method HandlePpeAssessment(assessment: PpeSafety.Assessment, page: Page, now: Time)
      returns (r: Result<(), EngineError>)
      requires Valid() && ValidMonitorEvent(PpeAssessed(assessment, page, now))
      modifies this, alertEngine, safetyStateEngine
      ensures Valid()
      ensures (Model(), r) == MonitorStep(Setup(), old(Model()), PpeAssessed(assessment, page, now))
    {
      ViolationsForFacts(assessment.requirements);
      NewSourcesKeep(Setup(), Model(), ViolationsFor(assessment.requirements), ergonomicViolations, riskAreaViolations);
      ppeViolations := ViolationsFor(assessment.requirements);
      r := ObserveAlertsNow(page, now);
    }

    method HandleErgonomicAssessment(violations: seq<Violation>, page: Page, now: Time)
      returns (r: Result<(), EngineError>)
      requires Valid() && ValidMonitorEvent(ErgonomicAssessed(violations, page, now))
      modifies this, alertEngine, safetyStateEngine
      ensures Valid()
      ensures (Model(), r) == MonitorStep(Setup(), old(Model()), ErgonomicAssessed(violations, page, now))
    {
      NewSourcesKeep(Setup(), Model(), ppeViolations, violations, riskAreaViolations);
      ergonomicViolations := violations;
      r := ObserveAlertsNow(page, now);
    }

    method HandleRiskAreaAssessment(violations: seq<Violation>, page: Page, now: Time)
      returns (r: Result<(), EngineError>)
      requires Valid() && ValidMonitorEvent(RiskAreaAssessed(violations, page, now))
      modifies this, alertEngine, safetyStateEngine
      ensures Valid()
      ensures (Model(), r) == MonitorStep(Setup(), old(Model()), RiskAreaAssessed(violations, page, now))
    {
      NewSourcesKeep(Setup(), Model(), ppeViolations, ergonomicViolations, violations);
      riskAreaViolations := violations;
      r := ObserveAlertsNow(page, now);
    }

    /** Both `stop` and `shutdown`: tells the device all is safe, then forgets everything. */
    method Stop(page: Page, now: Time)
      requires Valid() && ValidPage(page)
      modifies this, alertEngine, safetyStateEngine
      ensures Valid() && Model() == MonitorStep(Setup(), old(Model()), Stopped(page, now)).0
      ensures page.session.Some? ==> snapshots != [] && snapshots[|snapshots| - 1].conditions == []
    {
      ghost var m, s := Setup(), Model();
      ghost var stopped := StopStep(s, page, now);
      MonitorStepInv(m, s, Stopped(page, now));
      if page.session.Some? {
        EmitSnapshot(page.session.value, [], now);
      }
      ppeViolations, ergonomicViolations, riskAreaViolations, lastSafetyStateSyncAt := [], [], [], None;
      alertEngine.Reset();
      safetyStateEngine.Reset();
      assert Model() == stopped;
    }

    /** The common part of `start` and `_handle_failure`; the engines keep their state. */
    method ResetMonitoringRuntime()
      requires Valid()
      modifies this
      ensures Valid() && Model() == MonitorStep(Setup(), old(Model()), InferenceFailed).0
    {
      MonitorStepInv(Setup(), Model(), InferenceFailed);
      ppeViolations, ergonomicViolations, riskAreaViolations, lastSafetyStateSyncAt := [], [], [], None;
    }
  }
}
