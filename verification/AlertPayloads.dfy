/**
 What the reported alerts contain: whose work they concern, what was seen and since when. Everything is said
 in terms of the cycles' inputs and the history of the alert's key.
 */
module AlertPayloads {
  import opened Wrappers
  import opened WorkSessions
  import opened SafetyAlerts
  import opened AlertCycles
  import opened AlertTiming
  import opened AlertTrace
  import opened AlertRuns
  import opened AlertDeltas

  /** The alert names the operator, operation, camera and area of the work session. */
  predicate OfSession(a: Alert, s: WorkSession) {
    && a.workSessionId == s.sessionId
    && a.operatorId == s.operatorId
    && a.operationId == s.operationId
    && a.cameraId == s.cameraId
    && a.riskAreaId == s.riskAreaId
  }

  /** The alert says what this violation says; how severe it is is the engine's decision. */
  predicate Describes(a: Alert, v: Violation) {
    && a.violation.kind == v.kind && a.violation.subjectKey == v.subjectKey && a.violation.summary == v.summary
    && a.violation.ppeId == v.ppeId && a.violation.ppeName == v.ppeName && a.violation.trackId == v.trackId
  }

  // ---------------------------------------------------------------- raised alerts

  /** What an alert raised in cycle `i` must be. */
  ghost predicate Opens(t: Trace, i: nat, a: Alert)
    requires i < |t.h|
  {
    var (x, hist) := (t.h[i], t.HistoryOf(a.Key()));
    && OfSession(a, x.session)
    && (exists v :: v in x.violations && v.Key() == a.Key() && Describes(a, v))
    && hist.Present(i) && a.firstObservedAt == t.h[hist.StreakStart(i)].now
    && a.raisedAt == x.now && a.resolvedAt == None && a.status == ActiveAlert
    && (a.violation.severity == Critical <==> hist.StreakDuration(i) >= t.cfg.criticalAfter)
  }

  lemma RaisedStep(cx: Context, c: Option<Condition>, v: Option<Violation>, id: AlertId)
    ensures var (n, o) := KeyStep(cx, c, v, id);
      o.Raised? ==>
        && v.Some? && n.Some? && n.value.firstObservedAt == Some(o.alert.firstObservedAt)
        && OfSession(o.alert, cx.session) && Describes(o.alert, v.value)
        && o.alert.raisedAt == cx.now && o.alert.resolvedAt == None && o.alert.status == ActiveAlert
        && (o.alert.violation.severity == Critical <==> cx.now - o.alert.firstObservedAt >= cx.cfg.criticalAfter)
  {
  }

  /** The streak of a present key began when the engine says it did. */
  lemma FirstIsStreakStart(t: Trace, i: nat, k: ConditionKey)
    requires t.Accepted() && i < |t.h| && k in KeysOf(t.h[i].violations)
    ensures t.HistoryOf(k).Present(i)
    ensures TimingOf(Get(t.StateAfter(i + 1).states, k)).first == Some(t.h[t.HistoryOf(k).StreakStart(i)].now)
  {
    hide Trace.StateAfter, Get, TimingOf, History.After;
    t.TimingAfter(i + 1, k);
    t.HistoryIsValid(k);
    t.HistoryOf(k).StreakKept(i + 1);
  }

  /** Each raised alert is that of its work session, of the violation seen, and as old as the current streak. */
  lemma RaisedOpens(t: Trace, i: nat, a: Alert)
    requires t.Accepted() && i < |t.h| && a in t.UpdateAt(i).raised
    ensures Opens(t, i, a)
  {
    hide Trace.StateAfter, Trace.Accepted, Trace.UpdateAt, KeyStep, OfSession, Describes;
    var k := a.Key();
    t.OutcomeAt(i, k);
    var (c, v) := (Get(t.StateAfter(i).states, k), Lookup(t.h[i].violations, k));
    var id := t.draw(IdFor(t.cfg, t.draw, t.StateAfter(i), t.h[i], k));
    RaisedStep(ContextOf(t.cfg, t.draw, t.h[i]), c, v, id);
    FirstIsStreakStart(t, i, k);
  }

  // ---------------------------------------------------------------- alerts that go on

  /** Before cycle `n` the alert is open, and it is the one raised when it was opened. */
  ghost predicate Held(t: Trace, n: nat, a: Alert)
    requires n <= |t.h|
  {
    exists j: nat, b: Alert :: j < n && b in t.UpdateAt(j).raised && Core(b) == Core(a) && b.Key() == a.Key()
      && t.HistoryOf(a.Key()).OpenSince(j, n)
  }

  ghost predicate HeldInv(t: Trace, n: nat, k: ConditionKey)
    requires n <= |t.h|
  {
    var c := Get(t.StateAfter(n).states, k);
    c.Some? && c.value.active.Some? ==>
      var a := c.value.active.value;
      && a.Key() == k && a.status.ActiveAlert? && a.resolvedAt.None?
      && Held(t, n, a)
      && (a.violation.severity == Warning <==> t.HistoryOf(k).WarningBefore(n))
  }

  lemma SeverityIsWarning(t: Trace, n: nat, k: ConditionKey)
    requires t.Accepted() && n <= |t.h|
    ensures TimingOf(Get(t.StateAfter(n).states, k)).warning <==> t.HistoryOf(k).WarningBefore(n)
  {
    hide Trace.StateAfter, Get, TimingOf, History.After, History.WarningBefore;
    t.TimingAfter(n, k);
    t.HistoryIsValid(k);
    t.HistoryOf(k).WarningKept(n);
  }

  lemma HeldLonger(t: Trace, i: nat, a: Alert, b: Alert)
    requires i < |t.h| && Held(t, i, a) && Core(a) == Core(b) && a.Key() == b.Key()
    requires t.HistoryOf(a.Key()).EventAt(i) != Resolve
    ensures Held(t, i + 1, b)
  {
    hide Trace.StateAfter, Trace.UpdateAt, Core, History.EventAt, Trace.HistoryOf, Alert.Key;
    var j: nat, r: Alert :| j < i && r in t.UpdateAt(j).raised && Core(r) == Core(a) && r.Key() == a.Key()
      && t.HistoryOf(a.Key()).OpenSince(j, i);
    assert t.HistoryOf(b.Key()).OpenSince(j, i + 1);
  }

  lemma HeldFromRaise(t: Trace, i: nat, a: Alert)
    requires i < |t.h| && a in t.UpdateAt(i).raised && t.HistoryOf(a.Key()).EventAt(i) == Raise
    ensures Held(t, i + 1, a)
  {
    assert t.HistoryOf(a.Key()).OpenSince(i, i + 1);
  }

  /** What becomes of an open alert in its key's own step. */
  lemma OpenStep(cx: Context, c: Option<Condition>, v: Option<Violation>, id: AlertId)
    requires c.Some? && c.value.active.Some? ==>
      c.value.active.value.status.ActiveAlert? && c.value.active.value.resolvedAt.None?
    ensures var (n, o) := KeyStep(cx, c, v, id);
      && (o.Raised? ==> n.Some? && n.value.active == Some(o.alert))
      && (!o.Raised? && n.Some? && n.value.active.Some? ==> c.Some? && c.value.active.Some? && !o.Resolved?)
      && (n.Some? && n.value.active.Some? ==>
        n.value.active.value.status.ActiveAlert? && n.value.active.value.resolvedAt.None?)
      && (o.Escalated? || o.Resolved? ==> c.Some? && c.value.active.Some?)
      && (o.Escalated? ==> n.Some? && n.value.active == Some(o.alert) && o.alert.violation.severity == Critical)
      && (o.Resolved? ==>
        && o.alert.status == ResolvedAlert && o.alert.resolvedAt == Some(cx.now)
        && o.alert.violation == c.value.active.value.violation)
  {
  }

  lemma HeldNext(t: Trace, i: nat, k: ConditionKey)
    requires t.Accepted() && i < |t.h| && HeldInv(t, i, k)
    ensures HeldInv(t, i + 1, k)
  {
    hide Trace.StateAfter, Trace.Accepted, Trace.UpdateAt, KeyStep, Held, Core, History.WarningBefore, History.EventAt;
    t.OutcomeAt(i, k);
    t.TimingStep(i, k);
    t.TimingAfter(i, k);
    EventIs(t, i, k);
    SeverityIsWarning(t, i + 1, k);
    var (c, v) := (Get(t.StateAfter(i).states, k), Lookup(t.h[i].violations, k));
    var id := t.draw(IdFor(t.cfg, t.draw, t.StateAfter(i), t.h[i], k));
    OutcomeKeyAt(t, i, k);
    OpenStep(ContextOf(t.cfg, t.draw, t.h[i]), c, v, id);
    KeyStepCore(ContextOf(t.cfg, t.draw, t.h[i]), c, v, id);
    var (n, o) := t.StepAt(i, k);
    if o.Raised? {
      HeldFromRaise(t, i, o.alert);
    } else if n.Some? && n.value.active.Some? {
      HeldLonger(t, i, c.value.active.value, n.value.active.value);
    }
  }

  /** The event of a key's history is that of its step. */
  lemma EventIs(t: Trace, i: nat, k: ConditionKey)
    requires t.Accepted() && i < |t.h|
    ensures t.HistoryOf(k).EventAt(i) == EventOf(t.StepAt(i, k).1)
  {
    hide Trace.StateAfter, Trace.Accepted, Get, StepOf;
    t.TimingAfter(i, k);
    t.TimingStep(i, k);
  }

  lemma OutcomeKeyAt(t: Trace, i: nat, k: ConditionKey)
    requires t.Accepted() && i < |t.h|
    ensures var (n, o) := t.StepAt(i, k);
      && (o != Quiet ==> o.alert.Key() == k)
      && (n.Some? && n.value.active.Some? ==> n.value.active.value.Key() == k)
  {
    hide Trace.StateAfter, Trace.Accepted, KeyStep;
    t.RunKept(i);
    OutcomeKey(ContextOf(t.cfg, t.draw, t.h[i]), Get(t.StateAfter(i).states, k), Lookup(t.h[i].violations, k),
               t.draw(IdFor(t.cfg, t.draw, t.StateAfter(i), t.h[i], k)), k);
  }

  lemma HeldStart(t: Trace, k: ConditionKey)
    ensures HeldInv(t, 0, k)
  {
  }

  lemma {:induction false} HeldKept(t: Trace, n: nat, k: ConditionKey)
    requires t.Accepted() && n <= |t.h|
    ensures HeldInv(t, n, k)
  {
    hide *;
    if n == 0 {
      HeldStart(t, k);
    } else {
      HeldKept(t, n - 1, k);
      HeldNext(t, n - 1, k);
    }
  }

  /** An escalated alert is the open one, now critical. */
  lemma EscalatedContinues(t: Trace, i: nat, a: Alert)
    requires t.Accepted() && i < |t.h| && a in t.UpdateAt(i).escalated
    ensures Held(t, i, a)
    ensures a.violation.severity == Critical && a.status == ActiveAlert && a.resolvedAt == None
  {
    DeltaContinues(t, i, a);
  }

  /** A resolved alert is the open one, closed now, with the severity it had. */
  lemma ResolvedContinues(t: Trace, i: nat, a: Alert)
    requires t.Accepted() && i < |t.h| && a in t.UpdateAt(i).resolved
    ensures Held(t, i, a)
    ensures a.status == ResolvedAlert && a.resolvedAt == Some(t.h[i].now)
    ensures a.violation.severity == Warning <==> t.HistoryOf(a.Key()).WarningBefore(i)
  {
    DeltaContinues(t, i, a);
  }

  lemma HeldAs(t: Trace, n: nat, a: Alert, b: Alert)
    requires n <= |t.h| && Held(t, n, a) && Core(a) == Core(b) && a.Key() == b.Key()
    ensures Held(t, n, b)
  {
  }

  lemma DeltaContinues(t: Trace, i: nat, a: Alert)
    requires t.Accepted() && i < |t.h| && (a in t.UpdateAt(i).escalated || a in t.UpdateAt(i).resolved)
    ensures Held(t, i, a)
    ensures a in t.UpdateAt(i).escalated ==>
      a.violation.severity == Critical && a.status == ActiveAlert && a.resolvedAt == None
    ensures a in t.UpdateAt(i).resolved ==>
      && a.status == ResolvedAlert && a.resolvedAt == Some(t.h[i].now)
      && (a.violation.severity == Warning <==> t.HistoryOf(a.Key()).WarningBefore(i))
  {
    hide Trace.StateAfter, Trace.Accepted, Trace.UpdateAt, KeyStep, Held, Core, History.WarningBefore;
    var k := a.Key();
    t.OutcomeAt(i, k);
    HeldKept(t, i, k);
    var (c, v) := (Get(t.StateAfter(i).states, k), Lookup(t.h[i].violations, k));
    var id := t.draw(IdFor(t.cfg, t.draw, t.StateAfter(i), t.h[i], k));
    OpenStep(ContextOf(t.cfg, t.draw, t.h[i]), c, v, id);
    KeyStepCore(ContextOf(t.cfg, t.draw, t.h[i]), c, v, id);
    OutcomeKeyAt(t, i, k);
    HeldAs(t, i, c.value.active.value, a);
  }

  /** A listed alert is the one opened last for its key, critical exactly when it was raised so or escalated since. */
  lemma ListedContinues(t: Trace, i: nat, a: Alert)
    requires t.Accepted() && i < |t.h| && a in t.UpdateAt(i).active
    ensures Held(t, i + 1, a) && a.status == ActiveAlert && a.resolvedAt == None
    ensures a.violation.severity == Warning <==> t.HistoryOf(a.Key()).WarningBefore(i + 1)
  {
    hide Trace.Accepted, Held, Core, ActiveAlerts, Seen, ClearedUp;
    t.RunKept(i + 1);
    ActiveAlertsListing(t.StateAfter(i + 1));
    HeldKept(t, i + 1, a.Key());
  }

  // ---------------------------------------------------------------- runs with refusals and resets

  /**
   In every run, what an accepted call raises is an alert about the call's own session and violation, as old as
   the key's streak since the last reset; what it escalates or resolves is the alert that is open.
   */
  lemma RunPayloads(r: Run, i: nat, a: Alert)
    requires r.Valid() && i < |r.calls| && r.calls[i].Observation? && r.AnswerAt(i).Ok?
    ensures var (u, t, n) := (r.AnswerAt(i).value, r.TraceAfter(i + 1), r.LastCycle(i));
      && 0 <= n < |t.h| && t.h[n] == r.calls[i].input
      && (a in u.raised ==> Opens(t, n, a))
      && (a in u.escalated ==> Held(t, n, a) && a.violation.severity == Critical)
      && (a in u.resolved ==> Held(t, n, a) && a.resolvedAt == Some(r.calls[i].input.now))
      && (a in u.active ==> Held(t, n + 1, a) && a.status == ActiveAlert)
  {
    hide Opens, Held, Run.AnswerAt, Run.TraceAfter, Trace.UpdateAt, Trace.Accepted;
    r.AnswersAreUpdates(i);
    var (u, t, n) := (r.AnswerAt(i).value, r.TraceAfter(i + 1), r.LastCycle(i));
    if a in u.raised {
      RaisedOpens(t, n, a);
    }
    if a in u.escalated {
      EscalatedContinues(t, n, a);
    }
    if a in u.resolved {
      ResolvedContinues(t, n, a);
    }
    if a in u.active {
      ListedContinues(t, n, a);
    }
  }
}
