/**
 What the monitoring controller's engines are given and what the Admin is told, over whole runs: the alert engine
 runs on the latest findings of all three sources, and its deltas, and nothing else, go out as local updates.
 */
module MonitoringRuns {
  import opened Wrappers
  import opened WorkSessions
  import opened SafetyAlerts
  import opened AlertCycles
  import opened AlertDeltas
  import opened AlertTrace
  import opened AlertRuns
  import opened Lockstep
  import opened Monitoring

  // ---------------------------------------------------------------- what the engines are given

  /** The latest findings of the three sources. */
  datatype Findings = Findings(ppe: seq<Violation>, ergonomic: seq<Violation>, riskArea: seq<Violation>)

  const NO_FINDINGS := Findings([], [], [])

  /** The latest assessment of each source since monitoring was last started, stopped or failed. */
  ghost function Latest(r: MonitorRun, n: nat): Findings
    requires r.Valid() && n <= |r.events|
  {
    if n == 0 then NO_FINDINGS
    else
      match r.events[n - 1]
      case PpeAssessed(a, _, _) => Latest(r, n - 1).(ppe := ViolationsFor(a.requirements))
      case ErgonomicAssessed(vs, _, _) => Latest(r, n - 1).(ergonomic := vs)
      case RiskAreaAssessed(vs, _, _) => Latest(r, n - 1).(riskArea := vs)
      case _ => NO_FINDINGS
  }

  /** The page and time of an assessment. */
  function AssessedOn(e: MonitorEvent): Option<(Page, Time)> {
    match e
    case PpeAssessed(_, page, now) => Some((page, now))
    case ErgonomicAssessed(_, page, now) => Some((page, now))
    case RiskAreaAssessed(_, page, now) => Some((page, now))
    case _ => None
  }

  /** While monitoring is active for a session, every assessment leads to an observation of all findings. */
  ghost function Observed(r: MonitorRun, i: nat): Option<CycleInput>
    requires r.Valid() && i < |r.events|
  {
    var on := AssessedOn(r.events[i]);
    if on.None? || !on.value.0.active || on.value.0.session.None? then None
    else
      var f := Latest(r, i + 1);
      Some(CycleInput(on.value.0.session.value, f.ppe + f.ergonomic + f.riskArea, on.value.1))
  }

  /** The calls on the alert engine: one observation for each such assessment, one reset for each stop. */
  ghost function Calls(r: MonitorRun, n: nat): seq<Call>
    requires r.Valid() && n <= |r.events|
  {
    if n == 0 then []
    else
      var x := Observed(r, n - 1);
      Calls(r, n - 1)
      + (if x.Some? then [Observation(x.value)] else if r.events[n - 1].Stopped? then [WorkEnded] else [])
  }

  ghost function AdminRun(r: MonitorRun, n: nat): Run
    requires r.Valid() && n <= |r.events|
  {
    Run(r.m.cfg, r.m.alertIds, Calls(r, n))
  }

  /** An update that reports something. */
  function Changes(u: Update): seq<Update> {
    if u.raised != [] || u.resolved != [] || u.escalated != [] then [u] else []
  }

  /** What a run of calls makes the page and the Admin hear: the accepted updates that change something. */
  function Heard(run: Run, n: nat): seq<Update>
    requires n <= |run.calls|
  {
    if n == 0 then []
    else
      Heard(run, n - 1)
      + (var u := run.AnswerAt(n - 1);
         if u.Ok? then Changes(u.value) else [])
  }

  ghost predicate Agree(a: Run, b: Run, n: nat)
    requires n <= |a.calls| && n <= |b.calls|
  {
    b.StateAfter(n) == a.StateAfter(n) && Heard(b, n) == Heard(a, n)
  }

  lemma AgreeNext(a: Run, b: Run, i: nat)
    requires a.cfg == b.cfg && a.draw == b.draw && i < |a.calls| && i < |b.calls| && b.calls[i] == a.calls[i]
    requires Agree(a, b, i)
    ensures Agree(a, b, i + 1)
  {
    hide Observe;
  }

  /** A run and a longer one agree on the calls they share. */
  lemma {:induction false} RunPrefix(a: Run, b: Run, n: nat)
    requires a.cfg == b.cfg && a.draw == b.draw && a.calls <= b.calls && n <= |a.calls|
    ensures Agree(a, b, n)
  {
    hide Run.StateAfter, Heard, Agree;
    if n == 0 {
      AgreeStart(a, b);
    } else {
      RunPrefix(a, b, n - 1);
      AgreeNext(a, b, n - 1);
    }
  }

  lemma AgreeStart(a: Run, b: Run)
    requires a.cfg == b.cfg && a.draw == b.draw
    ensures Agree(a, b, 0)
  {
  }

  ghost predicate FindingsHold(r: MonitorRun, n: nat)
    requires r.Valid() && n <= |r.events|
  {
    var s := r.After(n);
    Latest(r, n) == Findings(s.ppe, s.ergonomic, s.riskArea)
  }

  lemma FindingsNext(r: MonitorRun, i: nat)
    requires r.Valid() && i < |r.events| && FindingsHold(r, i)
    ensures FindingsHold(r, i + 1)
  {
    hide MonitorStep, ViolationsFor;
    FindingsStep(r.m, r.After(i), r.events[i]);
  }

  lemma FindingsStart(r: MonitorRun)
    requires r.Valid()
    ensures FindingsHold(r, 0)
  {
  }

  lemma {:induction false} FindingsAre(r: MonitorRun, n: nat)
    requires r.Valid() && n <= |r.events|
    ensures FindingsHold(r, n)
  {
    hide *;
    if n == 0 {
      FindingsStart(r);
    } else {
      FindingsAre(r, n - 1);
      FindingsNext(r, n - 1);
    }
  }

  lemma FindingsStep(m: MonitorConfig, s: MonitorState, e: MonitorEvent)
    requires ValidMonitorEvent(e)
    ensures var t := MonitorStep(m, s, e).0;
      && t.ppe == (if e.PpeAssessed? then ViolationsFor(e.assessment.requirements)
                   else if AssessedOn(e).Some? then s.ppe else [])
      && t.ergonomic == (if e.ErgonomicAssessed? then e.violations else if AssessedOn(e).Some? then s.ergonomic else [])
      && t.riskArea == (if e.RiskAreaAssessed? then e.violations else if AssessedOn(e).Some? then s.riskArea else [])
  {
    hide ObserveAlerts;
    match e
    case PpeAssessed(a, page, now) => ObservingKeepsSources(m, s.(ppe := ViolationsFor(a.requirements)), page, now);
    case ErgonomicAssessed(vs, page, now) => ObservingKeepsSources(m, s.(ergonomic := vs), page, now);
    case RiskAreaAssessed(vs, page, now) => ObservingKeepsSources(m, s.(riskArea := vs), page, now);
    case _ =>
  }

  // ---------------------------------------------------------------- one event

  /** The other engine on the same findings: the same thresholds, and no cooldown. */
  function SignalObserves(m: MonitorConfig, s: MonitorState, session: WorkSession, violations: seq<Violation>,
                          now: Time): EngineState
  {
    var cfg := Config(m.cfg.minConsecutive, m.cfg.minPersistence, m.cfg.resolution, 0, m.cfg.criticalAfter);
    Observe(cfg, m.safetyIds, s.safety, CycleInput(session, violations, now)).0
  }

  lemma ObservationTells(m: MonitorConfig, s: MonitorState, page: Page, now: Time)
    requires MonitorInv(m, s) && ValidPage(page) && page.active && page.session.Some?
    ensures var (t, r) := ObserveAlerts(m, s, page, now);
      var (a, u) := Observe(m.cfg, m.alertIds, s.alert, CycleInput(page.session.value, Combined(s), now));
      && t.alert == a
      && t.localUpdates == s.localUpdates + (if u.Ok? then Changes(u.value) else [])
      && t.safety == (if u.Ok? then SignalObserves(m, s, page.session.value, Combined(s), now) else s.safety)
      && r == if u.Ok? then Ok(()) else Err(u.error)
  {
    hide MonitorInv, Observe, Due, Emit;
    EmitsSnapshotsOnly();
    FindingsAreValid(m, s);
    SecondAccepts(m, s, CycleInput(page.session.value, Combined(s), now));
  }

  lemma FindingsAreValid(m: MonitorConfig, s: MonitorState)
    requires MonitorInv(m, s)
    ensures forall v :: v in Combined(s) ==> v.Valid()
  {
  }

  lemma EmitsSnapshotsOnly()
    ensures forall s: MonitorState, w: WorkSession, alerts: seq<Alert>, now: Time ::
      var t := Emit(s, w, alerts, now);
      t.alert == s.alert && t.safety == s.safety && t.localUpdates == s.localUpdates
  {
  }

  /** What one event does to the alert engine and tells the Admin. */
  lemma AdminStep(m: MonitorConfig, s: MonitorState, e: MonitorEvent)
    requires MonitorInv(m, s) && ValidMonitorEvent(e)
    ensures var (t, r) := MonitorStep(m, s, e);
      var on := AssessedOn(e);
      if on.Some? && on.value.0.active && on.value.0.session.Some? then
        var input := CycleInput(on.value.0.session.value, t.ppe + t.ergonomic + t.riskArea, on.value.1);
        var (a, u) := Observe(m.cfg, m.alertIds, s.alert, input);
        && t.alert == a
        && t.localUpdates == s.localUpdates + (if u.Ok? then Changes(u.value) else [])
        && t.safety == (if u.Ok? then SignalObserves(m, s, input.session, input.violations, input.now) else s.safety)
        && r == if u.Ok? then Ok(()) else Err(u.error)
      else
        && t.alert == (if e.Stopped? then Fresh(s.alert.drawn) else s.alert)
        && t.safety == (if e.Stopped? then Fresh(s.safety.drawn) else s.safety)
        && t.localUpdates == s.localUpdates && r == Ok(())
  {
    hide StateInv, InLockstep, ToldInv, Observe, Announced;
    EmitsSnapshotsOnly();
    match e
    case PpeAssessed(a, page, now) =>
      var x := s.(ppe := ViolationsFor(a.requirements));
      ViolationsForFacts(a.requirements);
      AssessmentTells(m, s, x, page, now);
    case ErgonomicAssessed(vs, page, now) => AssessmentTells(m, s, s.(ergonomic := vs), page, now);
    case RiskAreaAssessed(vs, page, now) => AssessmentTells(m, s, s.(riskArea := vs), page, now);
    case _ =>
  }

  lemma AssessmentTells(m: MonitorConfig, s: MonitorState, x: MonitorState, page: Page, now: Time)
    requires MonitorInv(m, s) && x == s.(ppe := x.ppe, ergonomic := x.ergonomic, riskArea := x.riskArea)
    requires ValidPage(page) && forall v :: v in Combined(x) ==> v.Valid()
    ensures var (t, r) := ObserveAlerts(m, x, page, now);
      && Combined(t) == Combined(x)
      && if page.active && page.session.Some? then
           var (a, u) := Observe(m.cfg, m.alertIds, s.alert, CycleInput(page.session.value, Combined(x), now));
           && t.alert == a
           && t.localUpdates == s.localUpdates + (if u.Ok? then Changes(u.value) else [])
           && t.safety == (if u.Ok? then SignalObserves(m, s, page.session.value, Combined(x), now) else s.safety)
           && r == if u.Ok? then Ok(()) else Err(u.error)
         else t == x && r == Ok(())
  {
    hide MonitorInv, Observe, Announced;
    NewSourcesKeep(m, s, x.ppe, x.ergonomic, x.riskArea);
    ObservingKeepsSources(m, x, page, now);
    if page.active && page.session.Some? {
      ObservationTells(m, x, page, now);
    }
  }

  // ---------------------------------------------------------------- the alert engine of a run

  ghost predicate Follows(r: MonitorRun, n: nat)
    requires r.Valid() && n <= |r.events|
  {
    var run := AdminRun(r, n);
    && run.Valid()
    && r.After(n).alert == run.StateAfter(|run.calls|)
    && r.After(n).localUpdates == Heard(run, |run.calls|)
  }

  lemma OneMoreCall(r: MonitorRun, i: nat, call: Call)
    requires r.Valid() && i < |r.events| && Follows(r, i) && Calls(r, i + 1) == Calls(r, i) + [call]
    requires call.Observation? ==> ValidInput(call.input)
    requires var (s, t) := (r.After(i), r.After(i + 1));
      match call
      case Observation(input) =>
        var (a, u) := Observe(r.m.cfg, r.m.alertIds, s.alert, input);
        t.alert == a && t.localUpdates == s.localUpdates + (if u.Ok? then Changes(u.value) else [])
      case WorkEnded => t.alert == Fresh(s.alert.drawn) && t.localUpdates == s.localUpdates
    ensures Follows(r, i + 1)
  {
    hide Observe, ValidInput, MonitorRun.After, Latest;
    var (a, b) := (AdminRun(r, i), AdminRun(r, i + 1));
    RunPrefix(a, b, |a.calls|);
  }

  lemma FollowsStart(r: MonitorRun)
    requires r.Valid()
    ensures Follows(r, 0)
  {
  }

  lemma ObservedIsValid(r: MonitorRun, i: nat)
    requires r.Valid() && i < |r.events| && Observed(r, i).Some? && MonitorInv(r.m, r.After(i + 1))
    ensures ValidInput(Observed(r, i).value)
  {
    hide MonitorRun.After, MonitorInv;
    FindingsAre(r, i + 1);
    FindingsAreValid(r.m, r.After(i + 1));
  }

  lemma FollowsNext(r: MonitorRun, i: nat)
    requires r.Valid() && i < |r.events| && MonitorInv(r.m, r.After(i)) && MonitorInv(r.m, r.After(i + 1))
    requires Follows(r, i)
    ensures Follows(r, i + 1)
  {
    hide MonitorInv, MonitorStep, Observe, ValidInput, Follows, ValidMonitorEvent;
    var x := Observed(r, i);
    AdminStep(r.m, r.After(i), r.events[i]);
    FindingsAre(r, i + 1);
    if x.Some? {
      ObservedIsValid(r, i);
      OneMoreCall(r, i, Observation(x.value));
    } else if r.events[i].Stopped? {
      OneMoreCall(r, i, WorkEnded);
    } else {
      NoCall(r, i);
    }
  }

  lemma NoCall(r: MonitorRun, i: nat)
    requires r.Valid() && i < |r.events| && Follows(r, i) && Calls(r, i + 1) == Calls(r, i)
    requires r.After(i + 1).alert == r.After(i).alert && r.After(i + 1).localUpdates == r.After(i).localUpdates
    ensures Follows(r, i + 1)
  {
  }

  lemma {:induction false} FollowsKept(r: MonitorRun, n: nat)
    requires r.Valid() && n <= |r.events|
    ensures Follows(r, n)
  {
    hide *;
    if n == 0 {
      FollowsStart(r);
    } else {
      FollowsKept(r, n - 1);
      r.InvKept(n - 1);
      r.InvKept(n);
      FollowsNext(r, n - 1);
    }
  }

  /**
   The alert engine of the controller is an engine that observes, in every assessment while monitoring is active,
   the latest findings of all three sources, and is reset by every stop; and the local updates are exactly the
   accepted updates of that engine that report something, in order.
   */
  lemma AdminEngineIsRun(r: MonitorRun, n: nat)
    requires r.Valid() && n <= |r.events|
    ensures var run := AdminRun(r, n);
      && run.Valid()
      && r.After(n).alert == run.StateAfter(|run.calls|)
      && r.After(n).localUpdates == Heard(run, |run.calls|)
  {
    hide MonitorRun.After, Calls, Heard, Run.StateAfter, Run.Valid;
    FollowsKept(r, n);
  }

  /** The answer of an assessment is that of its call. */
  lemma AnswerIsCall(r: MonitorRun, i: nat)
    requires r.Valid() && i < |r.events| && Observed(r, i).Some?
    ensures var (run, c) := (AdminRun(r, i + 1), |Calls(r, i)|);
      && run.Valid() && |run.calls| == c + 1 && run.calls[c] == Observation(Observed(r, i).value)
      && MonitorStep(r.m, r.After(i), r.events[i]).1
        == (if run.AnswerAt(c).Ok? then Ok(()) else Err(run.AnswerAt(c).error))
      && r.After(i + 1).localUpdates
        == r.After(i).localUpdates + (if run.AnswerAt(c).Ok? then Changes(run.AnswerAt(c).value) else [])
  {
    hide MonitorInv, Observe, ValidInput, Heard, Latest, ValidMonitorEvent, MonitorStep;
    r.InvKept(i);
    FollowsKept(r, i);
    FollowsKept(r, i + 1);
    FindingsAre(r, i + 1);
    AdminStep(r.m, r.After(i), r.events[i]);
    RunPrefix(AdminRun(r, i), AdminRun(r, i + 1), |Calls(r, i)|);
  }

  ghost predicate Says(updates: seq<Update>, k: ConditionKey, raised: bool, escalated: bool, resolved: bool) {
    && (raised <==> exists u, a :: u in updates && a in u.raised && a.Key() == k)
    && (escalated <==> exists u, a :: u in updates && a in u.escalated && a.Key() == k)
    && (resolved <==> exists u, a :: u in updates && a in u.resolved && a.Key() == k)
  }

  /**
   What an assessment makes the Admin hear about a key is exactly what the key's history in the findings observed
   since the last stop demands; nothing when the observation is refused.
   */
  lemma AdminHearsExactly(r: MonitorRun, i: nat, k: ConditionKey)
    requires r.Valid() && i < |r.events| && Observed(r, i).Some?
    ensures var (run, c) := (AdminRun(r, i + 1), |Calls(r, i)|);
      && c < |run.calls| && run.calls[c] == Observation(Observed(r, i).value)
      && r.After(i).localUpdates <= r.After(i + 1).localUpdates
      && var said := r.After(i + 1).localUpdates[|r.After(i).localUpdates|..];
      if MonitorStep(r.m, r.After(i), r.events[i]).1.Err? then said == []
      else
        var (hist, at) := (run.TraceAfter(c + 1).HistoryOf(k), run.LastCycle(c));
        Says(said, k, hist.MustRaise(at), hist.MustEscalate(at), hist.MustResolve(at))
  {
    hide MonitorInv, MonitorStep, Latest, ValidMonitorEvent, MonitorRun.After, Run.AnswerAt, Run.TraceAfter,
         Calls;
    AnswerIsCall(r, i);
    var (run, c) := (AdminRun(r, i + 1), |Calls(r, i)|);
    if run.AnswerAt(c).Ok? {
      run.RunCharacterisation(c, k);
      SaysMentions(run.TraceAfter(c + 1), run.AnswerAt(c).value, k);
    }
  }

  lemma SaysMentions(t: Trace, u: Update, k: ConditionKey)
    ensures Says(Changes(u), k, t.Mentions(u.raised, k), t.Mentions(u.escalated, k), t.Mentions(u.resolved, k))
  {
  }

  // ---------------------------------------------------------------- the engine of the signal device

  /** The calls on the safety-state engine: the observations that the alert engine accepts, and the resets. */
  ghost function SignalCalls(r: MonitorRun, n: nat): seq<Call>
    requires r.Valid() && n <= |r.events|
  {
    if n == 0 then []
    else
      var x := Observed(r, n - 1);
      SignalCalls(r, n - 1)
      + (if x.Some? && MonitorStep(r.m, r.After(n - 1), r.events[n - 1]).1.Ok? then [Observation(x.value)]
         else if r.events[n - 1].Stopped? then [WorkEnded] else [])
  }

  /** An engine with the same thresholds and no cooldown. */
  ghost function SignalRun(r: MonitorRun, n: nat): Run
    requires r.Valid() && n <= |r.events|
  {
    var cfg := r.m.cfg;
    Run(Config(cfg.minConsecutive, cfg.minPersistence, cfg.resolution, 0, cfg.criticalAfter), r.m.safetyIds,
        SignalCalls(r, n))
  }

  ghost predicate SignalFollows(r: MonitorRun, n: nat)
    requires r.Valid() && n <= |r.events|
  {
    var run := SignalRun(r, n);
    run.Valid() && r.After(n).safety == run.StateAfter(|run.calls|)
  }

  lemma OneMoreSignal(r: MonitorRun, i: nat, call: Call)
    requires r.Valid() && i < |r.events| && SignalFollows(r, i) && SignalCalls(r, i + 1) == SignalCalls(r, i) + [call]
    requires call.Observation? ==> ValidInput(call.input)
    requires var (s, t) := (r.After(i), r.After(i + 1));
      t.safety == match call
        case Observation(x) => SignalObserves(r.m, s, x.session, x.violations, x.now)
        case WorkEnded => Fresh(s.safety.drawn)
    ensures SignalFollows(r, i + 1)
  {
    hide Observe, ValidInput, MonitorRun.After, Latest;
    var (a, b) := (SignalRun(r, i), SignalRun(r, i + 1));
    RunPrefix(a, b, |a.calls|);
  }

  lemma NoSignal(r: MonitorRun, i: nat)
    requires r.Valid() && i < |r.events| && SignalFollows(r, i) && SignalCalls(r, i + 1) == SignalCalls(r, i)
    requires r.After(i + 1).safety == r.After(i).safety
    ensures SignalFollows(r, i + 1)
  {
  }

  lemma SignalStart(r: MonitorRun)
    requires r.Valid()
    ensures SignalFollows(r, 0)
  {
  }

  lemma SignalNext(r: MonitorRun, i: nat)
    requires r.Valid() && i < |r.events| && MonitorInv(r.m, r.After(i)) && MonitorInv(r.m, r.After(i + 1))
    requires SignalFollows(r, i)
    ensures SignalFollows(r, i + 1)
  {
    hide MonitorInv, MonitorStep, Observe, ValidInput, SignalFollows, ValidMonitorEvent, SignalObserves;
    var x := Observed(r, i);
    AdminStep(r.m, r.After(i), r.events[i]);
    FindingsAre(r, i + 1);
    if x.Some? && MonitorStep(r.m, r.After(i), r.events[i]).1.Ok? {
      ObservedIsValid(r, i);
      OneMoreSignal(r, i, Observation(x.value));
    } else if r.events[i].Stopped? {
      OneMoreSignal(r, i, WorkEnded);
    } else {
      NoSignal(r, i);
    }
  }

  lemma {:induction false} SignalKept(r: MonitorRun, n: nat)
    requires r.Valid() && n <= |r.events|
    ensures SignalFollows(r, n)
  {
    hide *;
    if n == 0 {
      SignalStart(r);
    } else {
      SignalKept(r, n - 1);
      r.InvKept(n - 1);
      r.InvKept(n);
      SignalNext(r, n - 1);
    }
  }

  /**
   The engine behind the signal device is an engine with the same thresholds and no cooldown that observes what
   the alert engine accepts, and is reset with it.
   */
  lemma SignalEngineIsRun(r: MonitorRun, n: nat)
    requires r.Valid() && n <= |r.events|
    ensures var run := SignalRun(r, n); run.Valid() && r.After(n).safety == run.StateAfter(|run.calls|)
  {
    hide MonitorRun.After, SignalCalls, Run.StateAfter, Run.Valid;
    SignalKept(r, n);
  }

  // ---------------------------------------------------------------- the Admin's picture

  /** What has gone out since monitoring was last stopped. */
  ghost function SinceStop(r: MonitorRun, n: nat): seq<Update>
    requires r.Valid() && n <= |r.events|
  {
    if n == 0 || r.events[n - 1].Stopped? then []
    else
      var (before, now) := (r.After(n - 1).localUpdates, r.After(n).localUpdates);
      SinceStop(r, n - 1) + (if |before| <= |now| then now[|before|..] else [])
  }

  /** The active alerts somebody knows of who has heard the updates from the first on. */
  function Picture(updates: seq<Update>): ActiveMap {
    if updates == [] then map[] else Replay(Picture(updates[..|updates| - 1]), updates[|updates| - 1])
  }

  lemma QuietAnswer(active: ActiveMap, u: Update)
    ensures Changes(u) == [] ==> Replay(active, u) == active
  {
    if Changes(u) == [] {
      QuietUpdate(active, u);
    }
  }

  lemma ObservationReplays(cfg: Config, draw: nat -> AlertId, st: EngineState, input: CycleInput)
    requires StateInv(cfg, st) && ValidInput(input)
    ensures var (a, u) := Observe(cfg, draw, st, input);
      ActiveOf(a.states) == if u.Ok? then Replay(ActiveOf(st.states), u.value) else ActiveOf(st.states)
  {
    hide StateInv, Replay, ActiveOf;
    ObserveInv(cfg, draw, st, input);
    StateInvShape(cfg, st);
    if Observe(cfg, draw, st, input).1.Ok? {
      ReplayOneCycle(cfg, draw, st, input);
    }
  }

  ghost predicate Pictured(r: MonitorRun, n: nat)
    requires r.Valid() && n <= |r.events|
  {
    Picture(SinceStop(r, n)) == ActiveOf(r.After(n).alert.states)
  }

  lemma PictureExtends(updates: seq<Update>, more: seq<Update>)
    requires |more| <= 1
    ensures Picture(updates + more) == if more == [] then Picture(updates) else Replay(Picture(updates), more[0])
  {
    if more == [] {
      assert updates + more == updates;
    } else {
      assert (updates + more)[..|updates|] == updates;
    }
  }

  lemma SinceStopNext(r: MonitorRun, i: nat, more: seq<Update>)
    requires r.Valid() && i < |r.events| && !r.events[i].Stopped?
    requires r.After(i + 1).localUpdates == r.After(i).localUpdates + more
    ensures SinceStop(r, i + 1) == SinceStop(r, i) + more
  {
  }

  lemma PicturedNext(r: MonitorRun, i: nat)
    requires r.Valid() && i < |r.events| && MonitorInv(r.m, r.After(i)) && MonitorInv(r.m, r.After(i + 1))
    requires Pictured(r, i)
    ensures Pictured(r, i + 1)
  {
    hide MonitorInv, MonitorStep, Observe, ValidInput, ValidMonitorEvent, Replay, Changes, Picture, SinceStop, ActiveOf;
    var (s, t, x) := (r.After(i), r.After(i + 1), Observed(r, i));
    AdminStep(r.m, s, r.events[i]);
    FindingsAre(r, i + 1);
    if x.Some? {
      ObservedIsValid(r, i);
      AlertStateInv(r.m, s);
      ObservationReplays(r.m.cfg, r.m.alertIds, s.alert, x.value);
      var u := Observe(r.m.cfg, r.m.alertIds, s.alert, x.value).1;
      var more := if u.Ok? then Changes(u.value) else [];
      SinceStopNext(r, i, more);
      AtMostOne(u);
      PictureExtends(SinceStop(r, i), more);
      if u.Ok? {
        QuietAnswer(ActiveOf(s.alert.states), u.value);
      }
    } else if r.events[i].Stopped? {
      NothingPictured(r, i + 1);
    } else {
      SinceStopNext(r, i, []);
      PictureExtends(SinceStop(r, i), []);
    }
  }

  lemma AtMostOne(u: Result<Update, EngineError>)
    ensures u.Ok? && Changes(u.value) != [] ==> Changes(u.value) == [u.value]
  {
  }

  lemma AlertStateInv(m: MonitorConfig, s: MonitorState)
    requires MonitorInv(m, s)
    ensures StateInv(m.cfg, s.alert)
  {
  }

  lemma NothingPictured(r: MonitorRun, n: nat)
    requires r.Valid() && n <= |r.events| && (n == 0 || r.events[n - 1].Stopped?)
    requires r.After(n).alert.states == map[]
    ensures Pictured(r, n)
  {
  }

  lemma {:induction false} PicturedKept(r: MonitorRun, n: nat)
    requires r.Valid() && n <= |r.events|
    ensures Pictured(r, n)
  {
    hide *;
    if n == 0 {
      NoAlertsYet(r);
      NothingPictured(r, 0);
    } else {
      PicturedKept(r, n - 1);
      r.InvKept(n - 1);
      r.InvKept(n);
      PicturedNext(r, n - 1);
    }
  }

  lemma NoAlertsYet(r: MonitorRun)
    requires r.Valid()
    ensures r.After(0).alert.states == map[]
  {
  }

  /**
   The local updates are enough: whoever applies those sent since the last stop, one after the other and starting
   from nothing, holds exactly the active alerts of the alert engine, after every event of every run.
   */
  lemma LocalUpdatesReplay(r: MonitorRun, n: nat)
    requires r.Valid() && n <= |r.events|
    ensures Picture(SinceStop(r, n)) == ActiveOf(r.After(n).alert.states)
  {
    hide MonitorRun.After, Picture, SinceStop, ActiveOf;
    PicturedKept(r, n);
  }

  // ---------------------------------------------------------------- how old the device's picture can be

  /** Right after an accepted observation the last snapshot is younger than the interval. */
  lemma DeviceToldInTime(r: MonitorRun, i: nat)
    requires r.Valid() && i < |r.events| && r.m.syncInterval > 0
    requires Observed(r, i).Some? && MonitorStep(r.m, r.After(i), r.events[i]).1.Ok?
    ensures var s := r.After(i + 1);
      s.snapshots != [] && Observed(r, i).value.now < LastSnapshot(s).observedAt + r.m.syncInterval
  {
    hide MonitorInv, MonitorStep;
    r.InvKept(i);
    r.InvKept(i + 1);
    SyncedInTime(r.m, r.After(i), r.events[i]);
    LastSyncIsSnapshot(r.m, r.After(i + 1));
  }

  lemma LastSyncIsSnapshot(m: MonitorConfig, s: MonitorState)
    requires MonitorInv(m, s) && s.lastSync.Some?
    ensures s.snapshots != [] && LastSnapshot(s).observedAt == s.lastSync.value
  {
  }

  lemma SyncedInTime(m: MonitorConfig, s: MonitorState, e: MonitorEvent)
    requires MonitorInv(m, s) && ValidMonitorEvent(e) && m.syncInterval > 0
    requires var on := AssessedOn(e); on.Some? && on.value.0.active && on.value.0.session.Some?
    requires MonitorStep(m, s, e).1.Ok?
    ensures var t := MonitorStep(m, s, e).0;
      t.lastSync.Some? && AssessedOn(e).value.1 - t.lastSync.value < m.syncInterval
  {
    hide StateInv, InLockstep, ToldInv, ObserveAlerts;
    match e
    case PpeAssessed(a, page, now) =>
      ViolationsForFacts(a.requirements);
      AssessmentSynced(m, s, s.(ppe := ViolationsFor(a.requirements)), page, now);
    case ErgonomicAssessed(vs, page, now) => AssessmentSynced(m, s, s.(ergonomic := vs), page, now);
    case RiskAreaAssessed(vs, page, now) => AssessmentSynced(m, s, s.(riskArea := vs), page, now);
    case _ =>
  }

  lemma AssessmentSynced(m: MonitorConfig, s: MonitorState, x: MonitorState, page: Page, now: Time)
    requires MonitorInv(m, s) && x == s.(ppe := x.ppe, ergonomic := x.ergonomic, riskArea := x.riskArea)
    requires ValidPage(page) && m.syncInterval > 0 && forall v :: v in Combined(x) ==> v.Valid()
    requires page.active && page.session.Some? && ObserveAlerts(m, x, page, now).1.Ok?
    ensures var t := ObserveAlerts(m, x, page, now).0; t.lastSync.Some? && now - t.lastSync.value < m.syncInterval
  {
    hide MonitorInv, ObserveAlerts;
    NewSourcesKeep(m, s, x.ppe, x.ergonomic, x.riskArea);
    ObservationSynced(m, x, page, now);
  }

  lemma ObservationSynced(m: MonitorConfig, s: MonitorState, page: Page, now: Time)
    requires MonitorInv(m, s) && ValidPage(page) && m.syncInterval > 0
    requires page.active && page.session.Some? && ObserveAlerts(m, s, page, now).1.Ok?
    ensures var t := ObserveAlerts(m, s, page, now).0; t.lastSync.Some? && now - t.lastSync.value < m.syncInterval
  {
    hide MonitorInv, Observe;
    FindingsAreValid(m, s);
    SecondAccepts(m, s, CycleInput(page.session.value, Combined(s), now));
  }
}
