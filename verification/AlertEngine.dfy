/** The alert engine: an object whose `Observe` updates its dictionary of conditions in two loops. */
module AlertEngines {
  import opened Wrappers
  import opened WorkSessions
  import opened SafetyAlerts
  import opened AlertCycles

  class AlertEngine {
    const cfg: Config
    const draw: nat -> AlertId   // the id factory: what its n-th call returns

    var states: Conditions
    var order: seq<ConditionKey>
    var workSessionId: Option<nat>
    var lastObservedAt: Option<Time>
    var drawn: nat

    ghost function Model(): EngineState
      reads this
    {
      EngineState(states, order, workSessionId, lastObservedAt, drawn)
    }

    ghost predicate Valid()
      reads this
    {
      StateInv(cfg, Model())
    }

    constructor (cfg: Config, draw: nat -> AlertId)
      requires cfg.Valid()
      ensures Valid() && this.cfg == cfg && this.draw == draw
      ensures Model() == Fresh(0)
    {
      this.cfg, this.draw := cfg, draw;
      states, order, workSessionId, lastObservedAt, drawn := map[], [], None, None, 0;
    }

    /** Discards all local state; the id factory goes on from where it was. */
    method Reset()
      requires Valid()
      modifies this
      ensures Valid() && Model() == Fresh(old(drawn))
    {
      states, order, workSessionId, lastObservedAt := map[], [], None, None;
    }

    method NormalizeViolations(violations: seq<Violation>) returns (r: Result<set<ConditionKey>, EngineError>)
      ensures r.Ok? <==> FirstDuplicate(violations).None?
      ensures r.Ok? ==> r.value == KeysOf(violations)
      ensures r.Err? ==> r.error == DuplicateViolation(FirstDuplicate(violations).value)
    {
      var keys: set<ConditionKey> := {};
      for i := 0 to |violations|
        invariant keys == KeysOf(violations[..i])
        invariant FirstDuplicate(violations[..i]).None?
      {
        var key := violations[i].Key();
        assert violations[..i + 1][..i] == violations[..i];
        if key in keys {
          FirstDuplicateOfPrefix(violations, i + 1);
          return Err(DuplicateViolation(key));
        }
        keys := keys + {key};
      }
      assert violations[..|violations|] == violations;
      r := Ok(keys);
    }

    method RaiseAlert(session: WorkSession, state: Condition, raisedAt: Time) returns (alert: Alert)
      requires state.firstObservedAt.Some?
      modifies this`drawn
      ensures alert == NewAlert(Context(cfg, draw, session, raisedAt), state, draw(old(drawn)))
      ensures drawn == old(drawn) + 1
    {
      var id := draw(drawn);
      drawn := drawn + 1;
      var violation := state.violation.(severity := TemporalSeverity(cfg, state.firstObservedAt.value, raisedAt));
      alert := Alert(id, session.sessionId, session.operatorId, session.operationId, session.cameraId,
                     session.riskAreaId, violation, state.firstObservedAt.value, raisedAt, None, ActiveAlert);
    }

    /** One pass of the first loop: one reported violation. */
    method See(session: WorkSession, violation: Violation, now: Time)
      returns (raised: Option<Alert>, escalated: Option<Alert>)
      modifies this`states, this`order, this`drawn
      ensures var p := SeeOne(Context(cfg, draw, session, now),
                              Progress(old(states), old(order), old(drawn), [], []), violation);
        && states == p.states && order == p.order && drawn == p.drawn
        && p.raised == (if raised.Some? then [raised.value] else [])
        && p.escalated == (if escalated.Some? then [escalated.value] else [])
    {
      raised, escalated := None, None;
      var key := violation.Key();
      var state := Condition(violation, None, 0, 0, None, None);
      if key in states {
        state := states[key];
      } else {
        order := order + [key];
      }
      state := state.(violation := violation);
      state := state.(clear := 0);
      if state.firstObservedAt.None? {
        state := state.(firstObservedAt := Some(now), consecutive := 1);
      } else {
        state := state.(consecutive := state.consecutive + 1);
      }
      if state.active.None? && CanRaise(cfg, state, now) {
        var alert := RaiseAlert(session, state, now);
        state := state.(active := Some(alert));
        raised := Some(alert);
      } else if state.active.Some? {
        var severity := TemporalSeverity(cfg, state.firstObservedAt.value, now);
        if state.active.value.violation.severity == Warning && severity == Critical {
          var alert := state.active.value.WithSeverity(severity);
          state := state.(active := Some(alert));
          escalated := Some(alert);
        }
      }
      states := states[key := state];
    }

    /** One pass of the second loop: one tracked key that is not reported in this cycle. */
    method Clear(key: ConditionKey, session: WorkSession, now: Time) returns (resolved: Option<Alert>)
      requires key in states
      requires states[key].active.Some? ==>
        states[key].active.value.Valid() && states[key].active.value.status.ActiveAlert?
          && states[key].active.value.raisedAt <= now
      modifies this`states
      ensures var (c, o) := AbsentStep(Context(cfg, draw, session, now), old(states)[key]);
        && states == old(states)[key := c]
        && resolved == ResolvedOf(o)
    {
      resolved := None;
      var state := states[key].(consecutive := 0, firstObservedAt := None);
      if state.active.None? {
        state := state.(clear := 0);
      } else {
        state := state.(clear := state.clear + 1);
        if state.clear >= cfg.resolution {
          // `Resolve` cannot refuse: the alert is active and was raised no later than now.
          var closed := state.active.value.Resolve(now);
          resolved := Some(closed.value);
          state := state.(active := None, clear := 0, nextRaiseAllowedAt := Some(now + cfg.cooldown));
        }
      }
      states := states[key := state];
    }

    method Active() returns (alerts: seq<Alert>)
      ensures alerts == ActiveAlerts(states, order)
    {
      alerts := ActiveAlerts(states, order);
    }

    /** The first loop: every reported violation, in the order given. */
    method SeeViolations(session: WorkSession, violations: seq<Violation>, now: Time)
      returns (raised: seq<Alert>, escalated: seq<Alert>)
      modifies this`states, this`order, this`drawn
      ensures Progress(states, order, drawn, raised, escalated)
        == SeeAll(Context(cfg, draw, session, now), Progress(old(states), old(order), old(drawn), [], []), violations)
    {
      ghost var cx := Context(cfg, draw, session, now);
      ghost var p0 := Progress(states, order, drawn, [], []);
      raised, escalated := [], [];
      for i := 0 to |violations|
        invariant Progress(states, order, drawn, raised, escalated) == SeeAll(cx, p0, violations[..i])
      {
        assert violations[..i + 1][..i] == violations[..i];
        var up, worse := See(session, violations[i], now);
        raised := raised + (if up.Some? then [up.value] else []);
        escalated := escalated + (if worse.Some? then [worse.value] else []);
      }
      assert violations[..|violations|] == violations;
    }

    /** The second loop: every tracked key that was not reported, in dictionary order. */
    method ClearMissing(session: WorkSession, current: set<ConditionKey>, now: Time) returns (resolved: seq<Alert>)
      requires NoRepeats(order) && forall k :: k in order ==> k in states
      requires forall k :: k in states && k !in current && states[k].active.Some? ==>
        states[k].active.value.Valid() && states[k].active.value.status.ActiveAlert?
          && states[k].active.value.raisedAt <= now
      modifies this`states
      ensures Clearing(states, resolved)
        == ClearAll(Context(cfg, draw, session, now), current, Clearing(old(states), []), order)
    {
      ghost var cx := Context(cfg, draw, session, now);
      ghost var q0 := Clearing(states, []);
      resolved := [];
      for i := 0 to |order|
        invariant states.Keys == q0.states.Keys
        invariant Clearing(states, resolved) == ClearAll(cx, current, q0, order[..i])
        invariant forall j :: i <= j < |order| ==> states[order[j]] == q0.states[order[j]]
      {
        assert order[..i + 1][..i] == order[..i];
        var key := order[i];
        if key !in current {
          var done := Clear(key, session, now);
          resolved := resolved + (if done.Some? then [done.value] else []);
        }
      }
      assert order[..|order|] == order;
    }

    /** Processes the complete set of violations seen for one work session at one moment. */
    method Observe(session: WorkSession, violations: seq<Violation>, now: Time) returns (r: Result<Update, EngineError>)
      requires Valid() && ValidInput(CycleInput(session, violations, now))
      modifies this
      ensures Valid()
      ensures (Model(), r) == AlertCycles.Observe(cfg, draw, old(Model()), CycleInput(session, violations, now))
    {
      ghost var input := CycleInput(session, violations, now);
      ghost var st := Model();
      ObserveInv(cfg, draw, st, input);

      if !session.IsActive() { return Err(InactiveSession); }
      if now < session.startedAt { return Err(BeforeSessionStart); }
      if lastObservedAt.Some? && now < lastObservedAt.value { return Err(TimeWentBack); }
      if workSessionId.None? {
        workSessionId := Some(session.sessionId);
      } else if workSessionId.value != session.sessionId {
        return Err(SessionChanged);
      }
      lastObservedAt := Some(now);

      var current := NormalizeViolations(violations);
      if current.Err? {
        return Err(current.error);
      }
      SeenReady(cfg, draw, st, input);
      var raised, escalated := SeeViolations(session, violations, now);
      var resolved := ClearMissing(session, current.value, now);
      var active := Active();
      r := Ok(Update(raised, resolved, active, escalated));
    }
  }

  /** After the first loop, every alert that the second loop may close can be closed. */
  lemma SeenReady(cfg: Config, draw: nat -> AlertId, st: EngineState, input: CycleInput)
    requires StateInv(cfg, st) && Refusal(st, input).None? && FirstDuplicate(input.violations).None?
    ensures var p := Seen(cfg, draw, st, input);
      && NoRepeats(p.order) && (forall k :: k in p.order ==> k in p.states)
      && forall k :: k in p.states && k !in KeysOf(input.violations) && p.states[k].active.Some? ==>
        var a := p.states[k].active.value; a.Valid() && a.status.ActiveAlert? && a.raisedAt <= input.now
  {
    StateInvShape(cfg, st);
    FirstDuplicateNone(input.violations);
    SeeAllShape(ContextOf(cfg, draw, input), Progress(st.states, st.order, st.drawn, [], []), input.violations);
    var p := Seen(cfg, draw, st, input);
    forall k | k in p.states && k !in KeysOf(input.violations)
      ensures k in st.states && p.states[k] == st.states[k]
    {
      SeenAt(cfg, draw, st, input, k);
    }
  }

  lemma {:induction false} FirstDuplicateOfPrefix(vs: seq<Violation>, n: nat)
    requires n <= |vs| && FirstDuplicate(vs[..n]).Some?
    ensures FirstDuplicate(vs) == FirstDuplicate(vs[..n])
    decreases |vs|
  {
    if n < |vs| {
      assert vs[..|vs| - 1][..n] == vs[..n];
      FirstDuplicateOfPrefix(vs[..|vs| - 1], n);
    } else {
      assert vs[..n] == vs;
    }
  }
}
