/**
 Two engines on the same observations, one with the alert cooldown and one without: the engine
 without cooldown never shows less than the other.
 */
module Lockstep {
  import opened Wrappers
  import opened WorkSessions
  import opened SafetyAlerts
  import opened AlertCycles
  import opened AlertTiming
  import opened AlertTrace
  import opened AlertDeltas

  function WithoutCooldown(cfg: Config): Config {
    cfg.(cooldown := 0)
  }

  /** `t` is the timing under the cooldown, `u` the timing without it. */
  ghost predicate Covers(t: Timing, u: Timing, last: Option<Time>) {
    && t.first == u.first && t.consecutive == u.consecutive
    && (t.open ==> u.open && u.clear == t.clear && (u.warning ==> t.warning))
    && (u.next.Some? ==> last.Some? && u.next.value <= last.value)
    && (!t.open ==> !t.warning) && (!u.open ==> !u.warning)
  }

  lemma CoversStep(cfg: Config, t: Timing, u: Timing, last: Option<Time>, x: Observation)
    requires cfg.Valid() && Covers(t, u, last)
    requires last.Some? ==> last.value <= x.now
    ensures Covers(Step(cfg, t, x).0, Step(WithoutCooldown(cfg), u, x).0, Some(x.now))
  {
  }

  /** Over every history: an alert open under the cooldown is open without it, as critical and as far from clearing. */
  lemma {:induction false} CoversAlways(cfg: Config, xs: seq<Observation>, n: nat)
    requires n <= |xs| && History(cfg, xs).Valid()
    ensures Covers(History(cfg, xs).After(n), History(WithoutCooldown(cfg), xs).After(n),
                   if n == 0 then None else Some(xs[n - 1].now))
  {
    if n > 0 {
      CoversAlways(cfg, xs, n - 1);
      History(cfg, xs).OneStep(n - 1, History(cfg, xs).After(n - 1));
      History(WithoutCooldown(cfg), xs).OneStep(n - 1, History(WithoutCooldown(cfg), xs).After(n - 1));
      assert n > 1 ==> xs[n - 2].now <= xs[n - 1].now;
      CoversStep(cfg, History(cfg, xs).After(n - 1), History(WithoutCooldown(cfg), xs).After(n - 1),
                 if n == 1 then None else Some(xs[n - 2].now), xs[n - 1]);
    }
  }

  // ---------------------------------------------------------------- two engine states

  function TimingIn(st: EngineState, k: ConditionKey): Timing {
    TimingOf(Get(st.states, k))
  }

  /** `a` is the alert engine's state, `b` the safety-state engine's. */
  ghost predicate InLockstep(a: EngineState, b: EngineState) {
    && (b.last.Some? ==> a.last.Some? && b.last.value <= a.last.value)
    && (b.session.Some? ==> a.session == b.session)
    && (b.last.None? <==> b.session.None?)
    && forall k :: Covers(TimingIn(a, k), TimingIn(b, k), b.last)
  }

  /** What the alert engine accepts, the safety-state engine accepts too. */
  lemma BothAccept(a: EngineState, b: EngineState, input: CycleInput)
    requires InLockstep(a, b) && Refusal(a, input).None?
    ensures Refusal(b, input).None?
  {
  }

  lemma LockstepAt(cfg: Config, draw: nat -> AlertId, draw': nat -> AlertId, a: EngineState, b: EngineState,
                   input: CycleInput, k: ConditionKey)
    requires cfg.Valid() && InLockstep(a, b) && ShapeInv(a) && ShapeInv(b)
    requires Refusal(a, input).None? && DistinctKeys(input.violations)
    ensures Covers(TimingIn(Cycle(cfg, draw, a, input).0, k),
                   TimingIn(Cycle(WithoutCooldown(cfg), draw', b, input).0, k), Some(input.now))
  {
    var cfg' := WithoutCooldown(cfg);
    BothAccept(a, b, input);
    CycleAt(cfg, draw, a, input, k);
    CycleAt(cfg', draw', b, input, k);
    var v := Lookup(input.violations, k);
    KeyStepTiming(ContextOf(cfg, draw, input), Get(a.states, k), v, draw(IdFor(cfg, draw, a, input, k)));
    KeyStepTiming(ContextOf(cfg', draw', input), Get(b.states, k), v, draw'(IdFor(cfg', draw', b, input, k)));
    CoversStep(cfg, TimingIn(a, k), TimingIn(b, k), b.last, AlertTiming.Observation(v.Some?, input.now));
  }

  lemma LockstepKept(cfg: Config, draw: nat -> AlertId, draw': nat -> AlertId, a: EngineState, b: EngineState,
                     input: CycleInput)
    requires cfg.Valid() && InLockstep(a, b) && ShapeInv(a) && ShapeInv(b)
    requires Refusal(a, input).None? && DistinctKeys(input.violations)
    ensures InLockstep(Cycle(cfg, draw, a, input).0, Cycle(WithoutCooldown(cfg), draw', b, input).0)
  {
    forall k
      ensures Covers(TimingIn(Cycle(cfg, draw, a, input).0, k),
                     TimingIn(Cycle(WithoutCooldown(cfg), draw', b, input).0, k), Some(input.now))
    {
      LockstepAt(cfg, draw, draw', a, b, input, k);
    }
  }

  /** The alerts of the cooldown engine, seen in the other one. */
  lemma NeverMilder(a: EngineState, b: EngineState, k: ConditionKey)
    requires InLockstep(a, b) && k in ActiveOf(a.states)
    ensures k in ActiveOf(b.states)
    ensures b.states[k].clear == a.states[k].clear
    ensures ActiveOf(a.states)[k].violation.severity == Critical ==>
      ActiveOf(b.states)[k].violation.severity == Critical
  {
    assert Covers(TimingIn(a, k), TimingIn(b, k), b.last);
  }
}
