/**
 The part of the alert engine that decides when: what one key sees of the cycles is whether
 its violation is present and what time it is. Alert identities and payloads play no part here.
 */
module AlertTiming {
  import opened Wrappers
  import opened WorkSessions
  import opened SafetyAlerts
  import opened AlertCycles

  datatype Event = Nothing | Raise | Escalate | Resolve

  /** `open`: an alert is active; `warning`: it is, with severity warning. */
  datatype Timing = Timing(
    first: Option<Time>,
    consecutive: nat,
    clear: nat,
    open: bool,
    warning: bool,
    next: Option<Time>)

  const UNTRACKED := Timing(None, 0, 0, false, false, None)

  datatype Observation = Observation(present: bool, now: Time)

  function Step(cfg: Config, t: Timing, x: Observation): (Timing, Event) {
    if x.present then
      var first := if t.first.Some? then t.first.value else x.now;
      var n := t.(first := Some(first), consecutive := if t.first.Some? then t.consecutive + 1 else 1, clear := 0);
      var critical := x.now - first >= cfg.criticalAfter;
      if !t.open && n.consecutive >= cfg.minConsecutive && x.now - first >= cfg.minPersistence
         && (t.next.None? || x.now >= t.next.value) then
        (n.(open := true, warning := !critical), Raise)
      else if t.open && t.warning && critical then
        (n.(warning := false), Escalate)
      else
        (n, Nothing)
    else
      var n := t.(first := None, consecutive := 0);
      if !t.open then (n.(clear := 0), Nothing)
      else if t.clear + 1 < cfg.resolution then (n.(clear := t.clear + 1), Nothing)
      else (n.(open := false, warning := false, clear := 0, next := Some(x.now + cfg.cooldown)), Resolve)
  }

  function TimingOf(c: Option<Condition>): Timing {
    if c.None? then UNTRACKED
    else
      var open := c.value.active.Some?;
      Timing(c.value.firstObservedAt, c.value.consecutive, c.value.clear, open,
             open && c.value.active.value.violation.severity == Warning, c.value.nextRaiseAllowedAt)
  }

  function EventOf(o: Outcome): Event {
    match o
    case Quiet => Nothing
    case Raised(_) => Raise
    case Escalated(_) => Escalate
    case Resolved(_) => Resolve
  }

  /** The engine's step of a key is a step of its timing. */
  lemma KeyStepTiming(cx: Context, c: Option<Condition>, v: Option<Violation>, id: AlertId)
    ensures var (n, o) := KeyStep(cx, c, v, id);
      (TimingOf(n), EventOf(o)) == Step(cx.cfg, TimingOf(c), Observation(v.Some?, cx.now))
  {
  }

  /** A history of observations of one key, oldest first. */
  datatype History = History(cfg: Config, xs: seq<Observation>)
  {
    ghost predicate Valid() {
      cfg.Valid() && forall i, j :: 0 <= i < j < |xs| ==> xs[i].now <= xs[j].now
    }

    function After(n: nat): Timing
      requires n <= |xs|
    {
      if n == 0 then UNTRACKED else Step(cfg, After(n - 1), xs[n - 1]).0
    }

    function EventAt(i: int): Event {
      if 0 <= i < |xs| then Step(cfg, After(i), xs[i]).1 else Nothing
    }

    lemma OneStep(i: nat, t: Timing)
      requires i < |xs| && After(i) == t
      ensures After(i + 1) == Step(cfg, t, xs[i]).0 && EventAt(i) == Step(cfg, t, xs[i]).1
    {
    }

    predicate Present(i: int) {
      0 <= i < |xs| && xs[i].present
    }

    /** The first cycle of the unbroken stretch of presence that contains cycle `i`. */
    function StreakStart(i: nat): (j: nat)
      requires Present(i)
      ensures j <= i && !Present(j - 1)
      ensures forall m :: j <= m <= i ==> Present(m)
    {
      if Present(i - 1) then StreakStart(i - 1) else i
    }

    function StreakLength(i: nat): nat
      requires Present(i)
    {
      i + 1 - StreakStart(i)
    }

    function StreakDuration(i: nat): Time
      requires Present(i)
    {
      xs[i].now - xs[StreakStart(i)].now
    }

    /** Raised at cycle `j` and not resolved in the cycles after it and before `n`. */
    ghost predicate OpenSince(j: int, n: int) {
      0 <= j < n && EventAt(j) == Raise && forall m :: j < m < n ==> EventAt(m) != Resolve
    }

    ghost predicate OpenBefore(n: int) {
      exists j :: OpenSince(j, n)
    }

    /** Open, raised as a warning, and not escalated before `n`. */
    ghost predicate WarningSince(j: int, n: int) {
      && OpenSince(j, n)
      && Present(j) && StreakDuration(j) < cfg.criticalAfter
      && forall m :: j < m < n ==> EventAt(m) != Escalate
    }

    ghost predicate WarningBefore(n: int) {
      exists j :: WarningSince(j, n)
    }

    /** Every resolution before cycle `n` is at least the cooldown older than `now`. */
    ghost predicate CooledDown(n: int, now: Time) {
      forall j :: 0 <= j < n && j < |xs| && EventAt(j) == Resolve ==> now >= xs[j].now + cfg.cooldown
    }

    /** Streak length, streak duration and cooldown since the last resolution. */
    ghost predicate MustRaise(i: int) {
      && Present(i) && !OpenBefore(i)
      && StreakLength(i) >= cfg.minConsecutive
      && StreakDuration(i) >= cfg.minPersistence
      && CooledDown(i, xs[i].now)
    }

    /** The current streak, not the age of the alert, reaches the critical duration. */
    ghost predicate MustEscalate(i: int) {
      Present(i) && WarningBefore(i) && StreakDuration(i) >= cfg.criticalAfter
    }

    ghost predicate MustResolve(i: int) {
      0 <= i < |xs| && OpenBefore(i) && forall j :: i - cfg.resolution < j <= i ==> !Present(j)
    }

    // -------------------------------------------------------------- what the state remembers

    ghost predicate StreakInv(n: nat)
      requires n <= |xs|
    {
      if Present(n - 1) then
        After(n).first == Some(xs[StreakStart(n - 1)].now) && After(n).consecutive == StreakLength(n - 1)
      else
        After(n).first.None? && After(n).consecutive == 0
    }

    lemma {:induction false} StreakKept(n: nat)
      requires Valid() && n <= |xs|
      ensures StreakInv(n)
    {
      if n > 0 {
        StreakKept(n - 1);
      }
    }

    lemma OpenFromBefore(i: nat)
      requires i < |xs| && OpenBefore(i + 1) && EventAt(i) != Raise
      ensures OpenBefore(i) && EventAt(i) != Resolve
    {
      var j :| OpenSince(j, i + 1);
      assert OpenSince(j, i);
    }

    lemma OpenNext(i: nat)
      requires i < |xs|
      ensures OpenBefore(i + 1) <==> EventAt(i) == Raise || (OpenBefore(i) && EventAt(i) != Resolve)
    {
      var e := EventAt(i);
      if e == Raise {
        assert OpenSince(i, i + 1);
      } else if OpenBefore(i) && e != Resolve {
        var j :| OpenSince(j, i);
        assert OpenSince(j, i + 1);
      }
      if OpenBefore(i + 1) && e != Raise {
        OpenFromBefore(i);
      }
    }

    lemma {:induction false} OpenKept(n: nat)
      requires Valid() && n <= |xs|
      ensures OpenBefore(n) <==> After(n).open
    {
      if n > 0 {
        OpenKept(n - 1);
        OpenNext(n - 1);
        OneStep(n - 1, After(n - 1));
      }
    }

    /** While an alert is open, the clear counter is the number of cycles since the last presence. */
    ghost predicate ClearInv(n: nat)
      requires n <= |xs|
    {
      var t := After(n);
      if t.open then
        && t.clear < cfg.resolution && t.clear < n
        && Present(n - 1 - t.clear)
        && forall m :: n - t.clear <= m < n ==> !Present(m)
      else t.clear == 0
    }

    lemma {:induction false} ClearKept(n: nat)
      requires Valid() && n <= |xs|
      ensures ClearInv(n)
    {
      if n > 0 {
        ClearKept(n - 1);
      }
    }

    ghost predicate CooldownInv(n: nat, now: Time)
      requires n <= |xs|
    {
      CooledDown(n, now) <==> After(n).next.None? || now >= After(n).next.value
    }

    /** The next raise is never allowed later than the last cycle plus the cooldown. */
    lemma {:induction false} NextRaiseBound(n: nat)
      requires Valid() && n <= |xs|
      ensures After(n).next.Some? ==> n > 0 && After(n).next.value <= xs[n - 1].now + cfg.cooldown
    {
      if n > 0 {
        NextRaiseBound(n - 1);
        assert n > 1 ==> xs[n - 2].now <= xs[n - 1].now;
      }
    }

    lemma CooledDownNext(i: nat, now: Time)
      requires i < |xs|
      ensures CooledDown(i + 1, now) <==>
        CooledDown(i, now) && (EventAt(i) == Resolve ==> now >= xs[i].now + cfg.cooldown)
    {
      var e := EventAt(i);
      if CooledDown(i, now) && (e == Resolve ==> now >= xs[i].now + cfg.cooldown) {
        forall j | 0 <= j < i + 1 && j < |xs| && EventAt(j) == Resolve
          ensures now >= xs[j].now + cfg.cooldown
        {
          if j == i {
            assert e == Resolve;
          }
        }
      }
    }

    lemma CooldownNext(i: nat, now: Time)
      requires Valid() && i < |xs| && CooldownInv(i, now)
      ensures CooldownInv(i + 1, now)
    {
      CooledDownNext(i, now);
      NextRaiseBound(i);
      OneStep(i, After(i));
      assert i > 0 ==> xs[i - 1].now <= xs[i].now;
    }

    lemma CooldownStart(now: Time)
      ensures CooldownInv(0, now)
    {
    }

    lemma {:induction false} CooldownKept(n: nat, now: Time)
      requires Valid() && n <= |xs|
      ensures CooldownInv(n, now)
    {
      hide *;
      if n == 0 {
        CooldownStart(now);
      } else {
        CooldownKept(n - 1, now);
        CooldownNext(n - 1, now);
      }
    }

    lemma WarningNext(n: nat)
      requires n < |xs| && EventAt(n) == Raise ==> !OpenBefore(n)
      ensures WarningBefore(n + 1) <==>
        || (n < |xs| && EventAt(n) == Raise && Present(n) && StreakDuration(n) < cfg.criticalAfter)
        || (WarningBefore(n) && EventAt(n) != Resolve && EventAt(n) != Escalate)
    {
      if n < |xs| && EventAt(n) == Raise && Present(n) && StreakDuration(n) < cfg.criticalAfter {
        assert OpenSince(n, n + 1) && WarningSince(n, n + 1);
      }
      if WarningBefore(n) && EventAt(n) != Resolve && EventAt(n) != Escalate {
        var j :| WarningSince(j, n);
        assert OpenSince(j, n + 1) && WarningSince(j, n + 1);
      }
      if WarningBefore(n + 1) {
        var j :| WarningSince(j, n + 1);
        if j < n {
          assert OpenSince(j, n) && WarningSince(j, n);
        }
      }
    }

    ghost predicate WarningInv(n: nat)
      requires n <= |xs|
    {
      (WarningBefore(n) <==> After(n).warning) && (After(n).warning ==> After(n).open)
    }

    lemma WarningStep(i: nat)
      requires Valid() && i < |xs| && WarningInv(i)
      ensures WarningInv(i + 1)
    {
      StreakKept(i);
      OpenKept(i);
      OneStep(i, After(i));
      WarningNext(i);
    }

    lemma WarningStart()
      ensures WarningInv(0)
    {
    }

    lemma {:induction false} WarningKept(n: nat)
      requires Valid() && n <= |xs|
      ensures WarningInv(n)
    {
      hide *;
      if n == 0 {
        WarningStart();
      } else {
        WarningKept(n - 1);
        WarningStep(n - 1);
      }
    }

    // -------------------------------------------------------------- main theorems

    lemma RaiseExactly(i: nat)
      requires Valid() && i < |xs|
      ensures EventAt(i) == Raise <==> MustRaise(i)
    {
      StreakKept(i);
      StreakKept(i + 1);
      OpenKept(i);
      CooldownKept(i, xs[i].now);
      var cooled, open := CooledDown(i, xs[i].now), OpenBefore(i);
      OneStep(i, After(i));
    }

    lemma EscalateExactly(i: nat)
      requires Valid() && i < |xs|
      ensures EventAt(i) == Escalate <==> MustEscalate(i)
    {
      StreakKept(i);
      StreakKept(i + 1);
      WarningKept(i);
      OneStep(i, After(i));
    }

    lemma ResolveExactly(i: nat)
      requires Valid() && i < |xs|
      ensures EventAt(i) == Resolve <==> MustResolve(i)
    {
      OpenKept(i);
      ClearKept(i);
      var t := After(i);
      OneStep(i, t);
      if MustResolve(i) {
        assert !Present(i);
        assert Present(i - 1 - t.clear);
      } else if EventAt(i) == Resolve {
        forall j | i - cfg.resolution < j <= i
          ensures !Present(j)
        {
          assert j < i ==> i - t.clear <= j;
        }
      }
    }

    /** Each event happens exactly when the history demands it. */
    lemma Characterisation(i: nat)
      requires Valid() && i < |xs|
      ensures EventAt(i) == Raise <==> MustRaise(i)
      ensures EventAt(i) == Escalate <==> MustEscalate(i)
      ensures EventAt(i) == Resolve <==> MustResolve(i)
    {
      RaiseExactly(i);
      EscalateExactly(i);
      ResolveExactly(i);
    }

    function RaiseCount(n: nat): nat
      requires n <= |xs|
    {
      if n == 0 then 0 else RaiseCount(n - 1) + (if EventAt(n - 1) == Raise then 1 else 0)
    }

    lemma {:induction false} RaisePotential(n: nat)
      requires Valid() && n <= |xs|
      ensures var spent := RaiseCount(n) * (cfg.resolution + cfg.minConsecutive);
        if After(n).open then spent <= n + cfg.resolution - After(n).clear
        else spent + After(n).consecutive <= n
      ensures After(n).open ==> After(n).clear < cfg.resolution
    {
      if n > 0 {
        RaisePotential(n - 1);
        var each := cfg.resolution + cfg.minConsecutive;
        assert (RaiseCount(n - 1) + 1) * each == RaiseCount(n - 1) * each + each;
      }
    }

    /** A later raise comes after a resolution in between. */
    lemma RaisesSeparated(i: nat, j: nat)
      requires Valid() && i < j < |xs| && EventAt(i) == Raise && EventAt(j) == Raise
      ensures exists m :: i < m < j && EventAt(m) == Resolve && xs[m].now + cfg.cooldown <= xs[j].now
    {
      Characterisation(j);
      if forall m :: i < m < j ==> EventAt(m) != Resolve {
        assert OpenSince(i, j);
      }
    }
  }
}
