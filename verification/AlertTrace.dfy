/**
 Whole runs of the alert engine. A trace is the sequence of cycles accepted since the last
 reset; the statements are about the alerts the engine reports for it.
 */
module AlertTrace {
  import opened Wrappers
  import opened WorkSessions
  import opened SafetyAlerts
  import opened AlertCycles
  import opened AlertTiming

  datatype Trace = Trace(cfg: Config, draw: nat -> AlertId, base: nat, h: seq<CycleInput>)
  {
    /** The engine after the first `n` cycles, started empty with `base` ids already drawn. */
    function StateAfter(n: nat): EngineState
      requires n <= |h|
    {
      if n == 0 then Fresh(base) else Cycle(cfg, draw, StateAfter(n - 1), h[n - 1]).0
    }

    function UpdateAt(i: nat): Update
      requires i < |h|
    {
      Cycle(cfg, draw, StateAfter(i), h[i]).1
    }

    /** The cycles an engine can have accepted one after the other. */
    ghost predicate Accepted() {
      && cfg.Valid()
      && (forall i :: 0 <= i < |h| ==>
        ValidInput(h[i]) && h[i].session.IsActive() && h[i].session.startedAt <= h[i].now
          && DistinctKeys(h[i].violations))
      && (forall i, j :: 0 <= i < j < |h| ==> h[i].now <= h[j].now && h[i].session.sessionId == h[j].session.sessionId)
    }

    /** What the cycles look like to one key. */
    function HistoryOf(k: ConditionKey): History {
      History(cfg, seq(|h|, i requires 0 <= i < |h| => Observation(k in KeysOf(h[i].violations), h[i].now)))
    }

    ghost predicate Mentions(alerts: seq<Alert>, k: ConditionKey) {
      exists a :: a in alerts && a.Key() == k
    }

    function StepAt(i: nat, k: ConditionKey): (Option<Condition>, Outcome)
      requires i < |h|
    {
      StepOf(cfg, draw, StateAfter(i), h[i], k)
    }

    ghost predicate RunInv(n: nat)
      requires n <= |h|
    {
      var st := StateAfter(n);
      && StateInv(cfg, st) && ShapeInv(st)
      && (if n == 0 then st == Fresh(base)
          else st.session == Some(h[n - 1].session.sessionId) && st.last == Some(h[n - 1].now))
      && base <= st.drawn
    }

    lemma RunAccepts(i: nat)
      requires Accepted() && i < |h| && RunInv(i)
      ensures Refusal(StateAfter(i), h[i]).None?
    {
    }

    lemma RunNext(i: nat)
      requires Accepted() && i < |h| && RunInv(i)
      ensures RunInv(i + 1)
    {
      RunAccepts(i);
      CycleInv(cfg, draw, StateAfter(i), h[i]);
      CycleShape(cfg, draw, StateAfter(i), h[i]);
    }

    lemma RunStart()
      requires Accepted()
      ensures RunInv(0)
    {
    }

    lemma {:induction false} RunKept(n: nat)
      requires Accepted() && n <= |h|
      ensures RunInv(n)
    {
      hide *;
      if n == 0 {
        RunStart();
      } else {
        RunKept(n - 1);
        RunNext(n - 1);
      }
    }

    /** Cycle `i` in terms of the key's own step. */
    lemma OutcomeAt(i: nat, k: ConditionKey)
      requires Accepted() && i < |h|
      ensures var (c, o) := StepAt(i, k);
        && Get(StateAfter(i + 1).states, k) == c
        && OnlyFor(UpdateAt(i).raised, k, RaisedOf(o))
        && OnlyFor(UpdateAt(i).escalated, k, EscalatedOf(o))
        && OnlyFor(UpdateAt(i).resolved, k, ResolvedOf(o))
        && (o != Quiet ==> o.alert.Key() == k)
    {
      RunKept(i);
      CycleAt(cfg, draw, StateAfter(i), h[i], k);
      OutcomeKey(ContextOf(cfg, draw, h[i]), Get(StateAfter(i).states, k), Lookup(h[i].violations, k),
                 draw(IdFor(cfg, draw, StateAfter(i), h[i], k)), k);
    }

    lemma TimingStep(i: nat, k: ConditionKey)
      requires Accepted() && i < |h|
      ensures (TimingOf(Get(StateAfter(i + 1).states, k)), EventOf(StepAt(i, k).1))
        == AlertTiming.Step(cfg, TimingOf(Get(StateAfter(i).states, k)), HistoryOf(k).xs[i])
    {
      OutcomeAt(i, k);
      KeyStepTiming(ContextOf(cfg, draw, h[i]), Get(StateAfter(i).states, k), Lookup(h[i].violations, k),
                    draw(IdFor(cfg, draw, StateAfter(i), h[i], k)));
    }

    ghost predicate TimingAgrees(hist: History, n: nat, k: ConditionKey)
      requires n <= |h| == |hist.xs|
    {
      hist.After(n) == TimingOf(Get(StateAfter(n).states, k))
    }

    lemma TimingNext(i: nat, k: ConditionKey)
      requires Accepted() && i < |h| && TimingAgrees(HistoryOf(k), i, k)
      ensures TimingAgrees(HistoryOf(k), i + 1, k)
    {
      TimingStep(i, k);
      HistoryOf(k).OneStep(i, TimingOf(Get(StateAfter(i).states, k)));
    }

    lemma TimingStart(k: ConditionKey)
      ensures TimingAgrees(HistoryOf(k), 0, k)
    {
    }

    /** The timing of a key's own history is the timing the engine keeps for it. */
    lemma {:induction false} TimingAfter(n: nat, k: ConditionKey)
      requires Accepted() && n <= |h|
      ensures TimingAgrees(HistoryOf(k), n, k)
    {
      hide StateAfter, Accepted, TimingAgrees;
      if n == 0 {
        TimingStart(k);
      } else {
        TimingAfter(n - 1, k);
        TimingNext(n - 1, k);
      }
    }

    /** What a cycle reports for a key is the event of the key's own history. */
    lemma ReportAt(i: nat, k: ConditionKey)
      requires Accepted() && i < |h|
      ensures var e := HistoryOf(k).EventAt(i);
        && (Mentions(UpdateAt(i).raised, k) <==> e == Raise)
        && (Mentions(UpdateAt(i).escalated, k) <==> e == Escalate)
        && (Mentions(UpdateAt(i).resolved, k) <==> e == Resolve)
    {
      TimingAfter(i, k);
      TimingStep(i, k);
      OutcomeAt(i, k);
      var o := StepAt(i, k).1;
      assert HistoryOf(k).EventAt(i) == EventOf(o);
    }

    /**
     A cycle raises, escalates or resolves an alert for a key exactly when the key's history
     demands it, whatever the other keys did in the meantime.
     */
    lemma TraceCharacterisation(i: nat, k: ConditionKey)
      requires Accepted() && i < |h|
      ensures Mentions(UpdateAt(i).raised, k) <==> HistoryOf(k).MustRaise(i)
      ensures Mentions(UpdateAt(i).escalated, k) <==> HistoryOf(k).MustEscalate(i)
      ensures Mentions(UpdateAt(i).resolved, k) <==> HistoryOf(k).MustResolve(i)
    {
      ReportAt(i, k);
      HistoryOf(k).Characterisation(i);
    }

    /** How many of the first `n` cycles raised an alert for the key. */
    ghost function RaiseCount(n: nat, k: ConditionKey): nat
      requires n <= |h|
    {
      if n == 0 then 0 else RaiseCount(n - 1, k) + (if Mentions(UpdateAt(n - 1).raised, k) then 1 else 0)
    }

    ghost predicate CountsAgree(hist: History, n: nat, k: ConditionKey)
      requires n <= |h| == |hist.xs|
    {
      RaiseCount(n, k) == hist.RaiseCount(n)
    }

    lemma CountNext(i: nat, k: ConditionKey)
      requires Accepted() && i < |h| && CountsAgree(HistoryOf(k), i, k)
      ensures CountsAgree(HistoryOf(k), i + 1, k)
    {
      ReportAt(i, k);
    }

    lemma CountsStart(k: ConditionKey)
      ensures CountsAgree(HistoryOf(k), 0, k)
    {
    }

    lemma {:induction false} CountsKept(n: nat, k: ConditionKey)
      requires Accepted() && n <= |h|
      ensures CountsAgree(HistoryOf(k), n, k)
    {
      hide StateAfter, Accepted, CountsAgree;
      if n == 0 {
        CountsStart(k);
      } else {
        CountsKept(n - 1, k);
        CountNext(n - 1, k);
      }
    }

    /** At most one alert for every `resolution + minConsecutive` cycles. */
    lemma RaiseRateBound(n: nat, k: ConditionKey)
      requires Accepted() && n <= |h|
      ensures RaiseCount(n, k) * (cfg.resolution + cfg.minConsecutive) <= n + cfg.resolution
    {
      hide Accepted;
      CountsKept(n, k);
      HistoryIsValid(k);
      HistoryOf(k).RaisePotential(n);
    }

    lemma HistoryIsValid(k: ConditionKey)
      requires Accepted()
      ensures HistoryOf(k).Valid()
    {
    }

    /** Between two raises of a key lies a resolution that is at least the cooldown older than the second. */
    lemma RaiseSeparation(i: nat, j: nat, k: ConditionKey)
      requires Accepted() && i < j < |h|
      requires Mentions(UpdateAt(i).raised, k) && Mentions(UpdateAt(j).raised, k)
      ensures exists m :: i < m < j && Mentions(UpdateAt(m).resolved, k) && h[m].now + cfg.cooldown <= h[j].now
    {
      ReportAt(i, k);
      ReportAt(j, k);
      HistoryOf(k).RaisesSeparated(i, j);
      var m :| i < m < j && HistoryOf(k).EventAt(m) == Resolve && h[m].now + cfg.cooldown <= h[j].now;
      ReportAt(m, k);
    }
  }
}
