/** A consumer that only ever sees the deltas of an engine's updates, over whole runs. */
module AlertReplay {
  import opened SafetyAlerts
  import opened AlertCycles
  import opened AlertTrace
  import opened AlertRuns
  import opened AlertDeltas

  /** Its picture of the active alerts after `n` cycles, built from nothing. */
  function Replayed(t: Trace, n: nat): ActiveMap
    requires n <= |t.h|
  {
    if n == 0 then map[] else Replay(Replayed(t, n - 1), t.UpdateAt(n - 1))
  }

  ghost predicate Holds(active: ActiveMap, a: Alert) {
    a.Key() in active && active[a.Key()] == a
  }

  lemma ShapeAt(t: Trace, n: nat)
    requires t.Accepted() && n <= |t.h|
    ensures ShapeInv(t.StateAfter(n))
  {
    t.RunKept(n);
  }

  ghost predicate RegularAt(t: Trace, n: nat)
    requires n <= |t.h|
  {
    ShapeInv(t.StateAfter(n)) && (n < |t.h| ==> DistinctKeys(t.h[n].violations))
  }

  ghost predicate UpToDate(t: Trace, n: nat)
    requires n <= |t.h|
  {
    Replayed(t, n) == ActiveOf(t.StateAfter(n).states)
  }

  lemma OneMoreReplayed(t: Trace, i: nat)
    requires i < |t.h| && RegularAt(t, i) && UpToDate(t, i)
    ensures UpToDate(t, i + 1)
  {
    ReplayOneCycle(t.cfg, t.draw, t.StateAfter(i), t.h[i]);
  }

  ghost predicate Regular(t: Trace) {
    forall n :: 0 <= n <= |t.h| ==> RegularAt(t, n)
  }

  lemma AcceptedIsRegular(t: Trace)
    requires t.Accepted()
    ensures Regular(t)
  {
    forall n | 0 <= n <= |t.h| ensures RegularAt(t, n) {
      ShapeAt(t, n);
    }
  }

  lemma ReplayStart(t: Trace)
    ensures UpToDate(t, 0)
  {
  }

  lemma {:induction false} ReplayedIsActive(t: Trace, n: nat)
    requires Regular(t) && n <= |t.h|
    ensures UpToDate(t, n)
  {
    hide UpToDate, RegularAt;
    if n == 0 {
      ReplayStart(t);
    } else {
      ReplayedIsActive(t, n - 1);
      OneMoreReplayed(t, n - 1);
    }
  }

  lemma ListedIsActive(cfg: Config, draw: nat -> AlertId, st: EngineState, input: CycleInput, a: Alert)
    requires ShapeInv(Cycle(cfg, draw, st, input).0)
    ensures var (st', u) := Cycle(cfg, draw, st, input); a in u.active <==> Holds(ActiveOf(st'.states), a)
  {
    ActiveAlertsListing(Cycle(cfg, draw, st, input).0);
  }

  lemma RegularIsComplete(t: Trace, i: nat, a: Alert)
    requires Regular(t) && i < |t.h|
    ensures a in t.UpdateAt(i).active <==> Holds(Replayed(t, i + 1), a)
  {
    ReplayedIsActive(t, i + 1);
    assert RegularAt(t, i + 1);
    ListedIsActive(t.cfg, t.draw, t.StateAfter(i), t.h[i], a);
  }

  /** The deltas are complete: replayed from nothing they give exactly the active alerts of each update. */
  lemma DeltasAreComplete(t: Trace, i: nat, a: Alert)
    requires t.Accepted() && i < |t.h|
    ensures a in t.UpdateAt(i).active <==> Holds(Replayed(t, i + 1), a)
  {
    AcceptedIsRegular(t);
    RegularIsComplete(t, i, a);
  }

  /** The same in every run: a consumer that starts empty after each reset always holds what an accepted call lists. */
  lemma RunDeltasAreComplete(r: Run, i: nat, a: Alert)
    requires r.Valid() && i < |r.calls| && r.calls[i].Observation? && r.AnswerAt(i).Ok?
    ensures var t := r.TraceAfter(i + 1); a in r.AnswerAt(i).value.active <==> Holds(Replayed(t, |t.h|), a)
  {
    r.AnswersAreUpdates(i);
    DeltasAreComplete(r.TraceAfter(i + 1), r.LastCycle(i), a);
  }
}
