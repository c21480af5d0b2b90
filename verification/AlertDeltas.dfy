/** The lists an update reports: what they contain, and that they replay to the active alerts. */
module AlertDeltas {
  import opened Wrappers
  import opened WorkSessions
  import opened SafetyAlerts
  import opened AlertCycles
  import opened Sorting

  function KeyOf(a: Alert): ConditionKey {
    a.Key()
  }

  ghost predicate DistinctAlertKeys(alerts: seq<Alert>) {
    DistinctBy(KeyOf, alerts)
  }

  function AlertKeys(alerts: seq<Alert>): set<ConditionKey> {
    set a | a in alerts :: a.Key()
  }

  // ---------------------------------------------------------------- the sorted listing

  /** By the time of the raise, and by identity where that is the same. */
  ghost predicate Sorted(s: seq<Alert>) {
    forall i, j :: 0 <= i < j < |s| ==>
      s[i].raisedAt < s[j].raisedAt || (s[i].raisedAt == s[j].raisedAt && s[i].alertId <= s[j].alertId)
  }

  lemma {:induction false} CollectActiveHas(m: Conditions, order: seq<ConditionKey>)
    requires WellKeyed(m) && NoRepeats(order)
    ensures var s := CollectActive(m, order);
      && DistinctAlertKeys(s)
      && forall a :: a in s <==> a.Key() in order && a.Key() in m && m[a.Key()].active == Some(a)
  {
    if order != [] {
      var k, rest := order[0], order[1..];
      CollectActiveHas(m, rest);
      assert forall x :: x in order <==> x == k || x in rest;
      assert k !in rest;
    }
  }

  /** The active tuple lists each open alert once, in order of raise time and identity. */
  lemma ActiveAlertsListing(st: EngineState)
    requires ShapeInv(st)
    ensures var s := ActiveAlerts(st.states, st.order);
      && Sorted(s) && DistinctAlertKeys(s)
      && forall a :: a in s <==> a.Key() in st.states && st.states[a.Key()].active == Some(a)
  {
    CollectActiveHas(st.states, st.order);
    SortKeeps(Before, KeyOf, CollectActive(st.states, st.order));
    assert forall i, j :: 0 <= i < j < |ActiveAlerts(st.states, st.order)| ==>
      Before(ActiveAlerts(st.states, st.order)[i], ActiveAlerts(st.states, st.order)[j]);
  }

  // ---------------------------------------------------------------- replaying the deltas

  type ActiveMap = map<ConditionKey, Alert>

  function ActiveOf(m: Conditions): ActiveMap {
    map k | k in m && m[k].active.Some? :: m[k].active.value
  }

  function Put(active: ActiveMap, alerts: seq<Alert>): ActiveMap {
    if alerts == [] then active
    else Put(active, alerts[..|alerts| - 1])[alerts[|alerts| - 1].Key() := alerts[|alerts| - 1]]
  }

  /** What a consumer of the deltas does to its own picture of the active alerts. */
  function Replay(active: ActiveMap, u: Update): ActiveMap {
    Put(Put(active - AlertKeys(u.resolved), u.raised), u.escalated)
  }

  function Find(active: ActiveMap, k: ConditionKey): Option<Alert> {
    if k in active then Some(active[k]) else None
  }

  lemma {:induction false} PutAt(active: ActiveMap, alerts: seq<Alert>, k: ConditionKey, a: Option<Alert>)
    requires OnlyFor(alerts, k, a) && (a.Some? ==> a.value.Key() == k)
    ensures Find(Put(active, alerts), k) == if a.Some? then a else Find(active, k)
  {
    if alerts == [] {
      assert a == None || (exists x :: x in alerts);
    } else {
      var last, rest := alerts[|alerts| - 1], alerts[..|alerts| - 1];
      InPrefixOrLast(alerts);
      if last.Key() == k {
        assert last in alerts;
      } else {
        PutAt(active, rest, k, a);
      }
    }
  }

  lemma ResolvedKey(alerts: seq<Alert>, k: ConditionKey, a: Option<Alert>)
    requires OnlyFor(alerts, k, a) && (a.Some? ==> a.value.Key() == k)
    ensures k in AlertKeys(alerts) <==> a.Some?
  {
    if a.Some? { assert a.value in alerts; }
  }

  lemma ReplayAt(cfg: Config, draw: nat -> AlertId, st: EngineState, input: CycleInput, k: ConditionKey)
    requires ShapeInv(st) && DistinctKeys(input.violations)
    ensures var (st', u) := Cycle(cfg, draw, st, input);
      Find(Replay(ActiveOf(st.states), u), k) == Find(ActiveOf(st'.states), k)
  {
    CycleAt(cfg, draw, st, input, k);
    var u := Cycle(cfg, draw, st, input).1;
    var o := StepOf(cfg, draw, st, input, k).1;
    OutcomeKey(ContextOf(cfg, draw, input), Get(st.states, k), Lookup(input.violations, k),
               draw(IdFor(cfg, draw, st, input, k)), k);
    var kept := ActiveOf(st.states) - AlertKeys(u.resolved);
    ResolvedKey(u.resolved, k, ResolvedOf(o));
    PutAt(kept, u.raised, k, RaisedOf(o));
    PutAt(Put(kept, u.raised), u.escalated, k, EscalatedOf(o));
  }

  /** The deltas of a cycle turn the active alerts before it into the active alerts after it. */
  lemma ReplayOneCycle(cfg: Config, draw: nat -> AlertId, st: EngineState, input: CycleInput)
    requires ShapeInv(st) && DistinctKeys(input.violations)
    ensures var (st', u) := Cycle(cfg, draw, st, input);
      Replay(ActiveOf(st.states), u) == ActiveOf(st'.states)
  {
    var (st', u) := Cycle(cfg, draw, st, input);
    var x, y := Replay(ActiveOf(st.states), u), ActiveOf(st'.states);
    forall k ensures (k in x <==> k in y) && (k in x ==> x[k] == y[k]) {
      ReplayAt(cfg, draw, st, input, k);
      assert Find(x, k) == Find(y, k);
    }
  }

  /** No key is reported as two different things in one cycle. */
  lemma DeltasDisjoint(cfg: Config, draw: nat -> AlertId, st: EngineState, input: CycleInput)
    requires ShapeInv(st) && DistinctKeys(input.violations)
    ensures var u := Cycle(cfg, draw, st, input).1;
      && AlertKeys(u.raised) !! AlertKeys(u.escalated)
      && AlertKeys(u.raised) !! AlertKeys(u.resolved)
      && AlertKeys(u.escalated) !! AlertKeys(u.resolved)
  {
    var u := Cycle(cfg, draw, st, input).1;
    forall k
      ensures !(k in AlertKeys(u.raised) && k in AlertKeys(u.escalated))
      ensures !(k in AlertKeys(u.raised) && k in AlertKeys(u.resolved))
      ensures !(k in AlertKeys(u.escalated) && k in AlertKeys(u.resolved))
    {
      CycleAt(cfg, draw, st, input, k);
    }
  }
}
