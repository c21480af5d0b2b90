/**
 One observation cycle of the alert engine as a function of its state, in two forms:
 the fold over the violations and the tracked conditions that the engine performs, and
 the independent step of each deduplication key that the fold amounts to.
 */
module AlertCycles {
  import opened Wrappers
  import opened WorkSessions
  import opened SafetyAlerts
  import opened Sorting

  datatype Config = Config(
    minConsecutive: nat,
    minPersistence: Time,
    resolution: nat,
    cooldown: Time,
    criticalAfter: Time)
  {
    predicate Valid() {
      minConsecutive >= 1 && minPersistence >= 0 && resolution >= 1 && cooldown >= 0 && criticalAfter > 0
    }
  }

  /** What the engine remembers about one key. */
  datatype Condition = Condition(
    violation: Violation,
    firstObservedAt: Option<Time>,
    consecutive: nat,
    clear: nat,
    active: Option<Alert>,
    nextRaiseAllowedAt: Option<Time>)

  type Conditions = map<ConditionKey, Condition>

  /** `order` is the insertion order of the dictionary `states`; `drawn` counts the ids taken from the factory. */
  datatype EngineState = EngineState(
    states: Conditions,
    order: seq<ConditionKey>,
    session: Option<nat>,
    last: Option<Time>,
    drawn: nat)

  datatype CycleInput = CycleInput(session: WorkSession, violations: seq<Violation>, now: Time)

  datatype Update = Update(raised: seq<Alert>, resolved: seq<Alert>, active: seq<Alert>, escalated: seq<Alert>)

  datatype EngineError =
    | InactiveSession
    | BeforeSessionStart
    | TimeWentBack
    | SessionChanged
    | DuplicateViolation(key: ConditionKey)

  /** The fixed surroundings of one cycle: configuration, id factory, session and time. */
  datatype Context = Context(cfg: Config, draw: nat -> AlertId, session: WorkSession, now: Time)

  function Get(m: Conditions, k: ConditionKey): Option<Condition> {
    if k in m then Some(m[k]) else None
  }

  // ---------------------------------------------------------------- one key

  datatype Outcome = Quiet | Raised(alert: Alert) | Escalated(alert: Alert) | Resolved(alert: Alert)

  function TemporalSeverity(cfg: Config, first: Time, now: Time): Severity {
    if now - first >= cfg.criticalAfter then Critical else Warning
  }

  predicate CanRaise(cfg: Config, c: Condition, now: Time) {
    && c.firstObservedAt.Some?
    && c.consecutive >= cfg.minConsecutive
    && now - c.firstObservedAt.value >= cfg.minPersistence
    && (c.nextRaiseAllowedAt.None? || now >= c.nextRaiseAllowedAt.value)
  }

  /** The condition after its violation has been counted, before any alert decision. */
  function Counted(c: Option<Condition>, v: Violation, now: Time): (r: Condition)
    ensures r.firstObservedAt.Some?
  {
    var known := if c.Some? then c.value else Condition(v, None, 0, 0, None, None);
    var seen := known.(violation := v, clear := 0);
    if seen.firstObservedAt.None?
    then seen.(firstObservedAt := Some(now), consecutive := 1)
    else seen.(consecutive := seen.consecutive + 1)
  }

  function NewAlert(cx: Context, c: Condition, id: AlertId): Alert
    requires c.firstObservedAt.Some?
  {
    Alert(id, cx.session.sessionId, cx.session.operatorId, cx.session.operationId,
          cx.session.cameraId, cx.session.riskAreaId,
          c.violation.(severity := TemporalSeverity(cx.cfg, c.firstObservedAt.value, cx.now)),
          c.firstObservedAt.value, cx.now, None, ActiveAlert)
  }

  predicate MustEscalate(cx: Context, c: Condition)
    requires c.firstObservedAt.Some?
  {
    && c.active.Some?
    && c.active.value.violation.severity == Warning
    && TemporalSeverity(cx.cfg, c.firstObservedAt.value, cx.now) == Critical
  }

  function PresentStep(cx: Context, c: Option<Condition>, v: Violation, id: AlertId): (Condition, Outcome) {
    var n := Counted(c, v, cx.now);
    if n.active.None? && CanRaise(cx.cfg, n, cx.now) then
      var a := NewAlert(cx, n, id);
      (n.(active := Some(a)), Raised(a))
    else if MustEscalate(cx, n) then
      var a := n.active.value.WithSeverity(Critical);
      (n.(active := Some(a)), Escalated(a))
    else
      (n, Quiet)
  }

  function AbsentStep(cx: Context, c: Condition): (Condition, Outcome) {
    var n := c.(consecutive := 0, firstObservedAt := None);
    if n.active.None? then
      (n.(clear := 0), Quiet)
    else if n.clear + 1 < cx.cfg.resolution then
      (n.(clear := n.clear + 1), Quiet)
    else
      (n.(active := None, clear := 0, nextRaiseAllowedAt := Some(cx.now + cx.cfg.cooldown)),
       Resolved(n.active.value.ClosedAt(cx.now)))
  }

  /** The whole cycle as one key experiences it. */
  function KeyStep(cx: Context, c: Option<Condition>, v: Option<Violation>, id: AlertId): (Option<Condition>, Outcome) {
    match v
    case Some(v) => var (n, o) := PresentStep(cx, c, v, id); (Some(n), o)
    case None =>
      if c.None? then (None, Quiet) else var (n, o) := AbsentStep(cx, c.value); (Some(n), o)
  }

  // ---------------------------------------------------------------- the engine's own folds

  function KeysOf(vs: seq<Violation>): set<ConditionKey> {
    set v | v in vs :: v.Key()
  }

  /** The key of the first violation that repeats an earlier one. */
  function FirstDuplicate(vs: seq<Violation>): Option<ConditionKey> {
    if vs == [] then None
    else
      var earlier := FirstDuplicate(vs[..|vs| - 1]);
      if earlier.Some? then earlier
      else if vs[|vs| - 1].Key() in KeysOf(vs[..|vs| - 1]) then Some(vs[|vs| - 1].Key())
      else None
  }

  /** The violation reported for a key. */
  function Lookup(vs: seq<Violation>, k: ConditionKey): (r: Option<Violation>)
    ensures r.Some? <==> k in KeysOf(vs)
    ensures r.Some? ==> r.value in vs && r.value.Key() == k
  {
    if vs == [] then None
    else if vs[|vs| - 1].Key() == k then Some(vs[|vs| - 1])
    else
      assert forall v :: v in vs <==> v == vs[|vs| - 1] || v in vs[..|vs| - 1];
      Lookup(vs[..|vs| - 1], k)
  }

  datatype Progress = Progress(
    states: Conditions,
    order: seq<ConditionKey>,
    drawn: nat,
    raised: seq<Alert>,
    escalated: seq<Alert>)

  function SeeOne(cx: Context, p: Progress, v: Violation): Progress {
    var k := v.Key();
    var (c, o) := PresentStep(cx, Get(p.states, k), v, cx.draw(p.drawn));
    Progress(
      p.states[k := c],
      if k in p.states then p.order else p.order + [k],
      if o.Raised? then p.drawn + 1 else p.drawn,
      if o.Raised? then p.raised + [o.alert] else p.raised,
      if o.Escalated? then p.escalated + [o.alert] else p.escalated)
  }

  function SeeAll(cx: Context, p: Progress, vs: seq<Violation>): Progress {
    if vs == [] then p else SeeOne(cx, SeeAll(cx, p, vs[..|vs| - 1]), vs[|vs| - 1])
  }

  datatype Clearing = Clearing(states: Conditions, resolved: seq<Alert>)

  function ClearOne(cx: Context, current: set<ConditionKey>, q: Clearing, k: ConditionKey): Clearing {
    if k in current || k !in q.states then q
    else
      var (c, o) := AbsentStep(cx, q.states[k]);
      Clearing(q.states[k := c], if o.Resolved? then q.resolved + [o.alert] else q.resolved)
  }

  function ClearAll(cx: Context, current: set<ConditionKey>, q: Clearing, keys: seq<ConditionKey>): Clearing {
    if keys == [] then q else ClearOne(cx, current, ClearAll(cx, current, q, keys[..|keys| - 1]), keys[|keys| - 1])
  }

  // ---------------------------------------------------------------- sorted active alerts

  predicate Before(a: Alert, b: Alert) {
    a.raisedAt < b.raisedAt || (a.raisedAt == b.raisedAt && a.alertId <= b.alertId)
  }

  function CollectActive(m: Conditions, order: seq<ConditionKey>): seq<Alert> {
    if order == [] then []
    else
      var k := order[0];
      (if k in m && m[k].active.Some? then [m[k].active.value] else []) + CollectActive(m, order[1..])
  }

  function ActiveAlerts(m: Conditions, order: seq<ConditionKey>): seq<Alert> {
    SortBy(Before, CollectActive(m, order))
  }

  // ---------------------------------------------------------------- a whole cycle

  function ContextOf(cfg: Config, draw: nat -> AlertId, input: CycleInput): Context {
    Context(cfg, draw, input.session, input.now)
  }

  function Seen(cfg: Config, draw: nat -> AlertId, st: EngineState, input: CycleInput): Progress {
    SeeAll(ContextOf(cfg, draw, input), Progress(st.states, st.order, st.drawn, [], []), input.violations)
  }

  function ClearedUp(cfg: Config, draw: nat -> AlertId, st: EngineState, input: CycleInput): Clearing {
    var p := Seen(cfg, draw, st, input);
    ClearAll(ContextOf(cfg, draw, input), KeysOf(input.violations), Clearing(p.states, []), p.order)
  }

  /** The accepted cycle. */
  function Cycle(cfg: Config, draw: nat -> AlertId, st: EngineState, input: CycleInput): (EngineState, Update) {
    var p := Seen(cfg, draw, st, input);
    var q := ClearedUp(cfg, draw, st, input);
    (EngineState(q.states, p.order, Some(input.session.sessionId), Some(input.now), p.drawn),
     Update(p.raised, q.resolved, ActiveAlerts(q.states, p.order), p.escalated))
  }

  function Refusal(st: EngineState, input: CycleInput): Option<EngineError> {
    if !input.session.IsActive() then Some(InactiveSession)
    else if input.now < input.session.startedAt then Some(BeforeSessionStart)
    else if st.last.Some? && input.now < st.last.value then Some(TimeWentBack)
    else if st.session.Some? && st.session.value != input.session.sessionId then Some(SessionChanged)
    else None
  }

  /** One call of `observe`. A repeated key is refused only after session and time have been recorded. */
  function Observe(cfg: Config, draw: nat -> AlertId, st: EngineState, input: CycleInput)
    : (EngineState, Result<Update, EngineError>)
  {
    var refusal := Refusal(st, input);
    var duplicate := FirstDuplicate(input.violations);
    if refusal.Some? then (st, Err(refusal.value))
    else if duplicate.Some? then
      (st.(session := Some(input.session.sessionId), last := Some(input.now)), Err(DuplicateViolation(duplicate.value)))
    else
      var (st', u) := Cycle(cfg, draw, st, input);
      (st', Ok(u))
  }

  function Fresh(drawn: nat): EngineState {
    EngineState(map[], [], None, None, drawn)
  }

  // ---------------------------------------------------------------- invariant

  ghost predicate ConditionInv(cfg: Config, last: Option<Time>, k: ConditionKey, c: Condition) {
    && c.violation.Valid() && c.violation.Key() == k
    && last.Some?
    && (c.firstObservedAt.Some? ==> c.firstObservedAt.value <= last.value)
    && c.clear < cfg.resolution
    && (c.active.Some? ==>
      && c.active.value.Valid() && c.active.value.status.ActiveAlert?
      && c.active.value.Key() == k
      && c.active.value.raisedAt <= last.value)
    && (c.active.None? ==> c.clear == 0)
  }

  ghost predicate StateInv(cfg: Config, st: EngineState) {
    && cfg.Valid()
    && NoRepeats(st.order)
    && (forall k :: k in st.order <==> k in st.states)
    && (forall k :: k in st.states ==> ConditionInv(cfg, st.last, k, st.states[k]))
  }

  /** Inputs are built from values their constructors accepted. */
  predicate ValidInput(input: CycleInput) {
    input.session.Valid() && forall v :: v in input.violations ==> v.Valid()
  }

  ghost predicate DistinctKeys(vs: seq<Violation>) {
    forall i, j :: 0 <= i < j < |vs| ==> vs[i].Key() != vs[j].Key()
  }

  lemma {:induction false} FirstDuplicateNone(vs: seq<Violation>)
    ensures FirstDuplicate(vs).None? <==> DistinctKeys(vs)
  {
    if vs != [] {
      var n := |vs| - 1;
      FirstDuplicateNone(vs[..n]);
      if vs[n].Key() in KeysOf(vs[..n]) {
        var v :| v in vs[..n] && v.Key() == vs[n].Key();
        var i :| 0 <= i < n && vs[..n][i] == v;
        assert vs[i].Key() == vs[n].Key();
      } else {
        forall i | 0 <= i < n ensures vs[i].Key() != vs[n].Key() {
          assert vs[..n][i] in vs[..n];
        }
      }
      if DistinctKeys(vs) {
        assert forall i :: 0 <= i < n ==> vs[..n][i] == vs[i];
      }
    }
  }

  /** The key refused is that of the first violation that repeats an earlier one. */
  lemma {:induction false} FirstDuplicateIs(vs: seq<Violation>) returns (n: nat)
    requires FirstDuplicate(vs).Some?
    ensures n < |vs| && DistinctKeys(vs[..n]) && Repeats(vs, n) && FirstDuplicate(vs) == Some(vs[n].Key())
  {
    var m := |vs| - 1;
    if FirstDuplicate(vs[..m]).Some? {
      n := FirstDuplicateIs(vs[..m]);
      assert vs[..m][..n] == vs[..n];
    } else {
      n := m;
      FirstDuplicateNone(vs[..m]);
      RepeatsIs(vs, m);
    }
  }

  /** The violation at `n` has the key of an earlier one. */
  ghost predicate Repeats(vs: seq<Violation>, n: nat)
    requires n < |vs|
  {
    exists i :: 0 <= i < n && vs[i].Key() == vs[n].Key()
  }

  lemma RepeatsIs(vs: seq<Violation>, n: nat)
    requires n < |vs|
    ensures Repeats(vs, n) <==> vs[n].Key() in KeysOf(vs[..n])
  {
    if i :| 0 <= i < n && vs[i].Key() == vs[n].Key() {
      assert vs[..n][i] in vs[..n];
    }
    if vs[n].Key() in KeysOf(vs[..n]) {
      var v :| v in vs[..n] && v.Key() == vs[n].Key();
      var i :| 0 <= i < n && vs[..n][i] == v;
    }
  }

  // ---------------------------------------------------------------- the fold is a step of every key

  /** The number of ids drawn before the violation of `k` is handled. */
  function DrawnBefore(cx: Context, p: Progress, vs: seq<Violation>, k: ConditionKey): nat {
    if vs == [] then p.drawn
    else if vs[|vs| - 1].Key() == k then SeeAll(cx, p, vs[..|vs| - 1]).drawn
    else DrawnBefore(cx, p, vs[..|vs| - 1], k)
  }

  /** The alerts about key `k` in a list are exactly `a` when given, and none otherwise. */
  ghost predicate OnlyFor(alerts: seq<Alert>, k: ConditionKey, a: Option<Alert>) {
    forall x :: x in alerts && x.Key() == k <==> a == Some(x) && x.Key() == k
  }

  function RaisedOf(o: Outcome): Option<Alert> { if o.Raised? then Some(o.alert) else None }
  function EscalatedOf(o: Outcome): Option<Alert> { if o.Escalated? then Some(o.alert) else None }
  function ResolvedOf(o: Outcome): Option<Alert> { if o.Resolved? then Some(o.alert) else None }

  ghost predicate WellKeyed(m: Conditions) {
    forall k :: k in m && m[k].active.Some? ==> m[k].active.value.Key() == k
  }

  lemma OutcomeKey(cx: Context, c: Option<Condition>, v: Option<Violation>, id: AlertId, k: ConditionKey)
    requires c.Some? && c.value.active.Some? ==> c.value.active.value.Key() == k
    requires v.Some? ==> v.value.Key() == k
    ensures var (n, o) := KeyStep(cx, c, v, id);
      && (o != Quiet ==> o.alert.Key() == k)
      && (n.Some? && n.value.active.Some? ==> n.value.active.value.Key() == k)
      && (o.Raised? ==> o.alert.alertId == id)
  {
  }

  lemma InPrefixOrLast<T>(s: seq<T>)
    requires s != []
    ensures forall x :: x in s <==> x in s[..|s| - 1] || x == s[|s| - 1]
  {
    assert s == s[..|s| - 1] + [s[|s| - 1]];
  }

  /** What the first loop has done to key `k` after handling `vs`. */
  ghost predicate SeenFor(cx: Context, p: Progress, vs: seq<Violation>, k: ConditionKey) {
    var q := SeeAll(cx, p, vs);
    match Lookup(vs, k)
    case None =>
      Get(q.states, k) == Get(p.states, k) && OnlyFor(q.raised, k, None) && OnlyFor(q.escalated, k, None)
    case Some(v) =>
      var (c, o) := PresentStep(cx, Get(p.states, k), v, cx.draw(DrawnBefore(cx, p, vs, k)));
      Get(q.states, k) == Some(c) && OnlyFor(q.raised, k, RaisedOf(o)) && OnlyFor(q.escalated, k, EscalatedOf(o))
  }

  lemma OnlyForGrows(alerts: seq<Alert>, k: ConditionKey, more: Option<Alert>)
    requires OnlyFor(alerts, k, None)
    requires more.Some? ==> more.value.Key() == k
    ensures OnlyFor(if more.Some? then alerts + [more.value] else alerts, k, more)
  {
  }

  lemma OnlyForKept(alerts: seq<Alert>, k: ConditionKey, a: Option<Alert>, more: Option<Alert>)
    requires OnlyFor(alerts, k, a)
    requires more.Some? ==> more.value.Key() != k
    ensures OnlyFor(if more.Some? then alerts + [more.value] else alerts, k, a)
  {
  }

  lemma SeenNext(cx: Context, p: Progress, vs: seq<Violation>, last: Violation)
    requires last.Key() !in KeysOf(vs) && WellKeyed(p.states)
    requires SeenFor(cx, p, vs, last.Key())
    ensures SeenFor(cx, p, vs + [last], last.Key())
  {
    var q, key := SeeAll(cx, p, vs), last.Key();
    var id := cx.draw(q.drawn);
    var o := PresentStep(cx, Get(q.states, key), last, id).1;
    OutcomeKey(cx, Get(q.states, key), Some(last), id, key);
    assert (vs + [last])[..|vs|] == vs;
    OnlyForGrows(q.raised, key, RaisedOf(o));
    OnlyForGrows(q.escalated, key, EscalatedOf(o));
  }

  lemma OthersNext(cx: Context, p: Progress, vs: seq<Violation>, last: Violation, k: ConditionKey)
    requires k != last.Key() && WellKeyed(SeeAll(cx, p, vs).states)
    requires SeenFor(cx, p, vs, k)
    ensures SeenFor(cx, p, vs + [last], k)
  {
    var q, key := SeeAll(cx, p, vs), last.Key();
    var id := cx.draw(q.drawn);
    var o := PresentStep(cx, Get(q.states, key), last, id).1;
    OutcomeKey(cx, Get(q.states, key), Some(last), id, key);
    assert (vs + [last])[..|vs|] == vs;
    var before := match Lookup(vs, k)
      case None => Quiet
      case Some(v) => PresentStep(cx, Get(p.states, k), v, cx.draw(DrawnBefore(cx, p, vs, k))).1;
    OnlyForKept(q.raised, k, RaisedOf(before), RaisedOf(o));
    OnlyForKept(q.escalated, k, EscalatedOf(before), EscalatedOf(o));
  }

  lemma {:induction false} SeeAllWellKeyed(cx: Context, p: Progress, vs: seq<Violation>)
    requires WellKeyed(p.states)
    ensures WellKeyed(SeeAll(cx, p, vs).states)
  {
    if vs != [] {
      var last, rest := vs[|vs| - 1], vs[..|vs| - 1];
      SeeAllWellKeyed(cx, p, rest);
      var q := SeeAll(cx, p, rest);
      OutcomeKey(cx, Get(q.states, last.Key()), Some(last), cx.draw(q.drawn), last.Key());
    }
  }

  lemma {:induction false} SeeAllAt(cx: Context, p: Progress, vs: seq<Violation>, k: ConditionKey)
    requires DistinctKeys(vs) && WellKeyed(p.states)
    requires p.raised == [] && p.escalated == []
    ensures SeenFor(cx, p, vs, k)
  {
    if vs != [] {
      var last, rest := vs[|vs| - 1], vs[..|vs| - 1];
      assert vs == rest + [last];
      SeeAllWellKeyed(cx, p, rest);
      SeeAllAt(cx, p, rest, k);
      if k == last.Key() {
        assert last.Key() !in KeysOf(rest);
        SeenNext(cx, p, rest, last);
      } else {
        OthersNext(cx, p, rest, last, k);
      }
    }
  }

  lemma {:induction false} SeeAllShape(cx: Context, p: Progress, vs: seq<Violation>)
    requires NoRepeats(p.order) && forall k :: k in p.order <==> k in p.states
    ensures var q := SeeAll(cx, p, vs);
      && NoRepeats(q.order)
      && (forall k :: k in q.order <==> k in q.states)
      && q.states.Keys == p.states.Keys + KeysOf(vs)
      && p.drawn <= q.drawn
  {
    if vs == [] {
      assert KeysOf(vs) == {};
    } else {
      SeeAllShape(cx, p, vs[..|vs| - 1]);
      InPrefixOrLast(vs);
      assert KeysOf(vs) == KeysOf(vs[..|vs| - 1]) + {vs[|vs| - 1].Key()};
    }
  }

  /** What the second loop has done to key `k` after handling `keys`. */
  ghost predicate ClearedFor(cx: Context, current: set<ConditionKey>, q: Clearing, keys: seq<ConditionKey>,
                             k: ConditionKey)
  {
    var r := ClearAll(cx, current, q, keys);
    if k in keys && k !in current && k in q.states then
      var (c, o) := AbsentStep(cx, q.states[k]);
      Get(r.states, k) == Some(c) && OnlyFor(r.resolved, k, ResolvedOf(o))
    else
      Get(r.states, k) == Get(q.states, k) && OnlyFor(r.resolved, k, None)
  }

  lemma {:induction false} ClearAllShape(cx: Context, current: set<ConditionKey>, q: Clearing, keys: seq<ConditionKey>)
    requires WellKeyed(q.states)
    ensures WellKeyed(ClearAll(cx, current, q, keys).states)
    ensures ClearAll(cx, current, q, keys).states.Keys == q.states.Keys
  {
    if keys != [] {
      ClearAllShape(cx, current, q, keys[..|keys| - 1]);
    }
  }

  lemma ClearedNext(cx: Context, current: set<ConditionKey>, q: Clearing, keys: seq<ConditionKey>, last: ConditionKey)
    requires WellKeyed(q.states) && last !in keys
    requires ClearedFor(cx, current, q, keys, last)
    ensures ClearedFor(cx, current, q, keys + [last], last)
  {
    var r := ClearAll(cx, current, q, keys);
    assert (keys + [last])[..|keys|] == keys;
    if last !in current && last in q.states {
      OutcomeKey(cx, Some(q.states[last]), None, 0, last);
      OnlyForGrows(r.resolved, last, ResolvedOf(AbsentStep(cx, q.states[last]).1));
    }
  }

  lemma OthersClearedNext(cx: Context, current: set<ConditionKey>, q: Clearing, keys: seq<ConditionKey>,
                          last: ConditionKey, k: ConditionKey)
    requires WellKeyed(ClearAll(cx, current, q, keys).states) && k != last
    requires ClearedFor(cx, current, q, keys, k)
    ensures ClearedFor(cx, current, q, keys + [last], k)
  {
    var r := ClearAll(cx, current, q, keys);
    assert (keys + [last])[..|keys|] == keys;
    if last !in current && last in r.states {
      OutcomeKey(cx, Some(r.states[last]), None, 0, last);
      var before :=
        if k in keys && k !in current && k in q.states then ResolvedOf(AbsentStep(cx, q.states[k]).1) else None;
      OnlyForKept(r.resolved, k, before, ResolvedOf(AbsentStep(cx, r.states[last]).1));
    }
  }

  lemma {:induction false} ClearAllAt(cx: Context, current: set<ConditionKey>, q: Clearing, keys: seq<ConditionKey>,
                                      k: ConditionKey)
    requires NoRepeats(keys) && WellKeyed(q.states) && q.resolved == []
    ensures ClearedFor(cx, current, q, keys, k)
  {
    if keys != [] {
      var last, rest := keys[|keys| - 1], keys[..|keys| - 1];
      assert keys == rest + [last];
      ClearAllShape(cx, current, q, rest);
      ClearAllAt(cx, current, q, rest, k);
      if k == last {
        assert last !in rest;
        ClearedNext(cx, current, q, rest, last);
      } else {
        OthersClearedNext(cx, current, q, rest, last, k);
      }
    }
  }

  function IdFor(cfg: Config, draw: nat -> AlertId, st: EngineState, input: CycleInput, k: ConditionKey): nat {
    DrawnBefore(ContextOf(cfg, draw, input), Progress(st.states, st.order, st.drawn, [], []), input.violations, k)
  }

  /** What the cycle means for key `k`. */
  function StepOf(cfg: Config, draw: nat -> AlertId, st: EngineState, input: CycleInput, k: ConditionKey)
    : (Option<Condition>, Outcome)
  {
    KeyStep(ContextOf(cfg, draw, input), Get(st.states, k), Lookup(input.violations, k),
            draw(IdFor(cfg, draw, st, input, k)))
  }

  /** Only the shape of the state that the two loops rely on. */
  ghost predicate ShapeInv(st: EngineState) {
    NoRepeats(st.order) && WellKeyed(st.states) && forall k :: k in st.order <==> k in st.states
  }

  lemma SeenAt(cfg: Config, draw: nat -> AlertId, st: EngineState, input: CycleInput, k: ConditionKey)
    requires ShapeInv(st) && DistinctKeys(input.violations)
    ensures var p := Seen(cfg, draw, st, input);
      var v := Lookup(input.violations, k);
      && WellKeyed(p.states) && NoRepeats(p.order)
      && (k in p.order <==> k in p.states)
      && (v.None? ==>
        Get(p.states, k) == Get(st.states, k) && OnlyFor(p.raised, k, None) && OnlyFor(p.escalated, k, None))
      && (v.Some? ==>
        var (c, o) := StepOf(cfg, draw, st, input, k);
        Get(p.states, k) == c && OnlyFor(p.raised, k, RaisedOf(o)) && OnlyFor(p.escalated, k, EscalatedOf(o)))
  {
    var cx := ContextOf(cfg, draw, input);
    var p0 := Progress(st.states, st.order, st.drawn, [], []);
    SeeAllAt(cx, p0, input.violations, k);
    SeeAllWellKeyed(cx, p0, input.violations);
    SeeAllShape(cx, p0, input.violations);
  }

  /** Both loops together do to every key exactly its own step, whatever the other keys do. */
  lemma CycleAt(cfg: Config, draw: nat -> AlertId, st: EngineState, input: CycleInput, k: ConditionKey)
    requires ShapeInv(st) && DistinctKeys(input.violations)
    ensures var (st', u) := Cycle(cfg, draw, st, input);
      var (c, o) := StepOf(cfg, draw, st, input, k);
      && Get(st'.states, k) == c
      && OnlyFor(u.raised, k, RaisedOf(o))
      && OnlyFor(u.escalated, k, EscalatedOf(o))
      && OnlyFor(u.resolved, k, ResolvedOf(o))
  {
    SeenAt(cfg, draw, st, input, k);
    var p := Seen(cfg, draw, st, input);
    ClearAllAt(ContextOf(cfg, draw, input), KeysOf(input.violations), Clearing(p.states, []), p.order, k);
  }

  lemma CycleShape(cfg: Config, draw: nat -> AlertId, st: EngineState, input: CycleInput)
    requires ShapeInv(st) && DistinctKeys(input.violations)
    ensures var st' := Cycle(cfg, draw, st, input).0;
      && ShapeInv(st')
      && st'.states.Keys == st.states.Keys + KeysOf(input.violations)
      && st.drawn <= st'.drawn
  {
    var cx := ContextOf(cfg, draw, input);
    var p0 := Progress(st.states, st.order, st.drawn, [], []);
    SeeAllShape(cx, p0, input.violations);
    var p := Seen(cfg, draw, st, input);
    SeeAllWellKeyed(cx, p0, input.violations);
    ClearAllShape(cx, KeysOf(input.violations), Clearing(p.states, []), p.order);
  }

  // ---------------------------------------------------------------- the invariant is kept

  lemma StateInvShape(cfg: Config, st: EngineState)
    requires StateInv(cfg, st)
    ensures ShapeInv(st)
  {
  }

  lemma KeyStepInv(cx: Context, last: Option<Time>, k: ConditionKey, c: Option<Condition>, v: Option<Violation>,
                   id: AlertId)
    requires cx.cfg.Valid() && cx.session.Valid()
    requires last.Some? ==> last.value <= cx.now
    requires c.Some? ==> ConditionInv(cx.cfg, last, k, c.value)
    requires v.Some? ==> v.value.Valid() && v.value.Key() == k
    ensures var (n, o) := KeyStep(cx, c, v, id);
      && (n.Some? ==> ConditionInv(cx.cfg, Some(cx.now), k, n.value))
      && (o.Raised? || o.Escalated? ==>
        o.alert.Valid() && o.alert.status.ActiveAlert? && o.alert.firstObservedAt <= cx.now)
      && (o.Resolved? ==> o.alert.Valid() && o.alert.status.ResolvedAlert?)
  {
  }

  /** The step of a key keeps the invariant of its condition and reports only sound alerts. */
  lemma KeyInvAt(cfg: Config, draw: nat -> AlertId, st: EngineState, input: CycleInput, k: ConditionKey)
    requires StateInv(cfg, st) && ValidInput(input)
    requires Refusal(st, input).None? && DistinctKeys(input.violations)
    ensures var (st', u) := Cycle(cfg, draw, st, input);
      && (k in st'.states ==> ConditionInv(cfg, st'.last, k, st'.states[k]))
      && (forall a: Alert :: a.Key() == k && (a in u.raised || a in u.escalated) ==> a.Valid() && a.status.ActiveAlert?)
      && (forall a: Alert :: a.Key() == k && a in u.resolved ==> a.Valid() && a.status.ResolvedAlert?)
  {
    StateInvShape(cfg, st);
    CycleAt(cfg, draw, st, input, k);
    KeyStepInv(ContextOf(cfg, draw, input), st.last, k, Get(st.states, k), Lookup(input.violations, k),
               draw(IdFor(cfg, draw, st, input, k)));
  }

  /** An accepted cycle keeps the invariant, and every alert it reports satisfies the alert constructor. */
  lemma CycleInv(cfg: Config, draw: nat -> AlertId, st: EngineState, input: CycleInput)
    requires StateInv(cfg, st) && ValidInput(input)
    requires Refusal(st, input).None? && DistinctKeys(input.violations)
    ensures var (st', u) := Cycle(cfg, draw, st, input);
      && StateInv(cfg, st')
      && (forall a :: a in u.raised || a in u.escalated ==> a.Valid() && a.status.ActiveAlert?)
      && (forall a :: a in u.resolved ==> a.Valid() && a.status.ResolvedAlert?)
  {
    StateInvShape(cfg, st);
    CycleShape(cfg, draw, st, input);
    var (st', u) := Cycle(cfg, draw, st, input);
    hide ConditionInv;
    forall k | k in st'.states
      ensures ConditionInv(cfg, st'.last, k, st'.states[k])
    {
      KeyInvAt(cfg, draw, st, input, k);
    }
    forall a | a in u.raised || a in u.escalated || a in u.resolved
      ensures a.Valid()
      ensures a in u.raised || a in u.escalated ==> a.status.ActiveAlert?
      ensures a in u.resolved ==> a.status.ResolvedAlert?
    {
      KeyInvAt(cfg, draw, st, input, a.Key());
    }
  }

  /** Every call keeps the invariant; a refused call leaves the tracked conditions and the id factory alone. */
  lemma ObserveInv(cfg: Config, draw: nat -> AlertId, st: EngineState, input: CycleInput)
    requires StateInv(cfg, st) && ValidInput(input)
    ensures var (st', r) := Observe(cfg, draw, st, input);
      && StateInv(cfg, st')
      && (r.Err? ==> st'.states == st.states && st'.order == st.order && st'.drawn == st.drawn)
      && (r.Ok? <==> Refusal(st, input).None? && DistinctKeys(input.violations))
  {
    FirstDuplicateNone(input.violations);
    if Refusal(st, input).None? && DistinctKeys(input.violations) {
      CycleInv(cfg, draw, st, input);
    }
  }

  /** The session is one the engine takes observations for at this time. */
  predicate Timely(st: EngineState, x: CycleInput) {
    && x.session.status == ActiveSession && x.session.startedAt <= x.now
    && (st.last.Some? ==> st.last.value <= x.now)
  }

  /**
   A call is accepted exactly for an active session, at a time not before the session, nor before the last call, for
   the session observed so far, and without a repeated key; otherwise it gets the error of the first of these that
   does not hold, and only a repeated key leaves a trace of the call.
   */
  lemma AcceptedExactly(cfg: Config, draw: nat -> AlertId, st: EngineState, x: CycleInput)
    ensures var (t, r) := Observe(cfg, draw, st, x);
      var sameSession := st.session.Some? ==> st.session.value == x.session.sessionId;
      && (r.Ok? <==> Timely(st, x) && sameSession && DistinctKeys(x.violations))
      && (r == Err(InactiveSession) <==> x.session.status != ActiveSession)
      && (r == Err(BeforeSessionStart) <==> x.session.status == ActiveSession && x.now < x.session.startedAt)
      && (r == Err(TimeWentBack) <==>
        && x.session.status == ActiveSession && x.now >= x.session.startedAt
        && st.last.Some? && x.now < st.last.value)
      && (r == Err(SessionChanged) <==> Timely(st, x) && !sameSession)
      && (r.Err? && r.error.DuplicateViolation? <==> Timely(st, x) && sameSession && !DistinctKeys(x.violations))
      && (r.Err? && !r.error.DuplicateViolation? ==> t == st)
      && (r.Ok? ==> t.last == Some(x.now) && t.session == Some(x.session.sessionId))
  {
    hide Cycle;
    FirstDuplicateNone(x.violations);
    CycleRemembers(cfg, draw, st, x);
  }

  lemma CycleRemembers(cfg: Config, draw: nat -> AlertId, st: EngineState, x: CycleInput)
    ensures var t := Cycle(cfg, draw, st, x).0; t.last == Some(x.now) && t.session == Some(x.session.sessionId)
  {
  }

  /**
   A call refused for a repeated key tracks nothing, but it is remembered: a call from before it is then
   refused for its time, and a call of another session for its session.
   */
  lemma RepeatedKeyIsRemembered(cfg: Config, draw: nat -> AlertId, st: EngineState, input: CycleInput, next: CycleInput)
    requires Refusal(st, input).None? && !DistinctKeys(input.violations)
    requires next.session.IsActive() && next.session.startedAt <= next.now
    ensures var (st', r) := Observe(cfg, draw, st, input);
      && r.Err? && r.error.DuplicateViolation?
      && st'.states == st.states && st'.order == st.order && st'.drawn == st.drawn
      && st'.last == Some(input.now) && st'.session == Some(input.session.sessionId)
      && (next.now < input.now ==> Observe(cfg, draw, st', next) == (st', Err(TimeWentBack)))
      && (next.now >= input.now && next.session.sessionId != input.session.sessionId ==>
        Observe(cfg, draw, st', next) == (st', Err(SessionChanged)))
  {
    FirstDuplicateNone(input.violations);
  }
}
