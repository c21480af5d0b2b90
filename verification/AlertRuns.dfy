/**
 Runs of calls on one engine: observations, accepted or refused, and resets in any order.
 A run amounts to the trace of the cycles accepted since the last reset, and all snapshots
 of one alert in a run agree on their payload.
 */
module AlertRuns {
  import opened Wrappers
  import opened WorkSessions
  import opened SafetyAlerts
  import opened AlertCycles
  import opened AlertTrace
  import opened AlertDeltas

  datatype Call = Observation(input: CycleInput) | WorkEnded

  /** The calls an engine receives from its construction on. */
  datatype Run = Run(cfg: Config, draw: nat -> AlertId, calls: seq<Call>)
  {
    ghost predicate Valid() {
      && cfg.Valid()
      && forall i :: 0 <= i < |calls| && calls[i].Observation? ==> ValidInput(calls[i].input)
    }

    function StateAfter(n: nat): EngineState
      requires n <= |calls|
    {
      if n == 0 then Fresh(0)
      else
        match calls[n - 1]
        case Observation(input) => Observe(cfg, draw, StateAfter(n - 1), input).0
        case WorkEnded => Fresh(StateAfter(n - 1).drawn)
    }

    function AnswerAt(i: nat): Result<Update, EngineError>
      requires i < |calls|
    {
      match calls[i]
      case Observation(input) => Observe(cfg, draw, StateAfter(i), input).1
      case WorkEnded => Ok(Update([], [], [], []))
    }

    /** The cycles accepted since the last reset, and the ids drawn before it. */
    function TraceAfter(n: nat): Trace
      requires n <= |calls|
    {
      if n == 0 then Trace(cfg, draw, 0, [])
      else
        match calls[n - 1]
        case Observation(input) =>
          var t := TraceAfter(n - 1);
          if AnswerAt(n - 1).Ok? then t.(h := t.h + [input]) else t
        case WorkEnded => Trace(cfg, draw, StateAfter(n - 1).drawn, [])
    }

    ghost predicate FollowsTrace(n: nat)
      requires n <= |calls|
    {
      var st, t := StateAfter(n), TraceAfter(n);
      && t.cfg == cfg && t.draw == draw
      && StateInv(cfg, st) && t.Accepted()
      && (var x := t.StateAfter(|t.h|); st.states == x.states && st.order == x.order && st.drawn == x.drawn)
      && (t.h != [] ==>
        && st.last.Some? && t.h[|t.h| - 1].now <= st.last.value
        && st.session == Some(t.h[|t.h| - 1].session.sessionId))
    }

    lemma RunNextAccepted(i: nat)
      requires Valid() && i < |calls| && FollowsTrace(i) && calls[i].Observation? && AnswerAt(i).Ok?
      ensures FollowsTrace(i + 1)
    {
      hide StateInv, Seen, ClearedUp, DistinctKeys, ValidInput;
      var input := calls[i].input;
      var st, t := StateAfter(i), TraceAfter(i);
      var t' := t.(h := t.h + [input]);
      ObserveInv(cfg, draw, st, input);
      TraceGrows(t, input, st);
      TraceExtended(t, input);
      CycleOfSameContents(cfg, draw, st, t.StateAfter(|t.h|), input);
      var st' := Observe(cfg, draw, st, input).0;
      assert StateAfter(i + 1) == st' && TraceAfter(i + 1) == t';
      assert t'.h[|t'.h| - 1] == input;
    }

    lemma RunNextRefused(i: nat)
      requires Valid() && i < |calls| && FollowsTrace(i) && calls[i].Observation? && AnswerAt(i).Err?
      ensures FollowsTrace(i + 1)
    {
      ObserveInv(cfg, draw, StateAfter(i), calls[i].input);
    }

    lemma RunNext(i: nat)
      requires Valid() && i < |calls| && FollowsTrace(i)
      ensures FollowsTrace(i + 1)
    {
      if calls[i].WorkEnded? {
      } else if AnswerAt(i).Ok? {
        RunNextAccepted(i);
      } else {
        RunNextRefused(i);
      }
    }

    lemma RunStart()
      requires Valid()
      ensures FollowsTrace(0)
    {
    }

    /** Every run of calls is, in what it tracks and draws, the trace of its accepted cycles. */
    lemma {:induction false} RunIsTrace(n: nat)
      requires Valid() && n <= |calls|
      ensures FollowsTrace(n)
    {
      hide *;
      if n == 0 {
        RunStart();
      } else {
        RunIsTrace(n - 1);
        RunNext(n - 1);
      }
    }

    /** The last accepted cycle of the trace after call `i`. */
    function LastCycle(i: nat): int
      requires i < |calls|
    {
      |TraceAfter(i + 1).h| - 1
    }

    /** What an accepted call reports is the update of its cycle in the trace since the last reset. */
    lemma AnswersAreUpdates(i: nat)
      requires Valid() && i < |calls| && calls[i].Observation? && AnswerAt(i).Ok?
      ensures var t := TraceAfter(i + 1);
        && t.Accepted() && t.h != [] && t.h[LastCycle(i)] == calls[i].input
        && AnswerAt(i).value == t.UpdateAt(LastCycle(i))
    {
      RunIsTrace(i);
      RunIsTrace(i + 1);
      UpdateOfTrace(i);
    }

    lemma UpdateOfTrace(i: nat)
      requires Valid() && i < |calls| && calls[i].Observation? && AnswerAt(i).Ok? && FollowsTrace(i)
      ensures var t := TraceAfter(i + 1);
        && t.h != [] && t.h[LastCycle(i)] == calls[i].input
        && AnswerAt(i).value == t.UpdateAt(LastCycle(i))
    {
      hide StateInv, Seen, ClearedUp, ActiveAlerts;
      var (t, input) := (TraceAfter(i), calls[i].input);
      TracePrefix(t, t.(h := t.h + [input]), |t.h|);
      CycleOfSameContents(cfg, draw, StateAfter(i), t.StateAfter(|t.h|), input);
    }

    /**
     In every run, with refused calls and resets in between, an accepted call reports a key as raised,
     escalated or resolved exactly when the key's history since the last reset demands it.
     */
    lemma RunCharacterisation(i: nat, k: ConditionKey)
      requires Valid() && i < |calls| && calls[i].Observation? && AnswerAt(i).Ok?
      ensures var (u, t) := (AnswerAt(i).value, TraceAfter(i + 1));
        && (t.Mentions(u.raised, k) <==> t.HistoryOf(k).MustRaise(LastCycle(i)))
        && (t.Mentions(u.escalated, k) <==> t.HistoryOf(k).MustEscalate(LastCycle(i)))
        && (t.Mentions(u.resolved, k) <==> t.HistoryOf(k).MustResolve(LastCycle(i)))
    {
      AnswersAreUpdates(i);
      TraceAfter(i + 1).TraceCharacterisation(LastCycle(i), k);
    }

    // -------------------------------------------------------------- one payload per alert

    /** All alerts raised in the first `n` calls, in the order their ids were drawn. */
    function RaisedLog(n: nat): seq<Alert>
      requires n <= |calls|
    {
      if n == 0 then []
      else RaisedLog(n - 1) + (if AnswerAt(n - 1).Ok? then AnswerAt(n - 1).value.raised else [])
    }

    ghost predicate LogInv(n: nat)
      requires n <= |calls|
    {
      OriginInv(cfg, draw, StateAfter(n), RaisedLog(n))
    }

    ghost predicate Reported(i: nat, a: Alert)
      requires i < |calls|
    {
      AnswerAt(i).Ok? && Mentioned(AnswerAt(i).value, a)
    }

    lemma LogNext(i: nat)
      requires Valid() && i < |calls| && LogInv(i)
      ensures LogInv(i + 1)
      ensures forall a :: Reported(i, a) ==> OriginatesIn(draw, a, RaisedLog(i + 1))
    {
      var st, log := StateAfter(i), RaisedLog(i);
      match calls[i]
      case WorkEnded =>
        assert RaisedLog(i + 1) == log;
      case Observation(input) =>
        ObserveInv(cfg, draw, st, input);
        if AnswerAt(i).Ok? {
          CycleOrigins(cfg, draw, st, input, log);
        } else {
          assert RaisedLog(i + 1) == log;
        }
    }

    lemma LogStart()
      requires Valid()
      ensures LogInv(0)
    {
    }

    lemma {:induction false} LogKept(n: nat)
      requires Valid() && n <= |calls|
      ensures LogInv(n)
    {
      hide *;
      if n == 0 {
        LogStart();
      } else {
        LogKept(n - 1);
        LogNext(n - 1);
      }
    }

    lemma {:induction false} LogGrows(i: nat, n: nat)
      requires i <= n <= |calls|
      ensures |RaisedLog(i)| <= |RaisedLog(n)| && RaisedLog(n)[..|RaisedLog(i)|] == RaisedLog(i)
    {
      if i < n {
        LogGrows(i, n - 1);
      }
    }

    lemma ReportedOriginates(i: nat, a: Alert)
      requires Valid() && i < |calls| && Reported(i, a)
      ensures OriginatesIn(draw, a, RaisedLog(|calls|))
    {
      hide OriginatesIn, LogInv, Reported;
      LogKept(i);
      LogNext(i);
      LogGrows(i + 1, |calls|);
      OriginInLonger(draw, a, RaisedLog(i + 1), RaisedLog(|calls|));
    }

    /**
     All snapshots of one alert that a run ever reports agree on everything but severity and
     closing, even when the violation's summary changes between cycles.
     */
    lemma OnePayloadPerAlert(i: nat, a: Alert, j: nat, b: Alert)
      requires Valid() && i < |calls| && j < |calls|
      requires forall x, y :: draw(x) == draw(y) ==> x == y
      requires Reported(i, a) && Reported(j, b) && a.alertId == b.alertId
      ensures Core(a) == Core(b)
    {
      ReportedOriginates(i, a);
      ReportedOriginates(j, b);
      var log := RaisedLog(|calls|);
      var d :| 0 <= d < |log| && a.alertId == draw(d) && Core(a) == Core(log[d]);
      var e :| 0 <= e < |log| && b.alertId == draw(e) && Core(b) == Core(log[e]);
      assert d == e;
    }
  }

  // ---------------------------------------------------------------- where a snapshot comes from

  /** An alert snapshot carries the payload of some logged raise and the id drawn for it. */
  ghost predicate OriginatesIn(draw: nat -> AlertId, a: Alert, log: seq<Alert>) {
    exists d :: 0 <= d < |log| && a.alertId == draw(d) && Core(a) == Core(log[d])
  }

  ghost predicate OriginInv(cfg: Config, draw: nat -> AlertId, st: EngineState, log: seq<Alert>) {
    && StateInv(cfg, st) && |log| == st.drawn
    && (forall d :: 0 <= d < |log| ==> log[d].alertId == draw(d))
    && (forall k :: k in st.states && st.states[k].active.Some? ==> OriginatesIn(draw, st.states[k].active.value, log))
  }

  ghost predicate Mentioned(u: Update, a: Alert) {
    a in u.raised || a in u.escalated || a in u.resolved || a in u.active
  }

  lemma OriginInLonger(draw: nat -> AlertId, a: Alert, log: seq<Alert>, longer: seq<Alert>)
    requires OriginatesIn(draw, a, log) && |log| <= |longer| && longer[..|log|] == log
    ensures OriginatesIn(draw, a, longer)
  {
    var d :| 0 <= d < |log| && a.alertId == draw(d) && Core(a) == Core(log[d]);
    assert longer[d] == longer[..|log|][d];
  }

  /** A key's step hands on the payload of its open alert. */
  lemma KeyStepCore(cx: Context, c: Option<Condition>, v: Option<Violation>, id: AlertId)
    requires c.Some? && c.value.active.Some? ==>
      c.value.active.value.status.ActiveAlert? && c.value.active.value.resolvedAt.None?
    ensures var (n, o) := KeyStep(cx, c, v, id);
      && (o.Raised? ==> n.Some? && n.value.active == Some(o.alert))
      && (o.Escalated? || o.Resolved? ==>
        c.Some? && c.value.active.Some? && Core(o.alert) == Core(c.value.active.value)
          && o.alert.alertId == c.value.active.value.alertId)
      && (!o.Raised? && n.Some? && n.value.active.Some? ==>
        && c.Some? && c.value.active.Some?
        && Core(n.value.active.value) == Core(c.value.active.value)
        && n.value.active.value.alertId == c.value.active.value.alertId)
  {
  }

  lemma KeyOrigins(cfg: Config, draw: nat -> AlertId, st: EngineState, input: CycleInput, log: seq<Alert>,
                   k: ConditionKey)
    requires OriginInv(cfg, draw, st, log) && DistinctKeys(input.violations)
    ensures var (st', u) := Cycle(cfg, draw, st, input);
      && (k in st'.states && st'.states[k].active.Some? ==>
        OriginatesIn(draw, st'.states[k].active.value, log + u.raised))
      && (forall a: Alert :: a.Key() == k && (a in u.raised || a in u.escalated || a in u.resolved) ==>
        OriginatesIn(draw, a, log + u.raised))
  {
    StateInvShape(cfg, st);
    CycleAt(cfg, draw, st, input, k);
    RaisedInDrawOrder(cfg, draw, st, input);
    var u := Cycle(cfg, draw, st, input).1;
    var c := Get(st.states, k);
    var id := draw(IdFor(cfg, draw, st, input, k));
    KeyStepCore(ContextOf(cfg, draw, input), c, Lookup(input.violations, k), id);
    OutcomeKey(ContextOf(cfg, draw, input), c, Lookup(input.violations, k), id, k);
    if c.Some? && c.value.active.Some? {
      assert (log + u.raised)[..|log|] == log;
      OriginInLonger(draw, c.value.active.value, log, log + u.raised);
    }
    forall a | a in u.raised ensures OriginatesIn(draw, a, log + u.raised) {
      var j :| 0 <= j < |u.raised| && u.raised[j] == a;
      assert (log + u.raised)[|log| + j] == a;
    }
  }

  lemma MentionOriginates(cfg: Config, draw: nat -> AlertId, st: EngineState, input: CycleInput, log: seq<Alert>,
                          a: Alert)
    requires OriginInv(cfg, draw, st, log) && DistinctKeys(input.violations) && ShapeInv(Cycle(cfg, draw, st, input).0)
    requires Mentioned(Cycle(cfg, draw, st, input).1, a)
    ensures OriginatesIn(draw, a, log + Cycle(cfg, draw, st, input).1.raised)
  {
    hide StateInv, OriginatesIn, ShapeInv;
    ActiveAlertsListing(Cycle(cfg, draw, st, input).0);
    KeyOrigins(cfg, draw, st, input, log, a.Key());
  }

  /** A longer log of raises: the alerts of the cycle are appended under the ids drawn for them. */
  lemma LogLonger(cfg: Config, draw: nat -> AlertId, st: EngineState, input: CycleInput, log: seq<Alert>)
    requires OriginInv(cfg, draw, st, log)
    ensures var ((st', u), longer) := (Cycle(cfg, draw, st, input), log + Cycle(cfg, draw, st, input).1.raised);
      |longer| == st'.drawn && forall d :: 0 <= d < |longer| ==> longer[d].alertId == draw(d)
  {
    hide StateInv, OriginatesIn, Seen, ClearedUp, ActiveAlerts;
    RaisedInDrawOrder(cfg, draw, st, input);
    var u := Cycle(cfg, draw, st, input).1;
    forall d | |log| <= d < |log + u.raised| ensures (log + u.raised)[d].alertId == draw(d) {
      assert (log + u.raised)[d] == u.raised[d - |log|];
      assert draw(st.drawn + (d - |log|)) == draw(d);
    }
  }

  lemma CycleOrigins(cfg: Config, draw: nat -> AlertId, st: EngineState, input: CycleInput, log: seq<Alert>)
    requires OriginInv(cfg, draw, st, log) && ValidInput(input)
    requires Refusal(st, input).None? && DistinctKeys(input.violations)
    ensures var (st', u) := Cycle(cfg, draw, st, input);
      && OriginInv(cfg, draw, st', log + u.raised)
      && forall a :: Mentioned(u, a) ==> OriginatesIn(draw, a, log + u.raised)
  {
    hide StateInv, OriginatesIn, ShapeInv, Cycle, Mentioned;
    var (st', u) := Cycle(cfg, draw, st, input);
    CycleInv(cfg, draw, st, input);
    StateInvShape(cfg, st');
    LogLonger(cfg, draw, st, input, log);
    forall k | k in st'.states && st'.states[k].active.Some?
      ensures OriginatesIn(draw, st'.states[k].active.value, log + u.raised)
    {
      KeyOrigins(cfg, draw, st, input, log, k);
    }
    forall a | Mentioned(u, a) ensures OriginatesIn(draw, a, log + u.raised) {
      MentionOriginates(cfg, draw, st, input, log, a);
    }
  }

  /** A trace and a longer one agree on the states they share. */
  lemma {:induction false} TracePrefix(t: Trace, t': Trace, n: nat)
    requires n <= |t.h| <= |t'.h| && t'.h[..|t.h|] == t.h
    requires t'.cfg == t.cfg && t'.draw == t.draw && t'.base == t.base
    ensures t'.StateAfter(n) == t.StateAfter(n)
  {
    if n > 0 {
      TracePrefix(t, t', n - 1);
      assert t'.h[n - 1] == t'.h[..|t.h|][n - 1];
    }
  }

  lemma TraceExtended(t: Trace, input: CycleInput)
    ensures var t' := t.(h := t.h + [input]);
      t'.StateAfter(|t'.h|) == Cycle(t.cfg, t.draw, t.StateAfter(|t.h|), input).0
  {
    TracePrefix(t, t.(h := t.h + [input]), |t.h|);
  }

  /** A cycle depends on what is tracked and drawn, not on what the refused calls recorded. */
  lemma CycleOfSameContents(cfg: Config, draw: nat -> AlertId, a: EngineState, b: EngineState, input: CycleInput)
    requires a.states == b.states && a.order == b.order && a.drawn == b.drawn
    ensures Cycle(cfg, draw, a, input) == Cycle(cfg, draw, b, input)
  {
  }

  /** An accepted observation extends the trace of accepted cycles by one. */
  lemma TraceGrows(t: Trace, input: CycleInput, st: EngineState)
    requires t.Accepted() && ValidInput(input) && DistinctKeys(input.violations) && Refusal(st, input).None?
    requires t.h != [] ==>
      && st.last.Some? && t.h[|t.h| - 1].now <= st.last.value
      && st.session == Some(t.h[|t.h| - 1].session.sessionId)
    ensures t.(h := t.h + [input]).Accepted()
  {
    var h := t.h + [input];
    forall i, j | 0 <= i < j < |h|
      ensures h[i].now <= h[j].now && h[i].session.sessionId == h[j].session.sessionId
    {
      if j == |t.h| && i < |t.h| - 1 {
        assert t.h[i].now <= t.h[|t.h| - 1].now;
      }
    }
  }

  lemma {:induction false} SeeAllDraws(cx: Context, p: Progress, vs: seq<Violation>)
    requires p.raised == []
    ensures var q := SeeAll(cx, p, vs);
      && q.drawn == p.drawn + |q.raised|
      && forall j :: 0 <= j < |q.raised| ==> q.raised[j].alertId == cx.draw(p.drawn + j)
  {
    if vs != [] {
      SeeAllDraws(cx, p, vs[..|vs| - 1]);
    }
  }

  /** The alerts raised in a cycle carry the next ids of the factory, in order. */
  lemma RaisedInDrawOrder(cfg: Config, draw: nat -> AlertId, st: EngineState, input: CycleInput)
    ensures var (st', u) := Cycle(cfg, draw, st, input);
      && st'.drawn == st.drawn + |u.raised|
      && forall j :: 0 <= j < |u.raised| ==> u.raised[j].alertId == draw(st.drawn + j)
  {
    SeeAllDraws(ContextOf(cfg, draw, input), Progress(st.states, st.order, st.drawn, [], []), input.violations);
  }
}
