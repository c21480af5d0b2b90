/**
 When a start is authorized, in terms of nothing but the events: the model became ready, frames were observed
 since, and the last assessment of them supports the request.
 */
module GateHistory {
  import opened Wrappers
  import opened PpeStability
  import opened PpeSafety
  import opened StartGate

  /** The event makes a new beginning: a start, a stop, a failure or a model that has become ready. */
  predicate Resets(e: GateEvent) {
    match e
    case Start(running) => !running
    case Stop => true
    case Shutdown => true
    case InferenceFailed => true
    case ModelReady(_, _) => true
    case _ => false
  }

  /** The model has been ready since event `j`. */
  predicate Prepared(r: Run, j: nat, n: nat) {
    && j < n <= |r.events| && r.events[j].ModelReady? && r.events[j].classes.Some?
    && forall m :: j < m < n ==> !Resets(r.events[m])
  }

  /** An authorization has been given after event `j`. */
  ghost predicate Spent(r: Run, j: nat, n: nat)
    requires r.Valid() && n <= |r.events|
  {
    exists i: nat :: j < i < n && r.AuthorizedAt(i).Some?
  }

  /** Event `m` brings a frame that counts: an operation is shown, and nothing has been authorized yet. */
  ghost predicate Takes(r: Run, j: nat, m: nat)
    requires r.Valid() && m < |r.events|
  {
    r.events[m].Detections? && r.events[m].observed.Some? && r.events[m].shown.Some? && !Spent(r, j, m)
  }

  ghost function Frames(r: Run, j: nat, n: nat): seq<Frame>
    requires r.Valid() && n <= |r.events|
  {
    if n <= j + 1 then []
    else
      Frames(r, j, n - 1)
      + (if Takes(r, j, n - 1) then [Frame(r.After(n - 1).seen, r.events[n - 1].observed.value)] else [])
  }

  /** The classes whose evidence is kept: those of the operation shown when the model became ready. */
  ghost function Tracked(r: Run, j: nat): seq<string>
    requires j < |r.events| && r.events[j].ModelReady? && r.events[j].classes.Some?
  {
    var shown := r.events[j].shown;
    if shown.Some? then RequiredClasses(shown.value.required, r.events[j].classes.value) else []
  }

  /** Event `d` brought the last frame, and its assessment has been neither used up nor timed out. */
  ghost predicate Current(r: Run, j: nat, d: nat, n: nat)
    requires r.Valid() && n <= |r.events|
  {
    && j < d < n && Takes(r, j, d) && !Spent(r, j, n)
    && forall m :: d < m < n ==> !Takes(r, j, m) && !r.events[m].AssessmentExpired?
  }

  /** What the assessment of event `d` was made from. */
  ghost function EvidenceOf(r: Run, j: nat, d: nat): Evidence
    requires r.Valid() && j < d < |r.events| && r.events[j].ModelReady? && r.events[j].classes.Some? && Takes(r, j, d)
  {
    Evidence(r.events[d].shown.value, r.events[j].classes.value, Tracked(r, j),
             LastFrames(r.cfg.stability.windowSize, Frames(r, j, d + 1)), r.events[d].now)
  }

  // ---------------------------------------------------------------- what the state remembers

  ghost predicate Remembers(r: Run, j: nat, n: nat)
    requires r.Valid() && Prepared(r, j, n)
  {
    var s := r.After(n);
    && s.modelReady && s.modelClasses == r.events[j].classes.value && s.required == Tracked(r, j)
    && s.window == LastFrames(r.cfg.stability.windowSize, Frames(r, j, n))
    && (s.authorized <==> Spent(r, j, n))
    && (forall d :: Current(r, j, d, n) ==> s.latest.Some? && s.latest.value.1 == EvidenceOf(r, j, d))
    && (s.latest.Some? && s.latest.value.0.CanStartOperation() ==> exists d :: Current(r, j, d, n))
  }

  lemma RememberStart(r: Run, j: nat)
    requires r.Valid() && Prepared(r, j, j + 1)
    ensures Remembers(r, j, j + 1)
  {
  }

  lemma SpentNext(r: Run, j: nat, n: nat)
    requires r.Valid() && j < n < |r.events|
    ensures Spent(r, j, n + 1) <==> Spent(r, j, n) || r.AuthorizedAt(n).Some?
  {
    hide Run.AuthorizedAt;
    if Spent(r, j, n) {
      var i: nat :| j < i < n && r.AuthorizedAt(i).Some?;
    }
  }

  lemma CurrentNext(r: Run, j: nat, d: nat, n: nat)
    requires r.Valid() && j < n < |r.events|
    ensures Current(r, j, d, n + 1) <==>
      && !Spent(r, j, n) && r.AuthorizedAt(n).None?
      && if Takes(r, j, n) then d == n else Current(r, j, d, n) && !r.events[n].AssessmentExpired?
  {
    hide Run.AuthorizedAt;
    SpentNext(r, j, n);
  }

  lemma PreparedNext(r: Run, j: nat, n: nat)
    requires Prepared(r, j, n) && n < |r.events| && !Resets(r.events[n])
    ensures Prepared(r, j, n + 1)
  {
  }

  /** A frame that counts is pushed into the window, and assessed. */
  lemma RememberFrame(r: Run, j: nat, n: nat, k: nat)
    requires r.Valid() && Prepared(r, j, n) && n < |r.events| && k == n + 1 && Remembers(r, j, n) && Takes(r, j, n)
    ensures Prepared(r, j, k) && Remembers(r, j, k)
  {
    hide Assessed, SnapshotOf, Push, LastFrames, Spent, Prepared, Current;
    PreparedNext(r, j, n);
    var f := Frame(r.After(n).seen, r.events[n].observed.value);
    PushKeepsLast(r.cfg.stability.windowSize, Frames(r, j, n), f);
    SpentNext(r, j, n);
    PreparedBefore(r, j, n);
    assert Frames(r, j, k) == Frames(r, j, n) + [f];
    assert r.After(k).window == Push(r.cfg.stability.windowSize, r.After(n).window, f);
    forall d: nat ensures Current(r, j, d, k) <==> d == n {
      CurrentNext(r, j, d, n);
    }
    assert Current(r, j, n, k);
  }

  lemma PreparedBefore(r: Run, j: nat, n: nat)
    requires Prepared(r, j, n)
    ensures j < n <= |r.events|
  {
  }

  /** Any other event adds no frame. */
  lemma RememberOther(r: Run, j: nat, n: nat, k: nat)
    requires r.Valid() && Prepared(r, j, n) && n < |r.events| && k == n + 1 && Remembers(r, j, n) && !Takes(r, j, n)
    requires !Resets(r.events[n])
    ensures Prepared(r, j, k) && Remembers(r, j, k)
  {
    hide Assessed, SnapshotOf, Push, LastFrames, Spent, Prepared, Current;
    PreparedNext(r, j, n);
    PreparedBefore(r, j, n);
    SpentNext(r, j, n);
    assert Frames(r, j, k) == Frames(r, j, n);
    forall d: nat
      ensures Current(r, j, d, k) <==>
        !Spent(r, j, n) && r.AuthorizedAt(n).None? && Current(r, j, d, n) && !r.events[n].AssessmentExpired?
    {
      CurrentNext(r, j, d, n);
    }
    var latest := r.After(k).latest;
    if latest.Some? && latest.value.0.CanStartOperation() {
      assert r.After(n).latest == latest;
      var d :| Current(r, j, d, n);
      NotSpent(r, j, d, n);
      assert Current(r, j, d, k);
    }
  }

  lemma {:induction false} RememberKept(r: Run, j: nat, n: nat)
    requires r.Valid() && Prepared(r, j, n)
    ensures Remembers(r, j, n)
  {
    hide Remembers, Takes;
    if n == j + 1 {
      RememberStart(r, j);
    } else {
      RememberKept(r, j, n - 1);
      if Takes(r, j, n - 1) {
        RememberFrame(r, j, n - 1, n);
      } else {
        RememberOther(r, j, n - 1, n);
      }
    }
  }

  /** The gate takes the model for ready exactly since an event that made it so. */
  lemma {:induction false} ReadyWasPrepared(r: Run, n: nat)
    requires r.Valid() && n <= |r.events|
    ensures r.After(n).modelReady ==> exists j :: Prepared(r, j, n)
  {
    if n > 0 {
      ReadyWasPrepared(r, n - 1);
      if r.After(n).modelReady {
        if r.events[n - 1].ModelReady? {
          assert Prepared(r, n - 1, n);
        } else {
          var j :| Prepared(r, j, n - 1);
          assert Prepared(r, j, n);
        }
      }
    }
  }

  // ---------------------------------------------------------------- the main theorem

  /** The request is for the operation shown, which the evidence supports item by item and not too long ago. */
  ghost predicate Supports(cfg: GateConfig, e: GateEvent, ev: Evidence)
    requires e.StartRequested?
  {
    && e.shown.Some? && e.cameraActive && e.shown.value.operationId == e.operationId
    && ev.operation.operationId == e.operationId && e.now - ev.at <= cfg.maxAge
    && ev.operation.active && ev.operation.required != []
    && forall x :: x in ev.operation.required ==>
      PpeSafety.Supported(cfg.stability, ev.required, ev.window, ev.modelClasses, x)
  }

  /** The state's own decision, with the meaning of a compliant assessment spelled out. */
  lemma MayStartMeans(cfg: GateConfig, s: GateState, e: GateEvent)
    requires cfg.Valid() && GateInv(cfg, s) && e.StartRequested?
    ensures Step(cfg, s, e).1.Some? <==>
      s.modelReady && !s.authorized && s.latest.Some? && Supports(cfg, e, s.latest.value.1)
    ensures Step(cfg, s, e).1.Some? ==> s.latest.value.0.CanStartOperation()
    ensures s.latest.Some? && Supports(cfg, e, s.latest.value.1) ==> s.latest.value.0.CanStartOperation()
  {
    hide PpeSafety.Supported;
    if s.latest.Some? {
      var ev := s.latest.value.1;
      CompliantExactly(cfg.stability, ev.required, ev.window, ev.modelClasses, ev.operation);
    }
  }

  /** Since event `j` the model is ready, and the last frame, of event `d`, supports the request of event `i`. */
  ghost predicate Justified(r: Run, j: nat, d: nat, i: nat)
    requires r.Valid() && i < |r.events| && r.events[i].StartRequested?
  {
    Prepared(r, j, i) && Current(r, j, d, i) && Supports(r.cfg, r.events[i], EvidenceOf(r, j, d))
  }

  /**
   A start request is authorized exactly when the model has become ready and not been reset since, nothing has been
   authorized since, and the last frame's assessment has not timed out and supports the request.
   */
  lemma AuthorizedExactly(r: Run, i: nat)
    requires r.Valid() && i < |r.events|
    ensures r.AuthorizedAt(i).Some? <==> r.events[i].StartRequested? && exists j, d :: Justified(r, j, d, i)
  {
    hide GateInv, Supports, Current, Spent, Prepared, Step;
    if r.events[i].StartRequested? {
      r.StateKept(i);
      MayStartMeans(r.cfg, r.After(i), r.events[i]);
      if r.AuthorizedAt(i).Some? {
        ReadyWasPrepared(r, i);
        var j :| Prepared(r, j, i);
        RememberKept(r, j, i);
        var d :| Current(r, j, d, i);
        assert Justified(r, j, d, i);
      }
      if j, d :| Justified(r, j, d, i) {
        RememberKept(r, j, i);
        NotSpent(r, j, d, i);
      }
    } else {
      OnlyRequestsAuthorized(r, i);
    }
  }

  lemma NotSpent(r: Run, j: nat, d: nat, i: nat)
    requires r.Valid() && i <= |r.events| && Current(r, j, d, i)
    ensures !Spent(r, j, i)
  {
  }

  lemma OnlyRequestsAuthorized(r: Run, i: nat)
    requires r.Valid() && i < |r.events| && !r.events[i].StartRequested?
    ensures r.AuthorizedAt(i).None?
  {
  }
}
