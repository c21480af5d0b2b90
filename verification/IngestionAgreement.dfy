/**
 When a repeated delivery is accepted. Only the severity of an event may differ between its deliveries;
 rows whose hash was taken with the severity, by an earlier version, do not even allow that.
 */
module IngestionAgreement {
  import opened Wrappers
  import opened WorkSessions
  import opened SafetyAlerts
  import opened AlertRuns
  import opened AlertIngestion
  import opened IngestionRuns

  ghost predicate Injective(h: Hashing) {
    forall x, y :: h.digest(x) == h.digest(y) ==> x == y
  }

  /** The comparison refuses exactly other contents, and for an old row also another severity. */
  lemma ConflictExactly(h: Hashing, db: Database, row: IngestionRow, q: Payload, p: Payload)
    requires Injective(h)
    ensures row.hash == h.Of(q) ==>
      (Compare(h, db, p, row) == Refused(Conflict) <==> !SameContents(p, q))
    ensures row.hash == h.Legacy(q) ==> (Compare(h, db, p, row) == Refused(Conflict) <==> p != q)
  {
    assert Full(p) != SeverityFree(q.WithoutSeverity()) && Full(q) != SeverityFree(p.WithoutSeverity());
  }

  // ---------------------------------------------------------------- severity-free rows

  /** One delivery keeps to the agreement. */
  ghost predicate Keeps(h: Hashing, x: Txn, p: Payload) {
    && SameContents(x.payload, p)
    && (x.phase.Found? ==> x.phase.row.hash == h.Of(p))
    && x.phase != Refused(Conflict)
  }

  /** Every delivery of the event of `p` begun so far differs from `p` in severity only; none has conflicted. */
  ghost predicate Agreed(h: Hashing, s: System, p: Payload) {
    && (p.eventId in s.db.ingestions ==> s.db.ingestions[p.eventId].hash == h.Of(p))
    && forall t :: t in s.txns && s.txns[t].payload.eventId == p.eventId ==> Keeps(h, s.txns[t], p)
  }

  ghost predicate OnlySeverityDiffers(events: seq<DbEvent>, p: Payload) {
    forall i :: 0 <= i < |events| && events[i].Begins? && events[i].payload.eventId == p.eventId ==>
      SameContents(events[i].payload, p)
  }

  lemma AgreedNext(h: Hashing, s: System, e: DbEvent, p: Payload)
    requires Agreed(h, s, p)
    requires e.Begins? && e.payload.eventId == p.eventId ==> SameContents(e.payload, p)
    ensures Agreed(h, Step(h, s, e), p)
  {
    var s' := Step(h, s, e);
    if e.t in s.txns && s.txns[e.t].payload.eventId == p.eventId {
      assert h.Of(s.txns[e.t].payload) == h.Of(p);
      assert Keeps(h, s'.txns[e.t], p);
    }
    assert p.eventId in s'.db.ingestions ==> s'.db.ingestions[p.eventId].hash == h.Of(p);
    forall t | t in s'.txns && s'.txns[t].payload.eventId == p.eventId ensures Keeps(h, s'.txns[t], p) {
      assert t != e.t && t in s.txns ==> s'.txns[t] == s.txns[t];
    }
  }

  /** Deliveries that differ in severity only never conflict, in whatever order they interleave. */
  lemma {:induction false} SeverityNeverConflicts(h: Hashing, s: System, events: seq<DbEvent>, p: Payload)
    requires Agreed(h, s, p) && OnlySeverityDiffers(events, p)
    ensures Agreed(h, RunAll(h, s, events), p)
  {
    if events != [] {
      SeverityNeverConflicts(h, s, events[..|events| - 1], p);
      AgreedNext(h, RunAll(h, s, events[..|events| - 1]), events[|events| - 1], p);
    }
  }

  // ---------------------------------------------------------------- escalated rows

  ghost predicate HasEscalated(s: System, t: TxnId) {
    t in s.txns && s.txns[t].phase.Answered? && s.txns[t].phase.how == Escalated
  }

  /** An event that has been escalated is stored under the severity-free hash. */
  ghost predicate HashFreed(h: Hashing, s: System) {
    forall t :: HasEscalated(s, t) ==>
      var p := s.txns[t].payload; p.eventId in s.db.ingestions && s.db.ingestions[p.eventId].hash == h.Of(p)
  }

  /** A step changes the row of a stored event only by escalating it. */
  lemma RowStays(h: Hashing, s: System, e: DbEvent, key: EventId)
    requires key in s.db.ingestions
    ensures var s' := Step(h, s, e); key in s'.db.ingestions
    ensures var s' := Step(h, s, e);
      || s'.db.ingestions[key] == s.db.ingestions[key]
      || (HasEscalated(s', e.t) && s'.txns[e.t].payload.eventId == key)
  {
    hide Hashing.Of, Compare, LockedByOther;
  }

  lemma OthersStay(h: Hashing, s: System, e: DbEvent, t: TxnId)
    requires t != e.t && t in Step(h, s, e).txns
    ensures t in s.txns && Step(h, s, e).txns[t] == s.txns[t]
  {
    hide Compare, LockedByOther, Committed, Raised;
  }

  lemma OwnEscalation(h: Hashing, s: System, e: DbEvent)
    requires HasEscalated(Step(h, s, e), e.t)
    ensures var (s', p) := (Step(h, s, e), Step(h, s, e).txns[e.t].payload);
      || (HasEscalated(s, e.t) && s.txns[e.t] == s'.txns[e.t] && s'.db == s.db)
      || (p.eventId in s'.db.ingestions ==> s'.db.ingestions[p.eventId].hash == h.Of(p))
  {
    hide Hashing.Of, LockedByOther;
  }

  lemma NotBothEscalated(s: System, t: TxnId, u: TxnId)
    requires SystemInv(s) && HasEscalated(s, t) && HasEscalated(s, u) && t != u
    ensures s.txns[t].payload.eventId != s.txns[u].payload.eventId
  {
    hide DbInv, PhaseInv;
    assert PairInv(s.txns[t], s.txns[u]);
  }

  lemma FreedNext(h: Hashing, s: System, e: DbEvent)
    requires HashFreed(h, s) && SystemInv(Step(h, s, e))
    ensures HashFreed(h, Step(h, s, e))
  {
    hide SystemInv, Hashing.Of, Step;
    var s' := Step(h, s, e);
    forall t | HasEscalated(s', t)
      ensures var p := s'.txns[t].payload;
        p.eventId in s'.db.ingestions && s'.db.ingestions[p.eventId].hash == h.Of(p)
    {
      Stored(s', t);
      if t == e.t {
        OwnEscalation(h, s, e);
      } else {
        OthersStay(h, s, e, t);
        assert HasEscalated(s, t);
        RowStays(h, s, e, s.txns[t].payload.eventId);
        if HasEscalated(s', e.t) {
          NotBothEscalated(s', t, e.t);
        }
      }
    }
  }

  lemma Stored(s: System, t: TxnId)
    requires SystemInv(s) && t in s.txns && s.txns[t].phase.Answered?
    ensures s.txns[t].payload.eventId in s.db.ingestions
  {
    assert PhaseInv(s.db, s.txns[t]);
  }

  lemma {:induction false} FreedKept(h: Hashing, db0: Database, events: seq<DbEvent>)
    requires DbInv(db0)
    ensures HashFreed(h, RunAll(h, Initial(db0), events))
  {
    hide DbInv, SystemInv, History, HashFreed, Step;
    if events == [] {
      NothingFreed(h, db0);
    } else {
      FreedKept(h, db0, events[..|events| - 1]);
      EveryRun(h, db0, events);
      FreedNext(h, RunAll(h, Initial(db0), events[..|events| - 1]), events[|events| - 1]);
    }
  }

  lemma NothingFreed(h: Hashing, db0: Database)
    ensures HashFreed(h, RunAll(h, Initial(db0), []))
  {
  }

  /** Once escalated, an event accepts every later delivery that differs in severity only, whatever its hash was. */
  lemma EscalatedAcceptsBoth(h: Hashing, db0: Database, events: seq<DbEvent>, t: TxnId, q: Payload)
    requires DbInv(db0)
    requires var s := RunAll(h, Initial(db0), events);
      HasEscalated(s, t) && SameContents(q, s.txns[t].payload)
    ensures var s := RunAll(h, Initial(db0), events);
      q.eventId in s.db.ingestions && Compare(h, s.db, q, s.db.ingestions[q.eventId]) != Refused(Conflict)
  {
    FreedKept(h, db0, events);
    assert HasEscalated(RunAll(h, Initial(db0), events), t);
  }

  // ---------------------------------------------------------------- rows hashed with their severity

  /** The old row of `q` is still there; only `q` itself has got past it. */
  ghost predicate Stuck(h: Hashing, s: System, q: Payload, row: IngestionRow) {
    && q.eventId in s.db.ingestions && s.db.ingestions[q.eventId] == row && row.hash == h.Legacy(q)
    && forall t :: t in s.txns && s.txns[t].payload.eventId == q.eventId ==> StuckAt(h, s.txns[t], q, row)
  }

  ghost predicate StuckAt(h: Hashing, x: Txn, q: Payload, row: IngestionRow) {
    || x.phase.Begun? || x.phase.Refused? || (x.phase.Found? && x.phase.row == row)
    || (x.payload == q && (x.phase.Located? || (x.phase.Answered? && x.phase.how == Repeated)))
  }

  lemma StuckNext(h: Hashing, s: System, e: DbEvent, q: Payload, row: IngestionRow)
    requires Injective(h) && q.severity == Warning && Stuck(h, s, q, row)
    ensures Stuck(h, Step(h, s, e), q, row)
  {
    if e.Executes? && e.t in s.txns {
      var x := s.txns[e.t];
      if x.payload.eventId == q.eventId {
        ConflictExactly(h, s.db, row, q, x.payload);
        assert StuckAt(h, x, q, row);
      }
    }
  }

  lemma {:induction false} StuckKept(h: Hashing, s: System, events: seq<DbEvent>, q: Payload, row: IngestionRow)
    requires Injective(h) && q.severity == Warning && Stuck(h, s, q, row)
    ensures Stuck(h, RunAll(h, s, events), q, row)
  {
    if events != [] {
      StuckKept(h, s, events[..|events| - 1], q, row);
      StuckNext(h, RunAll(h, s, events[..|events| - 1]), events[|events| - 1], q, row);
    }
  }

  lemma StuckNeverCritical(h: Hashing, s: System, q: Payload, row: IngestionRow)
    requires SystemInv(s) && Stuck(h, s, q, row) && q.severity == Warning
    ensures !CriticalAnswered(s, row.alertId)
  {
    forall t | t in s.txns ensures !AnswersCritical(s.txns[t], row.alertId) {
      assert PhaseInv(s.db, s.txns[t]);
      if s.txns[t].payload.eventId == q.eventId {
        assert StuckAt(h, s.txns[t], q, row);
      }
    }
  }

  lemma StuckStart(h: Hashing, db0: Database, q: Payload)
    requires q.eventId in db0.ingestions && db0.ingestions[q.eventId].hash == h.Legacy(q)
    ensures Stuck(h, Initial(db0), q, db0.ingestions[q.eventId])
  {
  }

  /** An alert that is still no more than a warning is unchanged. */
  lemma UnraisedAlertKept(db0: Database, s: System, a: nat)
    requires History(db0, s) && a in db0.alerts && !WasCritical(s.db, a) && !WasCritical(db0, a)
    ensures a in s.db.alerts && s.db.alerts[a] == db0.alerts[a]
  {
    assert AlertsKept(db0, s.db);
  }

  /**
   A warning stored under its old hash can never be escalated: whatever is delivered, its rows stay as
   they are, and only deliveries equal to the first one are answered.
   */
  lemma OldWarningsStayWarnings(h: Hashing, db0: Database, events: seq<DbEvent>, q: Payload)
    requires Injective(h) && DbInv(db0) && q.severity == Warning && q.eventId in db0.ingestions
    requires var row := db0.ingestions[q.eventId]; row.hash == h.Legacy(q) && !db0.alerts[row.alertId].critical
    ensures var (s, row) := (RunAll(h, Initial(db0), events), db0.ingestions[q.eventId]);
      && q.eventId in s.db.ingestions && s.db.ingestions[q.eventId] == row
      && row.alertId in s.db.alerts && s.db.alerts[row.alertId] == db0.alerts[row.alertId]
      && forall t :: t in s.txns && s.txns[t].payload.eventId == q.eventId && s.txns[t].phase.Answered? ==>
        s.txns[t].payload == q
  {
    hide SystemInv, CriticalAnswered, RunAll, History, Grows;
    var (s, row) := (RunAll(h, Initial(db0), events), db0.ingestions[q.eventId]);
    StuckStart(h, db0, q);
    StuckKept(h, Initial(db0), events, q, row);
    EveryRun(h, db0, events);
    CriticalExactly(h, db0, events, row.alertId);
    StuckNeverCritical(h, s, q, row);
    UnraisedAlertKept(db0, s, row.alertId);
    forall t | t in s.txns && s.txns[t].payload.eventId == q.eventId && s.txns[t].phase.Answered?
      ensures s.txns[t].payload == q
    {
      assert StuckAt(h, s.txns[t], q, row);
    }
  }

  /** In particular the critical re-send of such a warning is answered with a conflict. */
  lemma OldWarningConflicts(h: Hashing, db0: Database, q: Payload, t: TxnId)
    requires Injective(h) && q.severity == Warning
    requires q.eventId in db0.ingestions && db0.ingestions[q.eventId].hash == h.Legacy(q)
    ensures var again := q.(severity := Critical);
      var s := RunAll(h, Initial(db0), [Begins(t, again), Executes(t, true), Executes(t, true)]);
      t in s.txns && s.txns[t] == Txn(again, Refused(Conflict)) && s.db == db0
  {
    var again := q.(severity := Critical);
    var (first, second, third) := (Begins(t, again), Executes(t, true), Executes(t, true));
    var row := db0.ingestions[q.eventId];
    RunOneMore(h, Initial(db0), [], first);
    RunOneMore(h, Initial(db0), [first], second);
    RunOneMore(h, Initial(db0), [first, second], third);
    assert [] + [first] == [first] && [first] + [second] == [first, second]
      && [first, second] + [third] == [first, second, third];
    var s2 := RunAll(h, Initial(db0), [first, second]);
    assert s2.db == db0 && s2.txns[t] == Txn(again, Found(row));
    ConflictExactly(h, db0, row, q, again);
  }

  // ---------------------------------------------------------------- deliveries of one engine

  /** What the Operator sends for an alert snapshot. */
  function PayloadOf(a: Alert): Payload {
    Payload(a.alertId, a.workSessionId, a.operationId, a.cameraId, a.riskAreaId, a.violation.kind,
            a.violation.subjectKey, a.violation.summary, a.violation.severity, a.firstObservedAt, a.raisedAt)
  }

  /**
   From the Operator to the database: once the delivery of an alert snapshot has stored its event, the rows say, after
   whatever else is delivered, what the alert says: whose work it was, what was seen, where and when.
   */
  lemma StoredAsReported(h: Hashing, db0: Database, events: seq<DbEvent>, t: TxnId, a: Alert)
    requires DbInv(db0)
    requires var s := RunAll(h, Initial(db0), events);
      t in s.txns && s.txns[t].payload == PayloadOf(a) && Did(s.txns[t], a.alertId, Created)
    ensures var s := RunAll(h, Initial(db0), events);
      var stored := s.txns[t].phase.stored;
      && Leads(s.db, a.alertId, stored.alertId, stored.occurrenceId) && stored.occurrenceId in s.db.occurrences
      && s.db.occurrences[stored.occurrenceId]
        == Occurrence(a.violation.kind, a.cameraId, a.violation.summary, a.raisedAt)
      && s.db.alerts[stored.alertId].note == a.violation.summary
      && s.db.alerts[stored.alertId].createdAt == a.raisedAt
      && (a.violation.severity == Critical ==> s.db.alerts[stored.alertId].critical)
      && (var row := s.db.ingestions[a.alertId];
          && row.workSessionId == a.workSessionId && row.operationId == a.operationId
          && row.riskAreaId == a.riskAreaId
          && row.kind == a.violation.kind && row.subjectKey == a.violation.subjectKey)
  {
    hide RunAll, SystemInv, History;
    RowsHoldTheirCreator(h, db0, events, t);
    EveryRun(h, db0, events);
    AnswerHolds(RunAll(h, Initial(db0), events), t);
  }

  ghost predicate SnapshotOf(r: Run, a: Alert) {
    exists i :: 0 <= i < |r.calls| && r.Reported(i, a)
  }

  ghost predicate SentBy(r: Run, p: Payload) {
    exists a :: SnapshotOf(r, a) && p == PayloadOf(a)
  }

  lemma PayloadOfCore(a: Alert)
    ensures PayloadOf(a).WithoutSeverity() == PayloadOf(Core(a))
  {
  }

  /** Two deliveries of one engine for one event differ in severity only. */
  lemma EngineAgrees(r: Run, p: Payload, q: Payload)
    requires r.Valid() && (forall x, y :: r.draw(x) == r.draw(y) ==> x == y)
    requires SentBy(r, p) && SentBy(r, q) && p.eventId == q.eventId
    ensures SameContents(q, p)
  {
    var a :| SnapshotOf(r, a) && p == PayloadOf(a);
    var b :| SnapshotOf(r, b) && q == PayloadOf(b);
    var i :| 0 <= i < |r.calls| && r.Reported(i, a);
    var j :| 0 <= j < |r.calls| && r.Reported(j, b);
    r.OnePayloadPerAlert(i, a, j, b);
    PayloadOfCore(a);
    PayloadOfCore(b);
  }

  ghost predicate BegunBy(events: seq<DbEvent>, p: Payload) {
    exists i :: 0 <= i < |events| && events[i].Begins? && events[i].payload == p
  }

  ghost predicate AllBegun(s: System, events: seq<DbEvent>) {
    forall t :: t in s.txns ==> BegunBy(events, s.txns[t].payload)
  }

  lemma BegunNext(h: Hashing, s: System, events: seq<DbEvent>, e: DbEvent)
    requires AllBegun(s, events)
    ensures AllBegun(Step(h, s, e), events + [e])
  {
    var s' := Step(h, s, e);
    forall t | t in s'.txns ensures BegunBy(events + [e], s'.txns[t].payload) {
      if t in s.txns {
        assert s'.txns[t].payload == s.txns[t].payload;
        var i :| 0 <= i < |events| && events[i].Begins? && events[i].payload == s.txns[t].payload;
        assert (events + [e])[i] == events[i];
      } else {
        assert (events + [e])[|events|] == e && e.Begins?;
      }
    }
  }

  lemma {:induction false} EveryDeliveryBegan(h: Hashing, db0: Database, events: seq<DbEvent>)
    ensures AllBegun(RunAll(h, Initial(db0), events), events)
  {
    if events != [] {
      var earlier := events[..|events| - 1];
      EveryDeliveryBegan(h, db0, earlier);
      BegunNext(h, RunAll(h, Initial(db0), earlier), earlier, events[|events| - 1]);
      assert events == earlier + [events[|events| - 1]];
    }
  }

  /**
   Whatever an engine reports, in any run, and however its snapshots are sent, repeated and interleaved
   with the deliveries of any other stations, none of them conflicts: a row the event already has need
   only carry the severity-free hash of what is sent.
   */
  lemma EngineDeliveriesNeverConflict(h: Hashing, db0: Database, events: seq<DbEvent>, r: Run, t: TxnId)
    requires r.Valid() && (forall x, y :: r.draw(x) == r.draw(y) ==> x == y)
    requires t in RunAll(h, Initial(db0), events).txns
    requires var e := RunAll(h, Initial(db0), events).txns[t].payload.eventId;
      forall p :: BegunBy(events, p) && p.eventId == e ==>
        SentBy(r, p) && (e in db0.ingestions ==> db0.ingestions[e].hash == h.Of(p))
    ensures RunAll(h, Initial(db0), events).txns[t].phase != Refused(Conflict)
  {
    EveryDeliveryBegan(h, db0, events);
    var p := RunAll(h, Initial(db0), events).txns[t].payload;
    assert BegunBy(events, p);
    forall i | 0 <= i < |events| && events[i].Begins? && events[i].payload.eventId == p.eventId
      ensures SameContents(events[i].payload, p)
    {
      assert BegunBy(events, events[i].payload);
      EngineAgrees(r, p, events[i].payload);
    }
    SeverityNeverConflicts(h, Initial(db0), events, p);
  }
}
