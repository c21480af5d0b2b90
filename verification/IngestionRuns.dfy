/**
 What any interleaving of deliveries can do to the stored alerts, from any consistent database.
 Deliveries may race, be repeated, wait for each other, fail or die between any two statements.
 */
module IngestionRuns {
  import opened Wrappers
  import opened WorkSessions
  import opened SafetyAlerts
  import opened AlertIngestion

  /** The database before any of the deliveries has begun. */
  function Initial(db: Database): System {
    System(db, map[])
  }

  ghost predicate HasEvent(db: Database, a: nat) {
    exists e :: e in db.ingestions && db.ingestions[e].alertId == a
  }

  ghost predicate HasAlert(db: Database, o: nat) {
    exists a :: a in db.alerts && db.alerts[a].occurrenceId == o
  }

  /** Alerts that no event leads to. */
  ghost function OrphanAlerts(db: Database): set<nat> {
    set a | a in db.alerts && !HasEvent(db, a)
  }

  /** Occurrences that no alert leads to. */
  ghost function OrphanOccurrences(db: Database): set<nat> {
    set o | o in db.occurrences && !HasAlert(db, o)
  }

  ghost predicate SameOrphans(d: Database, d': Database) {
    OrphanAlerts(d) == OrphanAlerts(d') && OrphanOccurrences(d) == OrphanOccurrences(d')
  }

  /** Some delivery of the event has been answered so. */
  ghost predicate Happened(s: System, e: EventId, how: How) {
    exists t :: t in s.txns && Did(s.txns[t], e, how)
  }

  ghost predicate AnswersCritical(x: Txn, alertId: nat) {
    x.phase.Answered? && x.phase.stored.alertId == alertId && x.payload.severity == Critical
  }

  /** Some critical delivery has been answered with this alert. */
  ghost predicate CriticalAnswered(s: System, alertId: nat) {
    exists t :: t in s.txns && AnswersCritical(s.txns[t], alertId)
  }

  ghost predicate WasCritical(db: Database, a: nat) {
    a in db.alerts && db.alerts[a].critical
  }

  ghost predicate WasStored(db: Database, e: EventId) {
    e in db.ingestions
  }

  /** Every event stored since was created by an answered delivery. */
  ghost predicate EventsEarned(db0: Database, s: System) {
    forall e :: e in s.db.ingestions && !WasStored(db0, e) ==> Happened(s, e, Created)
  }

  ghost predicate CreationsNew(db0: Database, s: System) {
    forall t :: t in s.txns && s.txns[t].phase.Answered? && s.txns[t].phase.how == Created ==>
      !WasStored(db0, s.txns[t].payload.eventId)
  }

  /** Every level raised since was asked for by an answered delivery. */
  ghost predicate LevelsEarned(db0: Database, s: System) {
    forall a :: WasCritical(s.db, a) && !WasCritical(db0, a) ==> CriticalAnswered(s, a)
  }

  /** Where everything in the database of `s` has come from. */
  ghost predicate History(db0: Database, s: System) {
    Grows(db0, s.db) && SameOrphans(db0, s.db) && EventsEarned(db0, s) && CreationsNew(db0, s) && LevelsEarned(db0, s)
  }

  // ---------------------------------------------------------------- one step

  ghost predicate SameRows(d: Database, d': Database) {
    && d'.occurrences == d.occurrences && d'.alerts == d.alerts && d'.ingestions == d.ingestions
    && d.nextOccurrence <= d'.nextOccurrence && d.nextAlert <= d'.nextAlert
  }

  /** Only `t` moves, and it had not ended. */
  ghost predicate OnlyMoves(s: System, s': System, t: TxnId) {
    && (forall u :: u in s.txns ==> u in s'.txns)
    && (forall u :: u in s'.txns && u != t ==> u in s.txns && s'.txns[u] == s.txns[u])
    && (t in s.txns && IsFinal(s.txns[t].phase) ==> s'.txns[t] == s.txns[t])
  }

  lemma AnswersStay(s: System, s': System, t: TxnId)
    requires OnlyMoves(s, s', t)
    ensures forall e, how :: Happened(s, e, how) ==> Happened(s', e, how)
    ensures forall a :: CriticalAnswered(s, a) ==> CriticalAnswered(s', a)
  {
    forall e, how | Happened(s, e, how) ensures Happened(s', e, how) {
      var u :| u in s.txns && Did(s.txns[u], e, how);
      assert Did(s'.txns[u], e, how);
    }
    forall a | CriticalAnswered(s, a) ensures CriticalAnswered(s', a) {
      var u :| u in s.txns && AnswersCritical(s.txns[u], a);
      assert AnswersCritical(s'.txns[u], a);
    }
  }

  lemma QuietStep(db0: Database, s: System, s': System, t: TxnId)
    requires History(db0, s) && OnlyMoves(s, s', t) && SameRows(s.db, s'.db)
    requires t in s'.txns && s'.txns[t].phase.Answered? && s'.txns[t].phase.how == Created ==>
      t in s.txns && s'.txns[t] == s.txns[t]
    ensures History(db0, s')
  {
    AnswersStay(s, s', t);
    assert forall a :: HasEvent(s'.db, a) == HasEvent(s.db, a);
    assert forall o :: HasAlert(s'.db, o) == HasAlert(s.db, o);
  }

  lemma CommitOrphans(h: Hashing, db: Database, p: Payload, o: nat, a: nat)
    requires DbInv(db) && p.eventId !in db.ingestions && o !in db.occurrences && a !in db.alerts
    ensures SameOrphans(db, Committed(h, db, p, o, a))
  {
    var d' := Committed(h, db, p, o, a);
    assert d'.ingestions[p.eventId].alertId == a && d'.alerts[a].occurrenceId == o;
    forall b | b in db.alerts ensures HasEvent(d', b) == HasEvent(db, b) {
      if HasEvent(db, b) {
        var e :| e in db.ingestions && db.ingestions[e].alertId == b;
        assert e in d'.ingestions && d'.ingestions[e].alertId == b;
      }
    }
    forall q | q in db.occurrences ensures HasAlert(d', q) == HasAlert(db, q) {
      if HasAlert(db, q) {
        var b :| b in db.alerts && db.alerts[b].occurrenceId == q;
        assert b in d'.alerts && d'.alerts[b].occurrenceId == q;
      }
    }
  }

  lemma RaiseOrphans(h: Hashing, db: Database, p: Payload, a: nat)
    ensures SameOrphans(db, Raised(h, db, p, a))
  {
    var d' := Raised(h, db, p, a);
    forall b ensures HasEvent(d', b) == HasEvent(db, b) {
      assert forall e :: e in db.ingestions ==>
        e in d'.ingestions && d'.ingestions[e].alertId == db.ingestions[e].alertId;
    }
    forall q ensures HasAlert(d', q) == HasAlert(db, q) {
      assert forall b :: b in db.alerts ==> b in d'.alerts && d'.alerts[b].occurrenceId == db.alerts[b].occurrenceId;
    }
  }

  lemma GrowsTransitive(a: Database, b: Database, c: Database)
    requires Grows(a, b) && Grows(b, c)
    ensures Grows(a, c)
  {
  }

  lemma CommitEarned(h: Hashing, db0: Database, s: System, t: TxnId)
    requires Grows(db0, s.db) && EventsEarned(db0, s) && CreationsNew(db0, s) && LevelsEarned(db0, s)
    requires t in s.txns && s.txns[t].phase.AlertInserted? && s.txns[t].payload.eventId !in s.db.ingestions
    ensures var s' := Execute(h, s, t, true); EventsEarned(db0, s') && CreationsNew(db0, s') && LevelsEarned(db0, s')
  {
    var x, s' := s.txns[t], Execute(h, s, t, true);
    AnswersStay(s, s', t);
    assert Did(s'.txns[t], x.payload.eventId, Created);
    if x.payload.severity == Critical {
      assert AnswersCritical(s'.txns[t], x.phase.alertId);
    }
    forall a | WasCritical(s'.db, a) && !WasCritical(db0, a) ensures CriticalAnswered(s', a) {
      assert a == x.phase.alertId || WasCritical(s.db, a);
    }
  }

  lemma CommitStep(h: Hashing, db0: Database, s: System, t: TxnId)
    requires SystemInv(s) && History(db0, s)
    requires t in s.txns && s.txns[t].phase.AlertInserted? && s.txns[t].payload.eventId !in s.db.ingestions
    ensures History(db0, Execute(h, s, t, true))
  {
    var x := s.txns[t];
    CommitKeepsRows(h, s.db, x.payload, x.phase.occurrenceId, x.phase.alertId);
    CommitOrphans(h, s.db, x.payload, x.phase.occurrenceId, x.phase.alertId);
    GrowsTransitive(db0, s.db, Execute(h, s, t, true).db);
    CommitEarned(h, db0, s, t);
  }

  lemma RaisedRows(h: Hashing, db: Database, p: Payload, a: nat)
    ensures var db' := Raised(h, db, p, a);
      && db'.ingestions.Keys == db.ingestions.Keys
      && forall b :: WasCritical(db', b) ==> b == a || WasCritical(db, b)
  {
  }

  lemma RaiseEarned(h: Hashing, db0: Database, s: System, t: TxnId)
    requires EventsEarned(db0, s) && CreationsNew(db0, s) && LevelsEarned(db0, s) && t in s.txns
      && s.txns[t].phase.Escalating?
    requires s.txns[t].payload.severity == Critical
    ensures var s' := Execute(h, s, t, true); EventsEarned(db0, s') && CreationsNew(db0, s') && LevelsEarned(db0, s')
  {
    var x, s' := s.txns[t], Execute(h, s, t, true);
    AnswersStay(s, s', t);
    RaisedRows(h, s.db, x.payload, x.phase.row.alertId);
    assert AnswersCritical(s'.txns[t], x.phase.row.alertId);
    hide Raised, Happened, WasStored;
    forall a | WasCritical(s'.db, a) && !WasCritical(db0, a) ensures CriticalAnswered(s', a) {
      assert a == x.phase.row.alertId || WasCritical(s.db, a);
    }
  }

  lemma RaiseStep(h: Hashing, db0: Database, s: System, t: TxnId)
    requires SystemInv(s) && History(db0, s) && t in s.txns && s.txns[t].phase.Escalating?
    ensures History(db0, Execute(h, s, t, true))
  {
    var x := s.txns[t];
    RaiseKeepsRows(h, s.db, x.payload, x.phase.row.alertId, x.phase.occurrenceId);
    RaiseOrphans(h, s.db, x.payload, x.phase.row.alertId);
    GrowsTransitive(db0, s.db, Execute(h, s, t, true).db);
    assert PhaseInv(s.db, x);
    RaiseEarned(h, db0, s, t);
  }

  /** The commits are the only events that touch a row or answer anything new. */
  predicate Commits(s: System, e: DbEvent) {
    && e.Executes? && e.succeeds && e.t in s.txns
    && (|| s.txns[e.t].phase.Escalating?
        || (s.txns[e.t].phase.AlertInserted? && s.txns[e.t].payload.eventId !in s.db.ingestions))
  }

  lemma OtherwiseQuiet(h: Hashing, s: System, e: DbEvent)
    requires !Commits(s, e)
    ensures var s' := Step(h, s, e);
      && OnlyMoves(s, s', e.t) && SameRows(s.db, s'.db)
      && (e.t in s'.txns && s'.txns[e.t].phase.Answered? && s'.txns[e.t].phase.how == Created ==>
        e.t in s.txns && s'.txns[e.t] == s.txns[e.t])
  {
  }

  lemma StepGrows(h: Hashing, s: System, e: DbEvent)
    requires SystemInv(s)
    ensures Grows(s.db, Step(h, s, e).db)
  {
    if !Commits(s, e) {
      OtherwiseQuiet(h, s, e);
    } else {
      var x := s.txns[e.t];
      assert PhaseInv(s.db, x);
      if x.phase.Escalating? {
        RaiseKeepsRows(h, s.db, x.payload, x.phase.row.alertId, x.phase.occurrenceId);
      } else {
        CommitKeepsRows(h, s.db, x.payload, x.phase.occurrenceId, x.phase.alertId);
      }
    }
  }

  lemma {:induction false} RunGrows(h: Hashing, s: System, events: seq<DbEvent>)
    requires SystemInv(s)
    ensures var s' := RunAll(h, s, events); SystemInv(s') && Grows(s.db, s'.db)
  {
    if events != [] {
      var m := RunAll(h, s, events[..|events| - 1]);
      RunGrows(h, s, events[..|events| - 1]);
      StepKeeps(h, m, events[|events| - 1]);
      StepGrows(h, m, events[|events| - 1]);
      GrowsTransitive(s.db, m.db, RunAll(h, s, events).db);
    }
  }

  lemma HistoryNext(h: Hashing, db0: Database, s: System, e: DbEvent)
    requires SystemInv(s) && History(db0, s)
    ensures History(db0, Step(h, s, e))
  {
    if !Commits(s, e) {
      OtherwiseQuiet(h, s, e);
      QuietStep(db0, s, Step(h, s, e), e.t);
    } else if s.txns[e.t].phase.Escalating? {
      RaiseStep(h, db0, s, e.t);
    } else {
      CommitStep(h, db0, s, e.t);
    }
  }

  // ---------------------------------------------------------------- runs

  /** From a consistent database, every interleaving keeps both the invariant and the history. */
  lemma {:induction false} EveryRun(h: Hashing, db0: Database, events: seq<DbEvent>)
    requires DbInv(db0)
    ensures var s := RunAll(h, Initial(db0), events); SystemInv(s) && History(db0, s)
  {
    if events == [] {
      assert SystemInv(Initial(db0));
    } else {
      var earlier := events[..|events| - 1];
      EveryRun(h, db0, earlier);
      StepKeeps(h, RunAll(h, Initial(db0), earlier), events[|events| - 1]);
      HistoryNext(h, db0, RunAll(h, Initial(db0), earlier), events[|events| - 1]);
    }
  }

  /**
   An event has one alert and one occurrence, whoever asks. At most one delivery creates it and at
   most one escalates it, and then it was created as a warning.
   */
  lemma OneAlertPerEvent(h: Hashing, db0: Database, events: seq<DbEvent>, t: TxnId, u: TxnId)
    requires DbInv(db0)
    requires var s := RunAll(h, Initial(db0), events);
      && t in s.txns && u in s.txns && s.txns[t].phase.Answered? && s.txns[u].phase.Answered?
      && s.txns[t].payload.eventId == s.txns[u].payload.eventId
    ensures var s := RunAll(h, Initial(db0), events);
      var (x, y) := (s.txns[t], s.txns[u]);
      && x.phase.stored.alertId == y.phase.stored.alertId
      && x.phase.stored.occurrenceId == y.phase.stored.occurrenceId
      && (x.phase.how == y.phase.how && x.phase.how != Repeated ==> t == u)
      && (x.phase.how == Created && y.phase.how == Escalated ==> x.payload.severity == Warning)
  {
    EveryRun(h, db0, events);
    var s := RunAll(h, Initial(db0), events);
    assert PhaseInv(s.db, s.txns[t]) && PhaseInv(s.db, s.txns[u]);
    if t != u {
      assert PairInv(s.txns[t], s.txns[u]);
    }
  }

  /** The rows of an event go on holding what the delivery that created it said; only level and hash may change. */
  lemma RowsHoldTheirCreator(h: Hashing, db0: Database, events: seq<DbEvent>, t: TxnId)
    requires DbInv(db0)
    requires var s := RunAll(h, Initial(db0), events);
      t in s.txns && s.txns[t].phase.Answered? && s.txns[t].phase.how == Created
    ensures var s := RunAll(h, Initial(db0), events);
      var (p, stored) := (s.txns[t].payload, s.txns[t].phase.stored);
      HoldsPayload(s.db, p, stored.alertId, stored.occurrenceId)
  {
    EveryRun(h, db0, events);
    var s := RunAll(h, Initial(db0), events);
    assert PhaseInv(s.db, s.txns[t]);
  }

  /** Deliveries of different events never share an alert or an occurrence. */
  lemma EventsShareNothing(h: Hashing, db0: Database, events: seq<DbEvent>, t: TxnId, u: TxnId)
    requires DbInv(db0)
    requires var s := RunAll(h, Initial(db0), events);
      && t in s.txns && u in s.txns && s.txns[t].phase.Answered? && s.txns[u].phase.Answered?
      && s.txns[t].payload.eventId != s.txns[u].payload.eventId
    ensures var s := RunAll(h, Initial(db0), events);
      && s.txns[t].phase.stored.alertId != s.txns[u].phase.stored.alertId
      && s.txns[t].phase.stored.occurrenceId != s.txns[u].phase.stored.occurrenceId
  {
    EveryRun(h, db0, events);
    var s := RunAll(h, Initial(db0), events);
    assert PhaseInv(s.db, s.txns[t]) && PhaseInv(s.db, s.txns[u]);
  }

  lemma FinalStays(h: Hashing, s: System, e: DbEvent, t: TxnId)
    requires t in s.txns && IsFinal(s.txns[t].phase)
    ensures t in Step(h, s, e).txns && Step(h, s, e).txns[t] == s.txns[t]
  {
  }

  lemma AnswerHolds(s: System, t: TxnId)
    requires SystemInv(s) && t in s.txns && s.txns[t].phase.Answered?
    ensures var (x, stored) := (s.txns[t], s.txns[t].phase.stored);
      && Leads(s.db, x.payload.eventId, stored.alertId, stored.occurrenceId)
      && (x.payload.severity == Critical ==> s.db.alerts[stored.alertId].critical)
  {
    assert PhaseInv(s.db, s.txns[t]);
  }

  /** An answer stays given, and stays true, whatever is delivered afterwards. */
  lemma {:induction false} AnswersStayTrue(h: Hashing, s: System, later: seq<DbEvent>, t: TxnId)
    requires SystemInv(s) && t in s.txns && s.txns[t].phase.Answered?
    ensures var (s', stored) := (RunAll(h, s, later), s.txns[t].phase.stored);
      && SystemInv(s') && t in s'.txns && s'.txns[t] == s.txns[t]
      && Leads(s'.db, s.txns[t].payload.eventId, stored.alertId, stored.occurrenceId)
      && (s.txns[t].payload.severity == Critical ==> s'.db.alerts[stored.alertId].critical)
  {
    hide SystemInv, Step, Leads;
    if later == [] {
      AnswerHolds(s, t);
    } else {
      var earlier := later[..|later| - 1];
      var (m, e) := (RunAll(h, s, earlier), later[|later| - 1]);
      AnswersStayTrue(h, s, earlier, t);
      StepKeeps(h, m, e);
      FinalStays(h, m, e, t);
      AnswerHolds(Step(h, m, e), t);
    }
  }

  /** No delivery ever finds an event that leads to no alert. */
  lemma LinksNeverBroken(h: Hashing, db0: Database, events: seq<DbEvent>, t: TxnId)
    requires DbInv(db0) && t in RunAll(h, Initial(db0), events).txns
    ensures RunAll(h, Initial(db0), events).txns[t].phase != Refused(BrokenLink)
  {
    EveryRun(h, db0, events);
    var s := RunAll(h, Initial(db0), events);
    assert PhaseInv(s.db, s.txns[t]);
  }

  /** Nothing is left dangling or half stored: the rows that form no chain are those of the start. */
  lemma ChainsStayWhole(h: Hashing, db0: Database, events: seq<DbEvent>)
    requires DbInv(db0)
    ensures var db := RunAll(h, Initial(db0), events).db;
      DbInv(db) && Grows(db0, db) && OrphanAlerts(db) == OrphanAlerts(db0)
        && OrphanOccurrences(db) == OrphanOccurrences(db0)
  {
    EveryRun(h, db0, events);
  }

  /** An event is stored exactly when it already was or a delivery was told it created it. */
  lemma StoredExactly(h: Hashing, db0: Database, events: seq<DbEvent>, e: EventId)
    requires DbInv(db0)
    ensures var s := RunAll(h, Initial(db0), events);
      && (e in s.db.ingestions <==> e in db0.ingestions || Happened(s, e, Created))
      && !(e in db0.ingestions && Happened(s, e, Created))
  {
    EveryRun(h, db0, events);
    var s := RunAll(h, Initial(db0), events);
    if Happened(s, e, Created) {
      var t :| t in s.txns && Did(s.txns[t], e, Created);
      assert PhaseInv(s.db, s.txns[t]);
    }
  }

  /** An alert is critical exactly when it already was or a critical delivery was answered with it. */
  lemma CriticalExactly(h: Hashing, db0: Database, events: seq<DbEvent>, a: nat)
    requires DbInv(db0)
    ensures var s := RunAll(h, Initial(db0), events);
      WasCritical(s.db, a) <==> WasCritical(db0, a) || CriticalAnswered(s, a)
  {
    EveryRun(h, db0, events);
    var s := RunAll(h, Initial(db0), events);
    if CriticalAnswered(s, a) {
      var t :| t in s.txns && AnswersCritical(s.txns[t], a);
      assert PhaseInv(s.db, s.txns[t]);
    }
  }
}
