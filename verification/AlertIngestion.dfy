/**
 Idempotent ingestion of alerts. Every delivery is one database transaction; its statements interleave
 with those of the others, and a row being updated stays locked until its transaction ends.
 */
module AlertIngestion {
  import opened Wrappers
  import opened WorkSessions
  import opened SafetyAlerts

  type EventId = nat
  type TxnId = nat
  type Digest = nat

  datatype Payload = Payload(
    eventId: EventId,
    workSessionId: nat,
    operationId: int,
    cameraId: Option<int>,
    riskAreaId: Option<int>,
    kind: ViolationType,
    subjectKey: string,
    summary: string,
    severity: Severity,
    firstObservedAt: Time,
    raisedAt: Time)
  {
    function WithoutSeverity(): Payload {
      this.(severity := Warning)
    }
  }

  /** The two payloads differ in severity at most. */
  predicate SameContents(p: Payload, q: Payload) {
    && p.eventId == q.eventId && p.workSessionId == q.workSessionId && p.operationId == q.operationId
    && p.cameraId == q.cameraId && p.riskAreaId == q.riskAreaId
    && p.kind == q.kind && p.subjectKey == q.subjectKey && p.summary == q.summary
    && p.firstObservedAt == q.firstObservedAt && p.raisedAt == q.raisedAt
  }

  lemma SameContentsIs(p: Payload, q: Payload)
    ensures SameContents(p, q) <==> p.WithoutSeverity() == q.WithoutSeverity()
  {
  }

  /** The texts that are hashed: the payload with its severity, as earlier versions did, or without it. */
  datatype Document = Full(payload: Payload) | SeverityFree(payload: Payload)

  datatype Hashing = Hashing(digest: Document -> Digest)
  {
    function Of(p: Payload): Digest {
      digest(SeverityFree(p.WithoutSeverity()))
    }

    function Legacy(p: Payload): Digest {
      digest(Full(p))
    }
  }

  // ---------------------------------------------------------------- tables

  datatype Occurrence = Occurrence(kind: ViolationType, cameraId: Option<int>, description: string, detectedAt: Time)

  datatype AlertRow = AlertRow(occurrenceId: nat, critical: bool, note: string, createdAt: Time)

  datatype IngestionRow = IngestionRow(
    hash: Digest,
    alertId: nat,
    workSessionId: nat,
    operationId: int,
    riskAreaId: Option<int>,
    kind: ViolationType,
    subjectKey: string)

  /** The committed rows; the counters of the id sequences advance even when a transaction is undone. */
  datatype Database = Database(
    occurrences: map<nat, Occurrence>,
    alerts: map<nat, AlertRow>,
    ingestions: map<EventId, IngestionRow>,
    nextOccurrence: nat,
    nextAlert: nat)

  // ---------------------------------------------------------------- transactions

  datatype How = Created | Escalated | Repeated

  datatype StoreError = Conflict | BrokenLink | Unavailable

  datatype StoredAlert = StoredAlert(eventId: EventId, alertId: nat, occurrenceId: nat, duplicate: bool)

  datatype Phase =
    | Begun                                                   // nothing read yet
    | Missing                                                 // the event was not found
    | OccurrenceInserted(occurrenceId: nat)                   // uncommitted
    | AlertInserted(occurrenceId: nat, alertId: nat)          // uncommitted, about to commit
    | RolledBack                                              // the commit was refused
    | Found(row: IngestionRow)                                // the event exists
    | Located(row: IngestionRow, occurrenceId: nat)           // same payload, occurrence known
    | Escalating(row: IngestionRow, occurrenceId: nat)        // level updated, row locked, uncommitted
    | Answered(stored: StoredAlert, how: How)
    | Refused(error: StoreError)

  datatype Txn = Txn(payload: Payload, phase: Phase)

  datatype System = System(db: Database, txns: map<TxnId, Txn>)

  /** `succeeds` is false when the database refuses a commit for a reason of its own. */
  datatype DbEvent =
    | Begins(t: TxnId, payload: Payload)
    | Executes(t: TxnId, succeeds: bool)
    | Dies(t: TxnId)

  function OccurrenceOf(p: Payload): Occurrence {
    Occurrence(p.kind, p.cameraId, p.summary, p.raisedAt)
  }

  function AlertRowOf(p: Payload, occurrenceId: nat): AlertRow {
    AlertRow(occurrenceId, p.severity == Critical, p.summary, p.raisedAt)
  }

  function IngestionOf(h: Hashing, p: Payload, alertId: nat): IngestionRow {
    IngestionRow(h.Of(p), alertId, p.workSessionId, p.operationId, p.riskAreaId, p.kind, p.subjectKey)
  }

  predicate IsFinal(p: Phase) {
    p.Answered? || p.Refused?
  }

  function WithPhase(s: System, t: TxnId, phase: Phase): System
    requires t in s.txns
  {
    s.(txns := s.txns[t := s.txns[t].(phase := phase)])
  }

  /** Another transaction has updated the alert row and not yet ended. */
  predicate LockedByOther(s: System, t: TxnId, alertId: nat) {
    exists u :: u in s.txns && u != t && s.txns[u].phase.Escalating? && s.txns[u].phase.row.alertId == alertId
  }

  /** The three rows of a new event become visible together. */
  function Committed(h: Hashing, db: Database, p: Payload, occurrenceId: nat, alertId: nat): Database {
    db.(occurrences := db.occurrences[occurrenceId := OccurrenceOf(p)],
        alerts := db.alerts[alertId := AlertRowOf(p, occurrenceId)],
        ingestions := db.ingestions[p.eventId := IngestionOf(h, p, alertId)])
  }

  /** The raised level and the severity-free hash become visible together. */
  function Raised(h: Hashing, db: Database, p: Payload, alertId: nat): Database {
    var alerts :=
      if alertId in db.alerts then db.alerts[alertId := db.alerts[alertId].(critical := true)] else db.alerts;
    var ingestions :=
      if p.eventId in db.ingestions
      then db.ingestions[p.eventId := db.ingestions[p.eventId].(hash := h.Of(p))] else db.ingestions;
    db.(alerts := alerts, ingestions := ingestions)
  }

  function ReadEvent(db: Database, e: EventId, otherwise: Phase): Phase {
    if e in db.ingestions then Found(db.ingestions[e]) else otherwise
  }

  function Compare(h: Hashing, db: Database, p: Payload, row: IngestionRow): Phase {
    if row.hash != h.Of(p) && row.hash != h.Legacy(p) then Refused(Conflict)
    else if row.alertId !in db.alerts then Refused(BrokenLink)
    else Located(row, db.alerts[row.alertId].occurrenceId)
  }

  function Answer(p: Payload, alertId: nat, occurrenceId: nat, how: How): Phase {
    Answered(StoredAlert(p.eventId, alertId, occurrenceId, how == Repeated), how)
  }

  /** The next statement of a transaction. A blocked update waits: nothing happens. */
  function Execute(h: Hashing, s: System, t: TxnId, succeeds: bool): System
    requires t in s.txns
  {
    var db, p := s.db, s.txns[t].payload;
    match s.txns[t].phase
    case Begun => WithPhase(s, t, ReadEvent(db, p.eventId, Missing))
    case Missing =>
      WithPhase(s.(db := db.(nextOccurrence := db.nextOccurrence + 1)), t, OccurrenceInserted(db.nextOccurrence))
    case OccurrenceInserted(o) =>
      WithPhase(s.(db := db.(nextAlert := db.nextAlert + 1)), t, AlertInserted(o, db.nextAlert))
    case AlertInserted(o, a) =>
      if p.eventId in db.ingestions || !succeeds then WithPhase(s, t, RolledBack)
      else WithPhase(s.(db := Committed(h, db, p, o, a)), t, Answer(p, a, o, Created))
    case RolledBack => WithPhase(s, t, ReadEvent(db, p.eventId, Refused(Unavailable)))
    case Found(row) => WithPhase(s, t, Compare(h, db, p, row))
    case Located(row, o) =>
      if p.severity != Critical || row.alertId !in db.alerts then WithPhase(s, t, Answer(p, row.alertId, o, Repeated))
      else if LockedByOther(s, t, row.alertId) then s
      else if db.alerts[row.alertId].critical then WithPhase(s, t, Answer(p, row.alertId, o, Repeated))
      else WithPhase(s, t, Escalating(row, o))
    case Escalating(row, o) =>
      if !succeeds then WithPhase(s, t, Refused(Unavailable))
      else WithPhase(s.(db := Raised(h, db, p, row.alertId)), t, Answer(p, row.alertId, o, Escalated))
    case Answered(_, _) => s
    case Refused(_) => s
  }

  function Step(h: Hashing, s: System, e: DbEvent): System {
    match e
    case Begins(t, p) => if t in s.txns then s else s.(txns := s.txns[t := Txn(p, Begun)])
    case Executes(t, succeeds) => if t in s.txns then Execute(h, s, t, succeeds) else s
    case Dies(t) => if t in s.txns && !IsFinal(s.txns[t].phase) then WithPhase(s, t, Refused(Unavailable)) else s
  }

  function RunAll(h: Hashing, s: System, events: seq<DbEvent>): System {
    if events == [] then s else Step(h, RunAll(h, s, events[..|events| - 1]), events[|events| - 1])
  }

  lemma {:induction false} RunAppend(h: Hashing, s: System, first: seq<DbEvent>, second: seq<DbEvent>)
    ensures RunAll(h, s, first + second) == RunAll(h, RunAll(h, s, first), second)
  {
    if second == [] {
      assert first + second == first;
    } else {
      assert (first + second)[..|first + second| - 1] == first + second[..|second| - 1];
      RunAppend(h, s, first, second[..|second| - 1]);
    }
  }

  lemma RunOneMore(h: Hashing, s: System, events: seq<DbEvent>, e: DbEvent)
    ensures RunAll(h, s, events + [e]) == Step(h, RunAll(h, s, events), e)
  {
    assert (events + [e])[..|events|] == events;
  }

  // ---------------------------------------------------------------- invariant

  /** Every ingestion leads to its own alert and every alert to its own occurrence. */
  ghost predicate DbInv(db: Database) {
    && (forall e :: e in db.ingestions ==> db.ingestions[e].alertId in db.alerts)
    && (forall d, e ::
      d in db.ingestions && e in db.ingestions && db.ingestions[d].alertId == db.ingestions[e].alertId ==> d == e)
    && (forall a :: a in db.alerts ==> db.alerts[a].occurrenceId in db.occurrences)
    && (forall a, b ::
      a in db.alerts && b in db.alerts && db.alerts[a].occurrenceId == db.alerts[b].occurrenceId ==> a == b)
    && (forall a :: a in db.alerts ==> a < db.nextAlert)
    && (forall o :: o in db.occurrences ==> o < db.nextOccurrence)
  }

  /** The event is stored, under this alert and this occurrence. */
  ghost predicate Leads(db: Database, e: EventId, alertId: nat, occurrenceId: nat) {
    && e in db.ingestions && db.ingestions[e].alertId == alertId
    && alertId in db.alerts && db.alerts[alertId].occurrenceId == occurrenceId
  }

  /** The three rows of an event hold what its delivery said. */
  ghost predicate HoldsPayload(db: Database, p: Payload, alertId: nat, occurrenceId: nat) {
    && Leads(db, p.eventId, alertId, occurrenceId) && occurrenceId in db.occurrences
    && (var occurrence := db.occurrences[occurrenceId];
        && occurrence.kind == p.kind && occurrence.cameraId == p.cameraId
        && occurrence.description == p.summary && occurrence.detectedAt == p.raisedAt)
    && db.alerts[alertId].note == p.summary && db.alerts[alertId].createdAt == p.raisedAt
    && (var row := db.ingestions[p.eventId];
        && row.workSessionId == p.workSessionId && row.operationId == p.operationId && row.riskAreaId == p.riskAreaId
        && row.kind == p.kind && row.subjectKey == p.subjectKey)
  }

  ghost predicate PhaseInv(db: Database, x: Txn) {
    var e := x.payload.eventId;
    match x.phase
    case OccurrenceInserted(o) => o < db.nextOccurrence && o !in db.occurrences
    case AlertInserted(o, a) => o < db.nextOccurrence && o !in db.occurrences && a < db.nextAlert && a !in db.alerts
    case Found(row) => e in db.ingestions && db.ingestions[e].alertId == row.alertId
    case Located(row, o) => Leads(db, e, row.alertId, o)
    case Escalating(row, o) =>
      Leads(db, e, row.alertId, o) && !db.alerts[row.alertId].critical && x.payload.severity == Critical
    case Answered(stored, how) =>
      && stored.eventId == e && Leads(db, e, stored.alertId, stored.occurrenceId)
      && (stored.duplicate <==> how == Repeated)
      && (x.payload.severity == Critical ==> db.alerts[stored.alertId].critical)
      && (how == Escalated ==> x.payload.severity == Critical)
      && (how == Created ==> HoldsPayload(db, x.payload, stored.alertId, stored.occurrenceId))
    case Refused(error) => !error.BrokenLink?
    case _ => true
  }

  ghost predicate Did(x: Txn, e: EventId, how: How) {
    x.phase.Answered? && x.phase.how == how && x.payload.eventId == e
  }

  /** Two transactions never get in each other's way. */
  ghost predicate PairInv(x: Txn, y: Txn) {
    && (Uncommitted(x) && Uncommitted(y) ==> x.phase.occurrenceId != y.phase.occurrenceId)
    && (x.phase.AlertInserted? && y.phase.AlertInserted? ==> x.phase.alertId != y.phase.alertId)
    && !(x.phase.Escalating? && y.phase.Escalating? && x.phase.row.alertId == y.phase.row.alertId)
    && !(Did(x, y.payload.eventId, Created) && Did(y, x.payload.eventId, Created))
    && !(Did(x, y.payload.eventId, Escalated) && Did(y, x.payload.eventId, Escalated))
    && !(Did(x, y.payload.eventId, Created) && x.payload.severity == Critical && Did(y, x.payload.eventId, Escalated))
  }

  ghost predicate Uncommitted(x: Txn) {
    x.phase.OccurrenceInserted? || x.phase.AlertInserted?
  }

  ghost predicate SystemInv(s: System) {
    && DbInv(s.db)
    && (forall t :: t in s.txns ==> PhaseInv(s.db, s.txns[t]))
    && (forall t, u :: t in s.txns && u in s.txns && t != u ==> PairInv(s.txns[t], s.txns[u]))
  }

  // ---------------------------------------------------------------- what a commit leaves alone

  /** Apart from its level, an alert never changes. */
  ghost predicate AlertsKept(before: Database, after: Database) {
    forall a :: a in before.alerts ==>
      && a in after.alerts
      && before.alerts[a].(critical := after.alerts[a].critical) == after.alerts[a]
      && (before.alerts[a].critical ==> after.alerts[a].critical)
  }

  /** Apart from its hash, an ingestion never changes. */
  ghost predicate IngestionsKept(before: Database, after: Database) {
    forall e :: e in before.ingestions ==>
      && e in after.ingestions
      && before.ingestions[e].(hash := after.ingestions[e].hash) == after.ingestions[e]
  }

  ghost predicate OccurrencesKept(before: Database, after: Database) {
    forall o :: o in before.occurrences ==> o in after.occurrences && after.occurrences[o] == before.occurrences[o]
  }

  /** Rows are never removed; levels only rise. */
  ghost predicate Grows(before: Database, after: Database) {
    && AlertsKept(before, after) && IngestionsKept(before, after) && OccurrencesKept(before, after)
    && before.nextOccurrence <= after.nextOccurrence && before.nextAlert <= after.nextAlert
  }

  lemma LeadsKept(d: Database, d': Database, e: EventId, a: nat, o: nat)
    requires Leads(d, e, a, o) && Grows(d, d')
    ensures Leads(d', e, a, o) && (d.alerts[a].critical ==> d'.alerts[a].critical)
  {
  }

  lemma PayloadKept(d: Database, d': Database, p: Payload, a: nat, o: nat)
    requires HoldsPayload(d, p, a, o) && Grows(d, d')
    ensures HoldsPayload(d', p, a, o)
  {
  }

  /** What another transaction has inserted but not committed, or locked, is untouched in `d'`. */
  ghost predicate Undisturbed(d': Database, x: Txn) {
    && (Uncommitted(x) ==> x.phase.occurrenceId !in d'.occurrences)
    && (x.phase.AlertInserted? ==> x.phase.alertId !in d'.alerts)
    && (x.phase.Escalating? ==> x.phase.row.alertId in d'.alerts && !d'.alerts[x.phase.row.alertId].critical)
  }

  lemma PhaseKept(d: Database, d': Database, x: Txn)
    requires PhaseInv(d, x) && Grows(d, d') && Undisturbed(d', x)
    ensures PhaseInv(d', x)
  {
    var e := x.payload.eventId;
    match x.phase
    case Located(row, o) => LeadsKept(d, d', e, row.alertId, o);
    case Escalating(row, o) => LeadsKept(d, d', e, row.alertId, o);
    case Answered(stored, how) =>
      LeadsKept(d, d', e, stored.alertId, stored.occurrenceId);
      if how == Created {
        PayloadKept(d, d', x.payload, stored.alertId, stored.occurrenceId);
      }
    case _ =>
  }

  /** One transaction moves on while the others stay where they are. */
  lemma Replaced(s: System, t: TxnId, d': Database, x': Txn)
    requires SystemInv(s) && DbInv(d') && Grows(s.db, d') && PhaseInv(d', x')
    requires forall u :: u in s.txns && u != t ==>
      Undisturbed(d', s.txns[u]) && PairInv(x', s.txns[u]) && PairInv(s.txns[u], x')
    ensures SystemInv(System(d', s.txns[t := x']))
  {
    var s' := System(d', s.txns[t := x']);
    forall u | u in s'.txns ensures PhaseInv(d', s'.txns[u]) {
      if u != t {
        PhaseKept(s.db, d', s.txns[u]);
      }
    }
  }

  lemma CommitKeepsRows(h: Hashing, db: Database, p: Payload, o: nat, a: nat)
    requires DbInv(db) && p.eventId !in db.ingestions
    requires o < db.nextOccurrence && o !in db.occurrences && a < db.nextAlert && a !in db.alerts
    ensures var db' := Committed(h, db, p, o, a); DbInv(db') && Grows(db, db') && HoldsPayload(db', p, a, o)
  {
  }

  lemma RaiseKeepsRows(h: Hashing, db: Database, p: Payload, a: nat, o: nat)
    requires DbInv(db) && Leads(db, p.eventId, a, o)
    ensures var db' := Raised(h, db, p, a);
      DbInv(db') && Grows(db, db') && Leads(db', p.eventId, a, o) && db'.alerts[a].critical
  {
    var db' := Raised(h, db, p, a);
    assert db'.alerts.Keys == db.alerts.Keys && db'.ingestions.Keys == db.ingestions.Keys;
    assert forall b :: b in db.alerts ==> db'.alerts[b].occurrenceId == db.alerts[b].occurrenceId;
    assert forall e :: e in db.ingestions ==> db'.ingestions[e].alertId == db.ingestions[e].alertId;
  }

  // ---------------------------------------------------------------- every statement keeps the invariant

  /** A phase that holds nothing of the database and reports nothing new. */
  predicate Idle(p: Phase) {
    p.Begun? || p.Missing? || p.RolledBack? || p.Found? || p.Located? || p.Refused?
      || (p.Answered? && p.how == Repeated)
  }

  lemma UndisturbedNow(d: Database, x: Txn)
    requires PhaseInv(d, x)
    ensures Undisturbed(d, x)
  {
  }

  lemma IdleApart(x: Txn, y: Txn)
    requires Idle(x.phase)
    ensures PairInv(x, y) && PairInv(y, x)
  {
  }

  lemma MovesToIdle(s: System, t: TxnId, p: Phase)
    requires SystemInv(s) && t in s.txns && Idle(p) && PhaseInv(s.db, s.txns[t].(phase := p))
    ensures SystemInv(WithPhase(s, t, p))
  {
    var x' := s.txns[t].(phase := p);
    forall u | u in s.txns && u != t
      ensures Undisturbed(s.db, s.txns[u]) && PairInv(x', s.txns[u]) && PairInv(s.txns[u], x')
    {
      UndisturbedNow(s.db, s.txns[u]);
      IdleApart(x', s.txns[u]);
    }
    Replaced(s, t, s.db, x');
  }

  /** A fresh occurrence id is nobody else's. */
  lemma OccurrenceApart(d: Database, x: Txn, y: Txn)
    requires PhaseInv(d, y)
    ensures var x' := x.(phase := OccurrenceInserted(d.nextOccurrence)); PairInv(x', y) && PairInv(y, x')
    ensures Undisturbed(d.(nextOccurrence := d.nextOccurrence + 1), y)
  {
    UndisturbedNow(d, y);
  }

  lemma OccurrenceInsertKeeps(h: Hashing, s: System, t: TxnId, succeeds: bool)
    requires SystemInv(s) && t in s.txns && s.txns[t].phase.Missing?
    ensures SystemInv(Execute(h, s, t, succeeds))
  {
    var db := s.db;
    var d' := db.(nextOccurrence := db.nextOccurrence + 1);
    var x' := s.txns[t].(phase := OccurrenceInserted(db.nextOccurrence));
    forall u | u in s.txns && u != t {
      OccurrenceApart(db, s.txns[t], s.txns[u]);
    }
    assert DbInv(d') && Grows(db, d') && PhaseInv(d', x');
    Replaced(s, t, d', x');
  }

  lemma AlertInsertKeeps(h: Hashing, s: System, t: TxnId, succeeds: bool)
    requires SystemInv(s) && t in s.txns && s.txns[t].phase.OccurrenceInserted?
    ensures SystemInv(Execute(h, s, t, succeeds))
  {
    var db := s.db;
    var x := s.txns[t];
    var d' := db.(nextAlert := db.nextAlert + 1);
    var x' := x.(phase := AlertInserted(x.phase.occurrenceId, db.nextAlert));
    forall u | u in s.txns && u != t
      ensures Undisturbed(d', s.txns[u]) && PairInv(x', s.txns[u]) && PairInv(s.txns[u], x')
    {
      UndisturbedNow(db, s.txns[u]);
      assert PairInv(x, s.txns[u]) && PairInv(s.txns[u], x);
    }
    Replaced(s, t, d', x');
  }

  /** A transaction that commits a new event meets no other that has answered for it. */
  lemma CommitApart(h: Hashing, d: Database, x: Txn, y: Txn)
    requires DbInv(d) && PhaseInv(d, x) && PhaseInv(d, y) && PairInv(x, y) && PairInv(y, x)
    requires x.phase.AlertInserted? && x.payload.eventId !in d.ingestions
    ensures var (o, a) := (x.phase.occurrenceId, x.phase.alertId);
      var x' := x.(phase := Answer(x.payload, a, o, Created));
      Undisturbed(Committed(h, d, x.payload, o, a), y) && PairInv(x', y) && PairInv(y, x')
  {
    UndisturbedNow(d, y);
    assert !y.phase.Answered? || y.payload.eventId in d.ingestions;
  }

  lemma CommitKeeps(h: Hashing, s: System, t: TxnId)
    requires SystemInv(s) && t in s.txns && s.txns[t].phase.AlertInserted?
      && s.txns[t].payload.eventId !in s.db.ingestions
    ensures SystemInv(Execute(h, s, t, true))
  {
    var x := s.txns[t];
    var (o, a) := (x.phase.occurrenceId, x.phase.alertId);
    CommitKeepsRows(h, s.db, x.payload, o, a);
    forall u | u in s.txns && u != t {
      CommitApart(h, s.db, x, s.txns[u]);
    }
    Replaced(s, t, Committed(h, s.db, x.payload, o, a), x.(phase := Answer(x.payload, a, o, Created)));
  }

  /** A transaction that takes the row lock is the only one that holds it. */
  lemma LockKeeps(s: System, t: TxnId)
    requires SystemInv(s) && t in s.txns && s.txns[t].phase.Located? && s.txns[t].payload.severity == Critical
    requires var a := s.txns[t].phase.row.alertId; !LockedByOther(s, t, a) && !s.db.alerts[a].critical
    ensures var l := s.txns[t].phase; SystemInv(WithPhase(s, t, Escalating(l.row, l.occurrenceId)))
  {
    var x := s.txns[t];
    var x' := x.(phase := Escalating(x.phase.row, x.phase.occurrenceId));
    forall u | u in s.txns && u != t
      ensures Undisturbed(s.db, s.txns[u]) && PairInv(x', s.txns[u]) && PairInv(s.txns[u], x')
    {
      UndisturbedNow(s.db, s.txns[u]);
    }
    Replaced(s, t, s.db, x');
  }

  /** Nobody has yet escalated, or created as critical, the alert a transaction is about to escalate. */
  lemma RaiseApart(h: Hashing, d: Database, x: Txn, y: Txn)
    requires DbInv(d) && PhaseInv(d, x) && PhaseInv(d, y) && PairInv(x, y) && PairInv(y, x)
    requires x.phase.Escalating?
    ensures var (o, a) := (x.phase.occurrenceId, x.phase.row.alertId);
      var x' := x.(phase := Answer(x.payload, a, o, Escalated));
      Undisturbed(Raised(h, d, x.payload, a), y) && PairInv(x', y) && PairInv(y, x')
  {
    UndisturbedNow(d, y);
    if y.phase.Answered? && y.payload.eventId == x.payload.eventId {
      assert y.phase.stored.alertId == x.phase.row.alertId;
      assert y.payload.severity != Critical;
    }
  }

  lemma RaiseKeeps(h: Hashing, s: System, t: TxnId)
    requires SystemInv(s) && t in s.txns && s.txns[t].phase.Escalating?
    ensures SystemInv(Execute(h, s, t, true))
  {
    var x := s.txns[t];
    var (o, a) := (x.phase.occurrenceId, x.phase.row.alertId);
    RaiseKeepsRows(h, s.db, x.payload, a, o);
    forall u | u in s.txns && u != t {
      RaiseApart(h, s.db, x, s.txns[u]);
    }
    Replaced(s, t, Raised(h, s.db, x.payload, a), x.(phase := Answer(x.payload, a, o, Escalated)));
  }

  lemma ExecuteKeeps(h: Hashing, s: System, t: TxnId, succeeds: bool)
    requires SystemInv(s) && t in s.txns
    ensures SystemInv(Execute(h, s, t, succeeds))
  {
    var x := s.txns[t];
    var (db, p) := (s.db, x.payload);
    match x.phase
    case Begun => MovesToIdle(s, t, ReadEvent(db, p.eventId, Missing));
    case Missing => OccurrenceInsertKeeps(h, s, t, succeeds);
    case OccurrenceInserted(_) => AlertInsertKeeps(h, s, t, succeeds);
    case AlertInserted(_, _) =>
      if p.eventId in db.ingestions || !succeeds { MovesToIdle(s, t, RolledBack); } else { CommitKeeps(h, s, t); }
    case RolledBack => MovesToIdle(s, t, ReadEvent(db, p.eventId, Refused(Unavailable)));
    case Found(row) => MovesToIdle(s, t, Compare(h, db, p, row));
    case Located(row, o) =>
      if p.severity != Critical || (!LockedByOther(s, t, row.alertId) && db.alerts[row.alertId].critical) {
        MovesToIdle(s, t, Answer(p, row.alertId, o, Repeated));
      } else if !LockedByOther(s, t, row.alertId) {
        LockKeeps(s, t);
      }
    case Escalating(_, _) =>
      if succeeds { RaiseKeeps(h, s, t); } else { MovesToIdle(s, t, Refused(Unavailable)); }
    case _ =>
  }

  /** No statement, start or crash of any transaction breaks the invariant. */
  lemma StepKeeps(h: Hashing, s: System, e: DbEvent)
    requires SystemInv(s)
    ensures SystemInv(Step(h, s, e))
  {
    match e
    case Begins(t, p) =>
      if t !in s.txns {
        forall u | u in s.txns ensures Undisturbed(s.db, s.txns[u]) {
          UndisturbedNow(s.db, s.txns[u]);
        }
        Replaced(s, t, s.db, Txn(p, Begun));
      }
    case Executes(t, succeeds) =>
      if t in s.txns {
        ExecuteKeeps(h, s, t, succeeds);
      }
    case Dies(t) =>
      if t in s.txns && !IsFinal(s.txns[t].phase) {
        MovesToIdle(s, t, Refused(Unavailable));
      }
  }
}
