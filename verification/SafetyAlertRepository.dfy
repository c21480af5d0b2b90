/**
 The repository's `store`, statement by statement. Between any two of its statements the other
 transactions of the server take any steps; an update of a locked row waits for its holder to end.
 */
module SafetyAlertRepositories {
  import opened Wrappers
  import opened SafetyAlerts
  import opened AlertIngestion
  import opened IngestionRuns
  import opened IngestionAgreement

  /** None of these events is a step of `t`. */
  ghost predicate LeaveAlone(events: seq<DbEvent>, t: TxnId) {
    forall i :: 0 <= i < |events| ==> events[i].t != t
  }

  lemma {:induction false} LeftAlone(h: Hashing, s: System, events: seq<DbEvent>, t: TxnId)
    requires LeaveAlone(events, t) && t in s.txns
    ensures var s' := RunAll(h, s, events); t in s'.txns && s'.txns[t] == s.txns[t]
  {
    if events != [] {
      LeftAlone(h, s, events[..|events| - 1], t);
    }
  }

  function ResultOf(p: Phase): Result<StoredAlert, StoreError>
    requires IsFinal(p)
  {
    match p
    case Answered(stored, _) => Ok(stored)
    case Refused(error) => Err(error)
  }

  /** `s` is what `trace` has made of `s0`, with the delivery `t` of `p` in the given phase. */
  ghost predicate At(h: Hashing, s0: System, trace: seq<DbEvent>, s: System, t: TxnId, p: Payload, phase: Phase,
                     agreed: bool)
  {
    && s == RunAll(h, s0, trace) && SystemInv(s)
    && t in s.txns && s.txns[t] == Txn(p, phase)
    && (agreed ==> Agreed(h, s, p))
  }

  /** The delivery itself has taken its next step. */
  lemma Advance(h: Hashing, s0: System, trace: seq<DbEvent>, s: System, s': System, t: TxnId, p: Payload,
                phase: Phase, phase': Phase, agreed: bool, succeeds: bool)
    requires At(h, s0, trace, s, t, p, phase, agreed)
    requires s' == Execute(h, s, t, succeeds) && t in s'.txns && s'.txns[t] == Txn(p, phase')
    ensures At(h, s0, trace + [Executes(t, succeeds)], s', t, p, phase', agreed)
  {
    var e := Executes(t, succeeds);
    assert s' == Step(h, s, e);
    RunOneMore(h, s0, trace, e);
    StepKeeps(h, s, e);
    if agreed {
      AgreedNext(h, s, e, p);
    }
  }

  ghost predicate Holds(s: System, u: TxnId, alertId: nat) {
    u in s.txns && s.txns[u].phase.Escalating? && s.txns[u].phase.row.alertId == alertId
  }

  /** A row lock has one holder, whose next statement is its last. */
  lemma HolderEnds(h: Hashing, s: System, t: TxnId, u: TxnId, alertId: nat, commits: bool)
    requires SystemInv(s) && u != t && Holds(s, u, alertId)
    ensures !LockedByOther(RunAll(h, s, [Executes(u, commits)]), t, alertId)
  {
    RunOneMore(h, s, [], Executes(u, commits));
    assert [] + [Executes(u, commits)] == [Executes(u, commits)];
    var s' := Execute(h, s, u, commits);
    assert IsFinal(s'.txns[u].phase);
    forall v | v in s'.txns && v != t ensures !Holds(s', v, alertId) {
      if v != u {
        assert s'.txns[v] == s.txns[v] && PairInv(s.txns[u], s.txns[v]);
      }
    }
    assert forall v :: Holds(s', v, alertId) ==> v == t;
  }

  class SafetyAlertRepository {
    /** The committed rows and the transactions in flight. */
    var server: System

    constructor (server: System)
      ensures this.server == server
    {
      this.server := server;
    }

    /** The other transactions run. */
    method Interfere(h: Hashing, ghost s0: System, ghost trace: seq<DbEvent>, events: seq<DbEvent>, t: TxnId,
                     p: Payload, ghost phase: Phase, ghost agreed: bool) returns (ghost longer: seq<DbEvent>)
      requires At(h, s0, trace, server, t, p, phase, agreed)
      requires LeaveAlone(events, t) && (agreed ==> OnlySeverityDiffers(events, p))
      modifies this
      ensures longer == trace + events
      ensures At(h, s0, longer, server, t, p, phase, agreed)
      ensures Grows(old(server).db, server.db)
    {
      LeftAlone(h, server, events, t);
      RunGrows(h, server, events);
      if agreed {
        SeverityNeverConflicts(h, server, events, p);
      }
      RunAppend(h, s0, trace, events);
      server := RunAll(h, server, events);
      longer := trace + events;
    }

    /** The holder of the lock on an alert's row ends, and with it every wait for the row. */
    method AwaitLock(h: Hashing, ghost s0: System, ghost trace: seq<DbEvent>, t: TxnId, p: Payload, alertId: nat,
                     holderCommits: bool, ghost phase: Phase, ghost agreed: bool) returns (ghost longer: seq<DbEvent>)
      requires At(h, s0, trace, server, t, p, phase, agreed)
      modifies this
      ensures At(h, s0, longer, server, t, p, phase, agreed) && Grows(old(server).db, server.db)
      ensures !LockedByOther(server, t, alertId)
    {
      longer := trace;
      if LockedByOther(server, t, alertId) {
        var u :| u in server.txns && u != t && server.txns[u].phase.Escalating?
          && server.txns[u].phase.row.alertId == alertId;
        HolderEnds(h, server, t, u, alertId, holderCommits);
        longer := Interfere(h, s0, trace, [Executes(u, holderCommits)], t, p, phase, agreed);
      }
    }

    /** An event that is already stored: the same payload, perhaps with a higher severity, or a conflict. */
    method Existing(h: Hashing, ghost s0: System, ghost trace0: seq<DbEvent>, t: TxnId, p: Payload,
                    existing: IngestionRow,
                    others: nat -> seq<DbEvent>, holderCommits: bool, commits: bool, ghost agreed: bool)
      returns (r: Result<StoredAlert, StoreError>, ghost trace: seq<DbEvent>)
      requires At(h, s0, trace0, server, t, p, Found(existing), agreed)
      requires forall i :: LeaveAlone(others(i), t) && (agreed ==> OnlySeverityDiffers(others(i), p))
      modifies this
      ensures t in server.txns && IsFinal(server.txns[t].phase) && r == ResultOf(server.txns[t].phase)
      ensures At(h, s0, trace, server, t, p, server.txns[t].phase, agreed)
      ensures commits ==> r.Ok? || r == Err(Conflict)
    {
      trace := Interfere(h, s0, trace0, others(0), t, p, Found(existing), agreed);
      assert PhaseInv(server.db, server.txns[t]);
      ghost var before := server;
      if existing.hash != h.Of(p) && existing.hash != h.Legacy(p) {
        server := WithPhase(server, t, Refused(Conflict));
        Advance(h, s0, trace, before, server, t, p, Found(existing), Refused(Conflict), agreed, true);
        return Err(Conflict), trace + [Executes(t, true)];
      }
      var occurrenceId := server.db.alerts[existing.alertId].occurrenceId;
      server := WithPhase(server, t, Located(existing, occurrenceId));
      Advance(h, s0, trace, before, server, t, p, Found(existing), Located(existing, occurrenceId), agreed, true);
      trace := trace + [Executes(t, true)];

      trace := Interfere(h, s0, trace, others(1), t, p, Located(existing, occurrenceId), agreed);
      var duplicate := StoredAlert(p.eventId, existing.alertId, occurrenceId, true);
      if p.severity == Critical {
        trace := AwaitLock(h, s0, trace, t, p, existing.alertId, holderCommits, Located(existing, occurrenceId),
                           agreed);
        assert PhaseInv(server.db, server.txns[t]);
        if !server.db.alerts[existing.alertId].critical {
          r, trace := Escalate(h, s0, trace, t, p, existing, occurrenceId, others, commits, agreed);
          return;
        }
      }
      assert PhaseInv(server.db, server.txns[t]);
      before := server;
      server := WithPhase(server, t, Answered(duplicate, Repeated));
      Advance(h, s0, trace, before, server, t, p, Located(existing, occurrenceId), Answered(duplicate, Repeated),
              agreed, true);
      return Ok(duplicate), trace + [Executes(t, true)];
    }

    /** The update of the level and of the hash become visible. */
    method RaiseLevel(h: Hashing, p: Payload, alertId: nat)
      requires alertId in server.db.alerts && p.eventId in server.db.ingestions
      modifies this
      ensures server == old(server).(db := Raised(h, old(server).db, p, alertId))
    {
      var db := server.db;
      db := db.(alerts := db.alerts[alertId := db.alerts[alertId].(critical := true)]);
      db := db.(ingestions := db.ingestions[p.eventId := db.ingestions[p.eventId].(hash := h.Of(p))]);
      server := server.(db := db);
    }

    /** The update of an alert that is still a warning: the row is locked until the commit. */
    method Escalate(h: Hashing, ghost s0: System, ghost trace0: seq<DbEvent>, t: TxnId, p: Payload,
                    existing: IngestionRow, occurrenceId: nat,
                    others: nat -> seq<DbEvent>, commits: bool, ghost agreed: bool)
      returns (r: Result<StoredAlert, StoreError>, ghost trace: seq<DbEvent>)
      requires At(h, s0, trace0, server, t, p, Located(existing, occurrenceId), agreed)
      requires p.severity == Critical && existing.alertId in server.db.alerts
        && !server.db.alerts[existing.alertId].critical
      requires !LockedByOther(server, t, existing.alertId)
      requires forall i :: LeaveAlone(others(i), t) && (agreed ==> OnlySeverityDiffers(others(i), p))
      modifies this
      ensures t in server.txns && IsFinal(server.txns[t].phase) && r == ResultOf(server.txns[t].phase)
      ensures At(h, s0, trace, server, t, p, server.txns[t].phase, agreed)
      ensures r == if commits then Ok(StoredAlert(p.eventId, existing.alertId, occurrenceId, false))
        else Err(Unavailable)
    {
      ghost var before := server;
      server := WithPhase(server, t, Escalating(existing, occurrenceId));
      Advance(h, s0, trace0, before, server, t, p, Located(existing, occurrenceId),
              Escalating(existing, occurrenceId), agreed, true);
      trace := trace0 + [Executes(t, true)];
      trace := Interfere(h, s0, trace, others(2), t, p, Escalating(existing, occurrenceId), agreed);
      r, trace := CommitLevel(h, s0, trace, t, p, existing, occurrenceId, commits, agreed);
    }

    /** The raised level and the replaced hash are committed together, or not at all. */
    method CommitLevel(h: Hashing, ghost s0: System, ghost trace0: seq<DbEvent>, t: TxnId, p: Payload,
                       existing: IngestionRow, occurrenceId: nat, commits: bool, ghost agreed: bool)
      returns (r: Result<StoredAlert, StoreError>, ghost trace: seq<DbEvent>)
      requires At(h, s0, trace0, server, t, p, Escalating(existing, occurrenceId), agreed)
      modifies this
      ensures t in server.txns && IsFinal(server.txns[t].phase) && r == ResultOf(server.txns[t].phase)
      ensures At(h, s0, trace, server, t, p, server.txns[t].phase, agreed)
      ensures r == if commits then Ok(StoredAlert(p.eventId, existing.alertId, occurrenceId, false))
        else Err(Unavailable)
    {
      ghost var before := server;
      if commits {
        assert PhaseInv(server.db, server.txns[t]);
        RaiseLevel(h, p, existing.alertId);
        var stored := StoredAlert(p.eventId, existing.alertId, occurrenceId, false);
        server := WithPhase(server, t, Answered(stored, Escalated));
        r := Ok(stored);
      } else {
        server := WithPhase(server, t, Refused(Unavailable));
        r := Err(Unavailable);
      }
      Advance(h, s0, trace0, before, server, t, p, Escalating(existing, occurrenceId), server.txns[t].phase, agreed,
              commits);
      trace := trace0 + [Executes(t, commits)];
    }

    /** Both rows of a new event are inserted; nothing of it is visible to the others yet. */
    method Insert(h: Hashing, ghost s0: System, ghost trace0: seq<DbEvent>, t: TxnId, p: Payload,
                  others: nat -> seq<DbEvent>, ghost agreed: bool)
      returns (occurrenceId: nat, alertId: nat, ghost trace: seq<DbEvent>)
      requires At(h, s0, trace0, server, t, p, Missing, agreed)
      requires forall i :: LeaveAlone(others(i), t) && (agreed ==> OnlySeverityDiffers(others(i), p))
      modifies this
      ensures At(h, s0, trace, server, t, p, AlertInserted(occurrenceId, alertId), agreed)
    {
      trace := Interfere(h, s0, trace0, others(3), t, p, Missing, agreed);
      ghost var before := server;
      occurrenceId := server.db.nextOccurrence;
      server := WithPhase(server.(db := server.db.(nextOccurrence := occurrenceId + 1)), t,
                          OccurrenceInserted(occurrenceId));
      Advance(h, s0, trace, before, server, t, p, Missing, OccurrenceInserted(occurrenceId), agreed, true);
      trace := trace + [Executes(t, true)];

      trace := Interfere(h, s0, trace, others(4), t, p, OccurrenceInserted(occurrenceId), agreed);
      before := server;
      alertId := server.db.nextAlert;
      server := WithPhase(server.(db := server.db.(nextAlert := alertId + 1)), t, AlertInserted(occurrenceId, alertId));
      Advance(h, s0, trace, before, server, t, p, OccurrenceInserted(occurrenceId),
              AlertInserted(occurrenceId, alertId), agreed, true);
      trace := trace + [Executes(t, true)];

      trace := Interfere(h, s0, trace, others(5), t, p, AlertInserted(occurrenceId, alertId), agreed);
    }

    /**
     Stores a delivery. The whole is one of the interleavings of the transaction system, ending with
     this delivery's answer. While the database accepts its commits it is answered or conflicts, and it
     is answered when all deliveries of the event, stored or under way, differ in severity only.
     */
    method Store(h: Hashing, t: TxnId, p: Payload, others: nat -> seq<DbEvent>, holderCommits: bool, commits: bool)
      returns (r: Result<StoredAlert, StoreError>, ghost trace: seq<DbEvent>)
      requires SystemInv(server) && t !in server.txns
      requires forall i :: LeaveAlone(others(i), t)
      modifies this
      ensures server == RunAll(h, old(server), trace) && SystemInv(server)
      ensures t in server.txns && server.txns[t].payload == p && IsFinal(server.txns[t].phase)
        && r == ResultOf(server.txns[t].phase)
      ensures r.Ok? ==>
        r.value.eventId == p.eventId && Leads(server.db, p.eventId, r.value.alertId, r.value.occurrenceId)
      ensures r.Ok? && p.severity == Critical ==> server.db.alerts[r.value.alertId].critical
      ensures commits ==> r.Ok? || r == Err(Conflict)
      ensures commits && Agreed(h, old(server), p) && (forall i :: OnlySeverityDiffers(others(i), p)) ==> r.Ok?
    {
      ghost var s0 := server;
      ghost var agreed := Agreed(h, s0, p) && forall i :: OnlySeverityDiffers(others(i), p);
      server := server.(txns := server.txns[t := Txn(p, Begun)]);
      trace := [Begins(t, p)];
      Begin(h, s0, server, t, p, agreed);

      ghost var before := server;
      if p.eventId in server.db.ingestions {
        var existing := server.db.ingestions[p.eventId];
        server := WithPhase(server, t, Found(existing));
        Advance(h, s0, trace, before, server, t, p, Begun, Found(existing), agreed, true);
        trace := trace + [Executes(t, true)];
        r, trace := Existing(h, s0, trace, t, p, existing, others, holderCommits, commits, agreed);
      } else {
        server := WithPhase(server, t, Missing);
        Advance(h, s0, trace, before, server, t, p, Begun, Missing, agreed, true);
        var occurrenceId, alertId;
        occurrenceId, alertId, trace := Insert(h, s0, trace + [Executes(t, true)], t, p, others, agreed);
        r, trace := Commit(h, s0, trace, t, p, occurrenceId, alertId, others, holderCommits, commits, agreed);
      }
      AnswerMeans(server, t, p);
      assert agreed ==> Keeps(h, server.txns[t], p);
    }

    /** The commit of a new event, or the answer for the delivery that stored it first. */
    method Commit(h: Hashing, ghost s0: System, ghost trace0: seq<DbEvent>, t: TxnId, p: Payload, occurrenceId: nat,
                  alertId: nat, others: nat -> seq<DbEvent>, holderCommits: bool, commits: bool, ghost agreed: bool)
      returns (r: Result<StoredAlert, StoreError>, ghost trace: seq<DbEvent>)
      requires At(h, s0, trace0, server, t, p, AlertInserted(occurrenceId, alertId), agreed)
      requires forall i :: LeaveAlone(others(i), t) && (agreed ==> OnlySeverityDiffers(others(i), p))
      modifies this
      ensures t in server.txns && IsFinal(server.txns[t].phase) && r == ResultOf(server.txns[t].phase)
      ensures At(h, s0, trace, server, t, p, server.txns[t].phase, agreed)
      ensures commits ==> r.Ok? || r == Err(Conflict)
    {
      trace := trace0;
      ghost var before := server;
      if p.eventId !in server.db.ingestions && commits {
        var db := server.db;
        db := db.(occurrences := db.occurrences[occurrenceId := OccurrenceOf(p)]);
        db := db.(alerts := db.alerts[alertId := AlertRowOf(p, occurrenceId)]);
        db := db.(ingestions := db.ingestions[p.eventId := IngestionOf(h, p, alertId)]);
        assert db == Committed(h, before.db, p, occurrenceId, alertId);
        var stored := StoredAlert(p.eventId, alertId, occurrenceId, false);
        server := WithPhase(server.(db := db), t, Answered(stored, Created));
        Advance(h, s0, trace, before, server, t, p, AlertInserted(occurrenceId, alertId), Answered(stored, Created),
                agreed, commits);
        return Ok(stored), trace + [Executes(t, commits)];
      }
      server := WithPhase(server, t, RolledBack);
      Advance(h, s0, trace, before, server, t, p, AlertInserted(occurrenceId, alertId), RolledBack, agreed, commits);
      trace := trace + [Executes(t, commits)];

      r, trace := AfterRollback(h, s0, trace, t, p, others, holderCommits, commits, agreed);
    }

    /** The commit was refused: unless a racing delivery has stored the event, so is this one. */
    method AfterRollback(h: Hashing, ghost s0: System, ghost trace0: seq<DbEvent>, t: TxnId, p: Payload,
                         others: nat -> seq<DbEvent>, holderCommits: bool, commits: bool, ghost agreed: bool)
      returns (r: Result<StoredAlert, StoreError>, ghost trace: seq<DbEvent>)
      requires At(h, s0, trace0, server, t, p, RolledBack, agreed)
      requires commits ==> p.eventId in server.db.ingestions
      requires forall i :: LeaveAlone(others(i), t) && (agreed ==> OnlySeverityDiffers(others(i), p))
      modifies this
      ensures t in server.txns && IsFinal(server.txns[t].phase) && r == ResultOf(server.txns[t].phase)
      ensures At(h, s0, trace, server, t, p, server.txns[t].phase, agreed)
      ensures commits ==> r.Ok? || r == Err(Conflict)
    {
      trace := Interfere(h, s0, trace0, others(6), t, p, RolledBack, agreed);
      ghost var before := server;
      if p.eventId !in server.db.ingestions {
        server := WithPhase(server, t, Refused(Unavailable));
        Advance(h, s0, trace, before, server, t, p, RolledBack, Refused(Unavailable), agreed, true);
        return Err(Unavailable), trace + [Executes(t, true)];
      }
      var raced := server.db.ingestions[p.eventId];
      server := WithPhase(server, t, Found(raced));
      Advance(h, s0, trace, before, server, t, p, RolledBack, Found(raced), agreed, true);
      r, trace := Existing(h, s0, trace + [Executes(t, true)], t, p, raced, others, holderCommits, commits, agreed);
    }
  }

  lemma AnswerMeans(s: System, t: TxnId, p: Payload)
    requires SystemInv(s) && t in s.txns && s.txns[t].payload == p && IsFinal(s.txns[t].phase)
    ensures var r := ResultOf(s.txns[t].phase); r.Ok? ==>
      && r.value.eventId == p.eventId && Leads(s.db, p.eventId, r.value.alertId, r.value.occurrenceId)
      && (p.severity == Critical ==> s.db.alerts[r.value.alertId].critical)
  {
    assert PhaseInv(s.db, s.txns[t]);
  }

  lemma Begin(h: Hashing, s0: System, s: System, t: TxnId, p: Payload, agreed: bool)
    requires SystemInv(s0) && t !in s0.txns && (agreed ==> Agreed(h, s0, p))
    requires s == s0.(txns := s0.txns[t := Txn(p, Begun)])
    ensures At(h, s0, [Begins(t, p)], s, t, p, Begun, agreed)
  {
    hide SystemInv, Agreed, Execute;
    RunOneMore(h, s0, [], Begins(t, p));
    assert [] + [Begins(t, p)] == [Begins(t, p)];
    StepKeeps(h, s0, Begins(t, p));
    if agreed {
      AgreedNext(h, s0, Begins(t, p), p);
    }
  }
}
