/** Deliveries with other contents: whatever is answered for one event says the same, severity apart. */
module IngestionContents {
  import opened Wrappers
  import opened SafetyAlerts
  import opened AlertIngestion
  import opened IngestionRuns
  import opened IngestionAgreement

  /** The delivery has passed the comparison or stored the event itself. */
  predicate Passed(x: Txn) {
    x.phase.Located? || x.phase.Escalating? || x.phase.Answered?
  }

  ghost predicate Says(h: Hashing, x: Txn, q: Payload) {
    (x.phase.Found? ==> x.phase.row.hash == h.Of(q)) && (Passed(x) ==> SameContents(x.payload, q))
  }

  /** The event is stored with the contents of `q`, and only deliveries with these contents have got past it. */
  ghost predicate StoredAs(h: Hashing, s: System, q: Payload) {
    && q.eventId in s.db.ingestions && s.db.ingestions[q.eventId].hash == h.Of(q)
    && forall t :: t in s.txns && s.txns[t].payload.eventId == q.eventId ==> Says(h, s.txns[t], q)
  }

  ghost predicate NotStored(s: System, e: EventId) {
    && e !in s.db.ingestions
    && forall t :: t in s.txns && s.txns[t].payload.eventId == e ==> !s.txns[t].phase.Found? && !Passed(s.txns[t])
  }

  ghost predicate ContentsInv(h: Hashing, s: System, e: EventId) {
    NotStored(s, e) || exists q: Payload :: q.eventId == e && StoredAs(h, s, q)
  }

  lemma SameHash(h: Hashing, p: Payload, q: Payload)
    requires Injective(h)
    ensures h.Of(p) == h.Of(q) <==> SameContents(p, q)
    ensures h.Legacy(p) != h.Of(q)
  {
    SameContentsIs(p, q);
    if h.Of(p) == h.Of(q) {
      assert SeverityFree(p.WithoutSeverity()) == SeverityFree(q.WithoutSeverity());
    }
    assert Full(p) != SeverityFree(q.WithoutSeverity());
  }

  /** What the step's own delivery, of the event in question, comes to say. */
  lemma OwnStep(h: Hashing, s: System, e: DbEvent, q: Payload)
    requires Injective(h) && StoredAs(h, s, q) && e.t in Step(h, s, e).txns
    ensures var s' := Step(h, s, e); s'.txns[e.t].payload.eventId == q.eventId ==> Says(h, s'.txns[e.t], q)
    ensures var s' := Step(h, s, e); q.eventId in s'.db.ingestions && s'.db.ingestions[q.eventId].hash == h.Of(q)
  {
    hide Hashing.Of, Hashing.Legacy, SameContents;
    if e.t in s.txns {
      var p := s.txns[e.t].payload;
      SameHash(h, p, q);
      assert p.eventId == q.eventId ==> Says(h, s.txns[e.t], q);
    }
  }

  lemma StoredStays(h: Hashing, s: System, e: DbEvent, q: Payload)
    requires Injective(h) && StoredAs(h, s, q)
    ensures StoredAs(h, Step(h, s, e), q)
  {
    hide Hashing.Of, SameContents, Step, Says;
    var s' := Step(h, s, e);
    if e.t in s'.txns {
      OwnStep(h, s, e, q);
    } else {
      NothingHappens(h, s, e);
    }
    forall t | t in s'.txns && s'.txns[t].payload.eventId == q.eventId ensures Says(h, s'.txns[t], q) {
      if t != e.t {
        OthersStay(h, s, e, t);
      }
    }
  }

  lemma NothingHappens(h: Hashing, s: System, e: DbEvent)
    requires e.t !in Step(h, s, e).txns
    ensures Step(h, s, e) == s
  {
  }

  lemma FirstStored(h: Hashing, s: System, e: DbEvent, key: EventId)
    requires NotStored(s, key)
    ensures var s' := Step(h, s, e);
      if key !in s'.db.ingestions
      then e.t in s'.txns && s'.txns[e.t].payload.eventId == key ==> !s'.txns[e.t].phase.Found? && !Passed(s'.txns[e.t])
      else
        && e.t in s'.txns && s'.txns[e.t].payload.eventId == key
        && s'.db.ingestions[key].hash == h.Of(s'.txns[e.t].payload) && !s'.txns[e.t].phase.Found?
  {
    hide Hashing.Of, LockedByOther;
  }

  lemma ContentsNext(h: Hashing, s: System, e: DbEvent, key: EventId)
    requires Injective(h) && ContentsInv(h, s, key)
    ensures ContentsInv(h, Step(h, s, e), key)
  {
    hide Hashing.Of, Step, StoredAs;
    var s' := Step(h, s, e);
    if NotStored(s, key) {
      FirstStored(h, s, e, key);
      OthersUnstored(h, s, e, key);
      if key in s'.db.ingestions {
        NowStored(h, s', e.t, key);
        assert StoredAs(h, s', s'.txns[e.t].payload);
      }
    } else {
      var q: Payload :| q.eventId == key && StoredAs(h, s, q);
      StoredStays(h, s, e, q);
    }
  }

  lemma NowStored(h: Hashing, s: System, t: TxnId, key: EventId)
    requires t in s.txns && s.txns[t].payload.eventId == key && !s.txns[t].phase.Found?
    requires key in s.db.ingestions && s.db.ingestions[key].hash == h.Of(s.txns[t].payload)
    requires forall u :: u in s.txns && u != t && s.txns[u].payload.eventId == key ==>
      !s.txns[u].phase.Found? && !Passed(s.txns[u])
    ensures StoredAs(h, s, s.txns[t].payload)
  {
    hide Hashing.Of;
  }

  lemma OthersUnstored(h: Hashing, s: System, e: DbEvent, key: EventId)
    requires NotStored(s, key)
    ensures forall u :: u in Step(h, s, e).txns && u != e.t && Step(h, s, e).txns[u].payload.eventId == key ==>
      !Step(h, s, e).txns[u].phase.Found? && !Passed(Step(h, s, e).txns[u])
  {
    hide Step, Passed;
    forall u | u in Step(h, s, e).txns && u != e.t ensures u in s.txns && Step(h, s, e).txns[u] == s.txns[u] {
      OthersStay(h, s, e, u);
    }
  }

  lemma {:induction false} ContentsKept(h: Hashing, db0: Database, events: seq<DbEvent>, key: EventId)
    requires Injective(h)
    requires key in db0.ingestions ==> exists q: Payload :: q.eventId == key && db0.ingestions[key].hash == h.Of(q)
    ensures ContentsInv(h, RunAll(h, Initial(db0), events), key)
  {
    hide Step, Hashing.Of, ContentsInv;
    if events == [] {
      ContentsStart(h, db0, key);
    } else {
      ContentsKept(h, db0, events[..|events| - 1], key);
      ContentsNext(h, RunAll(h, Initial(db0), events[..|events| - 1]), events[|events| - 1], key);
    }
  }

  lemma ContentsStart(h: Hashing, db0: Database, key: EventId)
    requires key in db0.ingestions ==> exists q: Payload :: q.eventId == key && db0.ingestions[key].hash == h.Of(q)
    ensures ContentsInv(h, RunAll(h, Initial(db0), []), key)
  {
    hide Hashing.Of;
    if key in db0.ingestions {
      var q: Payload :| q.eventId == key && db0.ingestions[key].hash == h.Of(q);
      assert StoredAs(h, Initial(db0), q);
    } else {
      assert NotStored(Initial(db0), key);
    }
  }

  /** In every interleaving all deliveries of an event that are ever answered have the same contents, severity apart. */
  lemma AnsweredAgree(h: Hashing, db0: Database, events: seq<DbEvent>, t: TxnId, u: TxnId)
    requires Injective(h)
    requires var s := RunAll(h, Initial(db0), events);
      && t in s.txns && u in s.txns && s.txns[t].phase.Answered? && s.txns[u].phase.Answered?
      && s.txns[t].payload.eventId == s.txns[u].payload.eventId
    requires var key := RunAll(h, Initial(db0), events).txns[t].payload.eventId;
      key in db0.ingestions ==> exists q: Payload :: q.eventId == key && db0.ingestions[key].hash == h.Of(q)
    ensures var s := RunAll(h, Initial(db0), events); SameContents(s.txns[t].payload, s.txns[u].payload)
  {
    hide Hashing.Of, RunAll;
    var s := RunAll(h, Initial(db0), events);
    var key := s.txns[t].payload.eventId;
    ContentsKept(h, db0, events, key);
    assert Passed(s.txns[t]) && Passed(s.txns[u]);
    var q: Payload :| q.eventId == key && StoredAs(h, s, q);
    assert Says(h, s.txns[t], q) && Says(h, s.txns[u], q);
  }

  lemma {:induction false} StoredKept(h: Hashing, s: System, events: seq<DbEvent>, q: Payload)
    requires Injective(h) && StoredAs(h, s, q)
    ensures StoredAs(h, RunAll(h, s, events), q)
  {
    hide Step, Hashing.Of, StoredAs;
    if events != [] {
      StoredKept(h, s, events[..|events| - 1], q);
      StoredStays(h, RunAll(h, s, events[..|events| - 1]), events[|events| - 1], q);
    }
  }

  /** An event stored with some contents answers deliveries with these contents only, in every interleaving. */
  lemma OnlyStoredContents(h: Hashing, db0: Database, events: seq<DbEvent>, q: Payload, t: TxnId)
    requires Injective(h) && q.eventId in db0.ingestions && db0.ingestions[q.eventId].hash == h.Of(q)
    requires var s := RunAll(h, Initial(db0), events);
      t in s.txns && s.txns[t].phase.Answered? && s.txns[t].payload.eventId == q.eventId
    ensures SameContents(RunAll(h, Initial(db0), events).txns[t].payload, q)
  {
    hide Hashing.Of, RunAll;
    StoredKept(h, Initial(db0), events, q);
    var s := RunAll(h, Initial(db0), events);
    assert Says(h, s.txns[t], q) && Passed(s.txns[t]);
  }
}
