/**
 The station: the gate, the controller that turns an authorization into a work session, and the
 session service, driven by one stream of events.
 */
module Station {
  import opened Wrappers
  import opened WorkSessions
  import opened PpeStability
  import opened PpeSafety
  import opened WorkSessionServices
  import opened StartGate

  /** What the application finds when it handles an authorization. */
  datatype Surroundings = Surroundings(shown: Option<Operation>, operatorId: Option<int>, wall: Time, pageFails: bool)

  datatype StationEvent =
    | Gate(event: GateEvent, around: Surroundings)
    | CompleteSession(sessionId: nat, wall: Time)
    | Logout(wall: Time)

  datatype StationState = StationState(gate: GateState, service: ServiceState)

  ghost predicate ValidStationEvent(e: StationEvent) {
    match e
    case Gate(event, around) =>
      && ValidEvent(event)
      && (around.shown.Some? ==> around.shown.value.Valid())
      && (around.operatorId.Some? ==> around.operatorId.value > 0)
    case _ => true
  }

  /** The handler of an authorization: the session it starts, if any, and what becomes of the service. */
  function Handle(maxAge: Time, ids: nat -> nat, s: ServiceState, authorization: StartAuthorization,
                  around: Surroundings)
    : (ServiceState, Option<WorkSession>)
  {
    if around.shown.None? || around.shown.value.operationId != authorization.operationId then (s, None)
    else if around.operatorId.None? then (FinishStep(s, around.wall, InterruptedSession).0, None)
    else
      var (t, r) := StartStep(maxAge, ids, s, around.operatorId.value, around.shown.value, authorization, around.wall);
      if r.Err? then (t, None)
      else (if around.pageFails then FinishStep(t, around.wall, InterruptedSession).0 else t, Some(r.value))
  }

  function StationStep(cfg: GateConfig, ids: nat -> nat, s: StationState, e: StationEvent)
    : (StationState, Option<WorkSession>)
    requires cfg.Valid()
  {
    match e
    case Gate(event, around) =>
      var (gate, authorization) := Step(cfg, s.gate, event);
      if authorization.None? then (StationState(gate, s.service), None)
      else
        var (service, started) := Handle(cfg.maxAge, ids, s.service, authorization.value, around);
        (StationState(gate, service), started)
    case CompleteSession(id, wall) =>
      if s.service.current.Some? && s.service.current.value.sessionId == id
      then (s.(service := FinishStep(s.service, wall, CompletedSession).0), None) else (s, None)
    case Logout(wall) => (s.(service := FinishStep(s.service, wall, InterruptedSession).0), None)
  }

  class OperatorStation {
    const gate: PpeInferenceController
    const service: WorkSessionService

    ghost function Model(): StationState
      reads this, gate, gate.stability, service
    {
      StationState(gate.Model(), service.Model())
    }

    ghost predicate Valid()
      reads this, gate, gate.stability, service
    {
      gate.Valid() && service.Valid() && service.maxAge == gate.cfg.maxAge
    }

    /** Both halves use the same maximum age, as the runtime configures them. */
    constructor (cfg: GateConfig, ids: nat -> nat)
      requires cfg.Valid()
      ensures Valid() && gate.cfg == cfg && service.ids == ids
      ensures Model() == StationState(INITIAL, ServiceState(None, None, 0))
    {
      gate := new PpeInferenceController(cfg);
      service := new WorkSessionService(cfg.maxAge, ids);
    }

    /** A start request, its authorization and the handling of it, one after the other in one thread. */
    method RequestStart(operationId: int, shown: Option<Operation>, cameraActive: bool, now: Time, wall: Time,
                        around: Surroundings)
      returns (started: Option<WorkSession>)
      requires Valid() && ValidStationEvent(Gate(StartRequested(operationId, shown, cameraActive, now, wall), around))
      modifies gate, service
      ensures Valid()
      ensures (Model(), started)
        == StationStep(gate.cfg, service.ids, old(Model()),
                       Gate(StartRequested(operationId, shown, cameraActive, now, wall), around))
    {
      ghost var event := StartRequested(operationId, shown, cameraActive, now, wall);
      AuthorizationValid(gate.cfg, gate.Model(), event);
      var authorization := gate.HandleOperationStartRequested(operationId, shown, cameraActive, now, wall);
      if authorization.None? || around.shown.None?
        || around.shown.value.operationId != authorization.value.operationId {
        return None;
      }
      if around.operatorId.None? {
        var r := service.InterruptActive(around.wall);
        return None;
      }
      var r := service.Start(around.operatorId.value, around.shown.value, authorization.value, around.wall);
      if r.Err? {
        return None;
      }
      started := Some(r.value);
      if around.pageFails {
        var f := service.InterruptActive(around.wall);
      }
    }
  }

  /** The authorization constructor never refuses what the gate emits. */
  lemma AuthorizationValid(cfg: GateConfig, s: GateState, e: GateEvent)
    requires cfg.Valid() && GateInv(cfg, s)
    ensures var a := Step(cfg, s, e).1; a.Some? ==> a.value.Valid()
  {
    if Step(cfg, s, e).1.Some? {
      var (a, ev) := s.latest.value;
      CompliantExactly(cfg.stability, ev.required, ev.window, ev.modelClasses, ev.operation);
      AssessedIdsAre(ev.operation.required, ev.modelClasses, SnapshotOf(cfg.stability, ev.required, ev.window));
      IdsFacts(ev.operation);
    }
  }

  // ---------------------------------------------------------------- whole runs

  datatype StationRun = StationRun(cfg: GateConfig, ids: nat -> nat, events: seq<StationEvent>)
  {
    ghost predicate Valid() {
      cfg.Valid() && forall i :: 0 <= i < |events| ==> ValidStationEvent(events[i])
    }

    function After(n: nat): StationState
      requires cfg.Valid() && n <= |events|
    {
      if n == 0 then StationState(INITIAL, ServiceState(None, None, 0))
        else StationStep(cfg, ids, After(n - 1), events[n - 1]).0
    }

    function StartedAt(i: nat): Option<WorkSession>
      requires cfg.Valid() && i < |events|
    {
      StationStep(cfg, ids, After(i), events[i]).1
    }

    /** What the gate alone sees of the run; other events look to it like a page event without effect. */
    function GateRun(): Run {
      Run(cfg, seq(|events|, i requires 0 <= i < |events| =>
        if events[i].Gate? then events[i].event else StartRequested(0, None, false, 0, 0)))
    }

    lemma {:induction false} GateFollows(n: nat)
      requires Valid() && n <= |events|
      ensures After(n).gate == GateRun().After(n)
    {
      if n > 0 { GateFollows(n - 1); }
    }

    lemma StartedFacts(i: nat)
      requires Valid() && i < |events| && StartedAt(i).Some?
      ensures GateRun().Valid() && events[i].Gate? && GateRun().AuthorizedAt(i).Some?
      ensures var a, around := GateRun().AuthorizedAt(i).value, events[i].around;
        && around.shown.Some? && around.operatorId.Some?
        && StartStep(cfg.maxAge, ids, After(i).service, around.operatorId.value, around.shown.value, a, around.wall).1
          == Ok(StartedAt(i).value)
    {
      GateFollows(i);
    }

    /**
     A session starts exactly when an authorization is given for the operation shown, somebody is signed in, no
     session is open, and the authorization still covers the operation and is not too old.
     */
    lemma StartedExactly(i: nat)
      requires Valid() && i < |events|
      ensures GateRun().Valid()
      ensures StartedAt(i).Some? <==>
        && events[i].Gate? && GateRun().AuthorizedAt(i).Some? && After(i).service.current.None?
        && var (a, around) := (GateRun().AuthorizedAt(i).value, events[i].around);
        && around.shown.Some? && around.operatorId.Some?
        && around.shown.value.operationId == a.operationId
        && around.shown.value.active && around.shown.value.required != []
        && (forall x :: x in a.verifiedPpeIds <==> x in Ids(around.shown.value.required))
        && a.authorizedAt <= around.wall <= a.authorizedAt + cfg.maxAge
    {
      GateFollows(i);
      if events[i].Gate? && GateRun().AuthorizedAt(i).Some? {
        var (a, around) := (GateRun().AuthorizedAt(i).value, events[i].around);
        if around.shown.Some? && around.operatorId.Some? {
          StartsExactly(cfg.maxAge, ids, After(i).service, around.operatorId.value, around.shown.value, a, around.wall);
        }
      }
    }

    /** The event asks for the open session to end, in this way at this time. */
    predicate EndsSession(i: nat, id: nat, wall: Time, status: SessionStatus)
      requires cfg.Valid() && i < |events|
    {
      match events[i]
      case CompleteSession(named, at) => named == id && at == wall && status == CompletedSession
      case Logout(at) => at == wall && status == InterruptedSession
      case Gate(event, around) =>
        && Step(cfg, After(i).gate, event).1.Some? && around.shown.Some?
        && around.shown.value.operationId == Step(cfg, After(i).gate, event).1.value.operationId
        && around.operatorId.None? && around.wall == wall && status == InterruptedSession
    }

    /**
     An open session stays open, and the same, until somebody completes it by name, logs out, or is authorized
     with nobody signed in; then it ends there, unless that time is before its start. A session that starts is
     open afterwards, or interrupted at once when the page fails.
     */
    lemma SessionGoesOn(i: nat)
      requires Valid() && i < |events|
      ensures var (before, after) := (After(i).service, After(i + 1).service);
        && (StartedAt(i).Some? && events[i].Gate? && !events[i].around.pageFails ==> after.current == StartedAt(i))
        && (StartedAt(i).Some? && events[i].Gate? && events[i].around.pageFails ==>
          && after.current == None && after.lastFinished.Some?
          && Ended(StartedAt(i).value, after.lastFinished.value, events[i].around.wall, InterruptedSession))
        && (before.current.Some? ==>
          var w := before.current.value;
          && StartedAt(i).None?
          && (forall wall, status :: EndsSession(i, w.sessionId, wall, status) && wall >= w.startedAt ==>
            && after.current == None && after.lastFinished.Some?
            && Ended(w, after.lastFinished.value, wall, status))
          && ((forall wall, status :: EndsSession(i, w.sessionId, wall, status) ==> wall < w.startedAt) ==>
            after == before))
        && (before.current.None? && StartedAt(i).None? ==> after == before)
    {
      if After(i).service.current.Some? {
        var id := After(i).service.current.value.sessionId;
        match events[i]
        case CompleteSession(named, at) => assert EndsSession(i, id, at, CompletedSession) <==> named == id;
        case Logout(at) => assert EndsSession(i, id, at, InterruptedSession);
        case Gate(_, around) => assert EndsSession(i, id, around.wall, InterruptedSession) ==> around.operatorId.None?;
      }
    }

    /** A required item is confirmed by the evidence under its own identity. */
    ghost predicate Verified(e: Evidence, ppeId: int) {
      exists r :: r in e.operation.required && r.ppeId == ppeId
        && Supported(cfg.stability, e.required, e.window, e.modelClasses, r)
    }

    /**
     Every work session ever started stands on a window of observed frames in which each item its
     operation requires was confirmed; its verified ids are the required ids; and it starts at most
     twice the maximum age after that assessment, when the wall clock runs `offset` ahead of the monotonic one.
     */
    lemma SessionsAreVerified(i: nat, offset: Time)
      requires Valid() && i < |events| && StartedAt(i).Some?
      requires events[i].Gate? && events[i].event.StartRequested?
        && events[i].event.wall == events[i].event.now + offset
      ensures GateRun().Valid() && GateRun().AuthorizedAt(i).Some?
      ensures var w, e, op := StartedAt(i).value, GateRun().EvidenceAt(i), events[i].around.shown;
        && w.Valid() && w.IsActive() && op.Some? && w.operationId == op.value.operationId && op.value.active
        && op.value.required != []
        && (forall r :: r in op.value.required ==> Verified(e, r.ppeId))
        && (forall x :: x in w.verifiedPpeIds <==> x in Ids(op.value.required))
        && |e.window| >= cfg.stability.minimumSamples
        && GateRun().AllObserved(e.window, i)
        && w.startedAt <= e.at + offset + 2 * cfg.maxAge
        && w.startedAt == events[i].around.wall && w.safetyVerifiedAt == events[i].event.wall
        && events[i].around.operatorId == Some(w.operatorId)
        && w.sampleCount == |e.window| && w.windowSize == cfg.stability.windowSize
        && (op.value.riskArea.None? ==> w.cameraId == None && w.riskAreaId == None)
        && (op.value.riskArea.Some? ==>
          && w.cameraId == op.value.riskArea.value.cameraId
          && w.riskAreaId == Some(op.value.riskArea.value.riskAreaId))
    {
      StartedFacts(i);
      GateRun().AuthorizationAttests(i);
      var a, e, around := GateRun().AuthorizedAt(i).value, GateRun().EvidenceAt(i), events[i].around;
      var op := around.shown.value;
      StartsExactly(cfg.maxAge, ids, After(i).service, around.operatorId.value, op, a, around.wall);
      IdsAt(op.required);
      IdsAt(e.operation.required);
      forall r | r in op.required ensures Verified(e, r.ppeId) {
        var j :| 0 <= j < |op.required| && op.required[j] == r;
        assert Ids(op.required)[j] in a.verifiedPpeIds;
        var m :| 0 <= m < |a.verifiedPpeIds| && a.verifiedPpeIds[m] == r.ppeId;
        assert e.operation.required[m] in e.operation.required;
      }
      assert Supported(cfg.stability, e.required, e.window, e.modelClasses, e.operation.required[0]);
    }

    /** Two sessions never rest on the same frame. */
    lemma SessionsShareNoFrame(i: nat, j: nat)
      requires Valid() && i < j < |events| && StartedAt(i).Some? && StartedAt(j).Some?
      ensures GateRun().Valid() && GateRun().AuthorizedAt(i).Some? && GateRun().AuthorizedAt(j).Some?
      ensures forall f, g :: f in GateRun().EvidenceAt(i).window && g in GateRun().EvidenceAt(j).window ==>
        f.serial < g.serial
    {
      StartedFacts(i);
      StartedFacts(j);
      GateRun().NoFrameSupportsTwo(i, j);
    }
  }
}
