/** The in-memory service that owns the single active work session. */
module WorkSessionServices {
  import opened Wrappers
  import opened WorkSessions
  import opened PpeSafety

  datatype ServiceError =
    | AlreadyActive
    | OperationInactive
    | WrongOperation
    | MissingPpe
    | AuthorizationExpired
    | NotFound
    | EndsBeforeStart

  datatype ServiceState = ServiceState(current: Option<WorkSession>, lastFinished: Option<WorkSession>, issued: nat)

  function Ids(required: seq<Requirement>): seq<int> {
    if required == [] then [] else [required[0].ppeId] + Ids(required[1..])
  }

  function AsSet(ids: seq<int>): set<int> {
    set i | i in ids
  }

  /** What `_validate_authorization` refuses, in its order. */
  function Refuses(maxAge: Time, operation: Operation, authorization: StartAuthorization,
                   startedAt: Time): Option<ServiceError>
  {
    if !operation.active then Some(OperationInactive)
    else if authorization.operationId != operation.operationId then Some(WrongOperation)
    else if operation.required == [] || AsSet(authorization.verifiedPpeIds) != AsSet(Ids(operation.required))
      then Some(MissingPpe)
    else if !(0 <= startedAt - authorization.authorizedAt <= maxAge) then Some(AuthorizationExpired)
    else None
  }

  function NewSession(id: nat, operatorId: int, operation: Operation, authorization: StartAuthorization,
                      startedAt: Time): WorkSession
  {
    WorkSession(id, operatorId, operation.operationId,
                if operation.riskArea.Some? then operation.riskArea.value.cameraId else None,
                if operation.riskArea.Some? then Some(operation.riskArea.value.riskAreaId) else None,
                authorization.verifiedPpeIds, authorization.authorizedAt,
                authorization.sampleCount, authorization.windowSize, startedAt, None, ActiveSession)
  }

  function StartStep(maxAge: Time, ids: nat -> nat, s: ServiceState, operatorId: int, operation: Operation,
                     authorization: StartAuthorization, now: Time)
    : (ServiceState, Result<WorkSession, ServiceError>)
  {
    if s.current.Some? then (s, Err(AlreadyActive))
    else
      var refusal := Refuses(maxAge, operation, authorization, now);
      if refusal.Some? then (s, Err(refusal.value))
      else
        var session := NewSession(ids(s.issued), operatorId, operation, authorization, now);
        (s.(current := Some(session), issued := s.issued + 1), Ok(session))
  }

  function Finished(session: WorkSession, now: Time, status: SessionStatus): Result<WorkSession, ServiceError> {
    if now < session.startedAt then Err(EndsBeforeStart)
    else Ok(session.(finishedAt := Some(now), status := status))
  }

  function FinishStep(s: ServiceState, now: Time, status: SessionStatus)
    : (ServiceState, Result<Option<WorkSession>, ServiceError>)
  {
    if s.current.None? then (s, Ok(None))
    else
      match Finished(s.current.value, now, status)
      case Err(e) => (s, Err(e))
      case Ok(done) => (s.(current := None, lastFinished := Some(done)), Ok(Some(done)))
  }

  /** A new session says who works on what, where, and what its authorization attests. */
  ghost predicate Describes(w: WorkSession, operatorId: int, operation: Operation, authorization: StartAuthorization,
                            now: Time)
  {
    && w.operatorId == operatorId && w.operationId == operation.operationId
    && (operation.riskArea.None? ==> w.cameraId == None && w.riskAreaId == None)
    && (operation.riskArea.Some? ==>
      w.cameraId == operation.riskArea.value.cameraId && w.riskAreaId == Some(operation.riskArea.value.riskAreaId))
    && w.verifiedPpeIds == authorization.verifiedPpeIds && w.safetyVerifiedAt == authorization.authorizedAt
    && w.sampleCount == authorization.sampleCount && w.windowSize == authorization.windowSize
    && w.startedAt == now && w.finishedAt == None && w.status == ActiveSession
  }

  /** The session has ended at this time in this way; nothing else about it has changed. */
  ghost predicate Ended(before: WorkSession, after: WorkSession, now: Time, status: SessionStatus) {
    && after.status == status && after.finishedAt == Some(now)
    && after.sessionId == before.sessionId && after.operatorId == before.operatorId
    && after.operationId == before.operationId
    && after.cameraId == before.cameraId && after.riskAreaId == before.riskAreaId
    && after.verifiedPpeIds == before.verifiedPpeIds && after.safetyVerifiedAt == before.safetyVerifiedAt
    && after.sampleCount == before.sampleCount && after.windowSize == before.windowSize
    && after.startedAt == before.startedAt
  }

  ghost predicate ServiceInv(s: ServiceState) {
    && (s.current.Some? ==> s.current.value.Valid() && s.current.value.IsActive())
    && (s.lastFinished.Some? ==> s.lastFinished.value.Valid() && !s.lastFinished.value.IsActive())
  }

  class WorkSessionService {
    const maxAge: Time
    const ids: nat -> nat
    var current: Option<WorkSession>
    var lastFinished: Option<WorkSession>
    var issued: nat

    ghost function Model(): ServiceState
      reads this
    {
      ServiceState(current, lastFinished, issued)
    }

    ghost predicate Valid()
      reads this
    {
      maxAge > 0 && ServiceInv(Model())
    }

    constructor (maxAge: Time, ids: nat -> nat)
      requires maxAge > 0
      ensures Valid() && this.maxAge == maxAge && this.ids == ids
      ensures Model() == ServiceState(None, None, 0)
    {
      this.maxAge, this.ids := maxAge, ids;
      current, lastFinished, issued := None, None, 0;
    }

    method Start(operatorId: int, operation: Operation, authorization: StartAuthorization, now: Time)
      returns (r: Result<WorkSession, ServiceError>)
      requires Valid() && operatorId > 0 && operation.Valid() && authorization.Valid()
      modifies this
      ensures Valid()
      ensures (Model(), r) == StartStep(maxAge, ids, old(Model()), operatorId, operation, authorization, now)
      ensures r.Ok? ==> r.value.Valid() && Describes(r.value, operatorId, operation, authorization, now)
      ensures r.Ok? ==> r.value.sessionId == ids(old(issued)) && issued == old(issued) + 1
      ensures r.Ok? ==> current == Some(r.value) && lastFinished == old(lastFinished)
    {
      if current.Some? {
        return Err(AlreadyActive);
      }
      var refusal := Refuses(maxAge, operation, authorization, now);
      if refusal.Some? {
        return Err(refusal.value);
      }
      var session := NewSession(ids(issued), operatorId, operation, authorization, now);
      issued := issued + 1;
      current := Some(session);
      r := Ok(session);
    }

    /** Closes the active session only when it is the one named. */
    method Complete(sessionId: nat, now: Time) returns (r: Result<WorkSession, ServiceError>)
      requires Valid()
      modifies this
      ensures Valid()
      ensures if old(current).None? || old(current).value.sessionId != sessionId
        then r == Err(NotFound) && Model() == old(Model())
        else var (s, f) := FinishStep(old(Model()), now, CompletedSession);
          Model() == s && (if f.Err? then r == Err(f.error) else r == Ok(f.value.value))
      ensures r.Ok? <==>
        && old(current).Some? && old(current).value.sessionId == sessionId && now >= old(current).value.startedAt
      ensures r.Ok? ==> Ended(old(current).value, r.value, now, CompletedSession)
      ensures r.Ok? ==> current == None && lastFinished == Some(r.value) && issued == old(issued)
      ensures r.Err? ==> Model() == old(Model())
      ensures r.Err? && r.error != NotFound ==> r.error == EndsBeforeStart
    {
      if current.None? || current.value.sessionId != sessionId {
        return Err(NotFound);
      }
      r := Finished(current.value, now, CompletedSession);
      if r.Ok? {
        current, lastFinished := None, Some(r.value);
      }
    }

    method InterruptActive(now: Time) returns (r: Result<Option<WorkSession>, ServiceError>)
      requires Valid()
      modifies this
      ensures Valid()
      ensures (Model(), r) == FinishStep(old(Model()), now, InterruptedSession)
      ensures r.Err? <==> old(current).Some? && now < old(current).value.startedAt
      ensures r.Ok? && old(current).Some? ==>
        && r.value.Some? && Ended(old(current).value, r.value.value, now, InterruptedSession)
        && current == None && lastFinished == r.value && issued == old(issued)
      ensures r.Err? || old(current).None? ==> Model() == old(Model())
    {
      if current.None? {
        return Ok(None);
      }
      var done := Finished(current.value, now, InterruptedSession);
      if done.Err? {
        return Err(done.error);
      }
      current, lastFinished := None, Some(done.value);
      r := Ok(Some(done.value));
    }
  }

  /**
   A session starts exactly when no other is active and the authorization is fresh and covers the operation; it
   then says what the operation and the authorization say, and is the current one.
   */
  lemma StartsExactly(maxAge: Time, ids: nat -> nat, s: ServiceState, operatorId: int, operation: Operation,
                      authorization: StartAuthorization, now: Time)
    ensures StartStep(maxAge, ids, s, operatorId, operation, authorization, now).1.Ok? <==>
      && s.current.None? && operation.active && operation.required != []
      && authorization.operationId == operation.operationId
      && (forall i :: i in authorization.verifiedPpeIds <==> i in Ids(operation.required))
      && authorization.authorizedAt <= now <= authorization.authorizedAt + maxAge
    ensures var (t, r) := StartStep(maxAge, ids, s, operatorId, operation, authorization, now);
      && (r.Ok? ==> Describes(r.value, operatorId, operation, authorization, now) && t.current == Some(r.value))
      && (r.Err? ==> t == s)
      && (r == Err(AlreadyActive) <==> s.current.Some?)
      && (r == Err(OperationInactive) <==> s.current.None? && !operation.active)
      && (r == Err(WrongOperation) <==>
        s.current.None? && operation.active && authorization.operationId != operation.operationId)
      && (r == Err(AuthorizationExpired) ==>
        !(authorization.authorizedAt <= now <= authorization.authorizedAt + maxAge))
      && (r.Err? ==> r.error != NotFound && r.error != EndsBeforeStart)
  {
    var a, b := AsSet(authorization.verifiedPpeIds), AsSet(Ids(operation.required));
    if forall i :: i in authorization.verifiedPpeIds <==> i in Ids(operation.required) {
      assert a == b;
    } else {
      var i :| (i in authorization.verifiedPpeIds) != (i in Ids(operation.required));
      assert (i in a) != (i in b);
    }
  }
}
