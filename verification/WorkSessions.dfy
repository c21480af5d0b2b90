/** Authorizations and work sessions: values that exist only when their constructor accepts them. */
module WorkSessions {
  import opened Wrappers

  /** Instants are integer ticks of one time axis. */
  type Time = int

  predicate PositiveIfPresent(id: Option<int>) {
    id.Some? ==> id.value > 0
  }

  predicate NoRepeats<T(==)>(s: seq<T>) {
    forall i, j :: 0 <= i < j < |s| ==> s[i] != s[j]
  }

  predicate PositiveAndDistinct(ids: seq<int>) {
    |ids| > 0 && (forall i :: 0 <= i < |ids| ==> ids[i] > 0) && NoRepeats(ids)
  }

  /** The one-shot permission emitted by the safety gate. */
  datatype StartAuthorization = StartAuthorization(
    operationId: int,
    verifiedPpeIds: seq<int>,
    sampleCount: int,
    windowSize: int,
    authorizedAt: Time)
  {
    predicate Valid() {
      operationId > 0 && PositiveAndDistinct(verifiedPpeIds) && 1 <= sampleCount <= windowSize
    }
  }

  datatype SessionStatus = ActiveSession | CompletedSession | InterruptedSession

  datatype WorkSession = WorkSession(
    sessionId: nat,
    operatorId: int,
    operationId: int,
    cameraId: Option<int>,
    riskAreaId: Option<int>,
    verifiedPpeIds: seq<int>,
    safetyVerifiedAt: Time,
    sampleCount: int,
    windowSize: int,
    startedAt: Time,
    finishedAt: Option<Time>,
    status: SessionStatus)
  {
    predicate Valid() {
      && operatorId > 0 && operationId > 0
      && PositiveIfPresent(cameraId) && PositiveIfPresent(riskAreaId)
      && PositiveAndDistinct(verifiedPpeIds)
      && 1 <= sampleCount <= windowSize
      && safetyVerifiedAt <= startedAt
      && (status.ActiveSession? <==> finishedAt.None?)
      && (finishedAt.Some? ==> startedAt <= finishedAt.value)
    }

    predicate IsActive() {
      status.ActiveSession?
    }
  }
}
