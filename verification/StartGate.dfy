/**
 The one-shot gate of the PPE inference controller: worker and page events in any order turn
 frames into assessments, and at most one start authorization into each evidence window.
 */
module StartGate {
  import opened Wrappers
  import opened WorkSessions
  import opened PpeStability
  import opened PpeSafety
  import opened WorkSessionServices

  datatype GateConfig = GateConfig(stability: StabilityConfig, maxAge: Time)
  {
    predicate Valid() {
      stability.Valid() && maxAge > 0
    }
  }

  /** What an assessment was made from: the operation shown, the model's classes and the window. */
  datatype Evidence = Evidence(operation: Operation, modelClasses: set<string>, required: seq<string>,
                               window: seq<Frame>, at: Time)

  /**
   `latest` is the latest assessment with its time (and, for the proofs, its evidence); `seen`
   numbers the frames observed so far.
   */
  datatype GateState = GateState(
    required: seq<string>,
    window: seq<Frame>,
    modelReady: bool,
    modelClasses: set<string>,
    latest: Option<(Assessment, Evidence)>,
    authorized: bool,
    seen: nat)

  /** A value of `None` stands for a malformed signal payload. */
  datatype GateEvent =
    | Start(workerRunning: bool)
    | Stop
    | Shutdown
    | ModelReady(classes: Option<set<string>>, shown: Option<Operation>)
    | Detections(observed: Option<set<string>>, shown: Option<Operation>, now: Time)
    | StartRequested(operationId: int, shown: Option<Operation>, cameraActive: bool, now: Time, wall: Time)
    | AssessmentExpired
    | InferenceFailed

  ghost predicate ValidEvent(e: GateEvent) {
    match e
    case ModelReady(_, shown) => shown.Some? ==> shown.value.Valid()
    case Detections(_, shown, _) => shown.Some? ==> shown.value.Valid()
    case StartRequested(_, shown, _, _, _) => shown.Some? ==> shown.value.Valid()
    case _ => true
  }

  const INITIAL := GateState([], [], false, {}, None, false, 0)

  /** Every reset site clears the evidence together with the permission flag. */
  function ResetAll(s: GateState): GateState {
    s.(required := [], window := [], modelReady := false, modelClasses := {}, latest := None, authorized := false)
  }

  function RequiredClasses(rs: seq<Requirement>, modelClasses: set<string>): seq<string> {
    if rs == [] then []
    else
      var rest := RequiredClasses(rs[..|rs| - 1], modelClasses);
      var c := rs[|rs| - 1].detectionClass;
      if c.Some? && c.value in modelClasses then rest + [c.value] else rest
  }

  function Ready(s: GateState, classes: set<string>, shown: Option<Operation>): GateState {
    var required := if shown.Some? then RequiredClasses(shown.value.required, classes) else [];
    s.(required := required, window := [], modelReady := true, modelClasses := classes, latest := None,
       authorized := false)
  }

  function Observed(cfg: GateConfig, s: GateState, classes: set<string>, operation: Operation, now: Time): GateState
    requires cfg.Valid()
  {
    var window := Push(cfg.stability.windowSize, s.window, Frame(s.seen, classes));
    var assessment := Assessed(operation, s.modelClasses, SnapshotOf(cfg.stability, s.required, window));
    s.(window := window, seen := s.seen + 1,
       latest := Some((assessment, Evidence(operation, s.modelClasses, s.required, window, now))))
  }

  /** All the conditions that the start request is checked against. */
  predicate MayStart(cfg: GateConfig, s: GateState, operationId: int, shown: Option<Operation>, cameraActive: bool,
                     now: Time)
  {
    && s.modelReady && !s.authorized
    && shown.Some? && cameraActive && shown.value.operationId == operationId
    && s.latest.Some?
    && s.latest.value.0.operationId == operationId
    && s.latest.value.0.CanStartOperation()
    && now - s.latest.value.1.at <= cfg.maxAge
  }

  function AssessedIds(rs: seq<RequirementAssessment>): seq<int> {
    if rs == [] then [] else [rs[0].ppeId] + AssessedIds(rs[1..])
  }

  function Authorization(operationId: int, a: Assessment, wall: Time): StartAuthorization {
    StartAuthorization(operationId, AssessedIds(a.requirements), a.sampleCount, a.windowSize, wall)
  }

  function Step(cfg: GateConfig, s: GateState, e: GateEvent): (GateState, Option<StartAuthorization>)
    requires cfg.Valid()
  {
    match e
    case Start(running) => (if running then s else ResetAll(s), None)
    case Stop => (ResetAll(s), None)
    case Shutdown => (ResetAll(s), None)
    case ModelReady(classes, shown) =>
      (if classes.Some? then Ready(s, classes.value, shown) else ResetAll(s), None)
    case Detections(observed, shown, now) =>
      (if s.modelReady && !s.authorized && observed.Some? && shown.Some?
       then Observed(cfg, s, observed.value, shown.value, now) else s, None)
    case StartRequested(operationId, shown, cameraActive, now, wall) =>
      if MayStart(cfg, s, operationId, shown, cameraActive, now)
      then (s.(authorized := true, latest := None), Some(Authorization(operationId, s.latest.value.0, wall)))
      else (s, None)
    case AssessmentExpired =>
      (if s.latest.Some? && s.latest.value.0.CanStartOperation() then s.(latest := None) else s, None)
    case InferenceFailed => (ResetAll(s), None)
  }

  // ---------------------------------------------------------------- the controller object

  class PpeInferenceController {
    const cfg: GateConfig
    const stability: PpeStabilityEngine
    var modelReady: bool
    var modelClasses: set<string>
    var latestAssessment: Option<Assessment>
    var latestAssessmentAt: Option<Time>
    var startAuthorized: bool
    var framesSeen: nat
    ghost var latestEvidence: Option<Evidence>

    ghost function Model(): GateState
      reads this, stability
    {
      GateState(stability.requiredClasses, stability.observations, modelReady, modelClasses,
                if latestAssessment.Some? && latestEvidence.Some?
                then Some((latestAssessment.value, latestEvidence.value)) else None,
                startAuthorized, framesSeen)
    }

    ghost predicate Valid()
      reads this, stability
    {
      && cfg.Valid() && stability.cfg == cfg.stability && stability.Valid()
      && (latestAssessment.Some? <==> latestEvidence.Some?)
      && (latestAssessment.Some? <==> latestAssessmentAt.Some?)
      && (latestEvidence.Some? ==> latestAssessmentAt == Some(latestEvidence.value.at))
      && GateInv(cfg, Model())
    }

    constructor (cfg: GateConfig)
      requires cfg.Valid()
      ensures Valid() && fresh(stability) && this.cfg == cfg && Model() == INITIAL
    {
      this.cfg := cfg;
      stability := new PpeStabilityEngine(cfg.stability);
      modelReady, modelClasses, startAuthorized, framesSeen := false, {}, false, 0;
      latestAssessment, latestAssessmentAt, latestEvidence := None, None, None;
    }

    /** The common part of stop, shutdown, a fresh start and an inference failure. */
    method ResetGate()
      requires Valid()
      modifies this, stability
      ensures Valid() && Model() == ResetAll(old(Model()))
    {
      modelReady, modelClasses := false, {};
      latestAssessment, latestAssessmentAt, latestEvidence := None, None, None;
      startAuthorized := false;
      var r := stability.Reset([]);
    }

    method HandleStart(workerRunning: bool)
      requires Valid()
      modifies this, stability
      ensures Valid() && Model() == Step(cfg, old(Model()), Start(workerRunning)).0
    {
      if workerRunning { return; }
      ResetGate();
    }

    method HandleModelReady(classes: Option<set<string>>, shown: Option<Operation>)
      requires Valid() && ValidEvent(ModelReady(classes, shown))
      modifies this, stability
      ensures Valid() && Model() == Step(cfg, old(Model()), ModelReady(classes, shown)).0
    {
      StepInv(cfg, Model(), ModelReady(classes, shown));
      if classes.None? {
        ResetGate();
        return;
      }
      var required := if shown.Some? then RequiredClasses(shown.value.required, classes.value) else [];
      RequiredAreDistinct(classes.value, shown);
      var r := stability.Reset(required);
      modelClasses := classes.value;
      latestAssessment, latestAssessmentAt, latestEvidence := None, None, None;
      startAuthorized := false;
      modelReady := true;
    }

    method HandleDetections(observed: Option<set<string>>, shown: Option<Operation>, now: Time)
      requires Valid() && ValidEvent(Detections(observed, shown, now))
      modifies this, stability
      ensures Valid() && Model() == Step(cfg, old(Model()), Detections(observed, shown, now)).0
    {
      if modelReady && !startAuthorized && observed.Some? {
        if shown.None? { return; }
        ObservedKeeps(cfg, Model(), observed.value, shown.value, now);
        Assess(observed.value, shown.value, now);
      }
    }

    /** One frame is added to the window and the shown operation assessed against it. */
    method Assess(classes: set<string>, operation: Operation, now: Time)
      requires cfg.Valid() && stability.cfg == cfg.stability && stability.Valid() && operation.Valid()
      modifies this, stability
      ensures stability.Valid() && Model() == Observed(cfg, old(Model()), classes, operation, now)
      ensures latestAssessment.Some? && latestEvidence.Some? && latestAssessmentAt == Some(latestEvidence.value.at)
    {
      var snapshot := stability.Observe(Frame(framesSeen, classes));
      framesSeen := framesSeen + 1;
      // The assessment constructor cannot refuse: the operation is valid and the window is not empty.
      EvaluateAccepted(operation, modelClasses, snapshot);
      var assessment := Evaluate(operation, modelClasses, snapshot);
      latestAssessment := Some(assessment.value);
      latestAssessmentAt := Some(now);
      latestEvidence := Some(Evidence(operation, modelClasses, stability.requiredClasses, stability.observations, now));
    }

    method HandleOperationStartRequested(operationId: int, shown: Option<Operation>, cameraActive: bool, now: Time,
                                         wall: Time)
      returns (authorization: Option<StartAuthorization>)
      requires Valid()
      modifies this
      ensures Valid()
      ensures (Model(), authorization)
        == Step(cfg, old(Model()), StartRequested(operationId, shown, cameraActive, now, wall))
    {
      var assessment, assessmentAt := latestAssessment, latestAssessmentAt;
      if !modelReady || startAuthorized || shown.None? || !cameraActive || shown.value.operationId != operationId
         || assessment.None? || assessment.value.operationId != operationId || !assessment.value.CanStartOperation()
         || assessmentAt.None? || now - assessmentAt.value > cfg.maxAge {
        return None;
      }
      startAuthorized := true;
      authorization := Some(StartAuthorization(operationId, AssessedIds(assessment.value.requirements),
                                               assessment.value.sampleCount, assessment.value.windowSize, wall));
      latestAssessment, latestAssessmentAt, latestEvidence := None, None, None;
    }

    method ExpireAssessment()
      requires Valid()
      modifies this
      ensures Valid() && Model() == Step(cfg, old(Model()), AssessmentExpired).0
    {
      if latestAssessment.None? || !latestAssessment.value.CanStartOperation() { return; }
      latestAssessment, latestAssessmentAt, latestEvidence := None, None, None;
    }
  }

  /** The mapped classes of a valid operation are its own, without repetition and never empty. */
  lemma {:induction false} RequiredClassesFacts(operation: Operation, n: nat, modelClasses: set<string>)
    requires operation.Valid() && n <= |operation.required|
    ensures var cs := RequiredClasses(operation.required[..n], modelClasses);
      && NoRepeats(cs) && "" !in cs
      && forall c :: c in cs <==>
        c in modelClasses && exists i :: 0 <= i < n && operation.required[i].detectionClass == Some(c)
    ensures operation.required[..|operation.required|] == operation.required
  {
    if n > 0 {
      RequiredClassesFacts(operation, n - 1, modelClasses);
      assert operation.required[..n][..n - 1] == operation.required[..n - 1];
      assert operation.required[n - 1] in operation.required;
    }
  }

  /** The stability engine takes the classes of an operation as they are. */
  lemma RequiredAreDistinct(classes: set<string>, shown: Option<Operation>)
    requires shown.Some? ==> shown.value.Valid()
    ensures var required := if shown.Some? then RequiredClasses(shown.value.required, classes) else [];
      "" !in required && Distinct(required) == required
  {
    if shown.Some? {
      RequiredClassesFacts(shown.value, |shown.value.required|, classes);
      DistinctFacts(RequiredClasses(shown.value.required, classes));
    }
  }

  // ---------------------------------------------------------------- whole runs

  datatype Run = Run(cfg: GateConfig, events: seq<GateEvent>)
  {
    ghost predicate Valid() {
      cfg.Valid() && forall i :: 0 <= i < |events| ==> ValidEvent(events[i])
    }

    function After(n: nat): GateState
      requires cfg.Valid() && n <= |events|
    {
      if n == 0 then INITIAL else Step(cfg, After(n - 1), events[n - 1]).0
    }

    function AuthorizedAt(i: nat): Option<StartAuthorization>
      requires cfg.Valid() && i < |events|
    {
      Step(cfg, After(i), events[i]).1
    }

    /** The evidence behind the authorization of event `i`. */
    function EvidenceAt(i: nat): Evidence
      requires cfg.Valid() && i < |events| && AuthorizedAt(i).Some?
    {
      After(i).latest.value.1
    }

    /** The event empties the evidence window. */
    predicate Empties(i: nat)
      requires cfg.Valid() && i < |events|
    {
      After(i + 1).window == [] && !After(i + 1).authorized
    }

    /** The event adds a frame to the evidence window. */
    predicate Observes(i: nat)
      requires cfg.Valid() && i < |events|
    {
      After(i + 1).seen > After(i).seen
    }

    lemma StateStart()
      requires Valid()
      ensures GateInv(cfg, After(0))
    {
    }

    lemma {:induction false} StateKept(n: nat)
      requires Valid() && n <= |events|
      ensures GateInv(cfg, After(n))
    {
      hide GateInv, Step;
      if n == 0 {
        StateStart();
      } else {
        StateKept(n - 1);
        StepInv(cfg, After(n - 1), events[n - 1]);
      }
    }

    /** Nothing is observed while an authorization stands, and only an emptied window lifts it. */
    lemma {:induction false} StandsUntilEmptied(i: nat, n: nat)
      requires Valid() && i < n <= |events| && AuthorizedAt(i).Some?
      requires forall m :: i < m < n ==> !Empties(m)
      ensures After(n).authorized && After(n).seen == After(i).seen
      ensures forall m :: i <= m < n ==> !Observes(m)
    {
      if i + 1 < n {
        StandsUntilEmptied(i, n - 1);
        assert !Empties(n - 1);
      }
    }

    /** Between two authorizations the window is emptied, and nothing is observed before it is. */
    lemma EmptiedBetween(i: nat, j: nat) returns (m: nat)
      requires Valid() && i < j < |events| && AuthorizedAt(i).Some? && AuthorizedAt(j).Some?
      ensures i < m < j && Empties(m) && forall x :: i <= x <= m ==> !Observes(x)
      ensures After(m + 1).seen == After(i).seen
    {
      hide Step, Empties, Observes;
      NotYetAuthorized(j);
      if forall x :: i < x < j ==> !Empties(x) {
        StandsUntilEmptied(i, j);
        assert false;
      }
      m := FirstEmptied(i, j);
      SeenUntilEmptied(i, m);
    }

    lemma NotYetAuthorized(j: nat)
      requires Valid() && j < |events| && AuthorizedAt(j).Some?
      ensures !After(j).authorized
    {
    }

    lemma SeenUntilEmptied(i: nat, m: nat)
      requires Valid() && i < m < |events| && AuthorizedAt(i).Some?
      requires Empties(m) && forall x :: i < x < m ==> !Empties(x)
      ensures After(m + 1).seen == After(i).seen && forall x :: i <= x <= m ==> !Observes(x)
    {
      StandsUntilEmptied(i, m);
    }

    /** No observed frame ever supports two start authorizations. */
    lemma NoFrameSupportsTwo(i: nat, j: nat)
      requires Valid() && i < j < |events| && AuthorizedAt(i).Some? && AuthorizedAt(j).Some?
      ensures forall f, g :: f in EvidenceAt(i).window && g in EvidenceAt(j).window ==> f.serial < g.serial
    {
      hide Step, GateInv;
      SerialsBelow(i);
      var m := EmptiedBetween(i, j);
      SerialsFrom(m + 1, j);
    }

    lemma SerialsBelow(i: nat)
      requires Valid() && i < |events| && AuthorizedAt(i).Some?
      ensures forall f :: f in EvidenceAt(i).window ==> f.serial < After(i).seen
    {
      StateKept(i);
    }

    lemma SerialsFrom(m: nat, j: nat)
      requires Valid() && m <= j < |events| && AuthorizedAt(j).Some?
      requires After(m).window == [] && !After(m).authorized && (m > 0 && Empties(m - 1))
      ensures forall g :: g in EvidenceAt(j).window ==> g.serial >= After(m).seen
    {
      StateKept(m);
      FramesAfter(m, j, After(m).seen);
    }

    lemma FirstEmptied(i: nat, j: nat) returns (m: nat)
      requires Valid() && i < j <= |events|
      requires exists x :: i < x < j && Empties(x)
      ensures i < m < j && Empties(m) && forall x :: i < x < m ==> !Empties(x)
    {
      m := i + 1;
      while !Empties(m)
        invariant i < m < j && forall x :: i < x < m ==> !Empties(x)
        decreases j - m
      {
        m := m + 1;
      }
    }

    /** From an emptied window on, everything in the window and behind an assessment is newer than `mark`. */
    lemma {:induction false} FramesAfter(i: nat, n: nat, mark: nat)
      requires Valid() && i <= n <= |events|
      requires After(i).window == [] && After(i).latest.None? && After(i).seen >= mark
      ensures NewerThan(After(n), mark)
    {
      for j := i to n
        invariant NewerThan(After(j), mark)
      {
        StepNewer(cfg, After(j), events[j], mark);
      }
    }

    // -------------------------------------------------------------- what an authorization attests

    /** The frame was observed by one of the first `n` events, with these classes. */
    ghost predicate WasObserved(f: Frame, n: nat)
      requires cfg.Valid() && n <= |events|
    {
      exists m :: 0 <= m < n && Observes(m) && After(m).seen == f.serial
        && events[m].Detections? && events[m].observed == Some(f.classes)
    }

    ghost predicate AllObserved(window: seq<Frame>, n: nat)
      requires cfg.Valid() && n <= |events|
    {
      forall f :: f in window ==> WasObserved(f, n)
    }

    lemma ObservationsOf(n: nat)
      requires Valid() && n < |events| && AllObserved(After(n).window, n)
      ensures AllObserved(After(n + 1).window, n + 1)
    {
      var before, after := After(n).window, After(n + 1).window;
      forall f | f in after ensures WasObserved(f, n + 1) {
        if f in before {
          assert WasObserved(f, n);
          var m :| 0 <= m < n && Observes(m) && After(m).seen == f.serial
            && events[m].Detections? && events[m].observed == Some(f.classes);
        } else {
          assert Observes(n);
        }
      }
    }

    lemma {:induction false} WindowWasObserved(n: nat)
      requires Valid() && n <= |events|
      ensures AllObserved(After(n).window, n)
    {
      if n > 0 {
        hide AllObserved, Step;
        WindowWasObserved(n - 1);
        ObservationsOf(n - 1);
      }
    }

    /**
     Behind every authorization stands a window of observed frames, none older than the last
     emptying, in which every requirement of an active operation is confirmed by a class the model knows.
     */
    lemma AuthorizationAttests(i: nat)
      requires Valid() && i < |events| && AuthorizedAt(i).Some?
      ensures var a, e, ev := AuthorizedAt(i).value, EvidenceAt(i), events[i];
        && a.Valid() && ev.StartRequested?
        && a.operationId == e.operation.operationId == ev.operationId
        && a.verifiedPpeIds == Ids(e.operation.required)
        && a.sampleCount == |e.window| && a.windowSize == cfg.stability.windowSize && a.authorizedAt == ev.wall
        && e.operation.Valid() && e.operation.active && e.operation.required != []
        && (forall r :: r in e.operation.required ==> Supported(cfg.stability, e.required, e.window, e.modelClasses, r))
        && ev.now - e.at <= cfg.maxAge
        && Consecutive(e.window, After(i).seen)
        && AllObserved(e.window, i)
    {
      StateKept(i);
      WindowWasObserved(i);
      var e := EvidenceAt(i);
      CompliantExactly(cfg.stability, e.required, e.window, e.modelClasses, e.operation);
      AssessedIdsAre(e.operation.required, e.modelClasses, SnapshotOf(cfg.stability, e.required, e.window));
      IdsFacts(e.operation);
    }
  }

  lemma {:induction false} AssessedIdsAre(rs: seq<Requirement>, modelClasses: set<string>, snapshot: Snapshot)
    ensures AssessedIds(EvaluateAll(rs, modelClasses, snapshot)) == Ids(rs)
  {
    if rs != [] {
      AssessedIdsAre(rs[1..], modelClasses, snapshot);
      assert EvaluateAll(rs, modelClasses, snapshot)[1..] == EvaluateAll(rs[1..], modelClasses, snapshot);
    }
  }

  lemma {:induction false} IdsAt(rs: seq<Requirement>)
    ensures |Ids(rs)| == |rs| && forall i :: 0 <= i < |rs| ==> Ids(rs)[i] == rs[i].ppeId
  {
    if rs != [] { IdsAt(rs[1..]); }
  }

  lemma IdsFacts(operation: Operation)
    requires operation.Valid() && operation.required != []
    ensures PositiveAndDistinct(Ids(operation.required))
  {
    IdsAt(operation.required);
    forall i | 0 <= i < |operation.required| ensures Ids(operation.required)[i] > 0 {
      assert operation.required[i] in operation.required;
    }
  }

  // ---------------------------------------------------------------- invariants

  /** The window holds the most recent frames, numbered without gaps. */
  ghost predicate Consecutive(window: seq<Frame>, seen: nat) {
    |window| <= seen && forall i :: 0 <= i < |window| ==> window[i].serial == seen - |window| + i
  }

  ghost predicate GateInv(cfg: GateConfig, s: GateState)
    requires cfg.Valid()
  {
    && |s.window| <= cfg.stability.windowSize
    && Consecutive(s.window, s.seen)
    && (!s.modelReady ==> s.window == [])
    && (s.latest.Some? ==>
      var (a, e) := s.latest.value;
      && !s.authorized
      && e.operation.Valid() && e.window == s.window && e.window != []
      && a == Assessed(e.operation, e.modelClasses, SnapshotOf(cfg.stability, e.required, e.window)))
  }

  lemma ObservedKeeps(cfg: GateConfig, s: GateState, classes: set<string>, operation: Operation, now: Time)
    requires cfg.Valid() && GateInv(cfg, s) && s.modelReady && !s.authorized && operation.Valid()
    ensures GateInv(cfg, Observed(cfg, s, classes, operation, now))
    ensures Step(cfg, s, Detections(Some(classes), Some(operation), now)).0 == Observed(cfg, s, classes, operation, now)
  {
  }

  lemma StepInv(cfg: GateConfig, s: GateState, e: GateEvent)
    requires cfg.Valid() && ValidEvent(e) && GateInv(cfg, s)
    ensures GateInv(cfg, Step(cfg, s, e).0)
  {
  }

  ghost predicate NewerThan(s: GateState, mark: nat) {
    && s.seen >= mark
    && (forall f :: f in s.window ==> f.serial >= mark)
    && (s.latest.Some? ==> forall f :: f in s.latest.value.1.window ==> f.serial >= mark)
  }

  lemma StepNewer(cfg: GateConfig, s: GateState, e: GateEvent, mark: nat)
    requires cfg.Valid() && NewerThan(s, mark)
    ensures NewerThan(Step(cfg, s, e).0, mark)
  {
  }
}
