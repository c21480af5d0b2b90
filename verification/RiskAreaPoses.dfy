/** People in a risk area: reliable body points of each pose against the area's outline. */
module RiskAreaPoses {
  import opened Wrappers
  import opened Decimals
  import opened SafetyAlerts
  import opened Segments
  import opened RiskAreaGeometries
  import opened RiskAreaEngines

  datatype Keypoint = Keypoint(x: real, y: real, confidence: real)

  type Pose = seq<Keypoint>

  /** The poses of one frame, in pixels of the frame. */
  datatype PoseBatch = PoseBatch(poses: seq<Pose>, frameWidth: real, frameHeight: real, inferenceMilliseconds: real)
  {
    predicate Valid() {
      frameWidth > 0.0 && frameHeight > 0.0
    }
  }

  datatype RiskAreaAssessment = RiskAreaAssessment(
    violations: seq<Violation>,
    detectedPeople: nat,
    evaluatedPeople: nat,
    peopleInside: nat,
    inferenceMilliseconds: real)
  {
    predicate IsClear() {
      evaluatedPeople > 0 && peopleInside == 0
    }
  }

  datatype AreaError = NonPositiveArea | EmptyName

  predicate Visible(threshold: real, b: PoseBatch, k: Keypoint) {
    k.confidence >= threshold && 0.0 <= k.x <= b.frameWidth && 0.0 <= k.y <= b.frameHeight
  }

  function Normalize(b: PoseBatch, k: Keypoint): (p: Point)
    requires b.Valid()
    ensures p.x * b.frameWidth == k.x && p.y * b.frameHeight == k.y
  {
    Point(k.x / b.frameWidth, k.y / b.frameHeight)
  }

  /** The constructor of a normalized point never refuses a visible keypoint. */
  lemma VisibleIsNormalized(threshold: real, b: PoseBatch, k: Keypoint)
    requires b.Valid() && Visible(threshold, b, k)
    ensures Normalize(b, k).Normalized()
  {
    QuotientInUnit(k.x, b.frameWidth);
    QuotientInUnit(k.y, b.frameHeight);
  }

  lemma QuotientInUnit(n: real, d: real)
    requires 0.0 <= n <= d && d > 0.0
    ensures 0.0 <= n / d <= 1.0
  {
    assert (n / d) * d == n;
  }

  predicate Contains(vs: seq<Point>, p: Point) {
    Classified(EPSILON, vs, p) != Outside
  }

  predicate Seen(threshold: real, b: PoseBatch, pose: Pose) {
    exists i :: 0 <= i < |pose| && Visible(threshold, b, pose[i])
  }

  predicate PointIn(threshold: real, b: PoseBatch, vs: seq<Point>, k: Keypoint)
    requires b.Valid()
  {
    Visible(threshold, b, k) && Contains(vs, Normalize(b, k))
  }

  /** Some reliable point of the body is inside the area or on its outline. */
  predicate Entered(threshold: real, b: PoseBatch, vs: seq<Point>, pose: Pose)
    requires b.Valid()
  {
    exists i :: 0 <= i < |pose| && PointIn(threshold, b, vs, pose[i])
  }

  function SeenPoses(threshold: real, b: PoseBatch, n: nat): (s: set<nat>)
    requires n <= |b.poses|
  {
    set i: nat | i < n && Seen(threshold, b, b.poses[i])
  }

  function EnteredPoses(threshold: real, b: PoseBatch, vs: seq<Point>, n: nat): (s: set<nat>)
    requires b.Valid() && n <= |b.poses|
  {
    set i: nat | i < n && Entered(threshold, b, vs, b.poses[i])
  }

  lemma OneMoreSeen(threshold: real, b: PoseBatch, n: nat)
    requires n < |b.poses|
    ensures |SeenPoses(threshold, b, n + 1)|
      == |SeenPoses(threshold, b, n)| + if Seen(threshold, b, b.poses[n]) then 1 else 0
  {
    var next := SeenPoses(threshold, b, n + 1);
    assert next == SeenPoses(threshold, b, n) + if Seen(threshold, b, b.poses[n]) then {n} else {};
  }

  lemma OneMoreEntered(threshold: real, b: PoseBatch, vs: seq<Point>, n: nat)
    requires b.Valid() && n < |b.poses|
    ensures |EnteredPoses(threshold, b, vs, n + 1)| ==
      |EnteredPoses(threshold, b, vs, n)| + if Entered(threshold, b, vs, b.poses[n]) then 1 else 0
  {
    var next := EnteredPoses(threshold, b, vs, n + 1);
    assert next == EnteredPoses(threshold, b, vs, n) + if Entered(threshold, b, vs, b.poses[n]) then {n} else {};
  }

  /** Whoever is in the area has been seen. */
  lemma EnteredWereSeen(threshold: real, b: PoseBatch, vs: seq<Point>)
    requires b.Valid()
    ensures EnteredPoses(threshold, b, vs, |b.poses|) <= SeenPoses(threshold, b, |b.poses|)
    ensures |EnteredPoses(threshold, b, vs, |b.poses|)| <= |SeenPoses(threshold, b, |b.poses|)| <= |b.poses|
  {
    var (entered, seen) := (EnteredPoses(threshold, b, vs, |b.poses|), SeenPoses(threshold, b, |b.poses|));
    forall i | i in entered ensures i in seen {
      var k :| 0 <= k < |b.poses[i]| && PointIn(threshold, b, vs, b.poses[i][k]);
      assert Visible(threshold, b, b.poses[i][k]);
    }
    SubsetCount(entered, seen);
    CountBelow(seen, |b.poses|);
  }

  lemma {:induction false} SubsetCount(a: set<nat>, b: set<nat>)
    requires a <= b
    ensures |a| <= |b|
  {
    if a != {} {
      var x :| x in a;
      SubsetCount(a - {x}, b - {x});
    }
  }

  lemma {:induction false} CountBelow(s: set<nat>, n: nat)
    requires forall i :: i in s ==> i < n
    ensures |s| <= n
  {
    if n > 0 {
      CountBelow(s - {n - 1}, n - 1);
    } else {
      assert s == {};
    }
  }

  /** Nobody counts as inside exactly when nobody has entered, and somebody counts as seen exactly when somebody was. */
  lemma ClearExactly(threshold: real, b: PoseBatch, vs: seq<Point>)
    requires b.Valid()
    ensures |EnteredPoses(threshold, b, vs, |b.poses|)| == 0 <==>
      forall i :: 0 <= i < |b.poses| ==> !Entered(threshold, b, vs, b.poses[i])
    ensures |SeenPoses(threshold, b, |b.poses|)| > 0 <==>
      exists i :: 0 <= i < |b.poses| && Seen(threshold, b, b.poses[i])
  {
    var (entered, seen) := (EnteredPoses(threshold, b, vs, |b.poses|), SeenPoses(threshold, b, |b.poses|));
    assert forall i :: 0 <= i < |b.poses| && Entered(threshold, b, vs, b.poses[i]) ==> i in entered;
    assert forall i :: 0 <= i < |b.poses| && Seen(threshold, b, b.poses[i]) ==> i in seen;
    if |seen| > 0 {
      var i :| i in seen;
      assert Seen(threshold, b, b.poses[i]);
    }
    if |entered| == 0 {
      assert entered == {};
    }
    if |seen| == 0 {
      assert seen == {};
    }
  }

  function PresenceOf(areaId: nat, name: string): Violation {
    Violation(PersonInRiskArea, "risk_area:" + Decimal(areaId), "Pessoa detectada na área de risco: " + name,
              Critical, None, None, None)
  }

  class RiskAreaPoseEngine {
    const threshold: real

    constructor (threshold: real)
      requires 0.0 < threshold <= 1.0
      ensures this.threshold == threshold
    {
      this.threshold := threshold;
    }

    /** The reliable points of one pose, looked at until one of them is in the area. */
    method EvaluatePose(b: PoseBatch, vertices: seq<Point>, pose: Pose) returns (seen: bool, entered: bool)
      requires b.Valid()
      ensures seen == Seen(threshold, b, pose)
      ensures entered == Entered(threshold, b, vertices, pose)
    {
      var visiblePoints: seq<Point> := [];
      ghost var from: seq<nat> := [];
      for i := 0 to |pose|
        invariant |from| == |visiblePoints|
        invariant forall j :: 0 <= j < |from| ==>
          from[j] < i && Visible(threshold, b, pose[from[j]]) && visiblePoints[j] == Normalize(b, pose[from[j]])
        invariant forall k :: 0 <= k < i && Visible(threshold, b, pose[k]) ==> k in from
      {
        if Visible(threshold, b, pose[i]) {
          visiblePoints := visiblePoints + [Normalize(b, pose[i])];
          from := from + [i];
        }
      }
      seen := visiblePoints != [];
      assert seen ==> Visible(threshold, b, pose[from[0]]);
      entered := false;
      for j := 0 to |visiblePoints|
        invariant !entered && forall l :: 0 <= l < j ==> !Contains(vertices, visiblePoints[l])
      {
        entered := RiskAreaSpatialEngine.ContainsPoint(vertices, visiblePoints[j], true);
        if entered {
          assert PointIn(threshold, b, vertices, pose[from[j]]);
          return;
        }
      }
    }

    /**
     One assessment of a frame: how many people were detected, seen reliably, and seen in the area. It
     holds one violation, always the same for the area, exactly when somebody is in it. It is clear exactly
     when somebody was seen reliably and no reliable point of anybody is in the area.
     */
    method Evaluate(b: PoseBatch, vertices: seq<Point>, areaId: int, name: string)
      returns (r: Result<RiskAreaAssessment, AreaError>)
      requires b.Valid()
      ensures r == Err(NonPositiveArea) <==> areaId <= 0
      ensures r == Err(EmptyName) <==> areaId > 0 && name == ""
      ensures r.Ok? ==>
        && r.value.detectedPeople == |b.poses|
        && r.value.evaluatedPeople == |SeenPoses(threshold, b, |b.poses|)|
        && r.value.peopleInside == |EnteredPoses(threshold, b, vertices, |b.poses|)|
        && r.value.violations == (if r.value.peopleInside > 0 then [PresenceOf(areaId, name)] else [])
        && r.value.inferenceMilliseconds == b.inferenceMilliseconds
      ensures r.Ok? ==> r.value.peopleInside <= r.value.evaluatedPeople <= r.value.detectedPeople
      ensures r.Ok? ==> areaId > 0 && forall v :: v in r.value.violations ==>
        && v.Valid() && v.kind == PersonInRiskArea && v.severity == Critical
        && v.subjectKey == "risk_area:" + Decimal(areaId)
      ensures r.Ok? ==> (r.value.IsClear() <==>
        && (exists i :: 0 <= i < |b.poses| && Seen(threshold, b, b.poses[i]))
        && (forall i :: 0 <= i < |b.poses| ==> !Entered(threshold, b, vertices, b.poses[i])))
    {
      if areaId <= 0 {
        return Err(NonPositiveArea);
      }
      if name == "" {
        return Err(EmptyName);
      }
      var evaluated, inside := 0, 0;
      for i := 0 to |b.poses|
        invariant evaluated == |SeenPoses(threshold, b, i)|
        invariant inside == |EnteredPoses(threshold, b, vertices, i)|
      {
        var seen, entered := EvaluatePose(b, vertices, b.poses[i]);
        OneMoreSeen(threshold, b, i);
        OneMoreEntered(threshold, b, vertices, i);
        if !seen {
          assert !Entered(threshold, b, vertices, b.poses[i]);
          continue;
        }
        evaluated := evaluated + 1;
        if entered {
          inside := inside + 1;
        }
      }
      EnteredWereSeen(threshold, b, vertices);
      ClearExactly(threshold, b, vertices);
      var violations := if inside > 0 then [PresenceOf(areaId, name)] else [];
      r := Ok(RiskAreaAssessment(violations, |b.poses|, evaluated, inside, b.inferenceMilliseconds));
    }
  }
}
