/** What an accepted risk area is as a curve: when its outline really has no crossing. */
module SimplePolygons {
  import opened Wrappers
  import opened Segments
  import opened RiskAreaGeometries

  /** Two edges meet only where they are neighbours, and then only at their common vertex. */
  ghost predicate Simple(vs: seq<Point>) {
    forall i, j, q :: 0 <= i < |vs| && 0 <= j < |vs| && i != j && OnEdge(q, vs, i) && OnEdge(q, vs, j) ==>
      CommonVertex(q, vs, i, j)
  }

  ghost predicate OnEdge(q: Point, vs: seq<Point>, i: nat)
    requires i < |vs|
  {
    On(q, vs[i], vs[Next(i, |vs|)])
  }

  predicate CommonVertex(q: Point, vs: seq<Point>, i: nat, j: nat)
    requires i < |vs| && j < |vs|
  {
    (j == Next(i, |vs|) && q == vs[j]) || (i == Next(j, |vs|) && q == vs[i])
  }

  // ---------------------------------------------------------------- neighbouring edges

  lemma SpikeScale(a: real, b: real, c: real, s: real, t: real)
    requires t != 0.0 && a + s * (b - a) == b + t * (c - b)
    ensures c - b == ((1.0 - s) / t) * (a - b)
  {
    var r := (1.0 - s) / t;
    assert t * r == 1.0 - s;
    assert t * (c - b) == (1.0 - s) * (a - b);
    assert t * (r * (a - b)) == (t * r) * (a - b);
    Cancel(t, c - b, r * (a - b));
  }

  lemma Inverse(r: real, x: real, y: real)
    requires r != 0.0 && y == r * x
    ensures (1.0 / r) * y == x
  {
    assert (1.0 / r) * (r * x) == ((1.0 / r) * r) * x;
  }

  lemma PointAlong(a: Point, b: Point, c: Point, r: real)
    requires 0.0 < r <= 1.0 && c.x - b.x == r * (a.x - b.x) && c.y - b.y == r * (a.y - b.y)
    ensures On(c, a, b) && On(c, b, a)
  {
    assert Along(a, b, 1.0 - r) == c && Along(b, a, r) == c;
  }

  lemma OneContainsTheOther(a: Point, b: Point, c: Point, r: real)
    requires r > 0.0 && c.x - b.x == r * (a.x - b.x) && c.y - b.y == r * (a.y - b.y)
    ensures On(c, a, b) || On(a, b, c)
  {
    if r <= 1.0 {
      PointAlong(a, b, c, r);
    } else {
      Inverse(r, a.x - b.x, c.x - b.x);
      Inverse(r, a.y - b.y, c.y - b.y);
      PointAlong(c, b, a, 1.0 / r);
    }
  }

  lemma NotAtTheVertex(a: Point, b: Point, c: Point, s: real, t: real)
    requires 0.0 <= s <= 1.0 && 0.0 <= t <= 1.0 && Along(a, b, s) == Along(b, c, t) != b
    ensures t != 0.0 && (1.0 - s) / t > 0.0
  {
    assert t != 0.0 && s != 1.0;
  }

  lemma SpikeRatio(a: Point, b: Point, c: Point, s: real, t: real) returns (r: real)
    requires 0.0 <= s <= 1.0 && 0.0 <= t <= 1.0 && Along(a, b, s) == Along(b, c, t) != b
    ensures r > 0.0 && c.x - b.x == r * (a.x - b.x) && c.y - b.y == r * (a.y - b.y)
  {
    NotAtTheVertex(a, b, c, s, t);
    SpikeScale(a.x, b.x, c.x, s, t);
    SpikeScale(a.y, b.y, c.y, s, t);
    r := (1.0 - s) / t;
  }

  /** If the outline turns back on itself, one of the two edges contains the far end of the other. */
  lemma Spike(a: Point, b: Point, c: Point, q: Point)
    requires On(q, a, b) && On(q, b, c) && q != b
    ensures On(c, a, b) || On(a, b, c)
  {
    var s: real :| 0.0 <= s <= 1.0 && Along(a, b, s) == q;
    var t: real :| 0.0 <= t <= 1.0 && Along(b, c, t) == q;
    var r := SpikeRatio(a, b, c, s, t);
    OneContainsTheOther(a, b, c, r);
  }

  /** Twice the signed area of the triangles on the first vertex, with last vertex below `n`. */
  function FanArea(vs: seq<Point>, n: nat): real
    requires n <= |vs|
  {
    if n < 3 then 0.0 else FanArea(vs, n - 1) + Orientation(vs[0], vs[n - 2], vs[n - 1])
  }

  lemma TermsOfTriangle(a: Point, b: Point, c: Point)
    ensures EdgeTerm(a, b) + EdgeTerm(b, c) + EdgeTerm(c, a) == Orientation(a, b, c)
    ensures EdgeTerm(c, a) == -EdgeTerm(a, c)
  {
  }

  lemma {:induction false} AreaByFanTo(vs: seq<Point>, n: nat)
    requires 2 <= n <= |vs|
    ensures AreaTo(vs, n - 1) + EdgeTerm(vs[n - 1], vs[0]) == FanArea(vs, n)
  {
    hide EdgeTerm, Orientation;
    if n == 2 {
      assert AreaTo(vs, 1) == EdgeTerm(vs[0], vs[1]);
      TermsOfTriangle(vs[0], vs[0], vs[1]);
      EdgeTermReversed(vs[0], vs[1]);
    } else {
      AreaByFanTo(vs, n - 1);
      assert AreaTo(vs, n - 1) == AreaTo(vs, n - 2) + EdgeTerm(vs[n - 2], vs[n - 1]);
      TermsOfTriangle(vs[0], vs[n - 2], vs[n - 1]);
      EdgeTermReversed(vs[0], vs[n - 2]);
    }
  }

  /** The sum over the edges is the area: that of the triangles on the first vertex, with their signs. */
  lemma AreaByFan(vs: seq<Point>)
    requires |vs| >= 3
    ensures SignedDoubleArea(vs) == FanArea(vs, |vs|)
  {
    AreaByFanTo(vs, |vs|);
  }

  lemma TriangleArea(vs: seq<Point>)
    requires |vs| == 3
    ensures SignedDoubleArea(vs) == Orientation(vs[0], vs[1], vs[2])
  {
    assert SignedDoubleArea(vs) == EdgeTerm(vs[0], vs[1]) + EdgeTerm(vs[1], vs[2]) + EdgeTerm(vs[2], vs[0]) by {
      assert AreaTo(vs, 3) == AreaTo(vs, 2) + EdgeTerm(vs[2], vs[0]);
      assert AreaTo(vs, 2) == AreaTo(vs, 1) + EdgeTerm(vs[1], vs[2]);
      assert AreaTo(vs, 1) == EdgeTerm(vs[0], vs[1]);
    }
  }

  lemma SpikeOfTriangle(vs: seq<Point>, i: nat)
    requires |vs| == 3 && i < 3
    requires var (j, k) := (Next(i, 3), Next(Next(i, 3), 3)); On(vs[k], vs[i], vs[j]) || On(vs[i], vs[j], vs[k])
    ensures SignedDoubleArea(vs) == 0.0
  {
    var (j, k) := (Next(i, 3), Next(Next(i, 3), 3));
    TriangleArea(vs);
    if On(vs[k], vs[i], vs[j]) {
      OnTouches(vs[k], vs[i], vs[j]);
    } else {
      OnTouches(vs[i], vs[j], vs[k]);
      OrientationTurned(vs[i], vs[j], vs[k]);
    }
    OrientationTurned(vs[0], vs[1], vs[2]);
    OrientationTurned(vs[1], vs[2], vs[0]);
  }

  lemma EdgesShare(vs: seq<Point>, i: nat, j: nat, q: Point)
    requires i < |vs| && j < |vs| && OnEdge(q, vs, i) && OnEdge(q, vs, j)
    ensures EdgesIntersect(0.0, vs, i, j)
  {
    ExactTest(vs[i], vs[Next(i, |vs|)], vs[j], vs[Next(j, |vs|)]);
  }

  /** Neighbours that share another point than their vertex betray themselves in the checks. */
  lemma SpikeFound(vs: seq<Point>, i: nat, q: Point)
    requires |vs| >= 3 && i < |vs|
    requires var j := Next(i, |vs|); OnEdge(q, vs, i) && OnEdge(q, vs, j) && q != vs[j]
    ensures StrangersMeet(0.0, vs) || SignedDoubleArea(vs) == 0.0
  {
    var n := |vs|;
    var j := Next(i, n);
    var k := Next(j, n);
    Spike(vs[i], vs[j], vs[k], q);
    if n == 3 {
      SpikeOfTriangle(vs, i);
    } else if On(vs[k], vs[i], vs[j]) {
      EndsOn(vs[k], vs[Next(k, n)]);
      EdgesShare(vs, i, k, vs[k]);
      assert !Neighbours(i, k, n);
    } else {
      var h := if i == 0 then n - 1 else i - 1;
      assert Next(h, n) == i;
      EndsOn(vs[h], vs[i]);
      EdgesShare(vs, h, j, vs[i]);
      assert !Neighbours(h, j, n);
    }
  }

  // ---------------------------------------------------------------- exact arithmetic

  lemma AcceptedIsSimple(vs: seq<Point>)
    requires Accepted(0.0, vs)
    ensures Simple(vs)
  {
    ScanIsCyclic(0.0, vs);
    var n := |vs|;
    forall i, j, q | 0 <= i < n && 0 <= j < n && i != j && OnEdge(q, vs, i) && OnEdge(q, vs, j)
      ensures CommonVertex(q, vs, i, j)
    {
      EdgesShare(vs, i, j, q);
      assert Neighbours(i, j, n);
      if j == Next(i, n) && q != vs[j] {
        SpikeFound(vs, i, q);
      }
      if i == Next(j, n) && q != vs[i] {
        SpikeFound(vs, j, q);
      }
    }
  }

  lemma StrangersShare(vs: seq<Point>, i: nat, j: nat)
    requires |vs| >= 3 && i < |vs| && j < |vs| && i != j && !Neighbours(i, j, |vs|) && EdgesIntersect(0.0, vs, i, j)
    ensures !Simple(vs)
  {
    ExactTest(vs[i], vs[Next(i, |vs|)], vs[j], vs[Next(j, |vs|)]);
    var q :| On(q, vs[i], vs[Next(i, |vs|)]) && On(q, vs[j], vs[Next(j, |vs|)]);
    assert OnEdge(q, vs, i) && OnEdge(q, vs, j) && !CommonVertex(q, vs, i, j);
  }

  /** With exact arithmetic the checks accept precisely the simple polygons with an area. */
  lemma SimpleExactly(vs: seq<Point>)
    ensures Accepted(0.0, vs) <==> |vs| >= 3 && Distinct(vs) && SignedDoubleArea(vs) != 0.0 && Simple(vs)
  {
    if Accepted(0.0, vs) {
      AcceptedIsSimple(vs);
    }
    if |vs| >= 3 && StrangersMeet(0.0, vs) {
      var i, j :| 0 <= i < |vs| && 0 <= j < |vs| && i != j && !Neighbours(i, j, |vs|) && EdgesIntersect(0.0, vs, i, j);
      StrangersShare(vs, i, j);
    }
    if |vs| >= 3 {
      ScanIsCyclic(0.0, vs);
    }
  }

  // ---------------------------------------------------------------- with the tolerance

  ghost predicate StrangersCross(eps: real, vs: seq<Point>, i: nat, j: nat)
    requires i < |vs| && j < |vs|
  {
    i != j && !Neighbours(i, j, |vs|) && Crosses(eps, vs[i], vs[Next(i, |vs|)], vs[j], vs[Next(j, |vs|)])
  }

  predicate ClearlyCross(eps: real, vs: seq<Point>, i: nat, j: nat)
    requires i < |vs| && j < |vs|
  {
    var (a, b, c, d) := (vs[i], vs[Next(i, |vs|)], vs[j], vs[Next(j, |vs|)]);
    ClearlySplit(eps, a, b, c, d) && ClearlySplit(eps, c, d, a, b)
  }

  lemma TouchesWider(eps: real, p: Point, a: Point, b: Point)
    requires eps >= 0.0
    ensures Touches(0.0, p, a, b) ==> Touches(eps, p, a, b)
  {
  }

  /** Only a crossing that exact arithmetic finds can be missed with a tolerance. */
  lemma OnlyCrossingsMissed(eps: real, a: Point, b: Point, c: Point, d: Point)
    requires eps >= 0.0 && !SegmentsIntersect(eps, a, b, c, d) && !Crosses(0.0, a, b, c, d)
    ensures !SegmentsIntersect(0.0, a, b, c, d)
  {
    TouchesWider(eps, c, a, b);
    TouchesWider(eps, d, a, b);
    TouchesWider(eps, a, c, d);
    TouchesWider(eps, b, c, d);
  }

  lemma CrossingsAreFaint(eps: real, vs: seq<Point>, i: nat, j: nat)
    requires eps >= 0.0 && Accepted(eps, vs) && i < |vs| && j < |vs| && StrangersCross(0.0, vs, i, j)
    ensures !ClearlyCross(eps, vs, i, j)
  {
    ScanIsCyclic(eps, vs);
    CrossingSeenExactly(eps, vs[i], vs[Next(i, |vs|)], vs[j], vs[Next(j, |vs|)]);
    assert !EdgesIntersect(eps, vs, i, j);
  }

  lemma CrossingNotSimple(vs: seq<Point>, i: nat, j: nat)
    requires |vs| >= 3 && i < |vs| && j < |vs| && StrangersCross(0.0, vs, i, j)
    ensures !Simple(vs)
  {
    StrangersShare(vs, i, j);
  }

  lemma AcceptedExactlyIf(eps: real, vs: seq<Point>)
    requires eps >= 0.0 && Accepted(eps, vs)
    requires forall i, j :: 0 <= i < |vs| && 0 <= j < |vs| ==> !StrangersCross(0.0, vs, i, j)
    ensures Accepted(0.0, vs)
  {
    ScanIsCyclic(eps, vs);
    ScanIsCyclic(0.0, vs);
    forall i, j | 0 <= i < |vs| && 0 <= j < |vs| && i != j && !Neighbours(i, j, |vs|)
      ensures !EdgesIntersect(0.0, vs, i, j)
    {
      assert !StrangersCross(0.0, vs, i, j) && !EdgesIntersect(eps, vs, i, j);
      OnlyCrossingsMissed(eps, vs[i], vs[Next(i, |vs|)], vs[j], vs[Next(j, |vs|)]);
    }
  }

  /**
   With a tolerance, an accepted polygon is simple exactly when no two of its edges cross faintly: every
   crossing it may still have is one that the two edges' lines do not clearly split.
   */
  lemma SimpleUnlessFaint(eps: real, vs: seq<Point>)
    requires eps >= 0.0 && Accepted(eps, vs)
    ensures Simple(vs) <==> forall i, j :: 0 <= i < |vs| && 0 <= j < |vs| ==> !StrangersCross(0.0, vs, i, j)
    ensures forall i, j :: 0 <= i < |vs| && 0 <= j < |vs| && StrangersCross(0.0, vs, i, j) ==>
      !ClearlyCross(eps, vs, i, j)
  {
    forall i, j | 0 <= i < |vs| && 0 <= j < |vs| && StrangersCross(0.0, vs, i, j)
      ensures !ClearlyCross(eps, vs, i, j) && !Simple(vs)
    {
      CrossingsAreFaint(eps, vs, i, j);
      CrossingNotSimple(vs, i, j);
    }
    if forall i, j :: 0 <= i < |vs| && 0 <= j < |vs| ==> !StrangersCross(0.0, vs, i, j) {
      AcceptedExactlyIf(eps, vs);
      AcceptedIsSimple(vs);
    }
  }

  /** A thin area whose first and third edges cross: the crossing is too faint for the checks. */
  const THIN_AREA: seq<Point> := [Point(0.0, 0.5), Point(1.0, 0.5), Point(0.9, 0.50002), Point(0.4, 0.49999)]

  lemma ThinAreaSize()
    ensures SignedDoubleArea(THIN_AREA) > EPSILON
  {
    var vs := THIN_AREA;
    assert AreaTo(vs, 4) == AreaTo(vs, 3) + EdgeTerm(vs[3], vs[0]);
    assert AreaTo(vs, 3) == AreaTo(vs, 2) + EdgeTerm(vs[2], vs[3]);
    assert AreaTo(vs, 2) == AreaTo(vs, 1) + EdgeTerm(vs[1], vs[2]);
    assert AreaTo(vs, 1) == AreaTo(vs, 0) + EdgeTerm(vs[0], vs[1]);
  }

  /** The repository's tolerance accepts an area whose outline crosses itself. */
  lemma CrossedAreaAccepted()
    ensures (forall i :: 0 <= i < |THIN_AREA| ==> THIN_AREA[i].Normalized())
    ensures Checked(EPSILON, THIN_AREA) == Ok(THIN_AREA) && !Simple(THIN_AREA)
  {
    var vs := THIN_AREA;
    ThinAreaSize();
    assert !SegmentsIntersect(EPSILON, vs[0], vs[1], vs[2], vs[3]);
    assert !SegmentsIntersect(EPSILON, vs[1], vs[2], vs[3], vs[0]);
    assert !EdgesIntersect(EPSILON, vs, 0, 2) && !EdgesIntersect(EPSILON, vs, 1, 3);
    assert StrangersCross(0.0, vs, 0, 2);
    CrossingNotSimple(vs, 0, 2);
  }

  // ---------------------------------------------------------------- a list that cannot be rotated

  const CLOSED_TRIANGLE: seq<Point> := [Point(0.0, 0.0), Point(1.0, 0.0), Point(0.0, 1.0), Point(0.0, 0.0)]

  lemma TriangleNeverCrosses(eps: real, vs: seq<Point>)
    requires |vs| == 3
    ensures !HasSelfIntersection(eps, vs)
  {
    hide EdgesIntersect;
  }

  lemma ClosedTriangleSound()
    ensures Unclosed(CLOSED_TRIANGLE) == CLOSED_TRIANGLE[..3] && Accepted(EPSILON, CLOSED_TRIANGLE[..3])
  {
    hide HasSelfIntersection;
    TriangleNeverCrosses(EPSILON, CLOSED_TRIANGLE[..3]);
    TriangleArea(CLOSED_TRIANGLE[..3]);
  }

  /** A closed list that is accepted, and refused once it starts at its second vertex. */
  lemma ClosedTriangleTurned()
    ensures forall i :: 0 <= i < |CLOSED_TRIANGLE| ==> CLOSED_TRIANGLE[i].Normalized()
    ensures Checked(EPSILON, CLOSED_TRIANGLE) == Ok(CLOSED_TRIANGLE[..3])
    ensures Checked(EPSILON, Turned(CLOSED_TRIANGLE, 1)) == Err(RepeatedVertex)
  {
    hide HasSelfIntersection, SignedDoubleArea;
    ClosedTriangleSound();
    CheckedExactly(EPSILON, CLOSED_TRIANGLE);
    TurnedClosed(CLOSED_TRIANGLE, 1);
  }
}
