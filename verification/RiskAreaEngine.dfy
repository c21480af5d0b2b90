/** Where a point lies relative to a risk area: ray casting, with the outline counted as boundary. */
module RiskAreaEngines {
  import opened Segments
  import opened RiskAreaGeometries

  datatype Relation = Outside | Boundary | Interior

  predicate Straddles(p: Point, a: Point, b: Point) {
    (a.y > p.y) != (b.y > p.y)
  }

  /** Where the edge's line has the height of the point. */
  function AbscissaAt(p: Point, a: Point, b: Point): real
    requires Straddles(p, a, b)
  {
    a.x + (p.y - a.y) * (b.x - a.x) / (b.y - a.y)
  }

  /** The edge meets the horizontal ray that starts at the point and runs towards larger abscissas. */
  predicate MeetsRay(p: Point, a: Point, b: Point) {
    Straddles(p, a, b) && AbscissaAt(p, a, b) > p.x
  }

  predicate EdgeMeetsRay(vs: seq<Point>, p: Point, i: nat)
    requires i < |vs|
  {
    MeetsRay(p, vs[i], vs[Next(i, |vs|)])
  }

  predicate EdgeTouched(eps: real, vs: seq<Point>, p: Point, i: nat)
    requires i < |vs|
  {
    Touches(eps, p, vs[i], vs[Next(i, |vs|)])
  }

  predicate OnBoundary(eps: real, vs: seq<Point>, p: Point) {
    exists i :: 0 <= i < |vs| && EdgeTouched(eps, vs, p, i)
  }

  /** Whether an odd number of the edges with index below `n` meet the ray. */
  predicate OddTo(vs: seq<Point>, p: Point, n: nat)
    requires n <= |vs|
  {
    n > 0 && OddTo(vs, p, n - 1) != EdgeMeetsRay(vs, p, n - 1)
  }

  predicate Odd(vs: seq<Point>, p: Point) {
    OddTo(vs, p, |vs|)
  }

  function Classified(eps: real, vs: seq<Point>, p: Point): Relation {
    if OnBoundary(eps, vs, p) then Boundary else if Odd(vs, p) then Interior else Outside
  }

  class RiskAreaSpatialEngine {
    /** One pass over the edges, left as soon as one of them is touched. */
    static method ClassifyPoint(vertices: seq<Point>, point: Point) returns (r: Relation)
      ensures r == Classified(EPSILON, vertices, point)
    {
      var inside := false;
      for index := 0 to |vertices|
        invariant inside == OddTo(vertices, point, index)
        invariant forall i :: 0 <= i < index ==> !EdgeTouched(EPSILON, vertices, point, i)
      {
        var start, end := vertices[index], vertices[Next(index, |vertices|)];
        if Touches(EPSILON, point, start, end) {
          assert EdgeTouched(EPSILON, vertices, point, index);
          return Boundary;
        }
        assert OddTo(vertices, point, index + 1) == (inside != MeetsRay(point, start, end));
        if (start.y > point.y) == (end.y > point.y) {
          continue;
        }
        var intersectionX := AbscissaAt(point, start, end);
        if intersectionX > point.x {
          inside := !inside;
        }
      }
      return if inside then Interior else Outside;
    }

    static method ContainsPoint(vertices: seq<Point>, point: Point, includeBoundary: bool) returns (contained: bool)
      ensures contained <==> if OnBoundary(EPSILON, vertices, point) then includeBoundary else Odd(vertices, point)
    {
      var relation := ClassifyPoint(vertices, point);
      contained := relation == Interior || (includeBoundary && relation == Boundary);
    }
  }

  // ---------------------------------------------------------------- the crossing, without division

  lemma Scaled(k: real, q: real, n: real, d: real)
    requires q * k == n && k != 0.0
    ensures q > d <==> if k > 0.0 then n - d * k > 0.0 else n - d * k < 0.0
  {
    assert n - d * k == (q - d) * k;
    if q > d {
      assert k > 0.0 ==> (q - d) * k > 0.0;
      assert k < 0.0 ==> (q - d) * (-k) > 0.0;
    } else {
      assert k > 0.0 ==> (d - q) * k >= 0.0;
      assert k < 0.0 ==> (d - q) * (-k) >= 0.0;
    }
  }

  /** A rising edge meets the ray if the point is on its left, a falling one if it is on its right. */
  predicate SeesOnSide(p: Point, a: Point, b: Point) {
    if b.y > a.y then Orientation(a, b, p) > 0.0 else Orientation(a, b, p) < 0.0
  }

  lemma MeetsBySide(p: Point, a: Point, b: Point)
    ensures MeetsRay(p, a, b) <==> Straddles(p, a, b) && SeesOnSide(p, a, b)
  {
    if Straddles(p, a, b) {
      var (k, n) := (b.y - a.y, (p.y - a.y) * (b.x - a.x));
      assert (n / k) * k == n;
      Scaled(k, n / k, n, p.x - a.x);
    }
  }

  /** It does not matter from which end an edge is read. */
  lemma MeetsSymmetric(p: Point, a: Point, b: Point)
    ensures MeetsRay(p, a, b) == MeetsRay(p, b, a)
  {
    MeetsBySide(p, a, b);
    MeetsBySide(p, b, a);
    OrientationReversed(a, b, p);
  }

  // ---------------------------------------------------------------- rotations and reversals

  lemma {:induction false} OddToRotated(vs: seq<Point>, p: Point, k: nat)
    requires vs != [] && k < |vs|
    ensures OddTo(Rotated(vs), p, k) == (OddTo(vs, p, k + 1) != EdgeMeetsRay(vs, p, 0))
  {
    if k == 0 {
      assert OddTo(vs, p, 1) == EdgeMeetsRay(vs, p, 0);
    } else {
      OddToRotated(vs, p, k - 1);
      assert EdgeMeetsRay(Rotated(vs), p, k - 1) == EdgeMeetsRay(vs, p, k);
    }
  }

  lemma OddRotated(vs: seq<Point>, p: Point)
    requires vs != []
    ensures Odd(Rotated(vs), p) == Odd(vs, p)
  {
    OddToRotated(vs, p, |vs| - 1);
    assert EdgeMeetsRay(Rotated(vs), p, |vs| - 1) == EdgeMeetsRay(vs, p, 0);
  }

  lemma EdgeMeetsReversed(vs: seq<Point>, p: Point, i: nat)
    requires |vs| >= 3 && i < |vs|
    ensures EdgeMeetsRay(Reversed(vs), p, i) == EdgeMeetsRay(vs, p, Backwards(i, |vs|))
  {
    var k := Backwards(i, |vs|);
    BackwardsEdge(vs, i);
    MeetsSymmetric(p, vs[k], vs[Next(k, |vs|)]);
  }

  lemma {:induction false} OddToReversed(vs: seq<Point>, p: Point, k: nat)
    requires |vs| >= 3 && k < |vs|
    ensures OddTo(Reversed(vs), p, k) == (OddTo(vs, p, |vs| - 1 - k) != OddTo(vs, p, |vs| - 1))
  {
    if k > 0 {
      OddToReversed(vs, p, k - 1);
      EdgeMeetsReversed(vs, p, k - 1);
      assert OddTo(vs, p, |vs| - k) == (OddTo(vs, p, |vs| - 1 - k) != EdgeMeetsRay(vs, p, |vs| - 1 - k));
    }
  }

  lemma OddReversed(vs: seq<Point>, p: Point)
    requires |vs| >= 3
    ensures Odd(Reversed(vs), p) == Odd(vs, p)
  {
    OddToReversed(vs, p, |vs| - 1);
    EdgeMeetsReversed(vs, p, |vs| - 1);
  }

  lemma BoundaryRotated(eps: real, vs: seq<Point>, p: Point)
    requires vs != []
    ensures OnBoundary(eps, Rotated(vs), p) <==> OnBoundary(eps, vs, p)
  {
    var n := |vs|;
    if OnBoundary(eps, Rotated(vs), p) {
      var i :| 0 <= i < n && EdgeTouched(eps, Rotated(vs), p, i);
      assert EdgeTouched(eps, vs, p, Next(i, n));
    }
    if OnBoundary(eps, vs, p) {
      var i :| 0 <= i < n && EdgeTouched(eps, vs, p, i);
      var k := if i == 0 then n - 1 else i - 1;
      assert Next(k, n) == i;
      assert EdgeTouched(eps, Rotated(vs), p, k);
    }
  }

  lemma EdgeTouchedReversed(eps: real, vs: seq<Point>, p: Point, i: nat)
    requires |vs| >= 3 && i < |vs|
    ensures EdgeTouched(eps, Reversed(vs), p, i) == EdgeTouched(eps, vs, p, Backwards(i, |vs|))
  {
    var k := Backwards(i, |vs|);
    BackwardsEdge(vs, i);
    TouchesSymmetric(eps, p, vs[k], vs[Next(k, |vs|)]);
  }

  lemma BoundaryReversed(eps: real, vs: seq<Point>, p: Point)
    requires |vs| >= 3
    ensures OnBoundary(eps, Reversed(vs), p) <==> OnBoundary(eps, vs, p)
  {
    var n := |vs|;
    if OnBoundary(eps, Reversed(vs), p) {
      var i :| 0 <= i < n && EdgeTouched(eps, Reversed(vs), p, i);
      EdgeTouchedReversed(eps, vs, p, i);
      assert EdgeTouched(eps, vs, p, Backwards(i, n));
    }
    if OnBoundary(eps, vs, p) {
      var i :| 0 <= i < n && EdgeTouched(eps, vs, p, i);
      var k := Backwards(i, n);
      assert Backwards(k, n) == i;
      EdgeTouchedReversed(eps, vs, p, k);
      assert EdgeTouched(eps, Reversed(vs), p, k);
    }
  }

  lemma ClassifiedAnyway(eps: real, vs: seq<Point>, p: Point)
    requires |vs| >= 3
    ensures Classified(eps, Rotated(vs), p) == Classified(eps, vs, p)
    ensures Classified(eps, Reversed(vs), p) == Classified(eps, vs, p)
  {
    OddRotated(vs, p);
    OddReversed(vs, p);
    BoundaryRotated(eps, vs, p);
    BoundaryReversed(eps, vs, p);
  }

  /** The answer does not depend on the vertex the area starts from, nor on the way round it is listed. */
  lemma {:induction false} ClassifiedFromAnyVertex(eps: real, vs: seq<Point>, p: Point, k: nat)
    requires |vs| >= 3 && k <= |vs|
    ensures Classified(eps, Turned(vs, k), p) == Classified(eps, vs, p)
    ensures Classified(eps, Reversed(Turned(vs, k)), p) == Classified(eps, vs, p)
  {
    hide Turned, Rotated, Reversed, Classified;
    if k == 0 {
      TurnedNot(vs);
    } else {
      ClassifiedFromAnyVertex(eps, vs, p, k - 1);
      TurnedOnce(vs, k - 1);
      ClassifiedAnyway(eps, Turned(vs, k - 1), p);
    }
    ClassifiedAnyway(eps, Turned(vs, k), p);
  }

  // ---------------------------------------------------------------- the bounding box

  /** Whether the flags change an odd number of times over the first `n` steps around the ring. */
  predicate ChangesTo(above: seq<bool>, n: nat)
    requires n <= |above|
  {
    n > 0 && ChangesTo(above, n - 1) != (above[n - 1] != above[Next(n - 1, |above|)])
  }

  lemma {:induction false} ChangesSoFar(above: seq<bool>, n: nat)
    requires n < |above|
    ensures ChangesTo(above, n) == (above[0] != above[n])
  {
    if n > 0 {
      ChangesSoFar(above, n - 1);
    }
  }

  /** Around a ring, a flag changes an even number of times. */
  lemma RingChangesEvenly(above: seq<bool>)
    ensures !ChangesTo(above, |above|)
  {
    if above != [] {
      ChangesSoFar(above, |above| - 1);
    }
  }

  function AboveFlags(vs: seq<Point>, p: Point): (r: seq<bool>)
    ensures |r| == |vs| && forall i :: 0 <= i < |vs| ==> r[i] == (vs[i].y > p.y)
  {
    seq(|vs|, i requires 0 <= i < |vs| => vs[i].y > p.y)
  }

  /** An edge right of the point meets the ray exactly when it straddles it. */
  lemma RightOfPoint(p: Point, a: Point, b: Point)
    requires a.x > p.x && b.x > p.x && Straddles(p, a, b)
    ensures SeesOnSide(p, a, b)
  {
    var (u, v, s, t) := (a.x - p.x, b.x - p.x, p.y - a.y, b.y - p.y);
    assert Orientation(a, b, p) == v * s + u * t;
    if b.y > a.y {
      assert u * t > 0.0 && v * s >= 0.0;
    } else {
      assert v * (-s) > 0.0 && u * (-t) >= 0.0;
    }
  }

  lemma LeftOfPoint(p: Point, a: Point, b: Point)
    requires a.x <= p.x && b.x <= p.x && Straddles(p, a, b)
    ensures !SeesOnSide(p, a, b)
  {
    var (u, v, s, t) := (p.x - a.x, p.x - b.x, p.y - a.y, b.y - p.y);
    assert Orientation(a, b, p) == -(v * s + u * t);
    if b.y > a.y {
      assert u * t >= 0.0 && v * s >= 0.0;
    } else {
      assert v * (-s) >= 0.0 && u * (-t) >= 0.0;
    }
  }

  lemma {:induction false} AllRightOdd(vs: seq<Point>, p: Point, n: nat)
    requires n <= |vs| && forall i :: 0 <= i < |vs| ==> vs[i].x > p.x
    ensures OddTo(vs, p, n) == ChangesTo(AboveFlags(vs, p), n)
  {
    if n > 0 {
      AllRightOdd(vs, p, n - 1);
      var (a, b) := (vs[n - 1], vs[Next(n - 1, |vs|)]);
      MeetsBySide(p, a, b);
      if Straddles(p, a, b) {
        RightOfPoint(p, a, b);
      }
    }
  }

  lemma {:induction false} SomeEdgeMeets(vs: seq<Point>, p: Point, n: nat) returns (i: nat)
    requires n <= |vs| && OddTo(vs, p, n)
    ensures i < n && EdgeMeetsRay(vs, p, i)
  {
    if EdgeMeetsRay(vs, p, n - 1) {
      i := n - 1;
    } else {
      i := SomeEdgeMeets(vs, p, n - 1);
    }
  }

  /** The point is within the bounding box, and neither on its right nor on its upper side. */
  ghost predicate WithinBounds(vs: seq<Point>, p: Point) {
    && (exists i :: 0 <= i < |vs| && vs[i].x <= p.x)
    && (exists i :: 0 <= i < |vs| && vs[i].x > p.x)
    && (exists i :: 0 <= i < |vs| && vs[i].y <= p.y)
    && (exists i :: 0 <= i < |vs| && vs[i].y > p.y)
  }

  /** Whatever its shape, an area has no interior point outside its bounding box. */
  lemma InteriorWithinBounds(vs: seq<Point>, p: Point)
    requires Odd(vs, p)
    ensures WithinBounds(vs, p)
  {
    var i := SomeEdgeMeets(vs, p, |vs|);
    var j := Next(i, |vs|);
    MeetsBySide(p, vs[i], vs[j]);
    if vs[i].x <= p.x && vs[j].x <= p.x {
      LeftOfPoint(p, vs[i], vs[j]);
    }
    assert vs[i].x > p.x || vs[j].x > p.x;
    assert (vs[i].y > p.y && vs[j].y <= p.y) || (vs[j].y > p.y && vs[i].y <= p.y);
    if forall k :: 0 <= k < |vs| ==> vs[k].x > p.x {
      AllRightOdd(vs, p, |vs|);
      RingChangesEvenly(AboveFlags(vs, p));
    }
  }

  // ---------------------------------------------------------------- triangles

  /** Whether an odd number of the triangles on the first vertex, with last vertex below `n`, have the point inside. */
  predicate FanOddTo(vs: seq<Point>, p: Point, n: nat)
    requires n <= |vs|
  {
    n >= 3 && FanOddTo(vs, p, n - 1) != Odd([vs[0], vs[n - 2], vs[n - 1]], p)
  }

  lemma OddOfTriangle(a: Point, b: Point, c: Point, p: Point)
    ensures Odd([a, b, c], p) == ((MeetsRay(p, a, b) != MeetsRay(p, b, c)) != MeetsRay(p, c, a))
  {
    var vs := [a, b, c];
    assert OddTo(vs, p, 3) == (OddTo(vs, p, 2) != EdgeMeetsRay(vs, p, 2));
    assert OddTo(vs, p, 2) == (OddTo(vs, p, 1) != EdgeMeetsRay(vs, p, 1));
    assert OddTo(vs, p, 1) == EdgeMeetsRay(vs, p, 0);
  }

  lemma {:induction false} FanTelescopes(vs: seq<Point>, p: Point, n: nat)
    requires 2 <= n <= |vs|
    ensures FanOddTo(vs, p, n) == (OddTo(vs, p, n - 1) != MeetsRay(p, vs[n - 1], vs[0]))
  {
    if n == 2 {
      assert OddTo(vs, p, 1) == EdgeMeetsRay(vs, p, 0);
      MeetsSymmetric(p, vs[0], vs[1]);
    } else {
      FanTelescopes(vs, p, n - 1);
      OddOfTriangle(vs[0], vs[n - 2], vs[n - 1], p);
      MeetsSymmetric(p, vs[0], vs[n - 2]);
    }
  }

  /** The crossings of a polygon are odd exactly when those of an odd number of its fan's triangles are. */
  lemma OddByFan(vs: seq<Point>, p: Point)
    requires |vs| >= 3
    ensures Odd(vs, p) == FanOddTo(vs, p, |vs|)
  {
    FanTelescopes(vs, p, |vs|);
  }

  /** The point is strictly on the same side of all three sides. */
  predicate StrictlyInside(a: Point, b: Point, c: Point, p: Point) {
    var (o1, o2, o3) := (Orientation(a, b, p), Orientation(b, c, p), Orientation(c, a, p));
    (o1 > 0.0 && o2 > 0.0 && o3 > 0.0) || (o1 < 0.0 && o2 < 0.0 && o3 < 0.0)
  }

  /** The three double areas seen from the point balance against the heights of the opposite vertices. */
  lemma Heights(a: Point, b: Point, c: Point, p: Point)
    ensures Orientation(a, b, p) * (c.y - p.y) + Orientation(b, c, p) * (a.y - p.y)
      + Orientation(c, a, p) * (b.y - p.y) == 0.0
  {
  }

  /** Three weighted numbers that balance, with weights of one sign and not all zero, do not share a strict sign. */
  lemma NoSharedSign(x: real, y: real, z: real, u: real, v: real, w: real)
    requires x * u + y * v + z * w == 0.0
    requires (u >= 0.0 && v >= 0.0 && w >= 0.0) || (u <= 0.0 && v <= 0.0 && w <= 0.0)
    requires u != 0.0 || v != 0.0 || w != 0.0
    ensures !(x > 0.0 && y > 0.0 && z > 0.0) && !(x < 0.0 && y < 0.0 && z < 0.0)
  {
    SignOfProduct(x, u);
    SignOfProduct(y, v);
    SignOfProduct(z, w);
  }

  lemma OnOneSide(a: Point, b: Point, c: Point, p: Point)
    requires (a.y > p.y) == (b.y > p.y) == (c.y > p.y)
    ensures !StrictlyInside(a, b, c, p)
  {
    Heights(a, b, c, p);
    if a.y != p.y || b.y != p.y || c.y != p.y {
      NoSharedSign(Orientation(a, b, p), Orientation(b, c, p), Orientation(c, a, p), c.y - p.y, a.y - p.y, b.y - p.y);
    }
  }

  /** A straddling edge whose line holds the point holds it between its ends. */
  lemma StraddlingTouch(p: Point, a: Point, b: Point)
    requires Straddles(p, a, b) && !Touches(0.0, p, a, b)
    ensures Orientation(a, b, p) != 0.0
  {
    if Orientation(a, b, p) == 0.0 {
      var t := Parameter(a, b, p);
      FractionOf(t, b.y - a.y, p.y - a.y);
      assert On(p, a, b);
      OnTouches(p, a, b);
      assert false;
    }
  }

  predicate SameSign(x: real, y: real) {
    (x > 0.0 && y > 0.0) || (x < 0.0 && y < 0.0)
  }

  /** With `b` and `c` at the point's height, the point lies between them if `a` sees them on both sides. */
  lemma BetweenAtHeight(a: Point, b: Point, c: Point, p: Point)
    requires a.y > p.y && b.y == p.y == c.y && SameSign(Orientation(a, b, p), Orientation(c, a, p))
    ensures Touches(0.0, p, b, c)
  {
    var h := a.y - p.y;
    assert Orientation(a, b, p) == h * (p.x - b.x);
    assert Orientation(c, a, p) == h * (c.x - p.x);
    SignOfProduct(p.x - b.x, h);
    SignOfProduct(c.x - p.x, h);
  }

  lemma LoneAbove(a: Point, b: Point, c: Point, p: Point)
    requires a.y > p.y && b.y <= p.y && c.y <= p.y
    requires !Touches(0.0, p, b, c) && SameSign(Orientation(a, b, p), Orientation(c, a, p))
    ensures SameSign(Orientation(a, b, p), Orientation(b, c, p))
  {
    var (o1, o2, o3) := (Orientation(a, b, p), Orientation(b, c, p), Orientation(c, a, p));
    Heights(a, b, c, p);
    if b.y == p.y && c.y == p.y {
      BetweenAtHeight(a, b, c, p);
      assert false;
    } else {
      ThirdSign(o1, o3, o2, p.y - c.y, p.y - b.y, a.y - p.y);
    }
  }

  lemma LoneBelow(a: Point, b: Point, c: Point, p: Point)
    requires a.y <= p.y && b.y > p.y && c.y > p.y && SameSign(Orientation(a, b, p), Orientation(c, a, p))
    ensures SameSign(Orientation(a, b, p), Orientation(b, c, p))
  {
    var (o1, o2, o3) := (Orientation(a, b, p), Orientation(b, c, p), Orientation(c, a, p));
    Heights(a, b, c, p);
    ThirdSign(o1, o3, o2, c.y - p.y, b.y - p.y, p.y - a.y);
  }

  /** A number that balances two of one sign has that sign. */
  lemma ThirdSign(x: real, y: real, z: real, u: real, v: real, w: real)
    requires x * u + y * v == z * w && SameSign(x, y)
    requires u >= 0.0 && v >= 0.0 && w >= 0.0 && (u > 0.0 || v > 0.0)
    ensures SameSign(x, z)
  {
    SignOfProduct(x, u);
    SignOfProduct(y, v);
    SignOfProduct(z, w);
  }

  predicate OffTriangle(a: Point, b: Point, c: Point, p: Point) {
    !Touches(0.0, p, a, b) && !Touches(0.0, p, b, c) && !Touches(0.0, p, c, a)
  }

  lemma TriangleWithLoneVertex(a: Point, b: Point, c: Point, p: Point)
    requires OffTriangle(a, b, c, p) && (a.y > p.y) != (b.y > p.y) && (b.y > p.y) == (c.y > p.y)
    ensures (MeetsRay(p, a, b) != MeetsRay(p, c, a)) == StrictlyInside(a, b, c, p)
  {
    var (o1, o2, o3) := (Orientation(a, b, p), Orientation(b, c, p), Orientation(c, a, p));
    MeetsBySide(p, a, b);
    MeetsBySide(p, c, a);
    StraddlingTouch(p, a, b);
    StraddlingTouch(p, c, a);
    assert (MeetsRay(p, a, b) != MeetsRay(p, c, a)) == SameSign(o1, o3);
    if SameSign(o1, o3) {
      if a.y > p.y {
        LoneAbove(a, b, c, p);
      } else {
        LoneBelow(a, b, c, p);
      }
    }
  }

  /** Off its boundary, a triangle's crossings are odd exactly when the point is strictly inside it. */
  lemma OddInTriangle(a: Point, b: Point, c: Point, p: Point)
    requires OffTriangle(a, b, c, p)
    ensures Odd([a, b, c], p) <==> StrictlyInside(a, b, c, p)
  {
    OddOfTriangle(a, b, c, p);
    if (a.y > p.y) == (b.y > p.y) == (c.y > p.y) {
      OnOneSide(a, b, c, p);
    } else if (b.y > p.y) == (c.y > p.y) {
      TriangleWithLoneVertex(a, b, c, p);
    } else if (a.y > p.y) == (c.y > p.y) {
      TriangleWithLoneVertex(b, c, a, p);
    } else {
      TriangleWithLoneVertex(c, a, b, p);
    }
  }

  /** Whether an odd number of the fan's triangles with last vertex below `n` have the point strictly inside. */
  predicate CoveredOddlyTo(vs: seq<Point>, p: Point, n: nat)
    requires n <= |vs|
  {
    n >= 3 && CoveredOddlyTo(vs, p, n - 1) != StrictlyInside(vs[0], vs[n - 2], vs[n - 1], p)
  }

  predicate OffFan(vs: seq<Point>, p: Point) {
    forall i :: 1 <= i < |vs| - 1 ==> OffTriangle(vs[0], vs[i], vs[i + 1], p)
  }

  lemma {:induction false} FanCovers(vs: seq<Point>, p: Point, n: nat)
    requires n <= |vs| && OffFan(vs, p)
    ensures FanOddTo(vs, p, n) == CoveredOddlyTo(vs, p, n)
  {
    if n >= 3 {
      FanCovers(vs, p, n - 1);
      assert OffTriangle(vs[0], vs[n - 2], vs[n - 2 + 1], p);
      OddInTriangle(vs[0], vs[n - 2], vs[n - 1], p);
    }
  }

  /**
   Ray casting against orientations alone: off the sides and diagonals of the fan, a point is interior
   exactly when an odd number of the triangles on the first vertex have it strictly inside.
   */
  lemma InteriorByTriangles(vs: seq<Point>, p: Point)
    requires |vs| >= 3 && OffFan(vs, p)
    ensures Odd(vs, p) <==> CoveredOddlyTo(vs, p, |vs|)
  {
    OddByFan(vs, p);
    FanCovers(vs, p, |vs|);
  }
}
