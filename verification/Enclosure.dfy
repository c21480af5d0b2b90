/**
 Why ray casting answers the question: its parity changes only across the outline, so there is no way out of
 an area without touching it.
 */
module Enclosure {
  import opened Segments
  import opened RiskAreaGeometries
  import opened RiskAreaEngines

  // ---------------------------------------------------------------- what a moving ray sweeps over

  /** The vertex lies at a height the ray passes on its way up from `p` to `q`, right of that way. */
  predicate SweptUp(p: Point, q: Point, v: Point) {
    p.y < v.y <= q.y && Orientation(p, q, v) < 0.0
  }

  /** The ray passes over the vertex when its start moves straight from one point to the other. */
  predicate Swept(p: Point, q: Point, v: Point) {
    if p.y <= q.y then SweptUp(p, q, v) else SweptUp(q, p, v)
  }

  /** Where the edge meets the horizontal line through the point. */
  function MeetingPoint(p: Point, a: Point, b: Point): Point
    requires Straddles(p, a, b)
  {
    Point(AbscissaAt(p, a, b), p.y)
  }

  lemma AbscissaOf(p: Point, a: Point, b: Point)
    requires Straddles(p, a, b)
    ensures AbscissaAt(p, a, b) == At(a.x, b.x, (p.y - a.y) / (b.y - a.y))
  {
    var (h, k, u) := (p.y - a.y, b.y - a.y, b.x - a.x);
    assert (h / k) * k == h && (h * u / k) * k == h * u;
    assert ((h / k) * u) * k == h * u;
    Cancel(k, h * u / k, (h / k) * u);
  }

  lemma MeetingPointOn(p: Point, a: Point, b: Point)
    requires Straddles(p, a, b)
    ensures On(MeetingPoint(p, a, b), a, b)
  {
    var t := (p.y - a.y) / (b.y - a.y);
    AbscissaOf(p, a, b);
    assert t * (b.y - a.y) == p.y - a.y;
    FractionOf(t, b.y - a.y, p.y - a.y);
    assert Along(a, b, t) == MeetingPoint(p, a, b);
  }

  lemma OnReversed(x: Point, a: Point, b: Point)
    ensures On(x, a, b) <==> On(x, b, a)
  {
    TouchesOn(x, a, b);
    TouchesOn(x, b, a);
    TouchesSymmetric(0.0, x, a, b);
  }

  lemma ShareSymmetric(p: Point, q: Point, a: Point, b: Point)
    ensures ShareAPoint(p, q, a, b) == ShareAPoint(q, p, a, b)
    ensures ShareAPoint(p, q, a, b) == ShareAPoint(p, q, b, a)
  {
    hide On;
    forall x ensures On(x, p, q) == On(x, q, p) && On(x, a, b) == On(x, b, a) {
      OnReversed(x, p, q);
      OnReversed(x, a, b);
    }
  }

  // ---------------------------------------------------------------- one edge

  lemma OnByHeight(x: Point, p: Point, q: Point)
    requires Orientation(p, q, x) == 0.0 && p.y < q.y && p.y <= x.y <= q.y
    ensures On(x, p, q)
  {
    var t := Parameter(p, q, x);
    FractionOf(t, q.y - p.y, x.y - p.y);
  }

  /** A point between two points of a segment is a point of the segment. */
  lemma OnBetween(a: Point, b: Point, low: Point, high: Point, r: real)
    requires On(low, a, b) && On(high, a, b) && 0.0 <= r <= 1.0
    ensures On(Along(low, high, r), a, b)
  {
    hide At;
    var s: real :| 0.0 <= s <= 1.0 && Along(a, b, s) == low;
    var t: real :| 0.0 <= t <= 1.0 && Along(a, b, t) == high;
    AlongAlong(a, b, s, t, r);
    Between(s, t, r);
  }

  /** Where a part of the edge has both sides of the way, it meets the way. */
  lemma ChangesSide(p: Point, q: Point, a: Point, b: Point, low: Point, high: Point)
    requires p.y < q.y && On(low, a, b) && On(high, a, b)
    requires p.y <= low.y <= q.y && p.y <= high.y <= q.y
    requires (Orientation(p, q, low) < 0.0) != (Orientation(p, q, high) < 0.0)
    ensures ShareAPoint(p, q, a, b)
  {
    hide Orientation, At;
    var (l, h) := (Orientation(p, q, low), Orientation(p, q, high));
    Ratio(l, h);
    var r := l / (l - h);
    var x := Along(low, high, r);
    OrientationAlong(p, q, low, high, r);
    WeightedZero(l, h, r);
    Between(low.y, high.y, r);
    OnByHeight(x, p, q);
    OnBetween(a, b, low, high, r);
  }

  lemma WeightedZero(l: real, h: real, r: real)
    requires r * (l - h) == l
    ensures (1.0 - r) * l + r * h == 0.0
  {
  }

  /** The start of the ray is left of the edge exactly when the edge, at that height, is right of the way. */
  lemma MeetsAtStart(p: Point, q: Point, a: Point, b: Point)
    requires p.y < q.y && Straddles(p, a, b)
    ensures MeetsRay(p, a, b) <==> Orientation(p, q, MeetingPoint(p, a, b)) < 0.0
  {
    hide AbscissaAt;
    var (k, d) := (q.y - p.y, AbscissaAt(p, a, b) - p.x);
    assert Orientation(p, q, MeetingPoint(p, a, b)) == -(d * k);
    SignOfProduct(d, k);
    SignOfProduct(-d, k);
  }

  lemma MeetsAtEnd(p: Point, q: Point, a: Point, b: Point)
    requires p.y < q.y && Straddles(q, a, b)
    ensures MeetsRay(q, a, b) <==> Orientation(p, q, MeetingPoint(q, a, b)) < 0.0
  {
    hide AbscissaAt;
    var (k, d) := (q.y - p.y, AbscissaAt(q, a, b) - q.x);
    assert Orientation(p, q, MeetingPoint(q, a, b)) == -(d * k);
    SignOfProduct(d, k);
    SignOfProduct(-d, k);
  }

  /** The lowest point of a rising edge that the ray passes over on its way up. */
  function Lowest(p: Point, a: Point, b: Point): Point
    requires a.y <= b.y && p.y < b.y
  {
    if a.y <= p.y then MeetingPoint(p, a, b) else a
  }

  function Highest(q: Point, a: Point, b: Point): Point
    requires a.y <= b.y && a.y <= q.y
  {
    if b.y > q.y then MeetingPoint(q, a, b) else b
  }

  lemma LowestOn(p: Point, q: Point, a: Point, b: Point)
    requires p.y < q.y && a.y <= b.y && p.y < b.y && a.y <= q.y
    ensures var low := Lowest(p, a, b); On(low, a, b) && p.y <= low.y <= q.y
  {
    EndsOn(a, b);
    if a.y <= p.y {
      MeetingPointOn(p, a, b);
    }
  }

  lemma HighestOn(p: Point, q: Point, a: Point, b: Point)
    requires p.y < q.y && a.y <= b.y && p.y < b.y && a.y <= q.y
    ensures var high := Highest(q, a, b); On(high, a, b) && p.y <= high.y <= q.y
  {
    EndsOn(a, b);
    if b.y > q.y {
      MeetingPointOn(q, a, b);
    }
  }

  /** What happens to a rising edge while the ray moves up past it. */
  lemma RisingEdge(p: Point, q: Point, a: Point, b: Point)
    requires p.y < q.y && a.y <= b.y && !ShareAPoint(p, q, a, b)
    ensures (MeetsRay(p, a, b) != MeetsRay(q, a, b)) == (SweptUp(p, q, a) != SweptUp(p, q, b))
  {
    hide Orientation, ShareAPoint, AbscissaAt, On;
    if p.y < b.y && a.y <= q.y {
      var (low, high) := (Lowest(p, a, b), Highest(q, a, b));
      LowestOn(p, q, a, b);
      HighestOn(p, q, a, b);
      if a.y <= p.y {
        MeetsAtStart(p, q, a, b);
      }
      if b.y > q.y {
        MeetsAtEnd(p, q, a, b);
      }
      if (Orientation(p, q, low) < 0.0) != (Orientation(p, q, high) < 0.0) {
        ChangesSide(p, q, a, b, low, high);
      }
    }
  }

  lemma EdgePassed(p: Point, q: Point, a: Point, b: Point)
    requires p.y < q.y && !ShareAPoint(p, q, a, b)
    ensures (MeetsRay(p, a, b) != MeetsRay(q, a, b)) == (SweptUp(p, q, a) != SweptUp(p, q, b))
  {
    hide MeetsRay, SweptUp, ShareAPoint;
    if a.y <= b.y {
      RisingEdge(p, q, a, b);
    } else {
      ShareSymmetric(p, q, a, b);
      MeetsSymmetric(p, a, b);
      MeetsSymmetric(q, a, b);
      RisingEdge(p, q, b, a);
    }
  }

  /** Moving the ray along itself changes nothing about an edge that is not on the way. */
  lemma EdgeAlongside(p: Point, q: Point, a: Point, b: Point)
    requires p.y == q.y && !ShareAPoint(p, q, a, b)
    ensures MeetsRay(p, a, b) == MeetsRay(q, a, b)
  {
    hide On, ShareAPoint, AbscissaAt;
    if Straddles(p, a, b) {
      var x := MeetingPoint(p, a, b);
      SameAbscissa(p, q, a, b);
      MeetingPointOn(p, a, b);
      if Min(p.x, q.x) <= x.x <= Max(p.x, q.x) {
        OnLevel(x, p, q);
        SharedPoint(x, p, q, a, b);
      }
    }
  }

  lemma SharedPoint(x: Point, p: Point, q: Point, a: Point, b: Point)
    requires On(x, p, q) && On(x, a, b)
    ensures ShareAPoint(p, q, a, b)
  {
  }

  lemma SameAbscissa(p: Point, q: Point, a: Point, b: Point)
    requires p.y == q.y && Straddles(p, a, b)
    ensures AbscissaAt(p, a, b) == AbscissaAt(q, a, b)
  {
  }

  lemma OnLevel(x: Point, p: Point, q: Point)
    requires p.y == q.y == x.y && Min(p.x, q.x) <= x.x <= Max(p.x, q.x)
    ensures On(x, p, q)
  {
    TouchesOn(x, p, q);
  }

  /** An edge that is not touched on the way starts or stops meeting the ray exactly when the ray passes one end. */
  lemma EdgeSwept(p: Point, q: Point, a: Point, b: Point)
    requires !ShareAPoint(p, q, a, b)
    ensures (MeetsRay(p, a, b) != MeetsRay(q, a, b)) == (Swept(p, q, a) != Swept(p, q, b))
  {
    hide MeetsRay, ShareAPoint, Orientation;
    if p.y < q.y {
      EdgePassed(p, q, a, b);
    } else if q.y < p.y {
      ShareSymmetric(p, q, a, b);
      EdgePassed(q, p, a, b);
    } else {
      EdgeAlongside(p, q, a, b);
    }
  }

  // ---------------------------------------------------------------- the whole outline

  /** The straight way from one point to the other touches no edge. */
  ghost predicate Clear(vs: seq<Point>, p: Point, q: Point) {
    forall i :: 0 <= i < |vs| ==> !ShareAPoint(p, q, vs[i], vs[Next(i, |vs|)])
  }

  function SweptFlags(vs: seq<Point>, p: Point, q: Point): (r: seq<bool>)
    ensures |r| == |vs| && forall i :: 0 <= i < |vs| ==> r[i] == Swept(p, q, vs[i])
  {
    seq(|vs|, i requires 0 <= i < |vs| => Swept(p, q, vs[i]))
  }

  lemma {:induction false} SweptSoFar(vs: seq<Point>, p: Point, q: Point, n: nat)
    requires Clear(vs, p, q) && n <= |vs|
    ensures (OddTo(vs, p, n) != OddTo(vs, q, n)) == ChangesTo(SweptFlags(vs, p, q), n)
  {
    if n > 0 {
      hide MeetsRay, ShareAPoint, Swept;
      SweptSoFar(vs, p, q, n - 1);
      EdgeSwept(p, q, vs[n - 1], vs[Next(n - 1, |vs|)]);
    }
  }

  /** For every vertex list: the parity is the same at two points if the way between them touches no edge. */
  lemma ParityConstant(vs: seq<Point>, p: Point, q: Point)
    requires Clear(vs, p, q)
    ensures Odd(vs, p) == Odd(vs, q)
  {
    SweptSoFar(vs, p, q, |vs|);
    RingChangesEvenly(SweptFlags(vs, p, q));
  }

  /** A way with any number of corners that nowhere touches the outline. */
  ghost predicate ClearPath(vs: seq<Point>, path: seq<Point>) {
    forall j :: 0 < j < |path| ==> Clear(vs, path[j - 1], path[j])
  }

  lemma {:induction false} ParityAlong(vs: seq<Point>, path: seq<Point>, n: nat)
    requires ClearPath(vs, path) && n < |path|
    ensures Odd(vs, path[n]) == Odd(vs, path[0])
  {
    if n > 0 {
      hide Odd, Clear;
      ParityAlong(vs, path, n - 1);
      ParityConstant(vs, path[n - 1], path[n]);
    }
  }

  /** The way to any point of a clear way is clear. */
  lemma ClearUpTo(vs: seq<Point>, p: Point, q: Point, x: Point)
    requires Clear(vs, p, q) && On(x, p, q)
    ensures Clear(vs, p, x)
  {
    forall i | 0 <= i < |vs| ensures !ShareAPoint(p, x, vs[i], vs[Next(i, |vs|)]) {
      SharedOnPart(p, q, x, vs[i], vs[Next(i, |vs|)]);
    }
  }

  lemma SharedOnPart(p: Point, q: Point, x: Point, a: Point, b: Point)
    requires On(x, p, q)
    ensures ShareAPoint(p, x, a, b) ==> ShareAPoint(p, q, a, b)
  {
    hide At;
    if ShareAPoint(p, x, a, b) {
      var y :| On(y, p, x) && On(y, a, b);
      var r: real :| 0.0 <= r <= 1.0 && Along(p, x, r) == y;
      EndsOn(p, q);
      OnBetween(p, q, p, x, r);
    }
  }

  /** There is no way out: a way from an interior point that touches no edge stays within the bounding box. */
  lemma NoWayOut(eps: real, vs: seq<Point>, path: seq<Point>, n: nat, x: Point)
    requires path != [] && Classified(eps, vs, path[0]) == Interior && ClearPath(vs, path)
    requires n + 1 < |path| && On(x, path[n], path[n + 1])
    ensures Odd(vs, x) && WithinBounds(vs, x)
  {
    hide Odd, Clear, WithinBounds, On;
    ParityAlong(vs, path, n);
    ClearUpTo(vs, path[n], path[n + 1], x);
    ParityConstant(vs, path[n], x);
    InteriorWithinBounds(vs, x);
  }
}
