/** Points and segments of the plane, with the intersection test used for risk areas. */
module Segments {
  datatype Point = Point(x: real, y: real)
  {
    predicate Normalized() {
      0.0 <= x <= 1.0 && 0.0 <= y <= 1.0
    }
  }

  function Abs(r: real): real {
    if r < 0.0 then -r else r
  }

  function Min(a: real, b: real): real {
    if a <= b then a else b
  }

  function Max(a: real, b: real): real {
    if a <= b then b else a
  }

  /** Twice the signed area of the triangle: positive when `p` is left of the line from `a` to `b`. */
  function Orientation(a: Point, b: Point, p: Point): real {
    (b.x - a.x) * (p.y - a.y) - (b.y - a.y) * (p.x - a.x)
  }

  predicate WithinBox(eps: real, p: Point, a: Point, b: Point) {
    && Min(a.x, b.x) - eps <= p.x <= Max(a.x, b.x) + eps
    && Min(a.y, b.y) - eps <= p.y <= Max(a.y, b.y) + eps
  }

  /** The point is on the segment, up to the tolerance. */
  predicate Touches(eps: real, p: Point, a: Point, b: Point) {
    Abs(Orientation(a, b, p)) <= eps && WithinBox(eps, p, a, b)
  }

  /** The line through `a` and `b` separates the two points, by more than the tolerance. */
  predicate Separates(eps: real, a: Point, b: Point, c: Point, d: Point) {
    Orientation(a, b, c) * Orientation(a, b, d) < -eps
  }

  predicate Crosses(eps: real, a: Point, b: Point, c: Point, d: Point) {
    Separates(eps, a, b, c, d) && Separates(eps, c, d, a, b)
  }

  predicate SegmentsIntersect(eps: real, a: Point, b: Point, c: Point, d: Point) {
    || Crosses(eps, a, b, c, d)
    || Touches(eps, c, a, b) || Touches(eps, d, a, b) || Touches(eps, a, c, d) || Touches(eps, b, c, d)
  }

  // ---------------------------------------------------------------- what the test decides

  function At(p: real, q: real, t: real): real {
    p + t * (q - p)
  }

  /** The point of the line at a parameter: zero at `a`, one at `b`. */
  function Along(a: Point, b: Point, t: real): Point {
    Point(At(a.x, b.x, t), At(a.y, b.y, t))
  }

  /** `q` lies on the closed segment. */
  ghost predicate On(q: Point, a: Point, b: Point) {
    exists t: real :: 0.0 <= t <= 1.0 && Along(a, b, t) == q
  }

  /** `q` lies on the segment and is neither of its ends. */
  ghost predicate Inside(q: Point, a: Point, b: Point) {
    exists t: real :: 0.0 < t < 1.0 && Along(a, b, t) == q
  }

  ghost predicate ShareAPoint(a: Point, b: Point, c: Point, d: Point) {
    exists q :: On(q, a, b) && On(q, c, d)
  }

  lemma OrientationReversed(a: Point, b: Point, p: Point)
    ensures Orientation(b, a, p) == -Orientation(a, b, p)
  {
  }

  lemma OrientationTurned(a: Point, b: Point, p: Point)
    ensures Orientation(b, p, a) == Orientation(a, b, p)
  {
  }

  lemma NegatedProduct(x: real, y: real)
    ensures (-x) * (-y) == x * y
  {
  }

  lemma SeparatesSymmetric(eps: real, a: Point, b: Point, c: Point, d: Point)
    ensures Separates(eps, b, a, c, d) == Separates(eps, a, b, c, d)
    ensures Separates(eps, a, b, d, c) == Separates(eps, a, b, c, d)
  {
    OrientationReversed(a, b, c);
    OrientationReversed(a, b, d);
    NegatedProduct(Orientation(a, b, c), Orientation(a, b, d));
  }

  lemma TouchesSymmetric(eps: real, p: Point, a: Point, b: Point)
    ensures Touches(eps, p, a, b) == Touches(eps, p, b, a)
  {
    OrientationReversed(a, b, p);
  }

  /** Neither exchanging the segments nor reversing one of them changes the test. */
  lemma IntersectionSymmetric(eps: real, a: Point, b: Point, c: Point, d: Point)
    ensures SegmentsIntersect(eps, a, b, c, d) == SegmentsIntersect(eps, c, d, a, b)
    ensures SegmentsIntersect(eps, a, b, c, d) == SegmentsIntersect(eps, b, a, c, d)
  {
    SeparatesSymmetric(eps, a, b, c, d);
    SeparatesSymmetric(eps, c, d, a, b);
    TouchesSymmetric(eps, c, a, b);
    TouchesSymmetric(eps, d, a, b);
  }

  lemma Fraction(t: real, k: real)
    requires 0.0 <= t <= 1.0 && 0.0 <= k
    ensures 0.0 <= t * k <= k
  {
    assert (1.0 - t) * k >= 0.0;
  }

  lemma Between(p: real, q: real, t: real)
    requires 0.0 <= t <= 1.0
    ensures Min(p, q) <= At(p, q, t) <= Max(p, q)
  {
    if p <= q {
      Fraction(t, q - p);
    } else {
      Fraction(t, p - q);
    }
  }

  lemma OnTheLine(a: Point, b: Point, t: real)
    ensures Orientation(a, b, Along(a, b, t)) == 0.0
  {
    var (u, v) := (b.x - a.x, b.y - a.y);
    assert At(a.x, b.x, t) - a.x == t * u && At(a.y, b.y, t) - a.y == t * v;
    assert u * (t * v) == v * (t * u);
  }

  lemma OnTouches(q: Point, a: Point, b: Point)
    requires On(q, a, b)
    ensures Touches(0.0, q, a, b)
  {
    hide At, Orientation;
    var t: real :| 0.0 <= t <= 1.0 && Along(a, b, t) == q;
    OnTheLine(a, b, t);
    Between(a.x, b.x, t);
    Between(a.y, b.y, t);
  }

  lemma Ratio(p: real, q: real)
    requires Min(p, q) <= 0.0 <= Max(p, q) && p != q
    ensures 0.0 <= p / (p - q) <= 1.0 && (p / (p - q)) * (p - q) == p
    ensures p != 0.0 && q != 0.0 ==> 0.0 < p / (p - q) < 1.0
  {
    var r := p / (p - q);
    assert r * (p - q) == p;
    if p > q {
      assert p >= 0.0 && q <= 0.0;
      assert r >= 0.0;
      assert (1.0 - r) * (p - q) == -q;
    } else {
      assert (-r) * (q - p) == p;
      assert (1.0 - r) * (q - p) == q;
    }
  }

  lemma Proportional(k: real, h: real, u: real, v: real)
    requires k != 0.0 && k * v == u * h
    ensures (h / k) * k == h && (h / k) * u == v
  {
    var t := h / k;
    assert t * k == h;
    assert u * h == k * (t * u);
    Cancel(k, v, t * u);
  }

  /** A point of a line has a parameter on it. */
  lemma Parameter(a: Point, b: Point, p: Point) returns (t: real)
    requires a != b && Orientation(a, b, p) == 0.0
    ensures Along(a, b, t) == p
  {
    if a.x != b.x {
      t := (p.x - a.x) / (b.x - a.x);
      Proportional(b.x - a.x, p.x - a.x, b.y - a.y, p.y - a.y);
    } else {
      t := (p.y - a.y) / (b.y - a.y);
      Proportional(b.y - a.y, p.y - a.y, b.x - a.x, p.x - a.x);
    }
  }

  lemma SignOfProduct(x: real, u: real)
    ensures x > 0.0 && u > 0.0 ==> x * u > 0.0
    ensures x > 0.0 && u < 0.0 ==> x * u < 0.0
    ensures x < 0.0 && u > 0.0 ==> x * u < 0.0
    ensures x < 0.0 && u < 0.0 ==> x * u > 0.0
    ensures u == 0.0 ==> x * u == 0.0
  {
  }

  /** A part of a length, in its direction and no longer, is a fraction of it. */
  lemma FractionOf(t: real, k: real, h: real)
    requires t * k == h && ((0.0 < k && 0.0 <= h <= k) || (k < 0.0 && k <= h <= 0.0))
    ensures 0.0 <= t <= 1.0
  {
    if t < 0.0 {
      SignOfProduct(t, k);
    } else if t > 1.0 {
      SignOfProduct(t - 1.0, k);
    }
  }

  /** A point of the line within the box of the segment lies on the segment. */
  lemma AtAbscissa(q: Point, a: Point, b: Point)
    requires Touches(0.0, q, a, b) && a.x != b.x
    ensures On(q, a, b)
  {
    var t := Parameter(a, b, q);
    FractionOf(t, b.x - a.x, q.x - a.x);
  }

  lemma AtOrdinate(q: Point, a: Point, b: Point)
    requires Touches(0.0, q, a, b) && a.x == b.x && a.y != b.y
    ensures On(q, a, b)
  {
    var t := Parameter(a, b, q);
    FractionOf(t, b.y - a.y, q.y - a.y);
  }

  lemma Cancel(k: real, x: real, y: real)
    requires k != 0.0 && k * x == k * y
    ensures x == y
  {
    assert k * (x - y) == 0.0;
  }

  /** In exact arithmetic a point touches a segment exactly when it lies on it. */
  lemma TouchesOn(q: Point, a: Point, b: Point)
    ensures Touches(0.0, q, a, b) <==> On(q, a, b)
  {
    if Touches(0.0, q, a, b) {
      if a.x != b.x {
        AtAbscissa(q, a, b);
      } else if a.y != b.y {
        AtOrdinate(q, a, b);
      } else {
        assert Along(a, b, 0.0) == q;
      }
    }
    if On(q, a, b) {
      OnTouches(q, a, b);
    }
  }

  // ---------------------------------------------------------------- crossing

  /** The point where the two lines meet. */
  function CrossingPoint(a: Point, b: Point, c: Point, d: Point): Point
    requires Orientation(c, d, a) != Orientation(c, d, b)
  {
    Along(a, b, Orientation(c, d, a) / (Orientation(c, d, a) - Orientation(c, d, b)))
  }

  lemma OppositeSigns(x: real, y: real)
    requires x * y < 0.0
    ensures (x < 0.0 && 0.0 < y) || (y < 0.0 && 0.0 < x)
  {
  }

  /** The three double areas around two lines balance. */
  lemma Balance(a: Point, b: Point, c: Point, d: Point)
    ensures var (o1, o3, o4) := (Orientation(a, b, c), Orientation(c, d, a), Orientation(c, d, b));
      && (o3 - o4) * (a.x - c.x) + o3 * (b.x - a.x) + o1 * (d.x - c.x) == 0.0
      && (o3 - o4) * (a.y - c.y) + o3 * (b.y - a.y) + o1 * (d.y - c.y) == 0.0
    ensures Orientation(a, b, c) - Orientation(a, b, d) == Orientation(c, d, b) - Orientation(c, d, a)
  {
  }

  lemma MeetCoordinate(k: real, o1: real, o3: real, s: real, t: real, a: real, b: real, c: real, d: real)
    requires k != 0.0 && s * k == o3 && t * (-k) == o1
    requires k * (a - c) + o3 * (b - a) + o1 * (d - c) == 0.0
    ensures At(a, b, s) == At(c, d, t)
  {
    assert o3 * (b - a) == k * (s * (b - a));
    assert o1 * (d - c) == -(k * (t * (d - c)));
    Cancel(k, a + s * (b - a), c + t * (d - c));
  }

  /** The two lines meet at the same point, whichever segment's parameter is used. */
  lemma LinesMeet(a: Point, b: Point, c: Point, d: Point, s: real, t: real)
    requires var k := Orientation(c, d, a) - Orientation(c, d, b);
      k != 0.0 && s * k == Orientation(c, d, a) && t * (-k) == Orientation(a, b, c)
    ensures Along(a, b, s) == Along(c, d, t)
  {
    hide Orientation, At;
    var (o1, o3, o4) := (Orientation(a, b, c), Orientation(c, d, a), Orientation(c, d, b));
    Balance(a, b, c, d);
    MeetCoordinate(o3 - o4, o1, o3, s, t, a.x, b.x, c.x, d.x);
    MeetCoordinate(o3 - o4, o1, o3, s, t, a.y, b.y, c.y, d.y);
  }

  /** The line of the first segment meets the other segment strictly between its ends. */
  lemma SplitsAt(eps: real, a: Point, b: Point, c: Point, d: Point)
    requires eps >= 0.0 && Separates(eps, a, b, c, d)
    ensures var (o1, o2) := (Orientation(a, b, c), Orientation(a, b, d));
      o1 != o2 && 0.0 < o1 / (o1 - o2) < 1.0 && (o1 / (o1 - o2)) * (o1 - o2) == o1
  {
    OppositeSigns(Orientation(a, b, c), Orientation(a, b, d));
    Ratio(Orientation(a, b, c), Orientation(a, b, d));
  }

  /** Segments that separate each other's ends cross: their lines meet at a point inside both. */
  lemma CrossingMeets(eps: real, a: Point, b: Point, c: Point, d: Point)
    requires eps >= 0.0 && Crosses(eps, a, b, c, d)
    ensures Orientation(c, d, a) != Orientation(c, d, b)
    ensures Inside(CrossingPoint(a, b, c, d), a, b) && Inside(CrossingPoint(a, b, c, d), c, d)
  {
    hide Orientation, At;
    SplitsAt(eps, a, b, c, d);
    SplitsAt(eps, c, d, a, b);
    var (o1, o2, o3, o4) := (Orientation(a, b, c), Orientation(a, b, d), Orientation(c, d, a), Orientation(c, d, b));
    var (s, t) := (o3 / (o3 - o4), o1 / (o1 - o2));
    assert o1 - o2 == -(o3 - o4) by {
      Balance(a, b, c, d);
    }
    LinesMeet(a, b, c, d, s, t);
    InsideAt(a, b, s);
    InsideAt(c, d, t);
  }

  lemma InsideAt(a: Point, b: Point, t: real)
    requires 0.0 < t < 1.0
    ensures Inside(Along(a, b, t), a, b)
  {
  }

  // ---------------------------------------------------------------- the exact test

  lemma EndsOn(a: Point, b: Point)
    ensures On(a, a, b) && On(b, a, b)
  {
    assert Along(a, b, 0.0) == a && Along(a, b, 1.0) == b;
  }

  lemma InsideOn(q: Point, a: Point, b: Point)
    requires Inside(q, a, b)
    ensures On(q, a, b)
  {
    var t: real :| 0.0 < t < 1.0 && Along(a, b, t) == q;
  }

  lemma TestFindsPoint(a: Point, b: Point, c: Point, d: Point)
    requires SegmentsIntersect(0.0, a, b, c, d)
    ensures ShareAPoint(a, b, c, d)
  {
    EndsOn(a, b);
    EndsOn(c, d);
    TouchesOn(c, a, b);
    TouchesOn(d, a, b);
    TouchesOn(a, c, d);
    TouchesOn(b, c, d);
    if Crosses(0.0, a, b, c, d) {
      CrossingMeets(0.0, a, b, c, d);
      InsideOn(CrossingPoint(a, b, c, d), a, b);
      InsideOn(CrossingPoint(a, b, c, d), c, d);
    }
  }

  lemma OrientationAlong(a: Point, b: Point, c: Point, d: Point, t: real)
    ensures Orientation(a, b, Along(c, d, t)) == (1.0 - t) * Orientation(a, b, c) + t * Orientation(a, b, d)
  {
    var (u, v) := (b.x - a.x, b.y - a.y);
    assert u * (c.y + t * (d.y - c.y) - a.y) == (1.0 - t) * (u * (c.y - a.y)) + t * (u * (d.y - a.y));
    assert v * (c.x + t * (d.x - c.x) - a.x) == (1.0 - t) * (v * (c.x - a.x)) + t * (v * (d.x - a.x));
  }

  lemma PositiveMean(x: real, y: real, t: real)
    requires 0.0 <= t <= 1.0 && x > 0.0 && y > 0.0
    ensures (1.0 - t) * x + t * y > 0.0
  {
    if t == 0.0 {
    } else {
      assert (1.0 - t) * x >= 0.0 && t * y > 0.0;
    }
  }

  /** A weighted mean of two numbers of one sign is zero only at an end that is zero. */
  lemma ZeroMean(x: real, y: real, t: real)
    requires 0.0 <= t <= 1.0 && x * y >= 0.0 && (x != 0.0 || y != 0.0)
    requires (1.0 - t) * x + t * y == 0.0
    ensures (t == 0.0 && x == 0.0) || (t == 1.0 && y == 0.0)
  {
    if x == 0.0 {
      assert t * y == 0.0;
    } else if y == 0.0 {
      assert (1.0 - t) * x == 0.0;
    } else if x > 0.0 {
      PositiveMean(x, y, t);
    } else {
      PositiveMean(-x, -y, t);
    }
  }

  lemma MeetsAtEnd(a: Point, b: Point, c: Point, d: Point, t: real)
    requires 0.0 <= t <= 1.0 && !Separates(0.0, a, b, c, d) && Orientation(a, b, Along(c, d, t)) == 0.0
    requires Orientation(a, b, c) != 0.0 || Orientation(a, b, d) != 0.0
    ensures Along(c, d, t) == c || Along(c, d, t) == d
  {
    hide Orientation;
    OrientationAlong(a, b, c, d, t);
    ZeroMean(Orientation(a, b, c), Orientation(a, b, d), t);
  }

  /** If the other segment has an end off the line but does not cross it, an end of it touches. */
  lemma EndTouches(a: Point, b: Point, c: Point, d: Point, q: Point)
    requires On(q, a, b) && On(q, c, d) && !Separates(0.0, a, b, c, d)
    requires Orientation(a, b, c) != 0.0 || Orientation(a, b, d) != 0.0
    ensures Touches(0.0, c, a, b) || Touches(0.0, d, a, b)
  {
    var t: real :| 0.0 <= t <= 1.0 && Along(c, d, t) == q;
    OnTouches(q, a, b);
    MeetsAtEnd(a, b, c, d, t);
  }

  lemma AlongAlong(a: Point, b: Point, g: real, d: real, u: real)
    ensures Along(Along(a, b, g), Along(a, b, d), u) == Along(a, b, At(g, d, u))
  {
    hide At;
    NestedParameter(a.x, b.x, g, d, u);
    NestedParameter(a.y, b.y, g, d, u);
  }

  lemma NestedParameter(p: real, q: real, g: real, d: real, u: real)
    ensures At(At(p, q, g), At(p, q, d), u) == At(p, q, At(g, d, u))
  {
    var k := q - p;
    assert At(p, q, d) - At(p, q, g) == (d - g) * k;
    assert u * ((d - g) * k) == (u * (d - g)) * k;
  }

  /** Two segments of one line that share a point: an end of one lies on the other. */
  lemma CollinearTouch(a: Point, b: Point, c: Point, d: Point, q: Point)
    requires On(q, a, b) && On(q, c, d) && a != b && c != d
    requires Orientation(a, b, c) == 0.0 && Orientation(a, b, d) == 0.0
    ensures On(c, a, b) || On(d, a, b) || On(a, c, d)
  {
    hide At, Along, Orientation;
    var g := Parameter(a, b, c);
    var h := Parameter(a, b, d);
    var t: real :| 0.0 <= t <= 1.0 && Along(c, d, t) == q;
    var w: real :| 0.0 <= w <= 1.0 && Along(a, b, w) == q;
    AlongAlong(a, b, g, h, t);
    SameParameter(a, b, w, At(g, h, t));
    Between(g, h, t);
    if !(0.0 <= g <= 1.0) && !(0.0 <= h <= 1.0) {
      StartBetween(a, b, g, h);
    }
  }

  /** The start of a segment lies between two points of its line with parameters on both sides of zero. */
  lemma StartBetween(a: Point, b: Point, g: real, h: real)
    requires Min(g, h) <= 0.0 <= Max(g, h) && g != h
    ensures On(a, Along(a, b, g), Along(a, b, h))
  {
    hide Along;
    Ratio(g, h);
    var u := g / (g - h);
    assert At(g, h, u) == 0.0;
    AlongAlong(a, b, g, h, u);
    AlongZero(a, b);
  }

  lemma AlongZero(a: Point, b: Point)
    ensures Along(a, b, 0.0) == a
  {
  }

  lemma SameParameter(a: Point, b: Point, s: real, t: real)
    requires a != b && Along(a, b, s) == Along(a, b, t)
    ensures s == t
  {
    if a.x != b.x {
      Cancel(b.x - a.x, s, t);
    } else {
      Cancel(b.y - a.y, s, t);
    }
  }

  lemma PointFoundHalf(a: Point, b: Point, c: Point, d: Point, q: Point)
    requires On(q, a, b) && On(q, c, d) && !Separates(0.0, a, b, c, d)
    ensures SegmentsIntersect(0.0, a, b, c, d)
  {
    TouchesOn(c, a, b);
    TouchesOn(d, a, b);
    TouchesOn(a, c, d);
    if Orientation(a, b, c) != 0.0 || Orientation(a, b, d) != 0.0 {
      EndTouches(a, b, c, d, q);
    } else if c == d {
      assert q == c;
    } else if a == b {
      assert q == a;
    } else {
      CollinearTouch(a, b, c, d, q);
    }
  }

  /** In exact arithmetic the test finds precisely the segments that have a point in common. */
  lemma ExactTest(a: Point, b: Point, c: Point, d: Point)
    ensures SegmentsIntersect(0.0, a, b, c, d) <==> ShareAPoint(a, b, c, d)
  {
    if SegmentsIntersect(0.0, a, b, c, d) {
      TestFindsPoint(a, b, c, d);
    }
    if ShareAPoint(a, b, c, d) {
      var q :| On(q, a, b) && On(q, c, d);
      if !Separates(0.0, a, b, c, d) {
        PointFoundHalf(a, b, c, d, q);
      } else if !Separates(0.0, c, d, a, b) {
        PointFoundHalf(c, d, a, b, q);
        IntersectionSymmetric(0.0, a, b, c, d);
      }
    }
  }

  // ---------------------------------------------------------------- the test with its tolerance

  lemma SeparatesExactly(eps: real, a: Point, b: Point, c: Point, d: Point)
    requires Separates(0.0, a, b, c, d)
    ensures Separates(eps, a, b, c, d) <==> Abs(Orientation(a, b, c)) * Abs(Orientation(a, b, d)) > eps
  {
    OppositeProduct(Orientation(a, b, c), Orientation(a, b, d), eps);
  }

  lemma OppositeProduct(x: real, y: real, eps: real)
    requires x * y < 0.0
    ensures x * y < -eps <==> Abs(x) * Abs(y) > eps
  {
    OppositeSigns(x, y);
  }

  /** The double areas cut off on both sides of the line multiply to more than the tolerance. */
  predicate ClearlySplit(eps: real, a: Point, b: Point, c: Point, d: Point) {
    Abs(Orientation(a, b, c)) * Abs(Orientation(a, b, d)) > eps
  }

  /**
   Segments that really cross are seen to cross exactly when each of the two lines clearly splits the
   other segment. Short crossings are missed.
   */
  lemma CrossingSeenExactly(eps: real, a: Point, b: Point, c: Point, d: Point)
    requires Crosses(0.0, a, b, c, d)
    ensures Crosses(eps, a, b, c, d) <==> ClearlySplit(eps, a, b, c, d) && ClearlySplit(eps, c, d, a, b)
  {
    SeparatesExactly(eps, a, b, c, d);
    SeparatesExactly(eps, c, d, a, b);
  }
}
