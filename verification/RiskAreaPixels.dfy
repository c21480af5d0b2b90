/**
 The decision about people in a risk area, said in pixels: the area is stretched to the size of the frame instead
 of the body points being normalized.
 */
module RiskAreaPixels {
  import opened Segments
  import opened RiskAreaGeometries
  import opened RiskAreaEngines
  import opened RiskAreaPoses

  function Times(x: real, w: real): real {
    x * w
  }

  function Stretched(p: Point, w: real, h: real): Point {
    Point(Times(p.x, w), Times(p.y, h))
  }

  /** The vertices of the area, in pixels of the frame. */
  function InPixels(vs: seq<Point>, w: real, h: real): (r: seq<Point>)
    ensures |r| == |vs| && forall i :: 0 <= i < |vs| ==> r[i] == Stretched(vs[i], w, h)
  {
    seq(|vs|, i requires 0 <= i < |vs| => Stretched(vs[i], w, h))
  }

  // ---------------------------------------------------------------- stretching keeps every decision

  lemma OrderStretched(x: real, y: real, w: real)
    requires w > 0.0
    ensures Times(x, w) <= Times(y, w) <==> x <= y
    ensures Times(x, w) < Times(y, w) <==> x < y
  {
    assert (y - x) * w == y * w - x * w;
    SignOfProduct(y - x, w);
  }

  lemma SignStretched(x: real, w: real)
    requires w > 0.0
    ensures Times(x, w) > 0.0 <==> x > 0.0
    ensures Times(x, w) < 0.0 <==> x < 0.0
  {
    SignOfProduct(x, w);
  }

  lemma OrientationStretched(a: Point, b: Point, p: Point, w: real, h: real)
    ensures Orientation(Stretched(a, w, h), Stretched(b, w, h), Stretched(p, w, h))
      == Times(Orientation(a, b, p), Times(w, h))
  {
    var (u, v, s, t) := (b.x - a.x, p.y - a.y, b.y - a.y, p.x - a.x);
    ProductStretched(u, v, w, h);
    ProductStretched(t, s, w, h);
    assert b.x * w - a.x * w == u * w && p.x * w - a.x * w == t * w;
    assert p.y * h - a.y * h == v * h && b.y * h - a.y * h == s * h;
    Distribute(u * v, t * s, w * h);
  }

  lemma ProductStretched(x: real, y: real, w: real, h: real)
    ensures (x * w) * (y * h) == (x * y) * (w * h)
  {
  }

  lemma Distribute(x: real, y: real, k: real)
    ensures x * k - y * k == (x - y) * k
  {
  }

  lemma StraddlesStretched(p: Point, a: Point, b: Point, w: real, h: real)
    requires h > 0.0
    ensures Straddles(Stretched(p, w, h), Stretched(a, w, h), Stretched(b, w, h)) <==> Straddles(p, a, b)
    ensures Stretched(b, w, h).y > Stretched(a, w, h).y <==> b.y > a.y
  {
    hide Times;
    OrderStretched(p.y, a.y, h);
    OrderStretched(p.y, b.y, h);
    OrderStretched(a.y, b.y, h);
  }

  lemma SideStretched(p: Point, a: Point, b: Point, w: real, h: real)
    requires w > 0.0 && h > 0.0
    ensures SeesOnSide(Stretched(p, w, h), Stretched(a, w, h), Stretched(b, w, h)) <==> SeesOnSide(p, a, b)
  {
    hide Orientation, Stretched, Times;
    StraddlesStretched(p, a, b, w, h);
    OrientationStretched(a, b, p, w, h);
    SignStretched(w, h);
    SignStretched(Orientation(a, b, p), Times(w, h));
  }

  lemma MeetsStretched(p: Point, a: Point, b: Point, w: real, h: real)
    requires w > 0.0 && h > 0.0
    ensures MeetsRay(Stretched(p, w, h), Stretched(a, w, h), Stretched(b, w, h)) <==> MeetsRay(p, a, b)
  {
    hide MeetsRay, Straddles, SeesOnSide, Stretched;
    MeetsBySide(p, a, b);
    MeetsBySide(Stretched(p, w, h), Stretched(a, w, h), Stretched(b, w, h));
    StraddlesStretched(p, a, b, w, h);
    SideStretched(p, a, b, w, h);
  }

  lemma {:induction false} OddStretched(vs: seq<Point>, p: Point, w: real, h: real, n: nat)
    requires w > 0.0 && h > 0.0 && n <= |vs|
    ensures OddTo(InPixels(vs, w, h), Stretched(p, w, h), n) == OddTo(vs, p, n)
  {
    if n > 0 {
      hide MeetsRay, Stretched;
      OddStretched(vs, p, w, h, n - 1);
      MeetsStretched(p, vs[n - 1], vs[Next(n - 1, |vs|)], w, h);
    }
  }

  predicate Between(d: real, x: real, a: real, b: real) {
    Min(a, b) - d <= x <= Max(a, b) + d
  }

  /** The point is on the segment, up to a tolerance that is stretched with everything else. */
  predicate Near(eps: real, w: real, h: real, p: Point, a: Point, b: Point) {
    && Abs(Orientation(a, b, p)) <= Times(eps, Times(w, h))
    && Between(Times(eps, w), p.x, a.x, b.x) && Between(Times(eps, h), p.y, a.y, b.y)
  }

  lemma SumStretched(x: real, d: real, w: real)
    ensures Times(x + d, w) == Times(x, w) + Times(d, w) && Times(x - d, w) == Times(x, w) - Times(d, w)
  {
  }

  lemma BetweenStretched(eps: real, x: real, a: real, b: real, w: real)
    requires w > 0.0
    ensures Between(Times(eps, w), Times(x, w), Times(a, w), Times(b, w)) <==> Between(eps, x, a, b)
  {
    hide Times;
    OrderStretched(a, b, w);
    OrderStretched(b, a, w);
    OrderStretched(Min(a, b) - eps, x, w);
    OrderStretched(x, Max(a, b) + eps, w);
    SumStretched(Min(a, b), eps, w);
    SumStretched(Max(a, b), eps, w);
  }

  lemma NegatedStretched(o: real, k: real)
    ensures Times(-o, k) == -Times(o, k)
  {
  }

  lemma AbsStretched(o: real, eps: real, k: real)
    requires k > 0.0
    ensures Abs(Times(o, k)) <= Times(eps, k) <==> Abs(o) <= eps
  {
    hide Times;
    SignStretched(o, k);
    NegatedStretched(o, k);
    OrderStretched(o, eps, k);
    OrderStretched(-o, eps, k);
  }

  lemma TouchesApart(eps: real, p: Point, a: Point, b: Point)
    ensures Touches(eps, p, a, b) <==>
      Abs(Orientation(a, b, p)) <= eps && Between(eps, p.x, a.x, b.x) && Between(eps, p.y, a.y, b.y)
  {
    hide Orientation, Abs, Min, Max;
  }

  lemma TouchesStretched(eps: real, p: Point, a: Point, b: Point, w: real, h: real)
    requires w > 0.0 && h > 0.0
    ensures Near(eps, w, h, Stretched(p, w, h), Stretched(a, w, h), Stretched(b, w, h)) <==> Touches(eps, p, a, b)
  {
    hide Orientation, Abs, Between, Touches, Times;
    TouchesApart(eps, p, a, b);
    OrientationStretched(a, b, p, w, h);
    SignStretched(w, h);
    AbsStretched(Orientation(a, b, p), eps, Times(w, h));
    BetweenStretched(eps, p.x, a.x, b.x, w);
    BetweenStretched(eps, p.y, a.y, b.y, h);
  }

  // ---------------------------------------------------------------- the decision

  /** The pixel is on the outline of the stretched area or, by the crossings of a ray, inside it. */
  predicate InsideInPixels(b: PoseBatch, vs: seq<Point>, pixel: Point) {
    var (area, n) := (InPixels(vs, b.frameWidth, b.frameHeight), |vs|);
    || (exists i :: 0 <= i < n && Near(0.000000001, b.frameWidth, b.frameHeight, pixel, area[i], area[Next(i, n)]))
    || Odd(area, pixel)
  }

  lemma OutlineStretched(eps: real, vs: seq<Point>, p: Point, w: real, h: real)
    requires w > 0.0 && h > 0.0
    ensures var (area, n) := (InPixels(vs, w, h), |vs|);
      OnBoundary(eps, vs, p) <==>
      exists i :: 0 <= i < n && Near(eps, w, h, Stretched(p, w, h), area[i], area[Next(i, n)])
  {
    hide Near, Touches, Stretched;
    var (area, n) := (InPixels(vs, w, h), |vs|);
    forall i | 0 <= i < n
      ensures EdgeTouched(eps, vs, p, i) <==> Near(eps, w, h, Stretched(p, w, h), area[i], area[Next(i, n)])
    {
      TouchesStretched(eps, p, vs[i], vs[Next(i, n)], w, h);
    }
  }

  /** The detector is sure enough of the body point, and it lies in the frame. */
  predicate Reliable(threshold: real, b: PoseBatch, k: Keypoint) {
    k.confidence >= threshold && 0.0 <= k.x <= b.frameWidth && 0.0 <= k.y <= b.frameHeight
  }

  /** A body point counts as in the area exactly when it is reliable and its pixel is in the stretched area. */
  lemma PointInPixels(threshold: real, b: PoseBatch, vs: seq<Point>, k: Keypoint)
    requires b.Valid()
    ensures PointIn(threshold, b, vs, k) <==> Reliable(threshold, b, k) && InsideInPixels(b, vs, Point(k.x, k.y))
  {
    hide OnBoundary, Odd, Near;
    var p := Normalize(b, k);
    assert Stretched(p, b.frameWidth, b.frameHeight) == Point(k.x, k.y);
    OutlineStretched(EPSILON, vs, p, b.frameWidth, b.frameHeight);
    WholeOddStretched(vs, p, b.frameWidth, b.frameHeight);
  }

  lemma WholeOddStretched(vs: seq<Point>, p: Point, w: real, h: real)
    requires w > 0.0 && h > 0.0
    ensures Odd(InPixels(vs, w, h), Stretched(p, w, h)) == Odd(vs, p)
  {
    hide Stretched;
    OddStretched(vs, p, w, h, |vs|);
  }

  /** Somebody was seen, or is in the area, exactly when a body point of theirs was or is, pixel for pixel. */
  lemma EnteredInPixels(threshold: real, b: PoseBatch, vs: seq<Point>, pose: Pose)
    requires b.Valid()
    ensures Seen(threshold, b, pose) <==> exists i :: 0 <= i < |pose| && Reliable(threshold, b, pose[i])
    ensures Entered(threshold, b, vs, pose) <==>
      exists k :: k in pose && Reliable(threshold, b, k) && InsideInPixels(b, vs, Point(k.x, k.y))
  {
    hide InsideInPixels, PointIn;
    assert forall k :: Visible(threshold, b, k) <==> Reliable(threshold, b, k);
    forall k
      ensures PointIn(threshold, b, vs, k) <==> Reliable(threshold, b, k) && InsideInPixels(b, vs, Point(k.x, k.y))
    {
      PointInPixels(threshold, b, vs, k);
    }
  }
}
