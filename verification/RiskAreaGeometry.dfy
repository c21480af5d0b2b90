/**
 Risk areas: polygons in normalized coordinates and the checks their constructor makes. Coordinates are
 real numbers; the tolerance is a parameter wherever a result holds for every tolerance.
 */
module RiskAreaGeometries {
  import opened Wrappers
  import opened Segments

  const EPSILON: real := 0.000000001

  // ---------------------------------------------------------------- polygons

  function Next(i: nat, n: nat): (j: nat)
    requires i < n
    ensures j < n
  {
    if i + 1 == n then 0 else i + 1
  }

  function EdgeTerm(a: Point, b: Point): real {
    a.x * b.y - b.x * a.y
  }

  /** The shoelace terms of the edges with index below `n`. */
  function AreaTo(vs: seq<Point>, n: nat): real
    requires n <= |vs|
  {
    if n == 0 then 0.0 else AreaTo(vs, n - 1) + EdgeTerm(vs[n - 1], vs[Next(n - 1, |vs|)])
  }

  function SignedDoubleArea(vs: seq<Point>): real {
    AreaTo(vs, |vs|)
  }

  /** The pairs of edges that the scan skips. */
  predicate Skipped(i: nat, j: nat, n: nat) {
    j == i + 1 || (i == 0 && j == n - 1)
  }

  predicate EdgesIntersect(eps: real, vs: seq<Point>, i: nat, j: nat)
    requires i < |vs| && j < |vs|
  {
    SegmentsIntersect(eps, vs[i], vs[Next(i, |vs|)], vs[j], vs[Next(j, |vs|)])
  }

  predicate HasSelfIntersection(eps: real, vs: seq<Point>) {
    exists i, j :: 0 <= i < j < |vs| && !Skipped(i, j, |vs|) && EdgesIntersect(eps, vs, i, j)
  }

  predicate Distinct(vs: seq<Point>) {
    forall i, j :: 0 <= i < j < |vs| ==> vs[i] != vs[j]
  }

  datatype GeometryError = TooFewVertices | RepeatedVertex | ZeroArea | CrossesItself

  /** A closing vertex is dropped: a list may or may not repeat its first vertex at the end. */
  function Unclosed(vs: seq<Point>): seq<Point> {
    if |vs| >= 2 && vs[0] == vs[|vs| - 1] then vs[..|vs| - 1] else vs
  }

  /** The checks of the constructor, in their order. */
  function Checked(eps: real, listed: seq<Point>): Result<seq<Point>, GeometryError> {
    var vs := Unclosed(listed);
    if |vs| < 3 then Err(TooFewVertices)
    else if !Distinct(vs) then Err(RepeatedVertex)
    else if Abs(SignedDoubleArea(vs)) <= eps then Err(ZeroArea)
    else if HasSelfIntersection(eps, vs) then Err(CrossesItself)
    else Ok(vs)
  }

  /** What every stored geometry satisfies. */
  predicate Accepted(eps: real, vs: seq<Point>) {
    |vs| >= 3 && Distinct(vs) && Abs(SignedDoubleArea(vs)) > eps && !HasSelfIntersection(eps, vs)
  }

  /** A stored geometry is accepted again as it is, and every accepted list stores an accepted geometry. */
  lemma CheckedExactly(eps: real, listed: seq<Point>)
    ensures Checked(eps, listed).Ok? <==> Accepted(eps, Unclosed(listed))
    ensures Checked(eps, listed).Ok? ==>
      Checked(eps, listed) == Ok(Unclosed(listed)) && Checked(eps, Unclosed(listed)) == Ok(Unclosed(listed))
  {
    var vs := Unclosed(listed);
    if Accepted(eps, vs) {
      assert vs[0] != vs[|vs| - 1];
      assert Unclosed(vs) == vs;
    }
  }

  /** Each error has its own cause, and the earlier one wins. */
  lemma RefusedFor(eps: real, listed: seq<Point>)
    ensures var (r, vs) := (Checked(eps, listed), Unclosed(listed));
      && (r == Err(TooFewVertices) <==> |vs| < 3)
      && (r == Err(RepeatedVertex) <==> |vs| >= 3 && exists i, j :: 0 <= i < j < |vs| && vs[i] == vs[j])
      && (r == Err(ZeroArea) <==>
        |vs| >= 3 && (forall i, j :: 0 <= i < j < |vs| ==> vs[i] != vs[j]) && Abs(SignedDoubleArea(vs)) <= eps)
      && (r == Err(CrossesItself) ==> HasSelfIntersection(eps, vs))
  {
    hide SignedDoubleArea, HasSelfIntersection;
  }

  // ---------------------------------------------------------------- edges that are not neighbours

  /** The edges follow each other on the ring. */
  predicate Neighbours(i: nat, j: nat, n: nat)
    requires i < n && j < n
  {
    j == Next(i, n) || i == Next(j, n)
  }

  ghost predicate StrangersMeet(eps: real, vs: seq<Point>) {
    exists i, j :: 0 <= i < |vs| && 0 <= j < |vs| && i != j && !Neighbours(i, j, |vs|) && EdgesIntersect(eps, vs, i, j)
  }

  /** The scan by index pairs finds exactly the crossings of edges that are not neighbours on the ring. */
  lemma ScanIsCyclic(eps: real, vs: seq<Point>)
    requires |vs| >= 3
    ensures HasSelfIntersection(eps, vs) <==> StrangersMeet(eps, vs)
  {
    var n := |vs|;
    forall i, j | 0 <= i < j < n
      ensures Skipped(i, j, n) == Neighbours(i, j, n) && EdgesIntersect(eps, vs, i, j) == EdgesIntersect(eps, vs, j, i)
    {
      IntersectionSymmetric(eps, vs[i], vs[Next(i, n)], vs[j], vs[Next(j, n)]);
    }
    if StrangersMeet(eps, vs) {
      var i, j :| 0 <= i < n && 0 <= j < n && i != j && !Neighbours(i, j, n) && EdgesIntersect(eps, vs, i, j);
      var (lo, hi) := if i < j then (i, j) else (j, i);
      assert !Skipped(lo, hi, n) && EdgesIntersect(eps, vs, lo, hi);
    }
  }

  // ---------------------------------------------------------------- rotations and reversals

  /** The vertices from the second one on, then the first. */
  function Rotated(vs: seq<Point>): (r: seq<Point>)
    requires vs != []
    ensures |r| == |vs| && forall i :: 0 <= i < |vs| ==> r[i] == vs[Next(i, |vs|)]
  {
    vs[1..] + [vs[0]]
  }

  function Reversed(vs: seq<Point>): (r: seq<Point>)
    ensures |r| == |vs| && forall i :: 0 <= i < |vs| ==> r[i] == vs[|vs| - 1 - i]
  {
    seq(|vs|, i requires 0 <= i < |vs| => vs[|vs| - 1 - i])
  }

  /** The edge of the original that edge `i` of the reversed list runs along, backwards. */
  function Backwards(i: nat, n: nat): (j: nat)
    requires i < n
    ensures j < n
  {
    if i + 1 == n then n - 1 else n - 2 - i
  }

  lemma DistinctRotated(vs: seq<Point>)
    requires vs != []
    ensures Distinct(Rotated(vs)) <==> Distinct(vs)
  {
    var r, n := Rotated(vs), |vs|;
    if Distinct(r) {
      forall i, j | 0 <= i < j < n ensures vs[i] != vs[j] {
        assert vs[j] == r[j - 1];
        assert vs[i] == if i == 0 then r[n - 1] else r[i - 1];
      }
    }
  }

  lemma DistinctReversed(vs: seq<Point>)
    ensures Distinct(Reversed(vs)) <==> Distinct(vs)
  {
    var r, n := Reversed(vs), |vs|;
    if Distinct(r) {
      forall i, j | 0 <= i < j < n ensures vs[i] != vs[j] {
        assert r[n - 1 - j] != r[n - 1 - i];
      }
    }
    if Distinct(vs) {
      forall i, j | 0 <= i < j < n ensures r[i] != r[j] {
        assert vs[n - 1 - j] != vs[n - 1 - i];
      }
    }
  }

  /** The area terms of the rotated list are those of the original, the first one last. */
  lemma {:induction false} AreaToRotated(vs: seq<Point>, k: nat)
    requires vs != [] && k < |vs|
    ensures AreaTo(Rotated(vs), k) == AreaTo(vs, k + 1) - EdgeTerm(vs[0], vs[Next(0, |vs|)])
  {
    if k == 0 {
      assert AreaTo(vs, 1) == AreaTo(vs, 0) + EdgeTerm(vs[0], vs[Next(0, |vs|)]);
    } else {
      AreaToRotated(vs, k - 1);
    }
  }

  lemma AreaRotated(vs: seq<Point>)
    requires vs != []
    ensures SignedDoubleArea(Rotated(vs)) == SignedDoubleArea(vs)
  {
    AreaToRotated(vs, |vs| - 1);
  }

  lemma EdgeTermReversed(a: Point, b: Point)
    ensures EdgeTerm(b, a) == -EdgeTerm(a, b)
  {
  }

  /** The first terms of the reversed list are the negated last terms, but one, of the original. */
  lemma {:induction false} AreaToReversed(vs: seq<Point>, k: nat)
    requires k < |vs|
    ensures AreaTo(Reversed(vs), k) == AreaTo(vs, |vs| - 1 - k) - AreaTo(vs, |vs| - 1)
  {
    if k > 0 {
      var n := |vs|;
      AreaToReversed(vs, k - 1);
      hide EdgeTerm;
      EdgeTermReversed(vs[n - 1 - k], vs[n - k]);
      assert AreaTo(vs, n - k) == AreaTo(vs, n - 1 - k) + EdgeTerm(vs[n - 1 - k], vs[n - k]);
      assert Reversed(vs)[k - 1] == vs[n - k] && Reversed(vs)[k] == vs[n - 1 - k];
    }
  }

  lemma AreaReversed(vs: seq<Point>)
    ensures SignedDoubleArea(Reversed(vs)) == -SignedDoubleArea(vs)
  {
    if vs != [] {
      AreaToReversed(vs, |vs| - 1);
      EdgeTermReversed(vs[0], vs[|vs| - 1]);
      hide EdgeTerm;
      assert Reversed(vs)[|vs| - 1] == vs[0] && Reversed(vs)[0] == vs[|vs| - 1];
    }
  }

  lemma EdgesRotated(eps: real, vs: seq<Point>, i: nat, j: nat)
    requires |vs| >= 3 && i < |vs| && j < |vs|
    ensures var n := |vs|;
      && EdgesIntersect(eps, Rotated(vs), i, j) == EdgesIntersect(eps, vs, Next(i, n), Next(j, n))
      && Neighbours(i, j, n) == Neighbours(Next(i, n), Next(j, n), n)
  {
  }

  lemma StrangersMeetRotated(eps: real, vs: seq<Point>)
    requires |vs| >= 3
    ensures StrangersMeet(eps, Rotated(vs)) <==> StrangersMeet(eps, vs)
  {
    var r, n := Rotated(vs), |vs|;
    if StrangersMeet(eps, r) {
      var i, j :| 0 <= i < n && 0 <= j < n && i != j && !Neighbours(i, j, n) && EdgesIntersect(eps, r, i, j);
      EdgesRotated(eps, vs, i, j);
      assert EdgesIntersect(eps, vs, Next(i, n), Next(j, n));
    }
    if StrangersMeet(eps, vs) {
      var i, j :| 0 <= i < n && 0 <= j < n && i != j && !Neighbours(i, j, n) && EdgesIntersect(eps, vs, i, j);
      var (k, l) := (if i == 0 then n - 1 else i - 1, if j == 0 then n - 1 else j - 1);
      assert Next(k, n) == i && Next(l, n) == j;
      EdgesRotated(eps, vs, k, l);
      assert EdgesIntersect(eps, r, k, l);
    }
  }

  lemma IntersectionReversed(eps: real, a: Point, b: Point, c: Point, d: Point)
    ensures SegmentsIntersect(eps, b, a, d, c) == SegmentsIntersect(eps, a, b, c, d)
  {
    IntersectionSymmetric(eps, a, b, c, d);
    IntersectionSymmetric(eps, b, a, c, d);
    IntersectionSymmetric(eps, c, d, b, a);
    IntersectionSymmetric(eps, d, c, b, a);
  }

  lemma BackwardsEdge(vs: seq<Point>, i: nat)
    requires |vs| >= 3 && i < |vs|
    ensures var (n, k) := (|vs|, Backwards(i, |vs|));
      Reversed(vs)[i] == vs[Next(k, n)] && Reversed(vs)[Next(i, n)] == vs[k]
  {
  }

  lemma BackwardsNeighbours(i: nat, j: nat, n: nat)
    requires i < n && j < n && n >= 3
    ensures Neighbours(i, j, n) == Neighbours(Backwards(i, n), Backwards(j, n), n)
  {
  }

  lemma EdgesReversed(eps: real, vs: seq<Point>, i: nat, j: nat)
    requires |vs| >= 3 && i < |vs| && j < |vs|
    ensures EdgesIntersect(eps, Reversed(vs), i, j) == EdgesIntersect(eps, vs, Backwards(i, |vs|), Backwards(j, |vs|))
  {
    var n := |vs|;
    var (k, l) := (Backwards(i, n), Backwards(j, n));
    BackwardsEdge(vs, i);
    BackwardsEdge(vs, j);
    IntersectionReversed(eps, vs[k], vs[Next(k, n)], vs[l], vs[Next(l, n)]);
  }

  lemma StrangersMeetReversed(eps: real, vs: seq<Point>)
    requires |vs| >= 3
    ensures StrangersMeet(eps, Reversed(vs)) <==> StrangersMeet(eps, vs)
  {
    var r, n := Reversed(vs), |vs|;
    if StrangersMeet(eps, r) {
      var i, j :| 0 <= i < n && 0 <= j < n && i != j && !Neighbours(i, j, n) && EdgesIntersect(eps, r, i, j);
      EdgesReversed(eps, vs, i, j);
      BackwardsNeighbours(i, j, n);
      assert EdgesIntersect(eps, vs, Backwards(i, n), Backwards(j, n));
    }
    if StrangersMeet(eps, vs) {
      var i, j :| 0 <= i < n && 0 <= j < n && i != j && !Neighbours(i, j, n) && EdgesIntersect(eps, vs, i, j);
      assert Backwards(Backwards(i, n), n) == i && Backwards(Backwards(j, n), n) == j;
      EdgesReversed(eps, vs, Backwards(i, n), Backwards(j, n));
      BackwardsNeighbours(i, j, n);
      assert EdgesIntersect(eps, r, Backwards(i, n), Backwards(j, n));
    }
  }

  lemma AcceptedAnyway(eps: real, vs: seq<Point>)
    requires |vs| >= 3
    ensures Accepted(eps, Rotated(vs)) <==> Accepted(eps, vs)
    ensures Accepted(eps, Reversed(vs)) <==> Accepted(eps, vs)
  {
    DistinctRotated(vs);
    DistinctReversed(vs);
    AreaRotated(vs);
    AreaReversed(vs);
    StrangersMeetRotated(eps, vs);
    StrangersMeetReversed(eps, vs);
    ScanIsCyclic(eps, vs);
    ScanIsCyclic(eps, Rotated(vs));
    ScanIsCyclic(eps, Reversed(vs));
  }

  /** The same ring, read from vertex `k` on. */
  function Turned(vs: seq<Point>, k: nat): (r: seq<Point>)
    requires k <= |vs|
    ensures |r| == |vs|
  {
    vs[k..] + vs[..k]
  }

  lemma TurnedOnce(vs: seq<Point>, k: nat)
    requires k < |vs|
    ensures Turned(vs, k + 1) == Rotated(Turned(vs, k))
  {
  }

  /** A polygon is accepted whichever vertex it starts from and whichever way round it is listed. */
  lemma {:induction false} AcceptedFromAnyVertex(eps: real, vs: seq<Point>, k: nat)
    requires k <= |vs|
    ensures Accepted(eps, Turned(vs, k)) <==> Accepted(eps, vs)
    ensures Accepted(eps, Reversed(Turned(vs, k))) <==> Accepted(eps, vs)
  {
    hide Turned, Rotated, Reversed;
    if |vs| >= 3 {
      if k == 0 {
        TurnedNot(vs);
      } else {
        AcceptedFromAnyVertex(eps, vs, k - 1);
        TurnedOnce(vs, k - 1);
        AcceptedAnyway(eps, Turned(vs, k - 1));
      }
      AcceptedAnyway(eps, Turned(vs, k));
    }
  }

  lemma TurnedNot(vs: seq<Point>)
    ensures Turned(vs, 0) == vs == Turned(vs, |vs|)
  {
  }

  /** Without its closing vertex, the reversal of a closed list is the reversal of the ring from its second vertex. */
  lemma ReversedClosed(listed: seq<Point>)
    requires |listed| >= 2 && listed[0] == listed[|listed| - 1]
    ensures Unclosed(Reversed(listed)) == Reversed(Rotated(Unclosed(listed)))
  {
    var back, ring := Reversed(listed), Rotated(Unclosed(listed));
    var n := |listed| - 1;
    assert back[0] == back[n] && Unclosed(back) == back[..n];
    forall i | 0 <= i < n ensures back[i] == Reversed(ring)[i] {
      assert back[i] == listed[n - i];
      assert Reversed(ring)[i] == ring[n - 1 - i];
      assert i == 0 ==> ring[n - 1] == listed[0];
      assert i > 0 ==> ring[n - 1 - i] == listed[n - i];
    }
  }

  lemma AcceptedIsOpen(eps: real, vs: seq<Point>)
    requires Accepted(eps, vs)
    ensures Unclosed(vs) == vs && Checked(eps, vs) == Ok(vs)
  {
    assert vs[0] != vs[|vs| - 1];
  }

  lemma ReversedTwice(vs: seq<Point>)
    ensures Reversed(Reversed(vs)) == vs
  {
  }

  /** A closed list that starts somewhere else has its first vertex twice in a row. */
  lemma TurnedClosed(listed: seq<Point>, k: nat)
    requires |listed| >= 4 && listed[0] == listed[|listed| - 1] && Distinct(Unclosed(listed)) && 0 < k < |listed|
    ensures Unclosed(Turned(listed, k)) == Turned(listed, k) && !Distinct(Turned(listed, k))
  {
    var (t, n) := (Turned(listed, k), |listed|);
    var vs := Unclosed(listed);
    assert t[0] == listed[k] && t[n - 1] == listed[k - 1] == vs[k - 1];
    assert listed[k] == vs[if k == n - 1 then 0 else k];
    assert t[n - 1 - k] == listed[n - 1] && t[n - k] == listed[0];
  }

  lemma ReversalAccepted(eps: real, listed: seq<Point>)
    requires Checked(eps, listed).Ok?
    ensures Checked(eps, Reversed(listed)).Ok?
  {
    var vs := Unclosed(listed);
    CheckedExactly(eps, listed);
    CheckedExactly(eps, Reversed(listed));
    if listed[0] == listed[|listed| - 1] {
      ReversedClosed(listed);
      AcceptedAnyway(eps, vs);
      AcceptedAnyway(eps, Rotated(vs));
    } else {
      AcceptedAnyway(eps, listed);
      AcceptedIsOpen(eps, Reversed(listed));
    }
  }

  lemma TurnAccepted(eps: real, listed: seq<Point>, k: nat)
    requires Checked(eps, listed).Ok? && k <= |listed|
    ensures Checked(eps, Turned(listed, k)).Ok? <==>
      listed[0] != listed[|listed| - 1] || k == 0 || k == |listed|
    ensures Checked(eps, Turned(listed, k)).Err? ==> Checked(eps, Turned(listed, k)) == Err(RepeatedVertex)
  {
    CheckedExactly(eps, listed);
    CheckedExactly(eps, Turned(listed, k));
    RefusedFor(eps, Turned(listed, k));
    if k == 0 || k == |listed| {
      TurnedNot(listed);
    } else if listed[0] == listed[|listed| - 1] {
      TurnedClosed(listed, k);
    } else {
      AcceptedFromAnyVertex(eps, listed, k);
      AcceptedIsOpen(eps, Turned(listed, k));
    }
  }

  /**
   The list a client sends may be reversed freely. It may start somewhere else exactly when it does not
   repeat its first vertex at the end: otherwise it would hold that vertex twice in a row.
   */
  lemma ListFromAnyVertex(eps: real, listed: seq<Point>, k: nat)
    requires Checked(eps, listed).Ok? && k <= |listed|
    ensures Checked(eps, Turned(listed, k)).Ok? <==>
      listed[0] != listed[|listed| - 1] || k == 0 || k == |listed|
    ensures Checked(eps, Turned(listed, k)).Err? ==> Checked(eps, Turned(listed, k)) == Err(RepeatedVertex)
    ensures Checked(eps, Reversed(Turned(listed, k))).Ok? <==> Checked(eps, Turned(listed, k)).Ok?
  {
    hide Checked, Reversed;
    var t := Turned(listed, k);
    TurnAccepted(eps, listed, k);
    if Checked(eps, t).Ok? {
      ReversalAccepted(eps, t);
    }
    if Checked(eps, Reversed(t)).Ok? {
      ReversalAccepted(eps, Reversed(t));
      ReversedTwice(t);
    }
  }
}
