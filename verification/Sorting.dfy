/** Sorting by a total order, as `sorted(..., key=...)` does. */
module Sorting {

  ghost predicate TotalOrder<T(!new)>(leq: (T, T) -> bool) {
    && (forall a, b :: leq(a, b) || leq(b, a))
    && (forall a, b, c :: leq(a, b) && leq(b, c) ==> leq(a, c))
  }

  ghost predicate SortedBy<T>(leq: (T, T) -> bool, s: seq<T>) {
    forall i, j :: 0 <= i < j < |s| ==> leq(s[i], s[j])
  }

  ghost predicate DistinctBy<T, K>(key: T -> K, s: seq<T>) {
    forall i, j :: 0 <= i < j < |s| ==> key(s[i]) != key(s[j])
  }

  function InsertBy<T>(leq: (T, T) -> bool, a: T, s: seq<T>): seq<T> {
    if s == [] || leq(a, s[0]) then [a] + s else [s[0]] + InsertBy(leq, a, s[1..])
  }

  function SortBy<T>(leq: (T, T) -> bool, s: seq<T>): seq<T> {
    if s == [] then [] else InsertBy(leq, s[0], SortBy(leq, s[1..]))
  }

  lemma {:induction false} InsertKeeps<T(!new), K>(leq: (T, T) -> bool, key: T -> K, a: T, s: seq<T>)
    requires TotalOrder(leq) && SortedBy(leq, s) && DistinctBy(key, s)
    requires forall x :: x in s ==> key(x) != key(a)
    ensures var r := InsertBy(leq, a, s);
      && SortedBy(leq, r) && DistinctBy(key, r)
      && forall x :: x in r <==> x == a || x in s
  {
    if s == [] || leq(a, s[0]) {
      forall j | 0 <= j < |s| ensures leq(a, s[j]) && key(s[j]) != key(a) {
        assert s[j] in s;
      }
    } else {
      var rest := s[1..];
      assert forall x :: x in s <==> x == s[0] || x in rest;
      InsertKeeps(leq, key, a, rest);
      var r := InsertBy(leq, a, rest);
      forall j | 0 <= j < |r| ensures leq(s[0], r[j]) && key(s[0]) != key(r[j]) {
        assert r[j] == a || r[j] in rest;
      }
    }
  }

  /** Sorting orders the elements and neither loses, adds nor repeats any. */
  lemma {:induction false} SortKeeps<T(!new), K>(leq: (T, T) -> bool, key: T -> K, s: seq<T>)
    requires TotalOrder(leq) && DistinctBy(key, s)
    ensures var r := SortBy(leq, s);
      && SortedBy(leq, r) && DistinctBy(key, r)
      && forall x :: x in r <==> x in s
  {
    if s != [] {
      var rest := s[1..];
      SortKeeps(leq, key, rest);
      assert forall x :: x in s <==> x == s[0] || x in rest;
      forall x | x in rest ensures key(x) != key(s[0]) {
        var j :| 0 <= j < |rest| && rest[j] == x;
        assert s[j + 1] == x;
      }
      InsertKeeps(leq, key, s[0], SortBy(leq, rest));
    }
  }

  /** The order of characters in code points, extended to text. */
  predicate TextLeq(a: string, b: string) {
    if a == "" then true
    else if b == "" then false
    else a[0] < b[0] || (a[0] == b[0] && TextLeq(a[1..], b[1..]))
  }

  lemma {:induction false} TextTotal(a: string, b: string)
    ensures TextLeq(a, b) || TextLeq(b, a)
  {
    if a != "" && b != "" { TextTotal(a[1..], b[1..]); }
  }

  lemma {:induction false} TextTransitive(a: string, b: string, c: string)
    requires TextLeq(a, b) && TextLeq(b, c)
    ensures TextLeq(a, c)
  {
    if a != "" && a[0] == b[0] == c[0] { TextTransitive(a[1..], b[1..], c[1..]); }
  }

  /** One text is the beginning of the other, or smaller where they first differ. */
  ghost predicate Precedes(a: string, b: string) {
    a <= b || exists i :: 0 <= i < |a| && i < |b| && a[..i] == b[..i] && a[i] < b[i]
  }

  lemma {:induction false} TextLeqExactly(a: string, b: string)
    ensures TextLeq(a, b) <==> Precedes(a, b)
  {
    if a != "" && b != "" {
      TextLeqExactly(a[1..], b[1..]);
      if a[0] == b[0] {
        SameHead(a, b);
      } else {
        assert a[..0] == b[..0];
        PrecedesByHead(a, b);
      }
    }
  }

  lemma PrecedesByHead(a: string, b: string)
    requires a != "" && b != ""
    ensures Precedes(a, b) ==> a[0] <= b[0]
  {
    if i :| 0 < i < |a| && i < |b| && a[..i] == b[..i] && a[i] < b[i] {
      assert a[0] == a[..i][0] && b[0] == b[..i][0];
    }
  }

  lemma SameHead(a: string, b: string)
    requires a != "" && b != "" && a[0] == b[0]
    ensures Precedes(a, b) <==> Precedes(a[1..], b[1..])
  {
    var (c, d) := (a[1..], b[1..]);
    assert a == [a[0]] + c && b == [b[0]] + d;
    if i :| 0 <= i < |c| && i < |d| && c[..i] == d[..i] && c[i] < d[i] {
      assert a[..i + 1] == [a[0]] + c[..i] && b[..i + 1] == [b[0]] + d[..i];
      assert a[i + 1] < b[i + 1];
    }
    if i :| 0 <= i < |a| && i < |b| && a[..i] == b[..i] && a[i] < b[i] {
      assert i > 0 && c[..i - 1] == a[..i][1..] && d[..i - 1] == b[..i][1..];
      assert c[i - 1] < d[i - 1];
    }
  }
}
