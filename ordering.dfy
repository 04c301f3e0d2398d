/** Python's ordering of `str` values and `sorted` applied to a set of strings. */
module Ordering {

  /** Python's `a < b` on `str`: lexicographic comparison of code points, where a
      proper prefix comes first. */
  predicate Less(a: string, b: string)
    ensures Less(a, b) ==> a != b
    decreases |a|
  {
    if |a| == 0 then |b| > 0
    else if |b| == 0 then false
    else if a[0] != b[0] then a[0] < b[0]
    else Less(a[1..], b[1..])
  }

  lemma {:induction false} LessIrreflexive(a: string)
    ensures !Less(a, a)
    decreases |a|
  {
    if |a| > 0 {
      LessIrreflexive(a[1..]);
    }
  }

  lemma {:induction false} LessAsymmetric(a: string, b: string)
    requires Less(a, b)
    ensures !Less(b, a)
    decreases |a|
  {
    if |a| > 0 && a[0] == b[0] {
      LessAsymmetric(a[1..], b[1..]);
    }
  }

  lemma {:induction false} LessTransitive(a: string, b: string, c: string)
    requires Less(a, b) && Less(b, c)
    ensures Less(a, c)
    decreases |a|
  {
    if |a| > 0 && a[0] == b[0] && b[0] == c[0] {
      LessTransitive(a[1..], b[1..], c[1..]);
    }
  }

  lemma {:induction false} LessTotal(a: string, b: string)
    ensures a == b || Less(a, b) || Less(b, a)
    decreases |a|
  {
    if |a| > 0 && |b| > 0 && a[0] == b[0] {
      LessTotal(a[1..], b[1..]);
      if a[1..] == b[1..] {
        assert a == [a[0]] + a[1..] && b == [b[0]] + b[1..];
      }
    }
  }

  /** `Less` is a strict total order on strings. */
  lemma LessIsStrictTotalOrder()
    ensures forall a :: !Less(a, a)
    ensures forall a, b :: Less(a, b) ==> !Less(b, a)
    ensures forall a, b, c :: Less(a, b) && Less(b, c) ==> Less(a, c)
    ensures forall a, b :: a == b || Less(a, b) || Less(b, a)
  {
    forall a { LessIrreflexive(a); }
    forall a, b | Less(a, b) { LessAsymmetric(a, b); }
    forall a, b, c | Less(a, b) && Less(b, c) { LessTransitive(a, b, c); }
    forall a, b { LessTotal(a, b); }
  }

  predicate StrictlySorted(s: seq<string>) {
    forall i, j :: 0 <= i < j < |s| ==> Less(s[i], s[j])
  }

  predicate IsMin(m: string, s: set<string>) {
    m in s && forall y :: y in s ==> y == m || Less(m, y)
  }

  lemma {:induction false} MinExists(s: set<string>)
    requires s != {}
    ensures exists m :: IsMin(m, s)
    decreases |s|
  {
    var x :| x in s;
    if s != {x} {
      MinExists(s - {x});
      var m :| IsMin(m, s - {x});
      LessIsStrictTotalOrder();
      if Less(x, m) {
        assert IsMin(x, s);
      } else {
        assert IsMin(m, s);
      }
    } else {
      assert IsMin(x, s);
    }
  }

  /** The least element of a non-empty set of strings. */
  function Min(s: set<string>): (m: string)
    requires s != {}
    ensures IsMin(m, s)
  {
    MinExists(s);
    LessIsStrictTotalOrder();
    var m :| IsMin(m, s); m
  }

  /** Python's `sorted(s)` for a set of strings: its elements in ascending order. */
  function Sorted(s: set<string>): (r: seq<string>)
    ensures |r| == |s|
    ensures forall x :: x in r <==> x in s
    ensures StrictlySorted(r)
    decreases |s|
  {
    if s == {} then []
    else
      var m := Min(s);
      [m] + Sorted(s - {m})
  }

  /** The head of a strictly sorted listing of `s` is the least element of `s`. */
  lemma SortedHeadIsMin(s: set<string>, r: seq<string>)
    requires r != [] && StrictlySorted(r)
    requires forall x :: x in r <==> x in s
    ensures IsMin(r[0], s)
  {
    forall y | y in s ensures y == r[0] || Less(r[0], y) {
      var k :| 0 <= k < |r| && r[k] == y;
      assert k == 0 || Less(r[0], r[k]);
    }
  }

  /** Its tail lists the rest of `s`, again strictly sorted. */
  lemma SortedTail(s: set<string>, r: seq<string>)
    requires r != [] && StrictlySorted(r)
    requires forall x :: x in r <==> x in s
    ensures StrictlySorted(r[1..])
    ensures forall x :: x in r[1..] <==> x in s - {r[0]}
  {
    LessIrreflexive(r[0]);
    forall x ensures x in r[1..] <==> x in s - {r[0]} {
      if x in r[1..] {
        var k :| 1 <= k < |r| && r[k] == x;
        assert Less(r[0], r[k]);
      }
    }
  }

  /** A set has at most one least element. */
  lemma MinUnique(a: string, b: string, s: set<string>)
    requires IsMin(a, s) && IsMin(b, s)
    ensures a == b
  {
    if a != b {
      assert Less(a, b);
      LessAsymmetric(a, b);
    }
  }

  /** A strictly sorted listing of a set is unique, so `Sorted` is the only answer. */
  lemma {:induction false} SortedUnique(s: set<string>, r: seq<string>)
    requires StrictlySorted(r)
    requires forall x :: x in r <==> x in s
    ensures r == Sorted(s)
    decreases |r|
  {
    if r == [] {
      assert s == {};
    } else {
      SortedHeadIsMin(s, r);
      var m := Min(s);
      MinUnique(m, r[0], s);
      SortedTail(s, r);
      SortedUnique(s - {m}, r[1..]);
      assert r == [m] + r[1..];
    }
  }
}
