/** Small shared vocabulary: optional values, finite maxima, runs of a step relation. */
module Prelude {

  datatype Option<+T> = None | Some(value: T)

  /** The largest element of a finite set of naturals, 0 for the empty set
      (SQL's COALESCE(MAX(x), 0)). */
  ghost function MaxOf(s: set<nat>): (m: nat)
    ensures forall x :: x in s ==> x <= m
    ensures s != {} ==> m in s
    ensures s == {} ==> m == 0
  {
    if s == {} then 0
    else
      var x :| x in s;
      var m := MaxOf(s - {x});
      assert forall y :: y in s ==> y == x || y in s - {x};
      if m > x then m else x
  }

  function Min(a: int, b: int): int {
    if a <= b then a else b
  }

  function Max(a: int, b: int): int {
    if a >= b then a else b
  }

  lemma SubsetCardinality<T>(a: set<T>, b: set<T>)
    requires a <= b
    ensures |a| <= |b|
    ensures a != b ==> |a| < |b|
  {
    assert b == a + (b - a);
    assert a !! (b - a);
    if a != b {
      assert b - a != {};
    }
  }

  ghost predicate NoDuplicates<X(!new)>(s: seq<X>) {
    forall i, j :: 0 <= i < j < |s| ==> s[i] != s[j]
  }

  /** Rust's `retain` and `filter`. */
  function Filter<X>(s: seq<X>, keep: X -> bool): seq<X> {
    if s == [] then []
    else if keep(s[0]) then [s[0]] + Filter(s[1..], keep)
    else Filter(s[1..], keep)
  }

  lemma {:induction false} FilterFacts<X(!new)>(s: seq<X>, keep: X -> bool)
    ensures forall x :: x in Filter(s, keep) <==> x in s && keep(x)
    ensures |Filter(s, keep)| <= |s|
    ensures NoDuplicates(s) ==> NoDuplicates(Filter(s, keep))
  {
    if s != [] {
      FilterFacts(s[1..], keep);
      assert forall x :: x in s <==> x == s[0] || x in s[1..];
      if NoDuplicates(s) {
        assert NoDuplicates(s[1..]);
        assert s[0] !in Filter(s[1..], keep);
      }
    }
  }

  /** Rust's `str::contains`. */
  predicate Contains<X(==)>(s: seq<X>, q: seq<X>) {
    q <= s || (s != [] && Contains(s[1..], q))
  }

  function Take<X>(s: seq<X>, k: nat): seq<X> {
    if k <= |s| then s[..k] else s
  }

  ghost function Elements<X>(s: seq<X>): set<X> {
    set x | x in s
  }

  lemma {:induction false} ElementCount<X(!new)>(s: seq<X>)
    requires NoDuplicates(s)
    ensures |Elements(s)| == |s|
  {
    if s != [] {
      var t := s[..|s| - 1];
      ElementCount(t);
      assert s[|s| - 1] !in t;
      assert Elements(s) == Elements(t) + {s[|s| - 1]};
    }
  }
}
