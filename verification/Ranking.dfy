/**
  Ranked search: every bounded way the query engine has of producing its answer (limited sub-queries
  that are merged, an exact search that stops early, a bounded heap) against sorting all the matches and
  cutting the list.
*/
module Ranking {
  import opened Prelude
  import opened Utf8Prefix

  const U32_MAX: nat := 0xFFFF_FFFF

  datatype Candidate = Candidate(
    tier: nat, displayLength: nat, displayNorm: Text, itemNorm: Text, itemId: Text)

  // ---------------------------------------------------------------- the candidate order

  /** Strings are compared by their bytes, in Rust and in SQLite alike. */
  predicate TextLess(a: Text, b: Text) {
    LexLess(Utf8(a), Utf8(b))
  }

  /** The order derived field by field for SearchCandidate. */
  predicate Less(a: Candidate, b: Candidate) {
    if a.tier != b.tier then a.tier < b.tier
    else if a.displayLength != b.displayLength then a.displayLength < b.displayLength
    else if a.displayNorm != b.displayNorm then TextLess(a.displayNorm, b.displayNorm)
    else if a.itemNorm != b.itemNorm then TextLess(a.itemNorm, b.itemNorm)
    else TextLess(a.itemId, b.itemId)
  }

  lemma TextOrder(a: Text, b: Text)
    ensures a == b ==> !TextLess(a, b)
    ensures a != b ==> TextLess(a, b) != TextLess(b, a)
  {
    Utf8Injective(a, b);
    LexTotal(Utf8(a), Utf8(b));
    if TextLess(a, b) {
      LexAsymmetric(Utf8(a), Utf8(b));
    } else if TextLess(b, a) {
      LexAsymmetric(Utf8(b), Utf8(a));
    }
  }

  lemma TextTransitive(a: Text, b: Text, c: Text)
    ensures TextLess(a, b) && TextLess(b, c) ==> TextLess(a, c)
  {
    if TextLess(a, b) && TextLess(b, c) {
      LexTransitive(Utf8(a), Utf8(b), Utf8(c));
    }
  }

  /** Exactly one of a < b, a == b, b < a. */
  lemma LessTotal(a: Candidate, b: Candidate)
    ensures a == b ==> !Less(a, b)
    ensures a != b ==> Less(a, b) != Less(b, a)
  {
    TextOrder(a.displayNorm, b.displayNorm);
    TextOrder(a.itemNorm, b.itemNorm);
    TextOrder(a.itemId, b.itemId);
  }

  lemma LessTransitive(a: Candidate, b: Candidate, c: Candidate)
    requires Less(a, b) && Less(b, c)
    ensures Less(a, c)
  {
    LessTotal(a, b);
    TextOrder(a.displayNorm, b.displayNorm);
    TextOrder(a.itemNorm, b.itemNorm);
    TextTransitive(a.displayNorm, b.displayNorm, c.displayNorm);
    TextTransitive(a.itemNorm, b.itemNorm, c.itemNorm);
    TextTransitive(a.itemId, b.itemId, c.itemId);
  }

  // ---------------------------------------------------------------- which way it points

  /** a comes before b by its code points: at their first difference it ends or has the smaller one. */
  ghost predicate Precedes(a: Text, b: Text) {
    exists i: nat :: PrecedesAt(a, b, i)
  }

  predicate PrecedesAt(a: Text, b: Text, i: nat) {
    i <= |a| && i < |b| && a[..i] == b[..i] && (i == |a| || a[i] < b[i])
  }

  lemma {:induction false} PrecedesIsLess(a: Text, b: Text)
    ensures TextLess(a, b) <==> Precedes(a, b)
  {
    Utf8Order(a, b);
    LexIsPrecedes(a, b);
  }

  lemma {:induction false} LexIsPrecedes(a: Text, b: Text)
    ensures LexLess(a, b) <==> Precedes(a, b)
  {
    if LexLess(a, b) {
      if a == [] || a[0] < b[0] {
        assert PrecedesAt(a, b, 0);
      } else {
        LexIsPrecedes(a[1..], b[1..]);
        var i: nat :| PrecedesAt(a[1..], b[1..], i);
        assert a[..i + 1] == [a[0]] + a[1..][..i] && b[..i + 1] == [b[0]] + b[1..][..i];
        assert PrecedesAt(a, b, i + 1);
      }
    }
    if Precedes(a, b) {
      var i: nat :| PrecedesAt(a, b, i);
      if i > 0 {
        assert a[0] == a[..i][0] == b[..i][0] == b[0];
        assert a[1..][..i - 1] == a[..i][1..] && b[1..][..i - 1] == b[..i][1..];
        assert PrecedesAt(a[1..], b[1..], i - 1);
        LexIsPrecedes(a[1..], b[1..]);
      }
    }
  }

  /** The smaller tier first, then the shorter display name, then the texts in code-point order. */
  ghost predicate Ahead(a: Candidate, b: Candidate) {
    || a.tier < b.tier
    || (a.tier == b.tier && a.displayLength < b.displayLength)
    || (a.tier == b.tier && a.displayLength == b.displayLength && TextsAhead(a, b))
  }

  ghost predicate TextsAhead(a: Candidate, b: Candidate) {
    || Precedes(a.displayNorm, b.displayNorm)
    || (a.displayNorm == b.displayNorm && Precedes(a.itemNorm, b.itemNorm))
    || (a.displayNorm == b.displayNorm && a.itemNorm == b.itemNorm && Precedes(a.itemId, b.itemId))
  }

  lemma LessIsAhead(a: Candidate, b: Candidate)
    ensures Less(a, b) <==> Ahead(a, b)
  {
    PrecedesIsLess(a.displayNorm, b.displayNorm);
    PrecedesIsLess(a.itemNorm, b.itemNorm);
    PrecedesIsLess(a.itemId, b.itemId);
    TextOrder(a.displayNorm, b.displayNorm);
    TextOrder(a.itemNorm, b.itemNorm);
  }

  // ---------------------------------------------------------------- sort and truncate

  ghost predicate Distinct<T(!new)>(key: T -> Candidate, s: seq<T>) {
    forall i, j :: 0 <= i < j < |s| ==> key(s[i]) != key(s[j])
  }

  ghost predicate Sorted<T(!new)>(key: T -> Candidate, s: seq<T>) {
    forall i, j :: 0 <= i < j < |s| ==> Less(key(s[i]), key(s[j]))
  }

  function Insert<T>(key: T -> Candidate, x: T, s: seq<T>): (r: seq<T>)
    ensures |r| == |s| + 1
  {
    if s != [] && Less(key(x), key(s[|s| - 1])) then Insert(key, x, s[..|s| - 1]) + [s[|s| - 1]]
    else s + [x]
  }

  /** ORDER BY key. */
  function Sort<T>(key: T -> Candidate, s: seq<T>): (r: seq<T>)
    ensures |r| == |s|
  {
    if s == [] then [] else Insert(key, s[|s| - 1], Sort(key, s[..|s| - 1]))
  }

  /** ORDER BY key LIMIT k: the reference every bounded search is measured against. */
  function Ranked<T>(key: T -> Candidate, s: seq<T>, k: nat): seq<T> {
    Take(Sort(key, s), k)
  }

  lemma {:induction false} InsertElements<T(!new)>(key: T -> Candidate, x: T, s: seq<T>)
    ensures forall y :: y in Insert(key, x, s) <==> y == x || y in s
  {
    if s != [] && Less(key(x), key(s[|s| - 1])) {
      InsertElements(key, x, s[..|s| - 1]);
      assert s == s[..|s| - 1] + [s[|s| - 1]];
    }
  }

  lemma {:induction false} InsertSorted<T(!new)>(key: T -> Candidate, x: T, s: seq<T>)
    requires Sorted(key, s)
    requires forall y :: y in s ==> key(y) != key(x)
    ensures Sorted(key, Insert(key, x, s))
  {
    if s != [] {
      var last := s[|s| - 1];
      var front := s[..|s| - 1];
      LessTotal(key(x), key(last));
      if Less(key(x), key(last)) {
        InsertSorted(key, x, front);
        InsertElements(key, x, front);
        var r := Insert(key, x, front);
        forall y | y in r ensures Less(key(y), key(last)) {
          if y != x {
            var i :| 0 <= i < |front| && front[i] == y;
            assert s[i] == y;
          }
        }
        assert forall i :: 0 <= i < |r| ==> r[i] in r;
      } else {
        forall y | y in s ensures Less(key(y), key(x)) {
          if y != last {
            LessTransitive(key(y), key(last), key(x));
          }
        }
      }
    }
  }

  lemma {:induction false} SortFacts<T(!new)>(key: T -> Candidate, s: seq<T>)
    requires Distinct(key, s)
    ensures Sorted(key, Sort(key, s))
    ensures Elements(Sort(key, s)) == Elements(s)
  {
    if s != [] {
      var x := s[|s| - 1];
      var front := s[..|s| - 1];
      SortFacts(key, front);
      InsertElements(key, x, Sort(key, front));
      forall y | y in Sort(key, front) ensures key(y) != key(x) {
        assert y in Elements(front);
      }
      InsertSorted(key, x, Sort(key, front));
      forall y ensures y in Elements(Sort(key, s)) <==> y in Elements(s) {
        assert y in Elements(Sort(key, front)) <==> y in Elements(front);
        assert s == front + [x];
      }
    }
  }

  lemma SortedIsDistinct<T(!new)>(key: T -> Candidate, s: seq<T>)
    requires Sorted(key, s)
    ensures Distinct(key, s)
  {
    forall i, j | 0 <= i < j < |s| ensures key(s[i]) != key(s[j]) {
      LessTotal(key(s[i]), key(s[j]));
    }
  }

  lemma DistinctCount<T(!new)>(key: T -> Candidate, s: seq<T>)
    requires Distinct(key, s)
    ensures |Elements(s)| == |s|
  {
    ElementCount(s);
  }

  // ---------------------------------------------------------------- what a top-k list is

  ghost predicate AllAbove<T(!new)>(key: T -> Candidate, r: seq<T>, x: T) {
    forall y :: y in r ==> Less(key(y), key(x))
  }

  /** r is the k first elements of the set s: sorted, drawn from s, as long as it can be, and everything
      else of s comes after all of it. */
  ghost predicate IsTop<T(!new)>(key: T -> Candidate, r: seq<T>, s: set<T>, k: nat) {
    && Sorted(key, r)
    && Elements(r) <= s
    && |r| == Min(k, |s|)
    && forall x :: x in s && x !in r ==> AllAbove(key, r, x)
  }

  lemma RankedIsTop<T(!new)>(key: T -> Candidate, s: seq<T>, k: nat)
    requires Distinct(key, s)
    ensures IsTop(key, Ranked(key, s, k), Elements(s), k)
  {
    var all := Sort(key, s);
    var r := Ranked(key, s, k);
    SortFacts(key, s);
    DistinctCount(key, s);
    assert r <= all;
    forall x | x in Elements(s) && x !in r ensures AllAbove(key, r, x) {
      assert x in Elements(all);
      var j :| 0 <= j < |all| && all[j] == x;
      assert j >= |r|;
    }
  }

  lemma TopAgreesAt<T(!new)>(key: T -> Candidate, r: seq<T>, t: seq<T>, s: set<T>, k: nat, i: nat)
    requires IsTop(key, r, s, k) && IsTop(key, t, s, k)
    requires i < |r| && r[..i] == t[..i]
    requires forall x, y :: x in s && y in s && key(x) == key(y) ==> x == y
    ensures r[i] == t[i]
  {
    if r[i] != t[i] {
      assert r[i] in Elements(r) && t[i] in Elements(t);
      LessTotal(key(r[i]), key(t[i]));
      if Less(key(r[i]), key(t[i])) {
        NotBelow(key, t, r, s, k, i);
      } else {
        NotBelow(key, r, t, s, k, i);
      }
    }
  }

  /** At the first disagreement neither list can hold the smaller element. */
  lemma NotBelow<T(!new)>(key: T -> Candidate, r: seq<T>, t: seq<T>, s: set<T>, k: nat, i: nat)
    requires IsTop(key, r, s, k) && IsTop(key, t, s, k)
    requires i < |r| && i < |t| && r[..i] == t[..i]
    ensures !Less(key(t[i]), key(r[i]))
  {
    if Less(key(t[i]), key(r[i])) {
      var x := t[i];
      assert x in Elements(t);
      if x in r {
        var j :| 0 <= j < |r| && r[j] == x;
        LessTotal(key(x), key(r[i]));
        if j < i {
          assert r[j] == r[..i][j] == t[j];
          LessTotal(key(t[j]), key(t[i]));
        }
      } else {
        assert AllAbove(key, r, x);
        LessTotal(key(r[i]), key(x));
      }
    }
  }

  lemma {:induction false} TopAgrees<T(!new)>(key: T -> Candidate, r: seq<T>, t: seq<T>, s: set<T>, k: nat, i: nat)
    requires IsTop(key, r, s, k) && IsTop(key, t, s, k)
    requires i <= |r|
    requires forall x, y :: x in s && y in s && key(x) == key(y) ==> x == y
    ensures r[..i] == t[..i]
  {
    if i > 0 {
      TopAgrees(key, r, t, s, k, i - 1);
      TopAgreesAt(key, r, t, s, k, i - 1);
      assert r[..i] == r[..i - 1] + [r[i - 1]] && t[..i] == t[..i - 1] + [t[i - 1]];
    }
  }

  /** A top-k list is unique, so being one is the same as being the sorted list cut at k. */
  lemma TopIsRanked<T(!new)>(key: T -> Candidate, r: seq<T>, s: seq<T>, k: nat)
    requires Distinct(key, s)
    ensures IsTop(key, r, Elements(s), k) <==> r == Ranked(key, s, k)
  {
    RankedIsTop(key, s, k);
    if IsTop(key, r, Elements(s), k) {
      var t := Ranked(key, s, k);
      TopAgrees(key, r, t, Elements(s), k, |r|);
      assert r[..|r|] == r && t[..|t|] == t;
    }
  }
}
