/**
  The search for words too short for the full-text index: one LIKE statement over the entries, ordered by
  a CASE of equality and LIKE tests.
*/
module LikeSearch {
  import opened Prelude
  import opened Utf8Prefix
  import opened Ranking
  import opened RankedSearch
  import opened Escaping

  function Codes(s: string): (t: Text)
    ensures |t| == |s| && forall i :: 0 <= i < |s| ==> t[i] == s[i] as int
  {
    seq(|s|, i requires 0 <= i < |s| => s[i] as int)
  }

  function Chars(t: Text): (s: string)
    ensures |s| == |t| && forall i :: 0 <= i < |t| ==> s[i] == t[i] as char
  {
    seq(|t|, i requires 0 <= i < |t| => t[i] as char)
  }

  lemma CharsOfCodes(s: string)
    ensures Chars(Codes(s)) == s
  {
  }

  // ---------------------------------------------------------------- the statement

  /** Whether every word of the query, and the query, is long enough for the trigram index. */
  predicate FullTextUsable(query: string) {
    |query| >= 3 && forall w :: w in Words(query) ==> |w| >= 3
  }

  lemma {:induction false} WordFits(query: string, w: string)
    requires w in Words(query)
    ensures |w| <= |query|
    decreases |query|
  {
    if query != [] {
      if IsSpace(query[0]) {
        WordFits(query[1..], w);
      } else if w != FirstWord(query) {
        WordFits(query[|FirstWord(query)|..], w);
      }
    }
  }

  /** Words of three characters are enough, so the test of the whole query only sets aside one without words. */
  lemma ThreeIsEnough(query: string)
    requires Words(query) != []
    ensures FullTextUsable(query) <==> forall w :: w in Words(query) ==> |w| > 2
  {
    WordFits(query, Words(query)[0]);
  }

  /** SQLite's LIKE reads both operands up to the first U+0000. */
  function UpToNul(s: string): string {
    if s == [] || s[0] == '\0' then [] else [s[0]] + UpToNul(s[1..])
  }

  predicate LikeTest(pattern: string, s: string) {
    Like(UpToNul(pattern), UpToNul(s))
  }

  function Infix(query: string): string {
    "%" + EscapeLike(query) + "%"
  }

  function Prefix(query: string): string {
    EscapeLike(query) + "%"
  }

  /** The JSON text of a breadcrumb list, as an arbitrary function. */
  type Json = seq<Text> -> string

  function LikeWanted(json: Json, query: string): Row -> bool {
    (row: Row) => || LikeTest(Infix(query), Chars(row.displayNorm))
                  || LikeTest(Infix(query), Chars(row.itemNorm))
                  || LikeTest(Infix(query), json(row.breadcrumbs))
  }

  function LikeCase(query: string, row: Row): nat {
    if row.displayNorm == Codes(query) then 0
    else if row.itemNorm == Codes(query) then 1
    else if LikeTest(Prefix(query), Chars(row.displayNorm)) then 2
    else if LikeTest(Prefix(query), Chars(row.itemNorm)) then 3
    else if LikeTest(Infix(query), Chars(row.displayNorm)) then 4
    else if LikeTest(Infix(query), Chars(row.itemNorm)) then 5
    else 6
  }

  /** Unlike the other searches this one does not order by item_id last. */
  function LikeOrder(query: string): Row -> Candidate {
    (row: Row) => Candidate(LikeCase(query, row), SqlLength(row.displayNorm), row.displayNorm, row.itemNorm, [])
  }

  // ---------------------------------------------------------------- what the LIKE tests mean

  /** As text is after lowering: no ASCII capital, and no U+0000. */
  predicate Plain(s: string) {
    Lowered(s) && '\0' !in s
  }

  lemma {:induction false} NothingCut(s: string)
    requires '\0' !in s
    ensures UpToNul(s) == s
  {
    if s != [] {
      NothingCut(s[1..]);
    }
  }

  lemma {:induction false} EscapedHasNoNul(s: string)
    requires '\0' !in s
    ensures '\0' !in EscapeEach(s)
  {
    if s != [] {
      EscapedHasNoNul(s[1..]);
    }
  }

  lemma {:induction false} ContainsCodes(t: Text, query: string)
    ensures Contains(Chars(t), query) <==> Contains(t, Codes(query))
  {
    PrefixCodes(t, query);
    if t != [] {
      ContainsCodes(t[1..], query);
      assert Chars(t)[1..] == Chars(t[1..]);
    }
  }

  lemma PrefixCodes(t: Text, query: string)
    ensures query <= Chars(t) <==> Codes(query) <= t
  {
    if query <= Chars(t) {
      assert forall i :: 0 <= i < |query| ==> Codes(query)[i] == t[i];
    }
    if Codes(query) <= t {
      assert forall i :: 0 <= i < |query| ==> query[i] == Codes(query)[i] as char == Chars(t)[i];
    }
  }

  lemma LikeIsContains(query: string, column: Text)
    requires Plain(query) && Plain(Chars(column))
    ensures LikeTest(Infix(query), Chars(column)) <==> Contains(column, Codes(query))
    ensures LikeTest(Prefix(query), Chars(column)) <==> Codes(query) <= column
  {
    EscapeIsPerCharacter(query);
    EscapedHasNoNul(query);
    NothingCut(Infix(query));
    NothingCut(Prefix(query));
    NothingCut(Chars(column));
    EscapedLikeIsLiteral(query, Chars(column));
    ContainsCodes(column, query);
    PrefixCodes(column, query);
  }

  /** On lowered text the statement selects the rows that contain the query and orders them by search_rank,
      leaving only rows that differ in their ItemID alone in no order. */
  lemma LikeIsRank(json: Json, query: string, row: Row)
    requires Plain(query) && Plain(Chars(row.displayNorm)) && Plain(Chars(row.itemNorm))
    ensures LikeWanted(json, query)(row) <==>
            || Contains(row.displayNorm, Codes(query)) || Contains(row.itemNorm, Codes(query))
            || LikeTest(Infix(query), json(row.breadcrumbs))
    ensures LikeOrder(query)(row) == RowKey(Codes(query))(row).(itemId := [])
  {
    LikeIsContains(query, row.displayNorm);
    LikeIsContains(query, row.itemNorm);
    assert forall i :: 0 <= i < |row.displayNorm| ==> Chars(row.displayNorm)[i] != '\0';
  }

  // ---------------------------------------------------------------- a page in an order with ties

  ghost predicate InOrder<T(!new)>(key: T -> Candidate, s: seq<T>) {
    forall i, j :: 0 <= i < j < |s| ==> !Less(key(s[j]), key(s[i]))
  }

  lemma NotBeforeTransitive(a: Candidate, b: Candidate, c: Candidate)
    requires !Less(a, b) && !Less(b, c)
    ensures !Less(a, c)
  {
    LessTotal(a, b);
    LessTotal(b, c);
    if Less(a, c) && a != b && b != c {
      LessTransitive(b, a, c);
    }
  }

  lemma AppendInOrder<T(!new)>(key: T -> Candidate, s: seq<T>, x: T)
    requires InOrder(key, s) && forall i :: 0 <= i < |s| ==> !Less(key(x), key(s[i]))
    ensures InOrder(key, s + [x])
  {
  }

  lemma {:induction false} InsertInOrder<T(!new)>(key: T -> Candidate, x: T, s: seq<T>)
    requires InOrder(key, s)
    ensures InOrder(key, Insert(key, x, s))
  {
    if s != [] {
      var last, front := s[|s| - 1], s[..|s| - 1];
      if Less(key(x), key(last)) {
        InsertInOrder(key, x, front);
        InsertElements(key, x, front);
        var r := Insert(key, x, front);
        LessTotal(key(x), key(last));
        forall i | 0 <= i < |r| ensures !Less(key(last), key(r[i])) {
          assert r[i] in r;
        }
        AppendInOrder(key, r, last);
      } else {
        forall i | 0 <= i < |s| ensures !Less(key(x), key(s[i])) {
          LessTotal(key(last), key(last));
          NotBeforeTransitive(key(x), key(last), key(s[i]));
        }
        AppendInOrder(key, s, x);
      }
    }
  }

  lemma {:induction false} InsertMultiset<T(!new)>(key: T -> Candidate, x: T, s: seq<T>)
    ensures multiset(Insert(key, x, s)) == multiset(s) + multiset{x}
  {
    if s != [] && Less(key(x), key(s[|s| - 1])) {
      InsertMultiset(key, x, s[..|s| - 1]);
      assert s == s[..|s| - 1] + [s[|s| - 1]];
    }
  }

  lemma SplitMultiset<T(!new)>(s: seq<T>, n: nat)
    requires |s| == n + 1
    ensures multiset(s) == multiset(s[..n]) + multiset{s[n]}
  {
    assert s == s[..n] + [s[n]];
  }

  lemma {:induction false} SortMultiset<T(!new)>(key: T -> Candidate, s: seq<T>)
    ensures multiset(Sort(key, s)) == multiset(s)
  {
    if s != [] {
      var n := |s| - 1;
      SortMultiset(key, s[..n]);
      InsertMultiset(key, s[n], Sort(key, s[..n]));
      SplitMultiset(s, n);
    }
  }

  lemma {:induction false} SortInOrder<T(!new)>(key: T -> Candidate, s: seq<T>)
    ensures InOrder(key, Sort(key, s))
  {
    if s != [] {
      var front, x := s[..|s| - 1], s[|s| - 1];
      SortInOrder(key, front);
      InsertInOrder(key, x, Sort(key, front));
    }
  }

  /** What ORDER BY and LIMIT promise when keys may be equal: nothing on the page or left out is ahead of
      something before it. */
  ghost predicate IsPage<T(!new)>(key: T -> Candidate, page: seq<T>, all: seq<T>, k: nat) {
    && |page| == Min(k, |all|)
    && (forall i, j :: 0 <= i < j < |page| ==> !Ahead(key(page[j]), key(page[i])))
    && exists rest :: multiset(all) == multiset(page) + multiset(rest) && AllAfter(key, page, rest)
  }

  ghost predicate AllAfter<T(!new)>(key: T -> Candidate, page: seq<T>, rest: seq<T>) {
    forall i, j :: 0 <= i < |page| && 0 <= j < |rest| ==> !Ahead(key(rest[j]), key(page[i]))
  }

  lemma CutInOrder<T(!new)>(key: T -> Candidate, page: seq<T>, rest: seq<T>)
    requires InOrder(key, page + rest)
    ensures forall i, j :: 0 <= i < j < |page| ==> !Ahead(key(page[j]), key(page[i]))
    ensures AllAfter(key, page, rest)
  {
    var s := page + rest;
    forall i, j | 0 <= i < j < |page| ensures !Ahead(key(page[j]), key(page[i])) {
      assert s[i] == page[i] && s[j] == page[j];
      LessIsAhead(key(page[j]), key(page[i]));
    }
    forall i, j | 0 <= i < |page| && 0 <= j < |rest| ensures !Ahead(key(rest[j]), key(page[i])) {
      assert s[i] == page[i] && s[|page| + j] == rest[j];
      LessIsAhead(key(rest[j]), key(page[i]));
    }
  }

  lemma RankedIsPage<T(!new)>(key: T -> Candidate, all: seq<T>, k: nat)
    ensures IsPage(key, Ranked(key, all, k), all, k)
  {
    var sorted := Sort(key, all);
    SortInOrder(key, all);
    SortMultiset(key, all);
    var page := Take(sorted, k);
    var rest := sorted[|page|..];
    assert sorted == page + rest;
    CutInOrder(key, page, rest);
  }
}
