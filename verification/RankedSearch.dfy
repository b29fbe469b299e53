/**
  The three ranked searches of the index: prefix (two limited column queries, merged), exact (two
  disjoint queries, the second skipped when the first is already full) and full text (a bounded heap over
  the MATCH rows), each equal to sorting all matches in candidate order and cutting the list.
*/
module RankedSearch {
  import opened Prelude
  import opened Utf8Prefix
  import opened Ranking

  /** A row of `entries`, for one server and generation. */
  datatype Row = Row(
    itemId: Text, displayName: Text, itemNorm: Text, displayNorm: Text,
    kind: int, breadcrumbs: seq<Text>)

  datatype FtsHit = FtsHit(itemId: Text, displayName: Text)

  /** search_rank. */
  function SearchRank(query: Text, display: Text, item: Text): nat {
    if display == query then 0
    else if item == query then 1
    else if query <= display then 2
    else if query <= item then 3
    else if Contains(display, query) then 4
    else if Contains(item, query) then 5
    else 6
  }

  function CandidateFor(query: Text, itemId: Text, itemNorm: Text, displayNorm: Text): Candidate {
    Candidate(SearchRank(query, displayNorm, itemNorm), |displayNorm|, displayNorm, itemNorm, itemId)
  }

  function RowKey(query: Text): Row -> Candidate {
    (row: Row) => CandidateFor(query, row.itemId, row.itemNorm, row.displayNorm)
  }

  /** The primary key (server, generation, item_id). */
  ghost predicate PrimaryKey(table: seq<Row>) {
    forall i, j :: 0 <= i < j < |table| ==> table[i].itemId != table[j].itemId
  }

  /** SQL length() stops at the first U+0000; names without it have one length in SQL and in Rust. */
  function SqlLength(s: Text): (n: nat)
    ensures n <= |s|
    ensures (forall i :: 0 <= i < |s| ==> s[i] != 0) ==> n == |s|
  {
    if s == [] || s[0] == 0 then 0
    else
      assert forall i :: 0 <= i < |s[1..]| ==> s[1..][i] == s[i + 1];
      1 + SqlLength(s[1..])
  }

  ghost predicate NulFree(table: seq<Row>) {
    forall row :: row in table ==> forall i :: 0 <= i < |row.displayNorm| ==> row.displayNorm[i] != 0
  }

  function SaturatingSucc(limit: nat): (k: nat)
    ensures limit < U32_MAX ==> k == limit + 1
  {
    if limit < U32_MAX then limit + 1 else U32_MAX
  }

  // ---------------------------------------------------------------- the order of a page, said outright

  /** What each rank stands for. */
  lemma RankMeaning(query: Text, display: Text, item: Text)
    ensures SearchRank(query, display, item) == 0 <==> display == query
    ensures SearchRank(query, display, item) <= 1 <==> display == query || item == query
    ensures SearchRank(query, display, item) <= 2 <==> query <= display || item == query
    ensures SearchRank(query, display, item) <= 3 <==> query <= display || query <= item
    ensures SearchRank(query, display, item) <= 4 <==> Contains(display, query) || query <= item
    ensures SearchRank(query, display, item) <= 5 <==> Contains(display, query) || Contains(item, query)
    ensures SearchRank(query, display, item) <= 6
  {
  }

  /** Row a belongs before row b on a page of answers to the query. */
  ghost predicate Above(query: Text, a: Row, b: Row) {
    var p, q := SearchRank(query, a.displayNorm, a.itemNorm), SearchRank(query, b.displayNorm, b.itemNorm);
    || p < q
    || (p == q && |a.displayNorm| < |b.displayNorm|)
    || (p == q && |a.displayNorm| == |b.displayNorm| && NamesAbove(a, b))
  }

  ghost predicate NamesAbove(a: Row, b: Row) {
    || Precedes(a.displayNorm, b.displayNorm)
    || (a.displayNorm == b.displayNorm && Precedes(a.itemNorm, b.itemNorm))
    || (a.displayNorm == b.displayNorm && a.itemNorm == b.itemNorm && Precedes(a.itemId, b.itemId))
  }

  /** `page` is the first k of the rows of the table that are kept, in the order of `Above`. */
  ghost predicate TopPage(query: Text, page: seq<Row>, table: seq<Row>, keep: Row -> bool, k: nat) {
    && (forall i, j :: 0 <= i < j < |page| ==> Above(query, page[i], page[j]))
    && (forall row :: row in page ==> row in table && keep(row))
    && (|page| < k ==> forall row :: row in table && keep(row) ==> row in page)
    && |page| <= k
    && (forall row, other :: row in page && other in table && keep(other) && other !in page ==> Above(query, row, other))
  }

  lemma LessIsAbove(query: Text, a: Row, b: Row)
    ensures Less(RowKey(query)(a), RowKey(query)(b)) <==> Above(query, a, b)
  {
    LessIsAhead(RowKey(query)(a), RowKey(query)(b));
  }

  lemma RankedIsTopPage(query: Text, table: seq<Row>, keep: Row -> bool, k: nat)
    requires PrimaryKey(table)
    ensures TopPage(query, Ranked(RowKey(query), Filter(table, keep), k), table, keep, k)
  {
    var key, all := RowKey(query), Filter(table, keep);
    var page := Ranked(key, all, k);
    KeyedRows(query, table, keep);
    FilterFacts(table, keep);
    RankedIsTop(key, all, k);
    FullOrComplete(key, page, Elements(all), k);
    forall a: Row, b: Row ensures Less(key(a), key(b)) <==> Above(query, a, b) {
      LessIsAbove(query, a, b);
    }
    forall row | row in page ensures row in table && keep(row) {
      assert row in Elements(page);
    }
    forall other | other in table && keep(other) && other !in page ensures AllAbove(key, page, other) {
      assert other in Elements(all);
    }
    assert forall row :: row in table && keep(row) ==> row in Elements(all);
  }

  // ---------------------------------------------------------------- WHERE and ORDER BY clauses

  /** `column >= ?3 AND column < ?4`, or with the substring test when there is no upper bound. */
  predicate InRange(query: Text, column: Text) {
    && LexLeq(Utf8(query), Utf8(column))
    && match UpperBound(query)
       case Some(bound) => LexLess(Utf8(column), Utf8(bound))
       case None => |query| <= |column| && column[..|query|] == query
  }

  function DisplayRange(query: Text): Row -> bool {
    (row: Row) => InRange(query, row.displayNorm)
  }

  function ItemRange(query: Text): Row -> bool {
    (row: Row) => InRange(query, row.itemNorm)
  }

  /** The conditions of the CASE: the range test, or without an upper bound the substring test alone. */
  predicate InCase(query: Text, column: Text) {
    match UpperBound(query)
    case Some(bound) => LexLeq(Utf8(query), Utf8(column)) && LexLess(Utf8(column), Utf8(bound))
    case None => |query| <= |column| && column[..|query|] == query
  }

  function PrefixCase(query: Text, row: Row): nat {
    if row.displayNorm == query then 0
    else if row.itemNorm == query then 1
    else if InCase(query, row.displayNorm) then 2
    else if InCase(query, row.itemNorm) then 3
    else 6
  }

  function PrefixOrder(query: Text): Row -> Candidate {
    (row: Row) => Candidate(PrefixCase(query, row), SqlLength(row.displayNorm),
                            row.displayNorm, row.itemNorm, row.itemId)
  }

  function DisplayIs(query: Text): Row -> bool {
    (row: Row) => row.displayNorm == query
  }

  function OnlyItemIs(query: Text): Row -> bool {
    (row: Row) => row.itemNorm == query && row.displayNorm != query
  }

  /** ORDER BY item_id_norm, item_id. */
  function ItemOrder(): Row -> Candidate {
    (row: Row) => Candidate(0, 0, [], row.itemNorm, row.itemId)
  }

  /** ORDER BY length(display_name_norm), display_name_norm, item_id_norm, item_id. */
  function DisplayOrder(): Row -> Candidate {
    (row: Row) => Candidate(0, SqlLength(row.displayNorm), row.displayNorm, row.itemNorm, row.itemId)
  }

  /** SELECT … FROM entries WHERE … ORDER BY … LIMIT. */
  function Select(table: seq<Row>, keep: Row -> bool, order: Row -> Candidate, limit: nat): seq<Row> {
    Ranked(order, Filter(table, keep), limit)
  }

  ghost function Matching(table: seq<Row>, keep: Row -> bool): set<Row> {
    set row | row in table && keep(row)
  }

  // What the two searches are for.

  function StartsWith(query: Text): Row -> bool {
    (row: Row) => query <= row.displayNorm || query <= row.itemNorm
  }

  function Equals(query: Text): Row -> bool {
    (row: Row) => row.displayNorm == query || row.itemNorm == query
  }

  // ---------------------------------------------------------------- sorting by an equivalent key

  ghost predicate SameOrder<T(!new)>(f: T -> Candidate, g: T -> Candidate, s: seq<T>) {
    forall x, y :: x in s && y in s ==> (Less(f(x), f(y)) <==> Less(g(x), g(y)))
  }

  lemma {:induction false} InsertSameOrder<T(!new)>(f: T -> Candidate, g: T -> Candidate, x: T, s: seq<T>)
    requires SameOrder(f, g, s + [x])
    ensures Insert(f, x, s) == Insert(g, x, s)
  {
    if s != [] {
      var last := s[|s| - 1];
      assert last in s + [x] && x in s + [x];
      assert forall y :: y in s[..|s| - 1] + [x] ==> y in s + [x];
      InsertSameOrder(f, g, x, s[..|s| - 1]);
    }
  }

  lemma {:induction false} SortElements<T(!new)>(key: T -> Candidate, s: seq<T>)
    ensures forall x :: x in Sort(key, s) <==> x in s
  {
    if s != [] {
      SortElements(key, s[..|s| - 1]);
      InsertElements(key, s[|s| - 1], Sort(key, s[..|s| - 1]));
      assert s == s[..|s| - 1] + [s[|s| - 1]];
    }
  }

  lemma {:induction false} SortSameOrder<T(!new)>(f: T -> Candidate, g: T -> Candidate, s: seq<T>)
    requires SameOrder(f, g, s)
    ensures Sort(f, s) == Sort(g, s)
  {
    if s != [] {
      var front, x := s[..|s| - 1], s[|s| - 1];
      SortSameOrder(f, g, front);
      SortElements(f, front);
      assert forall y :: y in Sort(f, front) + [x] ==> y in s;
      InsertSameOrder(f, g, x, Sort(f, front));
    }
  }

  // ---------------------------------------------------------------- the SQL clauses mean what they should

  lemma RangeMeaning(query: Text, column: Text)
    ensures InRange(query, column) <==> query <= column
    ensures InCase(query, column) <==> query <= column
  {
    RangeIsPrefix(query, column);
  }

  /** On rows a column query selects, the SQL CASE is search_rank and SQL's order is the candidate's. */
  lemma PrefixOrderIsRank(query: Text, table: seq<Row>, s: seq<Row>)
    requires NulFree(table)
    requires forall row :: row in s ==> row in table && StartsWith(query)(row)
    ensures SameOrder(PrefixOrder(query), RowKey(query), s)
  {
    forall row | row in s ensures PrefixOrder(query)(row) == RowKey(query)(row) {
      RangeMeaning(query, row.displayNorm);
      RangeMeaning(query, row.itemNorm);
    }
  }

  lemma DisplayExactOrder(query: Text, s: seq<Row>)
    requires forall row :: row in s ==> row.displayNorm == query
    ensures SameOrder(ItemOrder(), RowKey(query), s)
  {
  }

  lemma ItemExactOrder(query: Text, table: seq<Row>, s: seq<Row>)
    requires NulFree(table)
    requires forall row :: row in s ==> row in table && OnlyItemIs(query)(row)
    ensures SameOrder(DisplayOrder(), RowKey(query), s)
  {
  }

  lemma KeyedRows(query: Text, table: seq<Row>, keep: Row -> bool)
    requires PrimaryKey(table)
    ensures Distinct(RowKey(query), table)
    ensures Distinct(RowKey(query), Filter(table, keep))
    ensures Elements(Filter(table, keep)) == Matching(table, keep)
  {
    FilterFacts(table, keep);
    var s := Filter(table, keep);
    assert NoDuplicates(table);
    forall i, j | 0 <= i < j < |s| ensures RowKey(query)(s[i]) != RowKey(query)(s[j]) {
      assert s[i] in table && s[j] in table && s[i] != s[j];
    }
  }

  lemma SameSet(query: Text, a: seq<Row>, b: seq<Row>, k: nat)
    requires Distinct(RowKey(query), a) && Distinct(RowKey(query), b)
    requires Elements(a) == Elements(b)
    ensures Ranked(RowKey(query), a, k) == Ranked(RowKey(query), b, k)
  {
    RankedIsTop(RowKey(query), a, k);
    TopIsRanked(RowKey(query), Ranked(RowKey(query), a, k), b, k);
  }

  // ---------------------------------------------------------------- merging two top-k lists

  /** What a full list leaves out comes after k elements of the union, so it cannot be among the first k. */
  lemma LeftOutComesAfter(key: Row -> Candidate, top: seq<Row>, s: set<Row>, r: seq<Row>, m: set<Row>, k: nat, x: Row, y: Row)
    requires IsTop(key, top, s, k) && IsTop(key, r, m, k)
    requires Elements(top) <= m
    requires x in s && x !in top
    requires y in r && key(x) != key(y)
    ensures Less(key(y), key(x))
  {
    LessTotal(key(x), key(y));
    if Less(key(x), key(y)) {
      SortedIsDistinct(key, top);
      SortedIsDistinct(key, r);
      DistinctCount(key, top);
      DistinctCount(key, r);
      forall z | z in top ensures z in r && z != y {
        assert AllAbove(key, top, x);
        LessTransitive(key(z), key(x), key(y));
        LessTotal(key(z), key(y));
        assert z in Elements(top);
        assert z !in r ==> AllAbove(key, r, z);
      }
      SubsetCardinality(Elements(top) + {y}, Elements(r));
      SubsetCardinality(Elements(top) + {x}, s);
    }
  }

  lemma FullOrComplete(key: Row -> Candidate, top: seq<Row>, s: set<Row>, k: nat)
    requires IsTop(key, top, s, k)
    ensures |top| == k || Elements(top) == s
  {
    SortedIsDistinct(key, top);
    DistinctCount(key, top);
    SubsetCardinality(Elements(top), s);
  }

  /** The first k of the union of two sets are the first k of what their own top-k lists hold. */
  lemma MergedTop(key: Row -> Candidate, a: seq<Row>, s: set<Row>, b: seq<Row>, t: set<Row>, r: seq<Row>, k: nat)
    requires IsTop(key, a, s, k) && IsTop(key, b, t, k)
    requires IsTop(key, r, Elements(a) + Elements(b), k)
    requires forall x, y :: x in s + t && y in s + t && key(x) == key(y) ==> x == y
    ensures IsTop(key, r, s + t, k)
  {
    var m := Elements(a) + Elements(b);
    FullOrComplete(key, a, s, k);
    FullOrComplete(key, b, t, k);
    SortedIsDistinct(key, a);
    SortedIsDistinct(key, b);
    DistinctCount(key, a);
    DistinctCount(key, b);
    SubsetCardinality(Elements(a), m);
    SubsetCardinality(Elements(b), m);
    SubsetCardinality(m, s + t);
    forall x | x in s + t && x !in r ensures AllAbove(key, r, x) {
      forall y | y in r ensures Less(key(y), key(x)) {
        assert y in Elements(r);
        if x in s && x !in a {
          LeftOutComesAfter(key, a, s, r, m, k, x, y);
        } else if x in t && x !in b {
          LeftOutComesAfter(key, b, t, r, m, k, x, y);
        } else {
          assert x in m && AllAbove(key, r, x);
        }
      }
    }
  }

  // ---------------------------------------------------------------- the candidate map

  ghost predicate ByItem(candidates: map<Text, Row>) {
    forall id :: id in candidates ==> candidates[id].itemId == id
  }

  ghost predicate SharedKey(s: set<Row>) {
    forall x, y :: x in s && y in s && x.itemId == y.itemId ==> x == y
  }

  lemma ValuesWith(m: map<Text, Row>, id: Text, row: Row)
    requires id !in m
    ensures m[id := row].Values == m.Values + {row}
  {
    forall v | v in m.Values ensures v in m[id := row].Values {
      var j :| j in m && m[j] == v;
      assert m[id := row][j] == v;
    }
    assert m[id := row][id] == row;
  }

  lemma SharedRows(table: seq<Row>, s: set<Row>)
    requires PrimaryKey(table) && forall row :: row in s ==> row in table
    ensures SharedKey(s)
  {
  }

  /** `candidates.entry(item_id).or_insert(row)` over the rows of one query. */
  method Gather(candidates: map<Text, Row>, rows: seq<Row>) returns (all: map<Text, Row>)
    requires ByItem(candidates)
    requires SharedKey(candidates.Values + Elements(rows))
    ensures ByItem(all)
    ensures all.Values == candidates.Values + Elements(rows)
  {
    all := candidates;
    for i := 0 to |rows|
      invariant ByItem(all)
      invariant all.Values == candidates.Values + Elements(rows[..i])
    {
      assert rows[..i + 1] == rows[..i] + [rows[i]];
      assert rows[i] in Elements(rows);
      if rows[i].itemId !in all {
        ValuesWith(all, rows[i].itemId, rows[i]);
        all := all[rows[i].itemId := rows[i]];
      } else {
        var held := all[rows[i].itemId];
        assert held in all.Values;
        assert held in candidates.Values + Elements(rows);
        assert held == rows[i];
      }
    }
    assert rows[..|rows|] == rows;
  }

  /** `into_values().collect()`: the rows in whatever order the hash map yields them. */
  method Collected(candidates: map<Text, Row>) returns (rows: seq<Row>)
    requires ByItem(candidates)
    ensures PrimaryKey(rows)
    ensures Elements(rows) == candidates.Values
  {
    rows := [];
    var left := candidates.Keys;
    while left != {}
      invariant left <= candidates.Keys && PrimaryKey(rows)
      invariant forall row :: row in rows ==> row.itemId in candidates.Keys - left && row == candidates[row.itemId]
      invariant forall id :: id in candidates.Keys - left ==> candidates[id] in rows
      decreases |left|
    {
      var id :| id in left;
      left := left - {id};
      rows := rows + [candidates[id]];
    }
  }

  /** Ranking the gathered rows of two top-k lists is ranking all the rows either query is about. */
  lemma MergedRank(table: seq<Row>, query: Text, keep: Row -> bool, a: seq<Row>, s: set<Row>, b: seq<Row>, t: set<Row>, merged: seq<Row>, k: nat)
    requires PrimaryKey(table) && PrimaryKey(merged)
    requires IsTop(RowKey(query), a, s, k) && IsTop(RowKey(query), b, t, k)
    requires s + t == Matching(table, keep)
    requires Elements(merged) == Elements(a) + Elements(b)
    ensures Ranked(RowKey(query), merged, k) == Ranked(RowKey(query), Filter(table, keep), k)
  {
    var key := RowKey(query);
    var r := Ranked(key, merged, k);
    KeyedRows(query, merged, keep);
    RankedIsTop(key, merged, k);
    MergedTop(key, a, s, b, t, r, k);
    KeyedRows(query, table, keep);
    TopIsRanked(key, r, Filter(table, keep), k);
  }

  // ---------------------------------------------------------------- prefix search

  lemma ColumnTop(table: seq<Row>, query: Text, keep: Row -> bool, k: nat)
    requires PrimaryKey(table) && NulFree(table)
    requires forall row :: keep(row) ==> StartsWith(query)(row)
    ensures IsTop(RowKey(query), Select(table, keep, PrefixOrder(query), k), Matching(table, keep), k)
  {
    KeyedRows(query, table, keep);
    var s := Filter(table, keep);
    assert forall row :: row in s ==> row in Elements(s);
    PrefixOrderIsRank(query, table, s);
    SortSameOrder(PrefixOrder(query), RowKey(query), s);
    RankedIsTop(RowKey(query), s, k);
  }

  lemma PrefixMerge(table: seq<Row>, query: Text, k: nat, merged: seq<Row>)
    requires PrimaryKey(table) && NulFree(table) && PrimaryKey(merged)
    requires Elements(merged) == Elements(Select(table, DisplayRange(query), PrefixOrder(query), k))
                                 + Elements(Select(table, ItemRange(query), PrefixOrder(query), k))
    ensures Ranked(RowKey(query), merged, k) == Ranked(RowKey(query), Filter(table, StartsWith(query)), k)
  {
    forall row: Row
      ensures DisplayRange(query)(row) <==> query <= row.displayNorm
      ensures ItemRange(query)(row) <==> query <= row.itemNorm
    {
      RangeMeaning(query, row.displayNorm);
      RangeMeaning(query, row.itemNorm);
    }
    ColumnTop(table, query, DisplayRange(query), k);
    ColumnTop(table, query, ItemRange(query), k);
    MergedRank(table, query, StartsWith(query),
               Select(table, DisplayRange(query), PrefixOrder(query), k), Matching(table, DisplayRange(query)),
               Select(table, ItemRange(query), PrefixOrder(query), k), Matching(table, ItemRange(query)), merged, k);
  }

  lemma SelectedFromTable(table: seq<Row>, keep: Row -> bool, order: Row -> Candidate, k: nat)
    ensures forall row :: row in Select(table, keep, order, k) ==> row in table && keep(row)
  {
    SortElements(order, Filter(table, keep));
    FilterFacts(table, keep);
  }

  method SearchPrefix(table: seq<Row>, query: Text, limit: nat) returns (rows: seq<Row>)
    requires PrimaryKey(table) && NulFree(table)
    ensures rows == Ranked(RowKey(query), Filter(table, StartsWith(query)), SaturatingSucc(limit))
    ensures TopPage(query, rows, table, StartsWith(query), SaturatingSucc(limit))
  {
    RankedIsTopPage(query, table, StartsWith(query), SaturatingSucc(limit));
    var k := SaturatingSucc(limit);
    var byDisplay := Select(table, DisplayRange(query), PrefixOrder(query), k);
    var byItem := Select(table, ItemRange(query), PrefixOrder(query), k);
    SelectedFromTable(table, DisplayRange(query), PrefixOrder(query), k);
    SelectedFromTable(table, ItemRange(query), PrefixOrder(query), k);
    SharedRows(table, Elements(byDisplay));
    var candidates := Gather(map[], byDisplay);
    SharedRows(table, candidates.Values + Elements(byItem));
    candidates := Gather(candidates, byItem);
    var merged := Collected(candidates);
    PrefixMerge(table, query, k, merged);
    rows := Ranked(RowKey(query), merged, k);
  }

  // ---------------------------------------------------------------- exact search

  lemma ExactTops(table: seq<Row>, query: Text, k: nat)
    requires PrimaryKey(table) && NulFree(table)
    ensures IsTop(RowKey(query), Select(table, DisplayIs(query), ItemOrder(), k),
                  Matching(table, DisplayIs(query)), k)
    ensures IsTop(RowKey(query), Select(table, OnlyItemIs(query), DisplayOrder(), k),
                  Matching(table, OnlyItemIs(query)), k)
  {
    var key := RowKey(query);
    var s, t := Filter(table, DisplayIs(query)), Filter(table, OnlyItemIs(query));
    KeyedRows(query, table, DisplayIs(query));
    KeyedRows(query, table, OnlyItemIs(query));
    assert forall row :: row in s ==> row in Elements(s);
    assert forall row :: row in t ==> row in Elements(t);
    DisplayExactOrder(query, s);
    SortSameOrder(ItemOrder(), key, s);
    RankedIsTop(key, s, k);
    ItemExactOrder(query, table, t);
    SortSameOrder(DisplayOrder(), key, t);
    RankedIsTop(key, t, k);
  }

  lemma ExactMerge(table: seq<Row>, query: Text, k: nat, merged: seq<Row>)
    requires PrimaryKey(table) && NulFree(table) && PrimaryKey(merged)
    requires Elements(merged) == Elements(Select(table, DisplayIs(query), ItemOrder(), k))
                                 + Elements(Select(table, OnlyItemIs(query), DisplayOrder(), k))
    ensures Ranked(RowKey(query), merged, k) == Ranked(RowKey(query), Filter(table, Equals(query)), k)
  {
    ExactTops(table, query, k);
    MergedRank(table, query, Equals(query),
               Select(table, DisplayIs(query), ItemOrder(), k), Matching(table, DisplayIs(query)),
               Select(table, OnlyItemIs(query), DisplayOrder(), k), Matching(table, OnlyItemIs(query)), merged, k);
  }

  /** When the display-name query is already full the second query could add nothing that ranks. */
  lemma ExactEarlyExit(table: seq<Row>, query: Text, k: nat, merged: seq<Row>)
    requires PrimaryKey(table) && NulFree(table) && PrimaryKey(merged)
    requires Elements(merged) == Elements(Select(table, DisplayIs(query), ItemOrder(), k))
    requires |Elements(merged)| >= k
    ensures Ranked(RowKey(query), merged, k) == Ranked(RowKey(query), Filter(table, Equals(query)), k)
  {
    var key := RowKey(query);
    var s := Matching(table, DisplayIs(query));
    ExactTops(table, query, k);
    var a := Select(table, DisplayIs(query), ItemOrder(), k);
    KeyedRows(query, merged, Equals(query));
    SortedIsDistinct(key, a);
    DistinctCount(key, a);
    SameSet(query, merged, a, k);
    assert IsTop(key, a, Elements(a), k);
    TopIsRanked(key, a, a, k);
    KeyedRows(query, table, Equals(query));
    var all := Elements(Filter(table, Equals(query)));
    SubsetCardinality(s, all);
    forall x | x in all && x !in a ensures AllAbove(key, a, x) {
      forall y | y in a ensures Less(key(y), key(x)) {
        assert y in Elements(a);
        if x in s {
          assert AllAbove(key, a, x);
        }
      }
    }
    TopIsRanked(key, a, Filter(table, Equals(query)), k);
  }

  method SearchExact(table: seq<Row>, query: Text, limit: nat) returns (rows: seq<Row>)
    requires PrimaryKey(table) && NulFree(table)
    ensures rows == Ranked(RowKey(query), Filter(table, Equals(query)), SaturatingSucc(limit))
    ensures TopPage(query, rows, table, Equals(query), SaturatingSucc(limit))
  {
    RankedIsTopPage(query, table, Equals(query), SaturatingSucc(limit));
    var k := SaturatingSucc(limit);
    var byDisplay := Select(table, DisplayIs(query), ItemOrder(), k);
    SelectedFromTable(table, DisplayIs(query), ItemOrder(), k);
    SharedRows(table, Elements(byDisplay));
    var candidates := Gather(map[], byDisplay);
    ByItemCount(candidates);
    if |candidates| < k {
      rows := FinishExact(table, query, k, candidates);
    } else {
      var merged := Collected(candidates);
      ExactEarlyExit(table, query, k, merged);
      rows := Ranked(RowKey(query), merged, k);
    }
  }

  method FinishExact(table: seq<Row>, query: Text, k: nat, first: map<Text, Row>) returns (rows: seq<Row>)
    requires PrimaryKey(table) && NulFree(table) && ByItem(first)
    requires first.Values == Elements(Select(table, DisplayIs(query), ItemOrder(), k))
    ensures rows == Ranked(RowKey(query), Filter(table, Equals(query)), k)
  {
    SelectedFromTable(table, DisplayIs(query), ItemOrder(), k);
    SelectedFromTable(table, OnlyItemIs(query), DisplayOrder(), k);
    var byItem := Select(table, OnlyItemIs(query), DisplayOrder(), k);
    SharedRows(table, first.Values + Elements(byItem));
    var candidates := Gather(first, byItem);
    var merged := Collected(candidates);
    ExactMerge(table, query, k, merged);
    rows := Ranked(RowKey(query), merged, k);
  }

  lemma {:induction false} ByItemCount(candidates: map<Text, Row>)
    requires ByItem(candidates)
    ensures |candidates.Values| == |candidates|
    decreases |candidates|
  {
    if candidates != map[] {
      assert candidates.Keys != {};
      var id :| id in candidates;
      var rest := candidates - {id};
      assert rest.Keys == candidates.Keys - {id};
      ByItemCount(rest);
      ValuesWith(rest, id, candidates[id]);
      assert rest[id := candidates[id]] == candidates;
      assert candidates[id] !in rest.Values;
    }
  }
}
