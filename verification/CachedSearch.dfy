/**
  The cache and the searches together: the engine of CacheRuns made from the exact, prefix, full-text and
  LIKE searches over the tables' rows, each SQL statement reading the rows as they are when it runs.
*/
module CachedSearch {
  import opened Prelude
  import opened Utf8Prefix
  import opened Ranking
  import opened RankedSearch
  import opened FullText
  import opened LikeSearch
  import I = IndexTables
  import Q = QueryCache
  import C = CacheRuns

  // ---------------------------------------------------------------- rows of the tables, as searched

  function AllCodes(s: seq<string>): (t: seq<Text>)
    ensures |t| == |s| && forall i :: 0 <= i < |s| ==> t[i] == Codes(s[i])
  {
    seq(|s|, i requires 0 <= i < |s| => Codes(s[i]))
  }

  function AllChars(t: seq<Text>): (s: seq<string>)
    ensures |s| == |t| && forall i :: 0 <= i < |t| ==> s[i] == Chars(t[i])
  {
    seq(|t|, i requires 0 <= i < |t| => Chars(t[i]))
  }

  function KindNumber(kind: I.NodeKind): int {
    if kind.Item? then 1 else 2
  }

  type Normalizer = Text -> Text

  /** MATCH as an arbitrary test of a full-text row, and the JSON text of breadcrumbs. */
  datatype Matcher = Matcher(hits: (string, I.FtsRow) -> bool, json: Json)

  function RowOf(normalize: Normalizer, e: I.Entry): Row {
    Row(Codes(e.itemId), Codes(e.displayName), normalize(Codes(e.itemId)), normalize(Codes(e.displayName)),
        KindNumber(e.kind), AllCodes(e.breadcrumbs))
  }

  function MatchOf(row: Row): Q.Match {
    Q.Match(Chars(row.itemId), Chars(row.displayName), if row.kind == 1 then I.Item else I.BranchAndItem,
            AllChars(row.breadcrumbs))
  }

  lemma MatchOfRow(normalize: Normalizer, e: I.Entry)
    ensures MatchOf(RowOf(normalize, e)) == Q.Match(e.itemId, e.displayName, e.kind, e.breadcrumbs)
  {
    CharsOfCodes(e.itemId);
    CharsOfCodes(e.displayName);
    var row := RowOf(normalize, e);
    forall i | 0 <= i < |e.breadcrumbs| ensures AllChars(row.breadcrumbs)[i] == e.breadcrumbs[i] {
      CharsOfCodes(e.breadcrumbs[i]);
    }
  }

  /** Some order of a finite set: SQLite's own, which nothing depends on. */
  ghost function Listing<K(!new)>(s: set<K>): (r: seq<K>)
    ensures NoDuplicates(r) && Elements(r) == s
  {
    if s == {} then []
    else
      var x :| x in s;
      var rest := Listing(s - {x});
      assert x !in Elements(rest) && Elements(rest + [x]) == Elements(rest) + {x};
      rest + [x]
  }

  ghost function TableOf(normalize: Normalizer, rows: I.Rows): (t: seq<Row>)
    ensures |t| == |Listing(rows.entries.Keys)|
  {
    var keys := Listing(rows.entries.Keys);
    assert forall i :: 0 <= i < |keys| ==> keys[i] in Elements(keys);
    seq(|keys|, i requires 0 <= i < |keys| => RowOf(normalize, rows.entries[keys[i]]))
  }

  /** Rows of one generation, each entry under its own ItemID. */
  ghost predicate WellKeyed(g: I.GenKey, rows: I.Rows) {
    forall e :: e in rows.entries ==> e.gen == g && rows.entries[e].itemId == e.itemId
  }

  lemma TablePrimary(normalize: Normalizer, g: I.GenKey, rows: I.Rows)
    requires WellKeyed(g, rows)
    ensures PrimaryKey(TableOf(normalize, rows))
  {
    var keys, t := Listing(rows.entries.Keys), TableOf(normalize, rows);
    forall i, j | 0 <= i < j < |t| ensures t[i].itemId != t[j].itemId {
      assert keys[i] in Elements(keys) && keys[j] in Elements(keys);
      CharsOfCodes(keys[i].itemId);
      CharsOfCodes(keys[j].itemId);
    }
  }

  lemma TableMembers(normalize: Normalizer, rows: I.Rows, row: Row)
    ensures row in TableOf(normalize, rows) <==> exists e :: e in rows.entries && row == RowOf(normalize, rows.entries[e])
  {
    var keys, t := Listing(rows.entries.Keys), TableOf(normalize, rows);
    if row in t {
      var i :| 0 <= i < |t| && t[i] == row;
      assert keys[i] in Elements(keys);
    }
    forall e | e in rows.entries && row == RowOf(normalize, rows.entries[e]) ensures row in t {
      assert e in Elements(keys);
      var i :| 0 <= i < |keys| && keys[i] == e;
      assert t[i] == row;
    }
  }

  // ---------------------------------------------------------------- one search, statement by statement

  /** The rows the i-th statement of a search saw. */
  function At(seen: seq<I.Rows>, i: nat): I.Rows
    requires seen != []
  {
    if i < |seen| then seen[i] else seen[|seen| - 1]
  }

  /** `or_insert`: the rows of both queries, the first one's kept where both have an ItemID. */
  function NotIn(a: seq<Row>): Row -> bool {
    (row: Row) => forall i :: 0 <= i < |a| ==> a[i].itemId != row.itemId
  }

  function Merged(a: seq<Row>, b: seq<Row>): seq<Row> {
    a + Filter(b, NotIn(a))
  }

  ghost function Hits(rows: I.Rows, query: string, matcher: Matcher): (h: seq<FtsHit>)
    ensures |h| == |Listing(Hit(rows, query, matcher))|
  {
    var ids := Listing(Hit(rows, query, matcher));
    assert forall i :: 0 <= i < |ids| ==> ids[i] in Elements(ids);
    seq(|ids|, i requires 0 <= i < |ids| => FtsHit(Codes(rows.fts[ids[i]].itemId), Codes(rows.fts[ids[i]].displayName)))
  }

  function Hit(rows: I.Rows, query: string, matcher: Matcher): set<nat> {
    set r | r in rows.fts && matcher.hits(query, rows.fts[r])
  }

  /** The join of a full-text search: one statement per candidate, after the MATCH statement. */
  function JoinedOver(normalize: Normalizer, g: I.GenKey, candidates: seq<Candidate>, seen: seq<I.Rows>): seq<Row>
    requires seen != []
  {
    if candidates == [] then []
    else
      var rest := JoinedOver(normalize, g, candidates[..|candidates| - 1], seen);
      var rows := At(seen, |candidates|);
      var id := I.EntryKey(g, Chars(candidates[|candidates| - 1].itemId));
      if id in rows.entries then rest + [RowOf(normalize, rows.entries[id])] else rest
  }

  ghost function Found(normalize: Normalizer, matcher: Matcher, seen: seq<I.Rows>, key: Q.CacheKey): seq<Row>
    requires seen != []
  {
    var query, k := Codes(key.query), SaturatingSucc(key.limit);
    var first, second := TableOf(normalize, At(seen, 0)), TableOf(normalize, At(seen, 1));
    if key.mode == 1 then
      var byDisplay := Select(first, DisplayIs(query), ItemOrder(), k);
      if |byDisplay| >= k then Ranked(RowKey(query), byDisplay, k)
      else Ranked(RowKey(query), Merged(byDisplay, Select(second, OnlyItemIs(query), DisplayOrder(), k)), k)
    else if key.mode == 2 then
      Ranked(RowKey(query), Merged(Select(first, DisplayRange(query), PrefixOrder(query), k),
                                   Select(second, ItemRange(query), PrefixOrder(query), k)), k)
    else if FullTextUsable(key.query) then
      JoinedOver(normalize, C.GenOf(key),
                 Ranked(Self(), HitCandidates(query, normalize, Hits(At(seen, 0), key.query, matcher)), k), seen)
    else Select(first, LikeWanted(matcher.json, key.query), LikeOrder(key.query), k)
  }

  function MatchesOf(rows: seq<Row>): (m: seq<Q.Match>)
    ensures |m| == |rows| && forall i :: 0 <= i < |rows| ==> m[i] == MatchOf(rows[i])
  {
    seq(|rows|, i requires 0 <= i < |rows| => MatchOf(rows[i]))
  }

  function AnswerFrom(found: seq<Row>, limit: nat): Q.Answer {
    Q.Answer(MatchesOf(Take(found, limit)), |found| > limit)
  }

  ghost function SearchEngine(normalize: Normalizer, matcher: Matcher): C.Engine {
    (seen: seq<I.Rows>, key: Q.CacheKey) =>
      if seen == [] then Q.Answer([], false) else AnswerFrom(Found(normalize, matcher, seen, key), key.limit)
  }

  // ---------------------------------------------------------------- it is stable

  lemma AtRepeat(rows: I.Rows, n: nat, i: nat)
    requires 0 < n
    ensures C.Repeat(rows, n) != [] && At(C.Repeat(rows, n), i) == rows
  {
  }

  lemma {:induction false} JoinedRepeat(
    normalize: Normalizer, g: I.GenKey, candidates: seq<Candidate>, rows: I.Rows, n: nat, m: nat)
    requires 0 < n && 0 < m
    ensures JoinedOver(normalize, g, candidates, C.Repeat(rows, n)) == JoinedOver(normalize, g, candidates, C.Repeat(rows, m))
  {
    AtRepeat(rows, n, |candidates|);
    AtRepeat(rows, m, |candidates|);
    if candidates != [] {
      JoinedRepeat(normalize, g, candidates[..|candidates| - 1], rows, n, m);
    }
  }

  lemma FoundRepeat(normalize: Normalizer, matcher: Matcher, rows: I.Rows, n: nat, m: nat, key: Q.CacheKey)
    requires 0 < n && 0 < m
    ensures Found(normalize, matcher, C.Repeat(rows, n), key) == Found(normalize, matcher, C.Repeat(rows, m), key)
  {
    AtRepeat(rows, n, 0);
    AtRepeat(rows, m, 0);
    AtRepeat(rows, n, 1);
    AtRepeat(rows, m, 1);
    JoinedRepeat(normalize, C.GenOf(key),
                 Ranked(Self(), HitCandidates(Codes(key.query), normalize, Hits(rows, key.query, matcher)),
                        SaturatingSucc(key.limit)), rows, n, m);
  }

  lemma SearchIsStable(normalize: Normalizer, matcher: Matcher)
    ensures C.Stable(SearchEngine(normalize, matcher))
  {
    var engine := SearchEngine(normalize, matcher);
    forall rows, n, m, key | 0 < n && 0 < m
      ensures engine(C.Repeat(rows, n), key) == engine(C.Repeat(rows, m), key)
    {
      FoundRepeat(normalize, matcher, rows, n, m, key);
    }
  }

  // ---------------------------------------------------------------- what it answers on rows that stand still

  lemma SubsetPrimary(table: seq<Row>, a: seq<Row>)
    requires PrimaryKey(table) && NoDuplicates(a) && forall row :: row in a ==> row in table
    ensures PrimaryKey(a)
  {
    forall i, j | 0 <= i < j < |a| ensures a[i].itemId != a[j].itemId {
      assert a[i] in table && a[j] in table;
    }
  }

  lemma MergedFacts(table: seq<Row>, a: seq<Row>, b: seq<Row>)
    requires PrimaryKey(table) && NoDuplicates(a) && NoDuplicates(b)
    requires (forall row :: row in a ==> row in table) && (forall row :: row in b ==> row in table)
    ensures PrimaryKey(Merged(a, b)) && Elements(Merged(a, b)) == Elements(a) + Elements(b)
  {
    FilterFacts(b, NotIn(a));
    SubsetPrimary(table, a);
    SubsetPrimary(table, Filter(b, NotIn(a)));
    MergedElements(table, a, b);
    var m, rest := Merged(a, b), Filter(b, NotIn(a));
    forall i, j | 0 <= i < j < |m| ensures m[i].itemId != m[j].itemId {
      if i < |a| <= j {
        assert rest[j - |a|] in rest && NotIn(a)(m[j]);
      }
    }
  }

  lemma MergedElements(table: seq<Row>, a: seq<Row>, b: seq<Row>)
    requires PrimaryKey(table)
    requires (forall row :: row in a ==> row in table) && (forall row :: row in b ==> row in table)
    ensures Elements(Merged(a, b)) == Elements(a) + Elements(b)
  {
    FilterFacts(b, NotIn(a));
    forall row | row in b && !NotIn(a)(row) ensures row in a {
      var i :| 0 <= i < |a| && a[i].itemId == row.itemId;
      assert a[i] in table && row in table;
    }
  }

  lemma TopDistinct(query: Text, top: seq<Row>, s: set<Row>, k: nat)
    requires IsTop(RowKey(query), top, s, k)
    ensures NoDuplicates(top)
  {
    SortedIsDistinct(RowKey(query), top);
  }

  lemma ExactAlone(table: seq<Row>, query: Text, k: nat)
    requires PrimaryKey(table) && NulFree(table)
    ensures var first := Select(table, DisplayIs(query), ItemOrder(), k);
            Ranked(RowKey(query), Filter(table, Equals(query)), k) ==
            if |first| >= k then Ranked(RowKey(query), first, k)
            else Ranked(RowKey(query), Merged(first, Select(table, OnlyItemIs(query), DisplayOrder(), k)), k)
  {
    var a, b := Select(table, DisplayIs(query), ItemOrder(), k), Select(table, OnlyItemIs(query), DisplayOrder(), k);
    ExactTops(table, query, k);
    TopDistinct(query, a, Matching(table, DisplayIs(query)), k);
    TopDistinct(query, b, Matching(table, OnlyItemIs(query)), k);
    SelectedFromTable(table, DisplayIs(query), ItemOrder(), k);
    SelectedFromTable(table, OnlyItemIs(query), DisplayOrder(), k);
    if |a| >= k {
      SubsetPrimary(table, a);
      ElementCount(a);
      ExactEarlyExit(table, query, k, a);
    } else {
      MergedFacts(table, a, b);
      ExactMerge(table, query, k, Merged(a, b));
    }
  }

  lemma RangesStart(query: Text)
    ensures forall row :: DisplayRange(query)(row) || ItemRange(query)(row) ==> StartsWith(query)(row)
  {
    forall row | DisplayRange(query)(row) || ItemRange(query)(row) ensures StartsWith(query)(row) {
      RangeMeaning(query, row.displayNorm);
      RangeMeaning(query, row.itemNorm);
    }
  }

  lemma PrefixAlone(table: seq<Row>, query: Text, k: nat)
    requires PrimaryKey(table) && NulFree(table)
    ensures Ranked(RowKey(query), Filter(table, StartsWith(query)), k) ==
            Ranked(RowKey(query), Merged(Select(table, DisplayRange(query), PrefixOrder(query), k),
                                         Select(table, ItemRange(query), PrefixOrder(query), k)), k)
  {
    var a, b := Select(table, DisplayRange(query), PrefixOrder(query), k), Select(table, ItemRange(query), PrefixOrder(query), k);
    RangesStart(query);
    ColumnTop(table, query, DisplayRange(query), k);
    ColumnTop(table, query, ItemRange(query), k);
    TopDistinct(query, a, Matching(table, DisplayRange(query)), k);
    TopDistinct(query, b, Matching(table, ItemRange(query)), k);
    SelectedFromTable(table, DisplayRange(query), PrefixOrder(query), k);
    SelectedFromTable(table, ItemRange(query), PrefixOrder(query), k);
    MergedFacts(table, a, b);
    PrefixMerge(table, query, k, Merged(a, b));
  }

  // Full text.

  /** Full-text rows and entries of the generation name the same items, once each. */
  ghost predicate InStep(g: I.GenKey, rows: I.Rows) {
    && WellKeyed(g, rows)
    && (forall r :: r in rows.fts ==>
          I.EntryKey(g, rows.fts[r].itemId) in rows.entries &&
          rows.fts[r] == I.FtsOf(g, rows.entries[I.EntryKey(g, rows.fts[r].itemId)]))
    && (forall r, q :: r in rows.fts && q in rows.fts && rows.fts[r].itemId == rows.fts[q].itemId ==> r == q)
    && (forall e :: e in rows.entries ==> exists r :: r in rows.fts && rows.fts[r].itemId == e.itemId)
  }

  function MatchText(g: I.GenKey, query: string, matcher: Matcher): Row -> bool {
    (row: Row) => matcher.hits(query, I.FtsRow(g, Chars(row.itemId), Chars(row.displayName), AllChars(row.breadcrumbs)))
  }

  /** The entry behind a full-text row. */
  function EntryOf(g: I.GenKey, rows: I.Rows, r: nat): I.Entry
    requires r in rows.fts && I.EntryKey(g, rows.fts[r].itemId) in rows.entries
  {
    rows.entries[I.EntryKey(g, rows.fts[r].itemId)]
  }

  lemma MatchTextOfRow(normalize: Normalizer, g: I.GenKey, query: string, matcher: Matcher, e: I.Entry)
    ensures MatchText(g, query, matcher)(RowOf(normalize, e)) == matcher.hits(query, I.FtsOf(g, e))
  {
    MatchOfRow(normalize, e);
  }

  ghost function RowsHit(normalize: Normalizer, g: I.GenKey, rows: I.Rows, ids: seq<nat>): (s: seq<Row>)
    requires InStep(g, rows) && forall r :: r in ids ==> r in rows.fts
    ensures |s| == |ids| && forall i :: 0 <= i < |ids| ==> s[i] == RowOf(normalize, EntryOf(g, rows, ids[i]))
  {
    seq(|ids|, i requires 0 <= i < |ids| => RowOf(normalize, EntryOf(g, rows, ids[i])))
  }

  lemma {:induction false} HitsAre(rows: seq<Row>, hits: seq<FtsHit>)
    requires |rows| == |hits|
    requires forall i :: 0 <= i < |rows| ==> hits[i] == FtsHit(rows[i].itemId, rows[i].displayName)
    ensures HitsOf(rows) == hits
  {
    if rows != [] {
      var n := |rows| - 1;
      HitsAre(rows[..n], hits[..n]);
      assert hits == hits[..n] + [hits[n]];
    }
  }

  lemma RowsHitFacts(normalize: Normalizer, g: I.GenKey, rows: I.Rows, query: string, matcher: Matcher)
    requires InStep(g, rows)
    ensures var ids := Listing(Hit(rows, query, matcher));
            (forall r :: r in ids ==> r in rows.fts) &&
            HitsOf(RowsHit(normalize, g, rows, ids)) == Hits(rows, query, matcher) &&
            PrimaryKey(RowsHit(normalize, g, rows, ids))
  {
    var ids := Listing(Hit(rows, query, matcher));
    assert forall r :: r in ids ==> r in Elements(ids);
    var found := RowsHit(normalize, g, rows, ids);
    HitsAre(found, Hits(rows, query, matcher));
    forall i, j | 0 <= i < j < |found| ensures found[i].itemId != found[j].itemId {
      assert ids[i] in ids && ids[j] in ids;
      CharsOfCodes(rows.fts[ids[i]].itemId);
      CharsOfCodes(rows.fts[ids[j]].itemId);
    }
  }

  lemma RowsHitMembers(normalize: Normalizer, g: I.GenKey, rows: I.Rows, query: string, matcher: Matcher, row: Row)
    requires InStep(g, rows)
    requires forall r :: r in Listing(Hit(rows, query, matcher)) ==> r in rows.fts
    ensures row in RowsHit(normalize, g, rows, Listing(Hit(rows, query, matcher))) <==>
            row in TableOf(normalize, rows) && MatchText(g, query, matcher)(row)
  {
    var ids := Listing(Hit(rows, query, matcher));
    var found := RowsHit(normalize, g, rows, ids);
    TableMembers(normalize, rows, row);
    if row in found {
      var i :| 0 <= i < |found| && found[i] == row;
      assert ids[i] in Elements(ids);
      MatchTextOfRow(normalize, g, query, matcher, EntryOf(g, rows, ids[i]));
    }
    if row in TableOf(normalize, rows) && MatchText(g, query, matcher)(row) {
      var e :| e in rows.entries && row == RowOf(normalize, rows.entries[e]);
      MatchTextOfRow(normalize, g, query, matcher, rows.entries[e]);
      var r :| r in rows.fts && rows.fts[r].itemId == e.itemId;
      assert EntryOf(g, rows, r) == rows.entries[e];
      assert r in Elements(ids);
      var i :| 0 <= i < |ids| && ids[i] == r;
      assert found[i] == row;
    }
  }

  ghost function ById(table: seq<Row>): map<Text, Row> {
    if table == [] then map[]
    else ById(table[..|table| - 1])[table[|table| - 1].itemId := table[|table| - 1]]
  }

  lemma {:induction false} ByIdFacts(table: seq<Row>)
    requires PrimaryKey(table)
    ensures forall row :: row in table ==> row.itemId in ById(table) && ById(table)[row.itemId] == row
    ensures forall id :: id in ById(table) ==> ById(table)[id] in table && ById(table)[id].itemId == id
  {
    if table != [] {
      var front, last := table[..|table| - 1], table[|table| - 1];
      ByIdFacts(front);
      assert table == front + [last];
      assert forall row :: row in front ==> row.itemId != last.itemId;
    }
  }

  lemma ByIdIsEntries(normalize: Normalizer, g: I.GenKey, rows: I.Rows, id: Text)
    requires WellKeyed(g, rows)
    ensures id in ById(TableOf(normalize, rows)) <==> I.EntryKey(g, Chars(id)) in rows.entries
    ensures id in ById(TableOf(normalize, rows)) ==>
              ById(TableOf(normalize, rows))[id] == RowOf(normalize, rows.entries[I.EntryKey(g, Chars(id))])
  {
    var table := TableOf(normalize, rows);
    TablePrimary(normalize, g, rows);
    ByIdFacts(table);
    assert Codes(Chars(id)) == id;
    var e := I.EntryKey(g, Chars(id));
    if e in rows.entries {
      TableMembers(normalize, rows, RowOf(normalize, rows.entries[e]));
    }
    if id in ById(table) {
      TableMembers(normalize, rows, ById(table)[id]);
      var e' :| e' in rows.entries && ById(table)[id] == RowOf(normalize, rows.entries[e']);
      CharsOfCodes(e'.itemId);
    }
  }

  lemma {:induction false} JoinedAlone(normalize: Normalizer, g: I.GenKey, rows: I.Rows, candidates: seq<Candidate>)
    requires WellKeyed(g, rows)
    ensures JoinedOver(normalize, g, candidates, [rows]) == Joined(candidates, ById(TableOf(normalize, rows)))
  {
    if candidates != [] {
      JoinedAlone(normalize, g, rows, candidates[..|candidates| - 1]);
      ByIdIsEntries(normalize, g, rows, candidates[|candidates| - 1].itemId);
    }
  }

  lemma TextAlone(normalize: Normalizer, g: I.GenKey, rows: I.Rows, query: string, matcher: Matcher, k: nat)
    requires InStep(g, rows)
    ensures JoinedOver(normalize, g,
                       Ranked(Self(), HitCandidates(Codes(query), normalize, Hits(rows, query, matcher)), k), [rows])
            == Ranked(RowKey(Codes(query)), Filter(TableOf(normalize, rows), MatchText(g, query, matcher)), k)
  {
    var table := TableOf(normalize, rows);
    RowsHitFacts(normalize, g, rows, query, matcher);
    var found := RowsHit(normalize, g, rows, Listing(Hit(rows, query, matcher)));
    forall row ensures row in Elements(found) <==> row in Matching(table, MatchText(g, query, matcher)) {
      RowsHitMembers(normalize, g, rows, query, matcher, row);
    }
    TablePrimary(normalize, g, rows);
    ByIdFacts(table);
    forall row | row in table ensures Normalized(normalize, row) {
      TableMembers(normalize, rows, row);
    }
    FullTextIsRanked(table, ById(table), MatchText(g, query, matcher), found, normalize, Codes(query), k);
    JoinedAlone(normalize, g, rows, Ranked(Self(), HitCandidates(Codes(query), normalize, Hits(rows, query, matcher)), k));
  }

  // ---------------------------------------------------------------- the search methods

  /** IndexDb::search on rows that stand still: which of the searches runs, and that `Found` is what it
      returns. */
  method Search(table: seq<Row>, hits: seq<FtsHit>, entries: map<Text, Row>, normalize: Normalizer, matcher: Matcher,
                ghost rows: I.Rows, key: Q.CacheKey)
    returns (found: seq<Row>)
    requires WellKeyed(C.GenOf(key), rows)
    requires table == TableOf(normalize, rows) && entries == ById(table)
    requires hits == Hits(rows, key.query, matcher)
    requires key.mode == 1 || key.mode == 2 ==> NulFree(table)
    ensures found == Found(normalize, matcher, [rows], key)
  {
    var query := Codes(key.query);
    ghost var k := SaturatingSucc(key.limit);
    TablePrimary(normalize, C.GenOf(key), rows);
    if key.mode == 1 {
      found := SearchExact(table, query, key.limit);
      ExactAlone(table, query, k);
    } else if key.mode == 2 {
      found := SearchPrefix(table, query, key.limit);
      PrefixAlone(table, query, k);
    } else if FullTextUsable(key.query) {
      found := SearchFullText(hits, entries, normalize, query, key.limit);
      JoinedAlone(normalize, C.GenOf(key), rows, Ranked(Self(), HitCandidates(query, normalize, hits), k));
    } else {
      found := Select(table, LikeWanted(matcher.json, key.query), LikeOrder(key.query), SaturatingSucc(key.limit));
    }
  }

  // ---------------------------------------------------------------- what a cached answer is

  /** The rows a search is about. */
  function Wanted(matcher: Matcher, key: Q.CacheKey): Row -> bool {
    if key.mode == 1 then Equals(Codes(key.query))
    else if key.mode == 2 then StartsWith(Codes(key.query))
    else if FullTextUsable(key.query) then MatchText(C.GenOf(key), key.query, matcher)
    else LikeWanted(matcher.json, key.query)
  }

  /** The order it puts them in. */
  function OrderFor(key: Q.CacheKey): Row -> Candidate {
    if key.mode == 1 || key.mode == 2 || FullTextUsable(key.query) then RowKey(Codes(key.query))
    else LikeOrder(key.query)
  }

  lemma FoundAlone(normalize: Normalizer, matcher: Matcher, rows: I.Rows, key: Q.CacheKey)
    requires InStep(C.GenOf(key), rows)
    requires key.mode == 1 || key.mode == 2 ==> NulFree(TableOf(normalize, rows))
    ensures Found(normalize, matcher, [rows], key) ==
            Ranked(OrderFor(key), Filter(TableOf(normalize, rows), Wanted(matcher, key)), SaturatingSucc(key.limit))
  {
    var table, query, k := TableOf(normalize, rows), Codes(key.query), SaturatingSucc(key.limit);
    TablePrimary(normalize, C.GenOf(key), rows);
    if key.mode == 1 {
      ExactAlone(table, query, k);
    } else if key.mode == 2 {
      PrefixAlone(table, query, k);
    } else if FullTextUsable(key.query) {
      TextAlone(normalize, C.GenOf(key), rows, key.query, matcher, k);
    }
  }

  lemma ContentInStep(t: I.Tables, g: I.GenKey)
    requires I.TablesInv(t) && I.InState(t, g, I.Active)
    ensures InStep(g, I.Content(t, g))
  {
    assert !I.Obsolete(t, g) && I.Synced(t, g);
    var rows := I.Content(t, g);
    forall e | e in rows.entries ensures exists r :: r in rows.fts && rows.fts[r].itemId == e.itemId {
      assert e in I.FtsKeys(t.fts);
      var r :| r in t.fts && I.EntryKey(t.fts[r].gen, t.fts[r].itemId) == e;
      assert r in rows.fts;
    }
    assert forall r, q :: r in rows.fts && q in rows.fts && rows.fts[r].itemId == rows.fts[q].itemId ==>
             I.SameItem(t.fts[r], t.fts[q]);
  }

  /** In every interleaving of searches, builds, promotions and cleanup: what the cache holds for the active
      generation is the first `limit` of the rows the search is about, in its order, and the flag says whether
      there are more. */
  lemma CachedAnswerIsRanked(
    normalize: Normalizer, matcher: Matcher, states: seq<C.State>, steps: seq<C.Step>, capacity: nat, i: nat, key: Q.CacheKey)
    requires C.Run(SearchEngine(normalize, matcher), states, steps, capacity) && i < |states|
    requires key in states[i].cache.values && I.InState(states[i].base.tables, C.GenOf(key), I.Active)
    requires key.limit < U32_MAX
    requires key.mode == 1 || key.mode == 2 ==>
               NulFree(TableOf(normalize, I.Content(states[i].base.tables, C.GenOf(key))))
    ensures var table := TableOf(normalize, I.Content(states[i].base.tables, C.GenOf(key)));
            var all := Filter(table, Wanted(matcher, key));
            states[i].cache.values[key] ==
            Q.Answer(MatchesOf(Ranked(OrderFor(key), all, key.limit)), |all| > key.limit)
    ensures var table := TableOf(normalize, I.Content(states[i].base.tables, C.GenOf(key)));
            var page := Ranked(OrderFor(key), Filter(table, Wanted(matcher, key)), key.limit);
            states[i].cache.values[key].matches == MatchesOf(page) && PageFor(matcher, key, page, table)
  {
    var rows := I.Content(states[i].base.tables, C.GenOf(key));
    SearchIsStable(normalize, matcher);
    C.CacheIsTransparent(SearchEngine(normalize, matcher), states, steps, capacity, i, key);
    ActiveInStep(normalize, matcher, states, steps, capacity, i, C.GenOf(key));
    EngineAlone(normalize, matcher, rows, key);
    OrderedPage(normalize, matcher, rows, key);
  }

  /** The page is what a client expects of its search: the first rows it is about, best rank first, then the
      shortest display name, then by code points; a LIKE page in the order of its own clause. */
  ghost predicate PageFor(matcher: Matcher, key: Q.CacheKey, page: seq<Row>, table: seq<Row>) {
    if key.mode == 1 || key.mode == 2 || FullTextUsable(key.query)
    then TopPage(Codes(key.query), page, table, Wanted(matcher, key), key.limit)
    else IsPage(LikeOrder(key.query), page, Filter(table, Wanted(matcher, key)), key.limit)
  }

  lemma OrderedPage(normalize: Normalizer, matcher: Matcher, rows: I.Rows, key: Q.CacheKey)
    requires InStep(C.GenOf(key), rows)
    ensures var table := TableOf(normalize, rows);
            PageFor(matcher, key, Ranked(OrderFor(key), Filter(table, Wanted(matcher, key)), key.limit), table)
  {
    var table := TableOf(normalize, rows);
    TablePrimary(normalize, C.GenOf(key), rows);
    RankedIsTopPage(Codes(key.query), table, Wanted(matcher, key), key.limit);
    RankedIsPage(LikeOrder(key.query), Filter(table, Wanted(matcher, key)), key.limit);
  }

  lemma ActiveInStep(
    normalize: Normalizer, matcher: Matcher, states: seq<C.State>, steps: seq<C.Step>, capacity: nat, i: nat, g: I.GenKey)
    requires C.Run(SearchEngine(normalize, matcher), states, steps, capacity) && i < |states|
    requires I.InState(states[i].base.tables, g, I.Active)
    ensures InStep(g, I.Content(states[i].base.tables, g))
  {
    SearchIsStable(normalize, matcher);
    C.RunInv(SearchEngine(normalize, matcher), states, steps, capacity, i);
    ContentInStep(states[i].base.tables, g);
  }

  /** A search that runs alone. */
  lemma EngineAlone(normalize: Normalizer, matcher: Matcher, rows: I.Rows, key: Q.CacheKey)
    requires InStep(C.GenOf(key), rows) && key.limit < U32_MAX
    requires key.mode == 1 || key.mode == 2 ==> NulFree(TableOf(normalize, rows))
    ensures var all := Filter(TableOf(normalize, rows), Wanted(matcher, key));
            SearchEngine(normalize, matcher)(C.Repeat(rows, 1), key) ==
            Q.Answer(MatchesOf(Ranked(OrderFor(key), all, key.limit)), |all| > key.limit)
  {
    assert C.Repeat(rows, 1) == [rows];
    FoundAlone(normalize, matcher, rows, key);
    CutOnce(OrderFor(key), Filter(TableOf(normalize, rows), Wanted(matcher, key)), key.limit);
  }

  lemma CutOnce(order: Row -> Candidate, all: seq<Row>, limit: nat)
    requires limit < U32_MAX
    ensures Take(Ranked(order, all, SaturatingSucc(limit)), limit) == Ranked(order, all, limit)
    ensures |Ranked(order, all, SaturatingSucc(limit))| > limit <==> |all| > limit
  {
  }
}
