/**
  The full-text path of a search: a heap bounded to limit + 1 candidates scanned over the MATCH rows, the
  join back to `entries`, and the has_more flag every path derives from asking for one row too many.
*/
module FullText {
  import opened Prelude
  import opened Utf8Prefix
  import opened Ranking
  import opened RankedSearch

  function Self(): Candidate -> Candidate {
    (c: Candidate) => c
  }

  function HitCandidate(query: Text, normalize: Text -> Text, hit: FtsHit): Candidate {
    CandidateFor(query, hit.itemId, normalize(hit.itemId), normalize(hit.displayName))
  }

  function HitCandidates(query: Text, normalize: Text -> Text, hits: seq<FtsHit>): (r: seq<Candidate>)
    ensures |r| == |hits|
  {
    if hits == [] then []
    else HitCandidates(query, normalize, hits[..|hits| - 1]) + [HitCandidate(query, normalize, hits[|hits| - 1])]
  }

  // ---------------------------------------------------------------- the bounded heap

  /** Sorted, equal candidates allowed. */
  ghost predicate Ordered(s: seq<Candidate>) {
    forall i, j :: 0 <= i < j < |s| ==> s[i] == s[j] || Less(s[i], s[j])
  }

  lemma {:induction false} InsertOrdered(x: Candidate, s: seq<Candidate>)
    requires Ordered(s)
    ensures Ordered(Insert(Self(), x, s))
  {
    if s != [] {
      var last, front := s[|s| - 1], s[..|s| - 1];
      LessTotal(x, last);
      if Less(x, last) {
        InsertOrdered(x, front);
        InsertElements(Self(), x, front);
        var r := Insert(Self(), x, front);
        assert forall y :: y in front ==> y == last || Less(y, last);
        assert forall i :: 0 <= i < |r| ==> r[i] in r && (r[i] == last || Less(r[i], last));
      } else {
        forall y | y in s ensures y == x || Less(y, x) {
          if y != last && x != last {
            LessTransitive(y, last, x);
          }
        }
      }
    }
  }

  lemma {:induction false} SortOrdered(s: seq<Candidate>)
    ensures Ordered(Sort(Self(), s))
  {
    if s != [] {
      SortOrdered(s[..|s| - 1]);
      InsertOrdered(s[|s| - 1], Sort(Self(), s[..|s| - 1]));
    }
  }

  lemma {:induction false} InsertBefore(x: Candidate, a: seq<Candidate>, b: seq<Candidate>)
    requires forall y :: y in b ==> Less(x, y)
    ensures Insert(Self(), x, a + b) == Insert(Self(), x, a) + b
  {
    if b == [] {
      assert a + b == a;
    } else {
      var last, front := b[|b| - 1], b[..|b| - 1];
      InsertBefore(x, a, front);
      assert (a + b)[..|a + b| - 1] == a + front;
      assert b == front + [last];
    }
  }

  lemma {:induction false} InsertAfter(x: Candidate, a: seq<Candidate>, b: seq<Candidate>)
    requires a != [] && !Less(x, a[|a| - 1])
    ensures a <= Insert(Self(), x, a + b)
  {
    if b == [] {
      assert a + b == a;
    } else {
      InsertAfter(x, a, b[..|b| - 1]);
      assert (a + b)[..|a + b| - 1] == a + b[..|b| - 1];
    }
  }

  /** One row more: push while there is room, otherwise replace the worst if the new row beats it. */
  function Offer(heap: seq<Candidate>, x: Candidate, k: nat): seq<Candidate> {
    if |heap| < k then Insert(Self(), x, heap)
    else if heap != [] && Less(x, heap[|heap| - 1]) then Insert(Self(), x, heap[..|heap| - 1])
    else heap
  }

  lemma OfferBetter(all: seq<Candidate>, x: Candidate, k: nat)
    requires Ordered(all) && 0 < k <= |all| && Less(x, all[k - 1])
    ensures Insert(Self(), x, all)[..k] == Insert(Self(), x, all[..k - 1])
  {
    var tail := all[k - 1..];
    TailAfter(all, x, k);
    InsertBefore(x, all[..k - 1], tail);
    assert all == all[..k - 1] + tail;
  }

  lemma TailAfter(all: seq<Candidate>, x: Candidate, k: nat)
    requires Ordered(all) && 0 < k <= |all| && Less(x, all[k - 1])
    ensures forall y :: y in all[k - 1..] ==> Less(x, y)
  {
    var tail := all[k - 1..];
    forall y | y in tail ensures Less(x, y) {
      var i :| 0 <= i < |tail| && tail[i] == y;
      if y != all[k - 1] {
        assert all[k - 1 + i] == y;
        LessTransitive(x, all[k - 1], y);
      }
    }
  }

  lemma OfferWorse(all: seq<Candidate>, x: Candidate, k: nat)
    requires 0 < k <= |all| && !Less(x, all[k - 1])
    ensures Insert(Self(), x, all)[..k] == all[..k]
  {
  }

  lemma HeapStep(seen: seq<Candidate>, x: Candidate, k: nat)
    requires k > 0
    ensures Ranked(Self(), seen + [x], k) == Offer(Ranked(Self(), seen, k), x, k)
  {
    var all := Sort(Self(), seen);
    SortOrdered(seen);
    assert (seen + [x])[..|seen|] == seen;
    assert Sort(Self(), seen + [x]) == Insert(Self(), x, all);
    if |all| >= k {
      assert all[..k][..k - 1] == all[..k - 1];
      if Less(x, all[k - 1]) {
        OfferBetter(all, x, k);
      } else {
        OfferWorse(all, x, k);
      }
    }
  }

  // ---------------------------------------------------------------- the search

  /** The entry of each candidate, in order; a candidate whose row is gone is skipped. */
  function Joined(candidates: seq<Candidate>, entries: map<Text, Row>): seq<Row> {
    if candidates == [] then []
    else
      var rest := Joined(candidates[..|candidates| - 1], entries);
      var id := candidates[|candidates| - 1].itemId;
      if id in entries then rest + [entries[id]] else rest
  }

  /** The heap is kept as the sorted list of what it holds: peek and pop act on the last element. */
  method ScanHits(hits: seq<FtsHit>, normalize: Text -> Text, query: Text, capacity: nat) returns (heap: seq<Candidate>)
    requires capacity > 0
    ensures heap == Ranked(Self(), HitCandidates(query, normalize, hits), capacity)
  {
    heap := [];
    for i := 0 to |hits|
      invariant heap == Ranked(Self(), HitCandidates(query, normalize, hits[..i]), capacity)
    {
      var candidate := HitCandidate(query, normalize, hits[i]);
      HeapStep(HitCandidates(query, normalize, hits[..i]), candidate, capacity);
      assert hits[..i + 1][..i] == hits[..i];
      if |heap| < capacity {
        heap := Insert(Self(), candidate, heap);
      } else if Less(candidate, heap[|heap| - 1]) {
        heap := heap[..|heap| - 1];
        heap := Insert(Self(), candidate, heap);
      }
    }
    assert hits[..|hits|] == hits;
  }

  method SearchFullText(hits: seq<FtsHit>, entries: map<Text, Row>, normalize: Text -> Text, query: Text, limit: nat)
    returns (rows: seq<Row>)
    ensures rows == Joined(Ranked(Self(), HitCandidates(query, normalize, hits), SaturatingSucc(limit)), entries)
  {
    var best := ScanHits(hits, normalize, query, SaturatingSucc(limit));
    rows := [];
    for i := 0 to |best|
      invariant rows == Joined(best[..i], entries)
    {
      assert best[..i + 1][..i] == best[..i];
      if best[i].itemId in entries {
        rows := rows + [entries[best[i].itemId]];
      }
    }
    assert best[..|best|] == best;
  }

  function KeysOf(query: Text, rows: seq<Row>): (r: seq<Candidate>)
    ensures |r| == |rows|
    ensures forall i :: 0 <= i < |rows| ==> r[i] == RowKey(query)(rows[i])
  {
    seq(|rows|, i requires 0 <= i < |rows| => RowKey(query)(rows[i]))
  }

  lemma {:induction false} InsertKeys(query: Text, x: Row, s: seq<Row>)
    ensures Insert(Self(), RowKey(query)(x), KeysOf(query, s)) == KeysOf(query, Insert(RowKey(query), x, s))
  {
    if s != [] && Less(RowKey(query)(x), RowKey(query)(s[|s| - 1])) {
      InsertKeys(query, x, s[..|s| - 1]);
      assert KeysOf(query, s)[..|s| - 1] == KeysOf(query, s[..|s| - 1]);
    }
  }

  lemma {:induction false} SortKeys(query: Text, s: seq<Row>)
    ensures Sort(Self(), KeysOf(query, s)) == KeysOf(query, Sort(RowKey(query), s))
  {
    if s != [] {
      SortKeys(query, s[..|s| - 1]);
      assert KeysOf(query, s)[..|s| - 1] == KeysOf(query, s[..|s| - 1]);
      InsertKeys(query, s[|s| - 1], Sort(RowKey(query), s[..|s| - 1]));
    }
  }

  lemma {:induction false} JoinedKeys(query: Text, rows: seq<Row>, entries: map<Text, Row>)
    requires forall row :: row in rows ==> row.itemId in entries && entries[row.itemId] == row
    ensures Joined(KeysOf(query, rows), entries) == rows
  {
    if rows != [] {
      var front := rows[..|rows| - 1];
      JoinedKeys(query, front, entries);
      assert KeysOf(query, rows)[..|rows| - 1] == KeysOf(query, front);
      assert rows == front + [rows[|rows| - 1]];
    }
  }

  /** The row's stored columns are the normal forms insert_entries computed. */
  predicate Normalized(normalize: Text -> Text, row: Row) {
    row.itemNorm == normalize(row.itemId) && row.displayNorm == normalize(row.displayName)
  }

  function HitsOf(rows: seq<Row>): (r: seq<FtsHit>)
    ensures |r| == |rows|
  {
    if rows == [] then []
    else HitsOf(rows[..|rows| - 1]) + [FtsHit(rows[|rows| - 1].itemId, rows[|rows| - 1].displayName)]
  }

  lemma {:induction false} HitKeys(query: Text, normalize: Text -> Text, rows: seq<Row>)
    requires forall row :: row in rows ==> Normalized(normalize, row)
    ensures HitCandidates(query, normalize, HitsOf(rows)) == KeysOf(query, rows)
  {
    if rows != [] {
      var front := rows[..|rows| - 1];
      HitKeys(query, normalize, front);
      assert HitsOf(rows)[..|rows| - 1] == HitsOf(front);
      assert Normalized(normalize, rows[|rows| - 1]);
      assert HitCandidate(query, normalize, HitsOf(rows)[|rows| - 1]) == RowKey(query)(rows[|rows| - 1]);
      assert KeysOf(query, rows) == KeysOf(query, front) + [RowKey(query)(rows[|rows| - 1])];
    }
  }

  /** When the full-text rows are those of the generation's entries, whatever order MATCH yields them in,
      the join loses nothing and the answer is the candidate-ordered list of matching entries, cut. */
  lemma FullTextIsRanked(
    table: seq<Row>, entries: map<Text, Row>, keep: Row -> bool, found: seq<Row>,
    normalize: Text -> Text, query: Text, k: nat)
    requires PrimaryKey(table) && PrimaryKey(found)
    requires forall row :: row in table ==> Normalized(normalize, row)
    requires forall row :: row in table ==> row.itemId in entries && entries[row.itemId] == row
    requires Elements(found) == Matching(table, keep)
    ensures Joined(Ranked(Self(), HitCandidates(query, normalize, HitsOf(found)), k), entries)
            == Ranked(RowKey(query), Filter(table, keep), k)
  {
    assert forall row :: row in found ==> row in Elements(found);
    HitKeys(query, normalize, found);
    SortKeys(query, found);
    var sorted := Sort(RowKey(query), found);
    SortElements(RowKey(query), found);
    assert Take(KeysOf(query, sorted), k) == KeysOf(query, Take(sorted, k));
    JoinedKeys(query, Take(sorted, k), entries);
    KeyedRows(query, found, keep);
    KeyedRows(query, table, keep);
    SameSet(query, found, Filter(table, keep), k);
  }

  /** So it is the page a client expects: best rank first, then the shorter display name, then by code points. */
  lemma FullTextPage(
    table: seq<Row>, entries: map<Text, Row>, keep: Row -> bool, found: seq<Row>,
    normalize: Text -> Text, query: Text, k: nat)
    requires PrimaryKey(table) && PrimaryKey(found)
    requires forall row :: row in table ==> Normalized(normalize, row)
    requires forall row :: row in table ==> row.itemId in entries && entries[row.itemId] == row
    requires Elements(found) == Matching(table, keep)
    ensures TopPage(query, Joined(Ranked(Self(), HitCandidates(query, normalize, HitsOf(found)), k), entries),
                    table, keep, k)
  {
    FullTextIsRanked(table, entries, keep, found, normalize, query, k);
    RankedIsTopPage(query, table, keep, k);
  }

  // ---------------------------------------------------------------- has_more

  /** The tail of IndexManager::search: one row too many was asked for, and tells whether there is more.
      At the largest limit no extra row can be asked for, so the flag is then always false. */
  method Answer(ghost key: Row -> Candidate, ghost all: seq<Row>, found: seq<Row>, limit: nat)
    returns (page: seq<Row>, hasMore: bool)
    requires limit <= U32_MAX
    requires found == Ranked(key, all, SaturatingSucc(limit))
    ensures page == Ranked(key, all, limit)
    ensures hasMore == (|all| > limit) <==> limit < U32_MAX || |all| <= U32_MAX
    ensures limit == U32_MAX ==> !hasMore
  {
    hasMore := |found| > limit;
    page := Take(found, limit);
  }
}
