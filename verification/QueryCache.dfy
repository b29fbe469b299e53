/** The LRU cache of search answers. */
module QueryCache {
  import opened Prelude
  import opened IndexTables

  datatype CacheKey = CacheKey(server: string, generation: nat, query: string, mode: int, limit: nat)

  datatype Match = Match(itemId: string, displayName: string, kind: NodeKind, breadcrumbs: seq<string>)

  datatype Answer = Answer(matches: seq<Match>, hasMore: bool)

  // ---------------------------------------------------------------- the cache as a value

  datatype Cache = Cache(values: map<CacheKey, Answer>, order: seq<CacheKey>, capacity: nat)

  function Without(order: seq<CacheKey>, key: CacheKey): seq<CacheKey> {
    Filter(order, (k: CacheKey) => k != key)
  }

  function WithoutServer(order: seq<CacheKey>, server: string): seq<CacheKey> {
    Filter(order, (k: CacheKey) => k.server != server)
  }

  function Touched(order: seq<CacheKey>, key: CacheKey): seq<CacheKey> {
    Without(order, key) + [key]
  }

  function Newest(order: seq<CacheKey>, capacity: nat): seq<CacheKey> {
    if |order| <= capacity then order else order[|order| - capacity..]
  }

  function Inserted(c: Cache, key: CacheKey, answer: Answer): Cache {
    var order := Newest(Touched(c.order, key), c.capacity);
    c.(values := map k | k in c.values.Keys + {key} && k in order :: if k == key then answer else c.values[k],
       order := order)
  }

  function Used(c: Cache, key: CacheKey): Cache {
    if key in c.values then c.(order := Touched(c.order, key)) else c
  }

  function Cleared(c: Cache, server: string): Cache {
    c.(values := map k | k in c.values && k.server != server :: c.values[k],
       order := WithoutServer(c.order, server))
  }

  /** Keys and recency order agree, no key is listed twice, and the capacity is respected. */
  ghost predicate WellFormed(c: Cache) {
    (forall k :: k in c.values <==> k in c.order) && NoDuplicates(c.order) && |c.order| <= c.capacity
  }

  lemma TouchedFacts(order: seq<CacheKey>, key: CacheKey)
    requires NoDuplicates(order)
    ensures NoDuplicates(Touched(order, key))
    ensures forall k :: k in Touched(order, key) <==> k in order || k == key
    ensures key in order ==> |Touched(order, key)| <= |order|
  {
    FilterFacts(order, (k: CacheKey) => k != key);
    if key in order {
      ShorterWithout(order, key);
    }
  }

  lemma {:induction false} ShorterWithout(order: seq<CacheKey>, key: CacheKey)
    requires key in order
    ensures |Without(order, key)| < |order|
  {
    FilterFacts(order[1..], (k: CacheKey) => k != key);
    if order[0] != key {
      ShorterWithout(order[1..], key);
    }
  }

  /** Inserting keeps the form, changes no other cached answer, and makes the key the most recent. */
  lemma InsertKeepsForm(c: Cache, key: CacheKey, answer: Answer)
    requires WellFormed(c)
    ensures WellFormed(Inserted(c, key, answer))
    ensures var c' := Inserted(c, key, answer);
            (forall k :: k in c'.values && k != key ==> k in c.values && c'.values[k] == c.values[k]) &&
            (c.capacity > 0 ==> key in c'.values && c'.values[key] == answer && c'.order[|c'.order| - 1] == key)
  {
    TouchedFacts(c.order, key);
    var touched := Touched(c.order, key);
    var order := Newest(touched, c.capacity);
    assert forall k :: k in order ==> k in touched;
    if c.capacity > 0 {
      assert order[|order| - 1] == key;
    }
  }

  lemma {:induction false} WithoutOne(order: seq<CacheKey>, key: CacheKey)
    requires NoDuplicates(order)
    ensures key !in order ==> Without(order, key) == order
    ensures forall i :: 0 <= i < |order| && order[i] == key ==> Without(order, key) == order[..i] + order[i + 1..]
  {
    if order != [] {
      assert NoDuplicates(order[1..]);
      WithoutOne(order[1..], key);
      forall i | 0 <= i < |order| && order[i] == key
        ensures Without(order, key) == order[..i] + order[i + 1..]
      {
        if i == 0 {
          assert key !in order[1..];
          assert order[..0] == [];
        } else {
          assert order[1..][i - 1] == key && order[0] != key;
          assert order[..i] == [order[0]] + order[1..][..i - 1] && order[1..][i..] == order[i + 1..];
        }
      }
    }
  }

  /** While there is room for all, nothing is given up; the key goes last and the others keep their order. */
  lemma InsertWithRoom(c: Cache, key: CacheKey, answer: Answer)
    requires WellFormed(c) && c.capacity > 0 && (key in c.order || |c.order| < c.capacity)
    ensures Inserted(c, key, answer).order == Without(c.order, key) + [key]
    ensures Inserted(c, key, answer).values == c.values[key := answer]
  {
    TouchedFacts(c.order, key);
    if key !in c.order {
      WithoutOne(c.order, key);
    }
  }

  /** And otherwise the key used longest ago is. */
  lemma InsertEvictsOldest(c: Cache, key: CacheKey, answer: Answer)
    requires WellFormed(c) && c.capacity > 0 && key !in c.order && |c.order| == c.capacity
    ensures Inserted(c, key, answer).order == c.order[1..] + [key]
    ensures Inserted(c, key, answer).values == c.values[key := answer] - {c.order[0]}
  {
    WithoutOne(c.order, key);
    FullOrder(c.order, key);
    FullValues(c, key, answer);
  }

  lemma FullValues(c: Cache, key: CacheKey, answer: Answer)
    requires WellFormed(c) && c.order != [] && key !in c.order
    requires Newest(Touched(c.order, key), c.capacity) == c.order[1..] + [key]
    ensures Inserted(c, key, answer).values == c.values[key := answer] - {c.order[0]}
  {
    var values := c.values[key := answer] - {c.order[0]};
    forall k ensures k in values <==> k in c.order[1..] + [key] {
      AllButFirst(c.order, k);
    }
    EvictedIsInserted(c, key, answer, values);
  }

  lemma FullOrder(order: seq<CacheKey>, key: CacheKey)
    requires order != []
    ensures Newest(order + [key], |order|) == order[1..] + [key]
  {
  }

  lemma AllButFirst(order: seq<CacheKey>, k: CacheKey)
    requires order != [] && NoDuplicates(order)
    ensures k in order[1..] <==> k in order && k != order[0]
  {
    assert order == [order[0]] + order[1..];
  }

  lemma EvictedIsInserted(c: Cache, key: CacheKey, answer: Answer, values: map<CacheKey, Answer>)
    requires WellFormed(c)
    requires var order := Newest(Touched(c.order, key), c.capacity);
             (forall k :: k in values <==> k in order) &&
             (forall k :: k in values ==> k == key || k in c.values) &&
             (forall k :: k in values ==> values[k] == if k == key then answer else c.values[k])
    ensures values == Inserted(c, key, answer).values
  {
  }

  /** A hit makes its key the most recent, keeps the order of the others and changes no answer. */
  lemma UseKeepsForm(c: Cache, key: CacheKey)
    requires WellFormed(c)
    ensures WellFormed(Used(c, key)) && Used(c, key).values == c.values
    ensures key in c.values ==> Used(c, key).order == Without(c.order, key) + [key]
    ensures key !in c.values ==> Used(c, key) == c
  {
    TouchedFacts(c.order, key);
  }

  /** Clearing a server gives up its answers and no others. */
  lemma ClearKeepsForm(c: Cache, server: string)
    requires WellFormed(c)
    ensures WellFormed(Cleared(c, server))
    ensures forall k :: k in Cleared(c, server).values <==> k in c.values && k.server != server
    ensures forall k :: k in Cleared(c, server).values ==> Cleared(c, server).values[k] == c.values[k]
  {
    FilterFacts(c.order, (k: CacheKey) => k.server != server);
  }

  // ---------------------------------------------------------------- the cache object

  lemma PopFront(touched: seq<CacheKey>, order: seq<CacheKey>)
    requires NoDuplicates(touched) && 0 < |order| <= |touched| && order == touched[|touched| - |order|..]
    ensures order[1..] == touched[|touched| - (|order| - 1)..]
    ensures forall k :: k in order[1..] <==> k in order && k != order[0]
  {
  }

  class LruCache {
    var values: map<CacheKey, Answer>
    var order: seq<CacheKey>
    const capacity: nat

    constructor (capacity: nat)
      ensures this.capacity == capacity && State() == Cache(map[], [], capacity) && WellFormed(State())
    {
      this.capacity := capacity;
      values, order := map[], [];
    }

    function State(): Cache
      reads this
    {
      Cache(values, order, capacity)
    }

    method Get(key: CacheKey) returns (answer: Option<Answer>)
      requires WellFormed(State())
      modifies this
      ensures WellFormed(State()) && State() == Used(old(State()), key)
      ensures answer == if key in old(values) then Some(old(values)[key]) else None
    {
      if key !in values {
        return None;
      }
      UseKeepsForm(State(), key);
      answer := Some(values[key]);
      order := Without(order, key);
      order := order + [key];
    }

    method Insert(key: CacheKey, answer: Answer)
      requires WellFormed(State())
      modifies this
      ensures WellFormed(State()) && State() == Inserted(old(State()), key, answer)
    {
      InsertKeepsForm(State(), key, answer);
      TouchedFacts(order, key);
      values := values[key := answer];
      order := Without(order, key);
      order := order + [key];
      Evict();
      EvictedIsInserted(old(State()), key, answer, values);
    }

    /** Drop the least recently used keys until the capacity holds. */
    method Evict()
      requires NoDuplicates(order) && forall k :: k in values <==> k in order
      modifies this
      ensures order == Newest(old(order), capacity)
      ensures forall k :: k in values <==> k in order
      ensures forall k :: k in values ==> k in old(values) && values[k] == old(values)[k]
    {
      ghost var all, kept := order, values;
      while |order| > capacity
        invariant Min(capacity, |all|) <= |order| <= |all|
        invariant order == all[|all| - |order|..]
        invariant forall k :: k in values <==> k in order
        invariant forall k :: k in values ==> k in kept && values[k] == kept[k]
        decreases |order|
      {
        PopFront(all, order);
        values := values - {order[0]};
        order := order[1..];
      }
    }

    method ClearServer(server: string)
      requires WellFormed(State())
      modifies this
      ensures WellFormed(State()) && State() == Cleared(old(State()), server)
    {
      ClearKeepsForm(State(), server);
      values := map k | k in values && k.server != server :: values[k];
      order := WithoutServer(order, server);
    }
  }
}
