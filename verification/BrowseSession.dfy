/**
  One browse session: opaque continuation tokens and cached pages, each in a map with a bounded FIFO, and
  why a page served from the cache carries a token the session still accepts.
*/
module BrowseSession {
  import opened Prelude

  const MAX_CACHED_PAGES: nat := 256
  const MAX_PAGE_BINDINGS: nat := 256

  type Token = nat
  type NodeKey = nat

  datatype PageKey = PageKey(parent: Option<NodeKey>, token: Option<Token>, size: nat)

  datatype PageBinding = PageBinding(native: string, parent: Option<NodeKey>, size: nat)

  datatype Page = Page(nodes: seq<NodeKey>, next: Option<Token>)

  datatype View = View(
    bindings: map<Token, PageBinding>, bindingOrder: seq<Token>,
    pages: map<PageKey, Page>, pageOrder: seq<PageKey>)

  const EMPTY: View := View(map[], [], map[], [])

  // ---------------------------------------------------------------- what the operations compute

  /** The entries a FIFO keeps when it may hold at most `bound`. */
  function Newest<X>(s: seq<X>, bound: nat): seq<X> {
    if |s| > bound then s[|s| - bound..] else s
  }

  function Restrict<K, V>(m: map<K, V>, order: seq<K>): (r: map<K, V>)
    ensures r.Keys == set k | k in m && k in order
    ensures forall k :: k in r ==> r[k] == m[k]
  {
    map k | k in m && k in order :: m[k]
  }

  function OtherThan(key: PageKey): PageKey -> bool {
    (k: PageKey) => k != key
  }

  function OutsideOf(parent: Option<NodeKey>): PageKey -> bool {
    (k: PageKey) => k.parent != parent
  }

  function BoundIn(bindings: map<Token, PageBinding>): Token -> bool {
    (t: Token) => t in bindings
  }

  function Bind(v: View, token: Token, binding: PageBinding): View {
    var order := Newest(v.bindingOrder + [token], MAX_PAGE_BINDINGS);
    v.(bindings := Restrict(v.bindings[token := binding], order), bindingOrder := order)
  }

  function Cache(v: View, key: PageKey, page: Page): View {
    var order := Newest(Filter(v.pageOrder, OtherThan(key)) + [key], MAX_CACHED_PAGES);
    v.(pages := Restrict(v.pages[key := page], order), pageOrder := order)
  }

  function Invalidate(v: View, parent: Option<NodeKey>): View {
    var bindings := map t | t in v.bindings && v.bindings[t].parent != parent :: v.bindings[t];
    View(
      bindings, Filter(v.bindingOrder, BoundIn(bindings)),
      map k | k in v.pages && k.parent != parent :: v.pages[k],
      Filter(v.pageOrder, OutsideOf(parent)))
  }

  /** The last critical section of browse_existing: bind the continuation, if any, then cache the page. */
  function Store(v: View, key: PageKey, page: Page, native: string): View {
    var bound := if page.next.None? then v else Bind(v, page.next.value, PageBinding(native, key.parent, key.size));
    Cache(bound, key, page)
  }

  /** The checks browse_existing makes of a continuation token. */
  predicate Accepts(v: View, parent: Option<NodeKey>, token: Token, size: nat) {
    token in v.bindings && v.bindings[token].parent == parent && v.bindings[token].size == size
  }

  // ---------------------------------------------------------------- the invariant

  /** The continuation tokens of the cached pages, oldest page first. */
  function Tokens(order: seq<PageKey>, pages: map<PageKey, Page>): seq<Token> {
    if order == [] then []
    else
      var rest := Tokens(order[..|order| - 1], pages);
      var key := order[|order| - 1];
      if key in pages && pages[key].next.Some? then rest + [pages[key].next.value] else rest
  }

  function CachedTokens(v: View): seq<Token> {
    Tokens(v.pageOrder, v.pages)
  }

  ghost predicate IsSuffix<X(!new)>(a: seq<X>, b: seq<X>) {
    |a| <= |b| && b[|b| - |a|..] == a
  }

  /** Both FIFOs list exactly the keys of their maps, once each, and stay within bounds. */
  ghost predicate Bounded(v: View) {
    && NoDuplicates(v.pageOrder) && Elements(v.pageOrder) == v.pages.Keys
    && |v.pageOrder| <= MAX_CACHED_PAGES
    && NoDuplicates(v.bindingOrder) && Elements(v.bindingOrder) == v.bindings.Keys
    && |v.bindingOrder| <= MAX_PAGE_BINDINGS
  }

  /** Every cached page's continuation is one the session would accept for that parent and size. */
  ghost predicate Live(v: View) {
    forall k :: k in v.pages && v.pages[k].next.Some? ==> Accepts(v, k.parent, v.pages[k].next.value, k.size)
  }

  ghost predicate Linked(v: View) {
    Bounded(v) && Live(v) && IsSuffix(CachedTokens(v), v.bindingOrder)
  }

  // ---------------------------------------------------------------- sequences

  lemma NewestFacts<X(!new)>(s: seq<X>, bound: nat)
    ensures IsSuffix(Newest(s, bound), s)
    ensures |Newest(s, bound)| == Min(|s|, bound)
    ensures NoDuplicates(s) ==> NoDuplicates(Newest(s, bound))
    ensures forall x :: x in Newest(s, bound) ==> x in s
  {
  }

  lemma {:induction false} FilterConcat<X(!new)>(a: seq<X>, b: seq<X>, keep: X -> bool)
    ensures Filter(a + b, keep) == Filter(a, keep) + Filter(b, keep)
  {
    if a == [] {
      assert a + b == b;
    } else {
      FilterConcat(a[1..], b, keep);
      assert (a + b)[1..] == a[1..] + b;
    }
  }

  lemma FilterSuffix<X(!new)>(a: seq<X>, b: seq<X>, keep: X -> bool)
    requires IsSuffix(a, b)
    ensures IsSuffix(Filter(a, keep), Filter(b, keep))
  {
    assert b == b[..|b| - |a|] + a;
    FilterConcat(b[..|b| - |a|], a, keep);
  }

  lemma {:induction false} FilterAll<X(!new)>(s: seq<X>, keep: X -> bool)
    requires forall x :: x in s ==> keep(x)
    ensures Filter(s, keep) == s
  {
    if s != [] {
      FilterAll(s[1..], keep);
    }
  }

  lemma {:induction false} FilterSame<X(!new)>(s: seq<X>, f: X -> bool, g: X -> bool)
    requires forall x :: x in s ==> f(x) == g(x)
    ensures Filter(s, f) == Filter(s, g)
  {
    if s != [] {
      FilterSame(s[1..], f, g);
    }
  }

  // ---------------------------------------------------------------- token lists

  lemma {:induction false} TokensConcat(a: seq<PageKey>, b: seq<PageKey>, pages: map<PageKey, Page>)
    ensures Tokens(a + b, pages) == Tokens(a, pages) + Tokens(b, pages)
  {
    if b == [] {
      assert a + b == a;
    } else {
      TokensConcat(a, b[..|b| - 1], pages);
      assert (a + b)[..|a + b| - 1] == a + b[..|b| - 1];
    }
  }

  lemma {:induction false} TokensFrame(order: seq<PageKey>, p: map<PageKey, Page>, q: map<PageKey, Page>)
    requires forall k :: k in order ==> (k in p <==> k in q) && (k in p ==> p[k] == q[k])
    ensures Tokens(order, p) == Tokens(order, q)
  {
    if order != [] {
      TokensFrame(order[..|order| - 1], p, q);
    }
  }

  lemma {:induction false} TokenOrigin(order: seq<PageKey>, pages: map<PageKey, Page>)
    ensures |Tokens(order, pages)| <= |order|
    ensures forall k :: k in order && k in pages && pages[k].next.Some? ==> pages[k].next.value in Tokens(order, pages)
  {
    if order != [] {
      TokenOrigin(order[..|order| - 1], pages);
      assert order == order[..|order| - 1] + [order[|order| - 1]];
    }
  }

  lemma TokensNewest(order: seq<PageKey>, pages: map<PageKey, Page>, bound: nat)
    ensures IsSuffix(Tokens(Newest(order, bound), pages), Tokens(order, pages))
  {
    if |order| > bound {
      var n := |order| - bound;
      assert order == order[..n] + order[n..];
      TokensConcat(order[..n], order[n..], pages);
    }
  }

  lemma {:induction false} TokenSource(order: seq<PageKey>, pages: map<PageKey, Page>, t: Token) returns (k: PageKey)
    requires t in Tokens(order, pages)
    ensures k in order && k in pages && pages[k].next == Some(t)
  {
    k := order[|order| - 1];
    if !(k in pages && pages[k].next == Some(t)) {
      k := TokenSource(order[..|order| - 1], pages, t);
    }
  }

  lemma {:induction false} TokenOwner(order: seq<PageKey>, pages: map<PageKey, Page>, j: PageKey, k: PageKey)
    requires NoDuplicates(Tokens(order, pages))
    requires j in order && k in order && j in pages && k in pages && j != k
    requires pages[j].next.Some? && pages[k].next.Some?
    ensures pages[j].next != pages[k].next
  {
    var last, front := order[|order| - 1], order[..|order| - 1];
    var rest := Tokens(front, pages);
    var all := Tokens(order, pages);
    assert order == front + [last];
    TokenOrigin(front, pages);
    assert rest == all[..|rest|];
    if j != last && k != last {
      TokenOwner(front, pages, j, k);
    } else {
      assert all == rest + [all[|all| - 1]];
    }
  }

  // ---------------------------------------------------------------- storing a page

  ghost predicate FreshToken(v: View, page: Page) {
    page.next.Some? ==> page.next.value !in v.bindings
  }

  function NextTokens(page: Page): seq<Token> {
    if page.next.Some? then [page.next.value] else []
  }

  lemma NewestAppend<X(!new)>(s: seq<X>, x: X, bound: nat)
    requires bound > 0 && NoDuplicates(s) && x !in s
    ensures NoDuplicates(Newest(s + [x], bound)) && x in Newest(s + [x], bound)
    ensures |Newest(s + [x], bound)| <= bound
    ensures forall y :: y in Newest(s + [x], bound) ==> y == x || y in s
  {
    var order := Newest(s + [x], bound);
    assert order[|order| - 1] == x;
    NewestFacts(s + [x], bound);
  }

  lemma BindFacts(v: View, token: Token, binding: PageBinding)
    requires Bounded(v) && token !in v.bindings
    ensures Bounded(Bind(v, token, binding))
    ensures token in Bind(v, token, binding).bindings && Bind(v, token, binding).bindings[token] == binding
  {
    assert token !in Elements(v.bindingOrder);
    NewestAppend(v.bindingOrder, token, MAX_PAGE_BINDINGS);
    assert forall t :: t in v.bindingOrder ==> t in Elements(v.bindingOrder);
  }

  function Kept(v: View, key: PageKey): seq<PageKey> {
    Filter(v.pageOrder, OtherThan(key))
  }

  lemma CacheBounded(v: View, key: PageKey, page: Page)
    requires Bounded(v)
    ensures Bounded(Cache(v, key, page))
    ensures key in Cache(v, key, page).pages && Cache(v, key, page).pages[key] == page
  {
    var kept := Kept(v, key);
    FilterFacts(v.pageOrder, OtherThan(key));
    assert !OtherThan(key)(key);
    assert key !in kept;
    NewestAppend(kept, key, MAX_CACHED_PAGES);
    assert forall k :: k in v.pageOrder ==> k in Elements(v.pageOrder);
  }

  /** Storing a page keeps both FIFOs in step with their maps and within their bounds. */
  lemma StoreBounded(v: View, key: PageKey, page: Page, native: string)
    requires Bounded(v) && FreshToken(v, page)
    ensures Bounded(Store(v, key, page, native))
    ensures key in Store(v, key, page, native).pages && Store(v, key, page, native).pages[key] == page
  {
    if page.next.Some? {
      BindFacts(v, page.next.value, PageBinding(native, key.parent, key.size));
      CacheBounded(Bind(v, page.next.value, PageBinding(native, key.parent, key.size)), key, page);
    } else {
      CacheBounded(v, key, page);
    }
  }

  /** A binding still listed is unchanged. */
  ghost predicate KeepsBindings(v: View, w: View) {
    forall t :: t in w.bindingOrder && t in v.bindings ==> t in w.bindings && w.bindings[t] == v.bindings[t]
  }

  /** The binding side of a store: the order gains the new token and gives up only its oldest. */
  lemma StoreBindings(v: View, key: PageKey, page: Page, native: string)
    requires Bounded(v) && FreshToken(v, page)
    ensures Store(v, key, page, native).bindingOrder == Newest(v.bindingOrder + NextTokens(page), MAX_PAGE_BINDINGS)
    ensures KeepsBindings(v, Store(v, key, page, native))
    ensures page.next.Some? ==> Accepts(Store(v, key, page, native), key.parent, page.next.value, key.size)
  {
    StoreBounded(v, key, page, native);
    if page.next.Some? {
      BindFacts(v, page.next.value, PageBinding(native, key.parent, key.size));
    } else {
      assert v.bindingOrder + [] == v.bindingOrder;
    }
    assert forall t :: t in v.bindingOrder ==> t in Elements(v.bindingOrder);
    var w := Store(v, key, page, native);
    assert forall t :: t in w.bindingOrder ==> t in Elements(w.bindingOrder);
  }

  /** Live follows once the cached tokens are a suffix of the bindings kept. */
  lemma SuffixIsLive(v: View, key: PageKey, page: Page, native: string)
    requires Bounded(v) && Live(v) && FreshToken(v, page)
    requires IsSuffix(CachedTokens(Store(v, key, page, native)), Store(v, key, page, native).bindingOrder)
    ensures Live(Store(v, key, page, native))
  {
    var w := Store(v, key, page, native);
    StoreBounded(v, key, page, native);
    StoreBindings(v, key, page, native);
    TokenOrigin(w.pageOrder, w.pages);
    forall k | k in w.pages && w.pages[k].next.Some? ensures Accepts(w, k.parent, w.pages[k].next.value, k.size) {
      if k != key {
        assert k in Elements(w.pageOrder);
        assert w.pages[k] == v.pages[k];
        assert Accepts(v, k.parent, v.pages[k].next.value, k.size);
      }
    }
  }

  lemma {:induction false} TokensWithin(order: seq<PageKey>, pages: map<PageKey, Page>, key: PageKey, page: Page)
    requires key !in order
    ensures Tokens(order + [key], pages[key := page]) == Tokens(order, pages) + NextTokens(page)
  {
    TokensFrame(order, pages, pages[key := page]);
    assert (order + [key])[..|order|] == order;
  }

  /** The page side of a store: the tokens of the pages kept, then the new one, less what eviction drops. */
  lemma StoreTokens(v: View, key: PageKey, page: Page, native: string)
    ensures |CachedTokens(Store(v, key, page, native))| <= MAX_CACHED_PAGES
    ensures IsSuffix(CachedTokens(Store(v, key, page, native)), Tokens(Kept(v, key), v.pages) + NextTokens(page))
    ensures |Kept(v, key)| < MAX_CACHED_PAGES ==>
              CachedTokens(Store(v, key, page, native)) == Tokens(Kept(v, key), v.pages) + NextTokens(page)
  {
    var w := Store(v, key, page, native);
    var pages := v.pages[key := page];
    var order := Kept(v, key) + [key];
    FilterFacts(v.pageOrder, OtherThan(key));
    assert !OtherThan(key)(key);
    NewestFacts(order, MAX_CACHED_PAGES);
    TokensFrame(w.pageOrder, w.pages, pages);
    TokensNewest(order, pages, MAX_CACHED_PAGES);
    TokensWithin(Kept(v, key), v.pages, key, page);
    TokenOrigin(w.pageOrder, w.pages);
  }

  lemma FreshTokens(v: View, key: PageKey, page: Page, native: string)
    requires Bounded(v) && key !in v.pages
    ensures |CachedTokens(Store(v, key, page, native))| <= MAX_CACHED_PAGES
    ensures IsSuffix(CachedTokens(Store(v, key, page, native)), CachedTokens(v) + NextTokens(page))
  {
    StoreTokens(v, key, page, native);
    assert key !in Elements(v.pageOrder);
    FilterAll(v.pageOrder, OtherThan(key));
  }

  lemma SuffixAppend<X(!new)>(a: seq<X>, b: seq<X>, c: seq<X>)
    requires IsSuffix(a, b)
    ensures IsSuffix(a + c, b + c)
  {
  }

  lemma SuffixTransitive<X(!new)>(a: seq<X>, b: seq<X>, c: seq<X>)
    requires IsSuffix(a, b) && IsSuffix(b, c)
    ensures IsSuffix(a, c)
  {
  }

  lemma SuffixOfNewest<X(!new)>(a: seq<X>, s: seq<X>, bound: nat)
    requires IsSuffix(a, s) && |a| <= bound
    ensures IsSuffix(a, Newest(s, bound))
  {
  }

  /** A page stored under a key that is not cached keeps every continuation usable. */
  lemma StoreLinked(v: View, key: PageKey, page: Page, native: string)
    requires Linked(v) && key !in v.pages && FreshToken(v, page)
    ensures Linked(Store(v, key, page, native))
    ensures key in Store(v, key, page, native).pages && Store(v, key, page, native).pages[key] == page
  {
    var w := Store(v, key, page, native);
    StoreBounded(v, key, page, native);
    StoreBindings(v, key, page, native);
    FreshTokens(v, key, page, native);
    var next := NextTokens(page);
    SuffixAppend(CachedTokens(v), v.bindingOrder, next);
    SuffixTransitive(CachedTokens(w), CachedTokens(v) + next, v.bindingOrder + next);
    SuffixOfNewest(CachedTokens(w), v.bindingOrder + next, MAX_PAGE_BINDINGS);
    SuffixIsLive(v, key, page, native);
  }

  // ---------------------------------------------------------------- invalidating a parent

  lemma InvalidateBounded(v: View, parent: Option<NodeKey>)
    requires Bounded(v)
    ensures Bounded(Invalidate(v, parent))
  {
    var w := Invalidate(v, parent);
    FilterFacts(v.pageOrder, OutsideOf(parent));
    FilterFacts(v.bindingOrder, BoundIn(w.bindings));
    assert forall k :: k in v.pageOrder <==> k in Elements(v.pageOrder);
    assert forall t :: t in v.bindingOrder <==> t in Elements(v.bindingOrder);
  }

  lemma {:induction false} TokensFilter(v: View, order: seq<PageKey>, parent: Option<NodeKey>, keep: Token -> bool)
    requires Live(v) && forall k :: k in order ==> k in v.pages
    requires forall t :: t in v.bindings ==> keep(t) == (v.bindings[t].parent != parent)
    ensures Tokens(Filter(order, OutsideOf(parent)), v.pages) == Filter(Tokens(order, v.pages), keep)
  {
    if order != [] {
      var front, last := order[..|order| - 1], order[|order| - 1];
      var same := OutsideOf(parent);
      TokensFilter(v, front, parent, keep);
      assert order == front + [last];
      FilterConcat(front, [last], same);
      assert Filter([last], same) == if same(last) then [last] else [];
      TokensConcat(Filter(front, same), Filter([last], same), v.pages);
      var mine := NextTokens(v.pages[last]);
      assert Tokens([last], v.pages) == mine;
      assert Tokens(order, v.pages) == Tokens(front, v.pages) + mine;
      FilterConcat(Tokens(front, v.pages), mine, keep);
      if v.pages[last].next.Some? {
        assert Accepts(v, last.parent, v.pages[last].next.value, last.size);
        assert Filter(mine, keep) == if keep(mine[0]) then mine else [];
      }
    }
  }

  lemma InvalidateLive(v: View, parent: Option<NodeKey>)
    requires Live(v)
    ensures Live(Invalidate(v, parent))
  {
  }

  lemma InvalidateSuffix(v: View, parent: Option<NodeKey>)
    requires Linked(v)
    ensures IsSuffix(CachedTokens(Invalidate(v, parent)), Invalidate(v, parent).bindingOrder)
  {
    var w := Invalidate(v, parent);
    var keep := BoundIn(w.bindings);
    assert forall k :: k in v.pageOrder ==> k in Elements(v.pageOrder);
    TokensFilter(v, v.pageOrder, parent, keep);
    FilterSuffix(CachedTokens(v), v.bindingOrder, keep);
    FilterFacts(v.pageOrder, OutsideOf(parent));
    TokensFrame(w.pageOrder, w.pages, v.pages);
  }

  /** A refresh forgets the parent's pages together with their continuations, and no others. */
  lemma InvalidateLinked(v: View, parent: Option<NodeKey>)
    requires Linked(v)
    ensures Linked(Invalidate(v, parent))
    ensures forall k :: k in Invalidate(v, parent).pages <==> k in v.pages && k.parent != parent
  {
    InvalidateBounded(v, parent);
    InvalidateLive(v, parent);
    InvalidateSuffix(v, parent);
  }

  // ---------------------------------------------------------------- the session object

  lemma RestrictTail<K(!new), V>(m: map<K, V>, order: seq<K>)
    requires NoDuplicates(order) && order != []
    ensures Restrict(m, order) - {order[0]} == Restrict(m, order[1..])
  {
  }

  lemma RestrictWhole<K(!new), V>(m: map<K, V>, order: seq<K>)
    requires m.Keys <= Elements(order)
    ensures Restrict(m, order) == m
  {
  }

  lemma NewestTail<X>(s: seq<X>, bound: nat)
    requires |s| > bound
    ensures Newest(s[1..], bound) == Newest(s, bound)
  {
  }

  lemma CachePrepared(v: View, key: PageKey, page: Page)
    requires Bounded(v)
    ensures NoDuplicates(Kept(v, key) + [key])
    ensures Restrict(v.pages[key := page], Kept(v, key) + [key]) == v.pages[key := page]
    ensures key !in v.pages ==> Kept(v, key) == v.pageOrder
  {
    FilterFacts(v.pageOrder, OtherThan(key));
    assert !OtherThan(key)(key);
    forall k | k in v.pages[key := page] ensures k in Elements(Kept(v, key) + [key]) {
      assert k == key || k in Elements(v.pageOrder);
    }
    RestrictWhole(v.pages[key := page], Kept(v, key) + [key]);
    if key !in v.pages {
      assert key !in Elements(v.pageOrder);
      FilterAll(v.pageOrder, OtherThan(key));
    }
  }

  lemma BindPrepared(v: View, token: Token, binding: PageBinding)
    requires Bounded(v) && token !in v.bindings
    ensures NoDuplicates(v.bindingOrder + [token])
    ensures Restrict(v.bindings[token := binding], v.bindingOrder + [token]) == v.bindings[token := binding]
  {
  }

  class Session {
    var pageBindings: map<Token, PageBinding>
    var pageBindingOrder: seq<Token>
    var pages: map<PageKey, Page>
    var pageOrder: seq<PageKey>

    function ViewOf(): View
      reads this
    {
      View(pageBindings, pageBindingOrder, pages, pageOrder)
    }

    constructor ()
      ensures ViewOf() == EMPTY && Linked(ViewOf())
    {
      pageBindings, pageBindingOrder, pages, pageOrder := map[], [], map[], [];
    }

    method CachePage(key: PageKey, page: Page)
      requires Bounded(ViewOf())
      modifies this`pages, this`pageOrder
      ensures ViewOf() == Cache(old(ViewOf()), key, page)
    {
      ghost var all := pages[key := page];
      CachePrepared(ViewOf(), key, page);
      if key in pages {
        pageOrder := Filter(pageOrder, OtherThan(key));
      }
      pages := pages[key := page];
      pageOrder := pageOrder + [key];
      EvictPages(all);
    }

    /** The eviction loop of cache_page. */
    method EvictPages(ghost all: map<PageKey, Page>)
      requires NoDuplicates(pageOrder) && pages == Restrict(all, pageOrder)
      modifies this`pages, this`pageOrder
      ensures pageOrder == Newest(old(pageOrder), MAX_CACHED_PAGES)
      ensures pages == Restrict(all, pageOrder)
    {
      while |pageOrder| > MAX_CACHED_PAGES
        invariant NoDuplicates(pageOrder)
        invariant pages == Restrict(all, pageOrder)
        invariant Newest(pageOrder, MAX_CACHED_PAGES) == Newest(old(pageOrder), MAX_CACHED_PAGES)
      {
        var oldest := pageOrder[0];
        RestrictTail(all, pageOrder);
        NewestTail(pageOrder, MAX_CACHED_PAGES);
        pageOrder := pageOrder[1..];
        pages := pages - {oldest};
      }
    }

    method BindPage(token: Token, binding: PageBinding)
      requires Bounded(ViewOf()) && token !in pageBindings
      modifies this`pageBindings, this`pageBindingOrder
      ensures ViewOf() == Bind(old(ViewOf()), token, binding)
    {
      ghost var all := pageBindings[token := binding];
      BindPrepared(ViewOf(), token, binding);
      pageBindings := pageBindings[token := binding];
      pageBindingOrder := pageBindingOrder + [token];
      EvictBindings(all);
    }

    /** The eviction loop of bind_page. */
    method EvictBindings(ghost all: map<Token, PageBinding>)
      requires NoDuplicates(pageBindingOrder) && pageBindings == Restrict(all, pageBindingOrder)
      modifies this`pageBindings, this`pageBindingOrder
      ensures pageBindingOrder == Newest(old(pageBindingOrder), MAX_PAGE_BINDINGS)
      ensures pageBindings == Restrict(all, pageBindingOrder)
    {
      while |pageBindingOrder| > MAX_PAGE_BINDINGS
        invariant NoDuplicates(pageBindingOrder)
        invariant pageBindings == Restrict(all, pageBindingOrder)
        invariant Newest(pageBindingOrder, MAX_PAGE_BINDINGS) == Newest(old(pageBindingOrder), MAX_PAGE_BINDINGS)
      {
        var oldest := pageBindingOrder[0];
        RestrictTail(all, pageBindingOrder);
        NewestTail(pageBindingOrder, MAX_PAGE_BINDINGS);
        pageBindingOrder := pageBindingOrder[1..];
        pageBindings := pageBindings - {oldest};
      }
    }

    method InvalidateParent(parent: Option<NodeKey>)
      modifies this
      ensures ViewOf() == Invalidate(old(ViewOf()), parent)
      ensures old(Linked(ViewOf())) ==> Linked(ViewOf())
    {
      ghost var before := ViewOf();
      pages := map k | k in pages && k.parent != parent :: pages[k];
      pageOrder := Filter(pageOrder, OutsideOf(parent));
      pageBindings := map t | t in pageBindings && pageBindings[t].parent != parent :: pageBindings[t];
      pageBindingOrder := Filter(pageBindingOrder, BoundIn(pageBindings));
      if Linked(before) {
        InvalidateLinked(before, parent);
      }
    }

    /** The last critical section of browse_existing. */
    method StorePage(key: PageKey, page: Page, native: string)
      requires Bounded(ViewOf()) && FreshToken(ViewOf(), page)
      modifies this
      ensures ViewOf() == Store(old(ViewOf()), key, page, native)
      ensures old(Linked(ViewOf()) && key !in pages) ==> Linked(ViewOf())
    {
      ghost var before := ViewOf();
      if page.next.Some? {
        BindFacts(before, page.next.value, PageBinding(native, key.parent, key.size));
        BindPage(page.next.value, PageBinding(native, key.parent, key.size));
      }
      CachePage(key, page);
      if Linked(before) && key !in before.pages {
        StoreLinked(before, key, page, native);
      }
    }
  }
}
