/**
  Exactly when a store keeps the cached continuations in step with the bindings, and exactly when it costs a
  cached page its continuation. Only a page stored under a key that is already cached, which takes a refresh
  overlapping another call, can put them out of step; a continuation may then be lost at any later store.
*/
module BrowseOverlap {
  import opened Prelude
  import opened BrowseSession

  /** The cached page under key has no continuation, or holds the oldest cached continuation. */
  predicate OldestOrNone(v: View, key: PageKey)
    requires key in v.pages
  {
    v.pages[key].next.None? || (CachedTokens(v) != [] && CachedTokens(v)[0] == v.pages[key].next.value)
  }

  lemma {:induction false} SplitOrder(order: seq<PageKey>, key: PageKey) returns (a: seq<PageKey>, b: seq<PageKey>)
    requires NoDuplicates(order) && key in order
    ensures order == a + [key] + b && Filter(order, OtherThan(key)) == a + b
  {
    if order[0] == key {
      a, b := [], order[1..];
      assert forall k :: k in b ==> k != key;
      FilterAll(b, OtherThan(key));
    } else {
      a, b := SplitOrder(order[1..], key);
      a := [order[0]] + a;
    }
  }

  lemma SplitAt(v: View, key: PageKey) returns (a: seq<PageKey>, b: seq<PageKey>)
    requires Bounded(v) && key in v.pages
    ensures v.pageOrder == a + [key] + b && Kept(v, key) == a + b
    ensures CachedTokens(v) == Tokens(a, v.pages) + NextTokens(v.pages[key]) + Tokens(b, v.pages)
    ensures Tokens(Kept(v, key), v.pages) == Tokens(a, v.pages) + Tokens(b, v.pages)
  {
    assert key in Elements(v.pageOrder);
    a, b := SplitOrder(v.pageOrder, key);
    TokensConcat(a + [key], b, v.pages);
    TokensConcat(a, [key], v.pages);
    assert Tokens([key], v.pages) == NextTokens(v.pages[key]);
    TokensConcat(a, b, v.pages);
  }

  lemma SuffixDistinct<X(!new)>(a: seq<X>, b: seq<X>)
    requires IsSuffix(a, b) && NoDuplicates(b)
    ensures NoDuplicates(a)
  {
  }

  lemma Displaced<X(!new)>(x: seq<X>, a: seq<X>, t: X, b: seq<X>, n: seq<X>)
    requires NoDuplicates(a + [t] + b) && a != []
    ensures !IsSuffix(a + b + n, x + (a + [t] + b) + n)
  {
    var p := a + b + n;
    var q := x + (a + [t] + b) + n;
    var at := |a| - 1;
    assert p[at] == a[at];
    assert q[|q| - |p| + at] == t;
    assert (a + [t] + b)[at] == a[at] && (a + [t] + b)[|a|] == t;
    assert q[|q| - |p|..][at] == t;
  }

  /** Dropping `was` from the middle of a suffix and appending to both. */
  lemma SuffixWithout<X(!new)>(order: seq<X>, a: seq<X>, was: seq<X>, b: seq<X>, next: seq<X>, bound: nat)
    requires IsSuffix(a + was + b, order) && NoDuplicates(order)
    requires |was| <= 1 && |a + b + next| <= bound
    ensures IsSuffix(a + b + next, Newest(order + next, bound)) <==> was == [] || a == []
  {
    if was == [] || a == [] {
      assert IsSuffix(a + b, a + was + b);
      SuffixTransitive(a + b, a + was + b, order);
      SuffixAppend(a + b, order, next);
      SuffixOfNewest(a + b + next, order + next, bound);
    } else {
      SuffixDistinct(a + was + b, order);
      var x := order[..|order| - |a + was + b|];
      assert was == [was[0]];
      Displaced(x, a, was[0], b, next);
      assert order + next == x + (a + was + b) + next;
      NewestFacts(order + next, bound);
      if IsSuffix(a + b + next, Newest(order + next, bound)) {
        SuffixTransitive(a + b + next, Newest(order + next, bound), order + next);
      }
    }
  }

  lemma OldestMeans(v: View, key: PageKey, a: seq<PageKey>, b: seq<PageKey>)
    requires Linked(v) && key in v.pages
    requires CachedTokens(v) == Tokens(a, v.pages) + NextTokens(v.pages[key]) + Tokens(b, v.pages)
    ensures OldestOrNone(v, key) <==> NextTokens(v.pages[key]) == [] || Tokens(a, v.pages) == []
  {
    SuffixDistinct(CachedTokens(v), v.bindingOrder);
    var ta := Tokens(a, v.pages);
    if v.pages[key].next.Some? {
      assert CachedTokens(v)[|ta|] == v.pages[key].next.value;
    }
  }

  /** Re-caching a key keeps the cached tokens a suffix of the bindings exactly when the page it replaces
      has no continuation or holds the oldest one. */
  lemma RecacheSuffix(v: View, key: PageKey, page: Page, native: string)
    requires Linked(v) && key in v.pages && FreshToken(v, page)
    ensures IsSuffix(CachedTokens(Store(v, key, page, native)), Store(v, key, page, native).bindingOrder)
            <==> OldestOrNone(v, key)
  {
    var a, b := SplitAt(v, key);
    StoreBindings(v, key, page, native);
    StoreTokens(v, key, page, native);
    OldestMeans(v, key, a, b);
    SuffixWithout(v.bindingOrder, Tokens(a, v.pages), NextTokens(v.pages[key]), Tokens(b, v.pages),
                  NextTokens(page), MAX_PAGE_BINDINGS);
  }

  /** Every cached page holds a continuation and there are as many as the session may bind. */
  predicate Saturated(v: View) {
    |CachedTokens(v)| == MAX_PAGE_BINDINGS
  }

  /** The binding a store gives up. */
  lemma Evicted(v: View, page: Page)
    requires Bounded(v) && FreshToken(v, page)
    ensures forall t :: t in v.bindingOrder
              ==> (t in Newest(v.bindingOrder + NextTokens(page), MAX_PAGE_BINDINGS)
                   <==> !(page.next.Some? && |v.bindingOrder| == MAX_PAGE_BINDINGS && t == v.bindingOrder[0]))
  {
    var all := v.bindingOrder + NextTokens(page);
    var kept := Newest(all, MAX_PAGE_BINDINGS);
    forall t | t in v.bindingOrder
      ensures t in kept <==> !(page.next.Some? && |v.bindingOrder| == MAX_PAGE_BINDINGS && t == v.bindingOrder[0])
    {
      var i :| 0 <= i < |v.bindingOrder| && v.bindingOrder[i] == t;
      assert t in Elements(v.bindingOrder);
      if page.next.Some? && |v.bindingOrder| == MAX_PAGE_BINDINGS {
        assert kept == v.bindingOrder[1..] + [page.next.value];
        if i > 0 {
          assert kept[i - 1] == t;
        }
      } else {
        assert kept == all && all[i] == t;
      }
    }
  }

  lemma RecachePages(v: View, key: PageKey, page: Page, native: string)
    requires Bounded(v) && key in v.pages && FreshToken(v, page)
    ensures Store(v, key, page, native).pages == v.pages[key := page]
  {
    var a, b := SplitAt(v, key);
    var w := Store(v, key, page, native);
    assert w.pageOrder == a + b + [key];
    forall k | k in v.pages ensures k in w.pageOrder {
      assert k in Elements(v.pageOrder);
      assert k in a + [key] + b;
    }
  }

  /** When the oldest binding is not a cached continuation, or belongs to the page being replaced, evicting
      it costs no cached page its continuation. */
  lemma EvictionHarmless(v: View, key: PageKey, page: Page, k: PageKey)
    requires Linked(v) && key in v.pages && FreshToken(v, page)
    requires page.next.Some? && Saturated(v) ==> OldestOrNone(v, key)
    requires k in v.pages && k != key && v.pages[k].next.Some?
    ensures v.pages[k].next.value in Newest(v.bindingOrder + NextTokens(page), MAX_PAGE_BINDINGS)
  {
    var t := v.pages[k].next.value;
    var tokens := CachedTokens(v);
    assert k in Elements(v.pageOrder) && key in Elements(v.pageOrder);
    TokenOrigin(v.pageOrder, v.pages);
    SuffixDistinct(tokens, v.bindingOrder);
    Evicted(v, page);
    var i :| 0 <= i < |tokens| && tokens[i] == t;
    var at := |v.bindingOrder| - |tokens| + i;
    assert v.bindingOrder[at] == t;
    if page.next.Some? && |v.bindingOrder| == MAX_PAGE_BINDINGS && t == v.bindingOrder[0] {
      assert at == 0;
      assert Saturated(v);
      if v.pages[key].next.Some? {
        TokenOwner(v.pageOrder, v.pages, k, key);
      } else {
        SaturatedPage(v, key);
      }
    }
  }

  lemma SaturatedPage(v: View, key: PageKey)
    requires Bounded(v) && Saturated(v) && key in v.pages
    ensures v.pages[key].next.Some?
  {
    var a, b := SplitAt(v, key);
    TokenOrigin(a, v.pages);
    TokenOrigin(b, v.pages);
  }

  lemma OldestIsLost(v: View, key: PageKey, page: Page, native: string)
    requires Linked(v) && key in v.pages && FreshToken(v, page)
    requires page.next.Some? && Saturated(v) && !OldestOrNone(v, key)
    ensures !Live(Store(v, key, page, native))
  {
    var w := Store(v, key, page, native);
    StoreBindings(v, key, page, native);
    StoreBounded(v, key, page, native);
    RecachePages(v, key, page, native);
    var t := CachedTokens(v)[0];
    var k := TokenSource(v.pageOrder, v.pages, t);
    Evicted(v, page);
    assert v.bindingOrder == CachedTokens(v);
    assert t in v.bindingOrder && t !in w.bindingOrder;
    assert t !in Elements(w.bindingOrder);
    assert w.pages[k].next == Some(t);
    assert !Accepts(w, k.parent, t, k.size);
  }

  // ---------------------------------------------------------------- when a continuation is lost

  /** k, another page, is still cached after a page is stored under key. */
  predicate Remains(v: View, key: PageKey, k: PageKey) {
    k in v.pages && k != key &&
    !(key !in v.pages && |v.pageOrder| == MAX_CACHED_PAGES && v.pageOrder[0] == k)
  }

  /** The store has to give up a binding, and that binding is the continuation of another page that stays
      cached. All of it can be read off before the store. */
  ghost predicate Loses(v: View, key: PageKey, page: Page) {
    page.next.Some? && |v.bindingOrder| == MAX_PAGE_BINDINGS &&
    exists k :: Remains(v, key, k) && v.pages[k].next == Some(v.bindingOrder[0])
  }

  lemma FreshPages(v: View, key: PageKey, page: Page, native: string)
    requires Bounded(v) && key !in v.pages && FreshToken(v, page)
    ensures Store(v, key, page, native).pageOrder == Newest(v.pageOrder + [key], MAX_CACHED_PAGES)
    ensures forall k :: k in Store(v, key, page, native).pages <==> k in Newest(v.pageOrder + [key], MAX_CACHED_PAGES)
    ensures forall k :: k != key && k in Store(v, key, page, native).pages ==>
              k in v.pages && Store(v, key, page, native).pages[k] == v.pages[k]
  {
    assert key !in Elements(v.pageOrder);
    FilterAll(v.pageOrder, OtherThan(key));
    StoreBounded(v, key, page, native);
    assert forall k :: k in Store(v, key, page, native).pageOrder ==> k in Elements(Store(v, key, page, native).pageOrder);
  }

  lemma NewestMembers(order: seq<PageKey>, key: PageKey, k: PageKey)
    requires NoDuplicates(order) && |order| <= MAX_CACHED_PAGES && k != key
    ensures k in Newest(order + [key], MAX_CACHED_PAGES) <==>
            k in order && !(|order| == MAX_CACHED_PAGES && order[0] == k)
  {
    var kept := Newest(order + [key], MAX_CACHED_PAGES);
    if k in order {
      var i :| 0 <= i < |order| && order[i] == k;
      if |order| == MAX_CACHED_PAGES {
        assert kept == order[1..] + [key];
        assert i > 0 ==> kept[i - 1] == k;
      } else {
        assert kept[i] == k;
      }
    }
  }

  /** Which other pages a store leaves cached. */
  lemma StorePages(v: View, key: PageKey, page: Page, native: string, k: PageKey)
    requires Bounded(v) && FreshToken(v, page) && k != key
    ensures k in Store(v, key, page, native).pages <==> Remains(v, key, k)
    ensures Remains(v, key, k) ==> Store(v, key, page, native).pages[k] == v.pages[k]
  {
    assert k in Elements(v.pageOrder) <==> k in v.pages;
    if key in v.pages {
      RecachePages(v, key, page, native);
    } else {
      FreshPages(v, key, page, native);
      NewestMembers(v.pageOrder, key, k);
    }
  }

  /** A remaining page keeps a continuation it had exactly when that is not the binding given up. */
  lemma RemainingAccepted(v: View, key: PageKey, page: Page, native: string, k: PageKey, t: Token)
    requires Bounded(v) && FreshToken(v, page) && Accepts(v, k.parent, t, k.size)
    ensures Accepts(Store(v, key, page, native), k.parent, t, k.size) <==>
            !(page.next.Some? && |v.bindingOrder| == MAX_PAGE_BINDINGS && t == v.bindingOrder[0])
  {
    var w := Store(v, key, page, native);
    assert t in Elements(v.bindingOrder);
    StoreBounded(v, key, page, native);
    StoreBindings(v, key, page, native);
    Evicted(v, page);
    assert t in w.bindings <==> t in Elements(w.bindingOrder);
  }

  /** Whatever the session's history: a store, under a fresh or a cached key, costs a cached page its
      continuation exactly when it gives up the binding of another page that stays cached. */
  lemma StoreLive(v: View, key: PageKey, page: Page, native: string)
    requires Bounded(v) && Live(v) && FreshToken(v, page)
    ensures Live(Store(v, key, page, native)) <==> !Loses(v, key, page)
  {
    var w := Store(v, key, page, native);
    StoreBounded(v, key, page, native);
    StoreBindings(v, key, page, native);
    forall k | Remains(v, key, k) && v.pages[k].next.Some?
      ensures k in w.pages && w.pages[k] == v.pages[k]
      ensures Accepts(w, k.parent, v.pages[k].next.value, k.size) <==>
              !(page.next.Some? && |v.bindingOrder| == MAX_PAGE_BINDINGS && v.pages[k].next == Some(v.bindingOrder[0]))
    {
      StorePages(v, key, page, native, k);
      assert Accepts(v, k.parent, v.pages[k].next.value, k.size);
      RemainingAccepted(v, key, page, native, k, v.pages[k].next.value);
    }
    if !Loses(v, key, page) {
      forall k | k in w.pages && w.pages[k].next.Some? ensures Accepts(w, k.parent, w.pages[k].next.value, k.size) {
        if k != key {
          StorePages(v, key, page, native, k);
        }
      }
    }
  }

  /** While the cached continuations are still a suffix of the bindings, that comes down to this: 256
      continuations are cached and a page other than the one holding the oldest of them is re-cached with a
      new one. */
  lemma RecacheLive(v: View, key: PageKey, page: Page, native: string)
    requires Linked(v) && key in v.pages && FreshToken(v, page)
    ensures Live(Store(v, key, page, native)) <==> !(page.next.Some? && Saturated(v) && !OldestOrNone(v, key))
  {
    var w := Store(v, key, page, native);
    if page.next.Some? && Saturated(v) && !OldestOrNone(v, key) {
      OldestIsLost(v, key, page, native);
    } else {
      StoreBindings(v, key, page, native);
      RecachePages(v, key, page, native);
      forall k | k in w.pages && w.pages[k].next.Some? ensures Accepts(w, k.parent, w.pages[k].next.value, k.size) {
        if k != key {
          EvictionHarmless(v, key, page, k);
          assert Accepts(v, k.parent, v.pages[k].next.value, k.size);
        }
      }
    }
  }
}
