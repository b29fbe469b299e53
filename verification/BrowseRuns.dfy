/**
  Calls on one browse session as runs of critical sections: enter (look up, or invalidate for a refresh),
  re-check under the operation lock, store the fetched page. Calls interleave freely except that a refresh
  does not overlap another call; BrowseOverlap says what happens when it does.
*/
module BrowseRuns {
  import opened Prelude
  import opened BrowseSession
  import opened BrowseOverlap

  type CallId = nat

  datatype Call = Call(key: PageKey, refresh: bool)

  const MAX_NODE_BINDINGS: nat := 100_000

  /** used: every continuation ever bound; nodes: the node keys handed out, never withdrawn; calls: those past
      their first critical section; holder: the one holding the operation lock. */
  datatype State = State(
    view: View, used: set<Token>, nodes: set<NodeKey>, calls: map<CallId, Call>, holder: Option<CallId>)

  const START: State := State(EMPTY, {}, {}, map[], None)

  datatype Step =
    | Enter(id: CallId, key: PageKey, refresh: bool)
    | Recheck(id: CallId)
    | Deliver(id: CallId, page: Page, native: string)
    | Abort(id: CallId)

  /** The checks of browse and of the first critical section; a call that fails them changes nothing. */
  predicate Admitted(s: State, key: PageKey, refresh: bool) {
    && (refresh ==> key.token.None?)
    && (key.parent.Some? ==> key.parent.value in s.nodes)
    && (key.token.Some? ==> Accepts(s.view, key.parent, key.token.value, key.size))
  }

  /** New tokens for everything the page names, and room for its nodes. */
  predicate Deliverable(s: State, page: Page) {
    && (page.next.Some? ==> page.next.value !in s.used)
    && (forall i :: 0 <= i < |page.nodes| ==> page.nodes[i] !in s.nodes)
    && (forall i, j :: 0 <= i < j < |page.nodes| ==> page.nodes[i] != page.nodes[j])
    && |s.nodes| + |page.nodes| <= MAX_NODE_BINDINGS
  }

  function NodesOf(page: Page): set<NodeKey> {
    set n | n in page.nodes
  }

  function Named(page: Page): set<Token> {
    if page.next.Some? then {page.next.value} else {}
  }

  predicate Enabled(s: State, step: Step) {
    match step
    case Enter(id, key, refresh) => id !in s.calls && Admitted(s, key, refresh)
    case Recheck(id) => id in s.calls && s.holder.None?
    case Deliver(id, page, native) =>
      s.holder == Some(id) && id in s.calls && Deliverable(s, page)
    case Abort(id) => id in s.calls
  }

  function Apply(s: State, step: Step): State {
    match step
    case Enter(id, key, refresh) =>
      if refresh then s.(view := Invalidate(s.view, key.parent), calls := s.calls[id := Call(key, true)])
      else if key in s.view.pages then s
      else s.(calls := s.calls[id := Call(key, false)])
    case Recheck(id) =>
      if id in s.calls && !s.calls[id].refresh && s.calls[id].key in s.view.pages then s.(calls := s.calls - {id})
      else s.(holder := Some(id))
    case Deliver(id, page, native) =>
      if id !in s.calls then s
      else s.(view := Store(s.view, s.calls[id].key, page, native),
              used := s.used + Named(page), nodes := s.nodes + NodesOf(page),
              calls := s.calls - {id}, holder := None)
    case Abort(id) =>
      s.(calls := s.calls - {id}, holder := if s.holder == Some(id) then None else s.holder)
  }

  datatype Reply = Reply(key: PageKey, page: Page)

  /** The page a step hands to its caller, if it does. */
  function Served(s: State, step: Step): Option<Reply> {
    match step
    case Enter(id, key, refresh) =>
      if !refresh && key in s.view.pages then Some(Reply(key, s.view.pages[key])) else None
    case Recheck(id) =>
      if id in s.calls && !s.calls[id].refresh && s.calls[id].key in s.view.pages
      then Some(Reply(s.calls[id].key, s.view.pages[s.calls[id].key])) else None
    case Deliver(id, page, native) => if id in s.calls then Some(Reply(s.calls[id].key, page)) else None
    case Abort(_) => None
  }

  /** A refresh enters alone, and nothing enters beside one. */
  ghost predicate Apart(s: State, step: Step) {
    step.Enter? ==> if step.refresh then s.calls == map[] else forall id :: id in s.calls ==> !s.calls[id].refresh
  }

  ghost predicate Inv(s: State) {
    && Linked(s.view)
    && s.view.bindings.Keys <= s.used
    && (s.holder.Some? ==> s.holder.value in s.calls && s.calls[s.holder.value].key !in s.view.pages)
    && forall id :: id in s.calls && s.calls[id].refresh ==> s.calls.Keys == {id} && s.calls[id].key !in s.view.pages
  }

  ghost predicate UsableIn(v: View, r: Reply) {
    r.page.next.Some? ==> Accepts(v, r.key.parent, r.page.next.value, r.key.size)
  }

  /** A refresh enters alone: only what invalidation promises of the view matters. */
  lemma RefreshEnters(s: State, id: CallId, key: PageKey, w: View)
    requires Inv(s) && s.calls == map[] && Linked(w)
    requires w.bindings.Keys <= s.view.bindings.Keys && key !in w.pages
    ensures Inv(s.(view := w, calls := s.calls[id := Call(key, true)]))
  {
  }

  lemma DeliverStep(s: State, id: CallId, page: Page, native: string)
    requires Inv(s) && Enabled(s, Deliver(id, page, native))
    ensures Inv(Apply(s, Deliver(id, page, native)))
    ensures UsableIn(Apply(s, Deliver(id, page, native)).view, Reply(s.calls[id].key, page))
  {
    var t := Apply(s, Deliver(id, page, native));
    StoreLinked(s.view, s.calls[id].key, page, native);
    StoreBindings(s.view, s.calls[id].key, page, native);
    assert t.view.bindings.Keys <= s.view.bindings.Keys + Named(page);
    assert id in s.calls.Keys;
    assert forall j :: j in t.calls ==> j in s.calls.Keys && j != id;
  }

  lemma StepKeeps(s: State, step: Step)
    requires Inv(s) && Enabled(s, step) && Apart(s, step)
    ensures Inv(Apply(s, step))
    ensures Served(s, step).Some? ==> UsableIn(Apply(s, step).view, Served(s, step).value)
  {
    match step
    case Enter(id, key, refresh) =>
      if refresh {
        InvalidateLinked(s.view, key.parent);
        RefreshEnters(s, id, key, Invalidate(s.view, key.parent));
      }
    case Recheck(id) =>
    case Deliver(id, page, native) => DeliverStep(s, id, page, native);
    case Abort(id) =>
  }

  ghost predicate Run(states: seq<State>, steps: seq<Step>) {
    && |states| == |steps| + 1
    && states[0] == START
    && forall i :: 0 <= i < |steps| ==>
         Enabled(states[i], steps[i]) && Apart(states[i], steps[i]) && states[i + 1] == Apply(states[i], steps[i])
  }

  lemma {:induction false} RunKeeps(states: seq<State>, steps: seq<Step>, n: nat)
    requires Run(states, steps) && n < |states|
    ensures Inv(states[n])
  {
    if n == 0 {
      assert CachedTokens(EMPTY) == [];
    } else {
      RunKeeps(states, steps, n - 1);
      StepKeeps(states[n - 1], steps[n - 1]);
    }
  }

  /** In every run in which no refresh overlaps another call, both FIFOs stay bounded and agree with their
      maps, the cached continuations are a suffix of the bound ones, and every page handed out, cached or
      fresh, carries a continuation the session accepts. */
  lemma ContinuationsStayValid(states: seq<State>, steps: seq<Step>, n: nat)
    requires Run(states, steps) && n < |steps|
    ensures Linked(states[n + 1].view)
    ensures Served(states[n], steps[n]).Some? ==> UsableIn(states[n + 1].view, Served(states[n], steps[n]).value)
  {
    RunKeeps(states, steps, n);
    StepKeeps(states[n], steps[n]);
  }

  // ---------------------------------------------------------------- an overlapping refresh

  function After(s: State, steps: seq<Step>): State
    decreases |steps|
  {
    if steps == [] then s else After(Apply(s, steps[0]), steps[1..])
  }

  predicate AllEnabled(s: State, steps: seq<Step>)
    decreases |steps|
  {
    steps == [] || (Enabled(s, steps[0]) && AllEnabled(Apply(s, steps[0]), steps[1..]))
  }

  /** A call and a refresh for the same first page: the refresh enters before the call has looked again. */
  function Overlap(key: PageKey, first: Token, second: Token): seq<Step> {
    [Enter(1, key, false), Enter(2, key, true), Recheck(1), Deliver(1, Page([], Some(first)), ""),
     Recheck(2), Deliver(2, Page([], Some(second)), "")]
  }

  /** After an empty page with continuation t was stored under key. */
  function Delivered(s: State, key: PageKey, t: Token, calls: map<CallId, Call>): State {
    s.(view := Store(s.view, key, Page([], Some(t)), ""), used := s.used + {t}, calls := calls, holder := None)
  }

  /** As many cached pages as allowed, each with a continuation, none of them below `parent`. */
  ghost predicate FullElsewhere(v: View, parent: Option<NodeKey>) {
    && |v.pageOrder| == MAX_CACHED_PAGES
    && (forall k :: k in v.pages ==> v.pages[k].next.Some? && k.parent != parent)
    && (forall t :: t in v.bindings ==> v.bindings[t].parent != parent)
  }

  lemma InvalidateNothing(v: View, parent: Option<NodeKey>)
    requires Bounded(v) && FullElsewhere(v, parent)
    ensures Invalidate(v, parent) == v
  {
    var w := Invalidate(v, parent);
    assert w.bindings == v.bindings && w.pages == v.pages;
    assert forall k :: k in v.pageOrder ==> k in Elements(v.pageOrder);
    assert forall t :: t in v.bindingOrder ==> t in Elements(v.bindingOrder);
    FilterAll(v.pageOrder, OutsideOf(parent));
    FilterAll(v.bindingOrder, BoundIn(w.bindings));
  }

  lemma {:induction false} AllTokens(order: seq<PageKey>, pages: map<PageKey, Page>)
    requires forall k :: k in order ==> k in pages && pages[k].next.Some?
    ensures |Tokens(order, pages)| == |order|
  {
    if order != [] {
      AllTokens(order[..|order| - 1], pages);
    }
  }

  lemma StoredOrder(v: View, key: PageKey, page: Page)
    requires Bounded(v) && key !in v.pages && |v.pageOrder| == MAX_CACHED_PAGES
    ensures Store(v, key, page, "").pageOrder == v.pageOrder[1..] + [key]
  {
    assert key !in Elements(v.pageOrder);
    FilterAll(v.pageOrder, OtherThan(key));
  }

  lemma StoredTokens(v: View, key: PageKey, t: Token)
    requires Linked(v) && FullElsewhere(v, key.parent) && t !in v.bindings
    ensures Saturated(Store(v, key, Page([], Some(t)), ""))
    ensures CachedTokens(Store(v, key, Page([], Some(t)), ""))[MAX_PAGE_BINDINGS - 1] == t
  {
    var page := Page([], Some(t));
    var w := Store(v, key, page, "");
    StoreBounded(v, key, page, "");
    StoredOrder(v, key, page);
    assert forall k :: k in w.pageOrder ==> k in Elements(w.pageOrder);
    AllTokens(w.pageOrder, w.pages);
    assert w.pageOrder[|w.pageOrder| - 1] == key;
  }

  /** The first delivery fills the cache to the brim with the new page youngest. */
  lemma StoredLast(v: View, key: PageKey, t: Token)
    requires Linked(v) && FullElsewhere(v, key.parent) && t !in v.bindings
    ensures var w := Store(v, key, Page([], Some(t)), "");
            Linked(w) && key in w.pages && Saturated(w) && !OldestOrNone(w, key)
    ensures Store(v, key, Page([], Some(t)), "").bindings.Keys <= v.bindings.Keys + {t}
  {
    var page := Page([], Some(t));
    var w := Store(v, key, page, "");
    StoreLinked(v, key, page, "");
    StoredTokens(v, key, t);
    SuffixDistinct(CachedTokens(w), w.bindingOrder);
  }

  lemma SecondStoreLoses(v: View, key: PageKey, first: Token, second: Token)
    requires Linked(v) && FullElsewhere(v, key.parent)
    requires first !in v.bindings && second !in v.bindings && first != second
    ensures !Live(Store(Store(v, key, Page([], Some(first)), ""), key, Page([], Some(second)), ""))
  {
    StoredLast(v, key, first);
    RecacheLive(Store(v, key, Page([], Some(first)), ""), key, Page([], Some(second)), "");
  }

  lemma OverlapRuns(s: State, key: PageKey, first: Token, second: Token)
    requires Inv(s) && s.calls == map[] && FullElsewhere(s.view, key.parent) && key.token.None?
    requires Admitted(s, key, true) && |s.nodes| <= MAX_NODE_BINDINGS
    requires first !in s.used && second !in s.used && first != second
    ensures AllEnabled(s, Overlap(key, first, second))
    ensures After(s, Overlap(key, first, second)).view
            == Store(Store(s.view, key, Page([], Some(first)), ""), key, Page([], Some(second)), "")
    ensures After(s, Overlap(key, first, second)).calls == map[] && After(s, Overlap(key, first, second)).nodes == s.nodes
  {
    var s2 := s.(calls := map[1 := Call(key, false), 2 := Call(key, true)]);
    BothEnter(s, key, s2);
    OverlapTail(s, key, first, second, s2);
  }

  lemma OverlapTail(s: State, key: PageKey, first: Token, second: Token, s2: State)
    requires s2 == s.(calls := map[1 := Call(key, false), 2 := Call(key, true)])
    requires BothEnabled(s, [Enter(1, key, false), Enter(2, key, true)])
    requires Apply(Apply(s, Enter(1, key, false)), Enter(2, key, true)) == s2
    requires s.holder.None? && key !in s.view.pages && |s.nodes| <= MAX_NODE_BINDINGS
    requires first !in s.used && second !in s.used && first != second
    ensures AllEnabled(s, Overlap(key, first, second))
    ensures After(s, Overlap(key, first, second)).view
            == Store(Store(s.view, key, Page([], Some(first)), ""), key, Page([], Some(second)), "")
    ensures After(s, Overlap(key, first, second)).calls == map[] && After(s, Overlap(key, first, second)).nodes == s.nodes
  {
    var s4 := Delivered(s, key, first, map[2 := Call(key, true)]);
    FirstDelivery(s, key, first, s2, s4);
    var s6 := Delivered(s4, key, second, map[]);
    SecondDelivery(s4, key, second, s6);
    OverlapTrace(s, key, first, second, s2, s4, s6);
  }

  /** With 256 continuations cached elsewhere, a refresh overlapping a plain call for the same page costs a
      cached page its continuation. */
  lemma OverlapLoses(s: State, key: PageKey, first: Token, second: Token)
    requires Inv(s) && s.calls == map[] && FullElsewhere(s.view, key.parent) && key.token.None?
    requires Admitted(s, key, true) && |s.nodes| <= MAX_NODE_BINDINGS
    requires first !in s.used && second !in s.used && first != second
    ensures AllEnabled(s, Overlap(key, first, second))
    ensures !Live(After(s, Overlap(key, first, second)).view)
  {
    OverlapRuns(s, key, first, second);
    SecondStoreLoses(s.view, key, first, second);
  }

  lemma BothEnter(s: State, key: PageKey, s2: State)
    requires Inv(s) && s.calls == map[] && FullElsewhere(s.view, key.parent) && key.token.None?
    requires Admitted(s, key, true) && |s.nodes| <= MAX_NODE_BINDINGS
    requires s2 == s.(calls := map[1 := Call(key, false), 2 := Call(key, true)])
    ensures BothEnabled(s, [Enter(1, key, false), Enter(2, key, true)])
    ensures Apply(Apply(s, Enter(1, key, false)), Enter(2, key, true)) == s2
    ensures s.holder.None?
  {
    InvalidateNothing(s.view, key.parent);
    EnterTwice(s, key, s2);
  }

  lemma EnterTwice(s: State, key: PageKey, s2: State)
    requires s.calls == map[] && key !in s.view.pages && key.token.None? && Invalidate(s.view, key.parent) == s.view
    requires Admitted(s, key, true)
    requires s2 == s.(calls := map[1 := Call(key, false), 2 := Call(key, true)])
    ensures BothEnabled(s, [Enter(1, key, false), Enter(2, key, true)])
    ensures Apply(Apply(s, Enter(1, key, false)), Enter(2, key, true)) == s2
  {
  }

  lemma FirstDelivery(s: State, key: PageKey, t: Token, s2: State, s4: State)
    requires s2 == s.(calls := map[1 := Call(key, false), 2 := Call(key, true)])
    requires s.holder.None? && key !in s.view.pages && t !in s.used && |s.nodes| <= MAX_NODE_BINDINGS
    requires s4 == Delivered(s, key, t, map[2 := Call(key, true)])
    ensures BothEnabled(s2, [Recheck(1), Deliver(1, Page([], Some(t)), "")])
    ensures Apply(Apply(s2, Recheck(1)), Deliver(1, Page([], Some(t)), "")) == s4
  {
    assert s2.calls - {1} == s4.calls;
  }

  lemma SecondDelivery(s4: State, key: PageKey, t: Token, s6: State)
    requires s4.calls == map[2 := Call(key, true)] && s4.holder.None? && t !in s4.used && |s4.nodes| <= MAX_NODE_BINDINGS
    requires s6 == Delivered(s4, key, t, map[])
    ensures BothEnabled(s4, [Recheck(2), Deliver(2, Page([], Some(t)), "")])
    ensures Apply(Apply(s4, Recheck(2)), Deliver(2, Page([], Some(t)), "")) == s6
  {
  }

  lemma OverlapTrace(s: State, key: PageKey, first: Token, second: Token, s2: State, s4: State, s6: State)
    requires BothEnabled(s, [Enter(1, key, false), Enter(2, key, true)])
    requires BothEnabled(s2, [Recheck(1), Deliver(1, Page([], Some(first)), "")])
    requires BothEnabled(s4, [Recheck(2), Deliver(2, Page([], Some(second)), "")])
    requires s2 == Apply(Apply(s, Enter(1, key, false)), Enter(2, key, true))
    requires s4 == Apply(Apply(s2, Recheck(1)), Deliver(1, Page([], Some(first)), ""))
    requires s6 == Apply(Apply(s4, Recheck(2)), Deliver(2, Page([], Some(second)), ""))
    ensures After(s, Overlap(key, first, second)) == s6
    ensures AllEnabled(s, Overlap(key, first, second))
  {
    var steps := Overlap(key, first, second);
    TwoSteps(s, steps);
    TwoSteps(s2, steps[2..]);
    TwoSteps(s4, steps[2..][2..]);
  }

  predicate BothEnabled(s: State, steps: seq<Step>)
    requires |steps| >= 2
  {
    Enabled(s, steps[0]) && Enabled(Apply(s, steps[0]), steps[1])
  }

  lemma TwoSteps(s: State, steps: seq<Step>)
    requires |steps| >= 2
    ensures After(s, steps) == After(Apply(Apply(s, steps[0]), steps[1]), steps[2..])
    ensures BothEnabled(s, steps) && AllEnabled(Apply(Apply(s, steps[0]), steps[1]), steps[2..]) ==> AllEnabled(s, steps)
  {
  }

  /** Storing adds no page but the one stored. */
  lemma StoredAmong(v: View, key: PageKey, page: Page, native: string)
    ensures Store(v, key, page, native).pages.Keys <= v.pages.Keys + {key}
  {
  }

  lemma StoredTwice(v: View, key: PageKey, a: Page, b: Page)
    ensures Store(Store(v, key, a, ""), key, b, "").pages.Keys <= v.pages.Keys + {key}
  {
    StoredAmong(v, key, a, "");
    StoredAmong(Store(v, key, a, ""), key, b, "");
  }

  predicate FirstPages(s: State, pages: set<PageKey>) {
    forall k :: k in pages ==> k.token.None? && (k.parent.Some? ==> k.parent.value in s.nodes)
  }

  /** A call enters and is handed the page under k, whose continuation the session does not accept. */
  ghost predicate HandedDead(t: State, id: CallId, k: PageKey) {
    Enabled(t, Enter(id, k, false)) && Served(t, Enter(id, k, false)).Some? &&
    !UsableIn(Apply(t, Enter(id, k, false)).view, Served(t, Enter(id, k, false)).value)
  }

  lemma DeadFirstPage(t: State, id: CallId) returns (k: PageKey)
    requires id !in t.calls && FirstPages(t, t.view.pages.Keys) && !Live(t.view)
    ensures HandedDead(t, id, k)
  {
    k :| k in t.view.pages && t.view.pages[k].next.Some? && !Accepts(t.view, k.parent, t.view.pages[k].next.value, k.size);
    assert k in t.view.pages.Keys;
  }

  lemma OverlapPages(s: State, key: PageKey, first: Token, second: Token)
    requires Inv(s) && s.calls == map[] && FullElsewhere(s.view, key.parent) && key.token.None?
    requires Admitted(s, key, true) && |s.nodes| <= MAX_NODE_BINDINGS
    requires first !in s.used && second !in s.used && first != second
    requires FirstPages(s, s.view.pages.Keys)
    ensures FirstPages(After(s, Overlap(key, first, second)), After(s, Overlap(key, first, second)).view.pages.Keys)
    ensures After(s, Overlap(key, first, second)).calls == map[]
  {
    OverlapRuns(s, key, first, second);
    StoredTwice(s.view, key, Page([], Some(first)), Page([], Some(second)));
    assert FirstPages(s, s.view.pages.Keys + {key});
  }

  /** If all those cached pages are first pages of known nodes, a call is then handed one of them with its
      continuation dead: the promise fails. */
  lemma OverlapShows(s: State, key: PageKey, first: Token, second: Token) returns (k: PageKey)
    requires Inv(s) && s.calls == map[] && FullElsewhere(s.view, key.parent) && key.token.None?
    requires Admitted(s, key, true) && |s.nodes| <= MAX_NODE_BINDINGS
    requires first !in s.used && second !in s.used && first != second
    requires FirstPages(s, s.view.pages.Keys)
    ensures AllEnabled(s, Overlap(key, first, second)) && HandedDead(After(s, Overlap(key, first, second)), 3, k)
  {
    OverlapLoses(s, key, first, second);
    OverlapPages(s, key, first, second);
    k := DeadFirstPage(After(s, Overlap(key, first, second)), 3);
  }

  // ---------------------------------------------------------------- such a state is reached

  const ROOT: PageKey := PageKey(None, None, 1_000)

  function Shown(n: nat): (s: seq<NodeKey>)
    ensures |s| == n && forall i :: 0 <= i < n ==> s[i] == i
  {
    seq(n, i => i)
  }

  /** The root's one page shows m nodes. */
  function RootPage(m: nat): Page {
    Page(Shown(m), None)
  }

  /** The first page below node i, and what it is stored under; there is more of it. */
  function FirstKey(i: nat): PageKey {
    PageKey(Some(i), None, 200)
  }

  function FirstPage(i: nat): Page {
    Page([], Some(i))
  }

  ghost function Below(n: nat): (r: set<nat>)
    ensures |r| == n
    ensures forall t :: t in r <==> 0 <= t < n
  {
    if n == 0 then {} else Below(n - 1) + {n - 1}
  }

  ghost function FirstKeys(n: nat): (r: set<PageKey>)
    ensures forall k :: k in r ==> k.token.None? && k.parent.Some? && k.parent.value < n
  {
    if n == 0 then {} else FirstKeys(n - 1) + {FirstKey(n - 1)}
  }

  /** The root page, then the first pages below nodes 0 to n - 1. */
  ghost function Filled(m: nat, n: nat): View {
    if n == 0 then Store(EMPTY, ROOT, RootPage(m), "")
    else Store(Filled(m, n - 1), FirstKey(n - 1), FirstPage(n - 1), "")
  }

  ghost predicate FilledPages(n: nat, pages: map<PageKey, Page>) {
    forall k :: k in pages && k != ROOT ==> pages[k].next.Some? && k in FirstKeys(n)
  }

  ghost predicate FilledBindings(n: nat, bindings: map<Token, PageBinding>) {
    bindings.Keys == Below(n) && forall t :: t in bindings ==> bindings[t].parent == Some(t)
  }

  ghost predicate FilledShape(n: nat, v: View) {
    && Linked(v) && |v.pageOrder| == n + 1 && v.pageOrder[0] == ROOT
    && FilledPages(n, v.pages) && FilledBindings(n, v.bindings)
  }

  lemma BindsWithRoom(v: View, key: PageKey, t: Token)
    requires Bounded(v) && t !in v.bindings && |v.bindingOrder| < MAX_PAGE_BINDINGS
    ensures Store(v, key, Page([], Some(t)), "").bindings == v.bindings[t := PageBinding("", key.parent, key.size)]
  {
    BindPrepared(v, t, PageBinding("", key.parent, key.size));
  }

  lemma CachesWithRoom(v: View, key: PageKey, page: Page)
    requires Bounded(v) && key !in v.pages && |v.pageOrder| < MAX_CACHED_PAGES
    ensures Store(v, key, page, "").pageOrder == v.pageOrder + [key]
    ensures Store(v, key, page, "").pages == v.pages[key := page]
  {
    CachePrepared(v, key, page);
  }

  lemma MorePages(n: nat, pages: map<PageKey, Page>)
    requires FilledPages(n, pages)
    ensures FilledPages(n + 1, pages[FirstKey(n) := FirstPage(n)])
  {
    assert FirstKeys(n + 1) == FirstKeys(n) + {FirstKey(n)};
  }

  lemma MoreBindings(n: nat, bindings: map<Token, PageBinding>)
    requires FilledBindings(n, bindings)
    ensures FilledBindings(n + 1, bindings[n := PageBinding("", Some(n), 200)])
  {
    var more := bindings[n := PageBinding("", Some(n), 200)];
    assert more.Keys == bindings.Keys + {n};
    assert Below(n + 1) == Below(n) + {n};
  }

  lemma NotYet(n: nat, v: View)
    requires FilledShape(n, v)
    ensures FirstKey(n) !in v.pages && n !in v.bindings && |v.bindingOrder| == n
  {
    assert FirstKey(n) !in FirstKeys(n);
    ElementCount(v.bindingOrder);
  }

  lemma FilledStep(n: nat, v: View)
    requires n + 1 < MAX_CACHED_PAGES && FilledShape(n, v)
    ensures FilledShape(n + 1, Store(v, FirstKey(n), FirstPage(n), ""))
  {
    NotYet(n, v);
    StoreLinked(v, FirstKey(n), FirstPage(n), "");
    CachesWithRoom(v, FirstKey(n), FirstPage(n));
    BindsWithRoom(v, FirstKey(n), n);
    MorePages(n, v.pages);
    MoreBindings(n, v.bindings);
  }

  lemma {:induction false} FilledFacts(m: nat, n: nat)
    requires n < MAX_CACHED_PAGES
    ensures FilledShape(n, Filled(m, n))
  {
    if n == 0 {
      assert CachedTokens(EMPTY) == [];
      StoreLinked(EMPTY, ROOT, RootPage(m), "");
      CachesWithRoom(EMPTY, ROOT, RootPage(m));
    } else {
      FilledFacts(m, n - 1);
      FilledStep(n - 1, Filled(m, n - 1));
    }
  }

  ghost predicate OnlyFirst(v: View, n: nat) {
    forall k :: k in v.pages ==> v.pages[k].next.Some? && k in FirstKeys(n)
  }

  lemma ElsewhereFull(v: View, n: nat)
    requires |v.pageOrder| == MAX_CACHED_PAGES && OnlyFirst(v, n) && FilledBindings(n, v.bindings)
    ensures FullElsewhere(v, Some(n))
  {
    assert forall k :: k in FirstKeys(n) ==> k.parent != Some(n);
    assert forall t :: t in v.bindings ==> t in Below(n);
  }

  /** The last first page pushes the root page out. */
  lemma FullFacts(m: nat, n: nat)
    requires n + 1 == MAX_CACHED_PAGES
    ensures Linked(Filled(m, n + 1)) && FilledBindings(n + 1, Filled(m, n + 1).bindings)
    ensures FullElsewhere(Filled(m, n + 1), Some(n + 1)) && OnlyFirst(Filled(m, n + 1), n + 1)
  {
    var v, w := Filled(m, n), Filled(m, n + 1);
    FilledFacts(m, n);
    LastFill(n, v, w);
    ElsewhereFull(w, n + 1);
  }

  lemma LastFill(n: nat, v: View, w: View)
    requires n + 1 == MAX_CACHED_PAGES && FilledShape(n, v) && w == Store(v, FirstKey(n), FirstPage(n), "")
    ensures Linked(w) && FilledBindings(n + 1, w.bindings)
    ensures |w.pageOrder| == MAX_CACHED_PAGES && OnlyFirst(w, n + 1)
  {
    NotYet(n, v);
    StoreLinked(v, FirstKey(n), FirstPage(n), "");
    FullBindings(n, v);
    FullPages(n, v, w);
  }

  lemma FullBindings(n: nat, v: View)
    requires n + 1 == MAX_CACHED_PAGES && FilledShape(n, v) && n !in v.bindings && |v.bindingOrder| == n
    ensures FilledBindings(n + 1, Store(v, FirstKey(n), FirstPage(n), "").bindings)
  {
    BindsWithRoom(v, FirstKey(n), n);
    MoreBindings(n, v.bindings);
  }

  lemma RootGone(order: seq<PageKey>, key: PageKey, k: PageKey)
    requires order != [] && NoDuplicates(order) && key != order[0] && k in order[1..] + [key]
    ensures k != order[0]
  {
    assert forall i :: 0 <= i < |order[1..]| ==> order[1..][i] == order[i + 1];
  }

  lemma StoredPages(v: View, key: PageKey, page: Page)
    ensures forall k :: k in Store(v, key, page, "").pages ==>
              k in v.pages[key := page] && Store(v, key, page, "").pages[k] == v.pages[key := page][k]
  {
  }

  lemma FullPages(n: nat, v: View, w: View)
    requires n == MAX_CACHED_PAGES - 1 && FilledShape(n, v) && FirstKey(n) !in v.pages
    requires w == Store(v, FirstKey(n), FirstPage(n), "") && Bounded(w)
    ensures |w.pageOrder| == MAX_CACHED_PAGES && OnlyFirst(w, n + 1)
  {
    StoredOrder(v, FirstKey(n), FirstPage(n));
    StoredPages(v, FirstKey(n), FirstPage(n));
    MorePages(n, v.pages);
    RootLeft(n, v, w, v.pages[FirstKey(n) := FirstPage(n)]);
  }

  lemma RootLeft(n: nat, v: View, w: View, pages: map<PageKey, Page>)
    requires NoDuplicates(v.pageOrder) && v.pageOrder != [] && v.pageOrder[0] == ROOT
    requires w.pageOrder == v.pageOrder[1..] + [FirstKey(n)] && Elements(w.pageOrder) == w.pages.Keys
    requires FilledPages(n + 1, pages) && forall k :: k in w.pages ==> k in pages && w.pages[k] == pages[k]
    ensures OnlyFirst(w, n + 1)
  {
    forall k | k in w.pages ensures w.pages[k].next.Some? && k in FirstKeys(n + 1) {
      NotRoot(v, w, FirstKey(n), k);
    }
  }

  lemma NotRoot(v: View, w: View, key: PageKey, k: PageKey)
    requires NoDuplicates(v.pageOrder) && v.pageOrder != [] && v.pageOrder[0] == ROOT && key != ROOT
    requires w.pageOrder == v.pageOrder[1..] + [key] && Elements(w.pageOrder) == w.pages.Keys && k in w.pages
    ensures k != ROOT
  {
    assert k in Elements(w.pageOrder);
    RootGone(v.pageOrder, key, k);
  }

  ghost function FilledState(m: nat, n: nat): State {
    State(Filled(m, n), Below(n), Below(m), map[], None)
  }

  ghost predicate Reachable(s: State) {
    exists states, steps :: Run(states, steps) && states[|steps|] == s
  }

  lemma ReachMore(s: State, step: Step)
    requires Reachable(s) && Enabled(s, step) && Apart(s, step)
    ensures Reachable(Apply(s, step))
  {
    var states, steps :| Run(states, steps) && states[|steps|] == s;
    var states', steps' := states + [Apply(s, step)], steps + [step];
    assert Run(states', steps');
    assert states'[|steps'|] == Apply(s, step);
  }

  /** One call alone, from entering to delivering its page. */
  lemma FetchReachable(s: State, key: PageKey, page: Page)
    requires Reachable(s) && s.calls == map[] && s.holder.None?
    requires key !in s.view.pages && Admitted(s, key, false) && Deliverable(s, page)
    ensures Reachable(s.(view := Store(s.view, key, page, ""), used := s.used + Named(page), nodes := s.nodes + NodesOf(page)))
  {
    ReachMore(s, Enter(0, key, false));
    var s1 := s.(calls := map[0 := Call(key, false)]);
    assert Apply(s, Enter(0, key, false)) == s1;
    ReachMore(s1, Recheck(0));
    var s2 := s1.(holder := Some(0));
    ReachMore(s2, Deliver(0, page, ""));
    assert s2.calls - {0} == map[];
  }

  lemma RootNodes(m: nat)
    ensures NodesOf(RootPage(m)) == Below(m)
  {
    forall x | x in Below(m) ensures x in NodesOf(RootPage(m)) {
      assert Shown(m)[x] == x;
    }
  }

  lemma RootReachable(m: nat)
    requires m <= MAX_NODE_BINDINGS
    ensures Reachable(FilledState(m, 0))
  {
    var none: seq<Step> := [];
    assert Run([START], none) && [START][|none|] == START;
    FetchReachable(START, ROOT, RootPage(m));
    RootNodes(m);
    assert START.nodes + Below(m) == Below(m) && START.used + Named(RootPage(m)) == Below(0);
  }

  lemma {:induction false} FilledReachable(m: nat, n: nat)
    requires n <= MAX_CACHED_PAGES && n < m <= MAX_NODE_BINDINGS
    ensures Reachable(FilledState(m, n))
  {
    if n == 0 {
      RootReachable(m);
    } else {
      FilledReachable(m, n - 1);
      FilledFacts(m, n - 1);
      NotYet(n - 1, Filled(m, n - 1));
      NextReachable(m, n - 1);
    }
  }

  lemma NextReachable(m: nat, n: nat)
    requires n + 1 < m <= MAX_NODE_BINDINGS && Reachable(FilledState(m, n)) && FirstKey(n) !in Filled(m, n).pages
    ensures Reachable(FilledState(m, n + 1))
  {
    FetchReachable(FilledState(m, n), FirstKey(n), FirstPage(n));
    assert Below(n) + {n} == Below(n + 1);
    assert NodesOf(FirstPage(n)) == {} && Below(m) + {} == Below(m);
  }

  lemma FullState(m: nat, n: nat)
    requires n + 1 == MAX_CACHED_PAGES && n + 2 <= m <= MAX_NODE_BINDINGS
    ensures var s := FilledState(m, n + 1);
            Inv(s) && FullElsewhere(s.view, Some(n + 1)) && FirstPages(s, s.view.pages.Keys)
  {
    FullFacts(m, n);
  }

  /** So the promise does fail once a refresh may overlap: after the root page, which shows m nodes, and the
      first pages below 256 of them, a refresh below one more overlaps a call for the same page, and the next
      call is handed a cached first page whose continuation the session does not accept. */
  lemma OverlapWitness(m: nat, n: nat) returns (s: State, k: PageKey)
    requires n == MAX_CACHED_PAGES && n < m <= MAX_NODE_BINDINGS
    ensures Reachable(s) && AllEnabled(s, Overlap(FirstKey(n), n, n + 1))
    ensures HandedDead(After(s, Overlap(FirstKey(n), n, n + 1)), 3, k)
  {
    s := FilledState(m, n);
    FilledReachable(m, n);
    FullState(m, n - 1);
    k := OverlapShows(s, FirstKey(n), n, n + 1);
  }
}
