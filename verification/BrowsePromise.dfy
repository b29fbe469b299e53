/**
  The browse promise over all runs: every page handed out, cached or fresh, carries a continuation the
  session accepts. Only pages a call could still be handed matter here; exactly when all of those stay
  usable, whatever overlaps.
*/
module BrowsePromise {
  import opened Prelude
  import opened BrowseSession
  import opened BrowseOverlap
  import opened BrowseRuns
  import opened BrowseExactly

  // ---------------------------------------------------------------- pages that can still be asked for

  predicate Usable(v: View, k: PageKey)
    requires k in v.pages
  {
    v.pages[k].next.Some? ==> Accepts(v, k.parent, v.pages[k].next.value, k.size)
  }

  /** A new call for k would be let in: k is a first page, or its own token is still accepted. */
  predicate OwnTokenHeld(v: View, k: PageKey) {
    k.token.Some? ==> Accepts(v, k.parent, k.token.value, k.size)
  }

  /** A plain call for k has entered and has yet to look again. */
  predicate Awaited(s: State, k: PageKey) {
    exists id :: id in s.calls && !s.calls[id].refresh && s.calls[id].key == k && s.holder != Some(id)
  }

  predicate Askable(s: State, k: PageKey) {
    k in s.view.pages && (OwnTokenHeld(s.view, k) || Awaited(s, k))
  }

  /** Every cached page that a call could be handed is usable. */
  ghost predicate Sound(s: State) {
    forall k :: Askable(s, k) ==> Usable(s.view, k)
  }

  // ---------------------------------------------------------------- what no overlap can break

  predicate KeyKnown(s: State, k: PageKey) {
    (k.parent.Some? ==> k.parent.value in s.nodes) && (k.token.Some? ==> k.token.value in s.used)
  }

  /** t is bound before u, if both are bound. */
  ghost predicate Earlier(order: seq<Token>, t: Token, u: Token) {
    forall i, j :: 0 <= i < |order| && 0 <= j < |order| && order[i] == t && order[j] == u ==> i < j
  }

  /** A cached page's own token is bound before its continuation. */
  ghost predicate TokenFirst(v: View) {
    forall k :: k in v.pages && k.token.Some? && v.pages[k].next.Some? ==>
      Earlier(v.bindingOrder, k.token.value, v.pages[k].next.value)
  }

  ghost predicate NamesKnown(s: State) {
    && (forall k :: k in s.view.pages ==> KeyKnown(s, k))
    && (forall k :: k in s.view.pages && s.view.pages[k].next.Some? ==> s.view.pages[k].next.value in s.used)
    && (forall id :: id in s.calls ==> KeyKnown(s, s.calls[id].key))
  }

  ghost predicate HolderLooked(s: State) {
    && (s.holder.Some? ==> s.holder.value in s.calls)
    && (s.holder.Some? && !s.calls[s.holder.value].refresh ==> s.calls[s.holder.value].key !in s.view.pages)
  }

  ghost predicate Known(s: State) {
    Base(s) && NamesKnown(s) && HolderLooked(s) && TokenFirst(s.view)
  }

  lemma {:induction false} EarlierFiltered(order: seq<Token>, keep: Token -> bool, t: Token, u: Token)
    requires Earlier(order, t, u)
    ensures Earlier(Filter(order, keep), t, u)
  {
    if order != [] {
      var rest := order[1..];
      forall i, j | 0 <= i < |rest| && 0 <= j < |rest| && rest[i] == t && rest[j] == u ensures i < j {
        assert order[i + 1] == t && order[j + 1] == u;
      }
      EarlierFiltered(rest, keep, t, u);
      FilterFacts(rest, keep);
      if keep(order[0]) {
        EarlierPushed(order, Filter(rest, keep), t, u);
      }
    }
  }

  lemma EarlierPushed(order: seq<Token>, kept: seq<Token>, t: Token, u: Token)
    requires order != [] && Earlier(order, t, u) && Earlier(kept, t, u)
    requires forall x :: x in kept ==> x in order[1..]
    ensures Earlier([order[0]] + kept, t, u)
  {
    var all := [order[0]] + kept;
    assert order[0] == u ==> t !in order;
    assert forall x :: x in order[1..] ==> x in order;
    assert order[0] == u ==> t !in kept;
    forall i, j | 0 <= i < |all| && 0 <= j < |all| && all[i] == t && all[j] == u ensures i < j {
      if i > 0 && j > 0 {
        assert kept[i - 1] == t && kept[j - 1] == u;
      }
    }
  }

  /** Nothing is bound before the oldest. */
  lemma NoneBeforeOldest(order: seq<Token>, t: Token)
    requires order != []
    ensures Earlier(order, t, order[0]) ==> t !in order
  {
  }

  lemma EarlierNewest(order: seq<Token>, more: seq<Token>, bound: nat, t: Token, u: Token)
    requires Earlier(order, t, u) && t !in more && u !in more
    ensures Earlier(Newest(order + more, bound), t, u)
  {
    var all := order + more;
    assert Earlier(all, t, u);
    var cut := |all| - |Newest(all, bound)|;
    assert forall i :: 0 <= i < |Newest(all, bound)| ==> Newest(all, bound)[i] == all[i + cut];
  }

  lemma LastIsLatest(order: seq<Token>, bound: nat, t: Token, u: Token)
    requires u !in order && t != u
    ensures Earlier(Newest(order + [u], bound), t, u)
  {
    var all := order + [u];
    var cut := |all| - |Newest(all, bound)|;
    assert forall i :: 0 <= i < |Newest(all, bound)| ==> Newest(all, bound)[i] == all[i + cut];
  }

  // ---------------------------------------------------------------- every step keeps it

  lemma InvalidateFirst(v: View, parent: Option<NodeKey>)
    requires TokenFirst(v)
    ensures TokenFirst(Invalidate(v, parent))
  {
    var w := Invalidate(v, parent);
    forall k | k in w.pages && k.token.Some? && w.pages[k].next.Some?
      ensures Earlier(w.bindingOrder, k.token.value, w.pages[k].next.value)
    {
      EarlierFiltered(v.bindingOrder, BoundIn(w.bindings), k.token.value, w.pages[k].next.value);
    }
  }

  lemma StoreFirst(s: State, key: PageKey, page: Page, native: string)
    requires Base(s) && NamesKnown(s) && TokenFirst(s.view) && KeyKnown(s, key)
    requires page.next.Some? ==> page.next.value !in s.used
    ensures TokenFirst(Store(s.view, key, page, native))
  {
    var v, w := s.view, Store(s.view, key, page, native);
    StoreBounded(v, key, page, native);
    StoreBindings(v, key, page, native);
    forall k | k in w.pages && k.token.Some? && w.pages[k].next.Some?
      ensures Earlier(w.bindingOrder, k.token.value, w.pages[k].next.value)
    {
      if k == key {
        assert page.next.value !in Elements(v.bindingOrder);
        LastIsLatest(v.bindingOrder, MAX_PAGE_BINDINGS, k.token.value, page.next.value);
      } else {
        StorePages(v, key, page, native, k);
        EarlierNewest(v.bindingOrder, NextTokens(page), MAX_PAGE_BINDINGS, k.token.value, v.pages[k].next.value);
      }
    }
  }

  lemma DeliveredPage(s: State, step: Step, k: PageKey)
    requires Base(s) && NamesKnown(s) && Enabled(s, step) && step.Deliver? && k in Apply(s, step).view.pages
    ensures KeyKnown(Apply(s, step), k)
    ensures Apply(s, step).view.pages[k].next.Some? ==> Apply(s, step).view.pages[k].next.value in Apply(s, step).used
  {
    var key := s.calls[step.id].key;
    StoreBounded(s.view, key, step.page, step.native);
    if k != key {
      StorePages(s.view, key, step.page, step.native, k);
      assert KeyKnown(s, k);
    } else {
      assert KeyKnown(s, key);
    }
  }

  lemma DeliverNamed(s: State, step: Step)
    requires Base(s) && NamesKnown(s) && Enabled(s, step) && step.Deliver?
    ensures NamesKnown(Apply(s, step))
  {
    var s' := Apply(s, step);
    forall k | k in s'.view.pages
      ensures KeyKnown(s', k) && (s'.view.pages[k].next.Some? ==> s'.view.pages[k].next.value in s'.used)
    {
      DeliveredPage(s, step, k);
    }
    forall id | id in s'.calls ensures KeyKnown(s', s'.calls[id].key) {
      assert KeyKnown(s, s.calls[id].key);
    }
  }

  lemma DeliverKnown(s: State, step: Step)
    requires Known(s) && Enabled(s, step) && step.Deliver?
    ensures Known(Apply(s, step))
  {
    BaseStep(s, step);
    DeliverNamed(s, step);
    StoreFirst(s, s.calls[step.id].key, step.page, step.native);
  }

  lemma KnownStep(s: State, step: Step)
    requires Known(s) && Enabled(s, step)
    ensures Known(Apply(s, step))
  {
    if step.Deliver? {
      DeliverKnown(s, step);
    } else {
      BaseStep(s, step);
      if step.Enter? && step.refresh {
        InvalidateFirst(s.view, step.key.parent);
      }
      NamedStep(s, step);
    }
  }

  lemma NamedStep(s: State, step: Step)
    requires Base(s) && NamesKnown(s) && HolderLooked(s) && Enabled(s, step) && !step.Deliver?
    ensures NamesKnown(Apply(s, step)) && HolderLooked(Apply(s, step))
  {
  }

  // ---------------------------------------------------------------- exactly when the promise holds

  /** The delivery gives up a binding that is the continuation of another page that stays cached and can
      still be asked for: a first page, or one a plain call is waiting for. (Any other page's own token was
      bound before its continuation, and so is gone.) */
  ghost predicate Harms(s: State, step: Step) {
    step.Deliver? && step.id in s.calls && step.page.next.Some? &&
    |s.view.bindingOrder| == MAX_PAGE_BINDINGS &&
    exists k :: Remains(s.view, s.calls[step.id].key, k) &&
                s.view.pages[k].next == Some(s.view.bindingOrder[0]) && (k.token.None? || Awaited(s, k))
  }

  lemma QuietStep(s: State, step: Step, k: PageKey)
    requires Known(s) && Enabled(s, step) && !step.Deliver? && Askable(Apply(s, step), k)
    ensures Askable(s, k) && s.view.pages[k] == Apply(s, step).view.pages[k]
    ensures Usable(s.view, k) ==> Usable(Apply(s, step).view, k)
  {
    if Awaited(Apply(s, step), k) {
      AwaitedBefore(s, step, k);
    }
  }

  lemma AwaitedBefore(s: State, step: Step, k: PageKey)
    requires HolderLooked(s) && Enabled(s, step) && !step.Deliver?
    requires k in Apply(s, step).view.pages && Awaited(Apply(s, step), k)
    ensures Awaited(s, k)
  {
    var s' := Apply(s, step);
    var id :| id in s'.calls && !s'.calls[id].refresh && s'.calls[id].key == k && s'.holder != Some(id);
    assert id in s.calls;
  }

  lemma AwaitedAcross(s: State, step: Step, k: PageKey)
    requires Enabled(s, step) && step.Deliver?
    ensures Awaited(Apply(s, step), k) <==> Awaited(s, k)
  {
    var s' := Apply(s, step);
    if Awaited(s, k) {
      var id :| id in s.calls && !s.calls[id].refresh && s.calls[id].key == k && s.holder != Some(id);
      assert id in s'.calls;
    }
    if Awaited(s', k) {
      var id :| id in s'.calls && !s'.calls[id].refresh && s'.calls[id].key == k && s'.holder != Some(id);
      assert id in s.calls && id != step.id;
    }
  }

  /** A token already used is accepted after a store only if it was before, and was not the one given up. */
  lemma AcceptedBefore(v: View, key: PageKey, page: Page, native: string, k: PageKey, t: Token)
    requires Bounded(v) && FreshToken(v, page) && page.next != Some(t)
    requires Accepts(Store(v, key, page, native), k.parent, t, k.size)
    ensures Accepts(v, k.parent, t, k.size)
    ensures t in Newest(v.bindingOrder + NextTokens(page), MAX_PAGE_BINDINGS)
  {
    var w := Store(v, key, page, native);
    StoreBounded(v, key, page, native);
    StoreBindings(v, key, page, native);
    assert t in Elements(w.bindingOrder);
    NewestFacts(v.bindingOrder + NextTokens(page), MAX_PAGE_BINDINGS);
    assert t in v.bindingOrder;
    assert t in Elements(v.bindingOrder);
  }

  /** A page other than the delivered one, if it can be asked for afterwards, could be before; and if its
      continuation is the binding given up, it is a first page or awaited. */
  lemma AskedBefore(s: State, step: Step, k: PageKey)
    requires Known(s) && Enabled(s, step) && step.Deliver? && k != s.calls[step.id].key && Askable(Apply(s, step), k)
    ensures Remains(s.view, s.calls[step.id].key, k) && Askable(s, k)
    ensures s.view.bindingOrder != [] && s.view.pages[k].next == Some(s.view.bindingOrder[0]) ==>
              k.token.None? || Awaited(s, k)
  {
    var v, key := s.view, s.calls[step.id].key;
    StorePages(v, key, step.page, step.native, k);
    AwaitedAcross(s, step, k);
    if k.token.Some? && !Awaited(s, k) {
      var t := k.token.value;
      AcceptedBefore(v, key, step.page, step.native, k, t);
      assert t in Elements(v.bindingOrder);
      NoneBeforeOldest(v.bindingOrder, t);
    }
  }

  lemma HarmlessDelivery(s: State, step: Step, k: PageKey)
    requires Known(s) && Sound(s) && Enabled(s, step) && step.Deliver? && !Harms(s, step)
    requires Askable(Apply(s, step), k)
    ensures Usable(Apply(s, step).view, k)
  {
    var v, key := s.view, s.calls[step.id].key;
    StoreBounded(v, key, step.page, step.native);
    if k == key {
      StoreBindings(v, key, step.page, step.native);
    } else {
      AskedBefore(s, step, k);
      StorePages(v, key, step.page, step.native, k);
      if v.pages[k].next.Some? {
        RemainingAccepted(v, key, step.page, step.native, k, v.pages[k].next.value);
      }
    }
  }

  lemma HarmfulDelivery(s: State, step: Step)
    requires Known(s) && Enabled(s, step) && Harms(s, step)
    ensures !Sound(Apply(s, step))
  {
    var v, key := s.view, s.calls[step.id].key;
    var k :| Remains(v, key, k) && v.pages[k].next == Some(v.bindingOrder[0]) && (k.token.None? || Awaited(s, k));
    var w := Apply(s, step).view;
    StorePages(v, key, step.page, step.native, k);
    StoreBounded(v, key, step.page, step.native);
    StoreBindings(v, key, step.page, step.native);
    AwaitedAcross(s, step, k);
    Evicted(v, step.page);
    assert v.bindingOrder[0] in v.bindingOrder;
    assert v.bindingOrder[0] !in Elements(w.bindingOrder);
    assert Askable(Apply(s, step), k) && !Usable(w, k);
  }

  lemma SoundStep(s: State, step: Step)
    requires Known(s) && Sound(s) && Enabled(s, step)
    ensures Sound(Apply(s, step)) <==> !Harms(s, step)
  {
    if Harms(s, step) {
      HarmfulDelivery(s, step);
    } else {
      forall k | Askable(Apply(s, step), k) ensures Usable(Apply(s, step).view, k) {
        if step.Deliver? {
          HarmlessDelivery(s, step, k);
        } else {
          QuietStep(s, step, k);
        }
      }
    }
  }

  lemma {:induction false} FreeRunKnown(states: seq<State>, steps: seq<Step>, n: nat)
    requires FreeRun(states, steps) && n < |states|
    ensures Known(states[n])
  {
    if n > 0 {
      FreeRunKnown(states, steps, n - 1);
      assert Turn(states, steps, n - 1);
      KnownStep(states[n - 1], steps[n - 1]);
    }
  }

  ghost predicate SoundAt(states: seq<State>, i: nat)
    requires i < |states|
  {
    Sound(states[i])
  }

  ghost predicate SoundUpTo(states: seq<State>, n: nat)
    requires n < |states|
  {
    forall i :: 0 <= i <= n ==> SoundAt(states, i)
  }

  ghost predicate NoneHarms(states: seq<State>, steps: seq<Step>, n: nat)
    requires n <= |states| && n <= |steps|
  {
    forall i :: 0 <= i < n ==> !Harms(states[i], steps[i])
  }

  /** Over all runs: every page any call could be handed is usable throughout exactly when no delivery gives
      up the continuation of another page that stays cached and can still be asked for. */
  lemma {:induction false} SoundExactly(states: seq<State>, steps: seq<Step>, n: nat)
    requires FreeRun(states, steps) && n < |states|
    ensures SoundUpTo(states, n) <==> NoneHarms(states, steps, n)
  {
    if n > 0 {
      SoundExactly(states, steps, n - 1);
      FreeRunKnown(states, steps, n - 1);
      assert Turn(states, steps, n - 1);
      if SoundAt(states, n - 1) {
        SoundStep(states[n - 1], steps[n - 1]);
      }
      assert SoundUpTo(states, n) <==> SoundUpTo(states, n - 1) && SoundAt(states, n);
      assert NoneHarms(states, steps, n) <==> NoneHarms(states, steps, n - 1) && !Harms(states[n - 1], steps[n - 1]);
    }
  }

  // ---------------------------------------------------------------- what calls are actually handed

  /** A call that is served at once, or after the call holding the operation lock has given up. */
  predicate Soon(more: seq<Step>) {
    |more| == 1 || (|more| == 2 && more[0].Abort?)
  }

  /** The last of these steps hands out a page whose continuation the session does not accept. */
  ghost predicate HandsOutDead(s: State, more: seq<Step>)
    requires more != []
  {
    var before := After(s, more[..|more| - 1]);
    AllEnabled(s, more) && Served(before, more[|more| - 1]).Some? &&
    !UsableIn(Apply(before, more[|more| - 1]).view, Served(before, more[|more| - 1]).value)
  }

  lemma DeliveredUsable(s: State, step: Step)
    requires Known(s) && Enabled(s, step) && step.Deliver?
    ensures Served(s, step).Some? && UsableIn(Apply(s, step).view, Served(s, step).value)
  {
    StoreBounded(s.view, s.calls[step.id].key, step.page, step.native);
    StoreBindings(s.view, s.calls[step.id].key, step.page, step.native);
  }

  lemma CachedIsAskable(s: State, step: Step)
    requires Known(s) && Enabled(s, step) && !step.Deliver? && Served(s, step).Some?
    ensures Askable(s, Served(s, step).value.key) && Apply(s, step).view == s.view
    ensures Served(s, step).value.page == s.view.pages[Served(s, step).value.key]
  {
  }

  lemma ServedUsable(s: State, step: Step)
    requires Known(s) && Sound(s) && Enabled(s, step) && Served(s, step).Some?
    ensures UsableIn(Apply(s, step).view, Served(s, step).value)
  {
    if step.Deliver? {
      DeliveredUsable(s, step);
    } else {
      CachedIsAskable(s, step);
    }
  }

  /** Any page that counts as askable is indeed handed out soon, as it is now. */
  lemma AskableIsServed(s: State, k: PageKey) returns (more: seq<Step>)
    requires Known(s) && Askable(s, k)
    ensures Soon(more) && AllEnabled(s, more)
    ensures Served(After(s, more[..|more| - 1]), more[|more| - 1]) == Some(Reply(k, s.view.pages[k]))
    ensures Apply(After(s, more[..|more| - 1]), more[|more| - 1]).view == s.view
  {
    if OwnTokenHeld(s.view, k) {
      var id := MaxOf(s.calls.Keys) + 1;
      more := [Enter(id, k, false)];
      assert KeyKnown(s, k);
    } else {
      var id :| id in s.calls && !s.calls[id].refresh && s.calls[id].key == k && s.holder != Some(id);
      if s.holder.None? {
        more := [Recheck(id)];
      } else {
        more := [Abort(s.holder.value), Recheck(id)];
        AbortThenLook(s, id);
      }
    }
    assert more[..0] == [];
  }

  lemma AbortThenLook(s: State, id: CallId)
    requires s.holder.Some? && s.holder.value in s.calls && s.holder != Some(id)
    requires id in s.calls && !s.calls[id].refresh && s.calls[id].key in s.view.pages
    ensures var more := [Abort(s.holder.value), Recheck(id)];
            AllEnabled(s, more) && After(s, more[..1]) == Apply(s, more[0]) &&
            Served(Apply(s, more[0]), more[1]) == Some(Reply(s.calls[id].key, s.view.pages[s.calls[id].key])) &&
            Apply(Apply(s, more[0]), more[1]).view == s.view
  {
    var more := [Abort(s.holder.value), Recheck(id)];
    assert more[..1] == [more[0]] && more[1..] == [more[1]] && more[1..][1..] == [];
  }

  lemma TwoEnabled(s: State, more: seq<Step>)
    requires |more| == 2
    ensures AllEnabled(s, more) <==> Enabled(s, more[0]) && Enabled(Apply(s, more[0]), more[1])
    ensures After(s, more[..1]) == Apply(s, more[0])
  {
    var t, rest := Apply(s, more[0]), more[1..];
    assert rest[0] == more[1] && rest[1..] == [];
    assert AllEnabled(t, rest) <==> Enabled(t, rest[0]) && AllEnabled(Apply(t, rest[0]), rest[1..]);
    assert more[..1][0] == more[0] && more[..1][1..] == [];
  }

  lemma SoonIsSafe(s: State, more: seq<Step>)
    requires Known(s) && Sound(s) && Soon(more)
    ensures !HandsOutDead(s, more)
  {
    if |more| == 1 {
      assert more[..0] == [];
      if Enabled(s, more[0]) && Served(s, more[0]).Some? {
        ServedUsable(s, more[0]);
      }
    } else {
      var t := Apply(s, more[0]);
      TwoEnabled(s, more);
      if Enabled(s, more[0]) && Enabled(t, more[1]) && Served(t, more[1]).Some? {
        KnownStep(s, more[0]);
        SoundStep(s, more[0]);
        ServedUsable(t, more[1]);
      }
    }
  }

  /** Sound is what a client can see: nothing dead is handed out now or once the lock holder gives up. */
  lemma SoundIsSeen(s: State)
    requires Known(s)
    ensures Sound(s) <==> forall more :: Soon(more) ==> !HandsOutDead(s, more)
  {
    if Sound(s) {
      forall more | Soon(more) ensures !HandsOutDead(s, more) {
        SoonIsSafe(s, more);
      }
    } else {
      var k :| Askable(s, k) && !Usable(s.view, k);
      var more := AskableIsServed(s, k);
      assert HandsOutDead(s, more);
    }
  }

  /** The promise, exactly: along a run nothing dead is or could soon be handed out just when no delivery gives
      up the continuation of another cached page that can still be asked for. */
  lemma PromiseExactly(states: seq<State>, steps: seq<Step>, n: nat)
    requires FreeRun(states, steps) && n < |states|
    ensures NoneHarms(states, steps, n) <==>
            forall i, more :: 0 <= i <= n && Soon(more) ==> !HandsOutDead(states[i], more)
  {
    SoundExactly(states, steps, n);
    forall i | 0 <= i <= n
      ensures SoundAt(states, i) <==> forall more :: Soon(more) ==> !HandsOutDead(states[i], more)
    {
      FreeRunKnown(states, steps, i);
      SoundIsSeen(states[i]);
    }
  }

  /** And every page the run itself hands out before the first harmful delivery is usable. */
  lemma PromiseKept(states: seq<State>, steps: seq<Step>, n: nat)
    requires FreeRun(states, steps) && n < |steps| && NoneHarms(states, steps, n)
    ensures Served(states[n], steps[n]).Some? ==> UsableIn(states[n + 1].view, Served(states[n], steps[n]).value)
  {
    SoundExactly(states, steps, n);
    FreeRunKnown(states, steps, n);
    assert Turn(states, steps, n);
    assert SoundAt(states, n);
    if Served(states[n], steps[n]).Some? {
      ServedUsable(states[n], steps[n]);
    }
  }

  /** A delivery that harms also drops a cached continuation, though not the other way round: a run that loses
      nothing from the cache keeps the promise. */
  lemma PromiseWhileLive(states: seq<State>, steps: seq<Step>, n: nat)
    requires FreeRun(states, steps) && n < |steps| && NoneDrops(states, steps, n + 1)
    ensures Served(states[n], steps[n]).Some? ==> UsableIn(states[n + 1].view, Served(states[n], steps[n]).value)
  {
    assert forall i :: 0 <= i < n && Harms(states[i], steps[i]) ==> Drops(states[i], steps[i]);
    PromiseKept(states, steps, n);
  }

  // ---------------------------------------------------------------- what lets a call in, and what it is given

  /** Step i delivered a page that named token t, for this parent and page size, native continuation included. */
  ghost predicate IssuedAt(states: seq<State>, steps: seq<Step>, i: nat, t: Token, binding: PageBinding)
    requires i < |steps| && i < |states|
  {
    steps[i].Deliver? && steps[i].id in states[i].calls && steps[i].page.next == Some(t) &&
    binding == PageBinding(steps[i].native, states[i].calls[steps[i].id].key.parent, states[i].calls[steps[i].id].key.size)
  }

  ghost predicate Issued(
    states: seq<State>, steps: seq<Step>, n: nat, t: Token, parent: Option<NodeKey>, size: nat)
    requires n <= |steps| && n <= |states|
  {
    exists i, native :: 0 <= i < n && IssuedAt(states, steps, i, t, PageBinding(native, parent, size))
  }

  lemma BoundBefore(s: State, step: Step, t: Token)
    requires Enabled(s, step) && t in Apply(s, step).view.bindings
    ensures step.Deliver? && step.page.next == Some(t) ==>
              Apply(s, step).view.bindings[t]
              == PageBinding(step.native, s.calls[step.id].key.parent, s.calls[step.id].key.size)
    ensures !(step.Deliver? && step.page.next == Some(t)) ==>
              t in s.view.bindings && Apply(s, step).view.bindings[t] == s.view.bindings[t]
  {
  }

  lemma {:induction false} BoundWasIssued(states: seq<State>, steps: seq<Step>, n: nat, t: Token) returns (i: nat)
    requires FreeRun(states, steps) && n < |states| && t in states[n].view.bindings
    ensures i < n && IssuedAt(states, steps, i, t, states[n].view.bindings[t])
  {
    assert n > 0;
    assert Turn(states, steps, n - 1);
    BoundBefore(states[n - 1], steps[n - 1], t);
    i := n - 1;
    if !(steps[i].Deliver? && steps[i].page.next == Some(t)) {
      i := BoundWasIssued(states, steps, n - 1, t);
    }
  }

  lemma {:induction false} KnownWasShown(states: seq<State>, steps: seq<Step>, n: nat, node: NodeKey) returns (i: nat)
    requires FreeRun(states, steps) && n < |states| && node in states[n].nodes
    ensures i < n && steps[i].Deliver? && node in steps[i].page.nodes
  {
    assert n > 0;
    assert Turn(states, steps, n - 1);
    i := n - 1;
    if !(steps[i].Deliver? && node in steps[i].page.nodes) {
      i := KnownWasShown(states, steps, n - 1, node);
    }
  }

  /** A call gets in only with what the session gave out: a token issued for the parent and the page size it asks
      for, a parent that some page showed, and a refresh from its first page on. */
  lemma AdmittedOnlyWithOwn(states: seq<State>, steps: seq<Step>, n: nat)
    requires FreeRun(states, steps) && n < |steps| && steps[n].Enter?
    ensures var key := steps[n].key;
            && (steps[n].refresh ==> key.token.None?)
            && (key.token.Some? ==> Issued(states, steps, n, key.token.value, key.parent, key.size))
            && (key.parent.Some? ==> exists i :: 0 <= i < n && steps[i].Deliver? && key.parent.value in steps[i].page.nodes)
  {
    var key := steps[n].key;
    assert Turn(states, steps, n);
    if key.token.Some? {
      var i := BoundWasIssued(states, steps, n, key.token.value);
      assert states[n].view.bindings[key.token.value]
             == PageBinding(states[n].view.bindings[key.token.value].native, key.parent, key.size);
    }
    if key.parent.Some? {
      var i := KnownWasShown(states, steps, n, key.parent.value);
    }
  }

  /** A refresh is never answered from the cache, and whoever is answered or gives up is gone. */
  lemma AnsweredOnce(s: State, step: Step)
    requires Enabled(s, step) && (Served(s, step).Some? || step.Abort?)
    ensures step.Enter? ==> !step.refresh
    ensures step.Recheck? ==> !s.calls[step.id].refresh
    ensures step.id !in Apply(s, step).calls
    ensures s.holder == Some(step.id) && !step.Enter? ==> Apply(s, step).holder.None?
  {
  }
}
