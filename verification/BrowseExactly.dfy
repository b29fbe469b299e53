/**
  All runs of calls on one browse session, refreshes overlapping anything: exactly when the cached
  continuations stay in step with the bindings throughout, and exactly when none in the cache is ever lost.
  Which losses a client can see is the subject of BrowsePromise.
*/
module BrowseExactly {
  import opened BrowseSession
  import opened BrowseOverlap
  import opened BrowseRuns

  ghost predicate FreeRun(states: seq<State>, steps: seq<Step>) {
    && |states| == |steps| + 1
    && states[0] == START
    && forall i :: 0 <= i < |steps| ==> Turn(states, steps, i)
  }

  ghost predicate Turn(states: seq<State>, steps: seq<Step>, i: nat)
    requires i < |steps| && |states| == |steps| + 1
  {
    Enabled(states[i], steps[i]) && states[i + 1] == Apply(states[i], steps[i])
  }

  /** What no overlap can break. */
  ghost predicate Base(s: State) {
    Bounded(s.view) && s.view.bindings.Keys <= s.used
  }

  lemma BaseStep(s: State, step: Step)
    requires Base(s) && Enabled(s, step)
    ensures Base(Apply(s, step))
  {
    if step.Enter? && step.refresh {
      InvalidateBounded(s.view, step.key.parent);
    } else if step.Deliver? {
      StoreBounded(s.view, s.calls[step.id].key, step.page, step.native);
      DeliverUsed(s, step);
    }
  }

  lemma DeliverUsed(s: State, step: Step)
    requires Base(s) && Enabled(s, step) && step.Deliver?
    ensures Apply(s, step).view.bindings.Keys <= Apply(s, step).used
  {
  }

  /** A delivered page replaces a cached one that holds a continuation other than the oldest. */
  predicate Displaces(s: State, step: Step) {
    step.Deliver? && step.id in s.calls && s.calls[step.id].key in s.view.pages &&
    !OldestOrNone(s.view, s.calls[step.id].key)
  }

  /** A delivered page evicts the binding of another page that stays cached. */
  ghost predicate Drops(s: State, step: Step) {
    step.Deliver? && step.id in s.calls && Loses(s.view, s.calls[step.id].key, step.page)
  }

  lemma LinkedStep(s: State, step: Step)
    requires Base(s) && Linked(s.view) && Enabled(s, step)
    ensures Linked(Apply(s, step).view) <==> !Displaces(s, step)
  {
    if step.Enter? && step.refresh {
      InvalidateLinked(s.view, step.key.parent);
    } else if step.Deliver? {
      DeliverLinked(s, step);
    }
  }

  lemma DeliverLinked(s: State, step: Step)
    requires Base(s) && Linked(s.view) && Enabled(s, step) && step.Deliver?
    ensures Linked(Apply(s, step).view) <==> !Displaces(s, step)
  {
    var key := s.calls[step.id].key;
    if key in s.view.pages {
      RecacheSuffix(s.view, key, step.page, step.native);
      if OldestOrNone(s.view, key) {
        StoreBounded(s.view, key, step.page, step.native);
        SuffixIsLive(s.view, key, step.page, step.native);
      }
    } else {
      StoreLinked(s.view, key, step.page, step.native);
    }
  }

  lemma LiveStep(s: State, step: Step)
    requires Base(s) && Live(s.view) && Enabled(s, step)
    ensures Live(Apply(s, step).view) <==> !Drops(s, step)
  {
    if step.Enter? && step.refresh {
      InvalidateLive(s.view, step.key.parent);
    } else if step.Deliver? {
      StoreLive(s.view, s.calls[step.id].key, step.page, step.native);
    }
  }

  lemma {:induction false} FreeRunBase(states: seq<State>, steps: seq<Step>, n: nat)
    requires FreeRun(states, steps) && n < |states|
    ensures Base(states[n])
  {
    if n > 0 {
      FreeRunBase(states, steps, n - 1);
      assert Turn(states, steps, n - 1);
      BaseStep(states[n - 1], steps[n - 1]);
    }
  }

  ghost predicate LinkedUpTo(states: seq<State>, n: nat)
    requires n < |states|
  {
    forall i :: 0 <= i <= n ==> LinkedAt(states, i)
  }

  ghost predicate LinkedAt(states: seq<State>, i: nat)
    requires i < |states|
  {
    Linked(states[i].view)
  }

  ghost predicate LiveUpTo(states: seq<State>, n: nat)
    requires n < |states|
  {
    forall i :: 0 <= i <= n ==> Live(states[i].view)
  }

  predicate NoneDisplaces(states: seq<State>, steps: seq<Step>, n: nat)
    requires n <= |states| && n <= |steps|
  {
    forall i :: 0 <= i < n ==> !Displaces(states[i], steps[i])
  }

  ghost predicate NoneDrops(states: seq<State>, steps: seq<Step>, n: nat)
    requires n <= |states| && n <= |steps|
  {
    forall i :: 0 <= i < n ==> !Drops(states[i], steps[i])
  }

  /** Over all runs: the cached continuations are a suffix of the bound ones throughout exactly when every
      page delivered under a cached key replaces one without a continuation or with the oldest. */
  lemma {:induction false} LinkedExactly(states: seq<State>, steps: seq<Step>, n: nat)
    requires FreeRun(states, steps) && n < |states|
    ensures LinkedUpTo(states, n) <==> NoneDisplaces(states, steps, n)
  {
    if n == 0 {
      assert CachedTokens(EMPTY) == [];
    } else {
      LinkedExactly(states, steps, n - 1);
      FreeRunBase(states, steps, n - 1);
      assert Turn(states, steps, n - 1);
      if LinkedAt(states, n - 1) {
        LinkedStep(states[n - 1], steps[n - 1]);
      }
      assert LinkedUpTo(states, n) <==> LinkedUpTo(states, n - 1) && LinkedAt(states, n);
      assert NoneDisplaces(states, steps, n) <==>
             NoneDisplaces(states, steps, n - 1) && !Displaces(states[n - 1], steps[n - 1]);
    }
  }

  /** Over all runs: every page in the cache, whether or not a call could still ask for it, has its
      continuation accepted throughout exactly when no delivery evicts the binding of another page that stays
      cached. */
  lemma {:induction false} LiveExactly(states: seq<State>, steps: seq<Step>, n: nat)
    requires FreeRun(states, steps) && n < |states|
    ensures LiveUpTo(states, n) <==> NoneDrops(states, steps, n)
  {
    if n > 0 {
      LiveExactly(states, steps, n - 1);
      FreeRunBase(states, steps, n - 1);
      assert Turn(states, steps, n - 1);
      if Live(states[n - 1].view) {
        LiveStep(states[n - 1], steps[n - 1]);
      }
      assert LiveUpTo(states, n) <==> LiveUpTo(states, n - 1) && Live(states[n].view);
      assert NoneDrops(states, steps, n) <==> NoneDrops(states, steps, n - 1) && !Drops(states[n - 1], steps[n - 1]);
    }
  }

  /** A run that keeps the suffix keeps every continuation, so only a displacement can lead to a loss, then or
      at any later delivery. */
  lemma DisplacementFirst(states: seq<State>, steps: seq<Step>, n: nat)
    requires FreeRun(states, steps) && n < |states| && NoneDisplaces(states, steps, n)
    ensures NoneDrops(states, steps, n)
  {
    LinkedExactly(states, steps, n);
    forall i | 0 <= i <= n ensures Live(states[i].view) {
      assert LinkedAt(states, i);
    }
    LiveExactly(states, steps, n);
  }
}
