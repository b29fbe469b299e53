/**
  Cancellation of coordinated inventory workers at the granularity of single flag loads, flag stores
  and lock sections.

  `register` loads the two stop flags, applies the pacing, which may fail, later takes the control lock,
  loads both flags again and inserts.
  `cancel` stores both flags, `stop_workers` only the second; both then snapshot the registered controls
  under the lock and cancel them one at a time outside it.
*/
module WorkerControls {
  import opened Prelude

  type WorkerId = nat
  type Control = nat

  datatype WorkerPc =
    | Idle
    | FirstLoad(c: Control)      // about to load `cancelled` without the lock
    | SecondLoad(c: Control)     // about to load `worker_stop_requested` without the lock
    | Pacing(c: Control)         // about to apply the pacing
    | Waiting(c: Control)        // pacing applied; waiting for the control lock
    | LockedFirst(c: Control)    // holds the lock, about to load `cancelled`
    | LockedSecond(c: Control)   // holds the lock, about to load `worker_stop_requested`
    | Inserting(c: Control)      // holds the lock, both loads were false
    | Rejecting(c: Control, locked: bool)  // saw a flag; about to cancel its own control
    | Registered(c: Control)     // register returned true
    | Rejected(c: Control)       // register returned false or an error

  datatype CancellerPc =
    | StoreCancelled
    | StoreStop
    | TakeSnapshot
    | Cancelling(rest: set<Control>)
    | Returned

  datatype State = State(
    controls: map<WorkerId, Control>,
    cancelled: bool,
    stopRequested: bool,
    holder: Option<WorkerId>,
    workers: map<WorkerId, WorkerPc>,
    cancellers: map<nat, CancellerPc>,
    used: set<Control>,           // every control ever offered to `register`
    stopped: set<Control>,        // controls on which cancel() was called
    unregistered: set<Control>,
    failed: set<Control>)         // controls whose `register` returned an error

  datatype Step =
    | Offer(w: WorkerId, c: Control)
    | LoadFlag(w: WorkerId)
    | Pace(w: WorkerId, ok: bool)
    | Lock(w: WorkerId)
    | Insert(w: WorkerId)
    | Reject(w: WorkerId)
    | Unregister(w: WorkerId)
    | Begin(id: nat, full: bool)
    | Store(id: nat)
    | Snapshot(id: nat)
    | CancelOne(id: nat, c: Control)
    | Return(id: nat)

  function Goto(s: State, w: WorkerId, pc: WorkerPc): State {
    s.(workers := s.workers[w := pc])
  }

  /** The successor of one of the four flag loads. */
  function AfterLoad(s: State, pc: WorkerPc): WorkerPc {
    match pc
    case FirstLoad(c) => if s.cancelled then Rejecting(c, false) else SecondLoad(c)
    case SecondLoad(c) => if s.stopRequested then Rejecting(c, false) else Pacing(c)
    case LockedFirst(c) => if s.cancelled then Rejecting(c, true) else LockedSecond(c)
    case LockedSecond(c) => if s.stopRequested then Rejecting(c, true) else Inserting(c)
    case _ => pc
  }

  ghost predicate Next(s: State, step: Step, s': State) {
    match step
    case Offer(w, c) =>
      w in s.workers && (s.workers[w].Idle? || s.workers[w].Rejected?) && c !in s.used &&
      s' == Goto(s, w, FirstLoad(c)).(used := s.used + {c})
    case LoadFlag(w) =>
      w in s.workers &&
      (s.workers[w].FirstLoad? || s.workers[w].SecondLoad? || s.workers[w].LockedFirst? ||
       s.workers[w].LockedSecond?) &&
      s' == Goto(s, w, AfterLoad(s, s.workers[w]))
    case Pace(w, ok) =>
      w in s.workers && s.workers[w].Pacing? &&
      s' == if ok then Goto(s, w, Waiting(s.workers[w].c))
            else Goto(s, w, Rejected(s.workers[w].c)).(failed := s.failed + {s.workers[w].c})
    case Lock(w) =>
      w in s.workers && s.workers[w].Waiting? && s.holder.None? &&
      s' == Goto(s, w, LockedFirst(s.workers[w].c)).(holder := Some(w))
    case Insert(w) =>
      w in s.workers && s.workers[w].Inserting? &&
      s' == Goto(s, w, Registered(s.workers[w].c)).(controls := s.controls[w := s.workers[w].c], holder := None)
    case Reject(w) =>
      w in s.workers && s.workers[w].Rejecting? &&
      s' == Goto(s, w, Rejected(s.workers[w].c)).(stopped := s.stopped + {s.workers[w].c},
              holder := if s.workers[w].locked then None else s.holder)
    case Unregister(w) =>
      w in s.workers && s.workers[w].Registered? && s.holder.None? &&
      s' == Goto(s, w, Idle).(controls := s.controls - {w}, unregistered := s.unregistered + {s.workers[w].c})
    case Begin(id, full) =>
      id !in s.cancellers && s' == s.(cancellers := s.cancellers[id := if full then StoreCancelled else StoreStop])
    case Store(id) =>
      id in s.cancellers && (s.cancellers[id].StoreCancelled? || s.cancellers[id].StoreStop?) &&
      s' == if s.cancellers[id].StoreCancelled?
            then s.(cancelled := true, cancellers := s.cancellers[id := StoreStop])
            else s.(stopRequested := true, cancellers := s.cancellers[id := TakeSnapshot])
    case Snapshot(id) =>
      id in s.cancellers && s.cancellers[id].TakeSnapshot? && s.holder.None? &&
      s' == s.(cancellers := s.cancellers[id := Cancelling(s.controls.Values)])
    case CancelOne(id, c) =>
      id in s.cancellers && s.cancellers[id].Cancelling? && c in s.cancellers[id].rest &&
      s' == s.(stopped := s.stopped + {c},
               cancellers := s.cancellers[id := Cancelling(s.cancellers[id].rest - {c})])
    case Return(id) =>
      id in s.cancellers && s.cancellers[id] == Cancelling({}) &&
      s' == s.(cancellers := s.cancellers[id := Returned])
  }

  // ---------------------------------------------------------------- invariant

  predicate HoldsLock(pc: WorkerPc) {
    pc.LockedFirst? || pc.LockedSecond? || pc.Inserting? || (pc.Rejecting? && pc.locked)
  }

  predicate InRegister(pc: WorkerPc) {
    !pc.Idle? && !pc.Registered? && !pc.Rejected?
  }

  ghost predicate LockInv(s: State) {
    (forall w :: w in s.workers && HoldsLock(s.workers[w]) ==> s.holder == Some(w)) &&
    (s.holder.Some? ==> s.holder.value in s.workers && HoldsLock(s.workers[s.holder.value]))
  }

  ghost predicate RegistryInv(s: State) {
    (forall w :: w in s.workers && s.workers[w].Registered? ==>
       w in s.controls && s.controls[w] == s.workers[w].c) &&
    (forall w :: w in s.controls ==> w in s.workers && s.workers[w] == Registered(s.controls[w]))
  }

  predicate PastStop(pc: CancellerPc) {
    pc.TakeSnapshot? || pc.Cancelling? || pc.Returned?
  }

  /** A canceller that has its snapshot: nobody is about to insert, and every registered control is
      cancelled or still on its list. */
  ghost predicate SnapshotInv(s: State, id: nat)
    requires id in s.cancellers
  {
    PastStop(s.cancellers[id]) ==>
      s.stopRequested &&
      (!s.cancellers[id].TakeSnapshot? ==>
         (forall w :: w in s.workers ==> !s.workers[w].Inserting?) &&
         (forall w :: w in s.controls ==>
            s.controls[w] in s.stopped ||
            (s.cancellers[id].Cancelling? && s.controls[w] in s.cancellers[id].rest)))
  }

  /** Every offered control is still inside `register`, registered, cancelled, unregistered, or was handed
      back with an error. */
  ghost predicate Accounted(s: State, c: Control) {
    c in s.stopped || c in s.unregistered || c in s.failed ||
    exists w :: Carries(s, w, c)
  }

  ghost predicate Inv(s: State) {
    LockInv(s) && RegistryInv(s) &&
    (forall id :: id in s.cancellers ==> SnapshotInv(s, id)) &&
    (forall c :: c in s.used ==> Accounted(s, c))
  }

  predicate Carries(s: State, w: WorkerId, c: Control) {
    w in s.workers && (InRegister(s.workers[w]) || s.workers[w].Registered?) && s.workers[w].c == c
  }

  lemma CarrierStays(s: State, step: Step, s': State, w: WorkerId, c: Control)
    requires Next(s, step, s') && Carries(s, w, c)
    ensures Carries(s', w, c) || c in s'.stopped || c in s'.unregistered || c in s'.failed
  {
  }

  lemma NothingForgotten(s: State, step: Step, s': State)
    requires Next(s, step, s')
    ensures s.stopped <= s'.stopped && s.unregistered <= s'.unregistered && s.failed <= s'.failed
    ensures forall c :: c in s'.used && c !in s.used ==> step.Offer? && Carries(s', step.w, c)
  {
  }

  lemma AccountedStays(s: State, step: Step, s': State, c: Control)
    requires Inv(s) && Next(s, step, s') && c in s'.used
    ensures Accounted(s', c)
  {
    NothingForgotten(s, step, s');
    if c !in s.used {
      assert Carries(s', step.w, c);
    } else if c !in s.stopped && c !in s.unregistered && c !in s.failed {
      var w :| Carries(s, w, c);
      CarrierStays(s, step, s', w, c);
    }
  }

  lemma LockStays(s: State, step: Step, s': State)
    requires Inv(s) && Next(s, step, s')
    ensures LockInv(s')
  {
  }

  lemma RegistryStays(s: State, step: Step, s': State)
    requires Inv(s) && Next(s, step, s')
    ensures RegistryInv(s')
  {
  }

  lemma SnapshotStays(s: State, step: Step, s': State, id: nat)
    requires Inv(s) && Next(s, step, s') && id in s'.cancellers
    ensures SnapshotInv(s', id)
  {
    if id in s.cancellers {
      assert SnapshotInv(s, id);
      if step == Snapshot(id) {
        assert forall w :: w in s.controls ==> s.controls[w] in s.controls.Values;
      }
    }
  }

  lemma StepInv(s: State, step: Step, s': State)
    requires Inv(s) && Next(s, step, s')
    ensures Inv(s')
  {
    LockStays(s, step, s');
    RegistryStays(s, step, s');
    forall c | c in s'.used
      ensures Accounted(s', c)
    {
      AccountedStays(s, step, s', c);
    }
    forall id | id in s'.cancellers
      ensures SnapshotInv(s', id)
    {
      SnapshotStays(s, step, s', id);
    }
  }

  ghost predicate Run(states: seq<State>, steps: seq<Step>, workers: set<WorkerId>) {
    |states| == |steps| + 1 &&
    states[0] == State(map[], false, false, None, map w | w in workers :: Idle, map[], {}, {}, {}, {}) &&
    forall i :: 0 <= i < |steps| ==> Next(states[i], steps[i], states[i + 1])
  }

  lemma {:induction false} RunInv(states: seq<State>, steps: seq<Step>, workers: set<WorkerId>, i: nat)
    requires Run(states, steps, workers) && i < |states|
    ensures Inv(states[i])
  {
    if i > 0 {
      RunInv(states, steps, workers, i - 1);
      StepInv(states[i - 1], steps[i - 1], states[i]);
    }
  }

  /** Each control is offered once, to one worker, and one handed back with an error is carried by none. */
  ghost predicate OfferInv(s: State) {
    (forall w, c :: Carries(s, w, c) ==> c in s.used && c !in s.failed) &&
    (forall v, w, c :: Carries(s, v, c) && Carries(s, w, c) ==> v == w) &&
    (forall c :: c in s.failed ==> c in s.used)
  }

  lemma OfferStays(s: State, step: Step, s': State)
    requires OfferInv(s) && Next(s, step, s')
    ensures OfferInv(s')
  {
    assert step.Pace? ==> Carries(s, step.w, s.workers[step.w].c);
    forall w, c | Carries(s', w, c)
      ensures c in s'.used && c !in s'.failed
      ensures Carries(s, w, c) || (step.Offer? && step.w == w && step.c == c)
    {
      assert Carries(s, w, c) || (step.Offer? && step.w == w && step.c == c);
    }
  }

  lemma {:induction false} RunOffers(states: seq<State>, steps: seq<Step>, workers: set<WorkerId>, i: nat)
    requires Run(states, steps, workers) && i < |states|
    ensures OfferInv(states[i])
  {
    if i > 0 {
      RunOffers(states, steps, workers, i - 1);
      OfferStays(states[i - 1], steps[i - 1], states[i]);
    }
  }

  /** A control handed back with an error is in no registry, so no canceller's snapshot will ever hold it. */
  lemma HandedBack(states: seq<State>, steps: seq<Step>, workers: set<WorkerId>, i: nat, c: Control)
    requires Run(states, steps, workers) && i < |states| && c in states[i].failed
    ensures c !in states[i].controls.Values
  {
    RunInv(states, steps, workers, i);
    RunOffers(states, steps, workers, i);
    var s := states[i];
    assert forall w :: w in s.controls ==> Carries(s, w, s.controls[w]);
  }

  /** Once some `cancel` or `stop_workers` has returned, every control whose `register` has returned is
      cancelled or was unregistered, unless `register` failed to apply the pacing: that control is neither
      cancelled nor registered, and it is the caller, told of the error, who shuts its stream down. A
      `register` still in flight can only end by cancelling its control or with that error. */
  lemma NoWorkerEscapes(states: seq<State>, steps: seq<Step>, workers: set<WorkerId>, i: nat, id: nat, c: Control)
    requires Run(states, steps, workers) && i < |states|
    requires id in states[i].cancellers && states[i].cancellers[id].Returned? && c in states[i].used
    ensures var s := states[i];
            c in s.stopped || c in s.unregistered || c in s.failed ||
            exists w :: w in s.workers && InRegister(s.workers[w]) && s.workers[w].c == c && !s.workers[w].Inserting?
  {
    RunInv(states, steps, workers, i);
    var s := states[i];
    assert SnapshotInv(s, id);
    assert Accounted(s, c);
    assert forall w :: w in s.workers && s.workers[w].Registered? ==> s.workers[w].c in s.stopped;
  }

  // ---------------------------------------------------------------- nothing is stopped without cause

  /** Nobody has cancelled or stopped anything: every control that left `register` is registered, was
      unregistered since, or was handed back with an error, and none was cancelled. */
  ghost predicate Undisturbed(s: State) {
    && !s.cancelled && !s.stopRequested && s.stopped == {} && s.cancellers == map[]
    && forall w :: w in s.workers ==>
         !s.workers[w].Rejecting? && (s.workers[w].Rejected? ==> s.workers[w].c in s.failed)
  }

  lemma UndisturbedStays(s: State, step: Step, s': State)
    requires Undisturbed(s) && Next(s, step, s') && s'.cancellers == map[]
    ensures Undisturbed(s')
  {
  }

  lemma CancellersStay(s: State, step: Step, s': State)
    requires Next(s, step, s')
    ensures s.cancellers.Keys <= s'.cancellers.Keys
  {
  }

  lemma {:induction false} RunUndisturbed(states: seq<State>, steps: seq<Step>, workers: set<WorkerId>, i: nat)
    requires Run(states, steps, workers) && i < |states| && states[i].cancellers == map[]
    ensures Undisturbed(states[i])
  {
    if i > 0 {
      CancellersStay(states[i - 1], steps[i - 1], states[i]);
      RunUndisturbed(states, steps, workers, i - 1);
      UndisturbedStays(states[i - 1], steps[i - 1], states[i]);
    }
  }

  /** As long as nobody has begun to cancel or stop, every control offered is in `register`, registered under
      its worker, unregistered by it, or handed back because its pacing failed. */
  lemma OnlyForCause(states: seq<State>, steps: seq<Step>, workers: set<WorkerId>, i: nat, c: Control)
    requires Run(states, steps, workers) && i < |states| && states[i].cancellers == map[] && c in states[i].used
    ensures var s := states[i];
            c !in s.stopped &&
            (c in s.unregistered || c in s.failed || c in s.controls.Values ||
             exists w :: w in s.workers && InRegister(s.workers[w]) && !s.workers[w].Rejecting? && s.workers[w].c == c)
  {
    var s := states[i];
    RunUndisturbed(states, steps, workers, i);
    RunInv(states, steps, workers, i);
    assert Accounted(s, c);
    if c !in s.unregistered && c !in s.failed {
      var w :| Carries(s, w, c);
      assert s.workers[w].Registered? ==> s.controls[w] in s.controls.Values;
    }
  }

  /** How far a `register` is from returning. */
  function RegisterRank(pc: WorkerPc): nat {
    match pc
    case FirstLoad(_) => 8
    case SecondLoad(_) => 7
    case Pacing(_) => 6
    case Waiting(_) => 5
    case LockedFirst(_) => 4
    case LockedSecond(_) => 3
    case Inserting(_) => 1
    case Rejecting(_, _) => 1
    case _ => 0
  }

  predicate MovesOn(s: State, s': State, w: WorkerId) {
    w in s.workers && w in s'.workers && RegisterRank(s'.workers[w]) < RegisterRank(s.workers[w])
  }

  /** Whoever is inside `register` comes nearer to its end, or waits for the lock of one who does. */
  lemma NeverStuck(s: State, w: WorkerId) returns (step: Step, s': State, v: WorkerId)
    requires Inv(s) && w in s.workers && InRegister(s.workers[w])
    ensures Next(s, step, s') && MovesOn(s, s', v) && (v == w || (s.workers[w].Waiting? && s.holder == Some(v)))
  {
    v := if s.workers[w].Waiting? && s.holder.Some? then s.holder.value else w;
    var pc := s.workers[v];
    if pc.Pacing? {
      step, s' := Pace(v, true), Goto(s, v, Waiting(pc.c));
    } else if pc.Waiting? {
      step, s' := Lock(v), Goto(s, v, LockedFirst(pc.c)).(holder := Some(v));
    } else if pc.Inserting? {
      step := Insert(v);
      s' := Goto(s, v, Registered(pc.c)).(controls := s.controls[v := pc.c], holder := None);
    } else if pc.Rejecting? {
      step := Reject(v);
      s' := Goto(s, v, Rejected(pc.c)).(stopped := s.stopped + {pc.c}, holder := if pc.locked then None else s.holder);
    } else {
      step, s' := LoadFlag(v), Goto(s, v, AfterLoad(s, pc));
    }
  }

  /** How far a canceller is from returning. */
  predicate Nearer(a: CancellerPc, b: CancellerPc) {
    match a
    case StoreCancelled => b.StoreStop?
    case StoreStop => b.TakeSnapshot?
    case TakeSnapshot => b.Cancelling?
    case Cancelling(rest) => b.Returned? || (b.Cancelling? && b.rest < rest)
    case Returned => false
  }

  /** A canceller goes on to its end, having set its flags and cancelled what it found registered, unless a
      `register` holds the lock it wants. */
  lemma CancellerReturns(s: State, id: nat) returns (step: Step, s': State)
    requires id in s.cancellers && !s.cancellers[id].Returned?
    requires s.cancellers[id].TakeSnapshot? ==> s.holder.None?
    ensures Next(s, step, s') && id in s'.cancellers && Nearer(s.cancellers[id], s'.cancellers[id])
    ensures s.cancellers[id].StoreCancelled? ==> s'.cancelled
    ensures s.cancellers[id].StoreStop? ==> s'.stopRequested
    ensures s.cancellers[id].TakeSnapshot? ==> s'.cancellers[id].rest == s.controls.Values
    ensures s.cancellers[id].Cancelling? && s'.cancellers[id].Cancelling? ==>
              s.cancellers[id].rest - s'.cancellers[id].rest <= s'.stopped
  {
    match s.cancellers[id] {
      case StoreCancelled =>
        step, s' := Store(id), s.(cancelled := true, cancellers := s.cancellers[id := StoreStop]);
      case StoreStop =>
        step, s' := Store(id), s.(stopRequested := true, cancellers := s.cancellers[id := TakeSnapshot]);
      case TakeSnapshot =>
        step, s' := Snapshot(id), s.(cancellers := s.cancellers[id := Cancelling(s.controls.Values)]);
      case Cancelling(rest) =>
        if rest == {} {
          step, s' := Return(id), s.(cancellers := s.cancellers[id := Returned]);
        } else {
          var c :| c in rest;
          step := CancelOne(id, c);
          s' := s.(stopped := s.stopped + {c}, cancellers := s.cancellers[id := Cancelling(rest - {c})]);
        }
    }
  }
}
