/**
  Coordinated multi-worker inventory: a shared queue of roots, workers that forward their streams over
  one channel, and the coordinator that de-duplicates, reports failures and ends the stream.

  What a native stream delivers is an arbitrary input of each worker step.  The coordinator's receiver
  outlives every worker, so a worker's send cannot fail; `outOpen` is the build's end of the stream, which
  is dropped only after its drop handler has cancelled the inventory.
*/
module Coordinator {
  import opened Prelude
  import opened IndexTables

  datatype Plan = Plan(rootEntries: seq<Entry>, roots: seq<string>)

  datatype WorkerResult = WorkerResult(complete: bool, cancelled: bool, truncated: bool)

  datatype Message =
    | Note(w: nat)                              // started, progress, slice, finished
    | Forwarded(entry: Entry)
    | Terminal(w: nat, result: WorkerResult)
    | Failure(w: nat)

  datatype Output =
    | OutEntry(entry: Entry)
    | OutNote
    | OutCompleted(complete: bool)
    | OutError

  datatype WorkerPc =
    | Looping                                    // about to test should_stop_workers
    | Popping
    | Starting(root: string)
    | Streaming(root: string)
    | Reporting(root: string, last: bool)        // sent a failure, about to cancel; `last` if it then returns
    | Closing(root: string, completed: bool)     // stream over, about to test for early end
    | Ended

  datatype Phase = Emitting(next: nat) | Receiving | Joined | Done

  datatype State = State(
    queue: seq<string>,
    workers: map<nat, WorkerPc>,
    channel: seq<Message>,
    cancelled: bool,
    stopRequested: bool,
    phase: Phase,
    seen: set<string>,
    outOpen: bool,
    output: seq<Output>,
    popped: seq<string>,          // history: roots in the order they were taken
    finished: seq<string>,        // history: roots whose stream delivered its terminal event
    forwarded: seq<Entry>,        // history: entries sent by workers, in channel order
    processed: seq<Entry>)        // history: entries the coordinator has received

  datatype Arrival = ArriveEntry(entry: Entry) | ArriveNote | ArriveTerminal(result: WorkerResult) | ArriveError | ArriveEnd

  datatype Step =
    | TestStop(w: nat)
    | Pop(w: nat)
    | StartStream(w: nat, ok: bool)
    | Arrive(w: nat, arrival: Arrival)
    | Report(w: nat)
    | CloseStream(w: nat)
    | EmitRoot
    | Receive
    | JoinWorkers
    | Finish
    | CancelExternally
    | DropReceiver

  predicate ShouldStop(s: State) {
    s.cancelled || s.stopRequested
  }

  function Goto(s: State, w: nat, pc: WorkerPc): State {
    s.(workers := s.workers[w := pc])
  }

  function Say(s: State, m: Message): State {
    s.(channel := s.channel + [m])
  }

  /** emit_coordinated_entry. */
  function Emit(s: State, e: Entry): State {
    if e.itemId in s.seen then s
    else if s.outOpen then s.(seen := s.seen + {e.itemId}, output := s.output + [OutEntry(e)])
    else s.(seen := s.seen + {e.itemId}, cancelled := true)
  }

  function Deliver(s: State, o: Output): State {
    if s.outOpen then s.(output := s.output + [o]) else s
  }

  ghost predicate Next(s: State, step: Step, s': State, plan: Plan) {
    match step
    case TestStop(w) =>
      w in s.workers && s.workers[w].Looping? &&
      s' == if ShouldStop(s) then Say(Goto(s, w, Ended), Note(w)) else Goto(s, w, Popping)
    case Pop(w) =>
      w in s.workers && s.workers[w].Popping? &&
      s' == if s.queue == [] then Say(Goto(s, w, Ended), Note(w))
            else Goto(s, w, Starting(s.queue[0])).(queue := s.queue[1..], popped := s.popped + [s.queue[0]])
    case StartStream(w, ok) =>
      w in s.workers && s.workers[w].Starting? &&
      s' == if ok && !ShouldStop(s) then Say(Goto(s, w, Streaming(s.workers[w].root)), Note(w))
            else if ShouldStop(s) then Say(Goto(s, w, Ended), Note(w))
            else Say(Goto(s, w, Reporting(s.workers[w].root, true)), Failure(w))
    case Arrive(w, arrival) =>
      w in s.workers && s.workers[w].Streaming? &&
      (var root := s.workers[w].root;
       match arrival
       case ArriveEntry(e) => s' == Say(s, Forwarded(e)).(forwarded := s.forwarded + [e])
       case ArriveNote => s' == Say(s, Note(w))
       case ArriveTerminal(r) =>
         s' == Say(Goto(s, w, Closing(root, true)), Terminal(w, r)).(finished := s.finished + [root])
       case ArriveError =>
         s' == if ShouldStop(s) then Goto(s, w, Closing(root, false))
               else Say(Goto(s, w, Reporting(root, false)), Failure(w))
       case ArriveEnd => s' == Goto(s, w, Closing(root, false)))
    case Report(w) =>
      w in s.workers && s.workers[w].Reporting? &&
      s' == (if s.workers[w].last then Say(Goto(s, w, Ended), Note(w))
             else Goto(s, w, Closing(s.workers[w].root, false))).(cancelled := true)
    case CloseStream(w) =>
      w in s.workers && s.workers[w].Closing? &&
      s' == if !s.workers[w].completed && !ShouldStop(s)
            then Say(Goto(s, w, Reporting(s.workers[w].root, true)), Failure(w))
            else Goto(s, w, Looping)
    case EmitRoot =>
      s.phase.Emitting? &&
      s' == if s.phase.next < |plan.rootEntries|
            then var e := plan.rootEntries[s.phase.next];
                 Emit(s, e).(phase := if e.itemId !in s.seen && !s.outOpen then Receiving
                                      else Emitting(s.phase.next + 1))
            else s.(phase := Receiving)
    case Receive =>
      s.phase.Receiving? && s.channel != [] &&
      (var rest := s.(channel := s.channel[1..]);
       match s.channel[0]
       case Note(_) => s' == rest || s' == Deliver(rest, OutNote)
       case Forwarded(e) => s' == Emit(rest, e).(processed := s.processed + [e])
       case Terminal(_, r) =>
         s' == if !r.complete && !r.cancelled && !r.truncated
               then Deliver(rest, OutError).(cancelled := true, phase := Done) else rest
       case Failure(_) => s' == Deliver(rest, OutError).(cancelled := true, phase := Done))
    case JoinWorkers =>
      s.phase.Receiving? && s.channel == [] && (forall w :: w in s.workers ==> s.workers[w].Ended?) &&
      s' == s.(stopRequested := true, phase := Joined)
    case Finish =>
      s.phase.Joined? && s' == Deliver(s, OutCompleted(!s.cancelled)).(phase := Done)
    case CancelExternally => s' == s.(cancelled := true)
    case DropReceiver => s.cancelled && s' == s.(outOpen := false)
  }

  // ---------------------------------------------------------------- specification of the output

  function Ids(entries: seq<Entry>): set<string> {
    set e | e in entries :: e.itemId
  }

  /** Keep the first entry of each ItemID, in order of arrival. */
  function Distinct(entries: seq<Entry>): seq<Entry> {
    if entries == [] then []
    else
      var front := Distinct(entries[..|entries| - 1]);
      var e := entries[|entries| - 1];
      if e.itemId in Ids(entries[..|entries| - 1]) then front else front + [e]
  }

  lemma IdsSnoc(entries: seq<Entry>, e: Entry)
    ensures Ids(entries + [e]) == Ids(entries) + {e.itemId}
  {
  }

  lemma DistinctSnoc(entries: seq<Entry>, e: Entry)
    ensures Distinct(entries + [e]) ==
            if e.itemId in Ids(entries) then Distinct(entries) else Distinct(entries) + [e]
  {
    assert (entries + [e])[..|entries|] == entries;
  }

  lemma {:induction false} DistinctIds(entries: seq<Entry>)
    ensures Ids(Distinct(entries)) == Ids(entries)
  {
    if entries != [] {
      var m := |entries| - 1;
      DistinctIds(entries[..m]);
      assert entries == entries[..m] + [entries[m]];
      IdsSnoc(entries[..m], entries[m]);
      IdsSnoc(Distinct(entries[..m]), entries[m]);
    }
  }

  /** Positions at which an ItemID arrives for the first time, in order. */
  function Firsts(entries: seq<Entry>): seq<nat> {
    if entries == [] then []
    else
      var n := |entries| - 1;
      if entries[n].itemId in Ids(entries[..n]) then Firsts(entries[..n]) else Firsts(entries[..n]) + [n]
  }

  predicate FirstAt(entries: seq<Entry>, n: nat) {
    n < |entries| && entries[n].itemId !in Ids(entries[..n])
  }

  lemma {:induction false} FirstsIndex(entries: seq<Entry>)
    ensures |Firsts(entries)| == |Distinct(entries)|
    ensures forall i :: 0 <= i < |Firsts(entries)| ==>
              Firsts(entries)[i] < |entries| && Distinct(entries)[i] == entries[Firsts(entries)[i]]
  {
    if entries != [] {
      FirstsIndex(entries[..|entries| - 1]);
    }
  }

  lemma {:induction false} FirstsBelow(entries: seq<Entry>)
    ensures forall i :: 0 <= i < |Firsts(entries)| ==> Firsts(entries)[i] < |entries|
  {
    if entries != [] {
      FirstsBelow(entries[..|entries| - 1]);
    }
  }

  lemma {:induction false} FirstsIncrease(entries: seq<Entry>)
    ensures forall i, j :: 0 <= i < j < |Firsts(entries)| ==> Firsts(entries)[i] < Firsts(entries)[j]
  {
    if entries != [] {
      FirstsBelow(entries[..|entries| - 1]);
      FirstsIncrease(entries[..|entries| - 1]);
    }
  }

  lemma {:induction false} FirstsAll(entries: seq<Entry>, n: nat)
    ensures n in Firsts(entries) <==> FirstAt(entries, n)
  {
    if entries != [] {
      var front := entries[..|entries| - 1];
      FirstsAll(front, n);
      FirstsBelow(front);
      if n < |front| {
        assert front[..n] == entries[..n];
      }
    }
  }

  /** `Distinct` by positions: the entries at which their ItemID arrives first, in order of arrival; so every
      ItemID is kept, once. */
  lemma DistinctMeaning(entries: seq<Entry>)
    ensures |Firsts(entries)| == |Distinct(entries)|
    ensures forall i :: 0 <= i < |Firsts(entries)| ==>
              Firsts(entries)[i] < |entries| && Distinct(entries)[i] == entries[Firsts(entries)[i]]
    ensures forall i, j :: 0 <= i < j < |Firsts(entries)| ==> Firsts(entries)[i] < Firsts(entries)[j]
    ensures forall n :: n in Firsts(entries) <==> FirstAt(entries, n)
    ensures Ids(Distinct(entries)) == Ids(entries)
    ensures forall i, j :: 0 <= i < j < |Distinct(entries)| ==>
              Distinct(entries)[i].itemId != Distinct(entries)[j].itemId
  {
    FirstsIndex(entries);
    FirstsIncrease(entries);
    DistinctIds(entries);
    forall n: nat ensures n in Firsts(entries) <==> FirstAt(entries, n) {
      FirstsAll(entries, n);
    }
    forall i, j | 0 <= i < j < |Distinct(entries)|
      ensures Distinct(entries)[i].itemId != Distinct(entries)[j].itemId
    {
      var p, q := Firsts(entries)[i], Firsts(entries)[j];
      assert q in Firsts(entries) && FirstAt(entries, q) && entries[..q][p] == entries[p];
    }
  }

  function Emitted(output: seq<Output>): seq<Entry> {
    if output == [] then []
    else
      var last := output[|output| - 1];
      Emitted(output[..|output| - 1]) + if last.OutEntry? then [last.entry] else []
  }

  lemma EmittedSnoc(output: seq<Output>, o: Output)
    ensures Emitted(output + [o]) == Emitted(output) + if o.OutEntry? then [o.entry] else []
  {
  }

  function InFlight(channel: seq<Message>): seq<Entry> {
    if channel == [] then []
    else (if channel[0].Forwarded? then [channel[0].entry] else []) + InFlight(channel[1..])
  }

  lemma {:induction false} InFlightSnoc(channel: seq<Message>, m: Message)
    ensures InFlight(channel + [m]) == InFlight(channel) + if m.Forwarded? then [m.entry] else []
  {
    if channel == [] {
      assert channel + [m] == [m];
    } else {
      var more := channel + [m];
      assert more[0] == channel[0] && more[1..] == channel[1..] + [m];
      InFlightSnoc(channel[1..], m);
      assert InFlight(more) == (if more[0].Forwarded? then [more[0].entry] else []) + InFlight(more[1..]);
    }
  }

  predicate IsTerminal(o: Output) {
    o.OutCompleted? || o.OutError?
  }

  // ---------------------------------------------------------------- invariant

  /** The worker is responsible for a root whose terminal event has not arrived. */
  predicate Holds(pc: WorkerPc) {
    pc.Starting? || pc.Streaming? || pc.Reporting? || (pc.Closing? && !pc.completed)
  }

  ghost predicate AllEnded(s: State) {
    forall w :: w in s.workers ==> s.workers[w].Ended?
  }

  ghost predicate RootInv(s: State, plan: Plan) {
    s.popped + s.queue == plan.roots && NoDuplicates(plan.roots)
  }

  ghost predicate HoldInv(s: State) {
    (forall w :: w in s.workers && Holds(s.workers[w]) ==>
       s.workers[w].root in s.popped && s.workers[w].root !in s.finished) &&
    (forall v, w :: v in s.workers && w in s.workers && Holds(s.workers[v]) && Holds(s.workers[w]) && v != w ==>
       s.workers[v].root != s.workers[w].root) &&
    NoDuplicates(s.finished) && (forall r :: r in s.finished ==> r in s.popped)
  }

  ghost predicate Covered(s: State, r: string) {
    r in s.finished || exists w :: w in s.workers && Holds(s.workers[w]) && s.workers[w].root == r
  }

  /** Nothing is lost silently: a worker gives up a root, or leaves roots behind, only after cancelling. */
  ghost predicate LossInv(s: State) {
    s.workers != map[] &&
    (!s.cancelled ==>
       (forall r :: r in s.popped ==> Covered(s, r)) &&
       (forall w :: w in s.workers && s.workers[w].Ended? ==> s.queue == []))
  }

  ghost predicate StopInv(s: State) {
    (s.stopRequested ==> AllEnded(s)) && (s.phase.Joined? ==> AllEnded(s) && s.channel == [])
  }

  function Given(s: State, plan: Plan): seq<Entry> {
    (if s.phase.Emitting? && s.phase.next <= |plan.rootEntries| then plan.rootEntries[..s.phase.next]
     else plan.rootEntries) + s.processed
  }

  ghost predicate FlowInv(s: State, plan: Plan) {
    s.forwarded == s.processed + InFlight(s.channel) &&
    (s.phase.Emitting? ==> s.processed == [] && s.phase.next <= |plan.rootEntries|) &&
    (!s.outOpen ==> s.cancelled) &&
    (s.outOpen ==> Emitted(s.output) == Distinct(Given(s, plan)) && s.seen == Ids(Given(s, plan)))
  }

  ghost predicate TerminalInv(s: State) {
    forall i :: 0 <= i < |s.output| && IsTerminal(s.output[i]) ==> s.phase.Done? && i == |s.output| - 1
  }

  /** What a delivered Completed(complete = true) certifies. */
  ghost predicate Certified(s: State, plan: Plan) {
    s.popped == plan.roots && NoDuplicates(s.finished) && (forall r :: r in plan.roots <==> r in s.finished) &&
    AllEnded(s) && Emitted(s.output) == Distinct(plan.rootEntries + s.forwarded)
  }

  ghost predicate Inv(s: State, plan: Plan) {
    RootInv(s, plan) && HoldInv(s) && LossInv(s) && StopInv(s) && FlowInv(s, plan) && TerminalInv(s) &&
    (OutCompleted(true) in s.output ==> Certified(s, plan))
  }

  lemma PoppedDistinct(s: State, plan: Plan)
    requires RootInv(s, plan)
    ensures NoDuplicates(s.popped) && forall r :: r in s.queue ==> r !in s.popped
  {
    assert forall i :: 0 <= i < |s.popped| ==> plan.roots[i] == s.popped[i];
    assert forall i :: 0 <= i < |s.queue| ==> plan.roots[|s.popped| + i] == s.queue[i];
  }

  predicate ByWorker(step: Step) {
    step.TestStop? || step.Pop? || step.StartStream? || step.Arrive? || step.Report? || step.CloseStream?
  }

  lemma WorkerFrame(s: State, step: Step, s': State, plan: Plan)
    requires Next(s, step, s', plan) && ByWorker(step)
    ensures step.w in s.workers && step.w in s'.workers && s'.workers == s.workers[step.w := s'.workers[step.w]]
    ensures s'.phase == s.phase && s'.output == s.output && s'.processed == s.processed && s'.seen == s.seen
    ensures s'.outOpen == s.outOpen && s'.stopRequested == s.stopRequested && (s.cancelled ==> s'.cancelled)
  {
  }

  lemma CoordinatorFrame(s: State, step: Step, s': State, plan: Plan)
    requires Next(s, step, s', plan) && !ByWorker(step)
    ensures s'.workers == s.workers && s'.queue == s.queue && s'.popped == s.popped
    ensures s'.finished == s.finished && s'.forwarded == s.forwarded && (s.cancelled ==> s'.cancelled)
  {
  }

  /** Coordinator steps do not touch the workers, worker steps do not touch the output. */
  lemma Frames(s: State, step: Step, s': State, plan: Plan)
    requires Next(s, step, s', plan)
    ensures s.cancelled ==> s'.cancelled
    ensures s'.workers.Keys == s.workers.Keys
    ensures ByWorker(step) ==> step.w in s.workers && s'.workers == s.workers[step.w := s'.workers[step.w]]
    ensures ByWorker(step) ==> s'.phase == s.phase && s'.stopRequested == s.stopRequested
    ensures !ByWorker(step) ==> s'.workers == s.workers && s'.queue == s.queue && s'.popped == s.popped
    ensures !ByWorker(step) ==> s'.finished == s.finished && s'.forwarded == s.forwarded
  {
    if ByWorker(step) {
      WorkerFrame(s, step, s', plan);
      assert s'.workers.Keys == s.workers.Keys;
    } else {
      CoordinatorFrame(s, step, s', plan);
    }
  }

  /** How a worker step moves its root: it takes the next one, finishes it, gives it up, or keeps it. */
  ghost predicate RootMoved(s: State, step: Step, s': State)
    requires ByWorker(step) && step.w in s.workers && step.w in s'.workers
  {
    var pc, pc' := s.workers[step.w], s'.workers[step.w];
    !pc.Ended? &&
    if step.Pop? && s.queue != [] then
      !Holds(pc) && pc' == Starting(s.queue[0]) && s'.queue == s.queue[1..] &&
      s'.popped == s.popped + [s.queue[0]] && s'.finished == s.finished
    else
      s'.queue == s.queue && s'.popped == s.popped &&
      (pc'.Ended? ==> ShouldStop(s') || s.queue == []) &&
      (Holds(pc') ==> Holds(pc) && pc'.root == pc.root) &&
      (if Holds(pc) && !Holds(pc') && s'.finished != s.finished
       then s'.finished == s.finished + [pc.root]
       else s'.finished == s.finished && (Holds(pc) && !Holds(pc') ==> ShouldStop(s')))
  }

  lemma ArrivalMoves(s: State, step: Step, s': State, plan: Plan)
    requires Next(s, step, s', plan) && step.Arrive?
    ensures step.w in s'.workers && RootMoved(s, step, s')
  {
  }

  lemma TurnMoves(s: State, step: Step, s': State, plan: Plan)
    requires Next(s, step, s', plan) && (step.TestStop? || step.Pop? || step.StartStream?)
    ensures step.w in s'.workers && RootMoved(s, step, s')
  {
  }

  lemma EndMoves(s: State, step: Step, s': State, plan: Plan)
    requires Next(s, step, s', plan) && (step.Report? || step.CloseStream?)
    ensures step.w in s'.workers && RootMoved(s, step, s')
  {
  }

  lemma RootMoves(s: State, step: Step, s': State, plan: Plan)
    requires Next(s, step, s', plan) && ByWorker(step)
    ensures step.w in s.workers && step.w in s'.workers && RootMoved(s, step, s')
  {
    if step.Arrive? {
      ArrivalMoves(s, step, s', plan);
    } else if step.Report? || step.CloseStream? {
      EndMoves(s, step, s', plan);
    } else {
      TurnMoves(s, step, s', plan);
    }
  }

  lemma HoldStays(s: State, step: Step, s': State, plan: Plan)
    requires Inv(s, plan) && Next(s, step, s', plan)
    ensures RootInv(s', plan) && HoldInv(s')
  {
    Frames(s, step, s', plan);
    if ByWorker(step) {
      PoppedDistinct(s, plan);
      RootMoves(s, step, s', plan);
      HoldMoves(s, step.w, s', plan);
    }
  }

  lemma HoldMoves(s: State, w: nat, s': State, plan: Plan)
    requires RootInv(s, plan) && HoldInv(s) && w in s.workers && w in s'.workers
    requires s'.workers == s.workers[w := s'.workers[w]]
    requires forall r :: r in s.queue ==> r !in s.popped
    requires (s.queue != [] && s'.workers[w] == Starting(s.queue[0]) && s'.queue == s.queue[1..] &&
              s'.popped == s.popped + [s.queue[0]] && s'.finished == s.finished) ||
             (s'.queue == s.queue && s'.popped == s.popped &&
              (Holds(s'.workers[w]) ==> Holds(s.workers[w]) && s'.workers[w].root == s.workers[w].root) &&
              (s'.finished == s.finished ||
               (Holds(s.workers[w]) && !Holds(s'.workers[w]) && s'.finished == s.finished + [s.workers[w].root])))
    ensures RootInv(s', plan) && HoldInv(s')
  {
  }

  lemma CoverStays(s: State, step: Step, s': State, plan: Plan, r: string)
    requires Inv(s, plan) && Next(s, step, s', plan) && !s'.cancelled && r in s'.popped
    ensures Covered(s', r)
  {
    Frames(s, step, s', plan);
    if ByWorker(step) {
      RootMoves(s, step, s', plan);
      if r !in s.popped {
        assert Holds(s'.workers[step.w]) && s'.workers[step.w].root == r;
      } else if r !in s.finished {
        assert Covered(s, r);
        var w :| w in s.workers && Holds(s.workers[w]) && s.workers[w].root == r;
        assert w != step.w ==> s'.workers[w] == s.workers[w];
        assert !s.stopRequested;
      }
    } else {
      assert Covered(s, r);
    }
  }

  lemma LossStays(s: State, step: Step, s': State, plan: Plan)
    requires Inv(s, plan) && Next(s, step, s', plan)
    ensures LossInv(s') && StopInv(s')
  {
    Frames(s, step, s', plan);
    if ByWorker(step) {
      RootMoves(s, step, s', plan);
      assert !s.stopRequested && !s.phase.Joined?;
    }
    if !s'.cancelled {
      forall r | r in s'.popped
        ensures Covered(s', r)
      {
        CoverStays(s, step, s', plan, r);
      }
    }
  }

  lemma SpokenArrival(s: State, step: Step, s': State, plan: Plan) returns (more: seq<Message>)
    requires Next(s, step, s', plan) && step.Arrive?
    ensures |more| <= 1 && s'.channel == s.channel + more
    ensures s'.forwarded == s.forwarded + if more != [] && more[0].Forwarded? then [more[0].entry] else []
  {
    more := if |s'.channel| > |s.channel| then [s'.channel[|s.channel|]] else [];
  }

  lemma SpokenElse(s: State, step: Step, s': State, plan: Plan) returns (more: seq<Message>)
    requires Next(s, step, s', plan) && ByWorker(step) && !step.Arrive?
    ensures |more| <= 1 && s'.channel == s.channel + more && s'.forwarded == s.forwarded
    ensures more != [] ==> !more[0].Forwarded?
  {
    more := if |s'.channel| > |s.channel| then [s'.channel[|s.channel|]] else [];
  }

  lemma Spoken(s: State, step: Step, s': State, plan: Plan) returns (more: seq<Message>)
    requires Next(s, step, s', plan) && ByWorker(step)
    ensures |more| <= 1 && s'.channel == s.channel + more
    ensures s'.forwarded == s.forwarded + if more != [] && more[0].Forwarded? then [more[0].entry] else []
  {
    if step.Arrive? {
      more := SpokenArrival(s, step, s', plan);
    } else {
      more := SpokenElse(s, step, s', plan);
    }
  }

  lemma ChannelFlow(s: State, step: Step, s': State, plan: Plan)
    requires Next(s, step, s', plan) && ByWorker(step)
    requires s.forwarded == s.processed + InFlight(s.channel)
    ensures s'.forwarded == s'.processed + InFlight(s'.channel)
  {
    WorkerFrame(s, step, s', plan);
    var more := Spoken(s, step, s', plan);
    if more != [] {
      InFlightSnoc(s.channel, more[0]);
      assert more == [more[0]];
    }
  }

  /** Emitting one more entry keeps the output the distinct entries given so far. */
  lemma EmitKeeps(s: State, e: Entry, given: seq<Entry>)
    requires s.outOpen && Emitted(s.output) == Distinct(given) && s.seen == Ids(given)
    ensures var s' := Emit(s, e); Emitted(s'.output) == Distinct(given + [e]) && s'.seen == Ids(given + [e])
  {
    DistinctSnoc(given, e);
    IdsSnoc(given, e);
    EmittedSnoc(s.output, OutEntry(e));
  }

  lemma EmitRootFlow(s: State, s': State, plan: Plan)
    requires FlowInv(s, plan) && Next(s, EmitRoot, s', plan)
    ensures FlowInv(s', plan)
  {
    var n := s.phase.next;
    if n < |plan.rootEntries| {
      assert plan.rootEntries[..n + 1] == plan.rootEntries[..n] + [plan.rootEntries[n]];
      if s.outOpen {
        assert plan.rootEntries[..n] + [] == plan.rootEntries[..n];
        assert plan.rootEntries[..n + 1] + [] == plan.rootEntries[..n + 1];
        EmitKeeps(s, plan.rootEntries[n], plan.rootEntries[..n]);
      }
    } else {
      assert plan.rootEntries[..n] == plan.rootEntries;
    }
  }

  lemma ReceiveEntryFlow(s: State, s': State, plan: Plan)
    requires FlowInv(s, plan) && Next(s, Receive, s', plan) && s.channel[0].Forwarded?
    ensures FlowInv(s', plan)
  {
    var e := s.channel[0].entry;
    assert InFlight(s.channel) == [e] + InFlight(s.channel[1..]);
    assert s.processed + ([e] + InFlight(s.channel[1..])) == s.processed + [e] + InFlight(s.channel[1..]);
    assert Given(s', plan) == Given(s, plan) + [e];
    if s.outOpen {
      EmitKeeps(s.(channel := s.channel[1..]), e, Given(s, plan));
    }
  }

  lemma ReceiveOtherFlow(s: State, s': State, plan: Plan)
    requires FlowInv(s, plan) && Next(s, Receive, s', plan) && !s.channel[0].Forwarded?
    ensures FlowInv(s', plan)
  {
    assert InFlight(s.channel) == InFlight(s.channel[1..]);
    assert Given(s', plan) == Given(s, plan);
    EmittedSnoc(s.output, OutNote);
    EmittedSnoc(s.output, OutError);
    assert Emitted(s'.output) == Emitted(s.output);
  }

  lemma FlowStays(s: State, step: Step, s': State, plan: Plan)
    requires FlowInv(s, plan) && Next(s, step, s', plan)
    ensures FlowInv(s', plan)
  {
    if ByWorker(step) {
      WorkerFrame(s, step, s', plan);
      ChannelFlow(s, step, s', plan);
      assert Given(s', plan) == Given(s, plan);
    } else {
      match step
      case EmitRoot => EmitRootFlow(s, s', plan);
      case Receive =>
        if s.channel[0].Forwarded? {
          ReceiveEntryFlow(s, s', plan);
        } else {
          ReceiveOtherFlow(s, s', plan);
        }
      case Finish => EmittedSnoc(s.output, OutCompleted(!s.cancelled));
      case _ =>
    }
  }

  lemma TerminalStays(s: State, step: Step, s': State, plan: Plan)
    requires TerminalInv(s) && Next(s, step, s', plan)
    ensures TerminalInv(s')
    ensures OutCompleted(true) in s'.output && OutCompleted(true) !in s.output ==> step.Finish? && !s.cancelled
    ensures OutCompleted(true) in s.output ==> s'.output == s.output
  {
    if ByWorker(step) {
      WorkerFrame(s, step, s', plan);
    }
  }

  lemma CertifiedStays(s: State, step: Step, s': State, plan: Plan)
    requires Inv(s, plan) && Next(s, step, s', plan) && OutCompleted(true) in s'.output
    ensures Certified(s', plan)
  {
    TerminalStays(s, step, s', plan);
    Frames(s, step, s', plan);
    if OutCompleted(true) in s.output {
      assert Certified(s, plan);
      assert !ByWorker(step);
    } else {
      FlowStays(s, step, s', plan);
      var w :| w in s.workers;
      assert s.workers[w].Ended? && s.queue == [];
      assert s.popped + s.queue == s.popped;
      assert forall r :: r in s.popped ==> Covered(s, r);
      assert s.processed + [] == s.processed;
    }
  }

  lemma StepInv(s: State, step: Step, s': State, plan: Plan)
    requires Inv(s, plan) && Next(s, step, s', plan)
    ensures Inv(s', plan)
  {
    HoldStays(s, step, s', plan);
    LossStays(s, step, s', plan);
    FlowStays(s, step, s', plan);
    TerminalStays(s, step, s', plan);
    if OutCompleted(true) in s'.output {
      CertifiedStays(s, step, s', plan);
    }
  }

  // ---------------------------------------------------------------- whole runs

  ghost predicate Run(states: seq<State>, steps: seq<Step>, plan: Plan, workers: set<nat>) {
    |states| == |steps| + 1 && NoDuplicates(plan.roots) && workers != {} &&
    states[0] == State(plan.roots, map w | w in workers :: Looping, [], false, false, Emitting(0), {}, true,
                       [], [], [], [], []) &&
    forall i :: 0 <= i < |steps| ==> Next(states[i], steps[i], states[i + 1], plan)
  }

  lemma {:induction false} RunInv(states: seq<State>, steps: seq<Step>, plan: Plan, workers: set<nat>, i: nat)
    requires Run(states, steps, plan, workers) && i < |states|
    ensures Inv(states[i], plan)
  {
    if i > 0 {
      RunInv(states, steps, plan, workers, i - 1);
      StepInv(states[i - 1], steps[i - 1], states[i], plan);
    } else {
      var s := states[0];
      assert s.popped + s.queue == plan.roots;
      var w :| w in workers;
      assert w in s.workers;
      assert plan.rootEntries[..0] + [] == [];
    }
  }

  /** In every interleaving: at most one terminal event is delivered and it is last; and when it says
      complete, every planned root was taken exactly once, each one's own stream delivered its terminal
      event, and the entries delivered are the root entries and the forwarded entries, one per ItemID in
      order of first arrival. */
  lemma CompletionIsHonest(states: seq<State>, steps: seq<Step>, plan: Plan, workers: set<nat>, i: nat)
    requires Run(states, steps, plan, workers) && i < |states|
    ensures forall n :: 0 <= n < |states[i].output| && IsTerminal(states[i].output[n]) ==> n == |states[i].output| - 1
    ensures OutCompleted(true) in states[i].output ==> Certified(states[i], plan)
  {
    RunInv(states, steps, plan, workers, i);
  }

  // ---------------------------------------------------------------- exactly when an inventory is complete

  /** What cancels an inventory: a caller, a worker reporting a failure, or the coordinator receiving a failure
      or a terminal event that is neither complete nor cancelled nor truncated. */
  predicate Cancels(s: State, step: Step) {
    step.CancelExternally? || step.Report? ||
    (step.Receive? && s.channel != [] && Spoils(s.channel[0]))
  }

  predicate Spoils(m: Message) {
    m.Failure? || (m.Terminal? && !m.result.complete && !m.result.cancelled && !m.result.truncated)
  }

  lemma CancelledStep(s: State, step: Step, s': State, plan: Plan)
    requires Next(s, step, s', plan) && (!s.outOpen ==> s.cancelled)
    ensures s'.cancelled <==> s.cancelled || Cancels(s, step)
  {
  }

  ghost predicate Undisturbed(states: seq<State>, steps: seq<Step>, i: nat)
    requires i <= |steps| < |states|
  {
    forall n :: 0 <= n < i ==> !Cancels(states[n], steps[n])
  }

  lemma {:induction false} CancelledExactly(
    states: seq<State>, steps: seq<Step>, plan: Plan, workers: set<nat>, i: nat)
    requires Run(states, steps, plan, workers) && i < |states|
    ensures !states[i].cancelled <==> Undisturbed(states, steps, i)
  {
    if i > 0 {
      CancelledExactly(states, steps, plan, workers, i - 1);
      RunInv(states, steps, plan, workers, i - 1);
      CancelledStep(states[i - 1], steps[i - 1], states[i], plan);
      assert Undisturbed(states, steps, i) <==>
             Undisturbed(states, steps, i - 1) && !Cancels(states[i - 1], steps[i - 1]);
    }
  }

  /** The step that ends an inventory, and the terminal event it delivers while the build still listens. */
  lemma DoneStep(s: State, step: Step, s': State, plan: Plan)
    requires Inv(s, plan) && Next(s, step, s', plan) && !s.phase.Done? && s'.phase.Done?
    ensures step.Finish? || step.Receive?
    ensures step.Finish? ==> s'.cancelled == s.cancelled
    ensures step.Receive? ==> s'.cancelled && Cancels(s, step)
    ensures s'.output == if !s.outOpen then s.output
                         else s.output + [if step.Finish? then OutCompleted(!s.cancelled) else OutError]
  {
  }

  /** In every run that ends: the build is told that the inventory is complete exactly when nothing cancelled
      it, and as long as it listens it is told how the inventory ended. */
  lemma CompletesExactly(states: seq<State>, steps: seq<Step>, plan: Plan, workers: set<nat>, i: nat)
    requires Run(states, steps, plan, workers) && i < |steps|
    requires !states[i].phase.Done? && states[i + 1].phase.Done?
    ensures OutCompleted(true) in states[i + 1].output <==> Undisturbed(states, steps, i + 1)
    ensures Undisturbed(states, steps, i + 1) ==> states[i + 1].output == states[i].output + [OutCompleted(true)]
    ensures states[i].outOpen ==>
              states[i + 1].output != [] && IsTerminal(states[i + 1].output[|states[i + 1].output| - 1])
  {
    RunInv(states, steps, plan, workers, i);
    CancelledExactly(states, steps, plan, workers, i + 1);
    DoneStep(states[i], steps[i], states[i + 1], plan);
    assert forall n :: 0 <= n < |states[i].output| ==> !IsTerminal(states[i].output[n]);
  }

  /** A step in which no stream fails, ends early or ends unaccounted for, and nobody cancels. */
  predicate Calm(step: Step) {
    match step
    case StartStream(_, ok) => ok
    case Arrive(_, arrival) =>
      !arrival.ArriveError? && !arrival.ArriveEnd? &&
      (arrival.ArriveTerminal? ==> arrival.result.complete || arrival.result.cancelled || arrival.result.truncated)
    case CancelExternally => false
    case _ => true
  }

  ghost predicate Healthy(s: State) {
    !s.cancelled && s.outOpen && (forall m :: m in s.channel ==> !Spoils(m)) &&
    (forall w :: w in s.workers ==>
       !s.workers[w].Reporting? && (s.workers[w].Closing? ==> s.workers[w].completed) &&
       (s.stopRequested ==> s.workers[w].Ended?))
  }

  lemma HealthyStep(s: State, step: Step, s': State, plan: Plan)
    requires Healthy(s) && Next(s, step, s', plan) && Calm(step) && !step.JoinWorkers?
    ensures Healthy(s')
  {
    assert step.Receive? ==> s.channel[0] in s.channel;
    assert step.Receive? ==> forall m :: m in s.channel[1..] ==> m in s.channel;
  }

  lemma {:induction false} CalmRunIsHealthy(
    states: seq<State>, steps: seq<Step>, plan: Plan, workers: set<nat>, i: nat)
    requires Run(states, steps, plan, workers) && i < |states| && forall n :: 0 <= n < i ==> Calm(steps[n])
    ensures Healthy(states[i])
  {
    if i > 0 {
      CalmRunIsHealthy(states, steps, plan, workers, i - 1);
      if !steps[i - 1].JoinWorkers? {
        HealthyStep(states[i - 1], steps[i - 1], states[i], plan);
      }
    }
  }

  /** In terms of what the streams deliver: when every stream starts and runs to a terminal event and nobody
      cancels, an inventory that ends is complete. */
  lemma CalmRunCompletes(states: seq<State>, steps: seq<Step>, plan: Plan, workers: set<nat>, i: nat)
    requires Run(states, steps, plan, workers) && i < |steps| && forall n :: 0 <= n <= i ==> Calm(steps[n])
    requires !states[i].phase.Done? && states[i + 1].phase.Done?
    ensures states[i + 1].output == states[i].output + [OutCompleted(true)]
  {
    CalmRunIsHealthy(states, steps, plan, workers, i + 1);
    CancelledExactly(states, steps, plan, workers, i + 1);
    CompletesExactly(states, steps, plan, workers, i);
  }

  ghost predicate CanMove(s: State, step: Step, plan: Plan) {
    exists s' :: Next(s, step, s', plan)
  }

  /** Until it is done an inventory is never stuck: some worker or the coordinator can go on. */
  lemma NeverStuck(s: State, plan: Plan) returns (step: Step)
    requires Inv(s, plan) && !s.phase.Done?
    ensures CanMove(s, step, plan) && !step.CancelExternally? && !step.DropReceiver?
  {
    if s.phase.Emitting? {
      step := EmitRoot;
      EmitMoves(s, plan);
    } else if s.phase.Joined? {
      step := Finish;
      assert Next(s, step, Deliver(s, OutCompleted(!s.cancelled)).(phase := Done), plan);
    } else if s.channel != [] {
      step := Receive;
      ReceiveMoves(s, plan);
    } else if AllEnded(s) {
      step := JoinWorkers;
      assert Next(s, step, s.(stopRequested := true, phase := Joined), plan);
    } else {
      var w :| w in s.workers && !s.workers[w].Ended?;
      step := WorkerMoves(s, plan, w);
    }
  }

  lemma EmitMoves(s: State, plan: Plan)
    requires s.phase.Emitting?
    ensures CanMove(s, EmitRoot, plan)
  {
    var n := s.phase.next;
    var s' := if n < |plan.rootEntries|
              then var e := plan.rootEntries[n];
                   Emit(s, e).(phase := if e.itemId !in s.seen && !s.outOpen then Receiving else Emitting(n + 1))
              else s.(phase := Receiving);
    assert Next(s, EmitRoot, s', plan);
  }

  lemma ReceiveMoves(s: State, plan: Plan)
    requires s.phase.Receiving? && s.channel != []
    ensures CanMove(s, Receive, plan)
  {
    var rest := s.(channel := s.channel[1..]);
    var s' := match s.channel[0]
              case Note(_) => rest
              case Forwarded(e) => Emit(rest, e).(processed := s.processed + [e])
              case Terminal(_, r) =>
                if Spoils(s.channel[0]) then Deliver(rest, OutError).(cancelled := true, phase := Done) else rest
              case Failure(_) => Deliver(rest, OutError).(cancelled := true, phase := Done);
    assert Next(s, Receive, s', plan);
  }

  lemma WorkerMoves(s: State, plan: Plan, w: nat) returns (step: Step)
    requires w in s.workers && !s.workers[w].Ended?
    ensures CanMove(s, step, plan) && !step.CancelExternally? && !step.DropReceiver?
  {
    var s';
    match s.workers[w] {
      case Looping =>
        step := TestStop(w);
        s' := if ShouldStop(s) then Say(Goto(s, w, Ended), Note(w)) else Goto(s, w, Popping);
      case Popping =>
        step := Pop(w);
        s' := if s.queue == [] then Say(Goto(s, w, Ended), Note(w))
              else Goto(s, w, Starting(s.queue[0])).(queue := s.queue[1..], popped := s.popped + [s.queue[0]]);
      case Starting(root) =>
        step := StartStream(w, true);
        s' := if ShouldStop(s) then Say(Goto(s, w, Ended), Note(w)) else Say(Goto(s, w, Streaming(root)), Note(w));
      case Streaming(root) =>
        step := Arrive(w, ArriveNote);
        s' := Say(s, Note(w));
      case Reporting(root, last) =>
        step := Report(w);
        s' := (if last then Say(Goto(s, w, Ended), Note(w)) else Goto(s, w, Closing(root, false))).(cancelled := true);
      case Closing(root, completed) =>
        step := CloseStream(w);
        s' := if !completed && !ShouldStop(s) then Say(Goto(s, w, Reporting(root, true)), Failure(w))
              else Goto(s, w, Looping);
    }
    assert Next(s, step, s', plan);
  }
}
