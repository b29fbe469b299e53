/**
  One index build: the event loop with size- and time-triggered commits, and its finalisation.

  Waiting, pacing, timeouts and database availability are inputs, one `Turn` per loop iteration, so
  every pattern of commits and interruptions is some sequence of turns.
*/
module BuildLoop {
  import opened Prelude
  import T = IndexTables
  import opened IndexStore

  datatype Completion = Completion(complete: bool, cancelled: bool, truncated: bool,
                                   profile: (T.Organization, T.Source), warning: Option<string>)

  datatype Event =
    | EntryEvent(entry: T.Entry)
    | ProgressEvent(seen: nat, unique: nat)
    | SliceEvent
    | CompletedEvent(result: Completion)
    | StreamError

  datatype Received = Timeout | EndOfStream | Got(event: Event)

  datatype Readiness = Ready | ReadyCancelled | ReadyFailed

  /** `admitted` answers the waits inside event handling (rate limiter, duty cycle);
      `dueAvailable` and `available` say whether the database accepts the due commit and the event's write. */
  datatype Turn = Turn(
    due: bool, dueAvailable: bool, readiness: Readiness, received: Received, admitted: bool, available: bool)

  datatype Outcome = Finished | InterruptedByShutdown | BuildFailed

  // ---------------------------------------------------------------- specification

  function EntriesOf(turns: seq<Turn>): seq<T.Entry> {
    if turns == [] then []
    else
      var last := turns[|turns| - 1].received;
      EntriesOf(turns[..|turns| - 1]) +
      if last.Got? && last.event.EntryEvent? then [last.event.entry] else []
  }

  lemma EntriesOfNext(turns: seq<Turn>, i: nat)
    requires i < |turns|
    ensures EntriesOf(turns[..i + 1]) == EntriesOf(turns[..i]) + EntriesOf([turns[i]])
    ensures var received := turns[i].received;
            EntriesOf([turns[i]]) == if received.Got? && received.event.EntryEvent? then [received.event.entry] else []
  {
    assert turns[..i + 1][..i] == turns[..i];
    assert [turns[i]][..0] == [];
  }

  /** The rows a stream of entries amounts to: one per ItemID, the first occurrence kept. */
  function FirstWins(k: T.GenKey, entries: seq<T.Entry>): map<T.EntryKey, T.Entry> {
    if entries == [] then map[]
    else
      var rows := FirstWins(k, entries[..|entries| - 1]);
      var e := entries[|entries| - 1];
      if T.EntryKey(k, e.itemId) in rows then rows else rows[T.EntryKey(k, e.itemId) := e]
  }

  /** FirstWins by index instead of by recursion. */
  lemma {:induction false} FirstWinsMeaning(k: T.GenKey, entries: seq<T.Entry>, e: T.EntryKey)
    ensures e in FirstWins(k, entries) <==>
              e.gen == k && exists i :: 0 <= i < |entries| && entries[i].itemId == e.itemId
    ensures e in FirstWins(k, entries) ==>
              exists i :: 0 <= i < |entries| && FirstWins(k, entries)[e] == entries[i] &&
                          entries[i].itemId == e.itemId &&
                          forall j :: 0 <= j < i ==> entries[j].itemId != e.itemId
  {
    if entries != [] {
      var n := |entries| - 1;
      var front := entries[..n];
      FirstWinsMeaning(k, front, e);
      if e in FirstWins(k, front) {
        var i :| 0 <= i < n && FirstWins(k, front)[e] == front[i] && front[i].itemId == e.itemId &&
                 forall j :: 0 <= j < i ==> front[j].itemId != e.itemId;
        assert entries[i] == front[i];
        assert forall j :: 0 <= j < i ==> entries[j] == front[j];
      } else {
        assert forall j :: 0 <= j < n ==> entries[j] == front[j];
        if e.gen == k && entries[n].itemId == e.itemId {
          assert e == T.EntryKey(k, entries[n].itemId);
          assert FirstWins(k, entries)[e] == entries[n];
        }
      }
    }
  }

  lemma {:induction false} FirstWinsKeys(k: T.GenKey, entries: seq<T.Entry>)
    ensures forall e :: e in FirstWins(k, entries) ==> e.gen == k
  {
    if entries != [] {
      FirstWinsKeys(k, entries[..|entries| - 1]);
    }
  }

  // ---------------------------------------------------------------- which builds complete

  /** Whether committing these entries succeeds: nothing to do, or the database accepts them. */
  predicate Storable(entries: seq<T.Entry>, available: bool) {
    entries == [] || (available && forall e :: e in entries ==> e.itemId != "")
  }

  /** What is pending once the due commit is done. */
  function AfterDue(turn: Turn, pending: seq<T.Entry>): seq<T.Entry> {
    if turn.due then [] else pending
  }

  /** The turn gets as far as an event. */
  predicate Delivers(turn: Turn, pending: seq<T.Entry>) {
    (turn.due ==> Storable(pending, turn.dueAvailable)) && turn.readiness == Ready && turn.received.Got?
  }

  /** The turn is handled and the loop goes on. */
  predicate Flows(turn: Turn, pending: seq<T.Entry>, batch: nat) {
    Delivers(turn, pending) &&
    match turn.received.event
    case EntryEvent(e) =>
      turn.admitted && (|AfterDue(turn, pending)| + 1 < batch || Storable(AfterDue(turn, pending) + [e], turn.available))
    case ProgressEvent(_, _) => turn.available && turn.admitted
    case SliceEvent => turn.admitted
    case CompletedEvent(_) => false
    case StreamError => false
  }

  /** The entries received since the last commit of turns that all flow. */
  function Uncommitted(turns: seq<Turn>, batch: nat): seq<T.Entry> {
    if turns == [] then []
    else
      var turn := turns[|turns| - 1];
      var pending := AfterDue(turn, Uncommitted(turns[..|turns| - 1], batch));
      if turn.received.Got? && turn.received.event.EntryEvent? then
        if |pending| + 1 < batch then pending + [turn.received.event.entry] else []
      else pending
  }

  lemma UncommittedNext(turns: seq<Turn>, batch: nat, i: nat)
    requires i < |turns|
    ensures var queued, received := AfterDue(turns[i], Uncommitted(turns[..i], batch)), turns[i].received;
            Uncommitted(turns[..i + 1], batch) ==
            if !(received.Got? && received.event.EntryEvent?) then queued
            else if |queued| + 1 < batch then queued + [received.event.entry] else []
  {
    assert turns[..i + 1][..i] == turns[..i];
  }

  ghost predicate FlowsAt(turns: seq<Turn>, batch: nat, i: nat)
    requires i < |turns|
  {
    Flows(turns[i], Uncommitted(turns[..i], batch), batch)
  }

  /** The first turn from `i` on that ends the loop. */
  ghost function Stop(turns: seq<Turn>, batch: nat, i: nat): (n: nat)
    requires i <= |turns|
    ensures i <= n <= |turns| && forall j :: i <= j < n ==> FlowsAt(turns, batch, j)
    ensures n < |turns| ==> !FlowsAt(turns, batch, n)
    decreases |turns| - i
  {
    if i == |turns| || !FlowsAt(turns, batch, i) then i else Stop(turns, batch, i + 1)
  }

  /** A turn that is nothing but its event. */
  function Handled(event: Event, admitted: bool, available: bool): Turn {
    Turn(false, true, Ready, Got(event), admitted, available)
  }

  /** Once its due commit is done and its wait is over, a turn is nothing but its event. */
  lemma HandledIs(turn: Turn, pending: seq<T.Entry>, batch: nat)
    requires Delivers(turn, pending)
    ensures var handled := Handled(turn.received.event, turn.admitted, turn.available);
            (Flows(turn, pending, batch) <==> Flows(handled, AfterDue(turn, pending), batch)) &&
            VerdictOf(turn, pending) == VerdictOf(handled, AfterDue(turn, pending))
  {
  }

  datatype Verdict = Verdict(terminal: bool, completed: bool, cancelled: bool, failed: bool)

  const UNDECIDED := Verdict(false, false, false, false)
  const CANCELLED := Verdict(false, false, true, false)
  const FAILED := Verdict(false, false, false, true)

  /** What a turn that ends the loop says about the build. */
  function VerdictOf(turn: Turn, pending: seq<T.Entry>): Verdict {
    if turn.due && !Storable(pending, turn.dueAvailable) then FAILED
    else if turn.readiness != Ready then if turn.readiness.ReadyCancelled? then CANCELLED else FAILED
    else
      match turn.received
      case Timeout => FAILED
      case EndOfStream => UNDECIDED
      case Got(CompletedEvent(result)) => Verdict(true, result.complete, result.cancelled, result.truncated)
      case Got(EntryEvent(_)) => if turn.admitted then FAILED else CANCELLED
      case Got(ProgressEvent(_, _)) => if turn.available then CANCELLED else FAILED
      case Got(SliceEvent) => FAILED
      case Got(StreamError) => FAILED
  }

  /** How the loop over these turns ends. */
  ghost function Ending(turns: seq<Turn>, batch: nat): Verdict {
    var n := Stop(turns, batch, 0);
    if n < |turns| then VerdictOf(turns[n], Uncommitted(turns[..n], batch)) else UNDECIDED
  }

  /** What is left to commit when it has ended with its terminal event. */
  ghost function Leftover(turns: seq<Turn>, batch: nat): seq<T.Entry> {
    var n := Stop(turns, batch, 0);
    if n < |turns| then AfterDue(turns[n], Uncommitted(turns[..n], batch)) else []
  }

  /** The inputs under which a build neither fails nor is interrupted: it ends with its terminal event, not
      truncated, or is cancelled by the operator, the stream closes, and the last commit succeeds if it is due. */
  ghost predicate Finishes(turns: seq<Turn>, batch: nat, operatorCancelled: bool, streamClosed: bool, available: bool) {
    var ending := Ending(turns, batch);
    streamClosed && !ending.failed &&
    if ending.terminal && !ending.cancelled then Storable(Leftover(turns, batch), available)
    else ending.terminal || operatorCancelled
  }

  /** The inputs under which a build is promoted: the event that ends the loop says complete, neither cancelled
      nor truncated, and nothing is in the way of closing the stream, the last commit and the promotion. */
  ghost predicate Promotable(turns: seq<Turn>, batch: nat, streamClosed: bool, available: bool,
                             controlCancelled: bool, promotable: bool) {
    Ending(turns, batch) == Verdict(true, true, false, false) && streamClosed &&
    Storable(Leftover(turns, batch), available) && !controlCancelled && promotable
  }

  /** Nothing in the way of the turn: waits are granted, the database is there, every ItemID has a name. */
  predicate Untroubled(turn: Turn) {
    turn.dueAvailable && turn.readiness == Ready && turn.received.Got? && turn.admitted && turn.available &&
    (turn.received.event.EntryEvent? ==> turn.received.event.entry.itemId != "")
  }

  lemma {:induction false} UncommittedNamed(turns: seq<Turn>, batch: nat)
    requires forall i :: 0 <= i < |turns| ==> Untroubled(turns[i])
    ensures forall e :: e in Uncommitted(turns, batch) ==> e.itemId != ""
  {
    if turns != [] {
      assert Untroubled(turns[|turns| - 1]);
      UncommittedNamed(turns[..|turns| - 1], batch);
    }
  }

  predicate Carries(received: Received) {
    received.Got? && (received.event.EntryEvent? || received.event.ProgressEvent? || received.event.SliceEvent?)
  }

  predicate SaysComplete(received: Received) {
    received.Got? && received.event.CompletedEvent? &&
    received.event.result.complete && !received.event.result.cancelled && !received.event.result.truncated
  }

  lemma UntroubledFlows(turns: seq<Turn>, batch: nat, i: nat)
    requires i < |turns| && (forall j :: 0 <= j <= i ==> Untroubled(turns[j])) && Carries(turns[i].received)
    ensures FlowsAt(turns, batch, i)
  {
    UncommittedNamed(turns[..i], batch);
    assert Untroubled(turns[i]);
  }

  /** A build that nothing goes wrong with is promoted: entries, progress and slices, then the event that says
      complete. */
  lemma UntroubledIsPromotable(turns: seq<Turn>, batch: nat, n: nat)
    requires n < |turns| && forall i :: 0 <= i <= n ==> Untroubled(turns[i])
    requires (forall i :: 0 <= i < n ==> Carries(turns[i].received)) && SaysComplete(turns[n].received)
    ensures Stop(turns, batch, 0) == n && Promotable(turns, batch, true, true, false, true)
  {
    forall i | 0 <= i < n ensures FlowsAt(turns, batch, i) {
      assert Untroubled(turns[i]);
      UntroubledFlows(turns, batch, i);
    }
    UncommittedNamed(turns[..n], batch);
    assert Untroubled(turns[n]) && !FlowsAt(turns, batch, n);
  }

  // ---------------------------------------------------------------- batching is invisible

  lemma {:induction false} InsertAllSplits(t: T.Tables, k: T.GenKey, a: seq<T.Entry>, b: seq<T.Entry>)
    ensures T.InsertAll(T.InsertAll(t, k, a), k, b) == T.InsertAll(t, k, a + b)
    decreases |b|
  {
    if b == [] {
      assert a + b == a;
    } else {
      var n := |b| - 1;
      InsertAllSplits(t, k, a, b[..n]);
      assert (a + b)[..|a + b| - 1] == a + b[..n];
      assert (a + b)[|a + b| - 1] == b[n];
    }
  }

  lemma {:induction false} InsertAllIgnoresStates(t: T.Tables, generations: map<T.GenKey, T.GenRow>, k: T.GenKey,
                                                  batch: seq<T.Entry>)
    ensures T.InsertAll(t.(generations := generations), k, batch) ==
            T.InsertAll(t, k, batch).(generations := generations)
  {
    if batch != [] {
      InsertAllIgnoresStates(t, generations, k, batch[..|batch| - 1]);
    }
  }

  lemma {:induction false} InsertAllIsFirstWins(t: T.Tables, k: T.GenKey, batch: seq<T.Entry>)
    requires forall e :: e in t.entries ==> e.gen != k
    ensures T.InsertAll(t, k, batch).entries == t.entries + FirstWins(k, batch)
  {
    if batch == [] {
      assert t.entries + map[] == t.entries;
    } else {
      var front := batch[..|batch| - 1];
      var e := batch[|batch| - 1];
      InsertAllIsFirstWins(t, k, front);
      var key := T.EntryKey(k, e.itemId);
      var rows := FirstWins(k, front);
      assert key in T.InsertAll(t, k, front).entries <==> key in rows;
      assert (t.entries + rows)[key := e] == t.entries + rows[key := e];
    }
  }

  lemma DisjointSize<K, V>(a: map<K, V>, b: map<K, V>)
    requires a.Keys !! b.Keys
    ensures |a + b| == |a| + |b|
  {
  }

  /** Committing `more` on top of what is committed is one insert of the concatenation, and the rows it
      adds are what the distinct count grows by. */
  lemma CommitStep(start: T.Tables, t: T.Tables, k: T.GenKey, done: seq<T.Entry>, more: seq<T.Entry>)
    requires forall e :: e in start.entries ==> e.gen != k
    requires t == T.InsertAll(start, k, done).(generations := t.generations)
    ensures T.InsertAll(t, k, more) == T.InsertAll(start, k, done + more).(generations := t.generations)
    ensures |FirstWins(k, done + more)| ==
            |FirstWins(k, done)| + |T.InsertAll(t, k, more).entries| - |t.entries|
  {
    InsertAllIgnoresStates(T.InsertAll(start, k, done), t.generations, k, more);
    InsertAllSplits(start, k, done, more);
    InsertAllIsFirstWins(start, k, done);
    InsertAllIsFirstWins(start, k, done + more);
    FirstWinsKeys(k, done);
    FirstWinsKeys(k, done + more);
    DisjointSize(start.entries, FirstWins(k, done));
    DisjointSize(start.entries, FirstWins(k, done + more));
  }

  /** The tables hold what was committed since `start`; only the build's own progress columns moved. */
  ghost predicate Held(start: T.Tables, key: T.GenKey, t: T.Tables, committed: seq<T.Entry>, persisted: nat) {
    T.InState(start, key, T.Staging) && T.InState(t, key, T.Staging) &&
    (forall e :: e in start.entries ==> e.gen != key) &&
    t.generations == start.generations[key := t.generations[key]] &&
    t.generations[key] == start.generations[key].(entryCount := t.generations[key].entryCount,
                                                  uniqueItemCount := t.generations[key].uniqueItemCount) &&
    t == T.InsertAll(start, key, committed).(generations := t.generations) &&
    persisted == |FirstWins(key, committed)|
  }

  lemma CommitHeld(start: T.Tables, key: T.GenKey, t: T.Tables, committed: seq<T.Entry>, persisted: nat, more: seq<T.Entry>)
    requires Held(start, key, t, committed, persisted)
    ensures var t' := T.InsertAll(t, key, more);
            |t'.entries| >= |t.entries| &&
            Held(start, key, t', committed + more, persisted + |t'.entries| - |t.entries|)
  {
    CommitStep(start, t, key, committed, more);
    FirstWinsGrows(key, committed, more);
    InsertAllKeepsStates(t, key, more);
  }

  lemma {:induction false} InsertAllKeepsStates(t: T.Tables, k: T.GenKey, batch: seq<T.Entry>)
    ensures T.InsertAll(t, k, batch).generations == t.generations
  {
    if batch != [] {
      InsertAllKeepsStates(t, k, batch[..|batch| - 1]);
    }
  }

  lemma {:induction false} FirstWinsGrows(k: T.GenKey, done: seq<T.Entry>, more: seq<T.Entry>)
    ensures |FirstWins(k, done + more)| >= |FirstWins(k, done)|
  {
    if more == [] {
      assert done + more == done;
    } else {
      FirstWinsGrows(k, done, more[..|more| - 1]);
      assert (done + more)[..|done + more| - 1] == done + more[..|more| - 1];
    }
  }

  lemma ProgressHeld(start: T.Tables, key: T.GenKey, t: T.Tables, committed: seq<T.Entry>, persisted: nat, seen: nat, unique: nat)
    requires Held(start, key, t, committed, persisted)
    ensures Held(start, key, T.UpdateProgress(t, key, seen, unique), committed, persisted)
  {
  }

  // ---------------------------------------------------------------- the build

  const CANCELLATION := "namespace index build cancelled"
  const SHUTDOWN := "namespace index build interrupted by gateway shutdown"

  /** The note an interrupted build's generation is failed with; a failed one's is its error. */
  function Note(outcome: Outcome): Option<string> {
    if outcome == InterruptedByShutdown then Some(SHUTDOWN) else None
  }

  class BuildRun {
    const db: IndexDb
    const key: T.GenKey
    const commitBatchSize: nat

    var pending: seq<T.Entry>
    var persistedItemCount: nat
    var completed: bool
    var cancelled: bool
    var failed: bool
    var terminal: bool
    var profile: Option<(T.Organization, T.Source)>
    var warning: Option<string>

    ghost const start: T.Tables
    ghost var committed: seq<T.Entry>

    constructor (db: IndexDb, key: T.GenKey, commitBatchSize: nat)
      requires T.InState(db.Tables(), key, T.Staging)
      requires forall e :: e in db.entries ==> e.gen != key
      ensures this.db == db && this.key == key && start == db.Tables()
      ensures Valid() && Fresh()
    {
      this.db, this.key, this.commitBatchSize := db, key, commitBatchSize;
      pending, persistedItemCount := [], 0;
      completed, cancelled, failed, terminal := false, false, false, false;
      profile, warning := None, None;
      start := db.Tables();
      committed := [];
    }

    ghost predicate Fresh()
      reads this
    {
      pending == [] && committed == [] && Flags() == UNDECIDED
    }

    /** The database holds what was committed so far; only the build's own progress columns moved. */
    ghost predicate Valid()
      reads this, db
    {
      Held(start, key, db.Tables(), committed, persistedItemCount)
    }

    method CommitBatch() returns (inserted: Option<nat>)
      requires Valid()
      modifies db
      ensures inserted.Some? <==> forall e :: e in pending ==> e.itemId != ""
      ensures inserted.None? ==> Valid()
      ensures inserted.Some? ==>
                Held(start, key, db.Tables(), committed + pending, persistedItemCount + inserted.value)
    {
      CommitHeld(start, key, db.Tables(), committed, persistedItemCount, pending);
      inserted := db.InsertEntries(key, pending);
      assert forall i :: 0 <= i < |pending| ==> pending[i] in pending;
    }

    method CommitPending(available: bool) returns (ok: bool)
      requires Valid()
      modifies this, db
      ensures Valid()
      ensures committed + pending == old(committed + pending)
      ensures ok == Storable(old(pending), available)
      ensures pending == if ok then [] else old(pending)
      ensures completed == old(completed) && cancelled == old(cancelled) && failed == old(failed) &&
              terminal == old(terminal) && profile == old(profile) && warning == old(warning)
    {
      if pending == [] {
        return true;
      }
      if !available {
        return false;
      }
      var inserted := CommitBatch();
      if inserted.None? {
        return false;
      }
      persistedItemCount := persistedItemCount + inserted.value;
      committed := committed + pending;
      pending := [];
      ok := true;
    }

    function Flags(): Verdict
      reads this
    {
      Verdict(terminal, completed, cancelled, failed)
    }

    /** handle_entry_event. */
    method HandleEntry(e: T.Entry, admitted: bool, available: bool)
      requires Valid() && Flags() == UNDECIDED
      modifies this, db
      ensures Valid()
      ensures admitted ==> committed + pending == old(committed + pending) + [e]
      ensures var stored := |old(pending)| + 1 >= commitBatchSize;
              var ok := !stored || Storable(old(pending) + [e], available);
              Flags() == (if !admitted then CANCELLED else if ok then UNDECIDED else FAILED) &&
              (admitted && ok ==> pending == if stored then [] else old(pending) + [e])
    {
      if !admitted {
        cancelled := true;
        return;
      }
      pending := pending + [e];
      assert committed + pending == old(committed + pending) + [e];
      if |pending| >= commitBatchSize {
        var ok := CommitPending(available);
        failed := !ok;
      }
    }

    /** handle_progress_event. */
    method HandleProgress(seen: nat, unique: nat, admitted: bool, available: bool)
      requires Valid() && Flags() == UNDECIDED
      modifies `cancelled, `failed, db
      ensures Valid()
      ensures Flags() == if !available then FAILED else if !admitted then CANCELLED else UNDECIDED
      ensures available ==>
                db.generations[key].entryCount == seen && db.generations[key].uniqueItemCount == unique
    {
      if !available {
        failed := true;
      } else {
        ProgressHeld(start, key, db.Tables(), committed, persistedItemCount, seen, unique);
        db.UpdateProgress(key, seen, unique);
        cancelled := !admitted;
      }
    }

    /** record_completion. */
    method RecordCompletion(result: Completion)
      requires Flags() == UNDECIDED
      modifies `terminal, `completed, `cancelled, `failed, `profile, `warning
      ensures Flags() == Verdict(true, result.complete, result.cancelled, result.truncated)
      ensures profile == Some(result.profile) && (!failed ==> warning == result.warning)
    {
      terminal, completed, cancelled := true, result.complete, result.cancelled;
      profile := Some(result.profile);
      if result.truncated {
        failed := true;
      } else {
        warning := result.warning;
      }
    }

    /** handle_inventory_event. */
    method HandleEvent(event: Event, admitted: bool, available: bool) returns (stop: bool)
      requires Valid() && Flags() == UNDECIDED
      modifies this, db
      ensures Valid()
      ensures !cancelled || terminal ==>
                committed + pending == old(committed + pending) + (if event.EntryEvent? then [event.entry] else [])
      ensures !stop <==> Flows(Handled(event, admitted, available), old(pending), commitBatchSize)
      ensures Flags() == if stop then VerdictOf(Handled(event, admitted, available), old(pending)) else UNDECIDED
      ensures terminal ==> profile == Some(event.result.profile) && (!failed ==> warning == event.result.warning)
      ensures terminal ==> pending == old(pending)
      ensures !stop ==> pending == if !event.EntryEvent? then old(pending)
                                   else if |old(pending)| + 1 < commitBatchSize then old(pending) + [event.entry] else []
    {
      match event {
        case EntryEvent(e) => HandleEntry(e, admitted, available);
        case ProgressEvent(seen, unique) => HandleProgress(seen, unique, admitted, available);
        case SliceEvent => failed := !admitted;
        case CompletedEvent(result) => RecordCompletion(result);
        case StreamError => failed := true;
      }
      stop := cancelled || failed || terminal;
    }

    /** The loop of run_build_loop; running out of turns is the stream ending. */
    method DrainStream(turns: seq<Turn>) returns (consumed: nat)
      requires Valid() && Fresh()
      modifies this, db
      ensures Valid() && consumed <= |turns|
      ensures Holds(turns, consumed)
      ensures Drained(turns, consumed)
    {
      consumed := 0;
      var stop := false;
      while consumed < |turns| && !stop
        invariant Valid() && consumed <= |turns| && Holds(turns, consumed)
        invariant if stop then Drained(turns, consumed) else Going(turns, consumed)
        decreases |turns| - consumed, !stop
      {
        consumed, stop := TakeTurn(turns, consumed);
      }
    }

    /** One iteration of the loop. */
    method TakeTurn(turns: seq<Turn>, i: nat) returns (consumed: nat, stop: bool)
      requires Valid() && i < |turns| && Holds(turns, i) && Going(turns, i)
      modifies this, db
      ensures Valid() && i <= consumed <= |turns| && Holds(turns, consumed)
      ensures if stop then Drained(turns, consumed) else consumed == i + 1 && Going(turns, consumed)
    {
      var turn := turns[i];
      ghost var before := pending;
      consumed := i;
      stop := Prepare(turn);
      if !stop {
        consumed := i + 1;
        EntriesOfNext(turns, i);
        HandledIs(turn, before, commitBatchSize);
        stop := HandleEvent(turn.received.event, turn.admitted, turn.available);
        if !stop {
          WentOn(turns, i, before);
          return;
        }
      }
      StoppedAt(turns, i, consumed, before);
    }

    /** Committed plus pending are the entries of the turns consumed, unless a wait was cancelled. */
    ghost predicate Holds(turns: seq<Turn>, consumed: nat)
      requires consumed <= |turns|
      reads this
    {
      !cancelled || terminal ==> committed + pending == EntriesOf(turns[..consumed])
    }

    /** The loop has handled `consumed` turns and goes on. */
    ghost predicate Going(turns: seq<Turn>, consumed: nat)
      requires consumed <= |turns|
      reads this
    {
      Flags() == UNDECIDED && pending == Uncommitted(turns[..consumed], commitBatchSize) &&
      Stop(turns, commitBatchSize, consumed) == Stop(turns, commitBatchSize, 0)
    }

    /** The loop has ended as these turns end it. */
    ghost predicate Drained(turns: seq<Turn>, consumed: nat)
      reads this
    {
      Flags() == Ending(turns, commitBatchSize) &&
      (terminal ==>
         consumed == Stop(turns, commitBatchSize, 0) + 1 <= |turns| && pending == Leftover(turns, commitBatchSize) &&
         TerminalTurn(turns[consumed - 1].received))
    }

    lemma StoppedAt(turns: seq<Turn>, i: nat, consumed: nat, before: seq<T.Entry>)
      requires i < |turns| && Stop(turns, commitBatchSize, i) == Stop(turns, commitBatchSize, 0)
      requires before == Uncommitted(turns[..i], commitBatchSize) && !Flows(turns[i], before, commitBatchSize)
      requires Flags() == VerdictOf(turns[i], before)
      requires terminal ==>
                 consumed == i + 1 && pending == AfterDue(turns[i], before) && TerminalTurn(turns[i].received)
      ensures Drained(turns, consumed)
    {
      assert !FlowsAt(turns, commitBatchSize, i);
    }

    lemma WentOn(turns: seq<Turn>, i: nat, before: seq<T.Entry>)
      requires i < |turns| && Stop(turns, commitBatchSize, i) == Stop(turns, commitBatchSize, 0)
      requires before == Uncommitted(turns[..i], commitBatchSize) && Flows(turns[i], before, commitBatchSize)
      requires var queued := AfterDue(turns[i], before);
               pending == if !turns[i].received.event.EntryEvent? then queued
                          else if |queued| + 1 < commitBatchSize then queued + [turns[i].received.event.entry] else []
      requires Flags() == UNDECIDED
      ensures Going(turns, i + 1)
    {
      assert FlowsAt(turns, commitBatchSize, i);
      UncommittedNext(turns, commitBatchSize, i);
    }

    /** The part of a turn before its event is handled: a due commit, pacing, and the wait for an event. */
    method Prepare(turn: Turn) returns (stop: bool)
      requires Valid() && Flags() == UNDECIDED
      modifies this, db
      ensures Valid() && committed + pending == old(committed + pending)
      ensures !stop <==> Delivers(turn, old(pending))
      ensures Flags() == if stop then VerdictOf(turn, old(pending)) else UNDECIDED
      ensures !stop ==> pending == AfterDue(turn, old(pending))
    {
      stop := false;
      if turn.due {
        var ok := CommitPending(turn.dueAvailable);
        failed := !ok;
      }
      if failed {
        stop := true;
      } else if turn.readiness != Ready {
        cancelled, failed := turn.readiness.ReadyCancelled?, turn.readiness.ReadyFailed?;
        stop := true;
      } else if turn.received.Timeout? || turn.received.EndOfStream? {
        failed := turn.received.Timeout?;
        stop := true;
      }
    }

    /** Profile and warning are those of the terminal event. */
    ghost predicate TerminalTurn(received: Received)
      reads this
    {
      received.Got? && received.event.CompletedEvent? && profile == Some(received.event.result.profile) &&
      (!failed ==> warning == received.event.result.warning)
    }

    /** run_build_loop: drain the stream, classify how it ended, commit the rest. A stream that ends without its
        terminal event is the operator's cancellation or the gateway's shutdown, and otherwise a failure. */
    method RunBuildLoop(turns: seq<Turn>, operatorCancelled: bool, shuttingDown: bool, streamClosed: bool,
                        available: bool)
      returns (consumed: nat, outcome: Outcome)
      requires Valid() && Fresh()
      modifies this, db
      ensures Valid() && consumed <= |turns|
      ensures var ending := Ending(turns, commitBatchSize);
              var open := streamClosed && !ending.failed && !ending.terminal;
              completed == ending.completed && cancelled == (ending.cancelled || (open && operatorCancelled)) &&
              (outcome == InterruptedByShutdown <==> open && !operatorCancelled && shuttingDown) &&
              (outcome == Finished <==> Finishes(turns, commitBatchSize, operatorCancelled, streamClosed, available))
      ensures outcome == Finished && completed && !cancelled ==>
                consumed == Stop(turns, commitBatchSize, 0) + 1 && TerminalTurn(turns[consumed - 1].received) &&
                !failed && pending == [] && committed == EntriesOf(turns[..consumed])
    {
      consumed := DrainStream(turns);
      if !streamClosed {
        failed := true;
      }
      var interrupted := false;
      if !terminal && !failed {
        if operatorCancelled {
          cancelled := true;
        } else if shuttingDown {
          interrupted := true;
        } else {
          failed := true;
        }
      }
      if pending != [] && !failed && !cancelled && !interrupted {
        var ok := CommitPending(available);
        failed := !ok;
      }
      outcome := if interrupted then InterruptedByShutdown else if failed then BuildFailed else Finished;
      assert pending == [] ==> committed + pending == committed;
    }

    /** finalize_build: promotion of a completed, uncancelled build and of no other. */
    method Finalize(outcome: Outcome, controlCancelled: bool, promotable: bool, at: string) returns (promoted: bool)
      requires Valid()
      modifies db
      ensures promoted == (outcome == Finished && completed && !cancelled && !controlCancelled && promotable)
      ensures T.SameRows(old(db.Tables()), db.Tables())
      ensures promoted ==> T.Succeeded(start, db.Tables().(entries := start.entries, fts := start.fts), key)
      ensures promoted ==> RecordedAs(profile, warning, at, persistedItemCount)
      ensures !promoted ==>
                Retired(outcome == Finished && (!completed || cancelled || controlCancelled), Note(outcome))
    {
      promoted := false;
      if outcome == Finished && completed && !cancelled && !controlCancelled {
        if promotable {
          ghost var before := db.Tables();
          promoted := db.Promote(key, at, persistedItemCount, profile, warning);
          PromotionOf(start, before, db.Tables(), key, at, persistedItemCount, profile, warning);
        } else {
          db.FailGeneration(key, "the database refused the promotion");
        }
      } else if outcome == Finished {
        var discarded := db.DiscardEmptyGeneration(key);
        if !discarded {
          db.FailGeneration(key, CANCELLATION);
        }
      } else {
        db.FailGeneration(key, if outcome == InterruptedByShutdown then SHUTDOWN else "the build's error");
      }
    }

    ghost predicate RecordedAs(profile: Option<(T.Organization, T.Source)>, warning: Option<string>, at: string, count: nat)
      reads this, db
    {
      T.InState(db.Tables(), key, T.Active) && key in start.generations &&
      (var row := db.generations[key];
       && row.entryCount == count && row.uniqueItemCount == count
       && row.completedAt == Some(at) && row.lastError == warning
       && (profile.Some? ==> (row.organization, row.source) == profile.value)
       && (row.compatibilityFallback <==>
             start.generations[key].source == T.Da3 && profile.Some? && profile.value.1 == T.Da2))
    }

    /** The generation is failed, with this note if one is given, or discarded, which it is exactly when it was
        abandoned with nothing stored for it; and nothing else changed its state. */
    ghost predicate Retired(abandoned: bool, note: Option<string>)
      reads this, db
    {
      && (key !in db.generations <==> abandoned && !T.HasEntries(db.entries, key) && !T.HasFts(db.fts, key))
      && (key in db.generations ==>
            && db.generations[key].state == T.Failed && db.generations[key].lastError.Some?
            && (abandoned ==> db.generations[key].lastError == Some(CANCELLATION))
            && (!abandoned && note.Some? ==> db.generations[key].lastError == note))
      && forall k :: k != key ==> (k in db.generations <==> k in start.generations) &&
                                  (k in start.generations ==> db.generations[k] == start.generations[k])
    }

    /** run_build. A build is promoted exactly for these inputs, at the turn that delivered its terminal event;
        its generation is then the server's active one, with one row per distinct ItemID received, the first
        occurrence kept, both counts the number of those rows, and the profile and warning of that event.
        Any other build activates nothing; its generation is discarded if the build was cancelled before anything
        was stored, and failed otherwise. */
    method Run(turns: seq<Turn>, operatorCancelled: bool, shuttingDown: bool, streamClosed: bool,
               available: bool, controlCancelled: bool, promotable: bool, at: string)
      returns (consumed: nat, promoted: bool)
      requires Valid() && Fresh()
      modifies this, db
      ensures consumed <= |turns|
      ensures promoted == Promotable(turns, commitBatchSize, streamClosed, available, controlCancelled, promotable)
      ensures promoted ==> consumed == Stop(turns, commitBatchSize, 0) + 1 && turns[consumed - 1].received.Got? &&
                           turns[consumed - 1].received.event.CompletedEvent?
      ensures promoted ==> db.entries == start.entries + FirstWins(key, EntriesOf(turns[..consumed]))
      ensures promoted ==> T.Succeeded(start, db.Tables().(entries := start.entries, fts := start.fts), key)
      ensures promoted ==>
                var result := turns[consumed - 1].received.event.result;
                RecordedAs(Some(result.profile), result.warning, at, |FirstWins(key, EntriesOf(turns[..consumed]))|)
      ensures !promoted ==>
                Retired(Finishes(turns, commitBatchSize, operatorCancelled, streamClosed, available) &&
                        !Promotable(turns, commitBatchSize, streamClosed, available, controlCancelled, true), None)
    {
      var outcome;
      consumed, outcome := RunBuildLoop(turns, operatorCancelled, shuttingDown, streamClosed, available);
      if outcome == Finished && completed && !cancelled {
        InsertAllIsFirstWins(start, key, committed);
      }
      promoted := Finalize(outcome, controlCancelled, promotable, at);
    }
  }

  /** What the promotion does to the generation rows, seen from the tables the build started with. */
  lemma PromotionOf(start: T.Tables, t: T.Tables, t': T.Tables, key: T.GenKey, at: string, count: nat,
                    profile: Option<(T.Organization, T.Source)>, warning: Option<string>)
    requires T.InState(start, key, T.Staging) && T.InState(t, key, T.Staging)
    requires t.generations == start.generations[key := t.generations[key]]
    requires T.Promote(t, key, at, count, profile, warning) == Some(t')
    ensures T.Succeeded(start, t'.(entries := start.entries, fts := start.fts), key)
  {
  }
}
