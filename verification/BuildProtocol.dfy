/**
  Reservation, multi-step finalisation and deletion of index builds in one manager.

  A reservation holds every registry lock it touches, so it is one step.  A finalisation releases the
  registries one at a time: owner, active build, build lock, runtime record.  A deletion marks the server,
  waits for its build, takes the build lock, deletes, forgets the runtime record and unmarks.
*/
module BuildProtocol {
  import opened Prelude

  type Token = nat

  datatype BuildPc =
    | Running         // may write generations and entries
    | Finishing       // found current under the runtime lock; retry state is being persisted
    | OwnerRemoved
    | ActiveCleared
    | LockCleared
    | Finished

  datatype Build = Build(server: string, pc: BuildPc)

  datatype DeletePc = Marked | BuildGone | Locked | Deleted | Forgotten

  datatype State = State(
    runtime: map<string, Option<Token>>,   // per server: the build its runtime record holds, if any
    owners: map<string, Token>,
    active: set<string>,
    locks: set<string>,
    deleting: set<string>,
    enrolled: set<string>,
    builds: map<Token, Build>,
    deletes: map<string, DeletePc>)

  datatype Step =
    | Enroll(server: string)
    | Reserve(server: string, token: Token)
    | Write(token: Token)
    | BeginFinish(token: Token, controlMatches: bool)
    | RemoveOwner(token: Token)
    | ClearActive(token: Token)
    | ClearLock(token: Token)
    | TakeRuntime(token: Token)
    | BeginDelete(server: string)
    | WaitForBuild(server: string)
    | LockForDelete(server: string)
    | DeleteTransaction(server: string)
    | Forget(server: string)
    | EndDelete(server: string)

  predicate HasRuntimeBuild(s: State, server: string) {
    server in s.runtime && s.runtime[server].Some?
  }

  predicate At(s: State, token: Token, pc: BuildPc) {
    token in s.builds && s.builds[token].pc == pc
  }

  predicate DeleteAt(s: State, server: string, pc: DeletePc) {
    server in s.deletes && s.deletes[server] == pc
  }

  predicate Enabled(s: State, step: Step, concurrency: nat) {
    match step
    case Enroll(_) => true
    case Reserve(server, token) =>
      token !in s.builds && server !in s.deleting && server in s.enrolled && !HasRuntimeBuild(s, server) &&
      |s.active| < Max(concurrency, 1) && server !in s.locks && server !in s.owners
    case Write(token) => At(s, token, Running)
    case BeginFinish(token, _) => token in s.builds && !s.builds[token].pc.Finishing?  // a task finishes once
    case RemoveOwner(token) => At(s, token, Finishing)
    case ClearActive(token) => At(s, token, OwnerRemoved)
    case ClearLock(token) => At(s, token, ActiveCleared)
    case TakeRuntime(token) => At(s, token, LockCleared)
    case BeginDelete(server) => server !in s.deleting
    case WaitForBuild(server) => DeleteAt(s, server, Marked) && server !in s.active
    case LockForDelete(server) => DeleteAt(s, server, BuildGone) && server !in s.locks
    case DeleteTransaction(server) => DeleteAt(s, server, Locked)
    case Forget(server) => DeleteAt(s, server, Deleted)
    case EndDelete(server) => server in s.deletes
  }

  function MoveBuild(s: State, token: Token, pc: BuildPc): State
    requires token in s.builds
  {
    s.(builds := s.builds[token := s.builds[token].(pc := pc)])
  }

  function Apply(s: State, step: Step, concurrency: nat): State
    requires Enabled(s, step, concurrency)
  {
    match step
    case Enroll(server) => s.(enrolled := s.enrolled + {server})
    case Reserve(server, token) =>
      s.(runtime := s.runtime[server := Some(token)], owners := s.owners[server := token],
         active := s.active + {server}, locks := s.locks + {server},
         builds := s.builds[token := Build(server, Running)])
    case Write(_) => s
    case BeginFinish(token, controlMatches) =>
      var server := s.builds[token].server;
      if server in s.owners && s.owners[server] == token && controlMatches
      then MoveBuild(s, token, Finishing) else s
    case RemoveOwner(token) =>
      var server := s.builds[token].server;
      MoveBuild(s, token, OwnerRemoved).(owners :=
        if server in s.owners && s.owners[server] == token then s.owners - {server} else s.owners)
    case ClearActive(token) => MoveBuild(s, token, ActiveCleared).(active := s.active - {s.builds[token].server})
    case ClearLock(token) => MoveBuild(s, token, LockCleared).(locks := s.locks - {s.builds[token].server})
    case TakeRuntime(token) =>
      var server := s.builds[token].server;
      MoveBuild(s, token, Finished).(runtime :=
        if server in s.runtime then s.runtime[server := None] else s.runtime)
    case BeginDelete(server) => s.(deleting := s.deleting + {server}, deletes := s.deletes[server := Marked])
    case WaitForBuild(server) => s.(deletes := s.deletes[server := BuildGone])
    case LockForDelete(server) => s.(deletes := s.deletes[server := Locked])
    case DeleteTransaction(server) => s.(enrolled := s.enrolled - {server}, deletes := s.deletes[server := Deleted])
    case Forget(server) => s.(runtime := s.runtime - {server}, deletes := s.deletes[server := Forgotten])
    case EndDelete(server) => s.(deleting := s.deleting - {server}, deletes := s.deletes - {server})
  }

  // ---------------------------------------------------------------- invariant

  /** The build still occupies its server's lock registry. */
  predicate Occupies(pc: BuildPc) {
    pc.Running? || pc.Finishing? || pc.OwnerRemoved? || pc.ActiveCleared?
  }

  ghost predicate BuildInv(s: State, token: Token)
    requires token in s.builds
  {
    var b := s.builds[token];
    (Occupies(b.pc) ==> b.server in s.locks) &&
    (b.pc.Running? || b.pc.Finishing? ==>
       b.server in s.owners && s.owners[b.server] == token && b.server in s.active) &&
    (b.pc.OwnerRemoved? ==> b.server !in s.owners && b.server in s.active) &&
    (b.pc.ActiveCleared? ==> b.server !in s.owners && b.server !in s.active)
  }

  predicate Holder(s: State, token: Token) {
    token in s.builds && Occupies(s.builds[token].pc)
  }

  ghost predicate Sole(s: State) {
    forall t1, t2 :: Holder(s, t1) && Holder(s, t2) && s.builds[t1].server == s.builds[t2].server ==> t1 == t2
  }

  ghost predicate Occupied(s: State, server: string) {
    exists t :: Holder(s, t) && s.builds[t].server == server
  }

  /** A deletion past its wait: no build of the server can be writing or appear. */
  ghost predicate DeleteInv(s: State, server: string)
    requires server in s.deletes
  {
    server in s.deleting &&
    (!s.deletes[server].Marked? ==> server !in s.active) &&
    (!s.deletes[server].Marked? && !s.deletes[server].BuildGone? ==> server !in s.locks)
  }

  ghost predicate Inv(s: State, concurrency: nat) {
    (forall t :: t in s.builds ==> BuildInv(s, t)) && Sole(s) &&
    s.owners.Keys <= s.active <= s.locks &&
    (forall server :: server in s.locks ==> Occupied(s, server)) &&
    (forall server :: server in s.deletes ==> DeleteInv(s, server)) &&
    |s.active| <= Max(concurrency, 1)
  }

  // ---------------------------------------------------------------- steps

  /** A completion that does not own its server's build changes nothing at all. */
  lemma StaleCompletionIsIgnored(s: State, token: Token, controlMatches: bool, concurrency: nat)
    requires Inv(s, concurrency) && Enabled(s, BeginFinish(token, controlMatches), concurrency)
    ensures var server := s.builds[token].server;
            !s.builds[token].pc.Running? ==> server !in s.owners || s.owners[server] != token
    ensures !s.builds[token].pc.Running? || !controlMatches ==>
              Apply(s, BeginFinish(token, controlMatches), concurrency) == s
  {
    var server := s.builds[token].server;
    if !s.builds[token].pc.Running? && server in s.owners {
      assert server in s.locks;
      assert Occupied(s, server);
      var t :| Holder(s, t) && s.builds[t].server == server;
      assert BuildInv(s, t) && BuildInv(s, token);
    }
  }

  lemma HolderStays(s: State, step: Step, concurrency: nat, t: Token)
    requires Enabled(s, step, concurrency) && Holder(s, t)
    requires s.builds[t].server in Apply(s, step, concurrency).locks
    ensures Holder(Apply(s, step, concurrency), t)
    ensures Apply(s, step, concurrency).builds[t].server == s.builds[t].server
  {
  }

  lemma OccupiedStays(s: State, step: Step, concurrency: nat, server: string)
    requires Inv(s, concurrency) && Enabled(s, step, concurrency)
    requires server in Apply(s, step, concurrency).locks
    ensures Occupied(Apply(s, step, concurrency), server)
  {
    var s' := Apply(s, step, concurrency);
    if step.Reserve? && step.server == server {
      assert Holder(s', step.token);
    } else {
      assert Occupied(s, server);
      var t :| Holder(s, t) && s.builds[t].server == server;
      HolderStays(s, step, concurrency, t);
    }
  }

  lemma BuildStays(s: State, step: Step, concurrency: nat, t: Token)
    requires Inv(s, concurrency) && Enabled(s, step, concurrency) && t in Apply(s, step, concurrency).builds
    ensures BuildInv(Apply(s, step, concurrency), t)
  {
    if t in s.builds {
      assert BuildInv(s, t);
      if step.RemoveOwner? || step.ClearActive? || step.ClearLock? {
        if step.token != t {
          OtherFinishes(s, step, concurrency, t);
        }
      } else {
        UnfinishedStays(s, step, concurrency, t);
      }
    }
  }

  lemma UnfinishedStays(s: State, step: Step, concurrency: nat, t: Token)
    requires Inv(s, concurrency) && Enabled(s, step, concurrency) && t in s.builds
    requires !step.RemoveOwner? && !step.ClearActive? && !step.ClearLock?
    ensures BuildInv(Apply(s, step, concurrency), t)
  {
    assert BuildInv(s, t);
  }

  lemma OtherFinishes(s: State, step: Step, concurrency: nat, t: Token)
    requires Inv(s, concurrency) && Enabled(s, step, concurrency) && t in s.builds
    requires (step.RemoveOwner? || step.ClearActive? || step.ClearLock?) && step.token != t
    ensures BuildInv(Apply(s, step, concurrency), t)
  {
    assert BuildInv(s, t) && BuildInv(s, step.token);
  }

  lemma HolderBefore(s: State, step: Step, concurrency: nat, t: Token)
    requires Inv(s, concurrency) && Enabled(s, step, concurrency) && Holder(Apply(s, step, concurrency), t)
    ensures if step.Reserve? && step.token == t then Apply(s, step, concurrency).builds[t].server !in s.locks
            else Holder(s, t) && s.builds[t].server == Apply(s, step, concurrency).builds[t].server
  {
    if step.BeginFinish? {
      StaleCompletionIsIgnored(s, step.token, step.controlMatches, concurrency);
    }
  }

  lemma SoleStays(s: State, step: Step, concurrency: nat)
    requires Inv(s, concurrency) && Enabled(s, step, concurrency)
    ensures Sole(Apply(s, step, concurrency))
  {
    var s' := Apply(s, step, concurrency);
    forall t1, t2 | Holder(s', t1) && Holder(s', t2) && s'.builds[t1].server == s'.builds[t2].server
      ensures t1 == t2
    {
      HolderBefore(s, step, concurrency, t1);
      HolderBefore(s, step, concurrency, t2);
      assert forall t :: Holder(s, t) ==> BuildInv(s, t);
    }
  }

  lemma DeleteStays(s: State, step: Step, concurrency: nat, server: string)
    requires Inv(s, concurrency) && Enabled(s, step, concurrency) && server in Apply(s, step, concurrency).deletes
    ensures DeleteInv(Apply(s, step, concurrency), server)
  {
    if server in s.deletes {
      assert DeleteInv(s, server);
    }
  }

  lemma NestingStays(s: State, step: Step, concurrency: nat)
    requires Inv(s, concurrency) && Enabled(s, step, concurrency)
    ensures var s' := Apply(s, step, concurrency);
            s'.owners.Keys <= s'.active <= s'.locks && |s'.active| <= Max(concurrency, 1)
  {
    var s' := Apply(s, step, concurrency);
    if step.RemoveOwner? || step.ClearActive? || step.ClearLock? {
      assert BuildInv(s, step.token);
      SubsetCardinality(s'.active, s.active);
    }
  }

  lemma StepInv(s: State, step: Step, concurrency: nat)
    requires Inv(s, concurrency) && Enabled(s, step, concurrency)
    ensures Inv(Apply(s, step, concurrency), concurrency)
  {
    var s' := Apply(s, step, concurrency);
    NestingStays(s, step, concurrency);
    SoleStays(s, step, concurrency);
    forall t | t in s'.builds
      ensures BuildInv(s', t)
    {
      BuildStays(s, step, concurrency, t);
    }
    forall server | server in s'.locks
      ensures Occupied(s', server)
    {
      OccupiedStays(s, step, concurrency, server);
    }
    forall server | server in s'.deletes
      ensures DeleteInv(s', server)
    {
      DeleteStays(s, step, concurrency, server);
    }
  }

  // ---------------------------------------------------------------- whole runs

  const INITIAL := State(map[], map[], {}, {}, {}, {}, map[], map[])

  ghost predicate Run(states: seq<State>, steps: seq<Step>, concurrency: nat) {
    |states| == |steps| + 1 && states[0] == INITIAL &&
    forall i :: 0 <= i < |steps| ==>
      Enabled(states[i], steps[i], concurrency) && states[i + 1] == Apply(states[i], steps[i], concurrency)
  }

  lemma {:induction false} RunInv(states: seq<State>, steps: seq<Step>, concurrency: nat, i: nat)
    requires Run(states, steps, concurrency) && i < |states|
    ensures Inv(states[i], concurrency)
  {
    if i > 0 {
      RunInv(states, steps, concurrency, i - 1);
      StepInv(states[i - 1], steps[i - 1], concurrency);
    }
  }

  /** Owners, active builds and build locks nest in every reachable state, within the concurrency limit. */
  lemma RegistriesNest(states: seq<State>, steps: seq<Step>, concurrency: nat, i: nat)
    requires Run(states, steps, concurrency) && i < |states|
    ensures states[i].owners.Keys <= states[i].active <= states[i].locks
    ensures |states[i].active| <= Max(concurrency, 1)
  {
    RunInv(states, steps, concurrency, i);
  }

  /** A build of the server that could still write. */
  predicate MayWrite(s: State, token: Token, server: string) {
    token in s.builds && s.builds[token].server == server && s.builds[token].pc.Running?
  }

  lemma BuildMoves(s: State, step: Step, concurrency: nat, t: Token)
    requires Enabled(s, step, concurrency) && t in s.builds
    ensures var s' := Apply(s, step, concurrency);
            t in s'.builds && s'.builds[t].server == s.builds[t].server &&
            (s'.builds[t].pc.Running? ==> s.builds[t].pc.Running?)
  {
  }

  lemma {:induction false} NeverRunsAgain(states: seq<State>, steps: seq<Step>, concurrency: nat, i: nat, j: nat, token: Token)
    requires Run(states, steps, concurrency) && i <= j < |states|
    requires token in states[i].builds && !states[i].builds[token].pc.Running?
    ensures token in states[j].builds && !states[j].builds[token].pc.Running? &&
            states[j].builds[token].server == states[i].builds[token].server
    decreases j - i
  {
    if i < j {
      NeverRunsAgain(states, steps, concurrency, i, j - 1, token);
      BuildMoves(states[j - 1], steps[j - 1], concurrency, token);
    }
  }

  /** When a delete transaction runs, no build of the server is active; and whatever writes to the server
      afterwards was reserved afterwards. */
  lemma DeletionIsQuiet(states: seq<State>, steps: seq<Step>, concurrency: nat, i: nat, j: nat, token: Token)
    requires Run(states, steps, concurrency) && i <= j < |steps| && steps[i].DeleteTransaction?
    ensures steps[i].server !in states[i].active && forall t :: !MayWrite(states[i], t, steps[i].server)
    ensures steps[j] == Write(token) && states[j].builds[token].server == steps[i].server ==>
              token !in states[i].builds
  {
    RunInv(states, steps, concurrency, i);
    assert DeleteInv(states[i], steps[i].server);
    assert forall t :: t in states[i].builds ==> BuildInv(states[i], t);
    if token in states[i].builds && steps[j] == Write(token) {
      if !states[i].builds[token].pc.Running? {
        NeverRunsAgain(states, steps, concurrency, i, j, token);
        assert false;
      }
      SameServer(states, steps, concurrency, i, j, token);
    }
  }

  lemma {:induction false} SameServer(states: seq<State>, steps: seq<Step>, concurrency: nat, i: nat, j: nat, token: Token)
    requires Run(states, steps, concurrency) && i <= j < |states| && token in states[i].builds
    ensures token in states[j].builds && states[j].builds[token].server == states[i].builds[token].server
    decreases j - i
  {
    if i < j {
      SameServer(states, steps, concurrency, i, j - 1, token);
      BuildMoves(states[j - 1], steps[j - 1], concurrency, token);
    }
  }

  // ---------------------------------------------------------------- the runtime record

  /** Every held build lock has a runtime record with a build. */
  ghost predicate LocksHaveRuntime(s: State) {
    forall server :: server in s.locks ==> HasRuntimeBuild(s, server)
  }

  /** The step that breaks the nesting, exactly: taking the runtime record of a server whose lock is held
      again, which a finaliser could test before taking it. */
  lemma TakeBreaksNesting(s: State, token: Token, concurrency: nat)
    requires LocksHaveRuntime(s) && Enabled(s, TakeRuntime(token), concurrency)
    ensures LocksHaveRuntime(Apply(s, TakeRuntime(token), concurrency)) <==> s.builds[token].server !in s.locks
  {
  }

  predicate TakesHeldRecord(s: State, step: Step) {
    step.TakeRuntime? && step.token in s.builds && s.builds[step.token].server in s.locks
  }

  lemma ForgetKeepsNesting(s: State, step: Step, concurrency: nat)
    requires Inv(s, concurrency) && LocksHaveRuntime(s) && Enabled(s, step, concurrency) && step.Forget?
    ensures LocksHaveRuntime(Apply(s, step, concurrency))
  {
  }

  lemma NestingStep(s: State, step: Step, concurrency: nat)
    requires Inv(s, concurrency) && LocksHaveRuntime(s) && Enabled(s, step, concurrency)
    ensures LocksHaveRuntime(Apply(s, step, concurrency)) <==> !TakesHeldRecord(s, step)
  {
    if step.TakeRuntime? {
      TakeBreaksNesting(s, step.token, concurrency);
    } else if step.Forget? {
      ForgetKeepsNesting(s, step, concurrency);
    }
  }

  /** Exactly the runs in which every held build lock always has a runtime build: those where no
      finalisation takes the runtime record of a server whose lock is held again. */
  lemma {:induction false} NestingExactly(states: seq<State>, steps: seq<Step>, concurrency: nat, n: nat)
    requires Run(states, steps, concurrency) && n < |states|
    ensures (forall i :: 0 <= i <= n ==> LocksHaveRuntime(states[i])) <==>
            (forall i :: 0 <= i < n ==> !TakesHeldRecord(states[i], steps[i]))
  {
    if n > 0 {
      NestingExactly(states, steps, concurrency, n - 1);
      RunInv(states, steps, concurrency, n - 1);
      if forall i :: 0 <= i <= n - 1 ==> LocksHaveRuntime(states[i]) {
        NestingStep(states[n - 1], steps[n - 1], concurrency);
        assert states[n] == Apply(states[n - 1], steps[n - 1], concurrency);
        assert LocksHaveRuntime(states[n]) <==> !TakesHeldRecord(states[n - 1], steps[n - 1]);
      }
    }
  }

  /** A `Forget` can be harmful only while a finalisation of that server sits between its last two steps: it
      is if a new build is reserved before the last one. */
  predicate HarmlessForget(s: State, step: Step) {
    step.Forget? ==> forall t :: t in s.builds && s.builds[t].server == step.server ==> !s.builds[t].pc.LockCleared?
  }

  ghost predicate RecordKept(s: State, t: Token)
    requires t in s.builds
  {
    s.builds[t].server in s.runtime && s.runtime[s.builds[t].server] == Some(t)
  }

  /** Every build that is not finished is the one in its server's runtime record. */
  ghost predicate RuntimeInv(s: State) {
    forall t :: t in s.builds && !s.builds[t].pc.Finished? ==> RecordKept(s, t)
  }

  lemma RecordForgotten(s: State, step: Step, concurrency: nat, t: Token)
    requires Inv(s, concurrency) && RuntimeInv(s) && Enabled(s, step, concurrency) && HarmlessForget(s, step)
    requires var s' := Apply(s, step, concurrency); t in s'.builds && !s'.builds[t].pc.Finished?
    requires step.Forget?
    ensures RecordKept(Apply(s, step, concurrency), t)
  {
  }

  lemma RecordTaken(s: State, step: Step, concurrency: nat, t: Token)
    requires Inv(s, concurrency) && RuntimeInv(s) && Enabled(s, step, concurrency) && HarmlessForget(s, step)
    requires var s' := Apply(s, step, concurrency); t in s'.builds && !s'.builds[t].pc.Finished?
    requires step.TakeRuntime?
    ensures RecordKept(Apply(s, step, concurrency), t)
  {
  }

  lemma RecordStays(s: State, step: Step, concurrency: nat, t: Token)
    requires Inv(s, concurrency) && RuntimeInv(s) && Enabled(s, step, concurrency) && HarmlessForget(s, step)
    requires var s' := Apply(s, step, concurrency); t in s'.builds && !s'.builds[t].pc.Finished?
    ensures RecordKept(Apply(s, step, concurrency), t)
  {
    if step.Forget? {
      RecordForgotten(s, step, concurrency, t);
    } else if step.TakeRuntime? {
      RecordTaken(s, step, concurrency, t);
    } else if t in s.builds {
      assert RecordKept(s, t) && BuildInv(s, t);
      if step.BeginFinish? {
        StaleCompletionIsIgnored(s, step.token, step.controlMatches, concurrency);
      }
    }
  }

  lemma {:induction false} RuntimeRun(states: seq<State>, steps: seq<Step>, concurrency: nat, i: nat)
    requires Run(states, steps, concurrency) && i < |states|
    requires forall n :: 0 <= n < i ==> HarmlessForget(states[n], steps[n])
    ensures RuntimeInv(states[i])
  {
    if i > 0 {
      RuntimeRun(states, steps, concurrency, i - 1);
      RunInv(states, steps, concurrency, i - 1);
      forall t | t in states[i].builds && !states[i].builds[t].pc.Finished?
        ensures RecordKept(states[i], t)
      {
        RecordStays(states[i - 1], steps[i - 1], concurrency, t);
      }
    }
  }

  /** In a run whose deletions never forget a server's record between the last two steps of one of its
      finalisations, every held build lock has a runtime build. */
  lemma LocksKeepRuntime(states: seq<State>, steps: seq<Step>, concurrency: nat, i: nat)
    requires Run(states, steps, concurrency) && i < |states|
    requires forall n :: 0 <= n < i ==> HarmlessForget(states[n], steps[n])
    ensures LocksHaveRuntime(states[i])
  {
    RunInv(states, steps, concurrency, i);
    RuntimeRun(states, steps, concurrency, i);
    forall server | server in states[i].locks
      ensures HasRuntimeBuild(states[i], server)
    {
      assert Occupied(states[i], server);
      var t :| Holder(states[i], t) && states[i].builds[t].server == server;
      assert RecordKept(states[i], t);
    }
  }

  function Last<X>(s: seq<X>): X
    requires s != []
  {
    s[|s| - 1]
  }

  /** Extend a run by one enabled step that leads to `next`. */
  lemma Then(states: seq<State>, steps: seq<Step>, step: Step, next: State)
    returns (states': seq<State>, steps': seq<Step>)
    requires Run(states, steps, 1) && Enabled(Last(states), step, 1) && Apply(Last(states), step, 1) == next
    ensures Run(states', steps', 1) && Last(states') == next
  {
    states', steps' := states + [next], steps + [step];
  }

  /** A run to one build that has finalised all but the last step. */
  lemma AlmostFinished() returns (states: seq<State>, steps: seq<Step>)
    ensures Run(states, steps, 1)
    ensures Last(states) == State(map["a" := Some(1)], map[], {}, {}, {}, {"a"}, map[1 := Build("a", LockCleared)], map[])
  {
    states, steps := [INITIAL], [];
    var s := INITIAL.(enrolled := {"a"});
    states, steps := Then(states, steps, Enroll("a"), s);
    s := State(map["a" := Some(1)], map["a" := 1], {"a"}, {"a"}, {}, {"a"}, map[1 := Build("a", Running)], map[]);
    states, steps := Then(states, steps, Reserve("a", 1), s);
    s := s.(builds := map[1 := Build("a", Finishing)]);
    states, steps := Then(states, steps, BeginFinish(1, true), s);
    s := s.(owners := map[], builds := map[1 := Build("a", OwnerRemoved)]);
    states, steps := Then(states, steps, RemoveOwner(1), s);
    s := s.(active := {}, builds := map[1 := Build("a", ActiveCleared)]);
    states, steps := Then(states, steps, ClearActive(1), s);
    s := s.(locks := {}, builds := map[1 := Build("a", LockCleared)]);
    states, steps := Then(states, steps, ClearLock(1), s);
  }

  lemma DeletionStarts(states: seq<State>, steps: seq<Step>) returns (states': seq<State>, steps': seq<Step>)
    requires Run(states, steps, 1)
    requires Last(states) == State(map["a" := Some(1)], map[], {}, {}, {}, {"a"}, map[1 := Build("a", LockCleared)], map[])
    ensures Run(states', steps', 1)
    ensures Last(states') == Last(states).(deleting := {"a"}, deletes := map["a" := Locked])
  {
    var s := Last(states).(deleting := {"a"}, deletes := map["a" := Marked]);
    states', steps' := Then(states, steps, BeginDelete("a"), s);
    s := s.(deletes := map["a" := BuildGone]);
    states', steps' := Then(states', steps', WaitForBuild("a"), s);
    s := s.(deletes := map["a" := Locked]);
    states', steps' := Then(states', steps', LockForDelete("a"), s);
  }

  lemma DeletionEnds(states: seq<State>, steps: seq<Step>) returns (states': seq<State>, steps': seq<Step>)
    requires Run(states, steps, 1)
    requires Last(states) == State(map["a" := Some(1)], map[], {}, {}, {"a"}, {"a"}, map[1 := Build("a", LockCleared)],
                                   map["a" := Locked])
    ensures Run(states', steps', 1)
    ensures Last(states') == INITIAL.(builds := map[1 := Build("a", LockCleared)])
  {
    var s := Last(states).(enrolled := {}, deletes := map["a" := Deleted]);
    states', steps' := Then(states, steps, DeleteTransaction("a"), s);
    s := s.(runtime := map[], deletes := map["a" := Forgotten]);
    states', steps' := Then(states', steps', Forget("a"), s);
    s := s.(deleting := {}, deletes := map[]);
    states', steps' := Then(states', steps', EndDelete("a"), s);
  }

  /** Without that condition the nesting fails: a deletion that completes between `ClearLock` and
      `TakeRuntime`, followed by a new reservation, loses the new build's runtime record. */
  lemma ForgottenRecord() returns (states: seq<State>, steps: seq<Step>)
    ensures Run(states, steps, 1) && !LocksHaveRuntime(Last(states))
  {
    states, steps := AlmostFinished();
    states, steps := DeletionStarts(states, steps);
    states, steps := DeletionEnds(states, steps);
    states, steps := NewBuildAfter(states, steps);
  }

  lemma NewBuildAfter(states: seq<State>, steps: seq<Step>) returns (states': seq<State>, steps': seq<Step>)
    requires Run(states, steps, 1)
    requires Last(states) == INITIAL.(builds := map[1 := Build("a", LockCleared)])
    ensures Run(states', steps', 1) && !LocksHaveRuntime(Last(states'))
  {
    var s := Last(states).(enrolled := {"a"});
    states', steps' := Then(states, steps, Enroll("a"), s);
    s := State(map["a" := Some(2)], map["a" := 2], {"a"}, {"a"}, {}, {"a"},
               map[1 := Build("a", LockCleared), 2 := Build("a", Running)], map[]);
    states', steps' := Then(states', steps', Reserve("a", 2), s);
    s := s.(runtime := map["a" := None], builds := map[1 := Build("a", Finished), 2 := Build("a", Running)]);
    states', steps' := Then(states', steps', TakeRuntime(1), s);
    assert "a" in Last(states').locks && !HasRuntimeBuild(Last(states'), "a");
  }

  // ---------------------------------------------------------------- what reservation waits for

  /** A runtime record holds a build of its own server that is not finished. */
  ghost predicate RecordInv(s: State) {
    forall server :: HasRuntimeBuild(s, server) ==>
      s.runtime[server].value in s.builds && s.builds[s.runtime[server].value].server == server &&
      !s.builds[s.runtime[server].value].pc.Finished?
  }

  lemma RecordInvStays(s: State, step: Step, concurrency: nat)
    requires RecordInv(s) && Enabled(s, step, concurrency)
    ensures RecordInv(Apply(s, step, concurrency))
  {
    var s' := Apply(s, step, concurrency);
    forall server | HasRuntimeBuild(s', server)
      ensures s'.runtime[server].value in s'.builds && s'.builds[s'.runtime[server].value].server == server &&
              !s'.builds[s'.runtime[server].value].pc.Finished?
    {
      assert HasRuntimeBuild(s, server) || step == Reserve(server, s'.runtime[server].value);
    }
  }

  lemma {:induction false} RunRecords(states: seq<State>, steps: seq<Step>, concurrency: nat, i: nat)
    requires Run(states, steps, concurrency) && i < |states|
    ensures RecordInv(states[i])
  {
    if i > 0 {
      RunRecords(states, steps, concurrency, i - 1);
      RecordInvStays(states[i - 1], steps[i - 1], concurrency);
    }
  }

  /** Nothing that is over blocks a build: an enrolled server that is not being deleted and whose builds have
      all finished can be reserved while fewer builds are active than allowed. */
  lemma NothingBlocks(
    states: seq<State>, steps: seq<Step>, concurrency: nat, i: nat, server: string, token: Token)
    requires Run(states, steps, concurrency) && i < |states|
    requires server in states[i].enrolled && server !in states[i].deleting && token !in states[i].builds
    requires forall t :: t in states[i].builds && states[i].builds[t].server == server ==>
               states[i].builds[t].pc.Finished?
    requires |states[i].active| < Max(concurrency, 1)
    ensures Enabled(states[i], Reserve(server, token), concurrency)
  {
    var s := states[i];
    RunInv(states, steps, concurrency, i);
    RunRecords(states, steps, concurrency, i);
    assert !Occupied(s, server);
  }

  lemma {:induction false} StaysOut(
    states: seq<State>, steps: seq<Step>, concurrency: nat, i: nat, j: nat, server: string)
    requires Run(states, steps, concurrency) && i <= j < |states| && server !in states[i].enrolled
    requires forall n :: i <= n < j ==> steps[n] != Enroll(server)
    ensures server !in states[j].enrolled
    decreases j - i
  {
    if i < j {
      StaysOut(states, steps, concurrency, i, j - 1, server);
    }
  }

  /** A deleted index is not built again unless its server is enrolled again. */
  lemma RebuiltOnlyIfEnrolled(states: seq<State>, steps: seq<Step>, concurrency: nat, i: nat, j: nat, server: string)
    requires Run(states, steps, concurrency) && i < j < |steps|
    requires steps[i] == DeleteTransaction(server) && steps[j].Reserve? && steps[j].server == server
    ensures exists n :: i < n < j && steps[n] == Enroll(server)
  {
    if forall n :: i < n < j ==> steps[n] != Enroll(server) {
      StaysOut(states, steps, concurrency, i + 1, j, server);
      assert false;
    }
  }
}
