/**
  Two processes on one database: nothing keeps a build from starting between recovery's one look at the
  build lock and its two statements.

  The active generation is as safe as before in every such run.  What can go wrong is the build's own
  generation, and exactly when recovery's second statement runs while the build does.
*/
module RecoveryOverlap {
  import opened Prelude
  import opened IndexTables
  import opened GenerationRuns

  ghost predicate FreeNext(s: Sys, step: Step, s': Sys) {
    if step.Start? then
      step.server !in s.own &&
      s' == s.(tables := StartGeneration(s.tables, step.server, step.org, step.source),
               own := s.own[step.server := NextKey(s.tables, step.server).number])
    else Next(s, step, s')
  }

  ghost predicate FreeRun(states: seq<Sys>, steps: seq<Step>) {
    |states| == |steps| + 1 && states[0] == Sys(EMPTY_TABLES, map[], None, {}) &&
    forall i :: 0 <= i < |steps| ==> FreeNext(states[i], steps[i], states[i + 1])
  }

  // ---------------------------------------------------------------- the active generation

  ghost predicate Newest(s: Sys, server: string) {
    server in s.own ==>
      forall k :: ActiveIn(s.tables.generations, k) && k.server == server ==> k.number < s.own[server]
  }

  /** All that is left of the invariant: one active generation a server, and every build newer than it. */
  ghost predicate Ordered(s: Sys) {
    UniqueActive(s.tables.generations) && forall server :: Newest(s, server)
  }

  lemma OrderedCarries(s: Sys, s': Sys)
    requires Ordered(s)
    requires forall k :: ActiveIn(s'.tables.generations, k) ==> ActiveIn(s.tables.generations, k)
    requires forall server :: server in s'.own ==>
               (server in s.own && s'.own[server] == s.own[server]) ||
               forall k :: k in s.tables.generations && k.server == server ==> k.number < s'.own[server]
    ensures Ordered(s')
  {
    ActiveCarries(s'.tables.generations, s.tables.generations);
    forall server ensures Newest(s', server) {
      assert Newest(s, server);
    }
  }

  lemma {:induction false} InsertAllOthers(t: Tables, k: GenKey, batch: seq<Entry>, g: GenKey)
    requires g != k
    ensures InsertAll(t, k, batch).generations == t.generations
    ensures Content(InsertAll(t, k, batch), g) == Content(t, g)
  {
    if batch != [] {
      var front := batch[..|batch| - 1];
      InsertAllOthers(t, k, front, g);
      InsertOthers(InsertAll(t, k, front), k, batch[|batch| - 1], g);
    }
  }

  lemma PromoteOrdered(s: Sys, step: Step, s': Sys)
    requires Ordered(s) && Next(s, step, s') && step.PromoteOwn?
    ensures Ordered(s')
  {
    forall server ensures Newest(s', server) {
      assert Newest(s, server);
    }
  }

  lemma StepOrdered(s: Sys, step: Step, s': Sys)
    requires Ordered(s) && FreeNext(s, step, s')
    ensures Ordered(s')
  {
    match step
    case PromoteOwn(_, _, _, _, _) => PromoteOrdered(s, step, s');
    case InsertBatch(server, batch) =>
      var k := OwnKey(s, server);
      InsertAllOthers(s.tables, k, batch, GenKey(server, k.number + 1));
      OrderedCarries(s, s');
    case _ => OrderedCarries(s, s');
  }

  lemma QuietFreeStep(s: Sys, step: Step, s': Sys, k: GenKey)
    requires FreeNext(s, step, s') && InState(s.tables, k, Active) && Quiet(step)
    ensures Frozen(s.tables, s'.tables, k)
  {
    assert s'.tables.entries == s.tables.entries && s'.tables.fts == s.tables.fts;
  }

  lemma PromoteFreeStep(s: Sys, step: Step, s': Sys, k: GenKey)
    requires Newest(s, k.server) && Next(s, step, s') && InState(s.tables, k, Active) && step.PromoteOwn?
    ensures Frozen(s.tables, s'.tables, k) || Replaces(s, step, s', k)
  {
    assert ActiveIn(s.tables.generations, k);
  }

  lemma DiscardFreeStep(s: Sys, step: Step, s': Sys, k: GenKey)
    requires Newest(s, k.server) && Next(s, step, s') && InState(s.tables, k, Active) && step.DiscardOwn?
    ensures Frozen(s.tables, s'.tables, k)
  {
    assert ActiveIn(s.tables.generations, k);
  }

  /** As `GenerationRuns.ActiveStep`, from `Ordered` alone. */
  lemma ActiveFreeStep(s: Sys, step: Step, s': Sys, k: GenKey)
    requires Ordered(s) && FreeNext(s, step, s') && InState(s.tables, k, Active) && step != Clear(k.server)
    ensures Frozen(s.tables, s'.tables, k) || Replaces(s, step, s', k)
  {
    assert Newest(s, k.server);
    match step
    case InsertBatch(server, batch) =>
      assert ActiveIn(s.tables.generations, k);
      InsertAllOthers(s.tables, OwnKey(s, server), batch, k);
    case PromoteOwn(_, _, _, _, _) => PromoteFreeStep(s, step, s', k);
    case DiscardOwn(_) => DiscardFreeStep(s, step, s', k);
    case DeleteScanned(victims) =>
      CleanupSpares(s.tables, s.scan.value.server, s.scan.value.fts, victims, s.scan.value.gens, k);
    case Clear(server) => ClearElsewhere(s.tables, server, k);
    case _ => QuietFreeStep(s, step, s', k);
  }

  lemma {:induction false} FreeRunOrdered(states: seq<Sys>, steps: seq<Step>, i: nat)
    requires FreeRun(states, steps) && i < |states|
    ensures Ordered(states[i])
  {
    if i > 0 {
      FreeRunOrdered(states, steps, i - 1);
      StepOrdered(states[i - 1], steps[i - 1], states[i]);
    }
  }

  lemma OneActive(s: Sys)
    requires Ordered(s)
    ensures forall a, b :: InState(s.tables, a, Active) && InState(s.tables, b, Active) && a.server == b.server ==> a == b
  {
    assert forall a :: InState(s.tables, a, Active) ==> ActiveIn(s.tables.generations, a);
  }

  /** `GenerationRuns.ActiveThroughRun` without the guard on starting a build. */
  lemma {:induction false} ActiveThroughFreeRun(states: seq<Sys>, steps: seq<Step>, i: nat, j: nat, k: GenKey)
    returns (k': GenKey)
    requires FreeRun(states, steps) && i <= j < |states| && InState(states[i].tables, k, Active)
    requires forall n :: i <= n < j ==> steps[n] != Clear(k.server)
    ensures k'.server == k.server && k.number <= k'.number && InState(states[j].tables, k', Active)
    ensures forall other :: InState(states[j].tables, other, Active) && other.server == k.server ==> other == k'
    ensures k' == k ==> Frozen(states[i].tables, states[j].tables, k)
    ensures k' != k ==> exists n :: i <= n < j && steps[n].PromoteOwn? && steps[n].server == k.server
    decreases j - i
  {
    FreeRunOrdered(states, steps, j);
    OneActive(states[j]);
    if i == j {
      k' := k;
    } else {
      var mid := ActiveThroughFreeRun(states, steps, i, j - 1, k);
      FreeRunOrdered(states, steps, j - 1);
      ActiveFreeStep(states[j - 1], steps[j - 1], states[j], mid);
      if Frozen(states[j - 1].tables, states[j].tables, mid) {
        k' := mid;
      } else {
        k' := OwnKey(states[j - 1], steps[j - 1].server);
      }
    }
  }

  // ---------------------------------------------------------------- the build's own generation

  /** Recovery retires the staging rows of a server while a build of that server runs. */
  ghost predicate Overtakes(s: Sys, step: Step) {
    step.Demote? && step.server in s.own
  }

  ghost predicate OwnStaging(s: Sys) {
    forall server :: server in s.own ==> InState(s.tables, GenKey(server, s.own[server]), Staging)
  }

  /** The state with no recovery under way. */
  ghost function Settled(s: Sys): Sys {
    s.(recovering := {})
  }

  lemma MarkKeeps(s: Sys, step: Step, s': Sys)
    requires Inv(Settled(s)) && Next(s, step, s') && step.Mark?
    ensures Inv(Settled(s'))
  {
    RewriteInv(Settled(s), Settled(s'));
  }

  lemma DemoteKeeps(s: Sys, step: Step, s': Sys)
    requires Inv(Settled(s)) && Next(s, step, s') && step.Demote? && step.server !in s.own
    ensures Inv(Settled(s'))
  {
    RewriteInv(Settled(s), Settled(s'));
  }

  /** Every step but an overtaking one keeps the invariant of the guarded runs. */
  lemma StepSettled(s: Sys, step: Step, s': Sys)
    requires Inv(Settled(s)) && FreeNext(s, step, s') && !Overtakes(s, step)
    ensures Inv(Settled(s'))
  {
    match step
    case Mark(_) => MarkKeeps(s, step, s');
    case Demote(_) => DemoteKeeps(s, step, s');
    case CheckLock(_) =>
    case QuitRecovery(_) =>
    case _ =>
      assert Next(Settled(s), step, Settled(s'));
      StepInv(Settled(s), step, Settled(s'));
  }

  lemma {:induction false} FreeRunSettled(states: seq<Sys>, steps: seq<Step>, i: nat)
    requires FreeRun(states, steps) && i < |states|
    requires forall n :: 0 <= n < i ==> !Overtakes(states[n], steps[n])
    ensures Inv(Settled(states[i]))
  {
    if i > 0 {
      FreeRunSettled(states, steps, i - 1);
      StepSettled(states[i - 1], steps[i - 1], states[i]);
    }
  }

  lemma OvertakenRetired(s: Sys, step: Step, s': Sys)
    requires FreeNext(s, step, s') && Overtakes(s, step)
    ensures !OwnStaging(s')
  {
    DemoteMeaning(s.tables, step.server);
    assert !InState(s'.tables, GenKey(step.server, s'.own[step.server]), Staging);
  }

  /** In every run: a running build always owns a staging generation exactly when recovery's second
      statement never runs during a build of its server; and then both tables stay in step without orphans. */
  lemma RecoveryExactly(states: seq<Sys>, steps: seq<Step>)
    requires FreeRun(states, steps)
    ensures (forall i :: 0 <= i < |states| ==> OwnStaging(states[i])) <==>
            (forall i :: 0 <= i < |steps| ==> !Overtakes(states[i], steps[i]))
    ensures (forall i :: 0 <= i < |steps| ==> !Overtakes(states[i], steps[i])) ==>
              forall i :: 0 <= i < |states| ==> TablesInv(states[i].tables) && NoOrphans(states[i].tables)
  {
    if forall i :: 0 <= i < |steps| ==> !Overtakes(states[i], steps[i]) {
      forall i | 0 <= i < |states|
        ensures OwnStaging(states[i]) && TablesInv(states[i].tables) && NoOrphans(states[i].tables)
      {
        FreeRunSettled(states, steps, i);
      }
    } else {
      var i :| 0 <= i < |steps| && Overtakes(states[i], steps[i]);
      OvertakenRetired(states[i], steps[i], states[i + 1]);
    }
  }

  // ---------------------------------------------------------------- a run that is overtaken

  /** What an overtaken build does next: it stores rows in a generation already obsolete, and its promotion
      rolls back. */
  lemma RecoveryOvertakes(t: Tables, k: GenKey, e: Entry, at: string, count: nat)
    requires InState(t, k, Staging) && HasActive(t.generations, k.server)
    requires EntryKey(k, e.itemId) !in t.entries
    ensures var retired := RecoverDemote(t, k.server);
            Obsolete(InsertEntry(retired, k, e), k) && HasFts(InsertEntry(retired, k, e).fts, k) &&
            Promote(retired, k, at, count, None, None).None?
  {
    var a :| a in t.generations && a.server == k.server && ActiveIn(t.generations, a);
    var retired := RecoverDemote(t, k.server);
    assert InsertEntry(retired, k, e).fts[MaxOf(retired.fts.Keys) + 1].gen == k;
  }

  const ORG := AnyOrganization
  const SOURCE := AnySource

  function Promotion(server: string): Step {
    PromoteOwn(server, "", 0, None, None)
  }

  /** A first build is started and promoted. */
  lemma FirstBuild(server: string) returns (mid: Sys, last: Sys)
    ensures FreeNext(Sys(EMPTY_TABLES, map[], None, {}), Start(server, ORG, SOURCE), mid)
    ensures FreeNext(mid, Promotion(server), last)
    ensures last.own == map[] && last.scan.None? && last.recovering == {} && last.tables.entries == map[]
    ensures HasActive(last.tables.generations, server)
  {
    var t := StartGeneration(EMPTY_TABLES, server, ORG, SOURCE);
    var k := NextKey(EMPTY_TABLES, server);
    mid := Sys(t, map[server := k.number], None, {});
    assert OwnKey(mid, server) == k;
    last := Sys(Promote(t, k, "", 0, None, None).value, map[], None, {});
    assert mid.own - {server} == map[];
    assert ActiveIn(last.tables.generations, k);
  }

  /** The lock is looked at, a second build starts, and recovery retires its generation. */
  lemma SecondBuild(s: Sys, server: string) returns (s1: Sys, s2: Sys, s3: Sys)
    requires s.own == map[] && HasActive(s.tables.generations, server)
    ensures FreeNext(s, CheckLock(server), s1) && FreeNext(s1, Start(server, ORG, SOURCE), s2)
    ensures FreeNext(s2, Demote(server), s3) && Overtakes(s2, Demote(server))
    ensures server in s3.own && s3.own == s2.own && InState(s2.tables, OwnKey(s2, server), Staging)
    ensures HasActive(s2.tables.generations, server) && s2.tables.entries == s.tables.entries
  {
    var k := NextKey(s.tables, server);
    s1 := s.(recovering := s.recovering + {server});
    s2 := s1.(tables := StartGeneration(s.tables, server, ORG, SOURCE), own := map[server := k.number]);
    s3 := s2.(tables := RecoverDemote(s2.tables, server), recovering := s2.recovering - {server});
    assert s1.own[server := k.number] == s2.own;
    forall g | ActiveIn(s.tables.generations, g) ensures ActiveIn(s2.tables.generations, g) {
    }
    ActiveCarries(s.tables.generations, s2.tables.generations);
  }

  /** The overtaken build stores one more entry. */
  lemma LateInsert(before: Sys, s: Sys, server: string, e: Entry) returns (s': Sys)
    requires e.itemId != "" && FreeNext(before, Demote(server), s) && Overtakes(before, Demote(server))
    requires InState(before.tables, OwnKey(before, server), Staging) && HasActive(before.tables.generations, server)
    requires before.tables.entries == map[]
    ensures FreeNext(s, InsertBatch(server, [e]), s') && s'.own == s.own && server in s'.own
    ensures var k := OwnKey(s', server);
            Obsolete(s'.tables, k) && EntryKey(k, e.itemId) in s'.tables.entries && HasFts(s'.tables.fts, k)
  {
    var k := OwnKey(before, server);
    RecoveryOvertakes(before.tables, k, e, "", 0);
    s' := s.(tables := InsertEntry(s.tables, k, e));
    assert [e][..0] == [];
    assert InsertAll(s.tables, k, [e]) == s'.tables;
  }

  lemma RetiredRollsBack(s: Sys, server: string)
    requires server in s.own && Obsolete(s.tables, OwnKey(s, server))
    ensures FreeNext(s, Promotion(server), s)
  {
  }

  lemma Chained(states: seq<Sys>, steps: seq<Step>, step: Step, s': Sys)
    returns (states': seq<Sys>, steps': seq<Step>)
    requires FreeRun(states, steps) && FreeNext(states[|steps|], step, s')
    ensures states' == states + [s'] && steps' == steps + [step] && FreeRun(states', steps')
  {
    states', steps' := states + [s'], steps + [step];
  }

  /** A run from empty tables in which recovery overtakes a build: the build goes on storing rows in a
      generation already obsolete, and its promotion rolls back. */
  lemma OvertakenRun(server: string, e: Entry) returns (states: seq<Sys>, steps: seq<Step>)
    requires e.itemId != ""
    ensures FreeRun(states, steps) && |steps| == 7
    ensures steps[5] == InsertBatch(server, [e]) && steps[6] == Promotion(server) && states[7] == states[6]
    ensures server in states[7].own &&
            (var k := OwnKey(states[7], server);
             Obsolete(states[7].tables, k) && EntryKey(k, e.itemId) in states[7].tables.entries &&
             HasFts(states[7].tables.fts, k))
  {
    states, steps := [Sys(EMPTY_TABLES, map[], None, {})], [];
    var s1, s2 := FirstBuild(server);
    states, steps := Chained(states, steps, Start(server, ORG, SOURCE), s1);
    states, steps := Chained(states, steps, Promotion(server), s2);
    var s3, s4, s5 := SecondBuild(s2, server);
    states, steps := Chained(states, steps, CheckLock(server), s3);
    states, steps := Chained(states, steps, Start(server, ORG, SOURCE), s4);
    states, steps := Chained(states, steps, Demote(server), s5);
    var s6 := LateInsert(s4, s5, server, e);
    states, steps := Chained(states, steps, InsertBatch(server, [e]), s6);
    RetiredRollsBack(s6, server);
    states, steps := Chained(states, steps, Promotion(server), s6);
  }
}
