/**
  The gap between a cleanup scan and its delete, with the server free to be cleared in it. GenerationRuns
  shows that builds and recovery in that gap are harmless; here is exactly what the delete relies on, and a
  run in which a clear breaks it, since generation numbers and rowids then start again.
*/
module CleanupWindow {
  import opened Prelude
  import opened IndexTables
  import G = GenerationRuns

  /** rowids: the implicit rowid of every generation row. candidates: the rowid read with each generation
      number the cleanup worker holds. cleared: its server was cleared since then (history only). */
  datatype State = State(sys: G.Sys, rowids: map<GenKey, nat>, candidates: map<nat, nat>, cleared: bool)

  const START: State := State(G.Sys(EMPTY_TABLES, map[], None, {}), map[], map[], false)

  /** Rows keep their rowid; a new row takes one more than the largest. */
  ghost function Rowids(rowids: map<GenKey, nat>, generations: map<GenKey, GenRow>): map<GenKey, nat> {
    map k | k in generations :: if k in rowids then rowids[k] else MaxOf(rowids.Values) + 1
  }

  /** The scanned generations still at the rowid they were read at. */
  function Found(s: State): set<nat>
    requires s.sys.scan.Some?
  {
    var server := s.sys.scan.value.server;
    set n | n in s.sys.scan.value.gens && n in s.candidates && GenKey(server, n) in s.rowids &&
            s.rowids[GenKey(server, n)] == s.candidates[n]
  }

  /** GenerationRuns.Next, except that a clear may fall into its server's own window and the delete matches
      rowids. */
  ghost predicate Moves(s: State, step: G.Step, sys': G.Sys) {
    match step
    case Clear(server) =>
      server !in s.sys.own && sys' == s.sys.(tables := ClearServer(s.sys.tables, server))
    case DeleteScanned(victims) =>
      s.sys.scan.Some? && LegalVictims(s.sys.tables, s.sys.scan.value.server, victims) &&
      sys' == s.sys.(tables := DeleteBatch(s.sys.tables, s.sys.scan.value.server, s.sys.scan.value.fts, victims, Found(s)),
                     scan := None)
    case _ => G.Next(s.sys, step, sys')
  }

  ghost predicate Next(s: State, step: G.Step, s': State) {
    && Moves(s, step, s'.sys)
    && s'.rowids == Rowids(s.rowids, s'.sys.tables.generations)
    && match step
       case ScanGens(gens) =>
         s.sys.scan.Some? && !s'.cleared && s'.candidates == Read(s.rowids, s.sys.scan.value.server, gens)
       case Clear(server) =>
         s'.candidates == s.candidates &&
         s'.cleared == (s.cleared || (s.sys.scan.Some? && s.sys.scan.value.server == server))
       case ScanFts(_, _, _) => s'.candidates == map[] && !s'.cleared
       case DropScan => s'.candidates == map[] && !s'.cleared
       case DeleteScanned(_) => s'.candidates == map[] && !s'.cleared
       case _ => s'.candidates == s.candidates && s'.cleared == s.cleared
  }

  function Read(rowids: map<GenKey, nat>, server: string, gens: set<nat>): map<nat, nat> {
    map n | n in gens && GenKey(server, n) in rowids :: rowids[GenKey(server, n)]
  }

  /** The delete takes away a generation whose server was cleared since the scan and whose number has been
      given out again, at the scanned rowid, to a build that left full-text rows. */
  ghost predicate DeletesReborn(s: State, step: G.Step) {
    step.DeleteScanned? && s.sys.scan.Some? && s.cleared &&
    exists n :: n in Found(s) && Removes(s, step.victims, n) && HasFts(s.sys.tables.fts, GenKey(s.sys.scan.value.server, n))
  }

  predicate Removes(s: State, victims: set<EntryKey>, n: nat)
    requires s.sys.scan.Some?
  {
    GenDoomed(s.sys.tables, s.sys.scan.value.server, victims, Found(s), GenKey(s.sys.scan.value.server, n))
  }

  // ---------------------------------------------------------------- what holds until an orphan appears

  ghost predicate Inv(s: State) {
    && TablesInv(s.sys.tables) && NoOrphans(s.sys.tables) && G.OwnInv(s.sys)
    && (!s.cleared ==> G.ScanInv(s.sys))
    && (s.sys.scan.Some? && s.sys.scan.value.gens != {} ==> s.sys.scan.value.fts == map[])
  }

  /** The same system with the scanned generations forgotten. */
  function Blind(sys: G.Sys): G.Sys {
    if sys.scan.None? then sys else sys.(scan := Some(sys.scan.value.(gens := {})))
  }

  lemma BlindNext(sys: G.Sys, step: G.Step, sys': G.Sys)
    requires G.Next(sys, step, sys') && !step.Clear? && !step.DeleteScanned?
    ensures G.Next(Blind(sys), step, if step.ScanGens? then sys' else Blind(sys'))
  {
  }

  lemma BlindStep(s: State, step: G.Step, sys': G.Sys)
    requires Inv(s) && G.Next(s.sys, step, sys') && !step.Clear? && !step.DeleteScanned?
    ensures TablesInv(sys'.tables) && NoOrphans(sys'.tables) && G.OwnInv(sys')
    ensures step.ScanGens? || step.ScanFts? ==> G.ScanInv(sys')
  {
    BlindNext(s.sys, step, sys');
    G.StepInv(Blind(s.sys), step, if step.ScanGens? then sys' else Blind(sys'));
  }

  lemma OtherStep(s: State, step: G.Step, s': State)
    requires Inv(s) && Next(s, step, s') && !step.Clear? && !step.DeleteScanned?
    ensures Inv(s')
  {
    BlindStep(s, step, s'.sys);
    if !s.cleared {
      G.StepInv(s.sys, step, s'.sys);
    }
  }

  lemma ClearStep(s: State, step: G.Step, s': State)
    requires Inv(s) && Next(s, step, s') && step.Clear?
    ensures Inv(s')
  {
    var alone := s.sys.(scan := None);
    assert G.Next(alone, step, s'.sys.(scan := None));
    G.StepInv(alone, step, s'.sys.(scan := None));
    if !s'.cleared {
      G.StepInv(s.sys, step, s'.sys);
    }
  }

  /** Candidates the delete does not remove make no difference to it. */
  lemma OnlyRemoved(t: Tables, server: string, fts: FtsCandidates, victims: set<EntryKey>, gens: set<nat>, some: set<nat>)
    requires some <= gens
    requires forall n :: n in gens && GenDoomed(t, server, victims, gens, GenKey(server, n)) ==> n in some
    ensures DeleteBatch(t, server, fts, victims, gens) == DeleteBatch(t, server, fts, victims, some)
  {
    assert forall k :: GenDoomed(t, server, victims, gens, k) ==> k == GenKey(server, k.number);
    assert forall k :: GenDoomed(t, server, victims, gens, k) <==> GenDoomed(t, server, victims, some, k);
  }

  ghost function RemovedOf(s: State, victims: set<EntryKey>): set<nat>
    requires s.sys.scan.Some?
  {
    set n | n in Found(s) && Removes(s, victims, n)
  }

  /** What a delete removes has no full-text row unless it was reborn. */
  lemma RemovedBare(s: State, step: G.Step)
    requires Inv(s) && step.DeleteScanned? && s.sys.scan.Some? && !DeletesReborn(s, step)
    ensures forall n :: n in RemovedOf(s, step.victims) ==> !HasFts(s.sys.tables.fts, GenKey(s.sys.scan.value.server, n))
  {
  }

  lemma DeleteKeeps(s: State, step: G.Step, s': State)
    requires Inv(s) && Next(s, step, s') && step.DeleteScanned? && !DeletesReborn(s, step)
    ensures Inv(s')
  {
    var t, scan := s.sys.tables, s.sys.scan.value;
    var removed := RemovedOf(s, step.victims);
    RemovedBare(s, step);
    OnlyRemoved(t, scan.server, scan.fts, step.victims, Found(s), removed);
    G.CleanupKeeps(t, scan.server, scan.fts, step.victims, removed);
    OwnSpared(s, step, s');
  }

  lemma OwnSpared(s: State, step: G.Step, s': State)
    requires G.OwnInv(s.sys) && Next(s, step, s') && step.DeleteScanned?
    ensures G.OwnInv(s'.sys)
  {
    var scan := s.sys.scan.value;
    G.CleanupActive(s.sys.tables, scan.server, scan.fts, step.victims, Found(s));
    assert forall k :: InState(s'.sys.tables, k, Active) ==> ActiveIn(s'.sys.tables.generations, k);
    forall server | server in s'.sys.own
      ensures InState(s'.sys.tables, G.OwnKey(s'.sys, server), Staging)
    {
      CleanupSpares(s.sys.tables, scan.server, scan.fts, step.victims, Found(s), G.OwnKey(s.sys, server));
    }
  }

  lemma RebornOrphans(s: State, step: G.Step, s': State)
    requires Inv(s) && Next(s, step, s') && DeletesReborn(s, step)
    ensures !NoOrphans(s'.sys.tables)
  {
    var scan := s.sys.scan.value;
    var n :| n in Found(s) && Removes(s, step.victims, n) && HasFts(s.sys.tables.fts, GenKey(scan.server, n));
    var r :| r in s.sys.tables.fts && s.sys.tables.fts[r].gen == GenKey(scan.server, n);
    assert scan.fts == map[];
    assert r in s'.sys.tables.fts && s'.sys.tables.fts[r].gen !in s'.sys.tables.generations;
  }

  /** One step: an orphan appears exactly when a delete removes a reborn generation. */
  lemma StepOrphans(s: State, step: G.Step, s': State)
    requires Inv(s) && Next(s, step, s')
    ensures NoOrphans(s'.sys.tables) <==> !DeletesReborn(s, step)
    ensures NoOrphans(s'.sys.tables) ==> Inv(s')
  {
    if DeletesReborn(s, step) {
      RebornOrphans(s, step, s');
    } else if step.DeleteScanned? {
      DeleteKeeps(s, step, s');
    } else if step.Clear? {
      ClearStep(s, step, s');
    } else {
      OtherStep(s, step, s');
    }
  }

  // ---------------------------------------------------------------- runs

  ghost predicate Run(states: seq<State>, steps: seq<G.Step>) {
    |states| == |steps| + 1 && states[0] == START &&
    forall i :: 0 <= i < |steps| ==> Next(states[i], steps[i], states[i + 1])
  }

  ghost predicate OrphanFree(states: seq<State>, n: nat)
    requires n < |states|
  {
    forall i :: 0 <= i <= n ==> NoOrphans(states[i].sys.tables)
  }

  ghost predicate NoneReborn(states: seq<State>, steps: seq<G.Step>, n: nat)
    requires n <= |states| && n <= |steps|
  {
    forall i :: 0 <= i < n ==> !DeletesReborn(states[i], steps[i])
  }

  lemma {:induction false} RunKeeps(states: seq<State>, steps: seq<G.Step>, n: nat)
    requires Run(states, steps) && n < |states| && OrphanFree(states, n)
    ensures Inv(states[n])
  {
    if n > 0 {
      RunKeeps(states, steps, n - 1);
      assert NoOrphans(states[n].sys.tables);
      assert Next(states[n - 1], steps[n - 1], states[n]);
      StepOrphans(states[n - 1], steps[n - 1], states[n]);
    }
  }

  lemma OrphansAt(states: seq<State>, steps: seq<G.Step>, n: nat)
    requires Run(states, steps) && 0 < n < |states| && OrphanFree(states, n - 1)
    ensures NoOrphans(states[n].sys.tables) <==> !DeletesReborn(states[n - 1], steps[n - 1])
  {
    RunKeeps(states, steps, n - 1);
    assert Next(states[n - 1], steps[n - 1], states[n]);
    StepOrphans(states[n - 1], steps[n - 1], states[n]);
  }

  /** Over all runs, clears included: no full-text row ever loses its generation exactly when no delete
      removes a generation that was cleared since its scan and reborn with full-text rows. */
  lemma {:induction false} OrphansExactly(states: seq<State>, steps: seq<G.Step>, n: nat)
    requires Run(states, steps) && n < |states|
    ensures OrphanFree(states, n) <==> NoneReborn(states, steps, n)
  {
    if n == 0 {
      assert NoOrphans(START.sys.tables);
    } else {
      OrphansExactly(states, steps, n - 1);
      if OrphanFree(states, n - 1) {
        OrphansAt(states, steps, n);
      }
      assert OrphanFree(states, n) <==> OrphanFree(states, n - 1) && NoOrphans(states[n].sys.tables);
      assert NoneReborn(states, steps, n) <==>
             NoneReborn(states, steps, n - 1) && !DeletesReborn(states[n - 1], steps[n - 1]);
    }
  }

  /** So without a clear in the window, builds and recovery there are harmless. */
  lemma QuietWindows(states: seq<State>, steps: seq<G.Step>, n: nat)
    requires Run(states, steps) && n < |states|
    requires forall i :: 0 <= i < n && steps[i].DeleteScanned? ==> !states[i].cleared
    ensures OrphanFree(states, n)
  {
    OrphansExactly(states, steps, n);
  }

  // ---------------------------------------------------------------- a run with an orphan

  const FIRST := GenKey("s", 1)
  const SECOND := GenKey("s", 2)
  const ITEM := Entry("i", "i", Item, [])
  const STAGED := GenRow(Staging, AnyOrganization, AnySource, None, 0, 0, None, false)
  const PROMOTED := GenRow(Active, AnyOrganization, AnySource, Some("now"), 0, 0, None, false)

  const START_S := G.Start("s", AnyOrganization, AnySource)
  const PROMOTE_S := G.PromoteOwn("s", "now", 0, None, None)

  function Last<X>(s: seq<X>): X
    requires s != []
  {
    s[|s| - 1]
  }

  /** Extend a run by one step that leads to `next`. */
  lemma Then(states: seq<State>, steps: seq<G.Step>, step: G.Step, next: State)
    returns (states': seq<State>, steps': seq<G.Step>)
    requires Run(states, steps) && Next(Last(states), step, next)
    ensures Run(states', steps') && Last(states') == next
  {
    states', steps' := states + [next], steps + [step];
  }

  /** Beginning the server's first build. */
  lemma BeginFirst(s: State, s': State)
    requires s.sys.own == map[] && s.sys.recovering == {} && s.sys.tables == EMPTY_TABLES && s.rowids == map[]
    requires s' == s.(sys := s.sys.(tables := Tables(map[FIRST := STAGED], map[], map[]), own := map["s" := 1]),
                      rowids := map[FIRST := 1])
    ensures Next(s, START_S, s')
  {
    assert NumbersOf(EMPTY_TABLES, "s") == {};
    assert s.rowids.Values == {};
  }

  /** Beginning the second where the first is the only row. */
  lemma BeginSecond(s: State, row: GenRow, s': State)
    requires s.sys.own == map[] && s.sys.recovering == {}
    requires s.sys.tables.generations == map[FIRST := row] && s.rowids == map[FIRST := 1]
    requires s' == s.(sys := s.sys.(tables := s.sys.tables.(generations := map[FIRST := row, SECOND := STAGED]),
                                    own := map["s" := 2]),
                      rowids := map[FIRST := 1, SECOND := 2])
    ensures Next(s, START_S, s')
  {
    assert NumbersOf(s.sys.tables, "s") == {1};
    assert s.rowids.Values == {1};
    assert NextKey(s.sys.tables, "s") == SECOND;
    assert StartGeneration(s.sys.tables, "s", AnyOrganization, AnySource) == s'.sys.tables;
    assert Rowids(s.rowids, s'.sys.tables.generations) == s'.rowids;
  }

  /** The first generation superseded by the second, both empty. */
  const TWO_EMPTY: Tables := Tables(map[FIRST := PROMOTED.(state := Superseded), SECOND := PROMOTED], map[], map[])

  function With(s: State, t: Tables, own: map<string, nat>, rowids: map<GenKey, nat>): State {
    s.(sys := s.sys.(tables := t, own := own), rowids := rowids)
  }

  lemma PromoteFirst(s: State)
    requires s == With(START, Tables(map[FIRST := STAGED], map[], map[]), map["s" := 1], map[FIRST := 1])
    ensures Next(s, PROMOTE_S, With(START, Tables(map[FIRST := PROMOTED], map[], map[]), map[], map[FIRST := 1]))
  {
    var t := Tables(map[FIRST := PROMOTED], map[], map[]);
    assert Promote(s.sys.tables, FIRST, "now", 0, None, None).value.generations == t.generations;
    assert Rowids(s.rowids, t.generations) == s.rowids;
    assert s.sys.own - {"s"} == map[];
  }

  lemma FirstBuild() returns (states: seq<State>, steps: seq<G.Step>)
    ensures Run(states, steps)
    ensures Last(states) == With(START, Tables(map[FIRST := PROMOTED], map[], map[]), map[], map[FIRST := 1])
  {
    states, steps := [START], [];
    var s := With(START, Tables(map[FIRST := STAGED], map[], map[]), map["s" := 1], map[FIRST := 1]);
    BeginFirst(START, s);
    states, steps := Then(states, steps, START_S, s);
    PromoteFirst(s);
    states, steps := Then(states, steps, PROMOTE_S,
                          With(START, Tables(map[FIRST := PROMOTED], map[], map[]), map[], map[FIRST := 1]));
  }

  lemma SecondPromoted(t: Tables, row: GenRow, after: GenRow)
    requires t.generations == map[FIRST := row, SECOND := STAGED]
    requires after == if row.state == Active then row.(state := Superseded) else row
    ensures Promote(t, SECOND, "now", 0, None, None) == Some(t.(generations := map[FIRST := after, SECOND := PROMOTED]))
  {
    var demoted := Demoted(t, "s");
    assert demoted == map[FIRST := after, SECOND := STAGED];
    assert demoted[SECOND := PROMOTED] == map[FIRST := after, SECOND := PROMOTED];
  }

  lemma RowidsKept(rowids: map<GenKey, nat>, generations: map<GenKey, GenRow>)
    requires rowids.Keys == generations.Keys
    ensures Rowids(rowids, generations) == rowids
  {
  }

  /** Promoting the second generation, whatever the first is. */
  lemma PromoteSecond(s: State, row: GenRow, after: GenRow)
    requires s.sys.tables.generations == map[FIRST := row, SECOND := STAGED] && s.sys.own == map["s" := 2]
    requires s.rowids == map[FIRST := 1, SECOND := 2]
    requires after == if row.state == Active then row.(state := Superseded) else row
    ensures Next(s, PROMOTE_S, With(s, s.sys.tables.(generations := map[FIRST := after, SECOND := PROMOTED]), map[], s.rowids))
  {
    SecondPromoted(s.sys.tables, row, after);
    RowidsKept(s.rowids, map[FIRST := after, SECOND := PROMOTED]);
    assert G.OwnKey(s.sys, "s") == SECOND;
    assert s.sys.own - {"s"} == map[];
  }

  lemma TwoBuilds() returns (states: seq<State>, steps: seq<G.Step>)
    ensures Run(states, steps)
    ensures Last(states) == With(START, TWO_EMPTY, map[], map[FIRST := 1, SECOND := 2])
  {
    states, steps := FirstBuild();
    var s := Last(states);
    var t := With(START, Tables(map[FIRST := PROMOTED, SECOND := STAGED], map[], map[]), map["s" := 2], map[FIRST := 1, SECOND := 2]);
    BeginSecond(s, PROMOTED, t);
    states, steps := Then(states, steps, START_S, t);
    var u := With(START, TWO_EMPTY, map[], map[FIRST := 1, SECOND := 2]);
    PromoteSecond(t, PROMOTED, PROMOTED.(state := Superseded));
    states, steps := Then(states, steps, PROMOTE_S, u);
  }

  lemma ScanOfTwo()
    ensures IsFtsScan(TWO_EMPTY, "s", 0, map[]) && IsGenScan(TWO_EMPTY, "s", {1})
  {
    assert ActiveIn(TWO_EMPTY.generations, SECOND);
    assert ObsoleteGenerations(TWO_EMPTY, "s") == {FIRST};
    assert EmptyObsolete(TWO_EMPTY, "s") == {1};
  }

  function Scanning(s: State, gens: set<nat>, candidates: map<nat, nat>): State {
    s.(sys := s.sys.(scan := Some(G.Scan("s", map[], gens))), candidates := candidates)
  }

  lemma ScanFtsStep(s: State)
    requires s == With(START, TWO_EMPTY, map[], map[FIRST := 1, SECOND := 2])
    ensures Next(s, G.ScanFts("s", 0, map[]), Scanning(s, {}, map[]))
  {
    ScanOfTwo();
    RowidsKept(s.rowids, TWO_EMPTY.generations);
  }

  lemma ScanGensStep(s: State)
    requires s == Scanning(With(START, TWO_EMPTY, map[], map[FIRST := 1, SECOND := 2]), {}, map[])
    ensures Next(s, G.ScanGens({1}), Scanning(s, {1}, map[1 := 1]))
  {
    ScanOfTwo();
    RowidsKept(s.rowids, TWO_EMPTY.generations);
    assert Read(s.rowids, "s", {1}) == map[1 := 1];
  }

  lemma ClearInWindow(s: State)
    requires s == Scanning(With(START, TWO_EMPTY, map[], map[FIRST := 1, SECOND := 2]), {1}, map[1 := 1])
    ensures Next(s, G.Clear("s"), Scanning(START, {1}, map[1 := 1]).(cleared := true))
  {
    assert ClearServer(TWO_EMPTY, "s") == EMPTY_TABLES;
    assert Rowids(s.rowids, map[]) == map[];
  }

  /** Cleanup reads the first generation as its candidate, and the server is cleared. */
  lemma ScanThenClear(states: seq<State>, steps: seq<G.Step>) returns (states': seq<State>, steps': seq<G.Step>)
    requires Run(states, steps)
    requires Last(states) == With(START, TWO_EMPTY, map[], map[FIRST := 1, SECOND := 2])
    ensures Run(states', steps')
    ensures Last(states') == Scanning(START, {1}, map[1 := 1]).(cleared := true)
  {
    var s := Last(states);
    ScanFtsStep(s);
    ScanGensStep(Scanning(s, {}, map[]));
    states', steps' := Then(states, steps, G.ScanFts("s", 0, map[]), Scanning(s, {}, map[]));
    states', steps' := Then(states', steps', G.ScanGens({1}), Scanning(s, {1}, map[1 := 1]));
    ClearInWindow(Scanning(s, {1}, map[1 := 1]));
    states', steps' := Then(states', steps', G.Clear("s"), Scanning(START, {1}, map[1 := 1]).(cleared := true));
  }

  /** One item stored by a build that failed. */
  const ONE_FAILED: Tables :=
    Tables(map[FIRST := STAGED.(state := Failed, lastError := Some("x"))], map[EntryKey(FIRST, "i") := ITEM],
           map[1 := FtsOf(FIRST, ITEM)])

  lemma StoreItem()
    ensures var started := Tables(map[FIRST := STAGED], map[], map[]);
            InsertAll(started, FIRST, [ITEM]) ==
            started.(entries := map[EntryKey(FIRST, "i") := ITEM], fts := map[1 := FtsOf(FIRST, ITEM)])
  {
    var started := Tables(map[FIRST := STAGED], map[], map[]);
    assert [ITEM][..0] == [] && InsertAll(started, FIRST, []) == started && MaxOf(started.fts.Keys) == 0;
  }

  /** The next build is generation 1 at rowid 1 again; it stores an item and fails. */
  lemma FailedBuild(states: seq<State>, steps: seq<G.Step>) returns (states': seq<State>, steps': seq<G.Step>)
    requires Run(states, steps)
    requires Last(states) == Scanning(START, {1}, map[1 := 1]).(cleared := true)
    ensures Run(states', steps')
    ensures Last(states') == With(Last(states), ONE_FAILED, map[], map[FIRST := 1])
  {
    var before := Last(states);
    var s := With(before, Tables(map[FIRST := STAGED], map[], map[]), map["s" := 1], map[FIRST := 1]);
    BeginFirst(before, s);
    states', steps' := Then(states, steps, START_S, s);
    StoreItem();
    var stored := s.sys.tables.(entries := ONE_FAILED.entries, fts := ONE_FAILED.fts);
    states', steps' := Then(states', steps', G.InsertBatch("s", [ITEM]), With(before, stored, map["s" := 1], map[FIRST := 1]));
    states', steps' := Then(states', steps', G.FailOwn("s", "x"), With(before, ONE_FAILED, map[], map[FIRST := 1]));
  }

  /** The build after it is promoted, so the scanned number is obsolete once more when the delete comes. */
  lemma PromotedThenDelete(states: seq<State>, steps: seq<G.Step>) returns (states': seq<State>, steps': seq<G.Step>)
    requires Run(states, steps)
    requires Last(states) == With(Scanning(START, {1}, map[1 := 1]).(cleared := true), ONE_FAILED, map[], map[FIRST := 1])
    ensures Run(states', steps') && !NoOrphans(Last(states').sys.tables)
  {
    var before, row := Last(states), ONE_FAILED.generations[FIRST];
    var s := With(before, ONE_FAILED.(generations := map[FIRST := row, SECOND := STAGED]), map["s" := 2], map[FIRST := 1, SECOND := 2]);
    BeginSecond(before, row, s);
    states', steps' := Then(states, steps, START_S, s);
    var t := With(before, ONE_FAILED.(generations := map[FIRST := row, SECOND := PROMOTED]), map[], map[FIRST := 1, SECOND := 2]);
    PromoteSecond(s, row, row);
    states', steps' := Then(states', steps', PROMOTE_S, t);
    states', steps' := DeleteAtLast(states', steps');
  }

  lemma DeleteAtLast(states: seq<State>, steps: seq<G.Step>) returns (states': seq<State>, steps': seq<G.Step>)
    requires Run(states, steps)
    requires Last(states).sys.tables == ONE_FAILED.(generations := map[FIRST := ONE_FAILED.generations[FIRST], SECOND := PROMOTED])
    requires Last(states).sys.scan == Some(G.Scan("s", map[], {1}))
    requires Last(states).rowids == map[FIRST := 1, SECOND := 2] && Last(states).candidates == map[1 := 1]
    ensures Run(states', steps') && !NoOrphans(Last(states').sys.tables)
  {
    var s := Last(states);
    var t, victims := s.sys.tables, {EntryKey(FIRST, "i")};
    assert ActiveIn(t.generations, SECOND);
    assert ObsoleteEntries(t, "s") == victims;
    assert Found(s) == {1};
    assert GenDoomed(t, "s", victims, {1}, FIRST);
    var t' := DeleteBatch(t, "s", map[], victims, {1});
    var next := State(s.sys.(tables := t', scan := None), Rowids(s.rowids, t'.generations), map[], false);
    states', steps' := Then(states, steps, G.DeleteScanned(victims), next);
    assert t'.fts[1].gen == FIRST && FIRST !in t'.generations;
  }

  /** From empty tables: two builds, a scan, a clear, two more builds, and a delete that removes the reborn
      generation and its entry but leaves its full-text row. */
  lemma ClearInWindowOrphans() returns (states: seq<State>, steps: seq<G.Step>)
    ensures Run(states, steps) && !NoOrphans(Last(states).sys.tables)
  {
    states, steps := TwoBuilds();
    states, steps := ScanThenClear(states, steps);
    states, steps := FailedBuild(states, steps);
    states, steps := PromotedThenDelete(states, steps);
  }
}
