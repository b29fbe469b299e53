/**
  Every interleaving of builds, restart recovery and scan-then-delete cleanup over the index tables.

  `own` is the build protocol's side of the story: the generation each running build (the holder of
  the server's build lock) started.  `scan` holds what the cleanup worker read outside the writer
  gate and has not yet used.  `recovering` holds the servers whose build lock a restarting process
  found free, once, before its two recovery statements; no build of such a server starts meanwhile,
  because every process has a database of its own (RecoveryOverlap does without this).
*/
module GenerationRuns {
  import opened Prelude
  import opened IndexTables

  datatype Scan = Scan(server: string, fts: FtsCandidates, gens: set<nat>)

  datatype Sys = Sys(tables: Tables, own: map<string, nat>, scan: Option<Scan>, recovering: set<string>)

  datatype Step =
    | Start(server: string, org: Organization, source: Source)
    | RecordFailure(server: string, error: string)
    | InsertBatch(server: string, batch: seq<Entry>)
    | Progress(server: string, seen: nat, unique: nat)
    | PromoteOwn(server: string, at: string, count: nat, profile: Option<(Organization, Source)>,
                 warning: Option<string>)
    | FailOwn(server: string, error: string)
    | DiscardOwn(server: string)
    | Lose(server: string)  // the build ends, or its process dies, without touching its row
    | RolledBack            // any transaction that fails
    | CheckLock(server: string)
    | Mark(server: string)
    | Demote(server: string)
    | QuitRecovery(server: string)
    | ScanFts(server: string, after: nat, fts: FtsCandidates)
    | ScanGens(gens: set<nat>)
    | DropScan
    | DeleteScanned(victims: set<EntryKey>)
    | Clear(server: string)

  ghost function OwnKey(s: Sys, server: string): GenKey
    requires server in s.own
  {
    GenKey(server, s.own[server])
  }

  ghost predicate Next(s: Sys, step: Step, s': Sys) {
    match step
    case Start(server, org, source) =>
      server !in s.own && server !in s.recovering &&
      s' == s.(tables := StartGeneration(s.tables, server, org, source),
               own := s.own[server := NextKey(s.tables, server).number])
    case RecordFailure(server, error) =>
      s' == s.(tables := RecordFailedAttempt(s.tables, server, error))
    case InsertBatch(server, batch) =>
      server in s.own &&
      (var result := InsertEntries(s.tables, OwnKey(s, server), batch);
       s' == if result.Some? then s.(tables := result.value) else s)
    case Progress(server, seen, unique) =>
      server in s.own && s' == s.(tables := UpdateProgress(s.tables, OwnKey(s, server), seen, unique))
    case PromoteOwn(server, at, count, profile, warning) =>
      server in s.own &&
      (var result := Promote(s.tables, OwnKey(s, server), at, count, profile, warning);
       s' == if result.Some? then s.(tables := result.value, own := s.own - {server}) else s)
    case FailOwn(server, error) =>
      server in s.own &&
      s' == s.(tables := FailGeneration(s.tables, OwnKey(s, server), error), own := s.own - {server})
    case DiscardOwn(server) =>
      server in s.own &&
      s' == if Discardable(s.tables, OwnKey(s, server))
            then s.(tables := DiscardEmpty(s.tables, OwnKey(s, server)), own := s.own - {server}) else s
    case Lose(server) => s' == s.(own := s.own - {server})
    case RolledBack => s' == s
    case CheckLock(server) => server !in s.own && s' == s.(recovering := s.recovering + {server})
    case Mark(server) => server in s.recovering && s' == s.(tables := RecoverMark(s.tables, server))
    case Demote(server) =>
      server in s.recovering &&
      s' == s.(tables := RecoverDemote(s.tables, server), recovering := s.recovering - {server})
    case QuitRecovery(server) => s' == s.(recovering := s.recovering - {server})
    case ScanFts(server, after, fts) =>
      s.scan.None? && IsFtsScan(s.tables, server, after, fts) &&
      s' == s.(scan := Some(Scan(server, fts, {})))
    case ScanGens(gens) =>
      s.scan.Some? && s.scan.value.fts == map[] && IsGenScan(s.tables, s.scan.value.server, gens) &&
      s' == s.(scan := Some(s.scan.value.(gens := gens)))
    case DropScan => s' == s.(scan := None)
    case DeleteScanned(victims) =>
      s.scan.Some? && LegalVictims(s.tables, s.scan.value.server, victims) &&
      s' == s.(tables := DeleteBatch(s.tables, s.scan.value.server, s.scan.value.fts, victims,
                                     s.scan.value.gens),
               scan := None)
    case Clear(server) =>
      server !in s.own && (s.scan.Some? ==> s.scan.value.server != server) &&
      s' == s.(tables := ClearServer(s.tables, server))
  }

  // ---------------------------------------------------------------- invariant

  /** A running build's generation is staging and newer than whatever is active. */
  ghost predicate OwnInv(s: Sys) {
    forall server :: server in s.own ==>
      server !in s.recovering && InState(s.tables, GenKey(server, s.own[server]), Staging) &&
      (forall k :: InState(s.tables, k, Active) && k.server == server ==> k.number < s.own[server])
  }

  /** What cleanup saw empty and obsolete outside the gate still is. */
  ghost predicate ScanInv(s: Sys) {
    s.scan.Some? ==> forall n :: n in s.scan.value.gens ==>
      var k := GenKey(s.scan.value.server, n);
      Obsolete(s.tables, k) && !HasEntries(s.tables.entries, k) && !HasFts(s.tables.fts, k)
  }

  ghost predicate Inv(s: Sys) {
    TablesInv(s.tables) && NoOrphans(s.tables) && OwnInv(s) && ScanInv(s)
  }

  // ---------------------------------------------------------------- single transactions

  lemma InsertUnique(t: Tables, k: GenKey, e: Entry)
    requires UniqueFts(t.fts) && Synced(t, k)
    ensures UniqueFts(InsertEntry(t, k, e).fts)
  {
  }

  lemma InsertSynced(t: Tables, k: GenKey, e: Entry, g: GenKey)
    requires Synced(t, g)
    ensures Synced(InsertEntry(t, k, e), g)
  {
    var t' := InsertEntry(t, k, e);
    if t' != t {
      var r := MaxOf(t.fts.Keys) + 1;
      assert r !in t.fts;
      forall en | en in t'.entries && en.gen == g
        ensures en in FtsKeys(t'.fts)
      {
        if en == EntryKey(k, e.itemId) {
          assert EntryKey(t'.fts[r].gen, t'.fts[r].itemId) == en;
        } else {
          assert en in FtsKeys(t.fts);
          var q :| q in t.fts && EntryKey(t.fts[q].gen, t.fts[q].itemId) == en;
          assert q in t'.fts && t'.fts[q] == t.fts[q];
        }
      }
    }
  }

  lemma InsertOthers(t: Tables, k: GenKey, e: Entry, g: GenKey)
    requires g != k
    ensures Content(InsertEntry(t, k, e), g) == Content(t, g)
  {
  }

  lemma InsertKeyed(t: Tables, k: GenKey, e: Entry)
    requires Keyed(t) && NoOrphans(t) && k in t.generations
    ensures Keyed(InsertEntry(t, k, e)) && NoOrphans(InsertEntry(t, k, e))
  {
  }

  lemma InsertEntryKeeps(t: Tables, k: GenKey, e: Entry)
    requires TablesInv(t) && NoOrphans(t) && InState(t, k, Staging)
    ensures var t' := InsertEntry(t, k, e);
            TablesInv(t') && NoOrphans(t') && t'.generations == t.generations
    ensures forall g :: g != k ==> Content(InsertEntry(t, k, e), g) == Content(t, g)
  {
    var t' := InsertEntry(t, k, e);
    assert Synced(t, k);
    InsertUnique(t, k, e);
    InsertKeyed(t, k, e);
    forall g | g in t'.generations && !Obsolete(t', g)
      ensures Synced(t', g)
    {
      assert !Obsolete(t, g);
      InsertSynced(t, k, e, g);
    }
    forall g | g != k
      ensures Content(t', g) == Content(t, g)
    {
      InsertOthers(t, k, e, g);
    }
  }

  lemma {:induction false} InsertAllKeeps(t: Tables, k: GenKey, batch: seq<Entry>)
    requires TablesInv(t) && NoOrphans(t) && InState(t, k, Staging)
    ensures var t' := InsertAll(t, k, batch);
            TablesInv(t') && NoOrphans(t') && t'.generations == t.generations &&
            (forall g :: g != k ==> Content(t', g) == Content(t, g))
  {
    if batch != [] {
      var front := batch[..|batch| - 1];
      InsertAllKeeps(t, k, front);
      InsertEntryKeeps(InsertAll(t, k, front), k, batch[|batch| - 1]);
    }
  }

  ghost predicate Bare(t: Tables, k: GenKey) {
    !HasEntries(t.entries, k) && !HasFts(t.fts, k)
  }

  /** A statement that touches only generation rows keeps the invariant when it keeps one active row,
      forgets no key, and revives no obsolete generation. */
  lemma StatesKeep(t: Tables, generations: map<GenKey, GenRow>)
    requires TablesInv(t) && NoOrphans(t)
    requires t.generations.Keys <= generations.Keys
    requires UniqueActive(generations)
    requires var t' := t.(generations := generations);
             forall k :: k in generations && !Obsolete(t', k) ==>
               (k in t.generations && !Obsolete(t, k)) || Bare(t, k)
    ensures var t' := t.(generations := generations); TablesInv(t') && NoOrphans(t')
    ensures forall k :: Content(t.(generations := generations), k) == Content(t, k)
  {
  }

  lemma FreshIsBare(t: Tables, k: GenKey)
    requires Keyed(t) && NoOrphans(t) && k !in t.generations
    ensures Bare(t, k)
  {
  }

  /** Adding a row that is not active. */
  lemma AddRowKeeps(t: Tables, k: GenKey, row: GenRow)
    requires TablesInv(t) && NoOrphans(t) && k !in t.generations && row.state != Active
    ensures var t' := t.(generations := t.generations[k := row]); TablesInv(t') && NoOrphans(t')
    ensures forall g :: Obsolete(t, g) ==> Obsolete(t.(generations := t.generations[k := row]), g)
  {
    var generations := t.generations[k := row];
    var t' := t.(generations := generations);
    assert forall g :: g in t.generations ==> g in generations && generations[g] == t.generations[g];
    ActiveCarries(t.generations, generations);
    ActiveCarries(generations, t.generations);
    FreshIsBare(t, k);
    StatesKeep(t, generations);
  }

  /** Rewriting non-active rows of known keys without activating or reviving any. */
  lemma RewriteKeeps(t: Tables, generations: map<GenKey, GenRow>)
    requires TablesInv(t) && NoOrphans(t)
    requires generations.Keys == t.generations.Keys
    requires forall k :: ActiveIn(t.generations, k) <==> ActiveIn(generations, k)
    requires forall k :: k in generations && t.generations[k].state in {Superseded, Failed} ==>
               generations[k].state == t.generations[k].state
    ensures var t' := t.(generations := generations);
            TablesInv(t') && NoOrphans(t') && forall k :: Obsolete(t, k) ==> Obsolete(t', k)
    ensures forall k :: Content(t.(generations := generations), k) == Content(t, k)
  {
    ActiveCarries(t.generations, generations);
    ActiveCarries(generations, t.generations);
    StatesKeep(t, generations);
  }

  lemma PromoteActives(t: Tables, k: GenKey, at: string, count: nat, profile: Option<(Organization, Source)>,
                       warning: Option<string>, server: string)
    requires InState(t, k, Staging) && server != k.server
    requires Promote(t, k, at, count, profile, warning).Some?
    ensures HasActive(Promote(t, k, at, count, profile, warning).value.generations, server) <==>
            HasActive(t.generations, server)
  {
  }

  /** Only the promoted row and the rows it supersedes change state. */
  lemma PromoteStates(t: Tables, k: GenKey, at: string, count: nat, profile: Option<(Organization, Source)>,
                      warning: Option<string>)
    requires UniqueActive(t.generations) && InState(t, k, Staging)
    ensures Promote(t, k, at, count, profile, warning).Some?
    ensures var t' := Promote(t, k, at, count, profile, warning).value;
            UniqueActive(t'.generations) && ActiveIn(t'.generations, k) && HasActive(t'.generations, k.server)
    ensures forall g :: Obsolete(t, g) ==> Obsolete(Promote(t, k, at, count, profile, warning).value, g)
  {
    var t' := Promote(t, k, at, count, profile, warning).value;
    assert ActiveIn(t'.generations, k);
    forall g | Obsolete(t, g)
      ensures Obsolete(t', g)
    {
      if g.server != k.server {
        PromoteActives(t, k, at, count, profile, warning, g.server);
      }
    }
  }

  lemma PromoteKeeps(t: Tables, k: GenKey, at: string, count: nat, profile: Option<(Organization, Source)>,
                     warning: Option<string>)
    requires TablesInv(t) && NoOrphans(t) && InState(t, k, Staging)
    ensures var result := Promote(t, k, at, count, profile, warning);
            result.Some? && TablesInv(result.value) && NoOrphans(result.value) &&
            InState(result.value, k, Active) &&
            (forall g :: Content(result.value, g) == Content(t, g)) &&
            (forall g :: Obsolete(t, g) ==> Obsolete(result.value, g))
  {
    var t' := Promote(t, k, at, count, profile, warning).value;
    PromoteStates(t, k, at, count, profile, warning);
    StatesKeep(t, t'.generations);
  }

  lemma DiscardKeeps(t: Tables, k: GenKey)
    requires TablesInv(t) && NoOrphans(t)
    ensures var t' := DiscardEmpty(t, k);
            TablesInv(t') && NoOrphans(t') && (forall g :: Obsolete(t, g) ==> Obsolete(t', g))
    ensures forall g :: Content(DiscardEmpty(t, k), g) == Content(t, g)
  {
    var t' := DiscardEmpty(t, k);
    ActiveCarries(t.generations, t'.generations);
    ActiveCarries(t'.generations, t.generations);
    forall g | g in t'.generations && !Obsolete(t', g)
      ensures Synced(t', g)
    {
      assert !Obsolete(t, g);
      assert Synced(t, g);
    }
  }

  lemma SyncedByContent(t: Tables, t': Tables, k: GenKey)
    requires Content(t', k) == Content(t, k) && Synced(t, k)
    ensures Synced(t', k)
  {
    forall e | e in t'.entries && e.gen == k
      ensures e in FtsKeys(t'.fts)
    {
      assert e in Content(t', k).entries;
      assert e in t.entries;
      var r :| r in t.fts && EntryKey(t.fts[r].gen, t.fts[r].itemId) == e;
      assert r in Content(t, k).fts;
      assert r in t'.fts && t'.fts[r] == Content(t', k).fts[r];
    }
    forall r | r in t'.fts && t'.fts[r].gen == k
      ensures EntryKey(k, t'.fts[r].itemId) in t'.entries &&
              t'.fts[r] == FtsOf(k, t'.entries[EntryKey(k, t'.fts[r].itemId)])
    {
      assert r in Content(t', k).fts;
      assert r in t.fts && t.fts[r] == Content(t, k).fts[r];
      var e := EntryKey(k, t.fts[r].itemId);
      assert e in Content(t, k).entries;
      assert Content(t', k).entries[e] == t'.entries[e];
    }
  }

  lemma CleanupActive(t: Tables, server: string, fts: FtsCandidates, victims: set<EntryKey>, gens: set<nat>)
    ensures var t' := DeleteBatch(t, server, fts, victims, gens);
            (forall g :: ActiveIn(t'.generations, g) <==> ActiveIn(t.generations, g)) &&
            (forall g :: g in t'.generations ==> (Obsolete(t', g) <==> Obsolete(t, g)))
  {
  }

  lemma CleanupKeeps(t: Tables, server: string, fts: FtsCandidates, victims: set<EntryKey>, gens: set<nat>)
    requires TablesInv(t) && NoOrphans(t) && victims <= ObsoleteEntries(t, server)
    requires forall n :: n in gens ==> !HasFts(t.fts, GenKey(server, n))
    ensures var t' := DeleteBatch(t, server, fts, victims, gens); TablesInv(t') && NoOrphans(t')
  {
    var t' := DeleteBatch(t, server, fts, victims, gens);
    CleanupActive(t, server, fts, victims, gens);
    ActiveCarries(t'.generations, t.generations);
    forall k | k in t'.generations && !Obsolete(t', k)
      ensures Synced(t', k)
    {
      CleanupSpares(t, server, fts, victims, gens, k);
      SyncedByContent(t, t', k);
    }
  }

  lemma ClearElsewhere(t: Tables, server: string, g: GenKey)
    requires g.server != server
    ensures Content(ClearServer(t, server), g) == Content(t, g)
    ensures Obsolete(ClearServer(t, server), g) <==> Obsolete(t, g)
  {
  }

  lemma ClearKeeps(t: Tables, server: string)
    requires TablesInv(t) && NoOrphans(t)
    ensures var t' := ClearServer(t, server); TablesInv(t') && NoOrphans(t')
    ensures forall g: GenKey :: g.server != server ==>
              Content(ClearServer(t, server), g) == Content(t, g) &&
              (Obsolete(ClearServer(t, server), g) <==> Obsolete(t, g))
  {
    var t' := ClearServer(t, server);
    ActiveCarries(t'.generations, t.generations);
    forall g: GenKey | g.server != server
      ensures Content(t', g) == Content(t, g)
      ensures Obsolete(t', g) <==> Obsolete(t, g)
    {
      ClearElsewhere(t, server, g);
    }
    forall k | k in t'.generations && !Obsolete(t', k)
      ensures Synced(t', k)
    {
      SyncedByContent(t, t', k);
    }
  }

  // ---------------------------------------------------------------- steps

  lemma ScanStays(s: Sys, s': Sys)
    requires ScanInv(s) && s'.scan == s.scan
    requires forall g :: Obsolete(s.tables, g) ==>
               Obsolete(s'.tables, g) && Content(s'.tables, g) == Content(s.tables, g)
    ensures ScanInv(s')
  {
    if s.scan.Some? {
      forall n | n in s.scan.value.gens
        ensures var k := GenKey(s.scan.value.server, n); Obsolete(s'.tables, k) && Bare(s'.tables, k)
      {
        var k := GenKey(s.scan.value.server, n);
        assert Content(s.tables, k) == Rows(map[], map[]);
        assert forall e :: e in s'.tables.entries && e.gen == k ==> e in Content(s'.tables, k).entries;
        assert forall r :: r in s'.tables.fts && s'.tables.fts[r].gen == k ==> r in Content(s'.tables, k).fts;
      }
    }
  }

  lemma AddInv(s: Sys, step: Step, s': Sys)
    requires Inv(s) && Next(s, step, s') && (step.Start? || step.RecordFailure?)
    ensures Inv(s')
  {
    var k := NextKey(s.tables, step.server);
    AddRowKeeps(s.tables, k, s'.tables.generations[k]);
    assert s'.tables == s.tables.(generations := s.tables.generations[k := s'.tables.generations[k]]);
    AddOwn(s, step, s');
    ScanStays(s, s');
  }

  lemma AddOwn(s: Sys, step: Step, s': Sys)
    requires OwnInv(s) && Next(s, step, s') && (step.Start? || step.RecordFailure?)
    ensures OwnInv(s')
  {
  }

  lemma InsertInv(s: Sys, step: Step, s': Sys)
    requires Inv(s) && Next(s, step, s') && step.InsertBatch?
    ensures Inv(s')
  {
    if s' != s {
      InsertAllKeeps(s.tables, OwnKey(s, step.server), step.batch);
      ScanStays(s, s');
    }
  }

  /** Steps that only rewrite rows in place. */
  lemma OwnRewritten(s: Sys, s': Sys)
    requires OwnInv(s) && s'.recovering <= s.recovering
    requires forall k :: ActiveIn(s.tables.generations, k) <==> ActiveIn(s'.tables.generations, k)
    requires forall server :: server in s'.own ==>
               server in s.own && s'.own[server] == s.own[server] &&
               InState(s'.tables, GenKey(server, s.own[server]), Staging)
    ensures OwnInv(s')
  {
    assert forall k :: InState(s'.tables, k, Active) ==> ActiveIn(s'.tables.generations, k);
  }

  lemma RewriteInv(s: Sys, s': Sys)
    requires Inv(s) && s'.scan == s.scan && s'.recovering <= s.recovering
    requires s'.tables == s.tables.(generations := s'.tables.generations)
    requires s'.tables.generations.Keys == s.tables.generations.Keys
    requires forall k :: ActiveIn(s.tables.generations, k) <==> ActiveIn(s'.tables.generations, k)
    requires forall k :: k in s.tables.generations && s.tables.generations[k].state in {Superseded, Failed} ==>
               s'.tables.generations[k].state == s.tables.generations[k].state
    requires forall server :: server in s'.own ==>
               server in s.own && s'.own[server] == s.own[server] &&
               InState(s'.tables, GenKey(server, s.own[server]), Staging)
    ensures Inv(s')
  {
    RewriteKeeps(s.tables, s'.tables.generations);
    OwnRewritten(s, s');
    ScanStays(s, s');
  }

  lemma PromoteInv(s: Sys, step: Step, s': Sys)
    requires Inv(s) && Next(s, step, s') && step.PromoteOwn?
    ensures Inv(s')
  {
    PromoteKeeps(s.tables, OwnKey(s, step.server), step.at, step.count, step.profile, step.warning);
    OwnPromoted(s, step, s');
    ScanStays(s, s');
  }

  /** The builds still running are those of other servers, whose rows the promotion leaves alone. */
  lemma OwnPromoted(s: Sys, step: Step, s': Sys)
    requires OwnInv(s) && UniqueActive(s.tables.generations) && Next(s, step, s') && step.PromoteOwn?
    ensures OwnInv(s')
  {
  }

  lemma DiscardInv(s: Sys, step: Step, s': Sys)
    requires Inv(s) && Next(s, step, s') && step.DiscardOwn?
    ensures Inv(s')
  {
    DiscardKeeps(s.tables, OwnKey(s, step.server));
    ScanStays(s, s');
  }

  lemma CleanupInv(s: Sys, step: Step, s': Sys)
    requires Inv(s) && Next(s, step, s') && step.DeleteScanned?
    ensures Inv(s')
  {
    var scan := s.scan.value;
    CleanupKeeps(s.tables, scan.server, scan.fts, step.victims, scan.gens);
    CleanupActive(s.tables, scan.server, scan.fts, step.victims, scan.gens);
    forall server | server in s'.own
      ensures InState(s'.tables, OwnKey(s', server), Staging)
    {
      CleanupSpares(s.tables, scan.server, scan.fts, step.victims, scan.gens, OwnKey(s, server));
    }
  }

  lemma ClearInv(s: Sys, step: Step, s': Sys)
    requires Inv(s) && Next(s, step, s') && step.Clear?
    ensures Inv(s')
  {
    ClearKeeps(s.tables, step.server);
    if s.scan.Some? {
      forall n | n in s.scan.value.gens
        ensures var k := GenKey(s.scan.value.server, n); Obsolete(s'.tables, k) && Bare(s'.tables, k)
      {
      }
    }
  }

  lemma StepInv(s: Sys, step: Step, s': Sys)
    requires Inv(s) && Next(s, step, s')
    ensures Inv(s')
  {
    match step
    case Start(_, _, _) => AddInv(s, step, s');
    case RecordFailure(_, _) => AddInv(s, step, s');
    case InsertBatch(_, _) => InsertInv(s, step, s');
    case Progress(_, _, _) => RewriteInv(s, s');
    case PromoteOwn(_, _, _, _, _) => PromoteInv(s, step, s');
    case FailOwn(_, _) => RewriteInv(s, s');
    case DiscardOwn(_) => DiscardInv(s, step, s');
    case Lose(_) =>
    case RolledBack =>
    case CheckLock(_) =>
    case Mark(_) => RewriteInv(s, s');
    case Demote(_) => RewriteInv(s, s');
    case QuitRecovery(_) =>
    case ScanFts(_, _, _) =>
    case ScanGens(gens) =>
      forall n | n in gens
        ensures var k := GenKey(s.scan.value.server, n); Obsolete(s.tables, k) && Bare(s.tables, k)
      {
        assert n in EmptyObsolete(s.tables, s.scan.value.server);
      }
    case DropScan =>
    case DeleteScanned(_) => CleanupInv(s, step, s');
    case Clear(_) => ClearInv(s, step, s');
  }

  // ---------------------------------------------------------------- the active generation

  /** `k` is still active with the rows and the record it had; only a restart note may differ. */
  ghost predicate Frozen(t: Tables, t': Tables, k: GenKey) {
    InState(t, k, Active) && InState(t', k, Active) && Content(t', k) == Content(t, k) &&
    t'.generations[k] == t.generations[k].(lastError := t'.generations[k].lastError)
  }

  predicate Quiet(step: Step) {
    !step.InsertBatch? && !step.PromoteOwn? && !step.DiscardOwn? && !step.DeleteScanned? && !step.Clear?
  }

  lemma QuietRows(s: Sys, step: Step, s': Sys)
    requires Next(s, step, s') && Quiet(step)
    ensures s'.tables.entries == s.tables.entries && s'.tables.fts == s.tables.fts
  {
  }

  lemma QuietRow(s: Sys, step: Step, s': Sys, k: GenKey)
    requires TablesInv(s.tables) && OwnInv(s) && Next(s, step, s') && InState(s.tables, k, Active) && Quiet(step)
    ensures InState(s'.tables, k, Active)
    ensures s'.tables.generations[k] == s.tables.generations[k].(lastError := s'.tables.generations[k].lastError)
    ensures !step.Mark? ==> s'.tables.generations[k] == s.tables.generations[k]
  {
  }

  /** Steps that touch no entry or full-text row. */
  lemma QuietStep(s: Sys, step: Step, s': Sys, k: GenKey)
    requires Inv(s) && Next(s, step, s') && InState(s.tables, k, Active) && Quiet(step)
    ensures Frozen(s.tables, s'.tables, k)
    ensures !step.Mark? ==> s'.tables.generations[k] == s.tables.generations[k]
  {
    QuietRows(s, step, s');
    QuietRow(s, step, s', k);
    assert Content(s'.tables, k) == Content(s.tables, k);
  }

  /** `step` is the promotion that replaces active `k` by a strictly newer generation, activated with
      the rows it was staged with. */
  ghost predicate Replaces(s: Sys, step: Step, s': Sys, k: GenKey) {
    step.PromoteOwn? && step.server == k.server && step.server in s.own &&
    k.number < s.own[step.server] && InState(s'.tables, OwnKey(s, step.server), Active) &&
    Content(s'.tables, OwnKey(s, step.server)) == Content(s.tables, OwnKey(s, step.server))
  }

  lemma PromoteActive(s: Sys, step: Step, s': Sys, k: GenKey)
    requires Inv(s) && Next(s, step, s') && InState(s.tables, k, Active) && step.PromoteOwn?
    ensures if step.server == k.server then Replaces(s, step, s', k)
            else Frozen(s.tables, s'.tables, k) && s'.tables.generations[k] == s.tables.generations[k]
  {
    PromoteKeeps(s.tables, OwnKey(s, step.server), step.at, step.count, step.profile, step.warning);
  }

  lemma RowActive(s: Sys, step: Step, s': Sys, k: GenKey)
    requires Inv(s) && Next(s, step, s') && InState(s.tables, k, Active)
    requires step.InsertBatch? || step.DiscardOwn? || (step.Clear? && step.server != k.server)
    ensures Frozen(s.tables, s'.tables, k) && s'.tables.generations[k] == s.tables.generations[k]
  {
    match step
    case InsertBatch(_, _) =>
      if s' != s {
        InsertAllKeeps(s.tables, OwnKey(s, step.server), step.batch);
      }
    case DiscardOwn(_) => DiscardKeeps(s.tables, OwnKey(s, step.server));
    case Clear(_) => ClearKeeps(s.tables, step.server);
  }

  /** One step either leaves the active generation frozen or is the one promotion transaction that
      activates its successor. */
  lemma ActiveStep(s: Sys, step: Step, s': Sys, k: GenKey)
    requires Inv(s) && Next(s, step, s') && InState(s.tables, k, Active)
    requires step != Clear(k.server)
    ensures Frozen(s.tables, s'.tables, k) || Replaces(s, step, s', k)
    ensures Frozen(s.tables, s'.tables, k) && !step.Mark? ==>
              s'.tables.generations[k] == s.tables.generations[k]
  {
    match step
    case PromoteOwn(_, _, _, _, _) => PromoteActive(s, step, s', k);
    case InsertBatch(_, _) => RowActive(s, step, s', k);
    case DiscardOwn(_) => RowActive(s, step, s', k);
    case Clear(_) => RowActive(s, step, s', k);
    case DeleteScanned(_) =>
      var scan := s.scan.value;
      CleanupSpares(s.tables, scan.server, scan.fts, step.victims, scan.gens, k);
    case _ => QuietStep(s, step, s', k);
  }

  // ---------------------------------------------------------------- whole runs

  ghost predicate Run(states: seq<Sys>, steps: seq<Step>) {
    |states| == |steps| + 1 && states[0] == Sys(EMPTY_TABLES, map[], None, {}) &&
    forall i :: 0 <= i < |steps| ==> Next(states[i], steps[i], states[i + 1])
  }

  lemma {:induction false} RunInv(states: seq<Sys>, steps: seq<Step>, i: nat)
    requires Run(states, steps) && i < |states|
    ensures Inv(states[i])
  {
    if i > 0 {
      RunInv(states, steps, i - 1);
      StepInv(states[i - 1], steps[i - 1], states[i]);
    }
  }

  /** Between two points of a run that does not clear the server, an active generation is succeeded
      only by newer ones, and while its number stays the same it is frozen. */
  lemma {:induction false} ActiveThroughRun(states: seq<Sys>, steps: seq<Step>, i: nat, j: nat, k: GenKey)
    returns (k': GenKey)
    requires Run(states, steps) && i <= j < |states| && InState(states[i].tables, k, Active)
    requires forall n :: i <= n < j ==> steps[n] != Clear(k.server)
    ensures k'.server == k.server && k.number <= k'.number && InState(states[j].tables, k', Active)
    ensures forall other :: InState(states[j].tables, other, Active) && other.server == k.server ==> other == k'
    ensures k' == k ==> Frozen(states[i].tables, states[j].tables, k)
    ensures k' != k ==> exists n :: i <= n < j && steps[n].PromoteOwn? && steps[n].server == k.server
    decreases j - i
  {
    RunInv(states, steps, j);
    if i == j {
      k' := k;
    } else {
      var mid := ActiveThroughRun(states, steps, i, j - 1, k);
      RunInv(states, steps, j - 1);
      ActiveStep(states[j - 1], steps[j - 1], states[j], mid);
      if Frozen(states[j - 1].tables, states[j].tables, mid) {
        k' := mid;
      } else {
        k' := OwnKey(states[j - 1], steps[j - 1].server);
      }
    }
  }

  /** No reachable state holds a full-text row whose generation row is gone, and every active or
      staging generation has the same items in both tables. */
  lemma ReachableTables(states: seq<Sys>, steps: seq<Step>, i: nat)
    requires Run(states, steps) && i < |states|
    ensures forall r :: r in states[i].tables.fts ==> states[i].tables.fts[r].gen in states[i].tables.generations
    ensures forall k :: InState(states[i].tables, k, Active) || InState(states[i].tables, k, Staging) ==>
              Synced(states[i].tables, k)
  {
    RunInv(states, steps, i);
  }

  // ---------------------------------------------------------------- what each step achieves

  ghost predicate Stored(t: Tables, k: GenKey, batch: seq<Entry>) {
    forall i :: 0 <= i < |batch| ==> EntryKey(k, batch[i].itemId) in t.entries
  }

  /** The generation a build is filling. */
  ghost function Built(s: Sys, server: string): GenKey {
    GenKey(server, if server in s.own then s.own[server] else 0)
  }

  /** What a step is for, in terms of the rows it leaves. */
  ghost predicate Achieves(s: Sys, step: Step, s': Sys) {
    match step
    case Start(server, org, source) =>
      server in s'.own && Built(s', server) !in s.tables.generations && InState(s'.tables, Built(s', server), Staging)
    case RecordFailure(server, error) =>
      exists k :: k !in s.tables.generations && k.server == server && InState(s'.tables, k, Failed) &&
                  s'.tables.generations[k].lastError == Some(error)
    case InsertBatch(server, batch) =>
      (forall i :: 0 <= i < |batch| ==> batch[i].itemId != "") ==> Stored(s'.tables, Built(s, server), batch)
    case Progress(server, seen, unique) =>
      Built(s, server) in s'.tables.generations && s'.tables.generations[Built(s, server)].entryCount == seen &&
      s'.tables.generations[Built(s, server)].uniqueItemCount == unique
    case PromoteOwn(server, _, _, _, _) => server !in s'.own && InState(s'.tables, Built(s, server), Active)
    case FailOwn(server, error) =>
      server !in s'.own && InState(s'.tables, Built(s, server), Failed) &&
      s'.tables.generations[Built(s, server)].lastError == Some(error)
    case DiscardOwn(server) =>
      Bare(s.tables, Built(s, server)) ==> server !in s'.own && Built(s, server) !in s'.tables.generations
    case Lose(server) => server !in s'.own
    case RolledBack => s' == s
    case CheckLock(server) => server in s'.recovering
    case Mark(server) =>
      HasStaging(s.tables, server) ==>
        forall k :: InState(s'.tables, k, Active) && k.server == server ==>
          s'.tables.generations[k].lastError == Some(INTERRUPTED)
    case Demote(server) => !HasStaging(s'.tables, server) && server !in s'.recovering
    case QuitRecovery(server) => server !in s'.recovering
    case ScanFts(server, _, fts) => s'.scan == Some(Scan(server, fts, {})) && fts.Keys <= ObsoleteFts(s.tables, server)
    case ScanGens(gens) =>
      s'.scan.Some? && s'.scan.value.gens == gens && gens <= EmptyObsolete(s.tables, s'.scan.value.server)
    case DropScan => s'.scan.None?
    case DeleteScanned(victims) =>
      s.scan.Some? && s'.scan.None? && s'.tables.entries == s.tables.entries - victims &&
      (forall n :: n in s.scan.value.gens ==> GenKey(s.scan.value.server, n) !in s'.tables.generations) &&
      (forall r :: r in s'.tables.fts ==> !FtsDoomed(s.tables, s.scan.value.server, s.scan.value.fts, r))
    case Clear(server) =>
      (forall k :: k in s'.tables.generations ==> k.server != server) &&
      (forall e :: e in s'.tables.entries ==> e.gen.server != server) &&
      (forall r :: r in s'.tables.fts ==> s'.tables.fts[r].gen.server != server)
  }

  lemma {:induction false} InsertAllStores(t: Tables, k: GenKey, batch: seq<Entry>)
    ensures Stored(InsertAll(t, k, batch), k, batch)
    ensures forall e :: e in t.entries ==> e in InsertAll(t, k, batch).entries
  {
    if batch != [] {
      var front := batch[..|batch| - 1];
      InsertAllStores(t, k, front);
      assert forall i :: 0 <= i < |front| ==> front[i] == batch[i];
    }
  }

  lemma RowsAchieved(s: Sys, step: Step, s': Sys)
    requires Inv(s) && Next(s, step, s')
    requires step.Start? || step.RecordFailure? || step.Progress? || step.FailOwn? || step.DiscardOwn?
    ensures Achieves(s, step, s')
  {
    if step.RecordFailure? {
      var k := NextKey(s.tables, step.server);
      assert k !in s.tables.generations && InState(s'.tables, k, Failed);
    } else if !step.Start? {
      assert InState(s.tables, GenKey(step.server, s.own[step.server]), Staging);
    }
  }

  lemma CleanupAchieved(s: Sys, step: Step, s': Sys)
    requires Inv(s) && Next(s, step, s') && step.DeleteScanned?
    ensures Achieves(s, step, s')
  {
    forall n | n in s.scan.value.gens
      ensures GenKey(s.scan.value.server, n) !in s'.tables.generations
    {
      var k := GenKey(s.scan.value.server, n);
      assert Obsolete(s.tables, k) && !HasEntries(s.tables.entries, k);
    }
  }

  lemma RecoveryAchieved(s: Sys, step: Step, s': Sys)
    requires Next(s, step, s') && (step.Mark? || step.Demote?)
    ensures Achieves(s, step, s')
  {
    if step.Mark? {
      MarkMeaning(s.tables, step.server);
    } else {
      DemoteMeaning(s.tables, step.server);
    }
  }

  /** No step is idle: each leaves the rows it is for. */
  lemma StepAchieves(s: Sys, step: Step, s': Sys)
    requires Inv(s) && Next(s, step, s')
    ensures Achieves(s, step, s')
  {
    match step
    case Start(_, _, _) => RowsAchieved(s, step, s');
    case RecordFailure(_, _) => RowsAchieved(s, step, s');
    case Progress(_, _, _) => RowsAchieved(s, step, s');
    case FailOwn(_, _) => RowsAchieved(s, step, s');
    case DiscardOwn(_) => RowsAchieved(s, step, s');
    case InsertBatch(server, batch) => InsertAllStores(s.tables, OwnKey(s, server), batch);
    case PromoteOwn(server, at, count, profile, warning) =>
      PromoteKeeps(s.tables, OwnKey(s, server), at, count, profile, warning);
    case Mark(_) => RecoveryAchieved(s, step, s');
    case Demote(_) => RecoveryAchieved(s, step, s');
    case DeleteScanned(_) => CleanupAchieved(s, step, s');
    case _ =>
  }
}
