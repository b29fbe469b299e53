/**
  The index database as the gateway drives it: an object whose methods are the transactions, and the
  bounded-batch cleanup loop.  Each method is proved against its function in `IndexTables`.
*/
module IndexStore {
  import opened Prelude
  import T = IndexTables

  datatype CleanupStats = CleanupStats(batches: nat, entries: nat, ftsEntries: nat, generations: nat)

  // ---------------------------------------------------------------- one undisturbed batch

  lemma CandidatesDoomed(t: T.Tables, server: string, after: nat, fts: T.FtsCandidates)
    requires T.IsFtsScan(t, server, after, fts)
    ensures forall r :: r in fts <==> T.FtsDoomed(t, server, fts, r)
    ensures fts.Keys <= T.ObsoleteFts(t, server) <= t.fts.Keys
  {
  }

  /** What one scan-then-delete round removes when nothing interleaves. */
  lemma BatchFts(t: T.Tables, server: string, fts: T.FtsCandidates, victims: set<T.EntryKey>, gens: set<nat>)
    requires gens <= T.EmptyObsolete(t, server)
    requires forall r :: r in fts <==> T.FtsDoomed(t, server, fts, r)
    ensures var t' := T.DeleteBatch(t, server, fts, victims, gens);
            t'.fts.Keys == t.fts.Keys - fts.Keys &&
            T.ObsoleteFts(t', server) == T.ObsoleteFts(t, server) - fts.Keys
  {
  }

  lemma BatchEntries(t: T.Tables, server: string, fts: T.FtsCandidates, victims: set<T.EntryKey>, gens: set<nat>)
    requires victims <= T.ObsoleteEntries(t, server) && gens <= T.EmptyObsolete(t, server)
    ensures T.ObsoleteEntries(T.DeleteBatch(t, server, fts, victims, gens), server) ==
            T.ObsoleteEntries(t, server) - victims
  {
  }

  /** A batch that deletes nothing proves there was nothing left, because the scan cursor never skips
      an obsolete full-text row. */
  lemma IdleMeansClean(t: T.Tables, server: string, after: nat, fts: T.FtsCandidates, victims: set<T.EntryKey>,
                       gens: set<nat>)
    requires T.IsFtsScan(t, server, after, fts) && T.LegalVictims(t, server, victims) && T.IsGenScan(t, server, gens)
    requires fts.Keys == {} && victims == {} && gens == {}
    requires forall r :: r in T.ObsoleteFts(t, server) ==> after < r
    ensures T.ObsoleteFts(t, server) == {} && T.ObsoleteEntries(t, server) == {} &&
            T.ObsoleteGenerations(t, server) == {}
  {
    var matching := set r | r in T.ObsoleteFts(t, server) && r > after;
    assert matching == {} && matching == T.ObsoleteFts(t, server);
    assert T.ObsoleteEntries(t, server) == {};
    forall k | k in T.ObsoleteGenerations(t, server)
      ensures k.number in T.EmptyObsolete(t, server)
    {
      EmptiedIsCandidate(t, server, k);
    }
    assert T.EmptyObsolete(t, server) == {};
  }

  lemma EmptiedIsCandidate(t: T.Tables, server: string, k: T.GenKey)
    requires T.ObsoleteFts(t, server) == {} && T.ObsoleteEntries(t, server) == {}
    requires k in T.ObsoleteGenerations(t, server)
    ensures k.number in T.EmptyObsolete(t, server)
  {
    assert forall e :: e in t.entries && e.gen == k ==> e in T.ObsoleteEntries(t, server);
    assert forall r :: r in t.fts && t.fts[r].gen == k ==> r in T.ObsoleteFts(t, server);
  }

  ghost predicate CursorSkipsNothing(t: T.Tables, server: string, cursor: nat) {
    forall r :: r in T.ObsoleteFts(t, server) ==> cursor < r
  }

  /** No obsolete generation, entry or full-text row of the server is left. */
  ghost predicate Clean(t: T.Tables, server: string) {
    T.ObsoleteFts(t, server) == {} && T.ObsoleteEntries(t, server) == {} && T.ObsoleteGenerations(t, server) == {}
  }

  /** No superseded generation of the server is left, and no failed one if it has an active one. */
  ghost predicate NoneLeft(t: T.Tables, server: string) {
    forall k :: k in t.generations && k.server == server ==>
      t.generations[k].state != T.Superseded &&
      (t.generations[k].state == T.Failed ==> forall a :: T.InState(t, a, T.Active) ==> a.server != server)
  }

  lemma CleanMeansNone(t: T.Tables, server: string)
    requires Clean(t, server)
    ensures NoneLeft(t, server)
  {
    forall k | k in t.generations && k.server == server ensures !T.Obsolete(t, k) {
      assert k !in T.ObsoleteGenerations(t, server);
    }
    forall k | k in t.generations && k.server == server
      ensures t.generations[k].state != T.Superseded
      ensures t.generations[k].state == T.Failed ==> forall a :: T.InState(t, a, T.Active) ==> a.server != server
    {
      T.ObsoleteMeaning(t, k);
    }
  }

  ghost predicate SparedKey(t: T.Tables, t': T.Tables, k: T.GenKey) {
    k in t'.generations && k in t.generations && t'.generations[k] == t.generations[k] &&
    T.Content(t', k) == T.Content(t, k) && (T.Obsolete(t', k) <==> T.Obsolete(t, k))
  }

  /** Other servers and every active, staging or still-searchable failed generation are untouched. */
  ghost predicate Spared(t: T.Tables, t': T.Tables, server: string) {
    forall k :: k in t.generations && (k.server != server || !T.Obsolete(t, k)) ==> SparedKey(t, t', k)
  }

  lemma SparesAll(t: T.Tables, server: string, fts: T.FtsCandidates, victims: set<T.EntryKey>, gens: set<nat>)
    requires victims <= T.ObsoleteEntries(t, server)
    ensures Spared(t, T.DeleteBatch(t, server, fts, victims, gens), server)
  {
    forall k | k in t.generations && (k.server != server || !T.Obsolete(t, k))
      ensures SparedKey(t, T.DeleteBatch(t, server, fts, victims, gens), k)
    {
      T.CleanupSpares(t, server, fts, victims, gens, k);
    }
  }

  lemma SparedChains(a: T.Tables, b: T.Tables, c: T.Tables, server: string)
    requires Spared(a, b, server) && Spared(b, c, server)
    ensures Spared(a, c, server)
  {
  }

  lemma NoGenerationsMeansClean(t: T.Tables, server: string)
    requires T.ObsoleteGenerations(t, server) == {}
    ensures Clean(t, server)
  {
    assert forall k :: k in t.generations && k.server == server && T.Obsolete(t, k) ==>
      k in T.ObsoleteGenerations(t, server);
  }

  function KeysOf(server: string, gens: set<nat>): set<T.GenKey> {
    set n | n in gens :: T.GenKey(server, n)
  }

  lemma DeletedGenerations(t: T.Tables, server: string, fts: T.FtsCandidates, victims: set<T.EntryKey>, gens: set<nat>)
    requires gens <= T.EmptyObsolete(t, server)
    ensures var t' := T.DeleteBatch(t, server, fts, victims, gens);
            t.generations.Keys - t'.generations.Keys == KeysOf(server, gens) <= T.ObsoleteGenerations(t, server) &&
            T.ObsoleteGenerations(t', server) == T.ObsoleteGenerations(t, server) - KeysOf(server, gens)
  {
  }

  lemma DeletedFts(t: T.Tables, server: string, cursor: nat, fts: T.FtsCandidates, victims: set<T.EntryKey>,
                   gens: set<nat>)
    requires T.IsFtsScan(t, server, cursor, fts) && gens <= T.EmptyObsolete(t, server)
    ensures var t' := T.DeleteBatch(t, server, fts, victims, gens);
            t.fts.Keys - t'.fts.Keys == fts.Keys <= T.ObsoleteFts(t, server) &&
            T.ObsoleteFts(t', server) == T.ObsoleteFts(t, server) - fts.Keys
  {
    CandidatesDoomed(t, server, cursor, fts);
    BatchFts(t, server, fts, victims, gens);
  }

  lemma Removed<X>(all: set<X>, part: set<X>)
    requires part <= all
    ensures |all - part| == |all| - |part|
  {
  }

  /** The counts a batch reports are exactly what the server's obsolete rows shrink by, and a batch
      that reports nothing leaves nothing. */
  lemma BatchAccounts(t: T.Tables, server: string, cursor: nat, fts: T.FtsCandidates,
                      victims: set<T.EntryKey>, gens: set<nat>)
    requires CursorSkipsNothing(t, server, cursor) && T.IsFtsScan(t, server, cursor, fts)
    requires T.LegalVictims(t, server, victims)
    requires if fts == map[] then T.IsGenScan(t, server, gens) else gens == {}
    ensures var t' := T.DeleteBatch(t, server, fts, victims, gens);
            var f := |t.fts.Keys - t'.fts.Keys|;
            var g := |t.generations.Keys - t'.generations.Keys|;
            |T.ObsoleteEntries(t', server)| == |T.ObsoleteEntries(t, server)| - |victims| &&
            |T.ObsoleteFts(t', server)| == |T.ObsoleteFts(t, server)| - f &&
            |T.ObsoleteGenerations(t', server)| == |T.ObsoleteGenerations(t, server)| - g &&
            (|victims| == 0 && f == 0 && g == 0 ==> Clean(t', server)) &&
            CursorSkipsNothing(t', server, if fts == map[] then cursor else MaxOf(fts.Keys))
  {
    DeletedFts(t, server, cursor, fts, victims, gens);
    BatchEntries(t, server, fts, victims, gens);
    DeletedGenerations(t, server, fts, victims, gens);
    Removed(T.ObsoleteEntries(t, server), victims);
    Removed(T.ObsoleteFts(t, server), fts.Keys);
    Removed(T.ObsoleteGenerations(t, server), KeysOf(server, gens));
    NextCursor(t, server, cursor, fts);
    if |victims| == 0 && |fts.Keys| == 0 && |KeysOf(server, gens)| == 0 {
      assert forall n :: n in gens ==> T.GenKey(server, n) in KeysOf(server, gens);
      IdleMeansClean(t, server, cursor, fts, victims, gens);
    }
  }

  lemma NextCursor(t: T.Tables, server: string, cursor: nat, fts: T.FtsCandidates)
    requires CursorSkipsNothing(t, server, cursor) && T.IsFtsScan(t, server, cursor, fts)
    ensures forall r :: r in T.ObsoleteFts(t, server) - fts.Keys ==>
              (if fts == map[] then cursor else MaxOf(fts.Keys)) < r
  {
  }

  // ---------------------------------------------------------------- the database object

  method MaxKey(keys: set<nat>) returns (m: nat)
    ensures m == MaxOf(keys)
  {
    m := 0;
    var rest := keys;
    while rest != {}
      invariant rest <= keys
      invariant forall x :: x in keys && x !in rest ==> x <= m
      invariant m == 0 || m in keys
      decreases rest
    {
      var x :| x in rest;
      rest := rest - {x};
      if x > m {
        m := x;
      }
    }
  }

  /** Some subset of the given size, as a LIMIT without ORDER BY picks one. */
  method Limited<X>(rows: set<X>, limit: nat) returns (picked: set<X>)
    ensures picked <= rows && |picked| == Min(limit, |rows|)
  {
    picked := {};
    while |picked| < limit && picked != rows
      invariant picked <= rows && |picked| <= Min(limit, |rows|)
      decreases |rows| - |picked|
    {
      SubsetCardinality(picked, rows);
      var x :| x in rows && x !in picked;
      picked := picked + {x};
      SubsetCardinality(picked, rows);
    }
  }

  /** The first `limit` rowids in ascending order. */
  method Lowest(rows: set<nat>, limit: nat) returns (picked: set<nat>)
    ensures picked <= rows && |picked| == Min(limit, |rows|)
    ensures forall c, r :: c in picked && r in rows && r !in picked ==> c < r
  {
    picked := {};
    while |picked| < limit && picked != rows
      invariant picked <= rows && |picked| <= Min(limit, |rows|)
      invariant forall c, r :: c in picked && r in rows && r !in picked ==> c < r
      decreases |rows| - |picked|
    {
      SubsetCardinality(picked, rows);
      var least := Least(rows - picked);
      assert forall r :: r in rows && r !in picked ==> r in rows - picked;
      picked := picked + {least};
      SubsetCardinality(picked, rows);
    }
  }

  method Least(rows: set<nat>) returns (m: nat)
    requires rows != {}
    ensures m in rows && forall r :: r in rows ==> m <= r
  {
    m :| m in rows;
    var rest := rows - {m};
    while rest != {}
      invariant rest <= rows && m in rows
      invariant forall r :: r in rows && r !in rest ==> m <= r
      decreases rest
    {
      var x :| x in rest;
      rest := rest - {x};
      if x < m {
        m := x;
      }
    }
  }

  lemma ClearedContent(t: T.Tables, server: string)
    ensures forall k: T.GenKey :: T.Content(T.ClearServer(t, server), k) ==
              if k.server == server then T.Rows(map[], map[]) else T.Content(t, k)
  {
    forall k: T.GenKey
      ensures T.Content(T.ClearServer(t, server), k) ==
              if k.server == server then T.Rows(map[], map[]) else T.Content(t, k)
    {
      var rows := T.Content(T.ClearServer(t, server), k);
      var expected := if k.server == server then T.Rows(map[], map[]) else T.Content(t, k);
      assert rows.entries == expected.entries;
      assert rows.fts == expected.fts;
    }
  }

  lemma InsertedNext(t: T.Tables, k: T.GenKey, batch: seq<T.Entry>, i: nat)
    requires i < |batch|
    ensures T.InsertAll(t, k, batch[..i + 1]) == T.InsertEntry(T.InsertAll(t, k, batch[..i]), k, batch[i])
  {
    assert batch[..i + 1][..i] == batch[..i];
  }

  class IndexDb {
    var generations: map<T.GenKey, T.GenRow>
    var entries: map<T.EntryKey, T.Entry>
    var fts: map<nat, T.FtsRow>

    function Tables(): T.Tables
      reads this
    {
      T.Tables(generations, entries, fts)
    }

    constructor ()
      ensures Tables() == T.EMPTY_TABLES
    {
      generations, entries, fts := map[], map[], map[];
    }

    method NextNumber(server: string) returns (number: nat)
      ensures T.GenKey(server, number) == T.NextKey(Tables(), server)
    {
      var last := MaxKey(T.NumbersOf(Tables(), server));
      number := last + 1;
    }

    method StartGeneration(server: string, org: T.Organization, source: T.Source) returns (number: nat)
      modifies this
      ensures T.GenKey(server, number) == T.NextKey(old(Tables()), server)
      ensures Tables() == T.StartGeneration(old(Tables()), server, org, source)
      ensures T.SameRows(old(Tables()), Tables()) && T.OthersKept(old(Tables()), Tables(), T.GenKey(server, number))
      ensures T.InState(Tables(), T.GenKey(server, number), T.Staging) &&
              (var row := generations[T.GenKey(server, number)];
               row.organization == org && row.source == source && row.entryCount == 0 && row.uniqueItemCount == 0 &&
               row.completedAt.None? && row.lastError.None?)
    {
      number := NextNumber(server);
      generations := generations[T.GenKey(server, number) :=
        T.GenRow(T.Staging, org, source, None, 0, 0, None, false)];
    }

    method RecordFailedAttempt(server: string, error: string)
      modifies this
      ensures Tables() == T.RecordFailedAttempt(old(Tables()), server, error)
      ensures var k := T.NextKey(old(Tables()), server);
              T.SameRows(old(Tables()), Tables()) && T.OthersKept(old(Tables()), Tables(), k) &&
              T.InState(Tables(), k, T.Failed) && generations[k].lastError == Some(error)
    {
      var number := NextNumber(server);
      generations := generations[T.GenKey(server, number) :=
        T.GenRow(T.Failed, T.AnyOrganization, T.AnySource, None, 0, 0, Some(error), false)];
    }

    /** All or nothing; the count is the number of rows the relational table gained. */
    method InsertEntries(k: T.GenKey, batch: seq<T.Entry>) returns (inserted: Option<nat>)
      modifies this
      ensures inserted.Some? <==> T.Insertable(old(Tables()), k, batch)
      ensures inserted.Some? ==> Tables() == T.InsertAll(old(Tables()), k, batch)
      ensures inserted.Some? ==> inserted.value == |entries| - |old(entries)|
      ensures inserted.None? ==> Tables() == old(Tables())
    {
      var newEntries, newFts, count := entries, fts, 0;
      for i := 0 to |batch|
        invariant Tables() == old(Tables())
        invariant T.Tables(generations, newEntries, newFts) == T.InsertAll(old(Tables()), k, batch[..i])
        invariant count == |newEntries| - |entries|
        invariant forall j :: 0 <= j < i ==> batch[j].itemId != ""
        invariant i == 0 || k in generations
      {
        var e := batch[i];
        if e.itemId == "" || k !in generations {
          return None;
        }
        InsertedNext(old(Tables()), k, batch, i);
        var key := T.EntryKey(k, e.itemId);
        if key !in newEntries {
          var last := MaxKey(newFts.Keys);
          newEntries := newEntries[key := e];
          newFts := newFts[last + 1 := T.FtsOf(k, e)];
          count := count + 1;
        }
      }
      assert batch[..|batch|] == batch;
      entries, fts := newEntries, newFts;
      inserted := Some(count);
    }

    method UpdateProgress(k: T.GenKey, seen: nat, unique: nat)
      modifies this
      ensures Tables() == T.UpdateProgress(old(Tables()), k, seen, unique)
      ensures T.SameRows(old(Tables()), Tables()) && T.OthersKept(old(Tables()), Tables(), k)
      ensures T.InState(old(Tables()), k, T.Staging) ==>
                T.InState(Tables(), k, T.Staging) &&
                generations[k].entryCount == seen && generations[k].uniqueItemCount == unique
      ensures !T.InState(old(Tables()), k, T.Staging) ==> Tables() == old(Tables())
    {
      if k in generations && generations[k].state == T.Staging {
        generations := generations[k := generations[k].(entryCount := seen, uniqueItemCount := unique)];
      }
    }

    method Promote(k: T.GenKey, at: string, count: nat, profile: Option<(T.Organization, T.Source)>,
                   warning: Option<string>) returns (promoted: bool)
      modifies this
      ensures var result := T.Promote(old(Tables()), k, at, count, profile, warning);
              promoted == result.Some? && Tables() == if promoted then result.value else old(Tables())
      ensures promoted == T.InState(old(Tables()), k, T.Staging)
      ensures promoted ==> T.Succeeded(old(Tables()), Tables(), k) &&
                           generations[k].entryCount == count && generations[k].uniqueItemCount == count
    {
      var demoted := T.Demoted(Tables(), k.server);
      if k in demoted && demoted[k].state == T.Staging {
        generations := demoted[k := T.PromotedRow(demoted[k], at, count, profile, warning)];
        promoted := true;
      } else {
        promoted := false;
      }
    }

    method FailGeneration(k: T.GenKey, error: string)
      modifies this
      ensures Tables() == T.FailGeneration(old(Tables()), k, error)
      ensures T.SameRows(old(Tables()), Tables()) && T.OthersKept(old(Tables()), Tables(), k)
      ensures T.InState(old(Tables()), k, T.Staging) ==>
                T.InState(Tables(), k, T.Failed) && generations[k].lastError == Some(error)
      ensures !T.InState(old(Tables()), k, T.Staging) ==> Tables() == old(Tables())
    {
      if k in generations && generations[k].state == T.Staging {
        generations := generations[k := generations[k].(state := T.Failed, lastError := Some(error))];
      }
    }

    method DiscardEmptyGeneration(k: T.GenKey) returns (discarded: bool)
      modifies this
      ensures discarded == T.Discardable(old(Tables()), k)
      ensures Tables() == T.DiscardEmpty(old(Tables()), k)
      ensures T.SameRows(old(Tables()), Tables()) && T.OthersKept(old(Tables()), Tables(), k)
      ensures discarded ==> k !in generations
    {
      discarded := T.Discardable(Tables(), k);
      if discarded {
        generations := generations - {k};
      }
    }

    /** Restart recovery of one server whose build lock nobody holds: the two UPDATE statements. */
    method Recover(server: string)
      modifies this
      ensures T.Recovered(old(Tables()), Tables(), server)
      ensures Tables() == T.RecoverDemote(T.RecoverMark(old(Tables()), server), server)
    {
      T.RecoverMeaning(Tables(), server);
      NoteInterruption(server);
      RetireStaging(server);
    }

    method NoteInterruption(server: string)
      modifies this
      ensures Tables() == T.RecoverMark(old(Tables()), server)
    {
      if T.HasStaging(Tables(), server) {
        generations := map k | k in generations ::
          if k.server == server && generations[k].state == T.Active
          then generations[k].(lastError := Some(T.INTERRUPTED)) else generations[k];
      }
    }

    method RetireStaging(server: string)
      modifies this
      ensures Tables() == T.RecoverDemote(old(Tables()), server)
    {
      var retired := if T.HasActive(generations, server) then T.Superseded else T.Failed;
      generations := map k | k in generations ::
        if k.server == server && generations[k].state == T.Staging
        then generations[k].(state := retired,
                             lastError := if generations[k].lastError.Some? then generations[k].lastError
                                          else Some(T.INTERRUPTED))
        else generations[k];
    }

    method ClearServer(server: string)
      modifies this
      ensures Tables() == T.ClearServer(old(Tables()), server)
      ensures forall k: T.GenKey :: T.Content(Tables(), k) ==
                if k.server == server then T.Rows(map[], map[]) else T.Content(old(Tables()), k)
      ensures forall k: T.GenKey :: k in generations <==> k in old(generations) && k.server != server
    {
      fts := map r | r in fts && fts[r].gen.server != server :: fts[r];
      generations := map k | k in generations && k.server != server :: generations[k];
      entries := map e | e in entries && e.gen.server != server :: entries[e];
      ClearedContent(old(Tables()), server);
    }

    method ScanFts(server: string, after: nat) returns (candidates: T.FtsCandidates)
      ensures T.IsFtsScan(Tables(), server, after, candidates)
    {
      var matching := set r | r in T.ObsoleteFts(Tables(), server) && r > after;
      var picked := Lowest(matching, T.CLEANUP_BATCH_SIZE);
      candidates := map r | r in picked :: fts[r].gen.number;
      assert candidates.Keys == picked;
    }

    method DeleteCleanupBatch(server: string, ftsCandidates: T.FtsCandidates, genCandidates: set<nat>)
      returns (ghost victims: set<T.EntryKey>, deletedEntries: nat, deletedFts: nat, deletedGenerations: nat)
      modifies this
      ensures T.LegalVictims(old(Tables()), server, victims)
      ensures Tables() == T.DeleteBatch(old(Tables()), server, ftsCandidates, victims, genCandidates)
      ensures deletedEntries == |victims|
      ensures deletedFts == |old(fts).Keys - fts.Keys|
      ensures deletedGenerations == |old(generations).Keys - generations.Keys|
    {
      var before := Tables();
      fts := map r | r in fts && !T.FtsDoomed(before, server, ftsCandidates, r) :: fts[r];
      var picked := Limited(T.ObsoleteEntries(before, server), T.CLEANUP_BATCH_SIZE);
      victims := picked;
      entries := entries - picked;
      generations := map k | k in generations && !T.GenDoomed(before, server, picked, genCandidates, k) ::
        generations[k];
      deletedEntries := |picked|;
      deletedFts := |before.fts.Keys - fts.Keys|;
      deletedGenerations := |before.generations.Keys - generations.Keys|;
    }

    /** cleanup_one_batch with nothing in between: scan, delete, advance the cursor. */
    method CleanupOneBatch(server: string, cursor: nat)
      returns (next: nat, deletedEntries: nat, deletedFts: nat, deletedGenerations: nat)
      requires CursorSkipsNothing(Tables(), server, cursor)
      modifies this
      ensures CursorSkipsNothing(Tables(), server, next)
      ensures |T.ObsoleteEntries(Tables(), server)| == |T.ObsoleteEntries(old(Tables()), server)| - deletedEntries
      ensures |T.ObsoleteFts(Tables(), server)| == |T.ObsoleteFts(old(Tables()), server)| - deletedFts
      ensures |T.ObsoleteGenerations(Tables(), server)| ==
              |T.ObsoleteGenerations(old(Tables()), server)| - deletedGenerations
      ensures deletedEntries == 0 && deletedFts == 0 && deletedGenerations == 0 ==> Clean(Tables(), server)
      ensures Spared(old(Tables()), Tables(), server)
    {
      ghost var t := Tables();
      var candidates := ScanFts(server, cursor);
      var gens: set<nat> := {};
      if candidates == map[] {
        gens := Limited(T.EmptyObsolete(Tables(), server), T.CLEANUP_BATCH_SIZE);
      }
      ghost var victims;
      victims, deletedEntries, deletedFts, deletedGenerations := DeleteCleanupBatch(server, candidates, gens);
      next := cursor;
      if candidates != map[] {
        next := MaxKey(candidates.Keys);
      }
      BatchAccounts(t, server, cursor, candidates, victims, gens);
      SparesAll(t, server, candidates, victims, gens);
    }

    /** cleanup_obsolete_generations_coordinated with no build, shutdown or error in between: it ends,
        nothing obsolete of the server is left, nothing else is touched, and the statistics are the
        exact totals. */
    method CleanupObsoleteGenerations(server: string) returns (stats: CleanupStats)
      requires forall r :: r in fts ==> 1 <= r
      modifies this
      ensures Clean(Tables(), server) && NoneLeft(Tables(), server)
      ensures Spared(old(Tables()), Tables(), server)
      ensures stats.entries == |T.ObsoleteEntries(old(Tables()), server)|
      ensures stats.ftsEntries == |T.ObsoleteFts(old(Tables()), server)|
      ensures stats.generations == |T.ObsoleteGenerations(old(Tables()), server)|
    {
      stats := CleanupStats(0, 0, 0, 0);
      var cursor := 0;
      var done := false;
      while !done
        invariant CursorSkipsNothing(Tables(), server, cursor)
        invariant Spared(old(Tables()), Tables(), server)
        invariant done ==> Clean(Tables(), server)
        invariant stats.entries + |T.ObsoleteEntries(Tables(), server)| == |T.ObsoleteEntries(old(Tables()), server)|
        invariant stats.ftsEntries + |T.ObsoleteFts(Tables(), server)| == |T.ObsoleteFts(old(Tables()), server)|
        invariant stats.generations + |T.ObsoleteGenerations(Tables(), server)| ==
                  |T.ObsoleteGenerations(old(Tables()), server)|
        decreases !done,
          |T.ObsoleteEntries(Tables(), server)| + |T.ObsoleteFts(Tables(), server)| +
          |T.ObsoleteGenerations(Tables(), server)|
      {
        if T.ObsoleteGenerations(Tables(), server) == {} {
          NoGenerationsMeansClean(Tables(), server);
          done := true;
        } else {
          ghost var before := Tables();
          var next, e, f, g := CleanupOneBatch(server, cursor);
          SparedChains(old(Tables()), before, Tables(), server);
          cursor := next;
          stats := CleanupStats(stats.batches + 1, stats.entries + e, stats.ftsEntries + f, stats.generations + g);
          done := e == 0 && f == 0 && g == 0;
        }
      }
      CleanMeansNone(Tables(), server);
    }
  }
}
