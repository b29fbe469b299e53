/**
  The three tables of the persistent namespace index and the SQL transactions over them.

  Every transaction is one function from tables to tables (an `Option` where the statement can fail
  and roll back).  The row a LIMIT without ORDER BY picks is not specified by SQL, so it is a
  parameter constrained by a predicate.
*/
module IndexTables {
  import opened Prelude

  const CLEANUP_BATCH_SIZE: nat := 10_000

  datatype GenKey = GenKey(server: string, number: nat)

  datatype GenState = Staging | Active | Superseded | Failed

  datatype Organization = AnyOrganization | Flat | Hierarchical

  datatype Source = AnySource | Da3 | Da2 | FlatSource | Derived

  datatype GenRow = GenRow(
    state: GenState,
    organization: Organization,
    source: Source,
    completedAt: Option<string>,
    entryCount: nat,
    uniqueItemCount: nat,
    lastError: Option<string>,
    compatibilityFallback: bool)

  datatype NodeKind = Item | BranchAndItem

  datatype Entry = Entry(itemId: string, displayName: string, kind: NodeKind, breadcrumbs: seq<string>)

  datatype EntryKey = EntryKey(gen: GenKey, itemId: string)

  datatype FtsRow = FtsRow(gen: GenKey, itemId: string, displayName: string, breadcrumbs: seq<string>)

  datatype Tables = Tables(
    generations: map<GenKey, GenRow>,
    entries: map<EntryKey, Entry>,
    fts: map<nat, FtsRow>)

  const EMPTY_TABLES := Tables(map[], map[], map[])

  // ---------------------------------------------------------------- queries

  predicate InState(t: Tables, k: GenKey, state: GenState) {
    k in t.generations && t.generations[k].state == state
  }

  predicate HasActive(generations: map<GenKey, GenRow>, server: string) {
    exists k :: k in generations && k.server == server && ActiveIn(generations, k)
  }

  predicate Obsolete(t: Tables, k: GenKey) {
    k in t.generations &&
    (t.generations[k].state == Superseded ||
     (t.generations[k].state == Failed && HasActive(t.generations, k.server)))
  }

  /** What cleanup is about: superseded generations, and failed ones of a server that has an active one. */
  lemma ObsoleteMeaning(t: Tables, k: GenKey)
    ensures Obsolete(t, k) <==>
            InState(t, k, Superseded) ||
            (InState(t, k, Failed) && exists a :: InState(t, a, Active) && a.server == k.server)
  {
    if exists a :: InState(t, a, Active) && a.server == k.server {
      var a :| InState(t, a, Active) && a.server == k.server;
      assert ActiveIn(t.generations, a);
    }
    if HasActive(t.generations, k.server) {
      var a :| a in t.generations && a.server == k.server && ActiveIn(t.generations, a);
      assert InState(t, a, Active);
    }
  }

  predicate HasEntries(entries: map<EntryKey, Entry>, k: GenKey) {
    exists e :: e in entries && e.gen == k
  }

  predicate HasFts(fts: map<nat, FtsRow>, k: GenKey) {
    exists r :: r in fts && fts[r].gen == k
  }

  function ObsoleteGenerations(t: Tables, server: string): set<GenKey> {
    set k | k in t.generations && k.server == server && Obsolete(t, k)
  }

  function ObsoleteEntries(t: Tables, server: string): set<EntryKey> {
    set e | e in t.entries && e.gen.server == server && Obsolete(t, e.gen)
  }

  function ObsoleteFts(t: Tables, server: string): set<nat> {
    set r | r in t.fts && t.fts[r].gen.server == server && Obsolete(t, t.fts[r].gen)
  }

  function FtsKeys(fts: map<nat, FtsRow>): set<EntryKey> {
    set r | r in fts :: EntryKey(fts[r].gen, fts[r].itemId)
  }

  function NumbersOf(t: Tables, server: string): set<nat> {
    set k | k in t.generations && k.server == server :: k.number
  }

  /** SELECT COALESCE(MAX(generation), 0) + 1. */
  ghost function NextKey(t: Tables, server: string): (k: GenKey)
    ensures k !in t.generations && k.server == server && 1 <= k.number
    ensures forall other :: other in t.generations && other.server == server ==> other.number < k.number
    ensures k.number == 1 || GenKey(server, k.number - 1) in t.generations
  {
    assert forall other :: other in t.generations && other.server == server ==>
      other.number in NumbersOf(t, server);
    GenKey(server, MaxOf(NumbersOf(t, server)) + 1)
  }

  // ---------------------------------------------------------------- transactions

  function SetState(row: GenRow, state: GenState, error: Option<string>): GenRow {
    row.(state := state, lastError := error)
  }

  ghost function StartGeneration(t: Tables, server: string, org: Organization, source: Source): Tables {
    t.(generations := t.generations[NextKey(t, server) :=
         GenRow(Staging, org, source, None, 0, 0, None, false)])
  }

  ghost function RecordFailedAttempt(t: Tables, server: string, error: string): Tables {
    t.(generations := t.generations[NextKey(t, server) :=
         GenRow(Failed, AnyOrganization, AnySource, None, 0, 0, Some(error), false)])
  }

  function FtsOf(k: GenKey, e: Entry): FtsRow {
    FtsRow(k, e.itemId, e.displayName, e.breadcrumbs)
  }

  /** INSERT OR IGNORE INTO entries, then the full-text row only when a row was inserted. */
  ghost function InsertEntry(t: Tables, k: GenKey, e: Entry): Tables {
    if EntryKey(k, e.itemId) in t.entries then t
    else t.(entries := t.entries[EntryKey(k, e.itemId) := e],
            fts := t.fts[MaxOf(t.fts.Keys) + 1 := FtsOf(k, e)])
  }

  ghost function InsertAll(t: Tables, k: GenKey, batch: seq<Entry>): Tables {
    if batch == [] then t
    else InsertEntry(InsertAll(t, k, batch[..|batch| - 1]), k, batch[|batch| - 1])
  }

  predicate Insertable(t: Tables, k: GenKey, batch: seq<Entry>) {
    (forall i :: 0 <= i < |batch| ==> batch[i].itemId != "") &&
    (batch == [] || k in t.generations)
  }

  /** One insert_entries transaction: an empty ItemID or a missing generation (the foreign key)
      rolls the whole batch back. */
  ghost function InsertEntries(t: Tables, k: GenKey, batch: seq<Entry>): Option<Tables> {
    if Insertable(t, k, batch) then Some(InsertAll(t, k, batch)) else None
  }

  function UpdateProgress(t: Tables, k: GenKey, seen: nat, unique: nat): Tables {
    if InState(t, k, Staging) then
      t.(generations := t.generations[k :=
           t.generations[k].(entryCount := seen, uniqueItemCount := unique)])
    else t
  }

  function Demoted(t: Tables, server: string): map<GenKey, GenRow> {
    map k | k in t.generations ::
      if k.server == server && t.generations[k].state == Active
      then t.generations[k].(state := Superseded) else t.generations[k]
  }

  function PromotedRow(row: GenRow, at: string, count: nat, profile: Option<(Organization, Source)>,
                       warning: Option<string>): GenRow {
    GenRow(Active,
           if profile.Some? then profile.value.0 else row.organization,
           if profile.Some? then profile.value.1 else row.source,
           Some(at), count, count, warning,
           row.source == Da3 && profile.Some? && profile.value.1 == Da2)
  }

  /** Demote the active generation and activate `k` in one transaction; `None` is the rollback. */
  function Promote(t: Tables, k: GenKey, at: string, count: nat,
                   profile: Option<(Organization, Source)>, warning: Option<string>): Option<Tables> {
    var demoted := Demoted(t, k.server);
    if k in demoted && demoted[k].state == Staging
    then Some(t.(generations := demoted[k := PromotedRow(demoted[k], at, count, profile, warning)]))
    else None
  }

  function FailGeneration(t: Tables, k: GenKey, error: string): Tables {
    if InState(t, k, Staging)
    then t.(generations := t.generations[k := SetState(t.generations[k], Failed, Some(error))])
    else t
  }

  predicate Discardable(t: Tables, k: GenKey) {
    InState(t, k, Staging) && !HasEntries(t.entries, k) && !HasFts(t.fts, k)
  }

  function DiscardEmpty(t: Tables, k: GenKey): Tables {
    if Discardable(t, k) then t.(generations := t.generations - {k}) else t
  }

  predicate HasStaging(t: Tables, server: string) {
    exists k :: k in t.generations && k.server == server && t.generations[k].state == Staging
  }

  const INTERRUPTED := "namespace index build interrupted by gateway restart"

  /** First recovery statement: note the interruption on the active row. */
  function RecoverMark(t: Tables, server: string): Tables {
    if HasStaging(t, server) then
      t.(generations := map k | k in t.generations ::
           if k.server == server && t.generations[k].state == Active
           then t.generations[k].(lastError := Some(INTERRUPTED)) else t.generations[k])
    else t
  }

  /** Second recovery statement: retire every staging row of the server. */
  function RecoverDemote(t: Tables, server: string): Tables {
    t.(generations := map k | k in t.generations ::
         if k.server == server && t.generations[k].state == Staging then
           SetState(t.generations[k], if HasActive(t.generations, server) then Superseded else Failed,
                    if t.generations[k].lastError.Some? then t.generations[k].lastError
                    else Some(INTERRUPTED))
         else t.generations[k])
  }

  /** clear_server, and the table part of delete_index (entries go by cascade). */
  function ClearServer(t: Tables, server: string): Tables {
    Tables(map k | k in t.generations && k.server != server :: t.generations[k],
           map e | e in t.entries && e.gen.server != server :: t.entries[e],
           map r | r in t.fts && t.fts[r].gen.server != server :: t.fts[r])
  }

  // ---------------------------------------------------------------- what a transaction leaves alone

  ghost predicate SameRows(t: Tables, t': Tables) {
    t'.entries == t.entries && t'.fts == t.fts
  }

  /** Every generation row but k's is as it was. */
  ghost predicate OthersKept(t: Tables, t': Tables, k: GenKey) {
    forall g :: g != k ==> (g in t'.generations <==> g in t.generations) &&
                           (g in t.generations ==> t'.generations[g] == t.generations[g])
  }

  /** k is the server's one active generation; what was active is superseded and otherwise unchanged. */
  ghost predicate Succeeded(t: Tables, t': Tables, k: GenKey) {
    SameRows(t, t') && InState(t', k, Active) && t'.generations.Keys == t.generations.Keys &&
    (forall g :: InState(t', g, Active) && g.server == k.server ==> g == k) &&
    (forall g :: g in t.generations && g != k ==>
       t'.generations[g] == if g.server == k.server && t.generations[g].state == Active
                            then t.generations[g].(state := Superseded) else t.generations[g])
  }

  /** No staging generation of the server is left, its active row differs in the error note alone and only
      if a build was interrupted, and nothing else changes. */
  ghost predicate Recovered(t: Tables, t': Tables, server: string) {
    SameRows(t, t') && t'.generations.Keys == t.generations.Keys && !HasStaging(t', server) &&
    (forall g :: g in t.generations && (g.server != server || t.generations[g].state in {Superseded, Failed}) ==>
       t'.generations[g] == t.generations[g]) &&
    (forall g :: InState(t, g, Active) && g.server == server ==>
       t'.generations[g] == if HasStaging(t, server) then t.generations[g].(lastError := Some(INTERRUPTED))
                            else t.generations[g]) &&
    (forall g :: InState(t, g, Staging) && g.server == server ==>
       InState(t', g, if HasActive(t.generations, server) then Superseded else Failed) &&
       t'.generations[g].lastError.Some?)
  }

  lemma MarkMeaning(t: Tables, server: string)
    ensures var marked := RecoverMark(t, server);
            SameRows(t, marked) && marked.generations.Keys == t.generations.Keys &&
            (HasActive(marked.generations, server) <==> HasActive(t.generations, server))
    ensures forall g :: g in t.generations ==>
              RecoverMark(t, server).generations[g] ==
              if HasStaging(t, server) && g.server == server && t.generations[g].state == Active
              then t.generations[g].(lastError := Some(INTERRUPTED)) else t.generations[g]
  {
    var marked := RecoverMark(t, server);
    assert forall k :: ActiveIn(t.generations, k) <==> ActiveIn(marked.generations, k);
    SameActive(t.generations, marked.generations, server);
  }

  lemma DemoteMeaning(t: Tables, server: string)
    ensures var t' := RecoverDemote(t, server);
            SameRows(t, t') && t'.generations.Keys == t.generations.Keys && !HasStaging(t', server)
    ensures forall g :: g in t.generations && !(g.server == server && t.generations[g].state == Staging) ==>
              RecoverDemote(t, server).generations[g] == t.generations[g]
    ensures forall g :: g in t.generations && g.server == server && t.generations[g].state == Staging ==>
              RecoverDemote(t, server).generations[g].lastError.Some? &&
              RecoverDemote(t, server).generations[g].state ==
              if HasActive(t.generations, server) then Superseded else Failed
  {
  }

  lemma RecoverMeaning(t: Tables, server: string)
    ensures Recovered(t, RecoverDemote(RecoverMark(t, server), server), server)
  {
    MarkMeaning(t, server);
    DemoteMeaning(RecoverMark(t, server), server);
  }

  lemma NothingToRecover(t: Tables, server: string)
    requires !HasStaging(t, server)
    ensures RecoverDemote(RecoverMark(t, server), server) == t
  {
    assert RecoverDemote(t, server).generations == t.generations;
  }

  /** Recovering twice is recovering once. */
  lemma RecoverOnce(t: Tables, server: string)
    ensures var t' := RecoverDemote(RecoverMark(t, server), server);
            RecoverDemote(RecoverMark(t', server), server) == t'
  {
    RecoverMeaning(t, server);
    NothingToRecover(RecoverDemote(RecoverMark(t, server), server), server);
  }

  lemma SameActive(a: map<GenKey, GenRow>, b: map<GenKey, GenRow>, server: string)
    requires forall k :: ActiveIn(a, k) <==> ActiveIn(b, k)
    ensures HasActive(a, server) <==> HasActive(b, server)
  {
    if HasActive(a, server) {
      var k :| k in a && k.server == server && ActiveIn(a, k);
      assert ActiveIn(b, k);
    }
    if HasActive(b, server) {
      var k :| k in b && k.server == server && ActiveIn(b, k);
      assert ActiveIn(a, k);
    }
  }

  /** Full-text candidates of a scan: rowid to generation number. */
  type FtsCandidates = map<nat, nat>

  predicate FtsDoomed(t: Tables, server: string, candidates: FtsCandidates, r: nat) {
    r in t.fts && t.fts[r].gen.server == server &&
    r in candidates && candidates[r] == t.fts[r].gen.number && Obsolete(t, t.fts[r].gen)
  }

  predicate GenDoomed(t: Tables, server: string, victims: set<EntryKey>, candidates: set<nat>, k: GenKey) {
    k.server == server && k.number in candidates && Obsolete(t, k) &&
    (forall e :: e in t.entries && e.gen == k ==> e in victims)
  }

  /** `victims` is a legal choice for DELETE ... WHERE rowid IN (SELECT ... LIMIT 10000). */
  predicate LegalVictims(t: Tables, server: string, victims: set<EntryKey>) {
    victims <= ObsoleteEntries(t, server) &&
    |victims| == Min(CLEANUP_BATCH_SIZE, |ObsoleteEntries(t, server)|)
  }

  /** delete_cleanup_batch: full-text candidates, then up to 10,000 obsolete entries, then candidate
      generations that have no entries left.  Full-text emptiness is not looked at again. */
  function DeleteBatch(t: Tables, server: string, ftsCandidates: FtsCandidates,
                       victims: set<EntryKey>, genCandidates: set<nat>): Tables {
    Tables(map k | k in t.generations && !GenDoomed(t, server, victims, genCandidates, k) :: t.generations[k],
           t.entries - victims,
           map r | r in t.fts && !FtsDoomed(t, server, ftsCandidates, r) :: t.fts[r])
  }

  // ---------------------------------------------------------------- scans

  /** ORDER BY rowid LIMIT 10000 over the obsolete full-text rows above the cursor. */
  predicate IsFtsScan(t: Tables, server: string, after: nat, candidates: FtsCandidates) {
    var matching := set r | r in ObsoleteFts(t, server) && r > after;
    candidates.Keys <= matching &&
    (forall r :: r in candidates ==> candidates[r] == t.fts[r].gen.number) &&
    |candidates.Keys| == Min(CLEANUP_BATCH_SIZE, |matching|) &&
    (forall c, r :: c in candidates && r in matching && r !in candidates ==> c < r)
  }

  function EmptyObsolete(t: Tables, server: string): set<nat> {
    set k | k in ObsoleteGenerations(t, server) && !HasEntries(t.entries, k) && !HasFts(t.fts, k) :: k.number
  }

  predicate IsGenScan(t: Tables, server: string, candidates: set<nat>) {
    candidates <= EmptyObsolete(t, server) &&
    |candidates| == Min(CLEANUP_BATCH_SIZE, |EmptyObsolete(t, server)|)
  }

  /** Everything the query engine can read of one generation. */
  datatype Rows = Rows(entries: map<EntryKey, Entry>, fts: map<nat, FtsRow>)

  function Content(t: Tables, k: GenKey): Rows {
    Rows(map e | e in t.entries && e.gen == k :: t.entries[e],
         map r | r in t.fts && t.fts[r].gen == k :: t.fts[r])
  }

  // ---------------------------------------------------------------- table invariant

  /** Relational and full-text rows of one generation name the same items, once each. */
  ghost predicate Synced(t: Tables, k: GenKey) {
    (forall e :: e in t.entries && e.gen == k ==> e in FtsKeys(t.fts)) &&
    (forall r :: r in t.fts && t.fts[r].gen == k ==>
       EntryKey(k, t.fts[r].itemId) in t.entries &&
       t.fts[r] == FtsOf(k, t.entries[EntryKey(k, t.fts[r].itemId)]))
  }

  predicate ActiveIn(generations: map<GenKey, GenRow>, k: GenKey) {
    k in generations && generations[k].state == Active
  }

  ghost predicate UniqueActive(generations: map<GenKey, GenRow>) {
    forall k1, k2 :: ActiveIn(generations, k1) && ActiveIn(generations, k2) && k1.server == k2.server ==> k1 == k2
  }

  predicate SameItem(a: FtsRow, b: FtsRow) {
    a.gen == b.gen && a.itemId == b.itemId
  }

  ghost predicate UniqueFts(fts: map<nat, FtsRow>) {
    forall r1, r2 :: r1 in fts && r2 in fts && SameItem(fts[r1], fts[r2]) ==> r1 == r2
  }

  ghost predicate Keyed(t: Tables) {
    (forall e :: e in t.entries ==> e.gen in t.generations && t.entries[e].itemId == e.itemId) &&
    (forall r :: r in t.fts ==> 1 <= r)
  }

  ghost predicate NoOrphans(t: Tables) {
    forall r :: r in t.fts ==> t.fts[r].gen in t.generations
  }

  ghost predicate TablesInv(t: Tables) {
    UniqueActive(t.generations) && UniqueFts(t.fts) && Keyed(t) &&
    (forall k :: k in t.generations && !Obsolete(t, k) ==> Synced(t, k))
  }

  // ---------------------------------------------------------------- what every transaction relies on

  /** Active rows carry over. */
  lemma ActiveCarries(a: map<GenKey, GenRow>, b: map<GenKey, GenRow>)
    requires forall k :: ActiveIn(a, k) ==> ActiveIn(b, k)
    ensures forall server :: HasActive(a, server) ==> HasActive(b, server)
    ensures UniqueActive(b) ==> UniqueActive(a)
  {
  }

  /** Whatever candidates it is given, however stale, a cleanup transaction leaves other servers and
      every generation that is not obsolete exactly as they were. */
  lemma CleanupSpares(t: Tables, server: string, fts: FtsCandidates, victims: set<EntryKey>, gens: set<nat>,
                      k: GenKey)
    requires victims <= ObsoleteEntries(t, server)
    requires k in t.generations && (k.server != server || !Obsolete(t, k))
    ensures var t' := DeleteBatch(t, server, fts, victims, gens);
            k in t'.generations && t'.generations[k] == t.generations[k] &&
            Content(t', k) == Content(t, k) && (Obsolete(t', k) <==> Obsolete(t, k))
  {
    var t' := DeleteBatch(t, server, fts, victims, gens);
    assert Content(t', k).entries == Content(t, k).entries;
    assert Content(t', k).fts == Content(t, k).fts;
    ActiveCarries(t.generations, t'.generations);
    ActiveCarries(t'.generations, t.generations);
  }
}
