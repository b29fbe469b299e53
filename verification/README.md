# OPC DA bridge gateway: verified model of the namespace index and the browse layer

The gateway keeps a persistent index of an OPC DA server's namespace and lets clients browse it page by
page. The index is built in generations (staging, then active, then superseded or failed) while earlier
generations stay searchable, a garbage collector removes obsolete generations in bounded batches, and
several workers, locks and caches are involved. This project models that machinery in Dafny and proves
what it promises.

| module | what it models |
|---|---|
| `IndexTables`, `IndexStore` | the generation, entry and full-text tables; every SQL transaction as one function and as one method of `IndexDb`; the cleanup loop |
| `GenerationRuns` | every interleaving of builds, restart recovery and scan-then-delete cleanup |
| `CleanupWindow`, `RecoveryOverlap` | the same with clears in the gap between scan and delete; with builds starting inside recovery's gap |
| `BuildLoop` | one build: the event loop with size- and time-triggered commits, and promotion |
| `BuildProtocol` | reservation, ownership tokens, finalisation in unlocked steps, deletion |
| `WorkerControls`, `Coordinator` | the multi-worker inventory: cancellation of worker controls, the shared root queue, de-duplication, the terminal event |
| `QueryCache`, `CacheRuns` | the LRU cache of answers, alone and under interleaving |
| `Utf8Prefix`, `Ranking`, `RankedSearch`, `FullText`, `LikeSearch`, `Escaping` | indexed search: prefix ranges over UTF-8, ranked top-k three ways, LIKE and FTS5 text |
| `CachedSearch` | the cache, the four searches and the tables' runs put together |
| `BrowseSession`, `BrowseOverlap`, `BrowseRuns`, `BrowseExactly`, `BrowsePromise` | one browse session's tokens and cached pages; runs without and with overlapping refreshes; what a client can be handed |
| `SessionLifetime` | native browse sessions: open, browse, close, expire |
| `Controller`, `ControllerRuns`, `TokenBucket` | adaptive pacing and the item rate limiter |
| `LiveSearch`, `LivePaths` | the paged breadth-first live search |

`dafny verify dfyconfig.toml` checks everything.

Concurrency is modelled as runs of atomic steps: one step per SQL transaction, per critical section, per
flag or lock operation, whichever is the code's own unit. Objects the code updates in place are classes
whose methods are proved against functions on values, and the run theorems are about those functions.

Four promises turn out to need a condition the code does not establish by itself. They are stated with a
witness and with the exact condition:

* A build's runtime record can be lost. `delete_index` forgets the server's runtime between a
  finalisation's last two steps, a new build is reserved, and the old finalisation then takes the new
  build's record (`BuildProtocol.ForgottenRecord`; exactly when: `BuildProtocol.NestingExactly`).
* Every page handed out, cached or fresh, is to carry a continuation the session accepts. A refresh that
  overlaps another call can put a session's cached continuations out of step with its bindings, and then a
  later call is handed a cached page whose continuation is dead (`BrowseRuns.OverlapWitness`, a run from a new
  session). Over all runs, overlapping or not, `BrowsePromise.PromiseExactly` says exactly when that never
  happens: no delivery gives up the binding of another cached page that can still be asked for. About the
  cache alone, `BrowseExactly.LinkedExactly` says exactly when it stays in step with the bindings and
  `BrowseExactly.LiveExactly` exactly when no cached continuation is lost. All three conditions are ones a
  caller could check before the delivery.
* Clearing a server between a cleanup scan and its delete can leave full-text rows without a generation
  (`CleanupWindow.ClearInWindowOrphans`, a run from empty tables; exactly when, over all runs:
  `CleanupWindow.OrphansExactly`).
* Recovery looks at the build lock once and does not hold it. The repository's documentation gives every
  indexing process a database of its own (docs/indexing-and-search.md:65-66), so `GenerationRuns` starts no
  build in that gap; without that, recovery can retire a generation under a running build, which goes on
  storing rows in it and then cannot promote it (`RecoveryOverlap.OvertakenRun`; exactly when, over all runs:
  `RecoveryOverlap.RecoveryExactly`). The active generation is safe either way
  (`RecoveryOverlap.ActiveThroughFreeRun`).

Also: with the largest possible limit `has_more` is always false (`FullText.Answer`), and restart recovery
does write to the active generation's row, its `last_error` only, as the repository's README says; the
claim that an active generation is frozen leaves that column out.

## Model

| member | source | states |
|---|---|---|
| `IndexStore.IndexDb.StartGeneration` | crates/opcda-bridge-gateway/src/index/store.rs:519-555 | adds one staging row numbered above every other of the server |
| `IndexStore.IndexDb.RecordFailedAttempt` | crates/opcda-bridge-gateway/src/index/store.rs:557-575 | adds one failed row, numbered the same way |
| `IndexStore.IndexDb.InsertEntries` | crates/opcda-bridge-gateway/src/index/store.rs:577-634 | all or nothing: an empty ItemID or a missing generation rolls the batch back; otherwise first occurrences are inserted in both tables and the count is the number of new rows |
| `IndexStore.IndexDb.UpdateProgress` | crates/opcda-bridge-gateway/src/index/store.rs:636-665 | sets the two counters of a staging row, seen and unique, and nothing else |
| `IndexStore.IndexDb.Promote` | crates/opcda-bridge-gateway/src/index/store.rs:684-749 | exactly for a staging row: it becomes the server's one active generation with the given counts, what was active is superseded and otherwise unchanged, and nothing else changes |
| `IndexStore.IndexDb.FailGeneration` | crates/opcda-bridge-gateway/src/index/store.rs:751-773 | fails a staging row and no other |
| `IndexStore.IndexDb.DiscardEmptyGeneration` | crates/opcda-bridge-gateway/src/index/store.rs:775-797 | removes a staging row exactly when it has no entry and no full-text row |
| `IndexStore.IndexDb.Recover` | crates/opcda-bridge-gateway/src/index/store.rs:381-416 | no staging generation of the server is left, each one superseded or failed by whether one is active and with an error note; the active row differs in its note alone, and only if a build was interrupted; other rows, entries and full-text rows are untouched |
| `IndexTables.RecoverOnce` | crates/opcda-bridge-gateway/src/index/store.rs:381-416 | recovering twice is recovering once |
| `IndexTables.ObsoleteMeaning` | crates/opcda-bridge-gateway/src/index/scheduler.rs:1338-1417 | what cleanup is about: superseded generations, and failed ones of a server that has an active one |
| `RecoveryOverlap.ActiveThroughFreeRun` | crates/opcda-bridge-gateway/src/index/store.rs:367-416 | even when builds start between recovery's look at the lock and its updates: one active generation per server throughout, its number never falling, changed by promotions alone, frozen while it stays |
| `RecoveryOverlap.RecoveryExactly` | crates/opcda-bridge-gateway/src/index/store.rs:375-416 | over all those runs a running build's generation is staging throughout exactly when recovery's second update never runs during a build of its server; both tables then stay in step without orphans |
| `RecoveryOverlap.OvertakenRun` | crates/opcda-bridge-gateway/src/index/store.rs:375-416 | a run from empty tables in which it does: the build stores rows in an obsolete generation and its promotion rolls back |
| `IndexStore.IndexDb.ClearServer` | crates/opcda-bridge-gateway/src/index/store.rs:832-838 | removes every row of the server from all three tables |
| `GenerationRuns.StepInv` | crates/opcda-bridge-gateway/src/index/store.rs:519-797 | every step keeps: at most one active generation per server, entry and full-text rows of every live generation in step, no orphan, each build's generation staging and newer than the active one, what cleanup scanned still obsolete and empty |
| `GenerationRuns.StepAchieves` | crates/opcda-bridge-gateway/src/index/store.rs:519-838 | no step is idle: each leaves the rows it is for, whatever else is under way |
| `GenerationRuns.ActiveStep` | crates/opcda-bridge-gateway/src/index/store.rs:684-797 | each step either leaves an active generation frozen or is the one promotion that replaces it by a strictly newer one with the rows it was staged with |
| `GenerationRuns.ActiveThroughRun` | crates/opcda-bridge-gateway/src/index/store.rs:367-416 | between any two points of a run the server has exactly one active generation, its number never falls, only a promotion changes it, and while it stays it is frozen |
| `GenerationRuns.ReachableTables` | crates/opcda-bridge-gateway/src/index/scheduler.rs:1338-1417 | no reachable state has a full-text row whose generation is gone, and active and staging generations hold the same items in both tables |
| `GenerationRuns.CleanupInv` | crates/opcda-bridge-gateway/src/index/scheduler.rs:1485-1563 | deleting what was scanned earlier, with anything but a clear of that server in between, keeps all of it |
| `CleanupWindow.StepOrphans` | crates/opcda-bridge-gateway/src/index/scheduler.rs:1338-1417 | with clears allowed anywhere and rowids matched as the delete does, a step makes an orphan exactly when it deletes a generation cleared since its scan and reborn, at the scanned rowid, with full-text rows |
| `CleanupWindow.OrphansExactly` | crates/opcda-bridge-gateway/src/index/scheduler.rs:1338-1417 | over all runs no full-text row ever loses its generation exactly when no such delete happens |
| `CleanupWindow.QuietWindows` | crates/opcda-bridge-gateway/src/index/scheduler.rs:1386-1387 | so no run in which each scan is used without a clear since it was taken has an orphan, whatever builds and recovery do in between |
| `CleanupWindow.ClearInWindowOrphans` | crates/opcda-bridge-gateway/src/index/store.rs:832-838 | a run from empty tables that does end with an orphan |
| `IndexTables.CleanupSpares` | crates/opcda-bridge-gateway/src/index/scheduler.rs:1338-1417 | a batch never touches a row of a generation that is not obsolete |
| `IndexStore.IndexDb.ScanFts` | crates/opcda-bridge-gateway/src/index/scheduler.rs:1426-1453 | the lowest obsolete full-text rows above the cursor, at most 10,000 |
| `IndexStore.BatchAccounts` | crates/opcda-bridge-gateway/src/index/scheduler.rs:1485-1563 | the reported counts are exactly what the obsolete rows shrink by, the advancing cursor skips nothing, and a batch that reports nothing leaves nothing |
| `IndexStore.IndexDb.DeleteCleanupBatch` | crates/opcda-bridge-gateway/src/index/scheduler.rs:1338-1417 | full-text candidates, then up to 10,000 obsolete entries, then candidate generations left without entries |
| `IndexStore.IndexDb.CleanupOneBatch` | crates/opcda-bridge-gateway/src/index/scheduler.rs:1426-1563 | scan and delete with nothing in between: exact counts, cursor still valid, nothing else touched |
| `IndexStore.IndexDb.CleanupObsoleteGenerations` | crates/opcda-bridge-gateway/src/index/scheduler.rs:1565-1641 | terminates with no superseded generation of the server left and no failed one if another is active, nor any entry or full-text row of one, everything else untouched, statistics equal to the totals |
| `BuildLoop.FirstWinsMeaning` | crates/opcda-bridge-gateway/src/index/store.rs:586-622 | the rows of a stream: one per distinct ItemID, the first entry that carried it |
| `BuildLoop.InsertAllSplits` | crates/opcda-bridge-gateway/src/index/traversal.rs:2119-2160 | how a stream is cut into commits does not matter |
| `BuildLoop.CommitStep` | crates/opcda-bridge-gateway/src/index/traversal.rs:2119-2160 | a commit on top of earlier ones equals one commit of all, and its inserted count is the growth of the distinct items |
| `BuildLoop.BuildRun.CommitPending` | crates/opcda-bridge-gateway/src/index/traversal.rs:2119-2160 | no entry is lost or repeated between pending and committed; it succeeds exactly when nothing is pending or the database is there and takes every entry |
| `BuildLoop.BuildRun.HandleEvent` | crates/opcda-bridge-gateway/src/index/traversal.rs:1584-1699 | which events let the loop go on, and what every other one says about the build: terminal, completed, cancelled or failed |
| `BuildLoop.BuildRun.DrainStream` | crates/opcda-bridge-gateway/src/index/traversal.rs:1392-1521 | for every stream and commit pattern committed plus pending are the entries received, and the loop ends as the first turn that cannot go on ends it |
| `BuildLoop.BuildRun.RunBuildLoop` | crates/opcda-bridge-gateway/src/index/traversal.rs:1392-1521 | exactly when a build is finished, interrupted by shutdown or failed; a stream without its terminal event is a cancellation only by the operator; a finished, completed, uncancelled build has committed everything it received |
| `BuildLoop.BuildRun.Run` | crates/opcda-bridge-gateway/src/index/traversal.rs:1799-1869 | a build is promoted exactly when the event that ends its loop says complete, neither cancelled nor truncated, and nothing stops the stream closing, the last commit, the control or the promotion; its generation is then the one active one, with the distinct ItemIDs received, first occurrence kept, both counts their number, and that event's profile and warning; any other build activates nothing, and its generation is discarded exactly if the build was cancelled with nothing stored, and failed otherwise |
| `BuildLoop.UntroubledIsPromotable` | crates/opcda-bridge-gateway/src/index/traversal.rs:1392-1521 | so a build in which nothing is refused, delayed into cancellation or nameless, and whose last event says complete, is promoted |
| `BuildProtocol.RegistriesNest` | crates/opcda-bridge-gateway/src/index/enrollment.rs:165-281 | in every reachable state owners are among active builds, active builds among build locks, and active builds within the concurrency limit |
| `BuildProtocol.StepInv` | crates/opcda-bridge-gateway/src/index/traversal.rs:2658-2841 | every reservation, finalisation and deletion step keeps the registries nested, one holder per lock, and deletion behind the build's end |
| `BuildProtocol.StaleCompletionIsIgnored` | crates/opcda-bridge-gateway/src/index/traversal.rs:2706-2752 | a completion changes anything only if its token owns the server's build and its control matches |
| `BuildProtocol.DeletionIsQuiet` | crates/opcda-bridge-gateway/src/index/enrollment.rs:526-635 | when a delete transaction runs no build of the server is active or can write, and any later write belongs to a build reserved later |
| `BuildProtocol.RebuiltOnlyIfEnrolled` | crates/opcda-bridge-gateway/src/index/enrollment.rs:526-635 | after a delete transaction a build of the server is reserved only if the server was enrolled again in between |
| `BuildProtocol.NothingBlocks` | crates/opcda-bridge-gateway/src/index/enrollment.rs:165-281 | in every reachable state an enrolled server that is not being deleted and whose builds have all finished can be reserved while fewer builds are active than allowed |
| `BuildProtocol.NestingExactly` | crates/opcda-bridge-gateway/src/index/traversal.rs:2793-2841 | every held lock always has a runtime build exactly in the runs where no finalisation takes the record of a server that is locked again |
| `BuildProtocol.LocksKeepRuntime` | crates/opcda-bridge-gateway/src/index/enrollment.rs:583-604 | that holds if no deletion forgets a server between the last two steps of one of its finalisations |
| `BuildProtocol.ForgottenRecord` | crates/opcda-bridge-gateway/src/index/traversal.rs:2793-2816 | a concrete run in which it does not hold |
| `WorkerControls.NoWorkerEscapes` | crates/opcda-bridge-gateway/src/index/traversal.rs:359-458 | in every interleaving at flag and lock granularity, once a cancel or stop has returned every control is cancelled, unregistered, handed back with the error of a register that could not apply the pacing, or inside a register that ends by cancelling it or with that error |
| `WorkerControls.OnlyForCause` | crates/opcda-bridge-gateway/src/index/traversal.rs:359-458 | as long as nobody has begun to cancel or stop, no control is cancelled, and each one offered is in register, registered, unregistered or handed back because its pacing failed |
| `WorkerControls.NeverStuck` | crates/opcda-bridge-gateway/src/index/traversal.rs:359-458 | whoever is inside register comes nearer to its end, or waits for the lock of one who does |
| `WorkerControls.CancellerReturns` | crates/opcda-bridge-gateway/src/index/traversal.rs:431-458 | a canceller goes on to its end, having set its flags and cancelled what it found registered, unless a register holds the lock it wants |
| `WorkerControls.HandedBack` | crates/opcda-bridge-gateway/src/index/traversal.rs:368-378 | a control handed back with that error is in no registry |
| `WorkerControls.StepInv` | crates/opcda-bridge-gateway/src/index/traversal.rs:359-458 | every step keeps the registry, the lock and each canceller's snapshot accounted for |
| `Coordinator.CompletionIsHonest` | crates/opcda-bridge-gateway/src/index/traversal.rs:797-1183 | at most one terminal event and it is last; if it says complete, every root was popped once, each one's stream delivered its terminal event, and the output is root plus forwarded entries, one per ItemID in first-arrival order |
| `Coordinator.CompletesExactly` | crates/opcda-bridge-gateway/src/index/traversal.rs:910-941 | in every run that ends, the build is told complete exactly when no caller cancelled, no worker reported a failure and no failure or incomplete terminal event was received; while it listens it is told how the inventory ended |
| `Coordinator.CalmRunCompletes` | crates/opcda-bridge-gateway/src/index/traversal.rs:797-1183 | in terms of the streams: if each starts and runs to a terminal event and nobody cancels, an inventory that ends is complete |
| `Coordinator.NeverStuck` | crates/opcda-bridge-gateway/src/index/traversal.rs:797-1183 | until it is done, in every state a run can reach, some worker or the coordinator can take a step |
| `Coordinator.StepInv` | crates/opcda-bridge-gateway/src/index/traversal.rs:797-1183 | every worker and coordinator step keeps the roots partitioned, no root lost without cancellation, and the output the distinct entries given |
| `Coordinator.DistinctMeaning` | crates/opcda-bridge-gateway/src/index/traversal.rs:942-957 | one per ItemID in first-arrival order, by positions: the entries at which their ItemID arrives first, in order of arrival, so every ItemID is kept and none twice |
| `QueryCache.InsertKeepsForm` | crates/opcda-bridge-gateway/src/index/query.rs:45-54 | inserting keeps keys equal to the order, no duplicates and the bound |
| `QueryCache.InsertWithRoom` | crates/opcda-bridge-gateway/src/index/query.rs:45-54 | while there is room an insert gives nothing up, puts its key last and keeps the order of the others |
| `QueryCache.InsertEvictsOldest` | crates/opcda-bridge-gateway/src/index/query.rs:45-54 | and in a full cache a new key costs exactly the one used longest ago |
| `QueryCache.UseKeepsForm` | crates/opcda-bridge-gateway/src/index/query.rs:38-43 | so does a hit, which makes its key the most recent, keeps the order of the others and changes no answer |
| `QueryCache.ClearKeepsForm` | crates/opcda-bridge-gateway/src/index/query.rs:56-59 | so does clearing a server, which gives up its answers and no others |
| `QueryCache.LruCache.Get` | crates/opcda-bridge-gateway/src/index/query.rs:38-43 | returns the stored answer and makes the key the newest |
| `QueryCache.LruCache.Insert` | crates/opcda-bridge-gateway/src/index/query.rs:45-54 | stores the answer as newest and evicts the oldest beyond capacity |
| `QueryCache.LruCache.ClearServer` | crates/opcda-bridge-gateway/src/index/query.rs:56-59 | removes exactly the server's keys from values and order |
| `CacheRuns.CacheIsTransparent` | crates/opcda-bridge-gateway/src/index/query.rs:127-233 | with status read, database reads and cache insert as separate steps among promotions and cleanup, a hit on the active generation equals an uncached search now |
| `CacheRuns.StoredIsHit` | crates/opcda-bridge-gateway/src/index/query.rs:224-231 | what a search stores is what its key then holds |
| `CacheRuns.StepReads` | crates/opcda-bridge-gateway/src/index/query.rs:127-233 | each statement reads the rows as they are then, a hit changes no answer, and an invalidated server has none left |
| `CachedSearch.SearchIsStable` | crates/opcda-bridge-gateway/src/index/query.rs:252-568 | the exact, prefix, full-text and LIKE searches, each statement reading the rows as they are then, depend only on the rows and not on how many statements read them |
| `CachedSearch.Search` | crates/opcda-bridge-gateway/src/index/query.rs:252-318 | which search runs for which mode and query, and that what the search methods return on rows that stand still is what the run theorems are about |
| `CachedSearch.CachedAnswerIsRanked` | crates/opcda-bridge-gateway/src/index/query.rs:127-233 | in every interleaving, what the cache holds for the active generation is its matching rows in the order of their search, cut at the limit, with has_more exactly when there are more; that order said outright, as for the searches themselves |
| `LikeSearch.LikeIsRank` | crates/opcda-bridge-gateway/src/index/query.rs:273-307 | on lowered text the LIKE statement for short words selects the rows that contain the query and orders them by search_rank, ItemIDs left out |
| `LikeSearch.ThreeIsEnough` | crates/opcda-bridge-gateway/src/index/query.rs:266-269 | of a query that has words, exactly those with a word of fewer than three characters go to the LIKE statement |
| `LikeSearch.RankedIsPage` | crates/opcda-bridge-gateway/src/index/query.rs:296-307 | with ties a page is as long as it can be, drawn from the matches, and no match on it or left out is ahead of one before it |
| `Utf8Prefix.Utf8Order` | crates/opcda-bridge-gateway/src/index/query.rs:330-351 | UTF-8 byte order (section 3 of RFC 3629) is code-point order |
| `Utf8Prefix.PrefixUpperBound` | crates/opcda-bridge-gateway/src/index/query.rs:589-605 | the right-to-left scan computes the bound of the specification |
| `Utf8Prefix.NoBoundIff` | crates/opcda-bridge-gateway/src/index/query.rs:589-605 | there is no bound exactly for the empty prefix and for all U+10FFFF |
| `Utf8Prefix.CodePointRange` | crates/opcda-bridge-gateway/src/index/query.rs:589-605 | between prefix and bound in code-point order are exactly the strings with the prefix |
| `Utf8Prefix.RangeIsPrefix` | crates/opcda-bridge-gateway/src/index/query.rs:330-351 | the byte range, or the substring test without a bound, selects exactly the strings with the prefix |
| `Ranking.LessTotal` | crates/opcda-bridge-gateway/src/index/query.rs:70-82 | of two different candidates exactly one precedes the other |
| `Ranking.LessIsAhead` | crates/opcda-bridge-gateway/src/index/query.rs:70-82 | and it is the one of smaller tier, then of shorter display name, then earlier in code-point order |
| `Ranking.TopIsRanked` | crates/opcda-bridge-gateway/src/index/query.rs:417-421 | sorting and cutting at k is the one list that is sorted, drawn from the set, as long as possible and below all the rest |
| `RankedSearch.PrefixOrderIsRank` | crates/opcda-bridge-gateway/src/index/query.rs:352-364 | on rows a column query selects, the SQL CASE and ORDER BY agree with search_rank and the candidate order |
| `RankedSearch.RankMeaning` | crates/opcda-bridge-gateway/src/index/query.rs:571-587 | what each search rank stands for, cumulatively |
| `RankedSearch.RankedIsTopPage` | crates/opcda-bridge-gateway/src/index/query.rs:417-421 | the sorted and cut list is a page on which rank never falls, at equal rank the display name never gets shorter, at equal length display norm, item norm and ItemID are in code-point order, and nothing left out belongs before anything on it |
| `RankedSearch.MergedTop` | crates/opcda-bridge-gateway/src/index/query.rs:409-421 | the first k of a union are the first k of the two top-k lists |
| `RankedSearch.ExactEarlyExit` | crates/opcda-bridge-gateway/src/index/query.rs:454-457 | when the first exact query is full, the second could add nothing that ranks |
| `RankedSearch.SearchPrefix` | crates/opcda-bridge-gateway/src/index/query.rs:320-421 | two limited column queries merged through a hash map equal sorting all prefix matches and cutting, and are such a page |
| `RankedSearch.SearchExact` | crates/opcda-bridge-gateway/src/index/query.rs:423-499 | the two exact queries, the second skipped when the first is full, equal sorting all exact matches and cutting, and are such a page |
| `FullText.HeapStep` | crates/opcda-bridge-gateway/src/index/query.rs:534-539 | one more row on the bounded heap keeps it the first k of the rows seen, duplicates included |
| `FullText.SearchFullText` | crates/opcda-bridge-gateway/src/index/query.rs:501-568 | the bounded heap scan joined with `entries`, a vanished row skipped |
| `FullText.FullTextIsRanked` | crates/opcda-bridge-gateway/src/index/query.rs:501-568 | when full-text rows and entries agree, that is sorting all matches and cutting, in whatever order MATCH yields them |
| `FullText.FullTextPage` | crates/opcda-bridge-gateway/src/index/query.rs:501-568 | and such a page |
| `FullText.Answer` | crates/opcda-bridge-gateway/src/index/query.rs:207-208 | the page is the first limit matches; has_more is right exactly when limit is below 2^32 - 1 or there are no more matches than that |
| `Escaping.EscapeIsPerCharacter` | crates/opcda-bridge-gateway/src/index/query.rs:642-647 | the three replaces together escape character by character |
| `Escaping.EscapedLikeIsLiteral` | crates/opcda-bridge-gateway/src/index/query.rs:273-304 | LIKE on the escaped query accepts exactly the strings that contain it, or start with it, up to ASCII case; exactly so on lower-cased text |
| `Escaping.SpacingKeepsWords` | crates/opcda-bridge-gateway/src/index/query.rs:99-105 | normalising spacing keeps the words |
| `Escaping.FtsQueryRoundTrip` | crates/opcda-bridge-gateway/src/index/query.rs:607-613 | an FTS5 lexer and parser read the built query back as the conjunction of exactly the query's words |
| `BrowseSession.StoreLinked` | crates/opcda-bridge-gateway/src/browse.rs:359-381 | storing a page under a key not cached keeps both FIFOs bounded and in step with their maps, cached continuations a suffix of the bound ones, each accepted for its parent and size |
| `BrowseSession.InvalidateLinked` | crates/opcda-bridge-gateway/src/browse.rs:76-85 | so does invalidating a parent, which forgets its pages and continuations and no others |
| `BrowseSession.Session.CachePage` | crates/opcda-bridge-gateway/src/browse.rs:63-74 | the page becomes the newest of at most 256, the oldest go |
| `BrowseSession.Session.BindPage` | crates/opcda-bridge-gateway/src/browse.rs:87-95 | the token becomes the newest of at most 256, the oldest go |
| `BrowseSession.Session.InvalidateParent` | crates/opcda-bridge-gateway/src/browse.rs:76-85 | removes the parent's pages and bindings from maps and orders |
| `BrowseSession.Session.StorePage` | crates/opcda-bridge-gateway/src/browse.rs:324-381 | bind, then cache; keeps the invariant when the key is not cached |
| `BrowseRuns.ContinuationsStayValid` | crates/opcda-bridge-gateway/src/browse.rs:248-381 | in every run where no refresh overlaps another call, the invariant holds and every page handed out, cached or fresh, carries a continuation the session accepts |
| `BrowseRuns.StepKeeps` | crates/opcda-bridge-gateway/src/browse.rs:248-381 | every critical section of a call keeps the invariant when no refresh overlaps it |
| `BrowseOverlap.StoreLive` | crates/opcda-bridge-gateway/src/browse.rs:324-381 | whatever the session's history, storing a page costs a cached page its continuation exactly when it gives up a binding that is the continuation of another page that stays cached |
| `BrowseOverlap.RecacheSuffix` | crates/opcda-bridge-gateway/src/browse.rs:63-74 | re-caching a key keeps the suffix exactly when the replaced page has no continuation or the oldest one |
| `BrowseOverlap.RecacheLive` | crates/opcda-bridge-gateway/src/browse.rs:63-95 | while the suffix still holds, a re-cache loses a continuation exactly when 256 are cached, the new page has one and the replaced page does not hold the oldest |
| `BrowseExactly.LinkedExactly` | crates/opcda-bridge-gateway/src/browse.rs:248-381 | over all runs, overlapping refreshes included, the suffix holds throughout exactly when every page delivered under a cached key replaces one without a continuation or with the oldest |
| `BrowseExactly.LiveExactly` | crates/opcda-bridge-gateway/src/browse.rs:248-381 | about the cache, not the client: over all runs every cached continuation is accepted throughout exactly when no delivery evicts the binding of another page that stays cached |
| `BrowseExactly.DisplacementFirst` | crates/opcda-bridge-gateway/src/browse.rs:63-95 | a run that never displaces never loses a cached continuation |
| `BrowsePromise.SoundStep` | crates/opcda-bridge-gateway/src/browse.rs:324-381 | from a state in which every page a call could be handed is usable, a step leads to one that is not exactly when it delivers a page and gives up the continuation of another page that stays cached and is a first page or awaited by a plain call |
| `BrowsePromise.SoundExactly` | crates/opcda-bridge-gateway/src/browse.rs:248-381 | over all runs, overlapping refreshes included, every cached page a call could be handed is usable throughout exactly when no delivery does that |
| `BrowsePromise.SoundIsSeen` | crates/opcda-bridge-gateway/src/browse.rs:248-312 | could be handed is meant as the client sees it: a state is sound exactly when no call is handed a dead page next, or once the call holding the operation lock has given up |
| `BrowsePromise.PromiseExactly` | crates/opcda-bridge-gateway/src/browse.rs:248-381 | over all runs nothing dead is or could soon be handed out exactly when no delivery harms in that sense |
| `BrowsePromise.PromiseKept` | crates/opcda-bridge-gateway/src/browse.rs:248-381 | up to the first harmful delivery every page the run hands out carries a continuation the session accepts |
| `BrowsePromise.PromiseWhileLive` | crates/opcda-bridge-gateway/src/browse.rs:248-381 | so does every page of a run that loses no cached continuation |
| `BrowsePromise.AdmittedOnlyWithOwn` | crates/opcda-bridge-gateway/src/browse.rs:234-271 | in every run a call gets in only with a token the session issued for the parent and page size it asks for, a parent some page showed, and a refresh from the first page on |
| `BrowsePromise.AnsweredOnce` | crates/opcda-bridge-gateway/src/browse.rs:273-312 | a refresh is never answered from the cache, and a call that is answered or gives up is gone and holds no lock |
| `BrowseRuns.OverlapLoses` | crates/opcda-bridge-gateway/src/browse.rs:273-312 | with 256 continuations cached elsewhere, a refresh overlapping a plain call for the same page loses one |
| `BrowseRuns.OverlapShows` | crates/opcda-bridge-gateway/src/browse.rs:273-312 | if those are first pages of nodes the client knows, the next call is handed one of them with its continuation dead |
| `BrowseRuns.OverlapWitness` | crates/opcda-bridge-gateway/src/browse.rs:273-312 | such a state is reached from a new session: a complete root page, then the first pages below 256 of the nodes it shows; the refresh is below one more |
| `SessionLifetime.NativeLifetimes` | crates/opcda-bridge-gateway/src/browse.rs:113-161 | in every interleaving at most 128 sessions are registered, each native session is in exactly one of opening, registered, closing-or-closed, its close begins at most once, and no page of it begins, ends or is under way after that |
| `SessionLifetime.NothingLeaks` | crates/opcda-bridge-gateway/src/browse.rs:387-448 | when nothing is under way every native session ever opened is in the table or has been closed, and no lock is held |
| `SessionLifetime.NeverStuck` | crates/opcda-bridge-gateway/src/browse.rs:387-448 | until then some open, browse or close can go on: who waits for a lock waits for a task that can |
| `SessionLifetime.RoomIsUsed` | crates/opcda-bridge-gateway/src/browse.rs:113-161 | every number of sessions up to 128 is reached |
| `SessionLifetime.NobodyBrowses` | crates/opcda-bridge-gateway/src/browse.rs:288-312 | whoever is about to close a native session, no browse of it is under way |
| `SessionLifetime.StepKeeps` | crates/opcda-bridge-gateway/src/browse.rs:387-448 | every step of open, browse, close and expiry keeps the accounting of places, locks, references and native calls |
| `Controller.NormalizedUsable` | crates/opcda-bridge-gateway/src/controller.rs:73-135 | normalising yields ordered, in-range limits, is idempotent, and leaves a usable configuration alone |
| `Controller.HardImpliesSoft` | crates/opcda-bridge-gateway/src/controller.rs:567-642 | a reading that pauses would also throttle, errors and a full disk aside |
| `Controller.HardReadings` | crates/opcda-bridge-gateway/src/controller.rs:567-605 | which readings pause, with their thresholds |
| `Controller.SoftReadings` | crates/opcda-bridge-gateway/src/controller.rs:607-642 | which readings throttle, with their thresholds |
| `Controller.AdaptiveIndexController.Observe` | crates/opcda-bridge-gateway/src/controller.rs:513-565 | the step-by-step updates compute the observation function, and the decision reports the new state and whether it changed |
| `Controller.AdaptiveIndexController.PauseFor` | crates/opcda-bridge-gateway/src/controller.rs:668-684 | the checked shift and multiplication yield min(base · 2^min(k, 10), maximum) |
| `Controller.AdaptiveIndexController.Throttle` | crates/opcda-bridge-gateway/src/controller.rs:644-666 | halves each limit, down to its floor and never above what it was, and starts a new hold |
| `Controller.AdaptiveIndexController.IncreaseLimits` | crates/opcda-bridge-gateway/src/controller.rs:686-712 | each limit rises by a tenth or one up to its ceiling |
| `ControllerRuns.PacingIsSafe` | crates/opcda-bridge-gateway/src/controller.rs:513-684 | in every run limits stay between floor and ceiling, Steady means ceiling, a deadline exists exactly while paused for another reason than foreground work, and its delay is the backoff of the pauses since the last increase |
| `ControllerRuns.LimitsMoveInRun` | crates/opcda-bridge-gateway/src/controller.rs:513-712 | in every run: a soft reading halves each limit down to its floor, health raises each by a tenth or one up to its ceiling, a hard reading and the end of its pause go to the canary limits, and nothing else moves a limit |
| `ControllerRuns.ReasonsInRun` | crates/opcda-bridge-gateway/src/controller.rs:513-565 | in every run a reason is given exactly while paused or throttled, and it is that of the reading that caused it |
| `ControllerRuns.IncreasesApart` | crates/opcda-bridge-gateway/src/controller.rs:560-562 | increases are at least a healthy window apart |
| `ControllerRuns.HalvingsApart` | crates/opcda-bridge-gateway/src/controller.rs:552-558 | so are halvings with no pause between them |
| `ControllerRuns.HalvingsCompound` | crates/opcda-bridge-gateway/src/controller.rs:644-666 | k halvings with no increase or hard reading between bring every limit to its floor or to a 2^k-th of what it was |
| `ControllerRuns.BackoffDoubles` | crates/opcda-bridge-gateway/src/controller.rs:668-684 | successive pauses last the configured delay, doubled each time, ten times at most, never more than the maximum |
| `ControllerRuns.HealthConverges` | crates/opcda-bridge-gateway/src/controller.rs:686-712 | from any point of any run, well-spaced healthy observations reach Steady within 2 + max(1, widest gap) of them and stay there |
| `TokenBucket.WaitIsExact` | crates/opcda-bridge-gateway/src/index/traversal.rs:536-547 | after a refusal a poll succeeds from the end of the computed wait on and not before |
| `TokenBucket.ItemRateLimiter.Acquire` | crates/opcda-bridge-gateway/src/index/traversal.rs:527-549 | the loop's outcome and bucket for every sequence of clock readings and cancellations |
| `TokenBucket.FirstDecides` | crates/opcda-bridge-gateway/src/index/traversal.rs:527-549 | the first reading that is a cancellation or finds a token decides, and until one does the caller waits |
| `TokenBucket.NothingLost` | crates/opcda-bridge-gateway/src/index/traversal.rs:536-541 | a poll grants exactly when a whole token is there and loses none but what does not fit the bucket |
| `TokenBucket.BurstIsServed` | crates/opcda-bridge-gateway/src/index/traversal.rs:516-526 | as many calls are let through at once as there are whole tokens |
| `TokenBucket.RateBound` | crates/opcda-bridge-gateway/src/index/traversal.rs:516-549 | in every run tokens stay within the bucket and a window of length T sees at most capacity + rate · T grants |
| `LiveSearch.SelectedMeaning` | crates/opcda-bridge-gateway/src/server/search.rs:120-150 | a visit is reported exactly when it matches and no earlier matching visit has its ItemID |
| `LiveSearch.SelectedOnce` | crates/opcda-bridge-gateway/src/server/search.rs:120-150 | no ItemID is reported twice |
| `LiveSearch.SearchContext.MatchNode` | crates/opcda-bridge-gateway/src/server/search.rs:120-150 | found exactly when eligible and its ItemID is new, which is then remembered |
| `LiveSearch.SearchContext.ProcessNode` | crates/opcda-bridge-gateway/src/server/search.rs:220-249 | one visit: counted, reported if it is to be, its scope queued, either limit ending the search with a truncated summary |
| `LiveSearch.SearchContext.ProcessPage` | crates/opcda-bridge-gateway/src/server/search.rs:251-276 | a page's nodes in order, then progress; a prefix of them if stopped |
| `LiveSearch.SearchContext.ProcessScope` | crates/opcda-bridge-gateway/src/server/search.rs:278-313 | all pages of a listing in order, or a prefix of them if stopped or failed |
| `LiveSearch.SearchContext.Walk` | crates/opcda-bridge-gateway/src/server/search.rs:349-353 | the queue visits in level order; when it runs empty, the first empty level has been reached and no listing failed |
| `LiveSearch.SearchContext.SearchInner` | crates/opcda-bridge-gateway/src/server/search.rs:316-357 | the same guarantees before a failure is reported; an error leaves no terminal event sent, and to a client still there means a listing that fails |
| `LiveSearch.SearchContext.Search` | crates/opcda-bridge-gateway/src/server/search.rs:70-98 | at most max_results matches and 50,000 visits, a terminal event last if at all, matches a prefix of those of the breadth-first walk; for a client still there the last event says why it ended: everything covered, a limit reached, or a listing that fails |
| `LivePaths.WalkCoversPaths` | crates/opcda-bridge-gateway/src/server/search.rs:153-185 | once a level is empty the walk has met exactly the ends of all paths from the root, each with its path as breadcrumbs, a path being nodes each listed under the one before, which is no mere item |
| `LivePaths.CompleteMeansAll` | crates/opcda-bridge-gateway/src/server/search.rs:316-357 | a walk of every level reports only matching path ends, reports each one or an earlier one to the same ItemID, and no ItemID twice |
| `LivePaths.PathIsReceived` | crates/opcda-bridge-gateway/src/server/search.rs:316-357 | of a search that ended as complete, every matching path was received, itself or one to the same ItemID that the walk meets no later |
| `LivePaths.CompleteAnswer` | crates/opcda-bridge-gateway/src/server/search.rs:70-98 | what a client knows that saw the search end as complete: nothing follows, the matches are the ends of paths that carry the text asked for, in display name or ItemID, with the whole path as breadcrumbs in breadth-first order, no ItemID twice, nothing missing |
| `LivePaths.CompleteExactly` | crates/opcda-bridge-gateway/src/server/search.rs:316-357 | for a client that stays a search ends as complete exactly when the namespace below its root ends, has fewer nodes and matches than the limits, and no listing of it fails |
| `LivePaths.EligibleIsAsked` | crates/opcda-bridge-gateway/src/server/search.rs:50-59 | a node is eligible exactly when its display name or its ItemID equals, starts with or contains the text, by the mode, and it has an ItemID or branches are wanted |

## Left out

- gRPC mapping, the command line client, rendering, configuration loading, logging, the Windows service and the COM adapter: plumbing and foreign calls.
- SQLite itself: transactions are atomic, ORDER BY with LIMIT is sort and take, MATCH is an arbitrary predicate, and a LIMIT without ORDER BY picks any legal rows.
- 64-bit range checks on generation numbers and counts, and Instant overflow, all of which only add error paths.
- The generations table's implicit rowid outside `CleanupWindow`: elsewhere cleanup candidates are identified by server and number, which allows at least the deletions the code allows.
- GenerationRuns.StepInv: no build of a server starts, in another process on the same database, between recovery's one look at its build lock and the updates, which docs/indexing-and-search.md:65-66 rules out and the code does not; `RecoveryOverlap` is without this.
- Enrollment, retry and circuit metadata, schema migration and quarantine of damaged databases.
- More than one cleanup worker at a time: one scan is outstanding in `GenerationRuns`.
- Lost cleanup wake-ups: the spawner clears its flag after looking for work, so nothing is claimed about when cleanup runs.
- Lock poisoning, task panics and dropped futures.
- Pause overlays, duty-cycle sleeping and the reconciliation of pause and resume with pacing.
- The order of rows that only their ItemIDs tell apart in the LIKE search for short words: its ORDER BY leaves it open, and the model takes some order that depends on the rows alone.
- LikeSearch.LikeIsRank: display names and ItemIDs without U+0000 and ASCII capitals, as lower-casing leaves them; the selection and the order themselves are stated for all text, LIKE reading up to the first U+0000. SQLite's limit on the length of a LIKE pattern is left out.
- Unicode lower-casing: `normalize` is an arbitrary function in `FullText`, and the other searches read the stored columns.
- U+0000 in names: SQL length stops there while the program counts on, so the ranked searches are stated for display names without it; FTS5 text likewise is read to the first U+0000.
- The native keys that node keys of a browse session stand for: a lookup table; which node keys are known, and their limit of 100,000, are in the model, and a call that fails one of those checks changes nothing or is an `Abort` step.
- The client's loop over all pages composed with the gateway: it may change the page size its token is bound to.
- Floating-point rounding: the token bucket and the host metrics are over reals.
- BuildLoop.BuildRun.Run: other servers' commits between two commits of the build are in `GenerationRuns`, not in this method.
- CacheRuns.CacheIsTransparent: the search engine is any function of the rows its statements saw that does not depend on how many statements read unchanged rows; `CachedSearch` puts the modelled searches in its place.
- CachedSearch.CachedAnswerIsRanked: MATCH and the JSON text of breadcrumbs are arbitrary functions.
- Coordinator.CompletionIsHonest: a worker's terminal event counts as its stream's end even when it says truncated or cancelled, as in the code, so complete does not mean every stream was complete.
- WorkerControls.NoWorkerEscapes: pause and pacing are not re-checked by register in the code, so only cancellation is claimed; the caller's own shutdown of the stream after a register that failed is not modelled.
- SessionLifetime.NativeLifetimes: expiry may take any registered session at any time, which includes every choice the clock would make.
- LiveSearch.SearchContext.Search: the refresh flag of the first listing is not modelled, since the namespace is fixed during a search.
