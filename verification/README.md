# Scene index model

Stasharr discovers scenes through a catalog provider, sends acquisitions to Whisparr and checks a local Stash
library. The scene index is a materialised view of four outside sources: request rows, Whisparr movies, the
Whisparr queue and the library. This project models the index and the stateful services around it, and proves what
they keep over all inputs, runs and interleavings.

The database is a set of finite maps, each database call or transaction is one atomic step, providers are functions
of a world value, time is an integer clock, and the collation of strings is a parameter.

- **The index** — `SceneIndex` (rows, patches, spread and merge), `PatchMerging` and `MergeCondition` (when merging
  once equals writing one by one), `WrittenColumns` (what a write makes of each column), `SceneIndexSummary` (the
  counters), `SceneIndexStore` (the chunked, retried write), `WriteBarrier` (concurrent calls behind the promise chain),
  `SceneStatusResolver` (the live answer) and `QueueColumns` (what the stored queue columns keep of it).
- **The syncs** — `RequestSync`, `MovieSync`, `QueueSync`, `LibrarySync`, and `IndexRefinement`, whose main theorem says
  that after the bootstrap syncs the index answers what the live sources answer; `Bootstrap` is the run itself with its
  leases and failures, and `IndexHistory` follows the index while the sources change and syncs are interrupted.
- **Metadata** — `Hydration` (claims shared by concurrent runs) and `Backfill` (the wrapping cursor).
- **Jobs and readers** — `SyncState` and `LeaseProtocol`, `StatusService` with `StatusFreshness` and `StatusLimits` (how
  long syncs may take for its answers to stay live), `AvailabilityCache`, `HybridFeed` and `WorkerPool`.
- **Providers** — `CatalogRefs`, `Integrations`, `RuntimeHealth`, `ErrorGraph`.
- `Basics` and `Text` hold shared value types and string normalisation.

Operations that loop or update state are methods or classes proved against a specification function; what the code
promises is then proved about that function, or about every run of a state machine over it.

## Where the code keeps less than it promises

Each of these is proved, with the exact condition under which the promise holds.

- Stored queue columns: an item that is importing but neither failed, warned, paused, completed nor downloading is
  ranked ahead of a downloading one, so the columns can lose the state the full queue shows
  (`QueueColumns.StrayItemLosesQueueState`).
- Merging patches: an explicit `undefined` that follows a value of the same scene, with nothing said about the property
  afterwards, drops the value (`MergeCondition.UndefinedLosesValue`); patches of different scenes, as the targeted
  refreshes build them, are safe.
- Movie sync: a scene whose movie id changed is nulled on the first pass and repaired on the second
  (`MovieSync.OneSyncSuffices`, `MovieSync.ReplacedMovieIsCleared`). A row that holds a movie the snapshot lists under
  another scene, its own scene having none, is never cleared by any sync (`IndexRefinement.ForeignStaysForGood`); one is
  left when a movie moves between scenes (`IndexHistory.MovedMovieStays`).
- Library pass: the pass stops at a page whose scenes all have blank ids, so such a page hides everything after it
  (`LibrarySync.PassReadsEverything`, `LibrarySync.BlankPageStopsThePass`).
- Leases: once a lease has run out under its holder, a second worker joins the holder, and the holder's end then clears
  the successor's lease, so a third can join while that lease has not run out (`LeaseProtocol.OverrunIsJoined`,
  `LeaseProtocol.OverrunAdmitsTwo`). Along a run no job ever has two holders exactly when no claim takes over from a
  holder whose lease has run out (`LeaseProtocol.NeverTwoExactly`).
- Status reads: a scene without a usable row is answered as not requested while the syncs count as fresh, and rows are
  stamped with the start of the run that writes them. Every answer is live exactly while request runs take at most
  twenty-eight minutes and movie, queue and library runs at most ten (`StatusLimits.LimitsAreExact`); a longer library
  pass, which its twenty-minute lease allows, hides the scenes it has just found available
  (`StatusLimits.LongLibraryPassHides`).
- Hybrid feed: while the inspection budget covers every candidate, the feed says it has no more only when it has shown
  every match. Past the budget it can say so too early: on an empty page with matches behind the budget, and on a page
  with scenes when the budget ends inside a short last candidate page (`HybridFeed.HidesExactly`,
  `HybridFeed.EmptyPageHidesMatches`, `HybridFeed.CutPageHidesMatch`).
- Catalog lock: a connection test marks its provider even when it fails or has no URL, which locks the instance
  (`Integrations.WhatLocks`).

## Model

| member | source | states |
|---|---|---|
| `SceneStatusResolver.ResolveQueueLifecycleState` | apps/sp-api/src/scene-status/scene-status.resolver.ts:70-133 | The flag loop with its early return: Failed exactly when some item of the movie reads "failed", "warning" or "paused", else ImportPending exactly when one reads "completed", or "downloading" in an import state, else Downloading, Requested or nothing by whether one reads "downloading" or "queued". |
| `SceneStatusResolver.CapitalsRead` | apps/sp-api/src/scene-status/scene-status.resolver.ts:70-133 | A status or state reads as its word in any capitals and with white space around it. |
| `SceneStatusResolver.LifecycleExactly` | apps/sp-api/src/scene-status/scene-status.resolver.ts:29-68 | Each lifecycle exactly by what the library, the words of the movie's items, its file and the request say. |
| `SceneStatusResolver.QueueStateIgnoresTheRest` | apps/sp-api/src/scene-status/scene-status.resolver.ts:29-133 | Items of other movies, order and repetition do not change a movie's queue state. |
| `QueueColumns.ColumnsKeepQueueState` | apps/sp-api/src/indexing/indexing.service.ts:1803-1829 | The single item rebuilt from the stored columns gives the state of the full list exactly when the selected item is not a stray one outranked by another. |
| `QueueColumns.ColumnsKeepLifecycle` | apps/sp-api/src/indexing/indexing.service.ts:1769-1829 | Under the same condition, and no weaker one, the lifecycle from the columns is the lifecycle from the full list. |
| `QueueColumns.ColumnsKeepSceneLifecycle` | apps/sp-api/src/indexing/indexing.service.ts:1769-1829 | For one scene with its file flag the lifecycle agrees exactly when that condition holds, or the selected item shows nothing and the movie alone shows what the strongest item shows. |
| `QueueColumns.EveryOrderKeepsQueueState` | apps/sp-api/src/indexing/indexing.service.ts:2173-2236 | The columns are lossless in every list order exactly when an item fails or no item is stronger than any stray one. |
| `QueueColumns.SelectedIsStrongest` | apps/sp-api/src/indexing/indexing.service.ts:2173-2236 | The item that ranks first is one the resolver would let decide. |
| `QueueColumns.RankInWords` | apps/sp-api/src/indexing/indexing.service.ts:2202-2236 | The rank of an item by the words of its status and download state. |
| `QueueColumns.SummaryOfTheFirst` | apps/sp-api/src/indexing/indexing.service.ts:2173-2200 | The stored columns are the status, state and message of the first item of the lowest rank. |
| `QueueColumns.SynthesizedItem` | apps/sp-api/src/indexing/indexing.service.ts:1803-1829 | One item stands for a movie's stored columns, none where there is no movie or no status. |
| `QueueColumns.StrayItemLosesQueueState` | apps/sp-api/src/indexing/indexing.service.ts:2173-2236 | A queued and importing item beside a downloading one: the full queue shows a download, the columns a mere request, with and without a file. |
| `SceneIndex.MergePatchesByStashId` | apps/sp-api/src/indexing/indexing.service.ts:1849-1866 | Folds the spreads in order and lists each trimmed, non-blank scene once. |
| `MergeCondition.MergedOnceIsOneByOne` | apps/sp-api/src/indexing/indexing.service.ts:1671-1767 | Over every table, writing the merged patches equals writing the patches one by one, exactly when for no scene and property an explicit `undefined` after a value is the last thing the patches say. |
| `MergeCondition.NoUndefinedCommutes` | apps/sp-api/src/indexing/indexing.service.ts:2598-2600 | Patches whose fields are absent or set meet that condition. |
| `MergeCondition.DistinctScenesCommute` | apps/sp-api/src/indexing/indexing.service.ts:790-800 | So do patches of different scenes, whatever they hold. |
| `MergeCondition.UndefinedLosesValue` | apps/sp-api/src/indexing/indexing.service.ts:1849-1866 | A value followed by an explicit `undefined` for the same scene does not: some table ends up different. |
| `PatchMerging.MergedKeys` | apps/sp-api/src/indexing/indexing.service.ts:1849-1866 | Every merged patch is filed under its own trimmed, non-blank scene id. |
| `PatchMerging.MergedOnePerScene` | apps/sp-api/src/indexing/indexing.service.ts:1849-1866 | Patches of different scenes merge to themselves. |
| `SceneIndexSummary.BuildSummaryDelta` | apps/sp-api/src/indexing/indexing.service.ts:1868-1933 | The accumulation loop is the fold of the per-row count differences, empty for an empty chunk. |
| `SceneIndexSummary.CountAfterUpsert` | apps/sp-api/src/indexing/indexing.service.ts:1981-2007 | Each counter's per-row difference is the change of a recount when that row is upserted. |
| `SceneIndexSummary.DeltaIsTheDifference` | apps/sp-api/src/indexing/indexing.service.ts:1868-1933 | Adding a chunk's difference to an exact summary gives the recount of the rows after the chunk. |
| `SceneIndexSummary.ChunkKeepsExact` | apps/sp-api/src/indexing/indexing.service.ts:1935-1979 | The increments actually sent, zero ones left out, keep the summary exact. |
| `SceneIndexSummary.RebuildExact` | apps/sp-api/src/indexing/indexing.service.ts:2026-2111 | A rebuild is exact. |
| `SceneIndexSummary.ExactTrackedIsTheSum` | apps/sp-api/src/indexing/indexing.service.ts:2003-2007 | In an exact summary the tracked counter is the sum of the four lifecycle counters. |
| `SceneIndexStore.SceneIndexStore.EnsureSceneIndexSummary` | apps/sp-api/src/indexing/indexing.service.ts:2009-2024 | Creates an exact summary row when there is none and leaves a present one alone. |
| `SceneIndexStore.SceneIndexStore.ExecutePatchChunk` | apps/sp-api/src/indexing/indexing.service.ts:1602-1669 | Commits exactly when an attempt within the limit commits after deadlocks only; then rows and summary change together, otherwise neither does. |
| `SceneIndexStore.SceneIndexStore.ApplyChunks` | apps/sp-api/src/indexing/indexing.service.ts:1584-1598 | Writes exactly the chunks before the first one that does not commit in time, with the rows built from the rows at the start, and succeeds exactly when there is no such chunk. |
| `SceneIndexStore.SceneIndexStore.ApplySceneIndexPatches` | apps/sp-api/src/indexing/indexing.service.ts:1559-1600 | Succeeds exactly when every chunk commits in time, and then every scene the patches mention is written; otherwise exactly the chunks before the failing one are. Each column of a scene written is the last property of its own name among the scene's patches where that is a value, and otherwise what it was, or empty in a new row; no other row changes. The summary stays exact, ids stay clean, and every row stays derived from its own columns exactly when the queue evidence of the scenes written agrees with theirs. |
| `SceneIndexStore.WriteInColumns` | apps/sp-api/src/indexing/indexing.service.ts:1671-1767 | However far a write gets, column by column and by name: the last patch of the scene that has the property decides it. |
| `SceneIndex.SortsByUrgency` | apps/sp-api/src/indexing/indexing.service.ts:1831-1847 | Rows sort by lifecycle: failed, downloading, import pending, requested, available, not requested. |
| `SceneIndexStore.FirstFailingChunk` | apps/sp-api/src/indexing/indexing.service.ts:1584-1669 | Where the chunk loop stops is the first chunk whose attempts do not commit. |
| `SceneIndexStore.WrittenInAnyOrder` | apps/sp-api/src/indexing/indexing.service.ts:1559-1600 | Writing all merged scenes in any order gives the same table. |
| `SceneIndexStore.WrittenDerived` | apps/sp-api/src/indexing/indexing.service.ts:1671-1767 | However far a write gets, every row has the lifecycle its own columns give and that lifecycle's sort order exactly when the evidence of each scene written gives the lifecycle its new columns give; without evidence it always does. |
| `SceneIndexStore.WrittenKeepsDerivedUnlessMovie` | apps/sp-api/src/indexing/indexing.service.ts:1671-1767 | However far a write gets, rows without a movie stay derived from their own columns when queue items come only with movie ids. |
| `WriteBarrier.InterleavedIsSerial` | apps/sp-api/src/indexing/indexing.service.ts:2751-2768 | In every state of every interleaving, with retries and failures, at most one call is inside, in arrival order; the table is that of the calls run one after another and the summary is exact. |
| `WriteBarrier.SuccessIsApplied` | apps/sp-api/src/indexing/indexing.service.ts:1559-1600 | Calls that committed everything compose to the merged patches applied call by call. |
| `WriteBarrier.RowsStayDerived` | apps/sp-api/src/indexing/indexing.service.ts:1671-1767 | In every state of every interleaving every row is derived from its own columns, when it was at the start and each call's evidence agrees, as it does for calls without any. |
| `WriteBarrier.RowsStayDerivedUnlessMovie` | apps/sp-api/src/indexing/indexing.service.ts:2751-2768 | In every state of every interleaving rows without a movie are, when calls hand over queue items only with movie ids, as the queue sync does. |
| `WriteBarrier.AllReturned` | apps/sp-api/src/indexing/indexing.service.ts:2751-2768 | Once all calls have returned the table is that composition. |
| `WriteBarrier.NextCallCanEnter` | apps/sp-api/src/indexing/indexing.service.ts:2751-2768 | A waiting call can enter exactly when every earlier call has returned or thrown. |
| `WriteBarrier.StopsOnlyWhenAllReleased` | apps/sp-api/src/indexing/indexing.service.ts:2751-2768 | Some call can get on, without a throw or a deadlock, exactly until all have returned or thrown, so the barrier never blocks for good. |
| `WriteBarrier.RunsEnd` | apps/sp-api/src/indexing/indexing.service.ts:1602-1669 | Every run is over within five steps a call and three attempts a chunk. |
| `MovieSync.BuildMoviePatches` | apps/sp-api/src/indexing/indexing.service.ts:960-1007 | One patch for each snapshot movie, then one nulling patch for each row whose movie id has left the snapshot. |
| `MovieSync.PerformWhisparrMovieSync` | apps/sp-api/src/indexing/indexing.service.ts:944-1026 | The request sync unless skipped, then the snapshot; succeeds exactly when the requests are synced, the snapshot is fetched and every chunk commits, and then the table is that of `AfterMovieSync`, or unchanged without Whisparr. |
| `MovieSync.SyncApplied` | apps/sp-api/src/indexing/indexing.service.ts:960-1007 | The merged patch list acts row by row as the last snapshot entry of the scene and the nulling say. |
| `MovieSync.MovieColumns` | apps/sp-api/src/indexing/indexing.service.ts:960-1007 | By column: a row whose movie is no longer listed loses it with its file flag and queue columns, a listed scene takes its last entry's movie and file flag, both are stamped, and every other row stays. |
| `MovieSync.OneSyncSettles` | apps/sp-api/src/indexing/indexing.service.ts:960-1007 | After one sync every movie id is none or in the snapshot. |
| `MovieSync.OneSyncSuffices` | apps/sp-api/src/indexing/indexing.service.ts:960-1007 | A snapshot scene holds its last entry's id after one sync exactly when its row was not stale. |
| `MovieSync.ReplacedMovieIsCleared` | apps/sp-api/src/indexing/indexing.service.ts:960-1007 | A row that holds movie 1 while the snapshot gives its scene movie 2 holds none after the sync. |
| `MovieSync.TwoSyncsConverge` | apps/sp-api/src/indexing/indexing.service.ts:960-1007 | After a second sync with the same snapshot every snapshot scene does. |
| `MovieSync.ThirdSyncOnlyStamps` | apps/sp-api/src/indexing/indexing.service.ts:960-1007 | A third one changes only timestamps and adds no row. |
| `QueueSync.GroupQueueItemsByMovieId` | apps/sp-api/src/indexing/indexing.service.ts:2159-2171 | Each movie id once, in order of first occurrence, with its items in list order. |
| `QueueSync.MovieIdsInOrder` | apps/sp-api/src/indexing/indexing.service.ts:2159-2171 | Of two movie ids the earlier one is in the queue before the other's first item. |
| `QueueSync.GroupInTwo` | apps/sp-api/src/indexing/indexing.service.ts:2159-2171 | A movie's items stand in queue order. |
| `QueueSync.BuildQueuePatches` | apps/sp-api/src/indexing/indexing.service.ts:1064-1172 | Patches, positions and evidence of the queued movies, then the clearing patches. |
| `QueueSync.PerformWhisparrQueueSync` | apps/sp-api/src/indexing/indexing.service.ts:1028-1196 | The request sync unless skipped, then the queue; succeeds exactly when the requests are synced, the queue is fetched and every chunk commits, and then the table is that of `AfterQueueSync`, or unchanged without Whisparr. |
| `QueueSync.AfterQueueSyncAt` | apps/sp-api/src/indexing/indexing.service.ts:1064-1196 | Each scene takes the patch and the items of its last queued movie, found through its row or the look-up, what clearing then takes out, either alone, or nothing. |
| `QueueSync.ClearedInWords` | apps/sp-api/src/indexing/indexing.service.ts:1124-1160 | Cleared are rows with queue columns when the queue is empty, or whose movie no item is for; while anything is queued a row without a movie is not. |
| `QueueSync.QueueSyncColumns` | apps/sp-api/src/indexing/indexing.service.ts:1064-1172 | By column: a queued scene takes its movie, its position, which is the number of scenes queued before it, the summary of its items and the stamps; a row no longer queued loses its queue columns; every other row stays. |
| `QueueSync.QueuedLifecycle` | apps/sp-api/src/indexing/indexing.service.ts:1769-1801 | A queued scene's lifecycle is what its items say, with its file flag, availability and request. |
| `QueueSync.QueueEvidenceBringsMovie` | apps/sp-api/src/indexing/indexing.service.ts:1064-1196 | The sync hands over queue items only with a movie id. |
| `QueueSync.QueueSyncKeepsDerived` | apps/sp-api/src/indexing/indexing.service.ts:1028-1196 | The sync leaves every row derived from its own columns exactly when the columns of each queued scene, cleared or not, show the lifecycle its items show. |
| `LibrarySync.LibraryProjection.UpsertPage` | apps/sp-api/src/indexing/indexing.service.ts:2238-2304 | A page's scenes are upserted with their stamp, blank ids dropped. |
| `LibrarySync.ProjectedRow` | apps/sp-api/src/indexing/indexing.service.ts:2238-2304 | Each scene read links to the first id its references give for the active provider, with its references, details and the stamp of the pass. |
| `LibrarySync.LibraryProjection.ReadPages` | apps/sp-api/src/indexing/indexing.service.ts:1212-1245 | A pass that fetches every page has upserted, and collected the active ids of, everything up to where it stops. |
| `LibrarySync.SweepIsExact` | apps/sp-api/src/indexing/indexing.service.ts:1247-1258 | After the sweep the projection's keys are the scenes read exactly when every other row was stamped before the start. |
| `LibrarySync.PassReadsEverything` | apps/sp-api/src/indexing/indexing.service.ts:1212-1245 | The pass reads every scene with an id exactly when no page of blank scenes lies before one. |
| `LibrarySync.BlankPageStopsThePass` | apps/sp-api/src/indexing/indexing.service.ts:1212-1245 | A hundred dropped scenes before a kept one: the kept one is not read. |
| `LibrarySync.BuildAvailabilityPatches` | apps/sp-api/src/indexing/indexing.service.ts:2306-2345 | One patch for each id seen, one for each row marked available and not seen. |
| `LibrarySync.SnapshotApplied` | apps/sp-api/src/indexing/indexing.service.ts:2306-2345 | Those patches, merged and applied, are the availability snapshot. |
| `LibrarySync.AvailabilityColumns` | apps/sp-api/src/indexing/indexing.service.ts:2306-2345 | By column: scenes seen become available and rows available before and not seen no longer are, both stamped, and every other row stays. |
| `LibrarySync.AvailabilityIsExact` | apps/sp-api/src/indexing/indexing.service.ts:2306-2345 | Afterwards exactly the ids seen are available, and no other column but two stamps has changed. |
| `LibrarySync.PerformLibraryProjectionSync` | apps/sp-api/src/indexing/indexing.service.ts:1198-1286 | The whole sync: succeeds exactly when Stash is not configured, or every page is fetched and written, the sweep is done and every chunk commits; when a page fails no projection row is deleted and no index row or counter changes. |
| `LibrarySync.CompletedPassIsExact` | apps/sp-api/src/indexing/indexing.service.ts:1198-1286 | A completed pass begun after every stored stamp leaves exactly the library's scenes and exactly its active ids available. |
| `RequestSync.SyncRequestRows` | apps/sp-api/src/indexing/indexing.service.ts:1514-1557 | Patches all request rows, or those of the given scenes; only a run over all of them records a success, and it succeeds exactly when every chunk commits and the record is stored. |
| `RequestSync.RequestColumns` | apps/sp-api/src/indexing/indexing.service.ts:1536-1541 | By column: a requested scene takes the request's status and time and the stamp, and every other row stays. |
| `IndexRefinement.RequestStage` | apps/sp-api/src/indexing/indexing.service.ts:1514-1557 | Then every row carries its scene's request status and every requested scene has a row. |
| `IndexRefinement.MovieStage` | apps/sp-api/src/indexing/indexing.service.ts:944-1026 | Then every row carries its scene's movie as well. |
| `IndexRefinement.QueueStage` | apps/sp-api/src/indexing/indexing.service.ts:1028-1196 | Then every row's columns and lifecycle give the movie's live queue state. |
| `IndexRefinement.SeenIsInLibrary` | apps/sp-api/src/indexing/indexing.service.ts:2238-2304 | The ids the library pass sees are those a library look-up answers for. |
| `IndexRefinement.LibrarySettles` | apps/sp-api/src/indexing/indexing.service.ts:2306-2345 | Then every row carries all that the live answer is made of, and every scene of a source has a row. |
| `IndexRefinement.IndexRefinesLive` | apps/sp-api/src/indexing/indexing.service.ts:210-225 | After the bootstrap syncs, over any earlier rows that kept requests and movie ids and whose movie-less ones show their own columns, every indexed lifecycle and sort order is the live one and every other scene is live not requested. |
| `IndexRefinement.AnySyncsStayLive` | apps/sp-api/src/indexing/indexing.service.ts:186-250 | From such an index on, any sequence of the request, movie, queue and library syncs, in any order and number, keeps every row live and every other scene live not requested. |
| `IndexRefinement.MovieSyncMakesConsistent` | apps/sp-api/src/indexing/indexing.service.ts:960-1007 | Whatever movie ids the rows hold, one movie sync leaves rows a bootstrap can start from exactly when no row holds a movie of the snapshot although the snapshot has none for its scene; such rows, and no others, are still there afterwards. |
| `IndexRefinement.MovieSyncThenBootstrapSettles` | apps/sp-api/src/indexing/indexing.service.ts:186-250 | A movie sync and then a bootstrap settle rows whose movie-less ones show their own columns exactly when no row holds such a movie. |
| `IndexRefinement.ForeignStaysForGood` | apps/sp-api/src/indexing/indexing.service.ts:186-250 | Along any sequence of the four syncs a row that holds such a movie keeps one, and the index never settles. |
| `IndexRefinement.BootstrapKeepsConsistent` | apps/sp-api/src/indexing/indexing.service.ts:210-225 | A bootstrap leaves rows the next one may start from. |
| `IndexRefinement.EveryBootstrapRefines` | apps/sp-api/src/indexing/indexing.service.ts:210-225 | From an empty index on, every bootstrap that runs its four syncs leaves the index live. |
| `IndexHistory.BootstrapRepairs` | apps/sp-api/src/indexing/indexing.service.ts:186-250 | From an empty index on, after any history of changing sources, complete and interrupted syncs and queue groups of any kind, a bootstrap over sources that meet the conditions makes the index live. |
| `IndexHistory.LiveSinceTheBootstrap` | apps/sp-api/src/indexing/indexing.service.ts:186-250 | It then stays live, through any complete or interrupted syncs, until the sources change. |
| `IndexHistory.MovedMovieStays` | apps/sp-api/src/indexing/indexing.service.ts:960-1007 | A movie that moves from one scene to another after a bootstrap leaves the first row holding a movie listed under the other scene. |
| `Bootstrap.SkippedExactly` | apps/sp-api/src/indexing/indexing.service.ts:906-942 | A bootstrap is skipped exactly over a table that is not empty, has at least as many rows as there are requests, and has synced every row. |
| `Bootstrap.BootstrapIndex` | apps/sp-api/src/indexing/indexing.service.ts:186-250 | The imperative bootstrap with its own lease and those of its syncs: skipped over a synced table, going on past a held lease, it succeeds exactly when every step it takes does; it keeps a settled index settled, and settles one that meets the assumptions when all four syncs run. |
| `Hydration.HydrateBatch` | apps/sp-api/src/indexing/indexing.service.ts:1459-1503 | One batch's patches: failed ones for a thrown query, else the answered scenes and the ids not answered. |
| `Hydration.BatchColumns` | apps/sp-api/src/indexing/indexing.service.ts:1459-1503 | By column: an answered scene shows what the catalog answered for it, one not answered keeps its display, both hydrated as of now; after a throw the batch is to be retried in five minutes and keeps its last sync. |
| `Hydration.HydrationClaims.Claim` | apps/sp-api/src/indexing/indexing.service.ts:1438-1448 | Claims exactly the ids not in flight, in order. |
| `Hydration.HydrationClaims.Release` | apps/sp-api/src/indexing/indexing.service.ts:1507-1511 | Releases exactly the ids claimed. |
| `Hydration.ClaimsPartition` | apps/sp-api/src/indexing/indexing.service.ts:1424-1512 | Over every interleaving with throws, the active runs' claims are disjoint, together are the in-flight set, and it is empty once all are out. |
| `Hydration.LeaveReleasesItsOwn` | apps/sp-api/src/indexing/indexing.service.ts:1507-1511 | However a run ended, leaving releases its own ids and no other run's. |
| `Hydration.CommitSettlesClaims` | apps/sp-api/src/indexing/indexing.service.ts:1450-1506 | When a run's write commits, each claimed scene is hydrated, or retryable where its batch failed, whatever ids the catalog answered with. |
| `Backfill.EligibleInWords` | apps/sp-api/src/indexing/indexing.service.ts:2490-2539 | Eligible are pending rows, failed ones whose retry is due and hydrated ones a week after their last sync; in a bootstrap pass all pending and failed ones and no other. |
| `Backfill.CursorInWords` | apps/sp-api/src/indexing/indexing.service.ts:2365-2407 | An empty cursor starts over like none, any other one goes on strictly after itself. |
| `Backfill.RunCloser` | apps/sp-api/src/indexing/indexing.service.ts:2365-2407 | A completed run that does not target an eligible row brings it strictly closer, through the advance or the wrap. |
| `Backfill.EveryRowIsTargeted` | apps/sp-api/src/indexing/indexing.service.ts:1377-1422 | From any cursor, a row that stays eligible while none join is targeted within ceil(n/24)+1 completed runs, however many fail between. |
| `SyncState.SyncStateService.TryAcquireLease` | apps/sp-api/src/indexing/sync-state.service.ts:62-98 | Claims exactly when the job has no lease or it has run out, storing a run begun now with its lease and keeping all that is known of the last success; otherwise changes nothing. |
| `SyncState.SyncStateService.RecordSuccess` | apps/sp-api/src/indexing/sync-state.service.ts:107-159 | Stores the end, each field given under its own name, and no lease or error; fields not given stay. |
| `SyncState.SyncStateService.MarkFailure` | apps/sp-api/src/indexing/sync-state.service.ts:161-172 | Stores the end and the message and no lease, and keeps the cursor and all that is known of the last success; a missing row is an error. |
| `SyncState.SyncStateService.RunWithLease` | apps/sp-api/src/indexing/sync-state.service.ts:19-52 | Runs exactly when the lease is claimed and always releases it; a handler or a recording that throws is a failure, which keeps the cursor. |
| `LeaseProtocol.RunKeeps` | apps/sp-api/src/indexing/sync-state.service.ts:31-52 | In every run of many workers with crashes, status is running exactly when a lease is set, and each row follows its job's last event. |
| `LeaseProtocol.EndsAndClaimsInWords` | apps/sp-api/src/indexing/sync-state.service.ts:62-172 | Each end stores its success or its failure field by field, each granted claim a run with its lease, and a refused claim nothing. |
| `LeaseProtocol.ClaimsAreSpaced` | apps/sp-api/src/indexing/sync-state.service.ts:62-98 | Two claims of a job with no release between them are at least the first lease apart. |
| `LeaseProtocol.OneHandlerAtATime` | apps/sp-api/src/indexing/sync-state.service.ts:31-52 | If handlers end within their leases, at most one worker holds a job at a time. |
| `LeaseProtocol.NeverTwoExactly` | apps/sp-api/src/indexing/sync-state.service.ts:31-98 | Along every run a job never has two holders exactly when no claim takes over from a holder whose lease has run out by the claimer's reading of the clock. |
| `LeaseProtocol.DoubledExactlyWhenOverrun` | apps/sp-api/src/indexing/sync-state.service.ts:31-98 | From an exclusive state of a run a job can get two holders before any time passes exactly when a holder has overrun its lease, or a worker whose own lease would already be over is about to claim a job that no crashed holder's lease blocks. |
| `LeaseProtocol.OverrunIsJoined` | apps/sp-api/src/indexing/sync-state.service.ts:62-98 | A second worker that starts, reads and claims now joins a holder exactly when the holder's lease has run out. |
| `LeaseProtocol.ExpiredLeaseIsTaken` | apps/sp-api/src/indexing/sync-state.service.ts:62-98 | An idle worker gets a job exactly when it has no unexpired lease, so a crashed holder blocks nobody after expiry. |
| `LeaseProtocol.OverrunAdmitsTwo` | apps/sp-api/src/indexing/sync-state.service.ts:31-52 | A run in which an overrunning worker ends its successor's lease and a third joins, two handlers being at work within an unexpired lease. |
| `StatusService.ResolveStashAvailability` | apps/sp-api/src/scene-status/scene-status.service.ts:502-561 | The batched look-ups leave an entry for each answered scene and none for a failure. |
| `StatusService.LookupWhisparrMovies` | apps/sp-api/src/scene-status/scene-status.service.ts:354-414 | The batched look-ups leave the movies found; failures count as none found. |
| `StatusService.MergeResolvedStatuses` | apps/sp-api/src/scene-status/scene-status.service.ts:331-352 | Indexed answers, resolved answers and the default, each for its own ids. |
| `StatusService.ResolveForScenes` | apps/sp-api/src/scene-status/scene-status.service.ts:172-329 | The batch has exactly the distinct trimmed non-blank ids, each with the one-scene answer, on every path, and that answer is the one of `EveryAnswer`. |
| `StatusService.ResolveForScenesWithEvidence` | apps/sp-api/src/scene-status/scene-status.service.ts:172-329 | With a queue or movies handed over the batch answers as if Whisparr had given them. |
| `StatusService.EvidenceInWords` | apps/sp-api/src/scene-status/scene-status.service.ts:172-329 | The queue and movies handed over stand in for Whisparr's answers where it is configured, and change nothing else. |
| `StatusService.BatchKeysAndSingles` | apps/sp-api/src/scene-status/scene-status.service.ts:54-154 | What the batch maps an id to is what resolving that id alone returns; blank ids resolve to not requested. |
| `StatusService.EveryAnswer` | apps/sp-api/src/scene-status/scene-status.service.ts:54-154 | A scene is answered by its row if that is at most thirty minutes old; as not requested while requests synced within two minutes, movies and library within twenty; as available if Stash says so; by its movie's items or file if Whisparr knows it; and by its request when Whisparr is missing, fails or knows no movie. |
| `StatusService.EveryPathIsLive` | apps/sp-api/src/scene-status/scene-status.service.ts:54-154 | Over a refined index the answer is the live one, except exactly for outdated rows while the syncs of requests, movies and library count as fresh. |
| `StatusFreshness.ReadsAreLive` | apps/sp-api/src/indexing/indexing.service.ts:694-731 | Over sources that hold still, after any runs of the syncs, overlapping or interrupted, every answer over a refined index is the live one when request runs take at most 28 minutes and the others at most ten. |
| `StatusLimits.LimitsAreExact` | apps/sp-api/src/indexing/indexing.service.ts:694-731 | No longer runs will do: every answer over all sources, runs and times is live exactly within those limits. |
| `StatusLimits.LongLibraryPassHides` | apps/sp-api/src/indexing/indexing.service.ts:2347-2363 | An available scene after a library pass of more than ten minutes: live available, answered not requested. |
| `AvailabilityCache.AvailabilityCache.Read` | apps/sp-api/src/scene-status/scene-status.service.ts:608-620 | Answers exactly the unexpired entries and never an expired one; a miss leaves no entry for the key. |
| `AvailabilityCache.AvailabilityCache.LookupStashAvailability` | apps/sp-api/src/scene-status/scene-status.service.ts:563-598 | Serves from the cache, joins a look-up under way, or starts the only one for the key. |
| `AvailabilityCache.AvailabilityCache.Prune` | apps/sp-api/src/scene-status/scene-status.service.ts:634-656 | Drops the expired entries and then the oldest insertions beyond the limit, and keeps the cache's order when it runs on its own. |
| `AvailabilityCache.AvailabilityCache.Answer` | apps/sp-api/src/scene-status/scene-status.service.ts:575-587 | A key is never present when its answer is written; at most one look-up per key stays in flight. |
| `AvailabilityCache.AvailabilityCache.Settle` | apps/sp-api/src/scene-status/scene-status.service.ts:588-594 | A look-up removes itself whether it answered or failed, and leaves the entries alone. |
| `AvailabilityCache.WriteStaysOrderly` | apps/sp-api/src/scene-status/scene-status.service.ts:622-656 | A write keeps one entry per key, insertion order as expiry order, and at most 4000 entries. |
| `AvailabilityCache.OldestGoFirst` | apps/sp-api/src/scene-status/scene-status.service.ts:634-656 | What the size limit drops expires no later than anything kept, and the new entry stays. |
| `HybridFeed.GetHybridSceneFeed` | apps/sp-api/src/hybrid-scenes/hybrid-scenes.service.ts:61-172 | The scenes are the page's window of the matches among the candidates the budget allows; only a prefix within the budget is inspected; the exact value of the more flag. |
| `HybridFeed.BudgetInWords` | apps/sp-api/src/hybrid-scenes/hybrid-scenes.service.ts:66-82 | Five candidates for each scene up to the end of the page and five more, in pages of twice its size and at most fifty. |
| `HybridFeed.PagesTileTheMatches` | apps/sp-api/src/hybrid-scenes/hybrid-scenes.service.ts:66-75 | While earlier pages are full, the pages in turn are the matches from the first on, none skipped, repeated or moved. |
| `HybridFeed.LastPageIsHonest` | apps/sp-api/src/hybrid-scenes/hybrid-scenes.service.ts:147-165 | A page that says it is the last has no match that is not shown by then, whatever the library holds, exactly when the budget allows every candidate. |
| `HybridFeed.HidesExactly` | apps/sp-api/src/hybrid-scenes/hybrid-scenes.service.ts:147-165 | For one library: a page that says it is the last leaves matches out exactly when candidates lie beyond the budget and either the page is empty and a match lies from its start on, or the budget cuts a short last candidate page with a match behind the cut. |
| `HybridFeed.ShownPageIsHonest` | apps/sp-api/src/hybrid-scenes/hybrid-scenes.service.ts:147-165 | Of the pages that show something, the claim is right whatever the library holds exactly when the budget does not cut a short last candidate page. |
| `HybridFeed.CutPageHidesMatch` | apps/sp-api/src/hybrid-scenes/hybrid-scenes.service.ts:66-82 | Twenty-five a page over a hundred and forty candidates: the full first page says it is the last while the last candidate matches. |
| `HybridFeed.EmptyPageHidesMatches` | apps/sp-api/src/hybrid-scenes/hybrid-scenes.service.ts:160-165 | Twenty-five a page over three hundred candidates: the empty first page says it is the last while the last hundred match. |
| `WorkerPool.ResultsInInputOrder` | apps/sp-api/src/hybrid-scenes/hybrid-scenes.service.ts:232-256 | Under every interleaving each index goes to the mapper at most once, in order; a settled pool rejects exactly if a call throws, else has every result at its index. |
| `WorkerPool.RunsEnd` | apps/sp-api/src/hybrid-scenes/hybrid-scenes.service.ts:232-256 | Every run of the pool ends within two steps an item and one a worker. |
| `CatalogRefs.BuiltRefParses` | apps/sp-api/src/providers/catalog/catalog-provider.util.ts:167-207 | Parsing a built reference returns the key and the trimmed id of every non-blank id, separators included. |
| `CatalogRefs.NormalizeCatalogSceneRefs` | apps/sp-api/src/providers/catalog/catalog-provider.util.ts:209-232 | The references of the entries, each once, in order of first occurrence: "STASHDB|" and the trimmed id where the endpoint or its URL has "stashdb" in it, "FANSDB|" and the id where it has "fansdb" alone, none otherwise. |
| `CatalogRefs.RefInWords` | apps/sp-api/src/providers/catalog/catalog-provider.util.ts:9-44 | What reference an entry gives, in those words. |
| `CatalogRefs.FindFirstExternalId` | apps/sp-api/src/providers/catalog/catalog-provider.util.ts:234-246 | The search loop with its early return is the first id its references give for the provider. |
| `CatalogRefs.HasRefExactly` | apps/sp-api/src/providers/catalog/catalog-provider.util.ts:248-265 | On normalised references the test holds exactly when some entry names the provider and carries the trimmed id. |
| `CatalogRefs.FindReturnsTheFirst` | apps/sp-api/src/providers/catalog/catalog-provider.util.ts:234-246 | The search returns the id of the first entry that names the provider and carries one, and nothing when none does. |
| `CatalogRefs.OneIdFoundOrTested` | apps/sp-api/src/providers/catalog/catalog-provider.util.ts:234-265 | Where a scene has one id for the provider, searching and testing agree. |
| `Integrations.IntegrationsService.Upsert` | apps/sp-api/src/integrations/integrations.service.ts:73-149 | What a save stores: the values entered, the status and health of before exactly when the row was there, keeps its connection and has something to connect with, and the other catalog provider reset when a URL is set; a refused save changes nothing. |
| `Integrations.IntegrationsService.TestIntegration` | apps/sp-api/src/integrations/integrations.service.ts:163-234 | What a test stores, also when recording the recovery throws after the success was stored: configured and healthy as of now exactly when a URL is set and the test succeeds, otherwise in error with its message, healthy as of before exactly over the same connection. |
| `Integrations.TestConfigures` | apps/sp-api/src/integrations/integrations.service.ts:163-208 | A catalog provider whose test succeeds over a URL is the configured one. |
| `Integrations.ConfiguredInWords` | apps/sp-api/src/providers/catalog/catalog-provider.util.ts:72-108 | The configured provider is the first one with a URL that is enabled, configured and healthy. |
| `Integrations.PickInWords` | apps/sp-api/src/providers/catalog/catalog-provider.util.ts:284-321 | Of two candidates the one enabled alone, else the one that works alone, else the first. |
| `Integrations.IntegrationsService.ResetOne` | apps/sp-api/src/integrations/integrations.service.ts:236-272 | A reset leaves nothing of a row, and a catalog reset nothing of both providers. |
| `Integrations.IntegrationsService.ResetEvery` | apps/sp-api/src/integrations/integrations.service.ts:274-293 | A full reset blanks every row. |
| `Integrations.InstanceIsTheBearer` | apps/sp-api/src/providers/catalog/catalog-provider.util.ts:110-140 | Under the lock the selection rules pick the one provider that carries a mark or a URL, or none. |
| `Integrations.WhatIsRefused` | apps/sp-api/src/integrations/integrations.service.ts:329-369 | A catalog provider is refused exactly when the other one carries a mark or a URL, or when it does itself and a save would leave it without a URL. |
| `Integrations.OneProviderAtATime` | apps/sp-api/src/integrations/integrations.service.ts:329-369 | Along every run from an empty table at most one catalog provider carries a mark or URL, and the configured provider is none or the instance's. |
| `Integrations.OnlyAResetUnlocks` | apps/sp-api/src/integrations/integrations.service.ts:329-369 | Once set, the instance's provider stays through every run without a catalog reset. |
| `Integrations.WhatLocks` | apps/sp-api/src/integrations/integrations.service.ts:163-234 | An unlocked instance is locked by saving a catalog provider with a URL or testing one, and by nothing else. |
| `RuntimeHealth.RuntimeHealthService.RecordFailure` | apps/sp-api/src/runtime-health/runtime-health.service.ts:53-101 | The stored rows after a failure do not depend on what was cached; throttled repeats change nothing. |
| `RuntimeHealth.RuntimeHealthService.RecordSuccess` | apps/sp-api/src/runtime-health/runtime-health.service.ts:103-124 | The same for a success. |
| `RuntimeHealth.RuntimeHealthService.RecordManualRecovery` | apps/sp-api/src/runtime-health/runtime-health.service.ts:126-151 | The same for a manual recovery. |
| `RuntimeHealth.RuntimeHealthService.ClearService` | apps/sp-api/src/runtime-health/runtime-health.service.ts:153-158 | The service's row and its cached record go together. |
| `RuntimeHealth.RuntimeHealthService.ClearAllServices` | apps/sp-api/src/runtime-health/runtime-health.service.ts:160-172 | Nothing stays stored or cached. |
| `RuntimeHealth.RuntimeHealthService.EnsureAllLoaded` | apps/sp-api/src/runtime-health/runtime-health.service.ts:206-217 | Every cached record is the stored one, and a loaded service without a cached record has no stored row. |
| `RuntimeHealth.RuntimeHealthService.GetSummary` | apps/sp-api/src/runtime-health/runtime-health.service.ts:37-51 | Shows every stored record, and is degraded exactly when one of them is. |
| `RuntimeHealth.EventInWords` | apps/sp-api/src/runtime-health/runtime-health.service.ts:53-158 | What each event makes of its service's record, field by field, and that it leaves every other record. |
| `RuntimeHealth.DegradedSinceTheSecondFailure` | apps/sp-api/src/runtime-health/runtime-health.service.ts:53-158 | Over every history a service is degraded exactly when two or more failures were reported since its last success, recovery or clear, and since the second of them. |
| `ErrorGraph.Walk.CollectNetworkErrorDetails` | apps/sp-api/src/providers/stashdb/stashdb.adapter.ts:2123-2194 | A call adds exactly the unseen values its argument reaches, each with its links and its detail, and ends on every cyclic graph. |
| `ErrorGraph.NetworkErrorDetails` | apps/sp-api/src/providers/stashdb/stashdb.adapter.ts:2116-2121 | The walk enters each reachable value once and yields exactly their distinct details, depth first, an aggregate's own detail after its errors; the message joins them, and there is none without a detail. |
| `ErrorGraph.DetailInWords` | apps/sp-api/src/providers/stashdb/stashdb.adapter.ts:2148-2194 | An object's detail is its trimmed code and message with a space between, the one that is not blank, or none. |
| `ErrorGraph.ErrorsAndOwnDetail` | apps/sp-api/src/providers/stashdb/stashdb.adapter.ts:2143-2194 | An aggregate's own detail comes after its errors', any other object's before them. |
| `ErrorGraph.JoinedInWords` | apps/sp-api/src/providers/stashdb/stashdb.adapter.ts:2116-2121 | Each further detail comes after a semicolon and a space. |

## Left out

- HTTP and GraphQL calls, payload parsing and URL building: providers are functions of a world value or answers of a step.
- URL parsing in `resolveCatalogProviderKey`: an entry carries the lower-cased host and path when its endpoint parses; lower-casing is ASCII, which is all the compared words need.
- Display columns: title, images, studio and the like are one opaque field.
- Several API processes on one database, and summary rebuilds outside the barrier: one writer process is assumed.
- A transaction whose commit is lost to a network error after it took effect: a transaction commits or it does not.
- Bootstrap.BootstrapIndex: the metadata step enters as whether it throws, Whisparr, Stash and a catalog provider are taken to be configured, and one clock reading serves a run's lease and its stamps.
- StatusFreshness.ReadsAreLive: a run writes all its scenes at its end and records its success in the same step; a read takes its clock once; targeted refreshes and seeding, which stamp rows as well, are left out.
- LeaseProtocol.OneHandlerAtATime: says only that timely handlers are enough; `NeverTwoExactly` and `DoubledExactlyWhenOverrun` have the exact conditions.
- IndexRefinement.IndexRefinesLive: assumes Whisparr, Stash and a catalog provider are configured and the four sources hold still, with one movie id per scene, one provider id per local scene, kept requests, and queue groups and library pages that meet the conditions listed above; which rows it may start from is the subject of `MovieSyncMakesConsistent` and `IndexHistory`.
- Targeted refreshes, seeding of requested scenes, the older availability sync and manual sync dispatch: they only build patches for the same write path.
- Scheduling: when a backfill is due, its cached next check, and which syncs are due.
- Backfill.EveryRowIsTargeted: the two queries of a run see the same rows, and rows may leave but not join on the way.
- Hydration.CommitSettlesClaims: the write is one atomic step, as `WriteBarrier` justifies; what other writers do to the rows afterwards is arbitrary.
- AvailabilityCache.AvailabilityCache.Prune: both clock readings of a write are taken to be equal, and the key is one string.
- HybridFeed.GetHybridSceneFeed: the page and page size are integers, the candidate list and its total hold still, and a page's look-ups are gathered as `WorkerPool` proves; the per-scene look-up cache is left out.
- StatusService.ResolveForScenes: the short-lived cache is left out; each look-up has one answer.
- Integrations.IntegrationsService.TestIntegration: calls into runtime health are left out but for the one that can throw; operations run one at a time.
- RuntimeHealth: operations run one at a time, and error messages come already resolved.
- ErrorGraph.NetworkErrorDetails: an error whose message is no string.
- Angular pages, authentication, diagnostics, controllers and the remaining services: mapping and plumbing that would add only easy members.
