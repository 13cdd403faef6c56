/** The bootstrap run, with the leases of its jobs and every call that can throw (indexing.service.ts). */
module Bootstrap {
  import opened Basics
  import opened SceneIndex
  import opened SceneIndexStore
  import opened SyncState
  import opened RequestSync
  import opened IndexRefinement
  import MS = MovieSync
  import QS = QueueSync
  import LS = LibrarySync

  const BOOTSTRAP_LEASE_MS := 20 * 60_000
  const QUEUE_LEASE_MS := 25_000
  const MOVIES_LEASE_MS := 4 * 60_000
  const LIBRARY_LEASE_MS := 20 * 60_000

  /** What happens to one run of one sync: whether fetching from the source throws, the fates of its chunks, whether
      recording its success throws, and when it starts and ends. */
  datatype SyncRun = SyncRun(fetchFails: bool, fate: (nat, nat) -> Fate, recordThrows: bool, now: int, endedAt: int)

  /** What happens to a bootstrap. */
  datatype Runs = Runs(
    requests: RequestRun, movies: SyncRun, queue: SyncRun, library: SyncRun, pageFails: nat -> bool, sweepFails: bool,
    metadataFails: bool, recordThrows: bool, now: int, endedAt: int)

  /** Which syncs another worker holds the lease of. */
  datatype Leases = Leases(movies: bool, queue: bool, library: bool)

  /** Another worker's lease on the job is in force. */
  predicate Held(jobs: Jobs, job: JobName, now: int) {
    job in jobs && !Claimable(jobs[job], now)
  }

  function HeldLeases(jobs: Jobs, runs: Runs): Leases {
    Leases(Held(jobs, WHISPARR_MOVIES, runs.movies.now), Held(jobs, WHISPARR_QUEUE, runs.queue.now),
           Held(jobs, LIBRARY_PROJECTION, runs.library.now))
  }

  function TimesOf(runs: Runs): Times {
    Times(runs.requests.now, runs.movies.now, runs.queue.now, runs.library.now)
  }

  /** A row is missing or was never synced. With Whisparr and Stash configured an empty index is bootstrapped too. */
  predicate ShouldBootstrap(rows: Table, requests: seq<RequestRow>) {
    |requests| > |rows| || (exists id :: id in rows && rows[id].columns.lastSyncedAt.None?) || |rows| == 0
  }

  /** A bootstrap is skipped exactly over a table that is not empty, has a row for every request at least by number, and
      has synced every row. */
  lemma SkippedExactly(rows: Table, requests: seq<RequestRow>)
    ensures !ShouldBootstrap(rows, requests)
            <==> rows != map[] && |rows| >= |requests| && forall id :: id in rows ==> rows[id].columns.lastSyncedAt.Some?
  {
  }

  predicate MoviesSucceed(world: World, rows: Table, run: SyncRun) {
    !run.fetchFails && AllCommit(run.fate, |MS.TouchedScenes(rows, world.movies)|) && !run.recordThrows
  }

  predicate QueueSucceeds(world: World, rows: Table, scan: seq<string>, run: SyncRun) {
    && !run.fetchFails && AllCommit(run.fate, |QS.QueueMerged(rows, scan, Finder(world), world.queue, run.now)|)
    && !run.recordThrows
  }

  predicate LibrarySucceeds(world: World, rows: Table, pageFails: nat -> bool, sweepFails: bool, run: SyncRun) {
    && LS.LibraryCommits(rows, world.library, Some(world.provider), pageFails, sweepFails, run.fate)
    && !run.recordThrows
  }

  /** The rows a sync leaves that runs unless its lease is held. */
  function UnlessHeld(world: World, rows: Table, held: bool, sync: Sync): Table {
    if held then rows else AfterSync(world, rows, sync)
  }

  /** The request sync and, unless its lease is held, the movie sync succeed. */
  predicate MoviesReached(world: World, rows: Table, held: bool, runs: Runs) {
    && RequestsSynced(world.requests, Some(runs.requests))
    && (held || MoviesSucceed(world, AfterRequestSync(rows, world.requests, runs.requests.now), runs.movies))
  }

  /** The queue sync and the library sync succeed unless their leases are held, the second over what the first leaves. */
  predicate LibraryReached(world: World, rows: Table, queueHeld: bool, libraryHeld: bool, scan: seq<string>, runs: Runs) {
    && (queueHeld || QueueSucceeds(world, rows, scan, runs.queue))
    && (libraryHeld || LibrarySucceeds(
          world, UnlessHeld(world, rows, queueHeld, QueueSync(scan, runs.queue.now)), runs.pageFails, runs.sweepFails, runs.library))
  }

  /** Every step succeeds over the rows the one before it leaves. */
  predicate AllSucceed(world: World, rows: Table, held: Leases, scan: seq<string>, runs: Runs) {
    var requested := AfterRequestSync(rows, world.requests, runs.requests.now);
    && MoviesReached(world, rows, held.movies, runs)
    && LibraryReached(
         world, UnlessHeld(world, requested, held.movies, MovieSync(runs.movies.now)), held.queue, held.library, scan, runs)
    && !runs.metadataFails
  }

  /** A settled index stays settled, and when every sync has run one that meets the assumptions is. */
  ghost predicate Settles(world: World, rows: Table, held: Leases, after: Table) {
    && (Regular(world) && Settled(world, rows) ==> Settled(world, after))
    && (held == Leases(false, false, false) && Regular(world) && Consistent(world, rows) ==> Settled(world, after))
  }

  const COUNTS := SuccessInput(None, None, None, None, None)

  /** The job rows once a sync has run, or found its lease held: it changes its own row alone, and leaves it unleased
      and marked with how the run ended. */
  function Logged(jobs: Jobs, job: JobName, leaseMs: nat, now: int, ok: bool, endedAt: int): Jobs {
    if Held(jobs, job, now) then jobs
    else
      var row := ClaimedRow(if job in jobs then jobs[job] else NEW_ROW, now, leaseMs);
      jobs[job := EndedRow(row, if ok then Answered(COUNTS) else Threw, false, endedAt)]
  }

  lemma LoggedOnce(before: Jobs, claimed: Jobs, job: JobName, leaseMs: nat, now: int, ok: bool, endedAt: int)
    requires !Held(before, job, now)
    requires claimed == before[job := ClaimedRow(if job in before then before[job] else NEW_ROW, now, leaseMs)]
    ensures claimed[job := EndedRow(claimed[job], if ok then Answered(COUNTS) else Threw, false, endedAt)]
            == Logged(before, job, leaseMs, now, ok, endedAt)
  {
  }

  lemma KeptBySync(world: World, rows: Table, sync: Sync, after: Table)
    requires CanRun(rows, sync) && after == AfterSync(world, rows, sync)
    ensures Regular(world) && Settled(world, rows) ==> Settled(world, after)
  {
    if Regular(world) && Settled(world, rows) {
      SyncKeepsSettled(world, rows, sync);
    }
  }

  /** A sync that runs unless another worker holds its lease. */
  ghost predicate Ran(world: World, rows: Table, held: bool, sync: Sync, after: Table) {
    CanRun(rows, sync) && after == UnlessHeld(world, rows, held, sync)
  }

  lemma KeptIfRan(world: World, rows: Table, held: bool, sync: Sync, after: Table)
    requires Ran(world, rows, held, sync, after)
    ensures Regular(world) && Settled(world, rows) ==> Settled(world, after)
  {
    if !held {
      KeptBySync(world, rows, sync, after);
    }
  }

  method PerformMovies(
    store: SceneIndexStore, jobs: SyncStateService, world: World, before: (string, string) -> bool, run: SyncRun,
    newestWriteAt: Option<int>)
    returns (done: bool)
    requires store.SummaryHolds() && CleanKeys(store.rows)
    modifies store, jobs
    ensures store.SummaryHolds() && CleanKeys(store.rows) && jobs.jobs == old(jobs.jobs)
    ensures DerivedUnlessMovie(old(store.rows)) ==> DerivedUnlessMovie(store.rows)
    ensures done && !run.recordThrows <==> MoviesSucceed(world, old(store.rows), run)
    ensures done ==> store.rows == AfterSync(world, old(store.rows), MovieSync(run.now))
  {
    var answer := Some(if run.fetchFails then Threw else Answered(world.movies));
    done := MS.PerformWhisparrMovieSync(store, jobs, world.requests, None, answer, before, run.fate, run.now, newestWriteAt);
  }

  method RunMovieSync(
    store: SceneIndexStore, jobs: SyncStateService, world: World, before: (string, string) -> bool, run: SyncRun,
    newestWriteAt: Option<int>)
    returns (ok: bool)
    requires store.SummaryHolds() && CleanKeys(store.rows)
    modifies store, jobs
    ensures store.SummaryHolds() && CleanKeys(store.rows)
    ensures DerivedUnlessMovie(old(store.rows)) ==> DerivedUnlessMovie(store.rows)
    ensures ok <==> Held(old(jobs.jobs), WHISPARR_MOVIES, run.now) || MoviesSucceed(world, old(store.rows), run)
    ensures ok ==> Ran(world, old(store.rows), Held(old(jobs.jobs), WHISPARR_MOVIES, run.now), MovieSync(run.now), store.rows)
    ensures jobs.jobs == Logged(old(jobs.jobs), WHISPARR_MOVIES, MOVIES_LEASE_MS, run.now, ok, run.endedAt)
  {
    var lease := jobs.TryAcquireLease(WHISPARR_MOVIES, MOVIES_LEASE_MS, run.now);
    if lease.None? {
      return true;
    }
    var done := PerformMovies(store, jobs, world, before, run, newestWriteAt);
    LoggedOnce(old(jobs.jobs), jobs.jobs, WHISPARR_MOVIES, MOVIES_LEASE_MS, run.now, done && !run.recordThrows, run.endedAt);
    ok := EndJob(jobs, WHISPARR_MOVIES, done, run.recordThrows, run.endedAt);
  }

  method PerformQueue(
    store: SceneIndexStore, jobs: SyncStateService, world: World, before: (string, string) -> bool, run: SyncRun,
    newestWriteAt: Option<int>)
    returns (done: bool, ghost scan: seq<string>)
    requires store.SummaryHolds() && CleanKeys(store.rows) && CleanMovies(world.movies)
    modifies store, jobs
    ensures store.SummaryHolds() && CleanKeys(store.rows) && jobs.jobs == old(jobs.jobs)
    ensures DerivedUnlessMovie(old(store.rows)) ==> DerivedUnlessMovie(store.rows)
    ensures done && !run.recordThrows <==> QueueSucceeds(world, old(store.rows), scan, run)
    ensures CanRun(old(store.rows), QueueSync(scan, run.now))
    ensures done ==> store.rows == AfterSync(world, old(store.rows), QueueSync(scan, run.now))
  {
    FinderAnswers(world);
    var answer := Some(if run.fetchFails then Threw else Answered(world.queue));
    done, scan := QS.PerformWhisparrQueueSync(
      store, jobs, world.requests, None, answer, Finder(world), before, run.fate, run.now, newestWriteAt);
  }

  method RunQueueSync(
    store: SceneIndexStore, jobs: SyncStateService, world: World, before: (string, string) -> bool, run: SyncRun,
    newestWriteAt: Option<int>)
    returns (ok: bool, ghost scan: seq<string>)
    requires store.SummaryHolds() && CleanKeys(store.rows) && CleanMovies(world.movies)
    modifies store, jobs
    ensures store.SummaryHolds() && CleanKeys(store.rows)
    ensures DerivedUnlessMovie(old(store.rows)) ==> DerivedUnlessMovie(store.rows)
    ensures ok <==> Held(old(jobs.jobs), WHISPARR_QUEUE, run.now) || QueueSucceeds(world, old(store.rows), scan, run)
    ensures ok ==>
              Ran(world, old(store.rows), Held(old(jobs.jobs), WHISPARR_QUEUE, run.now), QueueSync(scan, run.now), store.rows)
    ensures jobs.jobs == Logged(old(jobs.jobs), WHISPARR_QUEUE, QUEUE_LEASE_MS, run.now, ok, run.endedAt)
  {
    var lease := jobs.TryAcquireLease(WHISPARR_QUEUE, QUEUE_LEASE_MS, run.now);
    if lease.None? {
      var order := FetchOrder(store.rows);
      return true, order;
    }
    var done;
    done, scan := PerformQueue(store, jobs, world, before, run, newestWriteAt);
    LoggedOnce(old(jobs.jobs), jobs.jobs, WHISPARR_QUEUE, QUEUE_LEASE_MS, run.now, done && !run.recordThrows, run.endedAt);
    ok := EndJob(jobs, WHISPARR_QUEUE, done, run.recordThrows, run.endedAt);
  }

  lemma LibraryRows(world: World, rows: Table, now: int)
    ensures AfterSync(world, rows, LibrarySync(now))
            == LS.AfterAvailability(rows, LS.ActiveIds(world.library[..LS.ReadFrom(world.library, 1)], Some(world.provider)), now)
  {
  }

  method PerformLibrary(
    store: SceneIndexStore, projection: LS.LibraryProjection, world: World,
    before: (string, string) -> bool, run: SyncRun, pageFails: nat -> bool, sweepFails: bool, newestWriteAt: Option<int>)
    returns (done: bool)
    requires store.SummaryHolds() && CleanKeys(store.rows)
    modifies store, projection
    ensures store.SummaryHolds() && CleanKeys(store.rows)
    ensures DerivedUnlessMovie(old(store.rows)) ==> DerivedUnlessMovie(store.rows)
    ensures done == LS.LibraryCommits(old(store.rows), world.library, Some(world.provider), pageFails, sweepFails, run.fate)
    ensures done ==> store.rows == AfterSync(world, old(store.rows), LibrarySync(run.now))
  {
    LibraryRows(world, store.rows, run.now);
    var fetched;
    fetched, done := LS.PerformLibraryProjectionSync(
      store, projection, true, world.library, Some(world.provider), pageFails, sweepFails, run.now, before, run.fate, newestWriteAt);
  }

  method RunLibrarySync(
    store: SceneIndexStore, jobs: SyncStateService, projection: LS.LibraryProjection, world: World,
    before: (string, string) -> bool, run: SyncRun, pageFails: nat -> bool, sweepFails: bool, newestWriteAt: Option<int>)
    returns (ok: bool)
    requires store.SummaryHolds() && CleanKeys(store.rows)
    modifies store, jobs, projection
    ensures store.SummaryHolds() && CleanKeys(store.rows)
    ensures DerivedUnlessMovie(old(store.rows)) ==> DerivedUnlessMovie(store.rows)
    ensures ok <==>
              || Held(old(jobs.jobs), LIBRARY_PROJECTION, run.now)
              || LibrarySucceeds(world, old(store.rows), pageFails, sweepFails, run)
    ensures ok ==>
              Ran(world, old(store.rows), Held(old(jobs.jobs), LIBRARY_PROJECTION, run.now), LibrarySync(run.now), store.rows)
    ensures jobs.jobs == Logged(old(jobs.jobs), LIBRARY_PROJECTION, LIBRARY_LEASE_MS, run.now, ok, run.endedAt)
  {
    var lease := jobs.TryAcquireLease(LIBRARY_PROJECTION, LIBRARY_LEASE_MS, run.now);
    if lease.None? {
      return true;
    }
    var done := PerformLibrary(store, projection, world, before, run, pageFails, sweepFails, newestWriteAt);
    LoggedOnce(old(jobs.jobs), jobs.jobs, LIBRARY_PROJECTION, LIBRARY_LEASE_MS, run.now, done && !run.recordThrows, run.endedAt);
    ok := EndJob(jobs, LIBRARY_PROJECTION, done, run.recordThrows, run.endedAt);
  }

  /** No other job's row has changed. */
  ghost predicate Untouched(before: Jobs, after: Jobs, touched: set<JobName>) {
    forall job :: job !in touched ==> Lookup(after, job) == Lookup(before, job)
  }

  lemma UntouchedElsewhere(before: Jobs, middle: Jobs, after: Jobs, first: set<JobName>, second: set<JobName>)
    requires Untouched(before, middle, first) && Untouched(middle, after, second)
    ensures Untouched(before, after, first + second)
  {
  }

  lemma LoggedElsewhere(jobs: Jobs, job: JobName, leaseMs: nat, now: int, ok: bool, endedAt: int)
    ensures Untouched(jobs, Logged(jobs, job, leaseMs, now, ok, endedAt), {job})
  {
  }

  lemma HeldElsewhere(before: Jobs, after: Jobs, touched: set<JobName>, job: JobName, now: int)
    requires Untouched(before, after, touched) && job !in touched
    ensures Held(after, job, now) == Held(before, job, now)
  {
    assert Lookup(after, job) == Lookup(before, job);
  }

  method RequestsAndMovies(
    store: SceneIndexStore, jobs: SyncStateService, world: World, before: (string, string) -> bool, runs: Runs,
    newestWriteAt: Option<int>)
    returns (ok: bool)
    requires store.SummaryHolds() && CleanKeys(store.rows)
    modifies store, jobs
    ensures store.SummaryHolds() && CleanKeys(store.rows)
    ensures DerivedUnlessMovie(old(store.rows)) ==> DerivedUnlessMovie(store.rows)
    ensures Untouched(old(jobs.jobs), jobs.jobs, {REQUEST_ROWS, WHISPARR_MOVIES})
    ensures ok <==> MoviesReached(world, old(store.rows), Held(old(jobs.jobs), WHISPARR_MOVIES, runs.movies.now), runs)
    ensures ok ==>
              Ran(world, AfterRequestSync(old(store.rows), world.requests, runs.requests.now),
                  Held(old(jobs.jobs), WHISPARR_MOVIES, runs.movies.now), MovieSync(runs.movies.now), store.rows)
  {
    ghost var start := jobs.jobs;
    ok := SyncRequestsFirst(store, jobs, world.requests, before, Some(runs.requests), newestWriteAt);
    assert Untouched(start, jobs.jobs, {REQUEST_ROWS});
    if !ok {
      return;
    }
    ghost var requested := jobs.jobs;
    ok := RunMovieSync(store, jobs, world, before, runs.movies, newestWriteAt);
    LoggedElsewhere(requested, WHISPARR_MOVIES, MOVIES_LEASE_MS, runs.movies.now, ok, runs.movies.endedAt);
    HeldElsewhere(start, requested, {REQUEST_ROWS}, WHISPARR_MOVIES, runs.movies.now);
    UntouchedElsewhere(start, requested, jobs.jobs, {REQUEST_ROWS}, {WHISPARR_MOVIES});
  }

  method QueueAndLibrary(
    store: SceneIndexStore, jobs: SyncStateService, projection: LS.LibraryProjection, world: World,
    before: (string, string) -> bool, runs: Runs, newestWriteAt: Option<int>)
    returns (ok: bool, ghost scan: seq<string>)
    requires store.SummaryHolds() && CleanKeys(store.rows) && CleanMovies(world.movies)
    modifies store, jobs, projection
    ensures store.SummaryHolds() && CleanKeys(store.rows)
    ensures DerivedUnlessMovie(old(store.rows)) ==> DerivedUnlessMovie(store.rows)
    ensures Untouched(old(jobs.jobs), jobs.jobs, {WHISPARR_QUEUE, LIBRARY_PROJECTION})
    ensures ok <==>
              LibraryReached(world, old(store.rows), Held(old(jobs.jobs), WHISPARR_QUEUE, runs.queue.now),
                             Held(old(jobs.jobs), LIBRARY_PROJECTION, runs.library.now), scan, runs)
    ensures ok ==>
              && CanRun(old(store.rows), QueueSync(scan, runs.queue.now))
              && Ran(world, UnlessHeld(world, old(store.rows), Held(old(jobs.jobs), WHISPARR_QUEUE, runs.queue.now),
                                       QueueSync(scan, runs.queue.now)),
                     Held(old(jobs.jobs), LIBRARY_PROJECTION, runs.library.now), LibrarySync(runs.library.now), store.rows)
  {
    ghost var start := jobs.jobs;
    ok, scan := RunQueueSync(store, jobs, world, before, runs.queue, newestWriteAt);
    LoggedElsewhere(start, WHISPARR_QUEUE, QUEUE_LEASE_MS, runs.queue.now, ok, runs.queue.endedAt);
    if !ok {
      return;
    }
    ghost var queued := jobs.jobs;
    ok := RunLibrarySync(store, jobs, projection, world, before, runs.library, runs.pageFails, runs.sweepFails, newestWriteAt);
    LoggedElsewhere(queued, LIBRARY_PROJECTION, LIBRARY_LEASE_MS, runs.library.now, ok, runs.library.endedAt);
    HeldElsewhere(start, queued, {WHISPARR_QUEUE}, LIBRARY_PROJECTION, runs.library.now);
    UntouchedElsewhere(start, queued, jobs.jobs, {WHISPARR_QUEUE}, {LIBRARY_PROJECTION});
  }

  lemma JobsInTwo(start: Jobs, between: Jobs, end: Jobs, runs: Runs)
    requires Untouched(start, between, {REQUEST_ROWS, WHISPARR_MOVIES})
    requires Untouched(between, end, {WHISPARR_QUEUE, LIBRARY_PROJECTION})
    ensures Untouched(start, end, {REQUEST_ROWS, WHISPARR_MOVIES} + {WHISPARR_QUEUE, LIBRARY_PROJECTION})
    ensures Held(between, WHISPARR_QUEUE, runs.queue.now) == HeldLeases(start, runs).queue
    ensures Held(between, LIBRARY_PROJECTION, runs.library.now) == HeldLeases(start, runs).library
  {
    HeldElsewhere(start, between, {REQUEST_ROWS, WHISPARR_MOVIES}, WHISPARR_QUEUE, runs.queue.now);
    HeldElsewhere(start, between, {REQUEST_ROWS, WHISPARR_MOVIES}, LIBRARY_PROJECTION, runs.library.now);
    UntouchedElsewhere(start, between, end, {REQUEST_ROWS, WHISPARR_MOVIES}, {WHISPARR_QUEUE, LIBRARY_PROJECTION});
  }

  lemma RowsInTwo(
    world: World, rows: Table, moviesDone: Table, after: Table, held: Leases, scan: seq<string>, runs: Runs)
    requires Ran(world, AfterRequestSync(rows, world.requests, runs.requests.now), held.movies, MovieSync(runs.movies.now), moviesDone)
    requires CanRun(moviesDone, QueueSync(scan, runs.queue.now))
    requires Ran(world, UnlessHeld(world, moviesDone, held.queue, QueueSync(scan, runs.queue.now)), held.library,
                 LibrarySync(runs.library.now), after)
    ensures Settles(world, rows, held, after)
  {
    BootstrapOutcome(
      world, rows, AfterRequestSync(rows, world.requests, runs.requests.now), moviesDone,
      UnlessHeld(world, moviesDone, held.queue, QueueSync(scan, runs.queue.now)), after, held, scan, TimesOf(runs));
  }

  /** The five steps in order: the first that throws ends the bootstrap, and a held lease only skips its sync. */
  method RunSyncs(
    store: SceneIndexStore, jobs: SyncStateService, projection: LS.LibraryProjection, world: World,
    before: (string, string) -> bool, runs: Runs, newestWriteAt: Option<int>)
    returns (ok: bool, ghost scan: seq<string>)
    requires store.SummaryHolds() && CleanKeys(store.rows) && CleanMovies(world.movies)
    modifies store, jobs, projection
    ensures store.SummaryHolds() && CleanKeys(store.rows)
    ensures DerivedUnlessMovie(old(store.rows)) ==> DerivedUnlessMovie(store.rows)
    ensures Untouched(old(jobs.jobs), jobs.jobs, {REQUEST_ROWS, WHISPARR_MOVIES} + {WHISPARR_QUEUE, LIBRARY_PROJECTION})
    ensures ok <==> AllSucceed(world, old(store.rows), HeldLeases(old(jobs.jobs), runs), scan, runs)
    ensures ok ==> Settles(world, old(store.rows), HeldLeases(old(jobs.jobs), runs), store.rows)
  {
    scan := [];
    ghost var start, rows, held := jobs.jobs, store.rows, HeldLeases(jobs.jobs, runs);
    ok := RequestsAndMovies(store, jobs, world, before, runs, newestWriteAt);
    if !ok {
      return;
    }
    ghost var between, moviesDone := jobs.jobs, store.rows;
    ok, scan := QueueAndLibrary(store, jobs, projection, world, before, runs, newestWriteAt);
    JobsInTwo(start, between, jobs.jobs, runs);
    if !ok {
      return;
    }
    RowsInTwo(world, rows, moviesDone, store.rows, held, scan, runs);
    ok := !runs.metadataFails;
  }

  /** A synced table is left alone; otherwise all steps have to succeed. */
  predicate BootstrapSucceeds(world: World, rows: Table, held: Leases, scan: seq<string>, runs: Runs) {
    ShouldBootstrap(rows, world.requests) ==> AllSucceed(world, rows, held, scan, runs)
  }

  ghost predicate BootstrapLeaves(world: World, rows: Table, held: Leases, after: Table) {
    if ShouldBootstrap(rows, world.requests) then Settles(world, rows, held, after) else after == rows
  }

  /** What the bootstrap does while it holds its lease. */
  method BootstrapIfNeeded(
    store: SceneIndexStore, jobs: SyncStateService, projection: LS.LibraryProjection, world: World,
    before: (string, string) -> bool, runs: Runs, newestWriteAt: Option<int>)
    returns (ok: bool, ghost scan: seq<string>)
    requires store.SummaryHolds() && CleanKeys(store.rows) && CleanMovies(world.movies)
    modifies store, jobs, projection
    ensures store.SummaryHolds() && CleanKeys(store.rows)
    ensures DerivedUnlessMovie(old(store.rows)) ==> DerivedUnlessMovie(store.rows)
    ensures Lookup(jobs.jobs, BOOTSTRAP) == Lookup(old(jobs.jobs), BOOTSTRAP)
    ensures ok == BootstrapSucceeds(world, old(store.rows), HeldLeases(old(jobs.jobs), runs), scan, runs)
    ensures ok ==> BootstrapLeaves(world, old(store.rows), HeldLeases(old(jobs.jobs), runs), store.rows)
  {
    store.EnsureSceneIndexSummary(newestWriteAt);
    if !ShouldBootstrap(store.rows, world.requests) {
      return true, [];
    }
    ok, scan := RunSyncs(store, jobs, projection, world, before, runs, newestWriteAt);
  }

  /** bootstrapIndex: does nothing while its own lease is held. */
  method BootstrapIndex(
    store: SceneIndexStore, jobs: SyncStateService, projection: LS.LibraryProjection, world: World,
    before: (string, string) -> bool, runs: Runs, newestWriteAt: Option<int>)
    returns (ok: bool, ghost scan: seq<string>)
    requires store.SummaryHolds() && CleanKeys(store.rows) && CleanMovies(world.movies)
    modifies store, jobs, projection
    ensures store.SummaryHolds() && CleanKeys(store.rows)
    ensures DerivedUnlessMovie(old(store.rows)) ==> DerivedUnlessMovie(store.rows)
    ensures Held(old(jobs.jobs), BOOTSTRAP, runs.now) ==>
              ok && store.rows == old(store.rows) && jobs.jobs == old(jobs.jobs)
    ensures !Held(old(jobs.jobs), BOOTSTRAP, runs.now) ==>
              && ok == (BootstrapSucceeds(world, old(store.rows), HeldLeases(old(jobs.jobs), runs), scan, runs) && !runs.recordThrows)
              && (ok ==> BootstrapLeaves(world, old(store.rows), HeldLeases(old(jobs.jobs), runs), store.rows))
              && Ended(jobs.jobs, BOOTSTRAP, ok)
  {
    var lease := jobs.TryAcquireLease(BOOTSTRAP, BOOTSTRAP_LEASE_MS, runs.now);
    if lease.None? {
      return true, [];
    }
    ClaimLeavesOthers(old(jobs.jobs), jobs.jobs, lease.value, runs);
    ok, scan := BootstrapIfNeeded(store, jobs, projection, world, before, runs, newestWriteAt);
    assert Lookup(jobs.jobs, BOOTSTRAP).Some?;
    ok := EndJob(jobs, BOOTSTRAP, ok, runs.recordThrows, runs.endedAt);
  }

  /** The job is unleased and marked with how its run ended. */
  predicate Ended(jobs: Jobs, job: JobName, ok: bool) {
    job in jobs && jobs[job].leaseUntil == None && jobs[job].status == if ok then SUCCEEDED else FAILED
  }

  method EndJob(jobs: SyncStateService, job: JobName, done: bool, recordThrows: bool, endedAt: int) returns (ok: bool)
    requires job in jobs.jobs
    modifies jobs
    ensures ok == (done && !recordThrows) && Ended(jobs.jobs, job, ok)
    ensures jobs.jobs == old(jobs.jobs)[job := EndedRow(old(jobs.jobs)[job], if ok then Answered(COUNTS) else Threw, false, endedAt)]
  {
    jobs.EndRun(job, if done then Answered(COUNTS) else Threw, recordThrows, endedAt);
    return done && !recordThrows;
  }

  lemma ClaimLeavesOthers(jobs: Jobs, claimed: Jobs, row: JobRow, runs: Runs)
    requires claimed == jobs[BOOTSTRAP := row]
    ensures HeldLeases(claimed, runs) == HeldLeases(jobs, runs)
  {
  }

  /** What the four syncs of one bootstrap leave. */
  ghost predicate RanInTurn(
    world: World, tables: seq<Table>, held: Leases, scan: seq<string>, times: Times)
  {
    && |tables| == 5
    && tables[1] == AfterRequestSync(tables[0], world.requests, times.requests)
    && Ran(world, tables[1], held.movies, MovieSync(times.movies), tables[2])
    && Ran(world, tables[2], held.queue, QueueSync(scan, times.queue), tables[3])
    && Ran(world, tables[3], held.library, LibrarySync(times.library), tables[4])
  }

  lemma StaysSettledInTurn(world: World, tables: seq<Table>, held: Leases, scan: seq<string>, times: Times)
    requires RanInTurn(world, tables, held, scan, times)
    ensures Regular(world) && Settled(world, tables[0]) ==> Settled(world, tables[4])
  {
    KeptBySync(world, tables[0], RequestSync(times.requests), tables[1]);
    KeptIfRan(world, tables[1], held.movies, MovieSync(times.movies), tables[2]);
    KeptIfRan(world, tables[2], held.queue, QueueSync(scan, times.queue), tables[3]);
    KeptIfRan(world, tables[3], held.library, LibrarySync(times.library), tables[4]);
  }

  lemma SettlesInTurn(world: World, tables: seq<Table>, scan: seq<string>, times: Times)
    requires RanInTurn(world, tables, Leases(false, false, false), scan, times)
    ensures Regular(world) && Consistent(world, tables[0]) ==> Settled(world, tables[4])
  {
    assert tables[2] == BeforeQueue(world, tables[0], times);
    assert tables[4] == Bootstrapped(world, tables[0], scan, times);
    if Regular(world) && Consistent(world, tables[0]) {
      BootstrapSettles(world, tables[0], scan, times);
    }
  }

  lemma BootstrapOutcome(
    world: World, start: Table, requested: Table, moviesDone: Table, queueDone: Table, end: Table,
    held: Leases, scan: seq<string>, times: Times)
    requires requested == AfterRequestSync(start, world.requests, times.requests)
    requires Ran(world, requested, held.movies, MovieSync(times.movies), moviesDone)
    requires Ran(world, moviesDone, held.queue, QueueSync(scan, times.queue), queueDone)
    requires Ran(world, queueDone, held.library, LibrarySync(times.library), end)
    ensures Regular(world) && Settled(world, start) ==> Settled(world, end)
    ensures held == Leases(false, false, false) && Regular(world) && Consistent(world, start) ==> Settled(world, end)
  {
    var tables := [start, requested, moviesDone, queueDone, end];
    assert RanInTurn(world, tables, held, scan, times);
    StaysSettledInTurn(world, tables, held, scan, times);
    if held == Leases(false, false, false) {
      SettlesInTurn(world, tables, scan, times);
    }
  }
}
