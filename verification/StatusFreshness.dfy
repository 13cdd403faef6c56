/** How long the syncs may take while unknown scenes count as not requested (indexing.service.ts, scene-status.service.ts). */
module StatusFreshness {
  import opened Basics
  import opened Text
  import opened SceneIndex
  import opened SyncState
  import opened RequestSync
  import opened IndexRefinement
  import opened StatusService
  import MS = MovieSync
  import QS = QueueSync
  import LS = LibrarySync

  /** How much older than the recorded success a row may be and still be read. */
  const REQUEST_SLACK_MS := INDEX_STATUS_MAX_AGE_MS - REQUEST_ROWS_FRESHNESS_MAX_AGE_MS
  const SNAPSHOT_SLACK_MS := INDEX_STATUS_MAX_AGE_MS - SNAPSHOT_FRESHNESS_MAX_AGE_MS

  /** The index and the job rows. */
  datatype Index = Index(rows: Table, jobs: Jobs)

  /** One run of a sync, which stamps what it writes with its start, `sync.now`, and writes at its end; an interrupted
      one writes some of its scenes and records no success. */
  datatype Run = Run(sync: Sync, endedAt: int, complete: bool)

  /** The longest run of each sync. */
  datatype Lengths = Lengths(requests: nat, movies: nat, queue: nat, library: nat)

  function JobOf(sync: Sync): JobName {
    match sync
    case RequestSync(_) => REQUEST_ROWS
    case MovieSync(_) => WHISPARR_MOVIES
    case QueueSync(_, _) => WHISPARR_QUEUE
    case LibrarySync(_) => LIBRARY_PROJECTION
  }

  function LongestOf(lengths: Lengths, sync: Sync): nat {
    match sync
    case RequestSync(_) => lengths.requests
    case MovieSync(_) => lengths.movies
    case QueueSync(_, _) => lengths.queue
    case LibrarySync(_) => lengths.library
  }

  /** Rows are still read when their scenes' syncs count as fresh. */
  predicate ShortEnough(lengths: Lengths) {
    && lengths.requests <= REQUEST_SLACK_MS && lengths.movies <= SNAPSHOT_SLACK_MS
    && lengths.queue <= SNAPSHOT_SLACK_MS && lengths.library <= SNAPSHOT_SLACK_MS
  }

  predicate Succeeded(jobs: Jobs, job: JobName) {
    job in jobs && jobs[job].status == SUCCEEDED && jobs[job].lastSuccessAt.Some?
  }

  function Recorded(jobs: Jobs, job: JobName, at: int): Jobs {
    jobs[job := SucceededRow(Lookup(jobs, job), SuccessInput(None, None, None, None, None), at)]
  }

  ghost predicate PartlyWritten(before: Table, whole: Table, after: Table) {
    forall id :: Lookup(after, id) == Lookup(before, id) || Lookup(after, id) == Lookup(whole, id)
  }

  ghost predicate Ran(world: World, s: Index, run: Run, t: Index) {
    && CanRun(s.rows, run.sync)
    && if run.complete then
         t == Index(AfterSync(world, s.rows, run.sync), Recorded(s.jobs, JobOf(run.sync), run.endedAt))
       else
         && PartlyWritten(s.rows, AfterSync(world, s.rows, run.sync), t.rows)
         && forall job :: Succeeded(t.jobs, job) ==> Lookup(t.jobs, job) == Lookup(s.jobs, job)
  }

  ghost predicate Timed(lengths: Lengths, runs: seq<Run>) {
    && (forall n :: 0 <= n < |runs| ==> RunTimed(lengths, runs[n]))
    && (forall n :: 0 < n < |runs| ==> runs[n - 1].endedAt <= runs[n].endedAt)
  }

  predicate RunTimed(lengths: Lengths, run: Run) {
    run.sync.now <= run.endedAt <= run.sync.now + LongestOf(lengths, run.sync)
  }

  /** Runs of all syncs over sources that hold still, in the order in which they end, overlapping as they may. No job
      has succeeded before the first. */
  ghost predicate History(world: World, lengths: Lengths, trace: seq<Index>, runs: seq<Run>) {
    && |trace| == |runs| + 1 && CleanKeys(trace[0].rows) && (forall job :: !Succeeded(trace[0].jobs, job))
    && (forall n :: 0 <= n < |runs| ==> Ran(world, trace[n], runs[n], trace[n + 1]))
    && Timed(lengths, runs)
  }

  function StampOf(rows: Table, id: string): Option<int> {
    if id in rows then rows[id].columns.lastSyncedAt else None
  }

  /** The sync writes the scene for certain. */
  predicate Covers(world: World, sync: Sync, id: string) {
    match sync
    case RequestSync(_) => StatusOf(world, id).Some?
    case MovieSync(_) => MovieFor(world, id).Some?
    case QueueSync(_, _) => false
    case LibrarySync(_) => InLibrary(world, id)
  }

  /** A sync stamps what it writes with its start, writes every scene it covers, and only requested ones if it is the
      request sync. */
  ghost predicate Stamps(world: World, rows: Table, sync: Sync, id: string) {
    var after := AfterSync(world, rows, sync);
    && (Lookup(after, id) == Lookup(rows, id) || StampOf(after, id) == Some(sync.now))
    && (Covers(world, sync, id) ==> StampOf(after, id) == Some(sync.now))
    && (sync.RequestSync? && StatusOf(world, id).None? ==> Lookup(after, id) == Lookup(rows, id))
  }

  lemma RequestStamps(world: World, rows: Table, now: int, id: string)
    requires Regular(world)
    ensures Stamps(world, rows, RequestSync(now), id)
  {
    RequestsApplied(rows, world.requests, id, now);
  }

  lemma MovieStamps(world: World, rows: Table, now: int, id: string)
    requires Regular(world) && CleanId(id)
    ensures Stamps(world, rows, MovieSync(now), id)
  {
    MS.AfterAt(rows, world.movies, now, id);
  }

  lemma QueueStamps(world: World, rows: Table, scan: seq<string>, now: int, id: string)
    requires Regular(world) && CleanKeys(rows) && Lists(scan, rows.Keys)
    ensures Stamps(world, rows, QueueSync(scan, now), id)
    ensures QS.QueuedFor(rows, scan, Finder(world), QS.MovieIds(world.queue), id).Some? ==>
              StampOf(AfterSync(world, rows, QueueSync(scan, now)), id) == Some(now)
  {
    FinderAnswers(world);
    var patch := QS.AfterQueueSyncAt(rows, scan, Finder(world), world.queue, now, id);
  }

  lemma LibraryStamps(world: World, rows: Table, now: int, id: string)
    requires Regular(world) && CleanId(id)
    ensures Stamps(world, rows, LibrarySync(now), id)
  {
    WholeLibraryRead(world);
    SeenIsInLibrary(world, id);
    LS.AfterAvailabilityAt(rows, LS.ActiveIds(world.library, Some(world.provider)), now, id);
  }

  lemma SyncStamps(world: World, rows: Table, sync: Sync, id: string)
    requires Regular(world) && CleanKeys(rows) && CanRun(rows, sync) && CleanId(id)
    ensures Stamps(world, rows, sync, id)
  {
    match sync
    case RequestSync(now) => RequestStamps(world, rows, now, id);
    case MovieSync(now) => MovieStamps(world, rows, now, id);
    case QueueSync(scan, now) => QueueStamps(world, rows, scan, now, id);
    case LibrarySync(now) => LibraryStamps(world, rows, now, id);
  }

  /** The scene's row is stamped no earlier than `slack` before the job's recorded success. */
  predicate Within(s: Index, id: string, job: JobName, slack: int) {
    Succeeded(s.jobs, job) ==>
      StampOf(s.rows, id).Some? && s.jobs[job].lastSuccessAt.value <= StampOf(s.rows, id).value + slack
  }

  /** A requested scene keeps up with the request rows, any other one with the snapshots that bring it in. */
  predicate KeepsUp(world: World, s: Index, id: string) {
    if StatusOf(world, id).Some? then Within(s, id, REQUEST_ROWS, REQUEST_SLACK_MS)
    else
      && (MovieFor(world, id).Some? ==> Within(s, id, WHISPARR_MOVIES, SNAPSHOT_SLACK_MS))
      && (InLibrary(world, id) ==> Within(s, id, LIBRARY_PROJECTION, SNAPSHOT_SLACK_MS))
  }

  ghost predicate RecordedBy(jobs: Jobs, clock: int) {
    forall job :: Succeeded(jobs, job) ==> jobs[job].lastSuccessAt.value <= clock
  }

  lemma WithinAfter(
    world: World, lengths: Lengths, s: Index, run: Run, t: Index, id: string, job: JobName, slack: int)
    requires Ran(world, s, run, t) && Stamps(world, s.rows, run.sync, id) && RunTimed(lengths, run)
    requires RecordedBy(s.jobs, run.endedAt) && Within(s, id, job, slack)
    requires JobOf(run.sync) == job ==> Covers(world, run.sync, id)
    requires || LongestOf(lengths, run.sync) <= slack
             || (JobOf(run.sync) != job && Lookup(AfterSync(world, s.rows, run.sync), id) == Lookup(s.rows, id))
    ensures Within(t, id, job, slack)
  {
    if Succeeded(t.jobs, job) && !(run.complete && JobOf(run.sync) == job) {
      assert Lookup(t.jobs, job) == Lookup(s.jobs, job);
      assert Lookup(t.rows, id) == Lookup(s.rows, id) || StampOf(t.rows, id) == Some(run.sync.now);
    }
  }

  lemma KeepsUpAfter(world: World, lengths: Lengths, s: Index, run: Run, t: Index, id: string)
    requires Ran(world, s, run, t) && Stamps(world, s.rows, run.sync, id) && RunTimed(lengths, run)
    requires RecordedBy(s.jobs, run.endedAt) && KeepsUp(world, s, id) && ShortEnough(lengths)
    ensures KeepsUp(world, t, id)
  {
    if StatusOf(world, id).Some? {
      WithinAfter(world, lengths, s, run, t, id, REQUEST_ROWS, REQUEST_SLACK_MS);
    } else {
      if MovieFor(world, id).Some? {
        WithinAfter(world, lengths, s, run, t, id, WHISPARR_MOVIES, SNAPSHOT_SLACK_MS);
      }
      if InLibrary(world, id) {
        WithinAfter(world, lengths, s, run, t, id, LIBRARY_PROJECTION, SNAPSHOT_SLACK_MS);
      }
    }
  }

  lemma RowsStayClean(world: World, s: Index, run: Run, t: Index)
    requires Regular(world) && CleanKeys(s.rows) && Ran(world, s, run, t)
    ensures CleanKeys(t.rows)
  {
    SyncKeepsCleanKeys(world, s.rows, run.sync);
    forall id | id in t.rows ensures CleanId(id) {
      if !run.complete {
        assert Lookup(t.rows, id) == Lookup(s.rows, id) || Lookup(t.rows, id) == Lookup(AfterSync(world, s.rows, run.sync), id);
      }
    }
  }

  lemma JobsRecorded(world: World, s: Index, run: Run, t: Index)
    requires Ran(world, s, run, t) && RecordedBy(s.jobs, run.endedAt)
    ensures RecordedBy(t.jobs, run.endedAt)
  {
    forall job | Succeeded(t.jobs, job) ensures t.jobs[job].lastSuccessAt.value <= run.endedAt {
      if !(run.complete && JobOf(run.sync) == job) {
        assert Lookup(t.jobs, job) == Lookup(s.jobs, job);
      }
    }
  }

  ghost predicate UpToDate(world: World, s: Index) {
    CleanKeys(s.rows) && forall id :: CleanId(id) ==> KeepsUp(world, s, id)
  }

  lemma StepKeepsUp(world: World, lengths: Lengths, s: Index, run: Run, t: Index)
    requires Regular(world) && ShortEnough(lengths) && RunTimed(lengths, run)
    requires Ran(world, s, run, t) && RecordedBy(s.jobs, run.endedAt) && UpToDate(world, s)
    ensures UpToDate(world, t) && RecordedBy(t.jobs, run.endedAt)
  {
    RowsStayClean(world, s, run, t);
    JobsRecorded(world, s, run, t);
    forall id | CleanId(id) ensures KeepsUp(world, t, id) {
      SyncStamps(world, s.rows, run.sync, id);
      KeepsUpAfter(world, lengths, s, run, t, id);
    }
  }

  lemma {:induction false} StaysUpToDate(world: World, lengths: Lengths, trace: seq<Index>, runs: seq<Run>, n: nat)
    requires Regular(world) && ShortEnough(lengths) && History(world, lengths, trace, runs) && n < |trace|
    ensures UpToDate(world, trace[n]) && (n > 0 ==> RecordedBy(trace[n].jobs, runs[n - 1].endedAt))
  {
    if n > 0 {
      StaysUpToDate(world, lengths, trace, runs, n - 1);
      assert Ran(world, trace[n - 1], runs[n - 1], trace[n - 1 + 1]) && RunTimed(lengths, runs[n - 1]);
      assert n > 1 ==> runs[n - 1 - 1].endedAt <= runs[n - 1].endedAt;
      StepKeepsUp(world, lengths, trace[n - 1], runs[n - 1], trace[n]);
    }
  }

  /** A reader over the index. */
  ghost predicate ReadsIndex(src: Sources, world: World, s: Index) {
    Reads(src, world) && src.rows == s.rows && src.jobs == s.jobs
  }

  lemma KnownIsFresh(src: Sources, world: World, s: Index, id: string)
    requires ReadsIndex(src, world, s) && KeepsUp(world, s, id) && UnknownIsNotRequested(src)
    requires StatusOf(world, id).Some? || MovieFor(world, id).Some? || InLibrary(world, id)
    ensures Fresh(src, id)
  {
  }

  lemma UpToDateIsLive(src: Sources, world: World, s: Index, id: string)
    requires ReadsIndex(src, world, s) && KeepsUp(world, s, id) && CleanId(id)
    ensures ResolveForScene(src, id) == Live(world, id)
  {
    EveryPathIsLive(src, world, id);
    if UnknownIsNotRequested(src) && id in src.rows && !Fresh(src, id) {
      assert IsLive(world, id, src.rows[id]);
      if StatusOf(world, id).Some? || MovieFor(world, id).Some? || InLibrary(world, id) {
        KnownIsFresh(src, world, s, id);
      }
    }
  }

  /** With runs short enough every read of a live index is live, at any time and on every path: no row that would be
      answered as not requested is out of date while unknown scenes count as not requested. */
  lemma ReadsAreLive(
    world: World, lengths: Lengths, trace: seq<Index>, runs: seq<Run>, n: nat, src: Sources, id: string)
    requires Regular(world) && ShortEnough(lengths) && History(world, lengths, trace, runs) && n < |trace|
    requires ReadsIndex(src, world, trace[n]) && CleanId(id)
    ensures ResolveForScene(src, id) == Live(world, id)
  {
    StaysUpToDate(world, lengths, trace, runs, n);
    UpToDateIsLive(src, world, trace[n], id);
  }
}
