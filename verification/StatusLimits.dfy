/** The run lengths of StatusFreshness are the longest that keep every read live. */
module StatusLimits {
  import opened Basics
  import opened Text
  import opened SceneStatusResolver
  import opened SceneIndex
  import opened CatalogRefs
  import opened SyncState
  import opened RequestSync
  import opened IndexRefinement
  import opened StatusService
  import opened StatusFreshness
  import QC = QueueColumns
  import QS = QueueSync
  import LS = LibrarySync
  import IH = IndexHistory

  /** A read of a live index at the end of some runs. */
  ghost predicate Reading(
    world: World, lengths: Lengths, trace: seq<Index>, runs: seq<Run>, src: Sources, id: string)
  {
    Regular(world) && History(world, lengths, trace, runs) && trace != [] && ReadsIndex(src, world, LastOf(trace)) && CleanId(id)
  }

  ghost predicate AlwaysLive(lengths: Lengths) {
    forall world, trace, runs, src, id :: Reading(world, lengths, trace, runs, src, id) ==> ResolveForScene(src, id) == Live(world, id)
  }

  function LastOf(trace: seq<Index>): Index
    requires trace != []
  {
    trace[|trace| - 1]
  }

  /** The last of the runs is over by `clock`. */
  predicate OverBy(runs: seq<Run>, clock: int) {
    runs != [] ==> runs[|runs| - 1].endedAt <= clock
  }

  /** Runs after which the index is settled, the last of them over by `clock`. */
  ghost predicate Ready(world: World, lengths: Lengths, trace: seq<Index>, runs: seq<Run>, clock: int) {
    History(world, lengths, trace, runs) && Settled(world, LastOf(trace).rows) && OverBy(runs, clock)
  }

  function AfterRun(world: World, s: Index, run: Run): Index {
    Index(AfterSync(world, s.rows, run.sync), Recorded(s.jobs, JobOf(run.sync), run.endedAt))
  }

  lemma TimedSnoc(lengths: Lengths, runs: seq<Run>, run: Run)
    requires Timed(lengths, runs) && RunTimed(lengths, run) && OverBy(runs, run.endedAt)
    ensures Timed(lengths, runs + [run])
  {
  }

  lemma OneMore(world: World, lengths: Lengths, trace: seq<Index>, runs: seq<Run>, run: Run)
    returns (longer: seq<Index>, more: seq<Run>)
    requires History(world, lengths, trace, runs) && OverBy(runs, run.endedAt)
    requires run.complete && RunTimed(lengths, run) && CanRun(LastOf(trace).rows, run.sync)
    ensures History(world, lengths, longer, more) && OverBy(more, run.endedAt)
    ensures LastOf(longer) == AfterRun(world, LastOf(trace), run)
  {
    longer, more := trace + [AfterRun(world, LastOf(trace), run)], runs + [run];
    TimedSnoc(lengths, runs, run);
    forall n | 0 <= n < |more| ensures Ran(world, longer[n], more[n], longer[n + 1]) {
      if n < |runs| {
        assert Ran(world, trace[n], runs[n], trace[n + 1]);
      }
    }
  }

  lemma RunMore(world: World, lengths: Lengths, trace: seq<Index>, runs: seq<Run>, run: Run)
    returns (longer: seq<Index>, more: seq<Run>)
    requires Regular(world) && Ready(world, lengths, trace, runs, run.endedAt)
    requires run.complete && RunTimed(lengths, run) && CanRun(LastOf(trace).rows, run.sync)
    ensures Ready(world, lengths, longer, more, run.endedAt)
    ensures LastOf(longer) == AfterRun(world, LastOf(trace), run)
  {
    longer, more := OneMore(world, lengths, trace, runs, run);
    SyncKeepsSettled(world, LastOf(trace).rows, run.sync);
  }

  /** The request and the movie sync, both at time zero, over an empty index. */
  lemma HalfStarted(world: World, lengths: Lengths) returns (trace: seq<Index>, runs: seq<Run>)
    requires Regular(world)
    ensures History(world, lengths, trace, runs) && OverBy(runs, 0)
    ensures LastOf(trace).rows == BeforeQueue(world, map[], Times(0, 0, 0, 0))
  {
    trace, runs := [Index(map[], map[])], [];
    trace, runs := OneMore(world, lengths, trace, runs, Run(RequestSync(0), 0, true));
    trace, runs := OneMore(world, lengths, trace, runs, Run(MovieSync(0), 0, true));
  }

  /** The four syncs of a bootstrap, all at time zero. */
  lemma Started(world: World, lengths: Lengths) returns (trace: seq<Index>, runs: seq<Run>)
    requires Regular(world)
    ensures Ready(world, lengths, trace, runs, 0)
  {
    var times := Times(0, 0, 0, 0);
    trace, runs := HalfStarted(world, lengths);
    var scan := IH.Order(LastOf(trace).rows.Keys);
    StartSettles(world, scan, times);
    BootstrapInTwo(world, map[], scan, times);
    trace, runs := OneMore(world, lengths, trace, runs, Run(QueueSync(scan, 0), 0, true));
    trace, runs := OneMore(world, lengths, trace, runs, Run(LibrarySync(0), 0, true));
  }

  lemma StartSettles(world: World, scan: seq<string>, times: Times)
    requires Regular(world) && Lists(scan, BeforeQueue(world, map[], times).Keys)
    ensures Settled(world, Bootstrapped(world, map[], scan, times))
  {
    EmptyIsConsistent(world);
    BootstrapSettles(world, map[], scan, times);
  }

  /** The job's last success was at the given time. */
  predicate SucceededAt(s: Index, job: JobName, at: int) {
    Succeeded(s.jobs, job) && s.jobs[job].lastSuccessAt == Some(at)
  }

  lemma RunRecorded(world: World, s: Index, run: Run, job: JobName, at: int)
    requires if JobOf(run.sync) == job then run.endedAt == at else SucceededAt(s, job, at)
    ensures SucceededAt(AfterRun(world, s, run), job, at)
  {
  }

  /** A movie and a library run that begin and end at the given time. */
  lemma SnapshotsTaken(world: World, lengths: Lengths, at: nat) returns (trace: seq<Index>, runs: seq<Run>)
    requires Regular(world)
    ensures Ready(world, lengths, trace, runs, at)
    ensures SucceededAt(LastOf(trace), WHISPARR_MOVIES, at) && SucceededAt(LastOf(trace), LIBRARY_PROJECTION, at)
  {
    var movies, library := Run(MovieSync(at), at, true), Run(LibrarySync(at), at, true);
    trace, runs := Started(world, lengths);
    RunRecorded(world, LastOf(trace), movies, WHISPARR_MOVIES, at);
    trace, runs := RunMore(world, lengths, trace, runs, movies);
    RunRecorded(world, LastOf(trace), library, WHISPARR_MOVIES, at);
    RunRecorded(world, LastOf(trace), library, LIBRARY_PROJECTION, at);
    trace, runs := RunMore(world, lengths, trace, runs, library);
  }

  /** A reader of the index at the given time. */
  lemma ReaderOf(world: World, s: Index, now: int) returns (src: Sources)
    requires Settled(world, s.rows)
    ensures ReadsIndex(src, world, s) && src.now == now
  {
    var ids := set i | 0 <= i < |world.requests| :: world.requests[i].stashId;
    forall id | StatusOf(world, id).Some? ensures id in ids {
      RequestListed(world.requests, id);
    }
    var requests := map id | id in ids && StatusOf(world, id).Some? :: StatusOf(world, id).value;
    var whisparr := Whisparr((id: string) => Answered(MovieFor(world, id)), Answered(world.queue));
    src := Sources(s.rows, now, s.jobs, true, requests, Some((id: string) => Answered(InLibrary(world, id))), Some(whisparr));
    SettledRefines(world, s.rows);
  }

  lemma {:induction false} RequestListed(requests: seq<RequestRow>, id: string)
    requires RequestOf(requests, id).Some?
    ensures exists i :: 0 <= i < |requests| && requests[i].stashId == id
  {
    var n := |requests| - 1;
    if requests[n].stashId != id {
      RequestListed(requests[..n], id);
      var i :| 0 <= i < n && requests[..n][i].stashId == id;
      assert requests[i].stashId == id;
    }
  }

  /** A known scene whose row is too old is answered as not requested while the syncs count as fresh. */
  lemma OldRowIsHidden(world: World, s: Index, src: Sources, id: string)
    requires ReadsIndex(src, world, s) && CleanId(id) && UnknownIsNotRequested(src)
    requires StampOf(s.rows, id).Some? && src.now - StampOf(s.rows, id).value > INDEX_STATUS_MAX_AGE_MS
    ensures ResolveForScene(src, id) == NotRequested
  {
    assert Trim(id) == id;
  }

  /** A run that began at time zero, wrote the scene last and has succeeded. */
  ghost predicate LongRun(world: World, lengths: Lengths, trace: seq<Index>, runs: seq<Run>, id: string, at: nat) {
    && Ready(world, lengths, trace, runs, at)
    && StampOf(LastOf(trace).rows, id) == Some(0)
    && SucceededAt(LastOf(trace), WHISPARR_MOVIES, at) && SucceededAt(LastOf(trace), LIBRARY_PROJECTION, at)
  }

  lemma RunLong(world: World, lengths: Lengths, trace: seq<Index>, runs: seq<Run>, sync: Sync, id: string, at: nat)
    returns (longer: seq<Index>, more: seq<Run>)
    requires Regular(world) && Ready(world, lengths, trace, runs, at) && CanRun(LastOf(trace).rows, sync)
    requires SucceededAt(LastOf(trace), WHISPARR_MOVIES, at) && SucceededAt(LastOf(trace), LIBRARY_PROJECTION, at)
    requires sync.now == 0 && at <= LongestOf(lengths, sync)
    requires StampOf(AfterSync(world, LastOf(trace).rows, sync), id) == Some(0)
    ensures LongRun(world, lengths, longer, more, id, at)
    ensures SucceededAt(LastOf(longer), JobOf(sync), at)
  {
    var run := Run(sync, at, true);
    longer, more := RunMore(world, lengths, trace, runs, run);
    RunRecorded(world, LastOf(trace), run, WHISPARR_MOVIES, at);
    RunRecorded(world, LastOf(trace), run, LIBRARY_PROJECTION, at);
    RunRecorded(world, LastOf(trace), run, JobOf(sync), at);
  }

  lemma SyncsCountAsFresh(src: Sources, s: Index, requestAt: int, snapshotAt: int)
    requires src.jobs == s.jobs && SucceededAt(s, REQUEST_ROWS, requestAt)
    requires SucceededAt(s, WHISPARR_MOVIES, snapshotAt) && SucceededAt(s, LIBRARY_PROJECTION, snapshotAt)
    requires src.now <= requestAt + REQUEST_ROWS_FRESHNESS_MAX_AGE_MS && src.now <= snapshotAt + SNAPSHOT_FRESHNESS_MAX_AGE_MS
    ensures UnknownIsNotRequested(src)
  {
  }

  /** A last request run that leaves the scene alone. */
  lemma RequestsTaken(world: World, lengths: Lengths, trace: seq<Index>, runs: seq<Run>, id: string, at: nat, now: int)
    returns (longer: seq<Index>, more: seq<Run>)
    requires Regular(world) && LongRun(world, lengths, trace, runs, id, at) && StatusOf(world, id).None? && at <= now
    ensures Ready(world, lengths, longer, more, now) && StampOf(LastOf(longer).rows, id) == Some(0)
    ensures SucceededAt(LastOf(longer), WHISPARR_MOVIES, at) && SucceededAt(LastOf(longer), LIBRARY_PROJECTION, at)
    ensures SucceededAt(LastOf(longer), REQUEST_ROWS, now)
  {
    var request := Run(RequestSync(now), now, true);
    longer, more := RunMore(world, lengths, trace, runs, request);
    RunRecorded(world, LastOf(trace), request, WHISPARR_MOVIES, at);
    RunRecorded(world, LastOf(trace), request, LIBRARY_PROJECTION, at);
    RunRecorded(world, LastOf(trace), request, REQUEST_ROWS, now);
    RequestStamps(world, LastOf(trace).rows, now, id);
  }

  /** A movie, queue or library run longer than the snapshots' slack hides a scene it writes. */
  lemma LongSnapshotHides(world: World, lengths: Lengths, trace: seq<Index>, runs: seq<Run>, id: string, at: nat)
    returns (longer: seq<Index>, more: seq<Run>, src: Sources)
    requires Regular(world) && LongRun(world, lengths, trace, runs, id, at) && CleanId(id) && at > SNAPSHOT_SLACK_MS
    requires StatusOf(world, id).None?
    ensures Reading(world, lengths, longer, more, src, id) && ResolveForScene(src, id) == NotRequested
  {
    var now := at + SNAPSHOT_FRESHNESS_MAX_AGE_MS;
    longer, more := RequestsTaken(world, lengths, trace, runs, id, at, now);
    src := ReaderOf(world, LastOf(longer), now);
    SyncsCountAsFresh(src, LastOf(longer), now, at);
    OldRowIsHidden(world, LastOf(longer), src, id);
  }

  lemma LongMovieRun(world: World, lengths: Lengths, id: string) returns (trace: seq<Index>, runs: seq<Run>, src: Sources)
    requires Regular(world) && CleanId(id) && StatusOf(world, id).None?
    requires MovieFor(world, id).Some? && lengths.movies > SNAPSHOT_SLACK_MS
    ensures Reading(world, lengths, trace, runs, src, id) && ResolveForScene(src, id) == NotRequested
  {
    var at := SNAPSHOT_SLACK_MS + 1;
    trace, runs := SnapshotsTaken(world, lengths, at);
    MovieStamps(world, LastOf(trace).rows, 0, id);
    trace, runs := RunLong(world, lengths, trace, runs, MovieSync(0), id, at);
    trace, runs, src := LongSnapshotHides(world, lengths, trace, runs, id, at);
  }

  lemma LongQueueRun(world: World, lengths: Lengths, id: string) returns (trace: seq<Index>, runs: seq<Run>, src: Sources)
    requires Regular(world) && CleanId(id) && StatusOf(world, id).None?
    requires MovieFor(world, id).Some? && MovieFor(world, id).value.movieId in QS.MovieIds(world.queue)
    requires lengths.queue > SNAPSHOT_SLACK_MS
    ensures Reading(world, lengths, trace, runs, src, id) && ResolveForScene(src, id) == NotRequested
  {
    var at := SNAPSHOT_SLACK_MS + 1;
    trace, runs := SnapshotsTaken(world, lengths, at);
    var scan := IH.Order(LastOf(trace).rows.Keys);
    QueuedIsStamped(world, LastOf(trace).rows, scan, id);
    trace, runs := RunLong(world, lengths, trace, runs, QueueSync(scan, 0), id, at);
    trace, runs, src := LongSnapshotHides(world, lengths, trace, runs, id, at);
  }

  lemma LongLibraryPass(world: World, lengths: Lengths, id: string) returns (trace: seq<Index>, runs: seq<Run>, src: Sources)
    requires Regular(world) && CleanId(id) && StatusOf(world, id).None?
    requires InLibrary(world, id) && lengths.library > SNAPSHOT_SLACK_MS
    ensures Reading(world, lengths, trace, runs, src, id) && ResolveForScene(src, id) == NotRequested
  {
    var at := SNAPSHOT_SLACK_MS + 1;
    trace, runs := SnapshotsTaken(world, lengths, at);
    LibraryStamps(world, LastOf(trace).rows, 0, id);
    trace, runs := RunLong(world, lengths, trace, runs, LibrarySync(0), id, at);
    trace, runs, src := LongSnapshotHides(world, lengths, trace, runs, id, at);
  }

  lemma LongRequestRun(world: World, lengths: Lengths, id: string) returns (trace: seq<Index>, runs: seq<Run>, src: Sources)
    requires Regular(world) && CleanId(id) && StatusOf(world, id).Some? && lengths.requests > REQUEST_SLACK_MS
    ensures Reading(world, lengths, trace, runs, src, id) && ResolveForScene(src, id) == NotRequested
  {
    var at := REQUEST_SLACK_MS + 1;
    trace, runs := SnapshotsTaken(world, lengths, at);
    RequestStamps(world, LastOf(trace).rows, 0, id);
    trace, runs := RunLong(world, lengths, trace, runs, RequestSync(0), id, at);
    src := ReaderOf(world, LastOf(trace), at + REQUEST_ROWS_FRESHNESS_MAX_AGE_MS);
    SyncsCountAsFresh(src, LastOf(trace), at, at);
    OldRowIsHidden(world, LastOf(trace), src, id);
  }

  /** A request run longer than its slack hides a requested scene. */
  lemma LongRequestRunHides(id: string, provider: ProviderKey, lengths: Lengths) returns (
      world: World, trace: seq<Index>, runs: seq<Run>, src: Sources)
    requires CleanId(id) && lengths.requests > REQUEST_SLACK_MS
    ensures Reading(world, lengths, trace, runs, src, id)
    ensures Live(world, id) == Requested && ResolveForScene(src, id) == NotRequested
  {
    world := World([RequestRow(id, RequestStatus.REQUESTED, 0)], [], [], [], provider);
    NoQueueRegular(world);
    OneRequest(world.requests, id);
    trace, runs, src := LongRequestRun(world, lengths, id);
  }

  lemma OneRequest(requests: seq<RequestRow>, id: string)
    requires |requests| == 1
    ensures RequestOf(requests, id) == if requests[0].stashId == id then Some(requests[0]) else None
  {
  }

  /** Sources without a queue, with at most one scene in each list. */
  lemma NoQueueRegular(world: World)
    requires world.queue == [] && |world.requests| <= 1 && |world.movies| <= 1 && |world.library| <= 1
    requires forall i :: 0 <= i < |world.requests| ==> CleanId(world.requests[i].stashId)
    requires CleanMovies(world.movies)
    requires forall i :: 0 <= i < |world.library| ==> OneIdFor(world.library[i].refs, world.provider)
    ensures Regular(world)
  {
    forall m ensures QC.Faithful(QC.Readings(QS.Group(world.queue, m))) {
      assert QS.Group(world.queue, m) == [];
    }
  }

  /** A movie run longer than its slack hides a scene with a movie. */
  lemma LongMovieRunHides(id: string, provider: ProviderKey, lengths: Lengths) returns (
      world: World, trace: seq<Index>, runs: seq<Run>, src: Sources)
    requires CleanId(id) && lengths.movies > SNAPSHOT_SLACK_MS
    ensures Reading(world, lengths, trace, runs, src, id)
    ensures Live(world, id) == Requested && ResolveForScene(src, id) == NotRequested
  {
    world := IH.OneMovie(1, id, provider);
    IH.OneMovieRegular(1, id, provider);
    trace, runs, src := LongMovieRun(world, lengths, id);
  }

  /** A library pass longer than its slack hides an available scene. */
  lemma LongLibraryPassHides(id: string, provider: ProviderKey, lengths: Lengths) returns (
      world: World, trace: seq<Index>, runs: seq<Run>, src: Sources)
    requires CleanId(id) && lengths.library > SNAPSHOT_SLACK_MS
    ensures Reading(world, lengths, trace, runs, src, id)
    ensures Live(world, id) == Available && ResolveForScene(src, id) == NotRequested
  {
    BuiltRefParses(provider, id);
    var ref := BuildCatalogSceneRef(provider, Some(id)).value;
    world := World([], [], [], [LS.LibraryScene(id, [ref], "")], provider);
    OneRefInLibrary(world, id, ref);
    NoQueueRegular(world);
    trace, runs, src := LongLibraryPass(world, lengths, id);
  }

  lemma OneRefInLibrary(world: World, id: string, ref: string)
    requires CleanId(id) && |world.library| == 1 && world.library[0] == LS.LibraryScene(id, [ref], "")
    requires IdIn(world.provider, ref) == Some(id)
    ensures InLibrary(world, id) && OneIdFor([ref], world.provider)
  {
    var ids := MapSeq(IdFinder(world.provider), [ref]);
    assert ids[0] == Some(id);
    assert Trim(id) == id;
  }

  lemma LongQueueRunHides(id: string, provider: ProviderKey, lengths: Lengths) returns (
      world: World, trace: seq<Index>, runs: seq<Run>, src: Sources)
    requires CleanId(id) && lengths.queue > SNAPSHOT_SLACK_MS
    ensures Reading(world, lengths, trace, runs, src, id)
    ensures Live(world, id) != NotRequested && ResolveForScene(src, id) == NotRequested
  {
    world := IH.OneMovie(1, id, provider).(queue := [QueueItem(1, None, None, None, None)]);
    QueuedMovieRegular(world, id, provider);
    trace, runs, src := LongQueueRun(world, lengths, id);
  }

  lemma QueuedMovieRegular(world: World, id: string, provider: ProviderKey)
    requires CleanId(id) && world == IH.OneMovie(1, id, provider).(queue := [QueueItem(1, None, None, None, None)])
    ensures Regular(world) && MovieFor(world, id) == Some(Movie(1, id, false)) && 1 in QS.MovieIds(world.queue)
  {
    IH.OneMovieRegular(1, id, provider);
    forall m ensures QC.Faithful(QC.Readings(QS.Group(world.queue, m))) {
      OneItemFaithful(world.queue, m);
    }
    assert world.queue[0].movieId == 1;
  }

  lemma OneItemFaithful(queue: seq<QueueItem>, m: int)
    requires |queue| == 1
    ensures QC.Faithful(QC.Readings(QS.Group(queue, m)))
  {
    assert queue[..0] == [];
    assert |QS.Group(queue, m)| <= 1;
  }

  lemma QueuedIsStamped(world: World, rows: Table, scan: seq<string>, id: string)
    requires Regular(world) && Settled(world, rows) && Lists(scan, rows.Keys) && CleanId(id)
    requires MovieFor(world, id).Some? && MovieFor(world, id).value.movieId in QS.MovieIds(world.queue)
    ensures StampOf(AfterSync(world, rows, QueueSync(scan, 0)), id) == Some(0)
  {
    SettledAsQueue(world, rows);
    SettledAsMovies(world, rows);
    MoviesOwned(world, rows);
    MovieOfRow(world, rows, id);
    QS.QueuedForOwner(rows, scan, Finder(world), QS.MovieIds(world.queue), id);
    QueueStamps(world, rows, scan, 0, id);
  }

  lemma Hides(world: World, lengths: Lengths, trace: seq<Index>, runs: seq<Run>, src: Sources, id: string)
    requires Reading(world, lengths, trace, runs, src, id) && ResolveForScene(src, id) != Live(world, id)
    ensures !AlwaysLive(lengths)
  {
  }

  lemma LetterIsClean() returns (id: string)
    ensures CleanId(id)
  {
    id := "a";
  }

  /** Reads of a live index are live at all times, over all sources and runs, exactly while request runs take at most
      twenty-eight minutes and the other syncs at most ten. */
  lemma LimitsAreExact(lengths: Lengths)
    ensures AlwaysLive(lengths) <==> ShortEnough(lengths)
  {
    if ShortEnough(lengths) {
      forall world, trace, runs, src, id | Reading(world, lengths, trace, runs, src, id)
        ensures ResolveForScene(src, id) == Live(world, id)
      {
        ReadsAreLive(world, lengths, trace, runs, |trace| - 1, src, id);
      }
    } else {
      var id := LetterIsClean();
      TooLong(lengths, id);
    }
  }

  lemma TooLong(lengths: Lengths, id: string)
    requires !ShortEnough(lengths) && CleanId(id)
    ensures !AlwaysLive(lengths)
  {
    var world, trace, runs, src;
    if lengths.requests > REQUEST_SLACK_MS {
      world, trace, runs, src := LongRequestRunHides(id, STASHDB, lengths);
    } else if lengths.movies > SNAPSHOT_SLACK_MS {
      world, trace, runs, src := LongMovieRunHides(id, STASHDB, lengths);
    } else if lengths.queue > SNAPSHOT_SLACK_MS {
      world, trace, runs, src := LongQueueRunHides(id, STASHDB, lengths);
    } else {
      world, trace, runs, src := LongLibraryPassHides(id, STASHDB, lengths);
    }
    Hides(world, lengths, trace, runs, src, id);
  }
}
