/** After the bootstrap syncs the index answers what the live sources answer. */
module IndexRefinement {
  import opened Basics
  import opened Text
  import opened SceneStatusResolver
  import opened SceneIndex
  import opened CatalogRefs
  import opened RequestSync
  import QC = QueueColumns
  import PM = PatchMerging
  import MS = MovieSync
  import QS = QueueSync
  import LS = LibrarySync

  /** The four outside sources while they do not change. */
  datatype World = World(
    requests: seq<RequestRow>,
    movies: seq<Movie>,
    queue: seq<QueueItem>,
    library: seq<LS.LibraryScene>,
    provider: ProviderKey)

  function MovieFor(world: World, id: string): Option<Movie> {
    MS.LastMovie(world.movies, id)
  }

  /** The library answers a look-up by testing each scene's references. */
  predicate InLibrary(world: World, id: string) {
    exists i :: 0 <= i < |world.library| && !LS.Blank(world.library[i])
                && HasCatalogSceneRef(world.library[i].refs, world.provider, id)
  }

  /** What resolveSceneStatus gives on the live sources. */
  function Live(world: World, id: string): Lifecycle {
    ResolveSceneStatus(MovieFor(world, id), world.queue, InLibrary(world, id), StatusOf(world, id))
  }

  function StatusOf(world: World, id: string): Option<RequestStatus> {
    var request := RequestOf(world.requests, id);
    if request.Some? then Some(request.value.status) else None
  }

  ghost predicate CleanMovies(movies: seq<Movie>) {
    forall i :: 0 <= i < |movies| ==> CleanId(movies[i].stashId)
  }

  /** One stable movie id per scene, one reference per local scene for the active provider, ids as the
      callers store them, and queue groups whose columns keep their state. */
  ghost predicate Regular(world: World) {
    && CleanRequests(world.requests)
    && CleanMovies(world.movies)
    && DistinctMovies(world.movies)
    && (forall i :: 0 <= i < |world.library| ==> OneIdFor(world.library[i].refs, world.provider))
    && !(exists page, i :: LS.BlankPageHides(world.library, page, i))
    && (forall m :: QC.Faithful(QC.Readings(QS.Group(world.queue, m))))
  }

  /** Request rows are never deleted. */
  ghost predicate RequestsKept(world: World, rows: Table) {
    forall id :: id in rows && rows[id].columns.requestStatus.Some? ==> RequestOf(world.requests, id).Some?
  }

  /** A scene keeps its movie id. */
  ghost predicate Stable(world: World, rows: Table) {
    forall id, i :: id in rows && rows[id].columns.movieId.Some? && 0 <= i < |world.movies| ==>
      (world.movies[i].movieId == rows[id].columns.movieId.value <==> world.movies[i].stashId == id)
  }

  /** The rows an earlier state of the same sources left, as any writes left them. */
  ghost predicate Consistent(world: World, rows: Table) {
    CleanKeys(rows) && DerivedUnlessMovie(rows) && RequestsKept(world, rows) && Stable(world, rows)
  }

  /** After the request rows: every row carries its scene's request status. */
  ghost predicate RequestsIn(world: World, rows: Table) {
    && CleanKeys(rows) && DerivedUnlessMovie(rows) && Stable(world, rows)
    && (forall id :: id in rows ==> rows[id].columns.requestStatus == StatusOf(world, id))
    && (forall id :: StatusOf(world, id).Some? ==> id in rows)
  }

  /** After the movies: every row carries its scene's movie as well. */
  ghost predicate MoviesIn(world: World, rows: Table) {
    && CleanKeys(rows) && Derived(rows)
    && (forall id :: id in rows ==> CarriesMovie(world, id, rows[id]))
    && (forall id :: StatusOf(world, id).Some? || MovieFor(world, id).Some? ==> id in rows)
  }

  predicate CarriesMovie(world: World, id: string, row: Row) {
    && row.columns.requestStatus == StatusOf(world, id)
    && MovieOf(id, row.columns) == MovieFor(world, id)
  }

  /** After the queue: the columns give the movie's live queue state, and the lifecycle is the live one for
      the availability the row holds. */
  predicate CarriesQueue(world: World, id: string, row: Row) {
    && CarriesMovie(world, id, row)
    && (MovieFor(world, id).Some? ==>
          QueueState(MovieFor(world, id).value.movieId, SynthesizedItems(row.columns))
          == QueueState(MovieFor(world, id).value.movieId, world.queue))
    && row.sortOrder == LifecycleSortOrder(row.lifecycle)
    && row.lifecycle
       == ResolveSceneStatus(MovieFor(world, id), world.queue, row.columns.stashAvailable == Some(true), StatusOf(world, id))
  }

  ghost predicate QueueIn(world: World, rows: Table) {
    && CleanKeys(rows)
    && (forall id :: id in rows ==> CarriesQueue(world, id, rows[id]))
    && (forall id :: StatusOf(world, id).Some? || MovieFor(world, id).Some? ==> id in rows)
  }

  lemma {:induction false} RequestOfClean(requests: seq<RequestRow>, id: string)
    requires forall i :: 0 <= i < |requests| ==> CleanId(requests[i].stashId)
    ensures RequestOf(requests, id).Some? ==> CleanId(id) && RequestOf(requests, id).value.stashId == id
  {
    if requests != [] {
      RequestOfClean(requests[..|requests| - 1], id);
    }
  }

  lemma RequestRowAt(id: string, row: Option<Row>, request: RequestRow, now: int)
    requires request.stashId == id
    ensures var after := BuildRow(row, RequestPatch(request, now), None);
            && DerivedRow(id, after) && after.columns.requestStatus == Some(request.status)
            && after.columns.movieId == ColumnsOf(row).movieId
  {
  }

  lemma RequestStageAt(world: World, rows: Table, now: int, id: string)
    requires Regular(world) && CleanKeys(rows) && DerivedUnlessMovie(rows)
    requires id in rows && rows[id].columns.requestStatus.Some? ==> RequestOf(world.requests, id).Some?
    ensures var after := AfterRequestSync(rows, world.requests, now);
            && (StatusOf(world, id).Some? || id in rows ==> id in after)
            && (id in after ==>
                  && CleanId(id) && (after[id].columns.movieId.None? ==> DerivedRow(id, after[id]))
                  && after[id].columns.requestStatus == StatusOf(world, id)
                  && after[id].columns.movieId == ColumnsOf(Lookup(rows, id)).movieId)
  {
    RequestsApplied(rows, world.requests, id, now);
    RequestOfClean(world.requests, id);
    var request := RequestOf(world.requests, id);
    if request.Some? {
      RequestRowAt(id, Lookup(rows, id), request.value, now);
    }
  }

  lemma RequestStage(world: World, rows: Table, now: int)
    requires Regular(world) && Consistent(world, rows)
    ensures RequestsIn(world, AfterRequestSync(rows, world.requests, now))
  {
    var after := AfterRequestSync(rows, world.requests, now);
    forall id
      ensures && (StatusOf(world, id).Some? || id in rows ==> id in after)
              && (id in after ==>
                    && CleanId(id) && (after[id].columns.movieId.None? ==> DerivedRow(id, after[id]))
                    && after[id].columns.requestStatus == StatusOf(world, id)
                    && after[id].columns.movieId == ColumnsOf(Lookup(rows, id)).movieId)
    {
      RequestStageAt(world, rows, now, id);
    }
    StableStill(world, rows, after);
  }

  lemma StableStill(world: World, rows: Table, after: Table)
    requires Stable(world, rows)
    requires forall id :: id in after ==> after[id].columns.movieId == ColumnsOf(Lookup(rows, id)).movieId
    ensures Stable(world, after)
  {
  }

  lemma LastMovieAt(movies: seq<Movie>, id: string) returns (i: nat)
    requires CleanMovies(movies)
    requires MS.LastMovie(movies, id).Some?
    ensures i < |movies| && movies[i] == MS.LastMovie(movies, id).value && movies[i].stashId == id
  {
    var n := |movies| - 1;
    if Trim(movies[n].stashId) == id {
      i := n;
    } else {
      i := LastMovieAt(movies[..n], id);
    }
  }

  lemma {:induction false} NoLastMovie(movies: seq<Movie>, id: string)
    requires MS.LastMovie(movies, id).None?
    ensures forall i :: 0 <= i < |movies| ==> Trim(movies[i].stashId) != id
  {
    if movies != [] {
      NoLastMovie(movies[..|movies| - 1], id);
      assert forall i :: 0 <= i < |movies| - 1 ==> movies[i] == movies[..|movies| - 1][i];
    }
  }

  lemma SnapshotIndex(movies: seq<Movie>, m: int)
    ensures m in MS.SnapshotIds(movies) <==> exists i :: 0 <= i < |movies| && movies[i].movieId == m
  {
  }

  /** The row's movie is the snapshot's movie of the scene, or the snapshot has none for the scene. */
  lemma StaleExactlyWithoutMovie(world: World, rows: Table, id: string)
    requires CleanMovies(world.movies) && Stable(world, rows)
    requires id in rows && rows[id].columns.movieId.Some?
    ensures MS.Stale(rows[id], MS.SnapshotIds(world.movies)) <==> MovieFor(world, id).None?
  {
    SnapshotIndex(world.movies, rows[id].columns.movieId.value);
    if MovieFor(world, id).Some? {
      var i := LastMovieAt(world.movies, id);
    } else {
      NoLastMovie(world.movies, id);
      assert forall i :: 0 <= i < |world.movies| ==> Trim(world.movies[i].stashId) == world.movies[i].stashId;
    }
  }

  lemma StaleRowAt(id: string, row: Row, now: int)
    ensures var after := BuildRow(Some(row), MS.StaleMoviePatch(id, now), None);
            DerivedRow(id, after) && MovieOf(id, after.columns) == None && after.columns.requestStatus == row.columns.requestStatus
  {
  }

  lemma MovieRowAt(id: string, row: Option<Row>, movie: Movie, now: int)
    requires movie.stashId == id
    ensures var after := BuildRow(row, MS.MoviePatch(movie, now).(stashId := id), None);
            && DerivedRow(id, after) && MovieOf(id, after.columns) == Some(movie)
            && after.columns.requestStatus == ColumnsOf(row).requestStatus
  {
  }

  lemma MovieStageAt(world: World, rows: Table, now: int, id: string)
    requires CleanMovies(world.movies) && RequestsIn(world, rows)
    ensures var after := MS.AfterMovieSync(rows, world.movies, now);
            && (id in after ==> CleanId(id) && DerivedRow(id, after[id]) && CarriesMovie(world, id, after[id]))
            && (id in rows || MovieFor(world, id).Some? ==> id in after)
  {
    MS.AfterAt(rows, world.movies, now, id);
    var movie := MovieFor(world, id);
    if id in rows && rows[id].columns.movieId.Some? {
      StaleExactlyWithoutMovie(world, rows, id);
    }
    if movie.Some? {
      var i := LastMovieAt(world.movies, id);
      MovieRowAt(id, Lookup(rows, id), movie.value, now);
    } else if id in rows {
      StaleRowAt(id, rows[id], now);
    }
  }

  lemma MovieStage(world: World, rows: Table, now: int)
    requires Regular(world) && RequestsIn(world, rows)
    ensures MoviesIn(world, MS.AfterMovieSync(rows, world.movies, now))
  {
    forall id
      ensures var after := MS.AfterMovieSync(rows, world.movies, now);
              && (id in after ==> CleanId(id) && DerivedRow(id, after[id]) && CarriesMovie(world, id, after[id]))
              && (id in rows || MovieFor(world, id).Some? ==> id in after)
    {
      MovieStageAt(world, rows, now, id);
    }
  }

  /** The provider's look-up by movie id in the same world. */
  function FindMovieById(movies: seq<Movie>, m: int): (movie: Option<Movie>)
    ensures movie.Some? ==> movie.value.movieId == m && movie.value in movies
  {
    if movies == [] then None
    else if movies[|movies| - 1].movieId == m then Some(movies[|movies| - 1])
    else FindMovieById(movies[..|movies| - 1], m)
  }

  function Finder(world: World): int -> Option<Movie> {
    m => FindMovieById(world.movies, m)
  }

  lemma FinderAnswers(world: World)
    requires CleanMovies(world.movies)
    ensures QS.Answers(Finder(world))
  {
    forall m | FindMovieById(world.movies, m).Some? ensures CleanId(FindMovieById(world.movies, m).value.stashId) {
      var i :| 0 <= i < |world.movies| && world.movies[i] == FindMovieById(world.movies, m).value;
    }
  }

  ghost predicate DistinctMovies(movies: seq<Movie>) {
    forall i, j :: 0 <= i < j < |movies| ==> movies[i].stashId != movies[j].stashId && movies[i].movieId != movies[j].movieId
  }

  /** Two scenes with the same movie id are the same scene. */
  lemma OneSceneOfMovie(movies: seq<Movie>, id: string, other: string)
    requires CleanMovies(movies) && DistinctMovies(movies)
    requires MS.LastMovie(movies, id).Some? && MS.LastMovie(movies, other).Some?
    requires MS.LastMovie(movies, id).value.movieId == MS.LastMovie(movies, other).value.movieId
    ensures id == other
  {
    var i := LastMovieAt(movies, id);
    var j := LastMovieAt(movies, other);
    assert i == j;
  }

  /** A movie the provider finds is the last one of its scene. */
  lemma FoundMovieIsLast(movies: seq<Movie>, m: int)
    requires CleanMovies(movies) && DistinctMovies(movies) && FindMovieById(movies, m).Some?
    ensures var id := FindMovieById(movies, m).value.stashId;
            MS.LastMovie(movies, id).Some? && MS.LastMovie(movies, id).value.movieId == m
  {
    var movie := FindMovieById(movies, m).value;
    var i :| 0 <= i < |movies| && movies[i] == movie;
    if MS.LastMovie(movies, movie.stashId).None? {
      NoLastMovie(movies, movie.stashId);
    }
    var j := LastMovieAt(movies, movie.stashId);
    assert i == j;
  }

  lemma MovieOfRow(world: World, rows: Table, id: string)
    requires MoviesIn(world, rows) && id in rows
    ensures rows[id].columns.movieId
            == if MovieFor(world, id).Some? then Some(MovieFor(world, id).value.movieId) else None
  {
    assert CarriesMovie(world, id, rows[id]);
  }

  lemma MoviesOwned(world: World, rows: Table)
    requires Regular(world) && MoviesIn(world, rows)
    ensures QS.Owned(rows, Finder(world))
  {
    forall id, other | id in rows && other in rows && rows[id].columns.movieId.Some?
                       && rows[id].columns.movieId == rows[other].columns.movieId
      ensures id == other
    {
      MovieOfRow(world, rows, id);
      MovieOfRow(world, rows, other);
      OneSceneOfMovie(world.movies, id, other);
    }
    forall m | Finder(world)(m).Some? ensures exists id :: id in rows && rows[id].columns.movieId == Some(m) {
      FoundMovieIsLast(world.movies, m);
      MovieOfRow(world, rows, FindMovieById(world.movies, m).value.stashId);
    }
  }

  /** A movie's own items say what the whole queue says about it. */
  lemma GroupStateIsLive(queue: seq<QueueItem>, m: int)
    ensures QueueState(m, QS.Group(queue, m)) == QueueState(m, queue)
  {
    QueueStateIgnoresTheRest(m, QS.Group(queue, m), queue);
  }

  lemma UnqueuedIsSilent(queue: seq<QueueItem>, m: int)
    requires m !in QS.MovieIds(queue)
    ensures QueueState(m, queue) == None
  {
    QueueStateIgnoresTheRest(m, queue, []);
  }

  /** The stored columns of a faithful group give the movie's live queue state. */
  lemma ColumnsGiveLiveState(queue: seq<QueueItem>, m: int)
    requires QC.Faithful(QC.Readings(QS.Group(queue, m)))
    ensures QueueState(m, QC.SynthesizeQueueItems(Some(m), QC.SummarizeQueueItems(QS.Group(queue, m)))) == QueueState(m, queue)
  {
    QC.ColumnsKeepQueueState(m, QS.Group(queue, m));
    GroupStateIsLive(queue, m);
  }

  lemma QueuedRowAt(world: World, row: Row, id: string, patch: Patch, position: nat, now: int)
    requires CarriesMovie(world, id, row) && row.columns.movieId.Some?
    requires QS.IsQueuePatch(patch, QS.OwnMovie(row, id).value, position, world.queue, now)
    requires QC.Faithful(QC.Readings(QS.Group(world.queue, row.columns.movieId.value)))
    ensures CarriesQueue(world, id, BuildRow(Some(row), patch, Some(QS.Group(world.queue, row.columns.movieId.value))))
  {
    var m := row.columns.movieId.value;
    ColumnsGiveLiveState(world.queue, m);
    GroupStateIsLive(world.queue, m);
    var columns := PickColumns(row.columns, patch);
    assert MovieOf(id, columns) == MovieOf(id, row.columns);
    assert SynthesizedItems(columns) == QC.SynthesizeQueueItems(Some(m), QC.SummarizeQueueItems(QS.Group(world.queue, m)));
  }

  /** A row whose columns rebuild no items is live when the queue has none for its movie. */
  lemma QuietRow(world: World, id: string, row: Row)
    requires CarriesMovie(world, id, row) && DerivedRow(id, row)
    requires MovieFor(world, id).Some? ==>
               SynthesizedItems(row.columns) == [] && QueueState(MovieFor(world, id).value.movieId, world.queue) == None
    ensures CarriesQueue(world, id, row)
  {
  }

  lemma ClearedRowAt(world: World, row: Row, id: string, now: int)
    requires CarriesMovie(world, id, row)
    ensures var after := BuildRow(Some(row), QS.ClearPatch(id, now), None);
            CarriesMovie(world, id, after) && DerivedRow(id, after) && SynthesizedItems(after.columns) == []
    ensures QS.Clearing(None, true, id, now) == Some(QS.ClearPatch(id, now))
  {
  }

  lemma QueueStageAt(world: World, rows: Table, scan: seq<string>, now: int, id: string)
    requires Regular(world) && MoviesIn(world, rows) && Lists(scan, rows.Keys) && QS.Owned(rows, Finder(world))
    ensures var after := QS.AfterQueueSync(rows, scan, Finder(world), world.queue, now);
            (id in after <==> id in rows) && (id in after ==> CarriesQueue(world, id, after[id]))
  {
    var movieIds := QS.MovieIds(world.queue);
    FinderAnswers(world);
    QS.QueuedForOwner(rows, scan, Finder(world), movieIds, id);
    var patch := QS.AfterQueueSyncAt(rows, scan, Finder(world), world.queue, now, id);
    if id in rows {
      MovieOfRow(world, rows, id);
      if QS.Queued(rows, movieIds, id) {
        QueuedRowAt(world, rows[id], id, patch.value, QS.QueuePositionOf(rows, scan, Finder(world), movieIds, id), now);
      } else {
        if MovieFor(world, id).Some? {
          UnqueuedIsSilent(world.queue, MovieFor(world, id).value.movieId);
        }
        if QS.Cleared(rows[id], movieIds) {
          ClearedRowAt(world, rows[id], id, now);
          QuietRow(world, id, BuildRow(Some(rows[id]), QS.ClearPatch(id, now), None));
        } else {
          QuietRow(world, id, rows[id]);
        }
      }
    }
  }

  lemma QueueStage(world: World, rows: Table, scan: seq<string>, now: int)
    requires Regular(world) && MoviesIn(world, rows) && Lists(scan, rows.Keys)
    ensures QueueIn(world, QS.AfterQueueSync(rows, scan, Finder(world), world.queue, now))
  {
    MoviesOwned(world, rows);
    var after := QS.AfterQueueSync(rows, scan, Finder(world), world.queue, now);
    forall id ensures (id in after <==> id in rows) && (id in after ==> CarriesQueue(world, id, after[id])) {
      QueueStageAt(world, rows, scan, now, id);
    }
  }

  lemma SceneGivesId(world: World, i: nat, id: string)
    requires Regular(world) && CleanId(id) && i < |world.library|
    ensures LS.ActiveId(Some(world.provider), world.library[i]) == Some(id)
            <==> !LS.Blank(world.library[i]) && HasCatalogSceneRef(world.library[i].refs, world.provider, id)
  {
    OneIdFoundOrTested(world.library[i].refs, world.provider, id);
  }

  lemma GivenIds(library: seq<LS.LibraryScene>, find: LS.LibraryScene -> Option<string>, id: string)
    ensures id in DistinctSome(MapSeq(find, library)) <==> exists i :: 0 <= i < |library| && find(library[i]) == Some(id)
  {
    var ids := MapSeq(find, library);
    DistinctMembers(ids);
    if i :| 0 <= i < |library| && find(library[i]) == Some(id) {
      assert ids[i] == Some(id);
    }
  }

  /** The ids the pass saw are exactly those the library answers for. */
  lemma SeenIsInLibrary(world: World, id: string)
    requires Regular(world) && CleanId(id)
    ensures id in LS.ActiveIds(world.library, Some(world.provider)) <==> InLibrary(world, id)
  {
    var find := LS.ActiveIdFinder(Some(world.provider));
    GivenIds(world.library, find, id);
    forall i | 0 <= i < |world.library|
      ensures find(world.library[i]) == Some(id)
              <==> !LS.Blank(world.library[i]) && HasCatalogSceneRef(world.library[i].refs, world.provider, id)
    {
      SceneGivesId(world, i, id);
    }
  }

  /** Any row the availability snapshot leaves has the lifecycle of its own availability. */
  lemma AvailabilityRowAt(world: World, id: string, row: Row, available: bool, now: int)
    requires CarriesQueue(world, id, row)
    ensures var after := BuildRow(Some(row), LS.AvailabilityPatch(id, available, now), None);
            && after.sortOrder == LifecycleSortOrder(after.lifecycle)
            && after.lifecycle == ResolveSceneStatus(MovieFor(world, id), world.queue, available, StatusOf(world, id))
  {
    var columns := PickColumns(row.columns, LS.AvailabilityPatch(id, available, now));
    assert MovieOf(id, columns) == MovieOf(id, row.columns) && SynthesizedItems(columns) == SynthesizedItems(row.columns);
  }

  predicate IsLive(world: World, id: string, row: Row) {
    row.lifecycle == Live(world, id) && row.sortOrder == LifecycleSortOrder(row.lifecycle)
  }

  /** The clock readings of the four syncs. */
  datatype Times = Times(requests: int, movies: int, queue: int, library: int)

  function BeforeQueue(world: World, rows: Table, times: Times): Table {
    MS.AfterMovieSync(AfterRequestSync(rows, world.requests, times.requests), world.movies, times.movies)
  }

  /** The table after the four syncs of a bootstrap run, in their order. */
  function Bootstrapped(world: World, rows: Table, scan: seq<string>, times: Times): Table {
    var withQueue := QS.AfterQueueSync(BeforeQueue(world, rows, times), scan, Finder(world), world.queue, times.queue);
    var read := world.library[..LS.ReadFrom(world.library, 1)];
    LS.AfterAvailability(withQueue, LS.ActiveIds(read, Some(world.provider)), times.library)
  }

  /** Every indexed scene has its live lifecycle, and a scene without a row resolves live to not requested. */
  ghost predicate Refines(world: World, rows: Table) {
    forall id :: CleanId(id) ==>
      if id in rows then IsLive(world, id, rows[id]) else Live(world, id) == NotRequested
  }

  lemma WholeLibraryRead(world: World)
    requires Regular(world)
    ensures LS.ActiveIds(world.library[..LS.ReadFrom(world.library, 1)], Some(world.provider))
            == LS.ActiveIds(world.library, Some(world.provider))
  {
    LS.PassReadsEverything(world.library);
    LS.BlankTail(world.library, LS.ReadFrom(world.library, 1), Some(world.provider));
  }

  /** What the next bootstrap may rely on in a row. */
  ghost predicate Carried(world: World, id: string, row: Row) {
    CleanId(id) && DerivedRow(id, row) && CarriesMovie(world, id, row)
  }

  lemma CarriedAfterQueue(world: World, id: string, row: Row)
    requires CleanId(id) && CarriesQueue(world, id, row)
    ensures Carried(world, id, row)
  {
  }

  /** A row's movie id is its own scene's and no other's. */
  lemma CarriedMovieIsOwn(world: World, id: string, row: Row, i: nat)
    requires CleanMovies(world.movies) && DistinctMovies(world.movies) && i < |world.movies|
    requires CarriesMovie(world, id, row) && row.columns.movieId.Some?
    ensures world.movies[i].movieId == row.columns.movieId.value <==> world.movies[i].stashId == id
  {
    assert MovieOf(id, row.columns) == MovieFor(world, id);
    var j := LastMovieAt(world.movies, id);
  }

  lemma CarriedRequestKnown(world: World, id: string, row: Row)
    requires Carried(world, id, row)
    ensures CleanId(id) && DerivedRow(id, row)
    ensures row.columns.requestStatus.Some? ==> RequestOf(world.requests, id).Some?
  {
  }

  lemma CarriedIsConsistent(world: World, rows: Table)
    requires CleanMovies(world.movies) && DistinctMovies(world.movies)
    requires forall id :: id in rows ==> Carried(world, id, rows[id])
    ensures Consistent(world, rows)
  {
    forall id | id in rows
      ensures CleanId(id) && DerivedRow(id, rows[id])
      ensures rows[id].columns.requestStatus.Some? ==> RequestOf(world.requests, id).Some?
    {
      CarriedRequestKnown(world, id, rows[id]);
    }
    forall id, i | id in rows && rows[id].columns.movieId.Some? && 0 <= i < |world.movies|
      ensures world.movies[i].movieId == rows[id].columns.movieId.value <==> world.movies[i].stashId == id
    {
      CarriedMovieIsOwn(world, id, rows[id], i);
    }
  }

  /** A row that carries everything the live answer is made of. */
  predicate SettledRow(world: World, id: string, row: Row) {
    CarriesQueue(world, id, row) && (row.columns.stashAvailable == Some(true) <==> InLibrary(world, id))
  }

  /** Every row is settled and every scene of a source has one. */
  ghost predicate Settled(world: World, rows: Table) {
    && CleanKeys(rows)
    && (forall id :: id in rows ==> SettledRow(world, id, rows[id]))
    && (forall id :: CleanId(id) && (StatusOf(world, id).Some? || MovieFor(world, id).Some? || InLibrary(world, id)) ==> id in rows)
  }

  lemma SettledRefines(world: World, rows: Table)
    requires Settled(world, rows)
    ensures Refines(world, rows)
  {
    forall id | CleanId(id) ensures if id in rows then IsLive(world, id, rows[id]) else Live(world, id) == NotRequested {
      assert id in rows ==> SettledRow(world, id, rows[id]);
    }
  }

  /** A settled row stays settled when what it carries is written again. */
  lemma RewrittenStaysSettled(world: World, id: string, row: Row, columns: Columns)
    requires SettledRow(world, id, row)
    requires MovieOf(id, columns) == MovieOf(id, row.columns) && SynthesizedItems(columns) == SynthesizedItems(row.columns)
    requires columns.requestStatus == row.columns.requestStatus
    requires (columns.stashAvailable == Some(true)) == (row.columns.stashAvailable == Some(true))
    ensures SettledRow(world, id, RowOf(id, columns, None))
  {
  }

  /** One run of one sync. */
  datatype Sync = RequestSync(now: int) | MovieSync(now: int) | QueueSync(scan: seq<string>, now: int) | LibrarySync(now: int)

  ghost predicate CanRun(rows: Table, sync: Sync) {
    sync.QueueSync? ==> Lists(sync.scan, rows.Keys)
  }

  function AfterSync(world: World, rows: Table, sync: Sync): Table {
    match sync
    case RequestSync(now) => AfterRequestSync(rows, world.requests, now)
    case MovieSync(now) => MS.AfterMovieSync(rows, world.movies, now)
    case QueueSync(scan, now) => QS.AfterQueueSync(rows, scan, Finder(world), world.queue, now)
    case LibrarySync(now) =>
      LS.AfterAvailability(rows, LS.ActiveIds(world.library[..LS.ReadFrom(world.library, 1)], Some(world.provider)), now)
  }

  lemma RequestedStaysSettled(world: World, rows: Table, now: int, id: string)
    requires Regular(world) && Settled(world, rows)
    ensures var after := AfterRequestSync(rows, world.requests, now);
            (id in after <==> id in rows) && (id in after ==> SettledRow(world, id, after[id]))
  {
    RequestsApplied(rows, world.requests, id, now);
    RequestOfClean(world.requests, id);
    var request := RequestOf(world.requests, id);
    if request.Some? {
      assert StatusOf(world, id).Some? && id in rows && SettledRow(world, id, rows[id]);
      RewrittenStaysSettled(world, id, rows[id], PickColumns(rows[id].columns, RequestPatch(request.value, now)));
    }
  }

  lemma SettledIsOwned(world: World, rows: Table, id: string)
    requires Settled(world, rows) && id in rows
    ensures CarriesMovie(world, id, rows[id])
    ensures rows[id].columns.movieId == if MovieFor(world, id).Some? then Some(MovieFor(world, id).value.movieId) else None
  {
    assert SettledRow(world, id, rows[id]);
  }

  lemma MoviedStaysSettled(world: World, rows: Table, now: int, id: string)
    requires Regular(world) && Settled(world, rows)
    ensures var after := MS.AfterMovieSync(rows, world.movies, now);
            (id in after <==> id in rows) && (id in after ==> SettledRow(world, id, after[id]))
  {
    MS.AfterAt(rows, world.movies, now, id);
    MS.LastMovieInSnapshot(world.movies, id);
    var movie := MovieFor(world, id);
    if movie.Some? {
      var i := LastMovieAt(world.movies, id);
      assert CleanId(id) && id in rows && SettledRow(world, id, rows[id]);
      SettledIsOwned(world, rows, id);
      RewrittenStaysSettled(world, id, rows[id], PickColumns(rows[id].columns, MS.MoviePatch(movie.value, now).(stashId := id)));
    } else if id in rows {
      SettledIsOwned(world, rows, id);
    }
  }

  lemma SettledAsMovies(world: World, rows: Table)
    requires Regular(world) && Settled(world, rows)
    ensures MoviesIn(world, rows)
  {
    forall id | id in rows ensures DerivedRow(id, rows[id]) && CarriesMovie(world, id, rows[id]) {
      assert SettledRow(world, id, rows[id]);
      CarriedAfterQueue(world, id, rows[id]);
    }
    forall id | StatusOf(world, id).Some? || MovieFor(world, id).Some? ensures id in rows {
      RequestOfClean(world.requests, id);
      if MovieFor(world, id).Some? {
        var i := LastMovieAt(world.movies, id);
      }
    }
  }

  /** The queue sync leaves the availability column alone. */
  lemma QueueKeepsAvailability(world: World, rows: Table, scan: seq<string>, now: int, id: string)
    requires CleanMovies(world.movies) && CleanKeys(rows) && Lists(scan, rows.Keys) && id in rows
    ensures var after := QS.AfterQueueSync(rows, scan, Finder(world), world.queue, now);
            id in after && after[id].columns.stashAvailable == rows[id].columns.stashAvailable
  {
    FinderAnswers(world);
    var patch := QS.AfterQueueSyncAt(rows, scan, Finder(world), world.queue, now, id);
  }

  lemma QueuedStaysSettled(world: World, rows: Table, scan: seq<string>, now: int)
    requires Regular(world) && Settled(world, rows) && Lists(scan, rows.Keys)
    ensures Settled(world, QS.AfterQueueSync(rows, scan, Finder(world), world.queue, now))
  {
    SettledAsMovies(world, rows);
    MoviesOwned(world, rows);
    var after := QS.AfterQueueSync(rows, scan, Finder(world), world.queue, now);
    forall id ensures (id in after <==> id in rows) && (id in after ==> SettledRow(world, id, after[id])) {
      QueueStageAt(world, rows, scan, now, id);
      if id in rows {
        QueueKeepsAvailability(world, rows, scan, now, id);
        assert SettledRow(world, id, rows[id]);
      }
    }
  }

  lemma LibrariedRowSettles(world: World, id: string, row: Option<Row>, now: int)
    requires if row.Some? then CarriesQueue(world, id, row.value) else StatusOf(world, id).None? && MovieFor(world, id).None?
    ensures SettledRow(world, id, BuildRow(row, LS.AvailabilityPatch(id, InLibrary(world, id), now), None))
  {
    if row.Some? {
      AvailabilityRowAt(world, id, row.value, InLibrary(world, id), now);
    }
  }

  /** The library sync settles what the queue sync leaves. */
  lemma LibraryStageSettles(world: World, rows: Table, now: int, id: string)
    requires Regular(world) && QueueIn(world, rows)
    ensures var after := LS.AfterAvailability(rows, LS.ActiveIds(world.library, Some(world.provider)), now);
            && (id in after ==> CleanId(id) && SettledRow(world, id, after[id]))
            && (id in rows || (CleanId(id) && InLibrary(world, id)) ==> id in after)
  {
    var ids := LS.ActiveIds(world.library, Some(world.provider));
    LS.AfterAvailabilityAt(rows, ids, now, id);
    LS.ActiveIdsClean(world.library, Some(world.provider));
    if id in rows || id in ids {
      SeenIsInLibrary(world, id);
      LibrariedRowSettles(world, id, Lookup(rows, id), now);
    } else if CleanId(id) {
      SeenIsInLibrary(world, id);
    }
  }

  lemma LibrarySettles(world: World, rows: Table, now: int)
    requires Regular(world) && QueueIn(world, rows)
    ensures Settled(world, LS.AfterAvailability(rows, LS.ActiveIds(world.library, Some(world.provider)), now))
  {
    forall id
      ensures var after := LS.AfterAvailability(rows, LS.ActiveIds(world.library, Some(world.provider)), now);
              && (id in after ==> CleanId(id) && SettledRow(world, id, after[id]))
              && (id in rows || (CleanId(id) && InLibrary(world, id)) ==> id in after)
    {
      LibraryStageSettles(world, rows, now, id);
    }
  }

  lemma SettledAsQueue(world: World, rows: Table)
    requires Regular(world) && Settled(world, rows)
    ensures QueueIn(world, rows)
  {
    forall id | id in rows ensures CarriesQueue(world, id, rows[id]) {
      assert SettledRow(world, id, rows[id]);
    }
    SettledAsMovies(world, rows);
  }

  /** Over sources that do not change, no single sync disturbs a settled index. */
  lemma SyncKeepsSettled(world: World, rows: Table, sync: Sync)
    requires Regular(world) && Settled(world, rows) && CanRun(rows, sync)
    ensures Settled(world, AfterSync(world, rows, sync))
  {
    match sync
    case RequestSync(now) =>
      forall id
        ensures (id in AfterRequestSync(rows, world.requests, now) <==> id in rows)
        ensures id in AfterRequestSync(rows, world.requests, now) ==>
                  SettledRow(world, id, AfterRequestSync(rows, world.requests, now)[id])
      {
        RequestedStaysSettled(world, rows, now, id);
      }
    case MovieSync(now) =>
      forall id
        ensures (id in MS.AfterMovieSync(rows, world.movies, now) <==> id in rows)
        ensures id in MS.AfterMovieSync(rows, world.movies, now) ==>
                  SettledRow(world, id, MS.AfterMovieSync(rows, world.movies, now)[id])
      {
        MoviedStaysSettled(world, rows, now, id);
      }
    case QueueSync(scan, now) => QueuedStaysSettled(world, rows, scan, now);
    case LibrarySync(now) =>
      SettledAsQueue(world, rows);
      WholeLibraryRead(world);
      LibrarySettles(world, rows, now);
  }

  /** The four syncs of a bootstrap settle the index. */
  lemma BootstrapSettles(world: World, rows: Table, scan: seq<string>, times: Times)
    requires Regular(world) && Consistent(world, rows)
    requires Lists(scan, BeforeQueue(world, rows, times).Keys)
    ensures Settled(world, Bootstrapped(world, rows, scan, times))
  {
    RequestStage(world, rows, times.requests);
    MovieStage(world, AfterRequestSync(rows, world.requests, times.requests), times.movies);
    QueueStage(world, BeforeQueue(world, rows, times), scan, times.queue);
    WholeLibraryRead(world);
    LibrarySettles(world, QS.AfterQueueSync(BeforeQueue(world, rows, times), scan, Finder(world), world.queue, times.queue), times.library);
  }

  /** The index refines live resolution. */
  lemma IndexRefinesLive(world: World, rows: Table, scan: seq<string>, times: Times)
    requires Regular(world) && Consistent(world, rows)
    requires Lists(scan, BeforeQueue(world, rows, times).Keys)
    ensures Refines(world, Bootstrapped(world, rows, scan, times))
  {
    BootstrapSettles(world, rows, scan, times);
    SettledRefines(world, Bootstrapped(world, rows, scan, times));
  }

  lemma SettledIsConsistent(world: World, rows: Table)
    requires Regular(world) && Settled(world, rows)
    ensures Consistent(world, rows)
  {
    forall id | id in rows ensures Carried(world, id, rows[id]) {
      assert SettledRow(world, id, rows[id]);
      CarriedAfterQueue(world, id, rows[id]);
    }
    CarriedIsConsistent(world, rows);
  }

  lemma BootstrapKeepsConsistent(world: World, rows: Table, scan: seq<string>, times: Times)
    requires Regular(world) && Consistent(world, rows)
    requires Lists(scan, BeforeQueue(world, rows, times).Keys)
    ensures Consistent(world, Bootstrapped(world, rows, scan, times))
  {
    BootstrapSettles(world, rows, scan, times);
    SettledIsConsistent(world, Bootstrapped(world, rows, scan, times));
  }

  /** A row that holds a movie of the snapshot although the snapshot has none for its scene. */
  predicate HoldsForeign(world: World, rows: Table, id: string) {
    && id in rows && rows[id].columns.movieId.Some?
    && rows[id].columns.movieId.value in MS.SnapshotIds(world.movies) && MovieFor(world, id).None?
  }

  /** What a movie sync leaves of one row. */
  lemma MovieSyncAt(world: World, rows: Table, now: int, id: string)
    requires CleanMovies(world.movies) && CleanKeys(rows) && DerivedUnlessMovie(rows) && RequestsKept(world, rows)
    ensures var after := MS.AfterMovieSync(rows, world.movies, now);
            && (HoldsForeign(world, after, id) <==> HoldsForeign(world, rows, id))
            && (id in after ==>
                  && CleanId(id) && (after[id].columns.movieId.None? ==> DerivedRow(id, after[id]))
                  && (after[id].columns.requestStatus.Some? ==> RequestOf(world.requests, id).Some?)
                  && (after[id].columns.movieId.Some? && !HoldsForeign(world, rows, id) ==>
                        MovieFor(world, id).Some? && MovieFor(world, id).value.movieId == after[id].columns.movieId.value))
  {
    MS.AfterAt(rows, world.movies, now, id);
    var movie := MovieFor(world, id);
    if movie.Some? {
      var i := LastMovieAt(world.movies, id);
      MovieRowAt(id, Lookup(rows, id), movie.value, now);
    }
    if id in rows {
      StaleRowAt(id, rows[id], now);
    }
  }

  lemma OwnMovieIsStable(world: World, id: string, m: int, i: nat)
    requires CleanMovies(world.movies) && DistinctMovies(world.movies) && i < |world.movies|
    requires MovieFor(world, id).Some? && MovieFor(world, id).value.movieId == m
    ensures world.movies[i].movieId == m <==> world.movies[i].stashId == id
  {
    var j := LastMovieAt(world.movies, id);
  }

  lemma ForeignIsUnstable(world: World, rows: Table, id: string)
    requires CleanMovies(world.movies) && HoldsForeign(world, rows, id)
    ensures !Consistent(world, rows)
  {
    SnapshotIndex(world.movies, rows[id].columns.movieId.value);
    var i :| 0 <= i < |world.movies| && world.movies[i].movieId == rows[id].columns.movieId.value;
    NoLastMovie(world.movies, id);
    assert Trim(world.movies[i].stashId) == world.movies[i].stashId;
  }

  /** Whatever movie ids the rows hold, one movie sync leaves rows a bootstrap can start from exactly when no row
      holds another scene's movie; a row that does is never cleared. */
  lemma MovieSyncMakesConsistent(world: World, rows: Table, now: int)
    requires CleanMovies(world.movies) && DistinctMovies(world.movies)
    requires CleanKeys(rows) && DerivedUnlessMovie(rows) && RequestsKept(world, rows)
    ensures Consistent(world, MS.AfterMovieSync(rows, world.movies, now)) <==> forall id :: !HoldsForeign(world, rows, id)
    ensures forall id :: HoldsForeign(world, MS.AfterMovieSync(rows, world.movies, now), id) <==> HoldsForeign(world, rows, id)
  {
    var after := MS.AfterMovieSync(rows, world.movies, now);
    forall id
      ensures HoldsForeign(world, after, id) <==> HoldsForeign(world, rows, id)
      ensures id in after ==> CleanId(id) && (after[id].columns.movieId.None? ==> DerivedRow(id, after[id]))
      ensures id in after && after[id].columns.requestStatus.Some? ==> RequestOf(world.requests, id).Some?
    {
      MovieSyncAt(world, rows, now, id);
    }
    if id :| HoldsForeign(world, rows, id) {
      ForeignIsUnstable(world, after, id);
    } else {
      StableAfterMovieSync(world, rows, now);
    }
  }

  lemma StableAfterMovieSync(world: World, rows: Table, now: int)
    requires CleanMovies(world.movies) && DistinctMovies(world.movies)
    requires CleanKeys(rows) && DerivedUnlessMovie(rows) && RequestsKept(world, rows)
    requires forall id :: !HoldsForeign(world, rows, id)
    ensures Stable(world, MS.AfterMovieSync(rows, world.movies, now))
  {
    var after := MS.AfterMovieSync(rows, world.movies, now);
    forall id, i | id in after && after[id].columns.movieId.Some? && 0 <= i < |world.movies|
      ensures world.movies[i].movieId == after[id].columns.movieId.value <==> world.movies[i].stashId == id
    {
      MovieSyncAt(world, rows, now, id);
      OwnMovieIsStable(world, id, after[id].columns.movieId.value, i);
    }
  }

  lemma ForeignIsNeverFound(world: World, id: string)
    requires CleanMovies(world.movies) && MovieFor(world, id).None?
    ensures QS.NeverFound(Finder(world), id)
  {
    NoLastMovie(world.movies, id);
    forall m | FindMovieById(world.movies, m).Some? ensures FindMovieById(world.movies, m).value.stashId != id {
      var i :| 0 <= i < |world.movies| && world.movies[i] == FindMovieById(world.movies, m).value;
    }
  }

  lemma ForeignSurvives(world: World, rows: Table, sync: Sync, id: string)
    requires Regular(world) && CleanKeys(rows) && CanRun(rows, sync) && HoldsForeign(world, rows, id)
    ensures HoldsForeign(world, AfterSync(world, rows, sync), id)
  {
    match sync
    case RequestSync(now) =>
      RequestsApplied(rows, world.requests, id, now);
      if RequestOf(world.requests, id).Some? {
        RequestOfClean(world.requests, id);
        RequestRowAt(id, Lookup(rows, id), RequestOf(world.requests, id).value, now);
      }
    case MovieSync(now) => MS.AfterAt(rows, world.movies, now, id);
    case QueueSync(scan, now) =>
      FinderAnswers(world);
      ForeignIsNeverFound(world, id);
      QS.QueueSyncKeepsMovie(rows, scan, Finder(world), world.queue, now, id);
    case LibrarySync(now) =>
      LS.AvailabilityIsExact(rows, LS.ActiveIds(world.library[..LS.ReadFrom(world.library, 1)], Some(world.provider)), now);
  }

  lemma SyncKeepsCleanKeys(world: World, rows: Table, sync: Sync)
    requires Regular(world) && CleanKeys(rows)
    ensures CleanKeys(AfterSync(world, rows, sync))
  {
    match sync
    case RequestSync(now) => PM.MergedKeys(RequestPatches(world.requests, now));
    case MovieSync(now) =>
      forall id | id in MS.AfterMovieSync(rows, world.movies, now) ensures CleanId(id) {
        MS.AfterAt(rows, world.movies, now, id);
        if MovieFor(world, id).Some? {
          var i := LastMovieAt(world.movies, id);
        }
      }
    case QueueSync(scan, now) =>
      var ids := QS.MovieIds(world.queue);
      PM.MergedKeys(QS.RunQueue(rows, scan, Finder(world), world.queue, ids, now).patches + QS.ClearPatches(rows, scan, ids, now));
    case LibrarySync(now) =>
      LS.ActiveIdsClean(world.library[..LS.ReadFrom(world.library, 1)], Some(world.provider));
  }

  ghost predicate HasForeign(world: World, rows: Table, id: string) {
    CleanKeys(rows) && HoldsForeign(world, rows, id)
  }

  lemma SyncKeepsForeign(world: World, rows: Table, sync: Sync, id: string)
    requires Regular(world) && HasForeign(world, rows, id) && CanRun(rows, sync)
    ensures HasForeign(world, AfterSync(world, rows, sync), id)
  {
    ForeignSurvives(world, rows, sync, id);
    SyncKeepsCleanKeys(world, rows, sync);
  }

  /** Along any sequence of syncs a row that holds another scene's movie is never cleared and the index never settles. */
  lemma {:induction false} ForeignStaysForGood(world: World, tables: seq<Table>, n: nat, id: string)
    requires Regular(world) && Syncs(world, tables) && n < |tables|
    requires HasForeign(world, tables[0], id)
    ensures HasForeign(world, tables[n], id) && !Settled(world, tables[n])
  {
    if n > 0 {
      ForeignStaysForGood(world, tables, n - 1, id);
      assert SyncOf(world, tables[n - 1], tables[n]);
      var sync :| CanRun(tables[n - 1], sync) && tables[n] == AfterSync(world, tables[n - 1], sync);
      SyncKeepsForeign(world, tables[n - 1], sync, id);
    }
    ForeignIsUnsettled(world, tables[n], id);
  }

  lemma ForeignIsUnsettled(world: World, rows: Table, id: string)
    requires HoldsForeign(world, rows, id)
    ensures !Settled(world, rows)
  {
    assert MovieOf(id, rows[id].columns).Some?;
  }

  lemma BeforeQueueKeepsForeign(world: World, rows: Table, times: Times, id: string)
    requires Regular(world) && HasForeign(world, rows, id)
    ensures HasForeign(world, BeforeQueue(world, rows, times), id)
  {
    SyncKeepsForeign(world, rows, RequestSync(times.requests), id);
    SyncKeepsForeign(world, AfterRequestSync(rows, world.requests, times.requests), MovieSync(times.movies), id);
  }

  lemma FromQueueKeepsForeign(world: World, rows: Table, scan: seq<string>, queueAt: int, libraryAt: int, id: string)
    requires Regular(world) && HasForeign(world, rows, id) && Lists(scan, rows.Keys)
    ensures HasForeign(world, AfterSync(world, AfterSync(world, rows, QueueSync(scan, queueAt)), LibrarySync(libraryAt)), id)
  {
    SyncKeepsForeign(world, rows, QueueSync(scan, queueAt), id);
    SyncKeepsForeign(world, AfterSync(world, rows, QueueSync(scan, queueAt)), LibrarySync(libraryAt), id);
  }

  lemma BootstrapInTwo(world: World, rows: Table, scan: seq<string>, times: Times)
    ensures Bootstrapped(world, rows, scan, times)
            == AfterSync(world, AfterSync(world, BeforeQueue(world, rows, times), QueueSync(scan, times.queue)), LibrarySync(times.library))
  {
  }

  lemma BootstrapKeepsForeign(world: World, rows: Table, scan: seq<string>, times: Times, id: string)
    requires Regular(world) && HasForeign(world, rows, id)
    requires Lists(scan, BeforeQueue(world, rows, times).Keys)
    ensures HasForeign(world, Bootstrapped(world, rows, scan, times), id)
  {
    BeforeQueueKeepsForeign(world, rows, times, id);
    FromQueueKeepsForeign(world, BeforeQueue(world, rows, times), scan, times.queue, times.library, id);
    BootstrapInTwo(world, rows, scan, times);
  }

  /** So a movie sync and then a bootstrap settle rows derived from their columns exactly when none holds another
      scene's movie. */
  lemma MovieSyncThenBootstrapSettles(world: World, rows: Table, now: int, scan: seq<string>, times: Times)
    requires Regular(world) && CleanKeys(rows) && DerivedUnlessMovie(rows) && RequestsKept(world, rows)
    requires Lists(scan, BeforeQueue(world, MS.AfterMovieSync(rows, world.movies, now), times).Keys)
    ensures Settled(world, Bootstrapped(world, MS.AfterMovieSync(rows, world.movies, now), scan, times))
            <==> forall id :: !HoldsForeign(world, rows, id)
  {
    if id :| HoldsForeign(world, rows, id) {
      SyncKeepsForeign(world, rows, MovieSync(now), id);
      BootstrapKeepsForeign(world, MS.AfterMovieSync(rows, world.movies, now), scan, times, id);
      ForeignIsUnsettled(world, Bootstrapped(world, MS.AfterMovieSync(rows, world.movies, now), scan, times), id);
    } else {
      MovieSyncMakesConsistent(world, rows, now);
      BootstrapSettles(world, MS.AfterMovieSync(rows, world.movies, now), scan, times);
    }
  }

  ghost predicate BootstrapOf(world: World, earlier: Table, rows: Table) {
    exists scan, times :: Lists(scan, BeforeQueue(world, earlier, times).Keys) && rows == Bootstrapped(world, earlier, scan, times)
  }

  lemma BootstrapRefines(world: World, earlier: Table, rows: Table)
    requires Regular(world) && Consistent(world, earlier) && BootstrapOf(world, earlier, rows)
    ensures Consistent(world, rows) && Refines(world, rows)
  {
    var scan, times :| Lists(scan, BeforeQueue(world, earlier, times).Keys) && rows == Bootstrapped(world, earlier, scan, times);
    BootstrapKeepsConsistent(world, earlier, scan, times);
    IndexRefinesLive(world, earlier, scan, times);
  }

  lemma EmptyIsConsistent(world: World)
    ensures Consistent(world, map[])
  {
  }

  /** The tables left by bootstraps of the same world, one after another from an empty index. */
  ghost predicate Bootstraps(world: World, tables: seq<Table>) {
    && tables != [] && tables[0] == map[]
    && (forall n :: 0 < n < |tables| ==> BootstrapOf(world, tables[n - 1], tables[n]))
  }

  /** From an empty index on, every bootstrap leaves it live. */
  lemma EveryBootstrapRefines(world: World, tables: seq<Table>, n: nat)
    requires Regular(world) && Bootstraps(world, tables) && n < |tables|
    ensures Consistent(world, tables[n]) && (n > 0 ==> Refines(world, tables[n]))
  {
    if n == 0 {
      EmptyIsConsistent(world);
    } else {
      EveryBootstrapRefines(world, tables, n - 1);
      BootstrapRefines(world, tables[n - 1], tables[n]);
    }
  }

  /** The tables left by single syncs, one after another in any order and number. */
  ghost predicate Syncs(world: World, tables: seq<Table>) {
    tables != [] && forall n :: 0 < n < |tables| ==> SyncOf(world, tables[n - 1], tables[n])
  }

  ghost predicate SyncOf(world: World, earlier: Table, rows: Table) {
    exists sync :: CanRun(earlier, sync) && rows == AfterSync(world, earlier, sync)
  }

  /** From a settled index on, as a bootstrap leaves it, any sequence of single syncs keeps the index live. */
  lemma AnySyncsStayLive(world: World, tables: seq<Table>, n: nat)
    requires Regular(world) && Syncs(world, tables) && n < |tables| && Settled(world, tables[0])
    ensures Settled(world, tables[n]) && Refines(world, tables[n])
  {
    if n > 0 {
      AnySyncsStayLive(world, tables, n - 1);
      assert SyncOf(world, tables[n - 1], tables[n]);
      var sync :| CanRun(tables[n - 1], sync) && tables[n] == AfterSync(world, tables[n - 1], sync);
      SyncKeepsSettled(world, tables[n - 1], sync);
    }
    SettledRefines(world, tables[n]);
  }
}
