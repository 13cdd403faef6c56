/** The Whisparr movie snapshot sync and how it converges (indexing.service.ts). */
module MovieSync {
  import opened Basics
  import opened Text
  import opened SceneStatusResolver
  import opened SceneIndex
  import opened SceneIndexStore
  import opened SyncState
  import opened RequestSync
  import PM = PatchMerging

  function MoviePatch(movie: Movie, now: int): Patch {
    Patch(movie.stashId,
          movieId := Given(Some(movie.movieId)), hasFile := Given(Some(movie.hasFile)),
          whisparrLastSyncedAt := Given(Some(now)), lastSyncedAt := Given(Some(now)))
  }

  function StaleMoviePatch(id: string, now: int): Patch {
    Patch(id,
          movieId := Given(None), hasFile := Given(None), queuePosition := Given(None), queueStatus := Given(None),
          queueState := Given(None), errorMessage := Given(None),
          whisparrLastSyncedAt := Given(Some(now)), lastSyncedAt := Given(Some(now)))
  }

  function SnapshotIds(movies: seq<Movie>): set<int> {
    set i | 0 <= i < |movies| :: movies[i].movieId
  }

  /** A row whose movie the snapshot does not have; rows without a movie never match `notIn`. */
  predicate Stale(row: Row, snapshot: set<int>) {
    row.columns.movieId.Some? && row.columns.movieId.value !in snapshot
  }

  /** The last snapshot entry of a scene. */
  function LastMovie(movies: seq<Movie>, id: string): Option<Movie> {
    if movies == [] then None
    else if Trim(movies[|movies| - 1].stashId) == id then Some(movies[|movies| - 1])
    else LastMovie(movies[..|movies| - 1], id)
  }

  function SnapshotScenes(movies: seq<Movie>): set<string> {
    if movies == [] then {}
    else
      var id := Trim(movies[|movies| - 1].stashId);
      SnapshotScenes(movies[..|movies| - 1]) + (if id == "" then {} else {id})
  }

  function MoviePatches(movies: seq<Movie>, now: int): (patches: seq<Patch>)
    ensures |patches| == |movies|
  {
    if movies == [] then []
    else MoviePatches(movies[..|movies| - 1], now) + [MoviePatch(movies[|movies| - 1], now)]
  }

  /** One patch for each stale row, in scan order. */
  function StalePatches(rows: Table, scan: seq<string>, snapshot: set<int>, now: int): seq<Patch> {
    if scan == [] then []
    else
      var earlier, id := StalePatches(rows, scan[..|scan| - 1], snapshot, now), scan[|scan| - 1];
      if id in rows && Stale(rows[id], snapshot) then earlier + [StaleMoviePatch(id, now)] else earlier
  }

  lemma MovieOverwritesMovie(id: string, earlier: Movie, later: Movie, now: int)
    ensures Spread(id, MoviePatch(earlier, now).(stashId := id), MoviePatch(later, now)) == MoviePatch(later, now).(stashId := id)
    ensures Spread(id, Patch(id), MoviePatch(later, now)) == MoviePatch(later, now).(stashId := id)
  {
  }

  lemma StaleOverwrites(id: string, earlier: Movie, now: int)
    ensures Spread(id, MoviePatch(earlier, now).(stashId := id), StaleMoviePatch(id, now)) == StaleMoviePatch(id, now)
    ensures Spread(id, Patch(id), StaleMoviePatch(id, now)) == StaleMoviePatch(id, now)
  {
  }

  function MoviePatchOf(movies: seq<Movie>, id: string, now: int): Option<Patch> {
    var movie := LastMovie(movies, id);
    if movie.Some? && id != "" then Some(MoviePatch(movie.value, now).(stashId := id)) else None
  }

  /** The merged patch of each scene: the stale one if its row is stale, else the last snapshot entry's. */
  function SyncPatch(rows: Table, movies: seq<Movie>, id: string, now: int): Option<Patch> {
    if id in rows && Stale(rows[id], SnapshotIds(movies)) then Some(StaleMoviePatch(id, now))
    else MoviePatchOf(movies, id, now)
  }

  /** What the sync makes of each row. */
  function AfterMovieSync(rows: Table, movies: seq<Movie>, now: int): Table {
    map id | id in rows.Keys + SnapshotScenes(movies) && PM.Rebuilt(Lookup(rows, id), SyncPatch(rows, movies, id, now)).Some? ::
      PM.Rebuilt(Lookup(rows, id), SyncPatch(rows, movies, id, now)).value
  }

  lemma {:induction false} MergedMovies(movies: seq<Movie>, id: string, now: int)
    ensures Lookup(Merged(MoviePatches(movies, now)), id) == MoviePatchOf(movies, id, now)
  {
    if movies != [] {
      var before, last := movies[..|movies| - 1], movies[|movies| - 1];
      MergedMovies(before, id, now);
      PM.MergedSnocAt(MoviePatches(before, now), MoviePatch(last, now), id);
      if Trim(last.stashId) == id && id != "" {
        MovieStep(Earlier(MoviePatchOf(before, id, now), id), id, last, before, now);
      }
    }
  }

  function Earlier(patch: Option<Patch>, id: string): Patch {
    if patch.Some? then patch.value else Patch(id)
  }

  lemma MovieStep(earlier: Patch, id: string, last: Movie, before: seq<Movie>, now: int)
    requires earlier == Earlier(MoviePatchOf(before, id, now), id)
    ensures Spread(id, earlier, MoviePatch(last, now)) == MoviePatch(last, now).(stashId := id)
  {
    var movie := LastMovie(before, id);
    MovieOverwritesMovie(id, if movie.Some? then movie.value else last, last, now);
  }

  lemma {:induction false} MergedSync(rows: Table, movies: seq<Movie>, scan: seq<string>, id: string, now: int)
    requires CleanKeys(rows) && NoDuplicates(scan)
    ensures Lookup(Merged(MoviePatches(movies, now) + StalePatches(rows, scan, SnapshotIds(movies), now)), id)
            == if id in scan && id in rows && Stale(rows[id], SnapshotIds(movies)) then Some(StaleMoviePatch(id, now))
               else MoviePatchOf(movies, id, now)
    decreases |scan|
  {
    var first, snapshot := MoviePatches(movies, now), SnapshotIds(movies);
    if scan == [] {
      assert first + [] == first;
      MergedMovies(movies, id, now);
    } else {
      var before, last := scan[..|scan| - 1], scan[|scan| - 1];
      MergedSync(rows, movies, before, id, now);
      assert last !in before;
      if last in rows && Stale(rows[last], snapshot) {
        assert first + StalePatches(rows, scan, snapshot, now)
            == (first + StalePatches(rows, before, snapshot, now)) + [StaleMoviePatch(last, now)];
        PM.MergedSnocAt(first + StalePatches(rows, before, snapshot, now), StaleMoviePatch(last, now), id);
        if last == id {
          var movie := LastMovie(movies, id);
          StaleOverwrites(id, if movie.Some? then movie.value else Movie(0, "", false), now);
        }
      }
    }
  }

  /** Writing the merged patches of the sync makes of each row what the sync is for. */
  lemma SyncApplied(rows: Table, movies: seq<Movie>, scan: seq<string>, now: int)
    requires CleanKeys(rows) && Lists(scan, rows.Keys)
    ensures Applied(rows, Merged(MoviePatches(movies, now) + StalePatches(rows, scan, SnapshotIds(movies), now)), map[])
            == AfterMovieSync(rows, movies, now)
  {
    var merged := Merged(MoviePatches(movies, now) + StalePatches(rows, scan, SnapshotIds(movies), now));
    var once, after := Applied(rows, merged, map[]), AfterMovieSync(rows, movies, now);
    forall id ensures Lookup(once, id) == Lookup(after, id) {
      MergedSync(rows, movies, scan, id, now);
      PM.AppliedAt(rows, merged, id);
      AfterAt(rows, movies, now, id);
    }
    LookupsDecide(once, after);
  }

  lemma AfterAt(rows: Table, movies: seq<Movie>, now: int, id: string)
    ensures Lookup(AfterMovieSync(rows, movies, now), id)
            == PM.Rebuilt(Lookup(rows, id), SyncPatch(rows, movies, id, now))
  {
    LastMovieExists(movies, id);
  }

  lemma {:induction false} LastMovieExists(movies: seq<Movie>, id: string)
    ensures LastMovie(movies, id).Some? && id != "" <==> id in SnapshotScenes(movies)
  {
    if movies != [] {
      LastMovieExists(movies[..|movies| - 1], id);
    }
  }

  method BuildMoviePatches(rows: Table, movies: seq<Movie>, scan: seq<string>, now: int) returns (patches: seq<Patch>)
    ensures patches == MoviePatches(movies, now) + StalePatches(rows, scan, SnapshotIds(movies), now)
  {
    var snapshot: set<int> := {};
    patches := [];
    for n := 0 to |movies|
      invariant snapshot == SnapshotIds(movies[..n])
      invariant patches == MoviePatches(movies[..n], now)
    {
      assert movies[..n + 1][..n] == movies[..n];
      IdsSnoc(movies, n);
      snapshot := snapshot + {movies[n].movieId};
      patches := patches + [MoviePatch(movies[n], now)];
    }
    assert movies[..|movies|] == movies;
    for n := 0 to |scan|
      invariant patches == MoviePatches(movies, now) + StalePatches(rows, scan[..n], snapshot, now)
    {
      assert scan[..n + 1][..n] == scan[..n];
      if scan[n] in rows && Stale(rows[scan[n]], snapshot) {
        patches := patches + [StaleMoviePatch(scan[n], now)];
      }
    }
    assert scan[..|scan|] == scan;
  }

  lemma IdsSnoc(movies: seq<Movie>, n: nat)
    requires n < |movies|
    ensures SnapshotIds(movies[..n + 1]) == SnapshotIds(movies[..n]) + {movies[n].movieId}
  {
    var before, longer := movies[..n], movies[..n + 1];
    assert forall i :: 0 <= i < n ==> before[i] == longer[i];
    assert longer[n] == movies[n];
  }

  /** The scenes one run writes: those of the snapshot and those whose row is stale. */
  function TouchedScenes(rows: Table, movies: seq<Movie>): set<string> {
    SnapshotScenes(movies) + (set id | id in rows && Stale(rows[id], SnapshotIds(movies)))
  }

  lemma MergedScenes(rows: Table, movies: seq<Movie>, scan: seq<string>, now: int)
    requires CleanKeys(rows) && Lists(scan, rows.Keys)
    ensures Merged(MoviePatches(movies, now) + StalePatches(rows, scan, SnapshotIds(movies), now)).Keys == TouchedScenes(rows, movies)
  {
    var merged := Merged(MoviePatches(movies, now) + StalePatches(rows, scan, SnapshotIds(movies), now));
    forall id ensures id in merged <==> id in TouchedScenes(rows, movies) {
      MergedSync(rows, movies, scan, id, now);
      LastMovieExists(movies, id);
    }
  }

  /** The snapshot is fetched unless Whisparr is not configured, and every chunk of the write commits. */
  predicate MoviesCommit(rows: Table, answer: Option<Answer<seq<Movie>>>, fate: (nat, nat) -> Fate) {
    answer.Some? ==> answer.value.Answered? && AllCommit(fate, |TouchedScenes(rows, answer.value.value)|)
  }

  /** The scene's last entry in the snapshot. */
  ghost predicate IsLastEntry(movies: seq<Movie>, id: string, i: nat) {
    && i < |movies| && id != "" && Trim(movies[i].stashId) == id
    && forall j :: i < j < |movies| ==> Trim(movies[j].stashId) != id
  }

  ghost predicate TakesMovie(before: Columns, movie: Movie, now: int, after: Columns) {
    after == before.(
      movieId := Some(movie.movieId), hasFile := Some(movie.hasFile), whisparrLastSyncedAt := Some(now), lastSyncedAt := Some(now))
  }

  /** By column: a row whose movie is no longer listed loses it with its file flag and queue columns; otherwise a listed
      scene takes its last entry's movie and file flag; both are stamped, and every other row stays. */
  lemma MovieColumns(rows: Table, movies: seq<Movie>, now: int, id: string)
    ensures var after, before := AfterMovieSync(rows, movies, now), ColumnsOf(Lookup(rows, id));
            if before.movieId.Some? && forall i :: 0 <= i < |movies| ==> movies[i].movieId != before.movieId.value then
              && id in after
              && after[id].columns == before.(
                   movieId := None, hasFile := None, queuePosition := None, queueStatus := None, queueState := None,
                   errorMessage := None, whisparrLastSyncedAt := Some(now), lastSyncedAt := Some(now))
            else if exists i: nat :: IsLastEntry(movies, id, i) then
              id in after && exists i: nat :: IsLastEntry(movies, id, i) && TakesMovie(before, movies[i], now, after[id].columns)
            else Lookup(after, id) == Lookup(rows, id)
  {
    AfterAt(rows, movies, now, id);
    var i := LastEntryIs(movies, id);
    var before := ColumnsOf(Lookup(rows, id));
    assert before.movieId.Some? ==>
        (before.movieId.value !in SnapshotIds(movies) <==> forall i :: 0 <= i < |movies| ==> movies[i].movieId != before.movieId.value);
  }

  lemma LastEntryIs(movies: seq<Movie>, id: string) returns (i: nat)
    ensures if LastMovie(movies, id).Some? && id != "" then IsLastEntry(movies, id, i) && LastMovie(movies, id) == Some(movies[i])
            else forall j: nat :: !IsLastEntry(movies, id, j)
  {
    i := 0;
    if j: nat :| IsLastEntry(movies, id, j) {
      LastMovieAtEntry(movies, id, j);
      i := j;
    } else if LastMovie(movies, id).Some? && id != "" {
      i := LastEntryOf(movies, id);
    }
  }

  lemma {:induction false} LastMovieAtEntry(movies: seq<Movie>, id: string, i: nat)
    requires IsLastEntry(movies, id, i)
    ensures LastMovie(movies, id) == Some(movies[i])
  {
    var n := |movies| - 1;
    if i < n {
      assert forall j :: 0 <= j < n ==> movies[..n][j] == movies[j];
      LastMovieAtEntry(movies[..n], id, i);
    }
  }

  lemma {:induction false} LastEntryOf(movies: seq<Movie>, id: string) returns (i: nat)
    requires LastMovie(movies, id).Some? && id != ""
    ensures IsLastEntry(movies, id, i)
  {
    var n := |movies| - 1;
    i := n;
    if Trim(movies[n].stashId) != id {
      i := LastEntryOf(movies[..n], id);
      assert forall j :: 0 <= j < n ==> movies[..n][j] == movies[j];
    }
  }

  method WriteSnapshot(
    store: SceneIndexStore, movies: seq<Movie>, before: (string, string) -> bool,
    fate: (nat, nat) -> Fate, now: int, newestWriteAt: Option<int>)
    returns (ok: bool)
    requires store.SummaryHolds() && CleanKeys(store.rows)
    modifies store
    ensures store.SummaryHolds() && CleanKeys(store.rows)
    ensures DerivedUnlessMovie(old(store.rows)) ==> DerivedUnlessMovie(store.rows)
    ensures ok <==> AllCommit(fate, |TouchedScenes(old(store.rows), movies)|)
    ensures ok ==> store.rows == AfterMovieSync(old(store.rows), movies, now)
  {
    var scan := FetchOrder(store.rows);
    SyncApplied(store.rows, movies, scan, now);
    MergedScenes(store.rows, movies, scan, now);
    var patches := BuildMoviePatches(store.rows, movies, scan, now);
    assert |Merged(patches)| == |Merged(patches).Keys|;
    var written;
    ok, written := store.ApplySceneIndexPatches(patches, map[], before, fate, now, newestWriteAt);
  }

  /** The request sync comes first unless it is skipped. `answer` is the provider's snapshot where it is configured. */
  method PerformWhisparrMovieSync(
    store: SceneIndexStore, jobs: SyncStateService, requests: seq<RequestRow>, request: Option<RequestRun>,
    answer: Option<Answer<seq<Movie>>>, before: (string, string) -> bool,
    fate: (nat, nat) -> Fate, now: int, newestWriteAt: Option<int>)
    returns (ok: bool)
    requires store.SummaryHolds() && CleanKeys(store.rows)
    modifies store, jobs
    ensures store.SummaryHolds() && CleanKeys(store.rows)
    ensures DerivedUnlessMovie(old(store.rows)) ==> DerivedUnlessMovie(store.rows)
    ensures var start := WithRequests(old(store.rows), requests, request);
            && (ok <==> RequestsSynced(requests, request) && MoviesCommit(start, answer, fate))
            && (ok ==> store.rows == if answer.Some? then AfterMovieSync(start, answer.value.value, now) else start)
    ensures request.None? ==> jobs.jobs == old(jobs.jobs)
  {
    ok := SyncRequestsFirst(store, jobs, requests, before, request, newestWriteAt);
    if !ok || answer.None? {
      return;
    }
    if answer.value.Threw? {
      return false;
    }
    ok := WriteSnapshot(store, answer.value.value, before, fate, now, newestWriteAt);
  }

  /** Every row's movie, if it has one, is in the snapshot. */
  ghost predicate AllInSnapshot(rows: Table, movies: seq<Movie>) {
    forall id :: id in rows ==> !Stale(rows[id], SnapshotIds(movies))
  }

  /** The scene's row holds what the last snapshot entry of the scene says. */
  predicate HoldsLast(rows: Table, movies: seq<Movie>, id: string) {
    var movie := LastMovie(movies, id);
    && movie.Some? && id in rows
    && rows[id].columns.movieId == Some(movie.value.movieId)
    && rows[id].columns.hasFile == Some(movie.value.hasFile)
  }

  /** The same row up to the two timestamps a sync sets. */
  predicate SameButStamps(row: Row, other: Row) {
    && other.lifecycle == row.lifecycle && other.sortOrder == row.sortOrder
    && other.columns == row.columns.(
         whisparrLastSyncedAt := other.columns.whisparrLastSyncedAt, lastSyncedAt := other.columns.lastSyncedAt)
  }

  lemma {:induction false} LastMovieInSnapshot(movies: seq<Movie>, id: string)
    ensures LastMovie(movies, id).Some? ==> LastMovie(movies, id).value.movieId in SnapshotIds(movies)
  {
    if movies != [] {
      var n := |movies| - 1;
      LastMovieInSnapshot(movies[..n], id);
      IdsSnoc(movies, n);
      assert movies[..n + 1] == movies;
    }
  }

  /** After one sync no row holds a movie the snapshot does not have. */
  lemma OneSyncSettles(rows: Table, movies: seq<Movie>, now: int)
    ensures AllInSnapshot(AfterMovieSync(rows, movies, now), movies)
  {
    forall id | id in AfterMovieSync(rows, movies, now)
      ensures !Stale(AfterMovieSync(rows, movies, now)[id], SnapshotIds(movies))
    {
      AfterAt(rows, movies, now, id);
      LastMovieInSnapshot(movies, id);
      LastMovieExists(movies, id);
    }
  }

  /** One sync gives a snapshot scene its last entry exactly when its row held no movie outside the snapshot;
      otherwise the stale patch, coming later in the list, clears the movie the snapshot just named. */
  lemma OneSyncSuffices(rows: Table, movies: seq<Movie>, now: int, id: string)
    requires id in SnapshotScenes(movies)
    ensures HoldsLast(AfterMovieSync(rows, movies, now), movies, id)
            <==> !(id in rows && Stale(rows[id], SnapshotIds(movies)))
  {
    AfterAt(rows, movies, now, id);
    LastMovieExists(movies, id);
  }

  /** A scene whose movie was replaced: the one sync that names the new movie clears the row. */
  lemma ReplacedMovieIsCleared(rows: Table, id: string, hasFile: bool, now: int)
    requires id in rows && rows[id].columns.movieId == Some(1) && CleanId(id)
    ensures var movies := [Movie(2, id, hasFile)];
            && LastMovie(movies, id) == Some(movies[0])
            && id in AfterMovieSync(rows, movies, now) && AfterMovieSync(rows, movies, now)[id].columns.movieId == None
  {
    var movies := [Movie(2, id, hasFile)];
    AfterAt(rows, movies, now, id);
    assert LastMovie(movies, id) == Some(movies[0]);
  }

  /** Two syncs with the same snapshot give every snapshot scene its last entry. */
  lemma TwoSyncsConverge(rows: Table, movies: seq<Movie>, now: int, later: int)
    ensures var twice := AfterMovieSync(AfterMovieSync(rows, movies, now), movies, later);
            AllInSnapshot(twice, movies) && forall id :: id in SnapshotScenes(movies) ==> HoldsLast(twice, movies, id)
  {
    var once := AfterMovieSync(rows, movies, now);
    OneSyncSettles(rows, movies, now);
    OneSyncSettles(once, movies, later);
    forall id | id in SnapshotScenes(movies) ensures HoldsLast(AfterMovieSync(once, movies, later), movies, id) {
      OneSyncSuffices(once, movies, later, id);
    }
  }

  lemma StampsOnlyAt(once: Table, movies: seq<Movie>, later: int, last: int, id: string)
    requires AllInSnapshot(once, movies) && AllInSnapshot(AfterMovieSync(once, movies, later), movies)
    requires id in AfterMovieSync(once, movies, later)
    ensures var twice := AfterMovieSync(once, movies, later);
            var thrice := AfterMovieSync(twice, movies, last);
            id in thrice && SameButStamps(twice[id], thrice[id])
  {
    var twice := AfterMovieSync(once, movies, later);
    AfterAt(twice, movies, last, id);
    AfterAt(once, movies, later, id);
    if MoviePatchOf(movies, id, last).Some? {
      MoviePatchTwice(id, ColumnsOf(Lookup(once, id)), LastMovie(movies, id).value, later, last);
    }
  }

  lemma NoNewScenes(twice: Table, movies: seq<Movie>, last: int)
    requires SnapshotScenes(movies) <= twice.Keys
    ensures AfterMovieSync(twice, movies, last).Keys <= twice.Keys
  {
  }

  lemma LaterSyncOnlyStamps(once: Table, movies: seq<Movie>, later: int, last: int)
    requires AllInSnapshot(once, movies) && AllInSnapshot(AfterMovieSync(once, movies, later), movies)
    requires SnapshotScenes(movies) <= AfterMovieSync(once, movies, later).Keys
    ensures var twice := AfterMovieSync(once, movies, later);
            OnlyStamps(twice, AfterMovieSync(twice, movies, last))
  {
    var twice := AfterMovieSync(once, movies, later);
    NoNewScenes(twice, movies, last);
    forall id | id in twice
      ensures id in AfterMovieSync(twice, movies, last) && SameButStamps(twice[id], AfterMovieSync(twice, movies, last)[id])
    {
      StampsOnlyAt(once, movies, later, last, id);
    }
  }

  ghost predicate OnlyStamps(before: Table, after: Table) {
    after.Keys == before.Keys && forall id :: id in before ==> SameButStamps(before[id], after[id])
  }

  /** A further sync changes only timestamps. */
  lemma ThirdSyncOnlyStamps(rows: Table, movies: seq<Movie>, now: int, later: int, last: int)
    ensures var twice := AfterMovieSync(AfterMovieSync(rows, movies, now), movies, later);
            OnlyStamps(twice, AfterMovieSync(twice, movies, last))
  {
    TwoSyncsConverge(rows, movies, now, later);
    OneSyncSettles(rows, movies, now);
    LaterSyncOnlyStamps(AfterMovieSync(rows, movies, now), movies, later, last);
  }

  lemma MoviePatchTwice(id: string, columns: Columns, movie: Movie, later: int, last: int)
    ensures var row := RowOf(id, PickColumns(columns, MoviePatch(movie, later).(stashId := id)), None);
            SameButStamps(row, BuildRow(Some(row), MoviePatch(movie, last).(stashId := id), None))
  {
    var row := RowOf(id, PickColumns(columns, MoviePatch(movie, later).(stashId := id)), None);
    var again := BuildRow(Some(row), MoviePatch(movie, last).(stashId := id), None);
    assert MovieOf(id, row.columns) == MovieOf(id, again.columns);
    assert SynthesizedItems(row.columns) == SynthesizedItems(again.columns);
  }
}
