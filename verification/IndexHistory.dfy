/** The index while its sources change, writes are interrupted and queue columns lose what they summarise. */
module IndexHistory {
  import opened Basics
  import opened Text
  import opened SceneStatusResolver
  import opened SceneIndex
  import opened CatalogRefs
  import opened RequestSync
  import opened IndexRefinement
  import QC = QueueColumns
  import MS = MovieSync
  import QS = QueueSync
  import LS = LibrarySync

  /** The movie id Whisparr gives each scene, the same whenever the scene is listed. */
  type Numbering = string -> int

  ghost predicate Injective(number: Numbering) {
    forall id, other :: number(id) == number(other) ==> id == other
  }

  /** Sources as the providers list them at one time; queue groups and library pages may be anything. */
  ghost predicate Listed(number: Numbering, world: World) {
    && CleanRequests(world.requests) && CleanMovies(world.movies)
    && (forall i, j :: 0 <= i < j < |world.movies| ==> world.movies[i].stashId != world.movies[j].stashId)
    && (forall i :: 0 <= i < |world.movies| ==> world.movies[i].movieId == number(world.movies[i].stashId))
  }

  /** What every write keeps of a row. */
  ghost predicate SaneRow(number: Numbering, world: World, id: string, row: Row) {
    && CleanId(id)
    && (row.columns.movieId.None? ==> DerivedRow(id, row))
    && (row.columns.movieId.Some? ==> row.columns.movieId.value == number(id))
    && (row.columns.requestStatus.Some? ==> RequestOf(world.requests, id).Some?)
  }

  ghost predicate Sane(number: Numbering, world: World, rows: Table) {
    forall id :: id in rows ==> SaneRow(number, world, id, rows[id])
  }

  lemma SaneIsConsistent(number: Numbering, world: World, rows: Table)
    requires Injective(number) && Listed(number, world) && Sane(number, world, rows)
    ensures Consistent(world, rows)
  {
    forall id | id in rows
      ensures CleanId(id) && (rows[id].columns.movieId.None? ==> DerivedRow(id, rows[id]))
      ensures rows[id].columns.requestStatus.Some? ==> RequestOf(world.requests, id).Some?
    {
      assert SaneRow(number, world, id, rows[id]);
    }
    forall id, i | id in rows && rows[id].columns.movieId.Some? && 0 <= i < |world.movies|
      ensures world.movies[i].movieId == rows[id].columns.movieId.value <==> world.movies[i].stashId == id
    {
      assert SaneRow(number, world, id, rows[id]);
    }
  }

  /** The row written, if any, by one sync. */
  ghost predicate SaneAt(number: Numbering, world: World, after: Table, id: string) {
    id in after ==> SaneRow(number, world, id, after[id])
  }

  lemma RequestKeepsSane(number: Numbering, world: World, rows: Table, now: int, id: string)
    requires Listed(number, world) && Sane(number, world, rows)
    ensures SaneAt(number, world, AfterRequestSync(rows, world.requests, now), id)
  {
    RequestsApplied(rows, world.requests, id, now);
    RequestOfClean(world.requests, id);
    var request := RequestOf(world.requests, id);
    if request.Some? {
      RequestRowAt(id, Lookup(rows, id), request.value, now);
    }
  }

  lemma MovieKeepsSane(number: Numbering, world: World, rows: Table, now: int, id: string)
    requires Listed(number, world) && Sane(number, world, rows)
    ensures SaneAt(number, world, MS.AfterMovieSync(rows, world.movies, now), id)
  {
    MS.AfterAt(rows, world.movies, now, id);
    var movie := MovieFor(world, id);
    if movie.Some? {
      var i := LastMovieAt(world.movies, id);
      MovieRowAt(id, Lookup(rows, id), movie.value, now);
    }
    if id in rows {
      StaleRowAt(id, rows[id], now);
    }
  }

  lemma CleanRows(number: Numbering, world: World, rows: Table)
    requires Sane(number, world, rows)
    ensures CleanKeys(rows)
  {
    forall id | id in rows ensures CleanId(id) {
      assert SaneRow(number, world, id, rows[id]);
    }
  }

  lemma FoundIsNumbered(number: Numbering, world: World, m: int)
    requires Listed(number, world) && FindMovieById(world.movies, m).Some?
    ensures m == number(FindMovieById(world.movies, m).value.stashId)
  {
    var i :| 0 <= i < |world.movies| && world.movies[i] == FindMovieById(world.movies, m).value;
  }

  lemma QueuedForNumbered(number: Numbering, world: World, rows: Table, scan: seq<string>, id: string)
    requires Listed(number, world) && Sane(number, world, rows)
    ensures var movie := QS.QueuedFor(rows, scan, Finder(world), QS.MovieIds(world.queue), id);
            movie.Some? ==> CleanId(id) && movie.value.stashId == id && movie.value.movieId == number(id)
  {
    var ids := QS.MovieIds(world.queue);
    var movie := QS.QueuedFor(rows, scan, Finder(world), ids, id);
    FinderAnswers(world);
    QS.QueuedForKnown(rows, scan, Finder(world), ids, id);
    if movie.Some? {
      if id in rows && QS.OwnMovie(rows[id], id) == movie {
        assert SaneRow(number, world, id, rows[id]);
      } else {
        var m :| m in ids && Finder(world)(m) == movie;
        FoundIsNumbered(number, world, m);
      }
    }
  }

  lemma PatchedRowSane(
    number: Numbering, world: World, id: string, row: Option<Row>, movie: Movie, patch: Patch, position: nat, cleared: bool,
    now: int)
    requires row.Some? ==> SaneRow(number, world, id, row.value)
    requires CleanId(id) && movie.stashId == id && movie.movieId == number(id)
    requires QS.IsQueuePatch(patch, movie, position, world.queue, now)
    ensures SaneRow(number, world, id,
                    BuildRow(row, QS.Clearing(Some(patch), cleared, id, now).value, Some(QS.Group(world.queue, movie.movieId))))
  {
  }

  lemma ClearedRowSane(number: Numbering, world: World, id: string, row: Row, now: int)
    requires SaneRow(number, world, id, row)
    ensures SaneRow(number, world, id, BuildRow(Some(row), QS.Clearing(None, true, id, now).value, None))
  {
  }

  lemma QueueKeepsSane(number: Numbering, world: World, rows: Table, scan: seq<string>, now: int, id: string)
    requires Listed(number, world) && Sane(number, world, rows) && Lists(scan, rows.Keys)
    ensures SaneAt(number, world, QS.AfterQueueSync(rows, scan, Finder(world), world.queue, now), id)
  {
    var ids := QS.MovieIds(world.queue);
    CleanRows(number, world, rows);
    FinderAnswers(world);
    QueuedForNumbered(number, world, rows, scan, id);
    var movie := QS.QueuedFor(rows, scan, Finder(world), ids, id);
    var patch := QS.AfterQueueSyncAt(rows, scan, Finder(world), world.queue, now, id);
    if id in rows {
      assert SaneRow(number, world, id, rows[id]);
    }
    if movie.Some? {
      PatchedRowSane(number, world, id, Lookup(rows, id), movie.value, patch.value,
                     QS.QueuePositionOf(rows, scan, Finder(world), ids, id), QS.ClearedAt(rows, ids, id), now);
    } else if QS.ClearedAt(rows, ids, id) {
      ClearedRowSane(number, world, id, rows[id], now);
    }
  }

  lemma LibraryKeepsSane(number: Numbering, world: World, rows: Table, ids: seq<string>, now: int, id: string)
    requires Sane(number, world, rows) && forall active :: active in ids ==> CleanId(active)
    ensures SaneAt(number, world, LS.AfterAvailability(rows, ids, now), id)
  {
    LS.AfterAvailabilityAt(rows, ids, now, id);
    if id in rows {
      assert SaneRow(number, world, id, rows[id]);
    }
  }

  lemma SyncKeepsSane(number: Numbering, world: World, rows: Table, sync: Sync, id: string)
    requires Listed(number, world) && Sane(number, world, rows) && CanRun(rows, sync)
    ensures SaneAt(number, world, AfterSync(world, rows, sync), id)
  {
    match sync
    case RequestSync(now) => RequestKeepsSane(number, world, rows, now, id);
    case MovieSync(now) => MovieKeepsSane(number, world, rows, now, id);
    case QueueSync(scan, now) => QueueKeepsSane(number, world, rows, scan, now, id);
    case LibrarySync(now) =>
      var read := world.library[..LS.ReadFrom(world.library, 1)];
      LS.ActiveIdsClean(read, Some(world.provider));
      LibraryKeepsSane(number, world, rows, LS.ActiveIds(read, Some(world.provider)), now, id);
  }

  /** The index over the sources at one time. */
  datatype State = State(world: World, rows: Table)

  /** The sources change in any way that deletes no request. */
  ghost predicate Changed(s: State, t: State) {
    && t.rows == s.rows
    && forall id :: RequestOf(s.world.requests, id).Some? ==> RequestOf(t.world.requests, id).Some?
  }

  /** A sync over the sources of the moment writes all its scenes or, interrupted, only some. */
  ghost predicate WrittenBy(s: State, sync: Sync, t: State) {
    && t.world == s.world && CanRun(s.rows, sync)
    && forall id ::
         || Lookup(t.rows, id) == Lookup(s.rows, id)
         || Lookup(t.rows, id) == Lookup(AfterSync(s.world, s.rows, sync), id)
  }

  ghost predicate Wrote(s: State, t: State) {
    exists sync :: WrittenBy(s, sync, t)
  }

  /** From an empty index on, the sources change and syncs write, in any order. */
  ghost predicate History(number: Numbering, trace: seq<State>) {
    && Injective(number) && trace != [] && trace[0].rows == map[]
    && (forall n :: 0 <= n < |trace| ==> Listed(number, trace[n].world))
    && (forall n :: 0 < n < |trace| ==> Changed(trace[n - 1], trace[n]) || Wrote(trace[n - 1], trace[n]))
  }

  lemma StepKeepsSane(number: Numbering, s: State, t: State)
    requires Listed(number, s.world) && Sane(number, s.world, s.rows)
    requires Changed(s, t) || Wrote(s, t)
    ensures Sane(number, t.world, t.rows)
  {
    if Changed(s, t) {
      forall id | id in t.rows ensures SaneRow(number, t.world, id, t.rows[id]) {
        assert SaneRow(number, s.world, id, s.rows[id]);
      }
    } else {
      var sync :| WrittenBy(s, sync, t);
      forall id | id in t.rows ensures SaneRow(number, t.world, id, t.rows[id]) {
        SyncKeepsSane(number, s.world, s.rows, sync, id);
        if Lookup(t.rows, id) == Lookup(s.rows, id) {
          assert SaneRow(number, s.world, id, s.rows[id]);
        }
      }
    }
  }

  lemma {:induction false} HistoryStaysSane(number: Numbering, trace: seq<State>, n: nat)
    requires History(number, trace) && n < |trace|
    ensures Sane(number, trace[n].world, trace[n].rows)
  {
    if n > 0 {
      HistoryStaysSane(number, trace, n - 1);
      StepKeepsSane(number, trace[n - 1], trace[n]);
    }
  }

  /** Whatever has happened to the index before, with sources that changed, syncs that were interrupted and queue columns
      that lost what they summarised, a bootstrap over sources that meet the conditions makes it live. */
  lemma BootstrapRepairs(number: Numbering, trace: seq<State>, n: nat, rows: Table)
    requires History(number, trace) && n < |trace| && Regular(trace[n].world)
    requires BootstrapOf(trace[n].world, trace[n].rows, rows)
    ensures Settled(trace[n].world, rows) && Refines(trace[n].world, rows)
  {
    var world := trace[n].world;
    HistoryStaysSane(number, trace, n);
    SaneIsConsistent(number, world, trace[n].rows);
    var scan, times :| Lists(scan, BeforeQueue(world, trace[n].rows, times).Keys)
                       && rows == Bootstrapped(world, trace[n].rows, scan, times);
    BootstrapSettles(world, trace[n].rows, scan, times);
    SettledRefines(world, rows);
  }

  /** An interrupted sync leaves a settled index settled too. */
  lemma WriteKeepsSettled(s: State, t: State)
    requires Regular(s.world) && Settled(s.world, s.rows) && Wrote(s, t)
    ensures Settled(t.world, t.rows)
  {
    var sync :| WrittenBy(s, sync, t);
    SyncKeepsSettled(s.world, s.rows, sync);
    var after := AfterSync(s.world, s.rows, sync);
    forall id
      ensures id in t.rows ==> CleanId(id) && SettledRow(s.world, id, t.rows[id])
      ensures id in s.rows && id in after ==> id in t.rows
    {
      assert Lookup(t.rows, id) == Lookup(s.rows, id) || Lookup(t.rows, id) == Lookup(after, id);
      assert id in s.rows ==> SettledRow(s.world, id, s.rows[id]);
      assert id in after ==> SettledRow(s.world, id, after[id]);
    }
  }

  /** The state `n` follows a bootstrap that began at `k`, with no change of the sources since then. */
  ghost predicate Since(trace: seq<State>, k: nat, booted: nat, n: nat) {
    && k <= booted <= n < |trace|
    && BootstrapOf(trace[k].world, trace[k].rows, trace[booted].rows)
    && (forall i :: k <= i <= n ==> trace[i].world == trace[k].world)
    && (forall i :: booted < i <= n ==> Wrote(trace[i - 1], trace[i]))
  }

  lemma WriteKeepsLive(s: State, t: State)
    requires Regular(s.world) && Settled(s.world, s.rows) && Wrote(s, t)
    ensures Settled(t.world, t.rows) && Refines(t.world, t.rows)
  {
    WriteKeepsSettled(s, t);
    SettledRefines(t.world, t.rows);
  }

  lemma {:induction false} StaysLive(trace: seq<State>, booted: nat, n: nat)
    requires booted <= n < |trace| && Regular(trace[booted].world) && Settled(trace[booted].world, trace[booted].rows)
    requires forall i :: booted < i <= n ==> Wrote(trace[i - 1], trace[i])
    ensures trace[n].world == trace[booted].world
    ensures Settled(trace[n].world, trace[n].rows) && Refines(trace[n].world, trace[n].rows)
  {
    if n > booted {
      StaysLive(trace, booted, n - 1);
      WriteKeepsLive(trace[n - 1], trace[n]);
    } else {
      SettledRefines(trace[n].world, trace[n].rows);
    }
  }

  /** From a bootstrap on the index stays live until the sources change, through any complete or interrupted syncs. */
  lemma LiveSinceTheBootstrap(number: Numbering, trace: seq<State>, k: nat, booted: nat, n: nat)
    requires History(number, trace) && Since(trace, k, booted, n) && Regular(trace[k].world)
    ensures Settled(trace[n].world, trace[n].rows) && Refines(trace[n].world, trace[n].rows)
  {
    BootstrapRepairs(number, trace, k, trace[booted].rows);
    StaysLive(trace, booted, n);
  }

  lemma {:induction false} Order(ids: set<string>) returns (scan: seq<string>)
    ensures Lists(scan, ids)
  {
    if ids == {} {
      scan := [];
    } else {
      var id :| id in ids;
      scan := Order(ids - {id});
      ListsSnoc(scan, ids - {id}, id);
      scan := scan + [id];
      assert (ids - {id}) + {id} == ids;
    }
  }

  /** The sources of one movie and nothing else. */
  function OneMovie(m: int, id: string, provider: ProviderKey): World {
    World([], [Movie(m, id, false)], [], [], provider)
  }

  lemma OneMovieRegular(m: int, id: string, provider: ProviderKey)
    requires CleanId(id)
    ensures Regular(OneMovie(m, id, provider)) && MovieFor(OneMovie(m, id, provider), id) == Some(Movie(m, id, false))
  {
    var world := OneMovie(m, id, provider);
    assert world.movies[..0] == [];
    forall k ensures QC.Faithful(QC.Readings(QS.Group(world.queue, k))) {
      assert QS.Group(world.queue, k) == [];
    }
  }

  lemma BootstrapExists(world: World, rows: Table) returns (after: Table)
    requires Regular(world) && Consistent(world, rows)
    ensures BootstrapOf(world, rows, after) && Settled(world, after)
  {
    var times := Times(0, 0, 0, 0);
    var scan := Order(BeforeQueue(world, rows, times).Keys);
    after := Bootstrapped(world, rows, scan, times);
    BootstrapSettles(world, rows, scan, times);
  }

  /** After a bootstrap movie 5 moves from one scene to another: the row of the first then holds a movie listed under
      another scene, which no sync will clear. */
  lemma MovedMovieStays(id: string, other: string, provider: ProviderKey) returns (rows: Table)
    requires CleanId(id) && CleanId(other) && id != other
    ensures Regular(OneMovie(5, id, provider)) && Regular(OneMovie(5, other, provider))
    ensures BootstrapOf(OneMovie(5, id, provider), map[], rows)
    ensures HasForeign(OneMovie(5, other, provider), rows, id)
  {
    var before, after := OneMovie(5, id, provider), OneMovie(5, other, provider);
    OneMovieRegular(5, id, provider);
    OneMovieRegular(5, other, provider);
    EmptyIsConsistent(before);
    rows := BootstrapExists(before, map[]);
    NoOtherMovie(5, other, id, provider);
    MovedMovieIsForeign(before, after, rows, id);
  }

  lemma NoOtherMovie(m: int, id: string, other: string, provider: ProviderKey)
    requires CleanId(id) && id != other
    ensures MovieFor(OneMovie(m, id, provider), other).None?
  {
    LastOfOne(OneMovie(m, id, provider).movies, other);
    assert Trim(id) == id;
  }

  lemma LastOfOne(movies: seq<Movie>, id: string)
    requires |movies| == 1
    ensures MS.LastMovie(movies, id) == if Trim(movies[0].stashId) == id then Some(movies[0]) else None
  {
  }

  lemma MovedMovieIsForeign(before: World, after: World, rows: Table, id: string)
    requires CleanId(id) && MovieFor(before, id) == Some(Movie(5, id, false)) && Settled(before, rows)
    requires MovieFor(after, id).None? && |after.movies| == 1 && after.movies[0].movieId == 5
    ensures HasForeign(after, rows, id)
  {
    assert SettledRow(before, id, rows[id]);
    assert MovieOf(id, rows[id].columns) == Some(Movie(5, id, false));
  }
}
