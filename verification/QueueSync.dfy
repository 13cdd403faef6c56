/** The Whisparr queue sync: grouped items written as columns and as evidence (indexing.service.ts). */
module QueueSync {
  import opened Basics
  import opened Text
  import opened SceneStatusResolver
  import opened SceneIndex
  import opened SceneIndexStore
  import opened SyncState
  import opened RequestSync
  import QC = QueueColumns
  import PM = PatchMerging

  /** The items of one movie, in queue order. */
  function Group(queue: seq<QueueItem>, movieId: int): (items: seq<QueueItem>)
    ensures forall item: QueueItem :: item in items <==> item in queue && item.movieId == movieId
  {
    if queue == [] then []
    else
      var before, last := queue[..|queue| - 1], queue[|queue| - 1];
      assert queue == before + [last];
      if last.movieId == movieId then Group(before, movieId) + [last] else Group(before, movieId)
  }

  /** The movie ids of the queue in the order of first occurrence: the keys of the grouping map. */
  function MovieIds(queue: seq<QueueItem>): (ids: seq<int>)
    ensures forall m :: m in ids <==> exists i :: 0 <= i < |queue| && queue[i].movieId == m
    ensures NoDuplicates(ids)
  {
    if queue == [] then []
    else
      var before, m := queue[..|queue| - 1], queue[|queue| - 1].movieId;
      assert queue == before + [queue[|queue| - 1]];
      if m in MovieIds(before) then MovieIds(before) else MovieIds(before) + [m]
  }

  lemma GroupSnoc(queue: seq<QueueItem>, item: QueueItem, m: int)
    ensures Group(queue + [item], m) == if item.movieId == m then Group(queue, m) + [item] else Group(queue, m)
  {
    assert (queue + [item])[..|queue|] == queue;
  }

  /** A movie's items stand in queue order. */
  lemma {:induction false} GroupInTwo(queue: seq<QueueItem>, more: seq<QueueItem>, m: int)
    ensures Group(queue + more, m) == Group(queue, m) + Group(more, m)
  {
    if more == [] {
      assert queue + more == queue;
    } else {
      var before, last := more[..|more| - 1], more[|more| - 1];
      LastApart(more);
      assert queue + more == (queue + before) + [last];
      GroupInTwo(queue, before, m);
      GroupSnoc(queue + before, last, m);
      GroupSnoc(before, last, m);
    }
  }

  /** Of two movie ids the earlier one is in the queue before the other's first item. */
  lemma {:induction false} MovieIdsInOrder(queue: seq<QueueItem>, a: nat, b: nat) returns (i: nat)
    requires a < b < |MovieIds(queue)|
    ensures i < |queue| && queue[i].movieId == MovieIds(queue)[a]
    ensures forall j :: 0 <= j <= i ==> queue[j].movieId != MovieIds(queue)[b]
  {
    var n := |queue| - 1;
    var before := queue[..n];
    if b < |MovieIds(before)| {
      i := MovieIdsInOrder(before, a, b);
      assert forall j :: 0 <= j < n ==> before[j] == queue[j];
    } else {
      assert MovieIds(before)[a] in MovieIds(before);
      i :| 0 <= i < n && before[i].movieId == MovieIds(before)[a];
      assert MovieIds(queue)[b] !in MovieIds(before);
      forall j | 0 <= j <= i ensures queue[j].movieId != MovieIds(queue)[b] {
        assert before[j] == queue[j];
      }
    }
  }

  method GroupQueueItemsByMovieId(queue: seq<QueueItem>) returns (ids: seq<int>, grouped: map<int, seq<QueueItem>>)
    ensures ids == MovieIds(queue)
    ensures forall m :: m in grouped <==> m in ids
    ensures forall m :: m in grouped ==> grouped[m] == Group(queue, m)
  {
    ids, grouped := [], map[];
    for n := 0 to |queue|
      invariant ids == MovieIds(queue[..n])
      invariant forall m :: m in grouped <==> m in ids
      invariant forall m :: m in ids ==> grouped[m] == Group(queue[..n], m)
      invariant forall m :: m !in ids ==> Group(queue[..n], m) == []
    {
      assert queue[..n + 1][..n] == queue[..n];
      var item := queue[n];
      var existing := if item.movieId in grouped then grouped[item.movieId] else [];
      if item.movieId !in grouped {
        ids := ids + [item.movieId];
      }
      grouped := grouped[item.movieId := existing + [item]];
    }
    assert queue[..|queue|] == queue;
  }

  /** The first row, in the order the database returns them, that holds the movie. */
  function RowWithMovie(rows: Table, scan: seq<string>, movieId: int): (id: Option<string>)
    ensures id.Some? ==> id.value in scan && id.value in rows && rows[id.value].columns.movieId == Some(movieId)
    ensures id.None? ==> forall other :: other in scan && other in rows ==> rows[other].columns.movieId != Some(movieId)
  {
    if scan == [] then None
    else if scan[0] in rows && rows[scan[0]].columns.movieId == Some(movieId) then Some(scan[0])
    else RowWithMovie(rows, scan[1..], movieId)
  }

  /** The row's own movie, or else the one the provider finds by id. A failed look-up finds none. */
  function MovieOfQueue(rows: Table, scan: seq<string>, find: int -> Option<Movie>, movieId: int): Option<Movie> {
    var owner := RowWithMovie(rows, scan, movieId);
    if owner.Some? then Some(Movie(movieId, owner.value, rows[owner.value].columns.hasFile == Some(true)))
    else find(movieId)
  }

  function QueuePatch(movie: Movie, position: int, summary: QC.Columns, now: int): Patch {
    Patch(movie.stashId,
          movieId := Given(Some(movie.movieId)), hasFile := Given(Some(movie.hasFile)),
          queuePosition := Given(Some(position)), queueStatus := Given(summary.status),
          queueState := Given(summary.state), errorMessage := Given(summary.errorMessage),
          whisparrLastSyncedAt := Given(Some(now)), lastSyncedAt := Given(Some(now)))
  }

  function ClearPatch(id: string, now: int): Patch {
    Patch(id,
          queuePosition := Given(None), queueStatus := Given(None), queueState := Given(None), errorMessage := Given(None),
          whisparrLastSyncedAt := Given(Some(now)), lastSyncedAt := Given(Some(now)))
  }

  /** A row with queue columns whose movie is no longer queued; with a non-empty queue `notIn` skips rows without a movie. */
  predicate Cleared(row: Row, movieIds: seq<int>) {
    && (row.columns.queueStatus.Some? || row.columns.queuePosition.Some?)
    && (movieIds != [] ==> row.columns.movieId.Some? && row.columns.movieId.value !in movieIds)
  }

  /** The patches, evidence and scenes seen after some of the queued movies. */
  datatype QueueRun = QueueRun(patches: seq<Patch>, evidence: QueueEvidence, seen: set<string>)

  function AddMovie(run: QueueRun, movie: Option<Movie>, items: seq<QueueItem>, now: int): QueueRun {
    if movie.None? then run
    else
      var id := movie.value.stashId;
      QueueRun(
        run.patches + [QueuePatch(movie.value, |run.seen|, QC.SummarizeQueueItems(items), now)],
        run.evidence[id := items],
        run.seen + {id})
  }

  function RunQueue(
    rows: Table, scan: seq<string>, find: int -> Option<Movie>, queue: seq<QueueItem>, ids: seq<int>, now: int): QueueRun
  {
    if ids == [] then QueueRun([], map[], {})
    else
      var last := ids[|ids| - 1];
      AddMovie(RunQueue(rows, scan, find, queue, ids[..|ids| - 1], now),
               MovieOfQueue(rows, scan, find, last), Group(queue, last), now)
  }

  function ClearPatches(rows: Table, scan: seq<string>, movieIds: seq<int>, now: int): seq<Patch> {
    if scan == [] then []
    else
      var earlier, id := ClearPatches(rows, scan[..|scan| - 1], movieIds, now), scan[|scan| - 1];
      if id in rows && Cleared(rows[id], movieIds) then earlier + [ClearPatch(id, now)] else earlier
  }

  lemma RunQueueSnoc(
    rows: Table, scan: seq<string>, find: int -> Option<Movie>, queue: seq<QueueItem>, ids: seq<int>, n: nat, now: int)
    requires n < |ids|
    ensures RunQueue(rows, scan, find, queue, ids[..n + 1], now)
            == AddMovie(RunQueue(rows, scan, find, queue, ids[..n], now),
                        MovieOfQueue(rows, scan, find, ids[n]), Group(queue, ids[n]), now)
  {
    assert ids[..n + 1][..n] == ids[..n];
  }

  /** One queued movie: its evidence, its position and its patch. */
  method PatchQueuedMovie(
    movie: Movie, items: seq<QueueItem>, now: int, before: seq<Patch>, given: QueueEvidence, known: set<string>)
    returns (patches: seq<Patch>, evidence: QueueEvidence, seen: set<string>)
    ensures QueueRun(patches, evidence, seen) == AddMovie(QueueRun(before, given, known), Some(movie), items, now)
  {
    evidence := given[movie.stashId := items];
    var position := |known|;
    seen := known + {movie.stashId};
    patches := before + [QueuePatch(movie, position, QC.SummarizeQueueItems(items), now)];
  }

  /** The loop over the queued movies. */
  method PatchQueuedMovies(
    rows: Table, scan: seq<string>, find: int -> Option<Movie>, queue: seq<QueueItem>, now: int)
    returns (patches: seq<Patch>, evidence: QueueEvidence, seen: set<string>, movieIds: seq<int>)
    ensures movieIds == MovieIds(queue)
    ensures QueueRun(patches, evidence, seen) == RunQueue(rows, scan, find, queue, movieIds, now)
  {
    var grouped;
    movieIds, grouped := GroupQueueItemsByMovieId(queue);
    patches, evidence, seen := [], map[], {};
    for n := 0 to |movieIds|
      invariant QueueRun(patches, evidence, seen) == RunQueue(rows, scan, find, queue, movieIds[..n], now)
    {
      RunQueueSnoc(rows, scan, find, queue, movieIds, n, now);
      var movie := MovieOfQueue(rows, scan, find, movieIds[n]);
      if movie.None? {
        continue;
      }
      patches, evidence, seen := PatchQueuedMovie(movie.value, grouped[movieIds[n]], now, patches, evidence, seen);
    }
    assert movieIds[..|movieIds|] == movieIds;
  }

  lemma ClearPatchesSnoc(rows: Table, scan: seq<string>, movieIds: seq<int>, n: nat, now: int)
    requires n < |scan|
    ensures var earlier := ClearPatches(rows, scan[..n], movieIds, now);
            ClearPatches(rows, scan[..n + 1], movieIds, now)
            == if scan[n] in rows && Cleared(rows[scan[n]], movieIds) then earlier + [ClearPatch(scan[n], now)] else earlier
  {
    assert scan[..n + 1][..n] == scan[..n];
  }

  /** The loop over the rows no longer queued. */
  method PatchUnqueuedRows(rows: Table, scan: seq<string>, movieIds: seq<int>, now: int) returns (patches: seq<Patch>)
    ensures patches == ClearPatches(rows, scan, movieIds, now)
  {
    patches := [];
    for n := 0 to |scan|
      invariant patches == ClearPatches(rows, scan[..n], movieIds, now)
    {
      ClearPatchesSnoc(rows, scan, movieIds, n, now);
      if scan[n] in rows && Cleared(rows[scan[n]], movieIds) {
        patches := patches + [ClearPatch(scan[n], now)];
      }
    }
    assert scan[..|scan|] == scan;
  }

  method BuildQueuePatches(
    rows: Table, scan: seq<string>, find: int -> Option<Movie>, queue: seq<QueueItem>, now: int)
    returns (patches: seq<Patch>, evidence: QueueEvidence)
    ensures var run := RunQueue(rows, scan, find, queue, MovieIds(queue), now);
            && evidence == run.evidence
            && patches == run.patches + ClearPatches(rows, scan, MovieIds(queue), now)
  {
    var seen, movieIds;
    patches, evidence, seen, movieIds := PatchQueuedMovies(rows, scan, find, queue, now);
    var cleared := PatchUnqueuedRows(rows, scan, movieIds, now);
    patches := patches + cleared;
  }

  /** What the sync makes of the table when all its chunks commit. */
  function AfterQueueSync(
    rows: Table, scan: seq<string>, find: int -> Option<Movie>, queue: seq<QueueItem>, now: int): Table
  {
    Applied(rows, QueueMerged(rows, scan, find, queue, now), RunQueue(rows, scan, find, queue, MovieIds(queue), now).evidence)
  }

  /** The merged patches of the sync. */
  function QueueMerged(
    rows: Table, scan: seq<string>, find: int -> Option<Movie>, queue: seq<QueueItem>, now: int): map<string, Patch>
  {
    Merged(RunQueue(rows, scan, find, queue, MovieIds(queue), now).patches + ClearPatches(rows, scan, MovieIds(queue), now))
  }

  /** The queue is fetched unless Whisparr is not configured, and every chunk of the write commits. */
  predicate QueueCommits(
    rows: Table, scan: seq<string>, find: int -> Option<Movie>, answer: Option<Answer<seq<QueueItem>>>,
    fate: (nat, nat) -> Fate, now: int)
  {
    answer.Some? ==> answer.value.Answered? && AllCommit(fate, |QueueMerged(rows, scan, find, answer.value.value, now)|)
  }

  /** The request sync comes first unless it is skipped. `answer` is the provider's queue where it is configured, and
      `scan` the order in which the database returned the rows. */
  method PerformWhisparrQueueSync(
    store: SceneIndexStore, jobs: SyncStateService, requests: seq<RequestRow>, request: Option<RequestRun>,
    answer: Option<Answer<seq<QueueItem>>>, find: int -> Option<Movie>, before: (string, string) -> bool,
    fate: (nat, nat) -> Fate, now: int, newestWriteAt: Option<int>)
    returns (ok: bool, ghost scan: seq<string>)
    requires store.SummaryHolds() && CleanKeys(store.rows) && Answers(find)
    modifies store, jobs
    ensures store.SummaryHolds() && CleanKeys(store.rows)
    ensures DerivedUnlessMovie(old(store.rows)) ==> DerivedUnlessMovie(store.rows)
    ensures var start := WithRequests(old(store.rows), requests, request);
            && (RequestsSynced(requests, request) ==> Lists(scan, start.Keys))
            && (ok <==> RequestsSynced(requests, request) && QueueCommits(start, scan, find, answer, fate, now))
            && (ok ==> store.rows == if answer.Some? then AfterQueueSync(start, scan, find, answer.value.value, now) else start)
    ensures request.None? ==> jobs.jobs == old(jobs.jobs)
  {
    ok := SyncRequestsFirst(store, jobs, requests, before, request, newestWriteAt);
    var order := FetchOrder(store.rows);
    scan := order;
    if !ok || answer.None? {
      return;
    }
    if answer.value.Threw? {
      return false, scan;
    }
    var queue := answer.value.value;
    QueueEvidenceBringsMovie(store.rows, scan, find, queue, now);
    var patches, evidence := BuildQueuePatches(store.rows, order, find, queue, now);
    var written;
    ok, written := store.ApplySceneIndexPatches(patches, evidence, before, fate, now, newestWriteAt);
  }

  /** What the look-up by id promises: the movie asked for, under a trimmed scene id. */
  ghost predicate Answers(find: int -> Option<Movie>) {
    forall m :: find(m).Some? ==> find(m).value.movieId == m && CleanId(find(m).value.stashId)
  }

  /** The last of the queued movies that is the scene's, as its row or the look-up says. */
  function QueuedFor(rows: Table, scan: seq<string>, find: int -> Option<Movie>, ids: seq<int>, id: string): Option<Movie> {
    if ids == [] then None
    else
      var movie := MovieOfQueue(rows, scan, find, ids[|ids| - 1]);
      if movie.Some? && movie.value.stashId == id then movie else QueuedFor(rows, scan, find, ids[..|ids| - 1], id)
  }

  /** The scenes of the queued movies, as far as they are known. */
  function QueuedScenes(rows: Table, scan: seq<string>, find: int -> Option<Movie>, ids: seq<int>): set<string> {
    set m | m in ids && MovieOfQueue(rows, scan, find, m).Some? :: MovieOfQueue(rows, scan, find, m).value.stashId
  }

  /** How many scenes are queued before the last of the scene's movies. */
  function QueuePositionOf(rows: Table, scan: seq<string>, find: int -> Option<Movie>, ids: seq<int>, id: string): nat {
    if ids == [] then 0
    else
      var before, movie := ids[..|ids| - 1], MovieOfQueue(rows, scan, find, ids[|ids| - 1]);
      if movie.Some? && movie.value.stashId == id then |QueuedScenes(rows, scan, find, before)|
      else QueuePositionOf(rows, scan, find, before, id)
  }

  /** The movie's queue patch at the position. */
  predicate IsQueuePatch(patch: Patch, movie: Movie, position: nat, queue: seq<QueueItem>, now: int) {
    patch == QueuePatch(movie, position, QC.SummarizeQueueItems(Group(queue, movie.movieId)), now)
  }

  /** A queued scene has the patch and the items of its last movie, and no other scene has any. */
  predicate OutcomeAt(run: QueueRun, movie: Option<Movie>, position: nat, queue: seq<QueueItem>, now: int, id: string) {
    if movie.Some? then
      && Lookup(run.evidence, id) == Some(Group(queue, movie.value.movieId))
      && id in Merged(run.patches) && IsQueuePatch(Merged(run.patches)[id], movie.value, position, queue, now)
    else id !in run.evidence && id !in Merged(run.patches)
  }

  /** A later queue patch of the scene leaves nothing of an earlier one. */
  lemma QueuePatchOver(
    earlier: Patch, before: Option<Movie>, place: nat, movie: Movie, position: int, queue: seq<QueueItem>, now: int)
    requires earlier == Patch(movie.stashId) || (before.Some? && IsQueuePatch(earlier, before.value, place, queue, now))
    ensures var patch := QueuePatch(movie, position, QC.SummarizeQueueItems(Group(queue, movie.movieId)), now);
            Spread(movie.stashId, earlier, patch) == patch
  {
  }

  lemma AddOutcome(run: QueueRun, movie: Movie, before: Option<Movie>, place: nat, queue: seq<QueueItem>, now: int, id: string)
    requires CleanId(movie.stashId) && OutcomeAt(run, before, place, queue, now, id)
    ensures OutcomeAt(AddMovie(run, Some(movie), Group(queue, movie.movieId), now),
                      if movie.stashId == id then Some(movie) else before,
                      if movie.stashId == id then |run.seen| else place, queue, now, id)
  {
    PM.MergedSnocAt(run.patches, QueuePatch(movie, |run.seen|, QC.SummarizeQueueItems(Group(queue, movie.movieId)), now), id);
    if movie.stashId == id {
      QueuePatchOver(PM.Earlier(Merged(run.patches), id), before, place, movie, |run.seen|, queue, now);
    }
  }

  lemma OneMoreQueued(rows: Table, scan: seq<string>, find: int -> Option<Movie>, ids: seq<int>)
    requires ids != []
    ensures var movie := MovieOfQueue(rows, scan, find, ids[|ids| - 1]);
            QueuedScenes(rows, scan, find, ids)
            == QueuedScenes(rows, scan, find, ids[..|ids| - 1]) + (if movie.Some? then {movie.value.stashId} else {})
  {
    LastApart(ids);
    assert forall m :: m in ids <==> m in ids[..|ids| - 1] || m == ids[|ids| - 1];
  }

  lemma {:induction false} RunAt(
    rows: Table, scan: seq<string>, find: int -> Option<Movie>, queue: seq<QueueItem>, ids: seq<int>, now: int, id: string)
    requires CleanKeys(rows) && Answers(find)
    ensures OutcomeAt(RunQueue(rows, scan, find, queue, ids, now), QueuedFor(rows, scan, find, ids, id),
                      QueuePositionOf(rows, scan, find, ids, id), queue, now, id)
    ensures RunQueue(rows, scan, find, queue, ids, now).seen == QueuedScenes(rows, scan, find, ids)
  {
    if ids != [] {
      var before, m := ids[..|ids| - 1], ids[|ids| - 1];
      var movie := MovieOfQueue(rows, scan, find, m);
      RunAt(rows, scan, find, queue, before, now, id);
      OneMoreQueued(rows, scan, find, ids);
      if movie.Some? {
        AddOutcome(RunQueue(rows, scan, find, queue, before, now), movie.value, QueuedFor(rows, scan, find, before, id),
                   QueuePositionOf(rows, scan, find, before, id), queue, now, id);
      }
    }
  }

  predicate ClearedAt(rows: Table, movieIds: seq<int>, id: string) {
    id in rows && Cleared(rows[id], movieIds)
  }

  /** The scene's merged patch once its row is cleared as well. */
  function Clearing(patch: Option<Patch>, cleared: bool, id: string, now: int): Option<Patch> {
    if !cleared then patch
    else Some(Spread(id, if patch.Some? then patch.value else Patch(id), ClearPatch(id, now)))
  }

  lemma ClearOneMore(patches: seq<Patch>, rows: Table, scan: seq<string>, movieIds: seq<int>, now: int)
    requires scan != [] && ClearedAt(rows, movieIds, scan[|scan| - 1])
    ensures patches + ClearPatches(rows, scan, movieIds, now)
            == (patches + ClearPatches(rows, scan[..|scan| - 1], movieIds, now)) + [ClearPatch(scan[|scan| - 1], now)]
  {
  }

  lemma LastMember(scan: seq<string>, id: string)
    requires scan != [] && NoDuplicates(scan)
    ensures var before, last := scan[..|scan| - 1], scan[|scan| - 1];
            NoDuplicates(before) && (id in scan <==> id in before || id == last) && !(id in before && id == last)
  {
    LastApart(scan);
  }

  /** The merged patches with those of the cleared rows. */
  lemma {:induction false} ClearingAt(
    patches: seq<Patch>, rows: Table, scan: seq<string>, movieIds: seq<int>, now: int, id: string)
    requires CleanKeys(rows) && NoDuplicates(scan)
    ensures Lookup(Merged(patches + ClearPatches(rows, scan, movieIds, now)), id)
            == Clearing(Lookup(Merged(patches), id), id in scan && ClearedAt(rows, movieIds, id), id, now)
  {
    if scan == [] {
      assert patches + [] == patches;
    } else {
      var before, last := scan[..|scan| - 1], scan[|scan| - 1];
      LastMember(scan, id);
      ClearingAt(patches, rows, before, movieIds, now, id);
      if ClearedAt(rows, movieIds, last) {
        ClearOneMore(patches, rows, scan, movieIds, now);
        PM.MergedSnocAt(patches + ClearPatches(rows, before, movieIds, now), ClearPatch(last, now), id);
      }
    }
  }

  /** What the sync makes of one scene: its row takes the patch of its last queued movie with that movie's items, what
      clearing then takes out of it, either of them alone, or nothing. */
  lemma AfterQueueSyncAt(
    rows: Table, scan: seq<string>, find: int -> Option<Movie>, queue: seq<QueueItem>, now: int, id: string)
    returns (patch: Option<Patch>)
    requires CleanKeys(rows) && Lists(scan, rows.Keys) && Answers(find)
    ensures var movie, cleared := QueuedFor(rows, scan, find, MovieIds(queue), id), ClearedAt(rows, MovieIds(queue), id);
            && (if movie.Some? then
                  patch.Some? && IsQueuePatch(
                    patch.value, movie.value, QueuePositionOf(rows, scan, find, MovieIds(queue), id), queue, now)
                else patch.None?)
            && Lookup(AfterQueueSync(rows, scan, find, queue, now), id)
               == if movie.Some? || cleared then
                    Some(BuildRow(Lookup(rows, id), Clearing(patch, cleared, id, now).value,
                                  if movie.Some? then Some(Group(queue, movie.value.movieId)) else None))
                  else Lookup(rows, id)
  {
    var movieIds := MovieIds(queue);
    var run := RunQueue(rows, scan, find, queue, movieIds, now);
    RunAt(rows, scan, find, queue, movieIds, now, id);
    ClearingAt(run.patches, rows, scan, movieIds, now, id);
    patch := Lookup(Merged(run.patches), id);
  }

  /** What the columns of a queued scene take: its movie with its file flag, its position, what its items sum up to, and
      the stamps. */
  predicate TakesQueue(before: Columns, movie: Movie, position: nat, items: seq<QueueItem>, now: int, after: Columns) {
    && after.movieId == Some(movie.movieId) && after.hasFile == Some(movie.hasFile)
    && after.queuePosition == Some(position)
    && QC.Columns(after.queueStatus, after.queueState, after.errorMessage) == QC.SummarizeQueueItems(items)
    && after.whisparrLastSyncedAt == Some(now) && after.lastSyncedAt == Some(now)
    && after == before.(
         movieId := after.movieId, hasFile := after.hasFile, queuePosition := after.queuePosition,
         queueStatus := after.queueStatus, queueState := after.queueState, errorMessage := after.errorMessage,
         whisparrLastSyncedAt := after.whisparrLastSyncedAt, lastSyncedAt := after.lastSyncedAt)
  }

  function WithoutQueue(columns: Columns): Columns {
    columns.(queuePosition := None, queueStatus := None, queueState := None, errorMessage := None)
  }

  /** A row shows queue columns although the queue is empty, or holds a movie that no queue item is for. A row without a
      movie keeps its columns as long as anything is queued. */
  predicate NoLongerQueued(rows: Table, queue: seq<QueueItem>, id: string) {
    && id in rows
    && (rows[id].columns.queueStatus.Some? || rows[id].columns.queuePosition.Some?)
    && (queue == []
        || (rows[id].columns.movieId.Some?
            && forall i :: 0 <= i < |queue| ==> queue[i].movieId != rows[id].columns.movieId.value))
  }

  lemma ClearedInWords(rows: Table, queue: seq<QueueItem>, id: string)
    ensures ClearedAt(rows, MovieIds(queue), id) <==> NoLongerQueued(rows, queue, id)
  {
    if queue != [] {
      assert queue[0].movieId in MovieIds(queue);
    }
  }

  /** By column: a queued scene takes its last queued movie's columns, a row no longer queued loses its queue columns, a
      row that is both keeps the movie without them, and every other row stays. */
  lemma QueueSyncColumns(
    rows: Table, scan: seq<string>, find: int -> Option<Movie>, queue: seq<QueueItem>, now: int, id: string)
    requires CleanKeys(rows) && Lists(scan, rows.Keys) && Answers(find)
    ensures var after, before := AfterQueueSync(rows, scan, find, queue, now), ColumnsOf(Lookup(rows, id));
            var movie, cleared := QueuedFor(rows, scan, find, MovieIds(queue), id), NoLongerQueued(rows, queue, id);
            if movie.Some? then
              && id in after
              && exists taken ::
                   && TakesQueue(before, movie.value, QueuePositionOf(rows, scan, find, MovieIds(queue), id),
                                 Group(queue, movie.value.movieId), now, taken)
                   && after[id].columns == if cleared then WithoutQueue(taken) else taken
            else if cleared then
              && id in after
              && after[id].columns == WithoutQueue(before).(whisparrLastSyncedAt := Some(now), lastSyncedAt := Some(now))
            else Lookup(after, id) == Lookup(rows, id)
  {
    ClearedInWords(rows, queue, id);
    var patch := AfterQueueSyncAt(rows, scan, find, queue, now, id);
    var movie := QueuedFor(rows, scan, find, MovieIds(queue), id);
    if movie.Some? {
      PatchTaken(ColumnsOf(Lookup(rows, id)), movie.value, QueuePositionOf(rows, scan, find, MovieIds(queue), id), queue, now,
                 patch.value, id, ClearedAt(rows, MovieIds(queue), id));
    }
  }

  /** A queued scene shows what its items say, not what its columns keep of them. */
  lemma QueuedLifecycle(
    rows: Table, scan: seq<string>, find: int -> Option<Movie>, queue: seq<QueueItem>, now: int, id: string)
    requires CleanKeys(rows) && Lists(scan, rows.Keys) && Answers(find)
    ensures var after, before := AfterQueueSync(rows, scan, find, queue, now), ColumnsOf(Lookup(rows, id));
            var movie := QueuedFor(rows, scan, find, MovieIds(queue), id);
            movie.Some? ==>
              && id in after
              && after[id].lifecycle
                 == ResolveSceneStatus(movie, Group(queue, movie.value.movieId), before.stashAvailable == Some(true), before.requestStatus)
  {
    var patch := AfterQueueSyncAt(rows, scan, find, queue, now, id);
    QueuedForKnown(rows, scan, find, MovieIds(queue), id);
  }

  lemma PatchTaken(
    before: Columns, movie: Movie, position: nat, queue: seq<QueueItem>, now: int, patch: Patch, id: string, cleared: bool)
    requires IsQueuePatch(patch, movie, position, queue, now)
    ensures var taken := PickColumns(before, patch);
            && TakesQueue(before, movie, position, Group(queue, movie.movieId), now, taken)
            && PickColumns(before, Clearing(Some(patch), cleared, id, now).value) == if cleared then WithoutQueue(taken) else taken
  {
  }

  /** The movie of a queued scene is its row's own, or one that no row holds and the look-up found. */
  lemma {:induction false} QueuedForKnown(rows: Table, scan: seq<string>, find: int -> Option<Movie>, ids: seq<int>, id: string)
    ensures var movie := QueuedFor(rows, scan, find, ids, id);
            movie.Some? ==>
              || (id in rows && OwnMovie(rows[id], id) == movie && movie.value.movieId in ids)
              || (movie.value.stashId == id && exists m :: m in ids && find(m) == movie && RowWithMovie(rows, scan, m).None?)
  {
    if ids != [] {
      QueuedForKnown(rows, scan, find, ids[..|ids| - 1], id);
    }
  }

  function OwnMovie(row: Row, id: string): Option<Movie> {
    if row.columns.movieId.None? then None
    else Some(Movie(row.columns.movieId.value, id, row.columns.hasFile == Some(true)))
  }

  /** No movie found by id is the scene's. */
  ghost predicate NeverFound(find: int -> Option<Movie>, id: string) {
    forall m :: find(m).Some? ==> find(m).value.stashId != id
  }

  /** The sync never takes a movie id from a row, nor gives it another, unless it finds a movie of the scene. */
  lemma QueueSyncKeepsMovie(
    rows: Table, scan: seq<string>, find: int -> Option<Movie>, queue: seq<QueueItem>, now: int, id: string)
    requires CleanKeys(rows) && Lists(scan, rows.Keys) && Answers(find) && id in rows && NeverFound(find, id)
    ensures var after := AfterQueueSync(rows, scan, find, queue, now);
            id in after && after[id].columns.movieId == rows[id].columns.movieId
  {
    QueuedForKnown(rows, scan, find, MovieIds(queue), id);
    var patch := AfterQueueSyncAt(rows, scan, find, queue, now, id);
  }

  /** The items handed over with a scene come with a movie id. */
  lemma QueueEvidenceBringsMovie(
    rows: Table, scan: seq<string>, find: int -> Option<Movie>, queue: seq<QueueItem>, now: int)
    requires CleanKeys(rows) && Lists(scan, rows.Keys) && Answers(find)
    ensures EvidenceBringsMovie(
              QueueMerged(rows, scan, find, queue, now), RunQueue(rows, scan, find, queue, MovieIds(queue), now).evidence)
  {
    var movieIds := MovieIds(queue);
    var run := RunQueue(rows, scan, find, queue, movieIds, now);
    var merged := Merged(run.patches + ClearPatches(rows, scan, movieIds, now));
    forall id | id in merged && id in run.evidence ensures BringsMovie(merged[id]) {
      RunAt(rows, scan, find, queue, movieIds, now, id);
      ClearingAt(run.patches, rows, scan, movieIds, now, id);
    }
  }

  /** What a queued scene's columns show is what its items show: a library scene is available anyway, and for the
      others the condition is on the movie's items, cleared columns showing the movie alone. */
  predicate ColumnsSuffice(available: bool, movie: Movie, cleared: bool, queue: seq<QueueItem>) {
    var readings := QC.Readings(Group(queue, movie.movieId));
    || available
    || (if cleared then ShowsMovieAlone(readings, movie.hasFile)
        else QC.Faithful(readings) || QC.SameWithoutQueue(readings, movie.hasFile))
  }

  /** A strongest item shows nothing, or what a movie without queue items shows. */
  predicate ShowsMovieAlone(readings: seq<QC.Reading>, hasFile: bool) {
    exists k :: 0 <= k < |readings| && QC.Strongest(readings, k)
                && (readings[k].signal == Silent || readings[k].signal == (if hasFile then Importing else Waiting))
  }

  lemma GroupNonEmpty(queue: seq<QueueItem>, m: int)
    requires m in MovieIds(queue)
    ensures Group(queue, m) != [] && forall i :: 0 <= i < |Group(queue, m)| ==> Group(queue, m)[i].movieId == m
  {
    var i :| 0 <= i < |queue| && queue[i].movieId == m;
    assert queue[i] in Group(queue, m);
    forall i | 0 <= i < |Group(queue, m)| ensures Group(queue, m)[i].movieId == m {
      assert Group(queue, m)[i] in Group(queue, m);
    }
  }

  lemma AloneByStrongest(readings: seq<QC.Reading>, k: nat, hasFile: bool)
    requires k < |readings| && QC.Strongest(readings, k)
    ensures ShowsMovieAlone(readings, hasFile)
            <==> readings[k].signal == Silent || readings[k].signal == (if hasFile then Importing else Waiting)
  {
  }

  lemma QueueEmpty(m: int)
    ensures QueueState(m, []) == None
  {
  }

  lemma AloneDecides(movie: Movie, items: seq<QueueItem>, fallback: Option<RequestStatus>)
    requires items != [] && forall i :: 0 <= i < |items| ==> items[i].movieId == movie.movieId
    ensures ResolveSceneStatus(Some(movie), items, false, fallback) == ResolveSceneStatus(Some(movie), [], false, fallback)
            <==> ShowsMovieAlone(QC.Readings(items), movie.hasFile)
  {
    var k := QC.TwoStates(movie.movieId, items);
    AloneByStrongest(QC.Readings(items), k, movie.hasFile);
    QueueEmpty(movie.movieId);
  }

  lemma QueuedRowDerived(
    row: Option<Row>, movie: Movie, cleared: bool, patch: Patch, position: nat, queue: seq<QueueItem>, now: int)
    requires IsQueuePatch(patch, movie, position, queue, now) && movie.movieId in MovieIds(queue)
    ensures var written := Clearing(Some(patch), cleared, movie.stashId, now).value;
            DerivedRow(movie.stashId, BuildRow(row, written, Some(Group(queue, movie.movieId))))
            <==> ColumnsSuffice(ColumnsOf(row).stashAvailable == Some(true), movie, cleared, queue)
  {
    var items := Group(queue, movie.movieId);
    var columns := PickColumns(ColumnsOf(row), Clearing(Some(patch), cleared, movie.stashId, now).value);
    GroupNonEmpty(queue, movie.movieId);
    assert MovieOf(movie.stashId, columns) == Some(movie);
    if cleared {
      assert SynthesizedItems(columns) == [];
      AloneDecides(movie, items, columns.requestStatus);
    } else {
      assert SynthesizedItems(columns) == QC.SynthesizeQueueItems(Some(movie.movieId), QC.SummarizeQueueItems(items));
      QC.ColumnsKeepSceneLifecycle(movie, items, columns.requestStatus);
    }
  }

  lemma ClearedRowDerived(row: Row, id: string, now: int)
    ensures DerivedRow(id, BuildRow(Some(row), Clearing(None, true, id, now).value, None))
  {
  }

  /** The condition on one scene: its columns suffice if it is queued. */
  predicate SufficesAt(rows: Table, scan: seq<string>, find: int -> Option<Movie>, queue: seq<QueueItem>, id: string) {
    var movie := QueuedFor(rows, scan, find, MovieIds(queue), id);
    movie.Some? ==>
      ColumnsSuffice(ColumnsOf(Lookup(rows, id)).stashAvailable == Some(true), movie.value,
                     ClearedAt(rows, MovieIds(queue), id), queue)
  }

  /** The sync leaves every row derived from its own columns exactly when the columns of each queued scene suffice. */
  lemma QueueSyncKeepsDerived(
    rows: Table, scan: seq<string>, find: int -> Option<Movie>, queue: seq<QueueItem>, now: int)
    requires CleanKeys(rows) && Derived(rows)
    requires Lists(scan, rows.Keys) && Answers(find)
    ensures Derived(AfterQueueSync(rows, scan, find, queue, now))
            <==> forall id :: SufficesAt(rows, scan, find, queue, id)
  {
    var after := AfterQueueSync(rows, scan, find, queue, now);
    forall id
      ensures if id in after then DerivedRow(id, after[id]) <==> SufficesAt(rows, scan, find, queue, id)
              else SufficesAt(rows, scan, find, queue, id)
    {
      var patch := AfterQueueSyncAt(rows, scan, find, queue, now, id);
      var movie := QueuedFor(rows, scan, find, MovieIds(queue), id);
      if movie.Some? {
        QueuedForKnown(rows, scan, find, MovieIds(queue), id);
        QueuedRowDerived(Lookup(rows, id), movie.value, ClearedAt(rows, MovieIds(queue), id), patch.value,
                         QueuePositionOf(rows, scan, find, MovieIds(queue), id), queue, now);
      } else if ClearedAt(rows, MovieIds(queue), id) {
        ClearedRowDerived(rows[id], id, now);
      }
    }
  }

  /** No two rows hold the same movie, and the look-up finds no movie that no row holds. */
  ghost predicate Owned(rows: Table, find: int -> Option<Movie>) {
    && (forall id, other ::
          id in rows && other in rows && rows[id].columns.movieId.Some?
          && rows[id].columns.movieId == rows[other].columns.movieId
          ==> id == other)
    && (forall m :: find(m).Some? ==> exists id :: id in rows && rows[id].columns.movieId == Some(m))
  }

  /** The scene's movie is among the queued ones. */
  predicate Queued(rows: Table, ids: seq<int>, id: string) {
    id in rows && rows[id].columns.movieId.Some? && rows[id].columns.movieId.value in ids
  }

  lemma OwnerOf(rows: Table, scan: seq<string>, find: int -> Option<Movie>, m: int, id: string)
    requires Lists(scan, rows.Keys) && Owned(rows, find)
    ensures id in rows && rows[id].columns.movieId == Some(m) ==> RowWithMovie(rows, scan, m) == Some(id)
    ensures RowWithMovie(rows, scan, m).None? ==> find(m).None?
  {
  }

  /** Then a scene is queued exactly when its own movie is. */
  lemma {:induction false} QueuedForOwner(rows: Table, scan: seq<string>, find: int -> Option<Movie>, ids: seq<int>, id: string)
    requires Lists(scan, rows.Keys) && Owned(rows, find)
    ensures QueuedFor(rows, scan, find, ids, id) == if Queued(rows, ids, id) then OwnMovie(rows[id], id) else None
  {
    if ids != [] {
      LastApart(ids);
      QueuedForOwner(rows, scan, find, ids[..|ids| - 1], id);
      OwnerOf(rows, scan, find, ids[|ids| - 1], id);
    }
  }
}
