/** Resolving one scene and resolving a batch (scene-status.service.ts). */
module StatusService {
  import opened Basics
  import opened Text
  import opened SceneStatusResolver
  import opened SceneIndex
  import opened SyncState
  import IR = IndexRefinement

  const INDEX_STATUS_MAX_AGE_MS := 30 * 60_000
  const REQUEST_ROWS_FRESHNESS_MAX_AGE_MS := 2 * 60_000
  const SNAPSHOT_FRESHNESS_MAX_AGE_MS := 20 * 60_000
  const STASH_BATCH_SIZE := 6
  const WHISPARR_BATCH_SIZE := 8

  datatype Whisparr = Whisparr(movieOf: string -> Answer<Option<Movie>>, queue: Answer<seq<QueueItem>>)

  /** What the service reads: the index, the job rows, the request rows, and the two providers where they are configured;
      Stash is asked only when a catalog provider is active as well. */
  datatype Sources = Sources(
    rows: Table,
    now: int,
    jobs: Jobs,
    hasStash: bool,
    requests: map<string, RequestStatus>,
    stash: Option<string -> Answer<bool>>,
    whisparr: Option<Whisparr>)

  predicate IsIndexedStatusUsable(row: Row, now: int) {
    row.columns.lastSyncedAt.Some? && now - row.columns.lastSyncedAt.value <= INDEX_STATUS_MAX_AGE_MS
  }

  predicate Fresh(src: Sources, id: string) {
    id in src.rows && IsIndexedStatusUsable(src.rows[id], src.now)
  }

  predicate IsSuccessfulSyncFresh(state: Option<JobRow>, maxAgeMs: int, now: int) {
    state.Some? && state.value.status == SUCCEEDED && state.value.lastSuccessAt.Some?
    && now - state.value.lastSuccessAt.value <= maxAgeMs
  }

  /** canResolveUnknownScenesAsNotRequested: the syncs that bring scenes in have all succeeded lately. */
  predicate UnknownIsNotRequested(src: Sources) {
    && IsSuccessfulSyncFresh(Lookup(src.jobs, REQUEST_ROWS), REQUEST_ROWS_FRESHNESS_MAX_AGE_MS, src.now)
    && (src.whisparr.Some? ==>
          IsSuccessfulSyncFresh(Lookup(src.jobs, WHISPARR_MOVIES), SNAPSHOT_FRESHNESS_MAX_AGE_MS, src.now))
    && (src.hasStash ==>
          IsSuccessfulSyncFresh(Lookup(src.jobs, LIBRARY_PROJECTION), SNAPSHOT_FRESHNESS_MAX_AGE_MS, src.now))
  }

  /** A failed look-up counts as absent. */
  predicate StashSaysAvailable(src: Sources, id: string) {
    src.stash.Some? && src.stash.value(id) == Answered(true)
  }

  function Fallback(src: Sources, id: string): Lifecycle {
    ResolveSceneStatus(None, [], StashSaysAvailable(src, id), Lookup(src.requests, id))
  }

  /** resolveForScene on a trimmed id. */
  function ResolveTrimmed(src: Sources, id: string): Lifecycle {
    if id == "" then NotRequested
    else if Fresh(src, id) then src.rows[id].lifecycle
    else if UnknownIsNotRequested(src) then NotRequested
    else if StashSaysAvailable(src, id) then Available
    else if src.whisparr.None? then Fallback(src, id)
    else
      var movie, queue := src.whisparr.value.movieOf(id), src.whisparr.value.queue;
      if movie.Threw? || queue.Threw? then Fallback(src, id)
      else ResolveSceneStatus(movie.value, queue.value, false, Lookup(src.requests, id))
  }

  function ResolveForScene(src: Sources, stashId: string): Lifecycle {
    ResolveTrimmed(src, Trim(stashId))
  }

  /** The job's last run succeeded no longer ago than that. */
  predicate SucceededWithin(src: Sources, job: JobName, ms: int) {
    && job in src.jobs && src.jobs[job].status == SUCCEEDED && src.jobs[job].lastSuccessAt.Some?
    && src.now <= src.jobs[job].lastSuccessAt.value + ms
  }

  /** The index has a row of the scene synced in the last thirty minutes. */
  predicate IndexAnswers(src: Sources, id: string) {
    && id in src.rows && src.rows[id].columns.lastSyncedAt.Some?
    && src.now <= src.rows[id].columns.lastSyncedAt.value + 30 * 60_000
  }

  /** Request rows were synced in the last two minutes, and movies and library in the last twenty where configured. */
  predicate SyncsAreFresh(src: Sources) {
    && SucceededWithin(src, REQUEST_ROWS, 2 * 60_000)
    && (src.whisparr.Some? ==> SucceededWithin(src, WHISPARR_MOVIES, 20 * 60_000))
    && (src.hasStash ==> SucceededWithin(src, LIBRARY_PROJECTION, 20 * 60_000))
  }

  /** Both Whisparr look-ups answer, and with a movie. */
  predicate WhisparrHasMovie(src: Sources, id: string) {
    && src.whisparr.Some? && src.whisparr.value.queue.Answered?
    && src.whisparr.value.movieOf(id).Answered? && src.whisparr.value.movieOf(id).value.Some?
  }

  /** The movie's queue items say the state; without any, its file does. */
  ghost predicate MovieSays(movie: Movie, queue: seq<QueueItem>, status: Lifecycle) {
    || StateInWords(movie.movieId, queue, Some(status))
    || (StateInWords(movie.movieId, queue, None) && status == if movie.hasFile then ImportPending else Lifecycle.Requested)
  }

  /** The request says the status when nothing else does. */
  predicate RequestSays(src: Sources, id: string, status: Lifecycle) {
    && (status == Lifecycle.Failed <==> id in src.requests && src.requests[id] == RequestStatus.FAILED)
    && (status == Lifecycle.Requested <==> id in src.requests && src.requests[id] != RequestStatus.FAILED)
    && (status == NotRequested <==> id !in src.requests)
  }

  /** What a scene is answered: by its row, as not requested while the syncs are fresh, by Stash, by Whisparr, or, when
      Whisparr is missing, fails or knows no movie, by the request. */
  ghost predicate AnswerInWords(src: Sources, id: string, status: Lifecycle) {
    if IndexAnswers(src, id) then status == src.rows[id].lifecycle
    else if SyncsAreFresh(src) then status == NotRequested
    else if src.stash.Some? && src.stash.value(id) == Answered(true) then status == Available
    else if WhisparrHasMovie(src, id) then
      MovieSays(src.whisparr.value.movieOf(id).value.value, src.whisparr.value.queue.value, status)
    else RequestSays(src, id, status)
  }

  /** Every path gives the answer it should. */
  lemma EveryAnswer(src: Sources, id: string)
    requires id != ""
    ensures AnswerInWords(src, id, ResolveTrimmed(src, id))
  {
    if WhisparrHasMovie(src, id) {
      MovieAnswers(src.whisparr.value.movieOf(id).value.value, src.whisparr.value.queue.value, Lookup(src.requests, id));
    }
  }

  lemma MovieAnswers(movie: Movie, queue: seq<QueueItem>, request: Option<RequestStatus>)
    ensures MovieSays(movie, queue, ResolveSceneStatus(Some(movie), queue, false, request))
  {
    QueueStateInWords(movie.movieId, queue);
  }

  lemma OneSceneInWords(src: Sources, stashId: string)
    ensures if Trim(stashId) == "" then ResolveForScene(src, stashId) == NotRequested
            else AnswerInWords(src, Trim(stashId), ResolveForScene(src, stashId))
  {
    if Trim(stashId) != "" {
      EveryAnswer(src, Trim(stashId));
    }
  }

  /** Looks the scenes up six at a time; failures leave no entry. */
  method ResolveStashAvailability(src: Sources, ids: seq<string>) returns (available: map<string, bool>)
    ensures forall id :: id in available ==> id in ids
    ensures forall id :: id in ids ==> (StashSaysAvailable(src, id) <==> id in available && available[id])
  {
    available := map[];
    if src.stash.None? {
      return;
    }
    var i := 0;
    while i < |ids|
      invariant 0 <= i <= |ids|
      invariant forall id :: id in available ==> id in ids[..i]
      invariant forall id :: id in ids[..i] ==> (StashSaysAvailable(src, id) <==> id in available && available[id])
    {
      var end := if i + STASH_BATCH_SIZE < |ids| then i + STASH_BATCH_SIZE else |ids|;
      for n := i to end
        invariant forall id :: id in available ==> id in ids[..n]
        invariant forall id :: id in ids[..n] ==> (StashSaysAvailable(src, id) <==> id in available && available[id])
      {
        assert ids[..n + 1] == ids[..n] + [ids[n]];
        var answer := src.stash.value(ids[n]);
        if answer.Answered? {
          available := available[ids[n] := answer.value];
        }
      }
      i := end;
    }
    assert ids[..|ids|] == ids;
  }

  /** The movie a scene is looked up to have; a failure or a miss gives none. */
  function MovieFound(whisparr: Whisparr, id: string): Option<Movie> {
    var answer := whisparr.movieOf(id);
    if answer.Answered? then answer.value else None
  }

  method LookupWhisparrMovies(whisparr: Whisparr, ids: seq<string>) returns (movies: map<string, Movie>)
    ensures forall id :: id in ids ==> Lookup(movies, id) == MovieFound(whisparr, id)
  {
    movies := map[];
    var i := 0;
    while i < |ids|
      invariant 0 <= i <= |ids|
      invariant forall id :: id in movies ==> Some(movies[id]) == MovieFound(whisparr, id)
      invariant forall id :: id in ids[..i] ==> Lookup(movies, id) == MovieFound(whisparr, id)
    {
      var end := if i + WHISPARR_BATCH_SIZE < |ids| then i + WHISPARR_BATCH_SIZE else |ids|;
      for n := i to end
        invariant forall id :: id in ids[..n] ==> Lookup(movies, id) == MovieFound(whisparr, id)
        invariant forall id :: id in movies ==> Some(movies[id]) == MovieFound(whisparr, id)
      {
        assert ids[..n + 1] == ids[..n] + [ids[n]];
        var answer := whisparr.movieOf(ids[n]);
        if answer.Answered? && answer.value.Some? {
          movies := movies[ids[n] := answer.value.value];
        }
      }
      i := end;
    }
    assert ids[..|ids|] == ids;
  }

  method MergeResolvedStatuses(src: Sources, ids: seq<string>, indexed: set<string>, resolved: map<string, Lifecycle>)
    returns (merged: map<string, Lifecycle>)
    requires indexed <= src.rows.Keys
    ensures forall id :: id in merged <==> id in ids && (id in indexed || id in resolved)
    ensures forall id :: id in merged ==> merged[id] == if id in indexed then src.rows[id].lifecycle else resolved[id]
  {
    merged := map[];
    for n := 0 to |ids|
      invariant forall id :: id in merged <==> id in ids[..n] && (id in indexed || id in resolved)
      invariant forall id :: id in merged ==> merged[id] == if id in indexed then src.rows[id].lifecycle else resolved[id]
    {
      assert ids[..n + 1] == ids[..n] + [ids[n]];
      if ids[n] in indexed {
        merged := merged[ids[n] := src.rows[ids[n]].lifecycle];
        continue;
      }
      if ids[n] in resolved {
        merged := merged[ids[n] := resolved[ids[n]]];
      }
    }
    assert ids[..|ids|] == ids;
  }

  /** A scene's status when the index does not answer for it, before the providers are asked. */
  function FallbackWith(src: Sources, available: map<string, bool>, id: string): Lifecycle {
    ResolveSceneStatus(None, [], Lookup(available, id) == Some(true), Lookup(src.requests, id))
  }

  /** The ids no provider says are available are resolved with their movie and the queue. */
  method ResolveRemote(src: Sources, remote: seq<string>, fallbacks: map<string, Lifecycle>)
    returns (resolved: map<string, Lifecycle>)
    requires src.whisparr.Some? && src.whisparr.value.queue.Answered?
    requires forall id :: id in remote ==>
               id != "" && id in fallbacks && !Fresh(src, id) && !UnknownIsNotRequested(src) && !StashSaysAvailable(src, id)
    ensures resolved.Keys == fallbacks.Keys
    ensures forall id :: id in resolved ==> resolved[id] == if id in remote then ResolveTrimmed(src, id) else fallbacks[id]
  {
    var movies := LookupWhisparrMovies(src.whisparr.value, remote);
    resolved := fallbacks;
    for n := 0 to |remote|
      invariant resolved.Keys == fallbacks.Keys
      invariant forall id :: id in resolved ==>
                  resolved[id] == if id in remote[..n] then ResolveTrimmed(src, id) else fallbacks[id]
    {
      var id := remote[n];
      assert id in remote && remote[..n + 1] == remote[..n] + [id];
      RemoteResolves(src, id, Lookup(movies, id));
      resolved := resolved[id := ResolveSceneStatus(
        Lookup(movies, id), src.whisparr.value.queue.value, false, Lookup(src.requests, id))];
    }
    assert remote[..|remote|] == remote;
  }

  /** The ids the index does not answer for. */
  method ResolveUnresolved(src: Sources, unresolved: seq<string>) returns (resolved: map<string, Lifecycle>)
    requires forall id :: id in unresolved ==> id != "" && !Fresh(src, id)
    ensures forall id :: id in resolved <==> id in unresolved
    ensures forall id :: id in resolved ==> resolved[id] == ResolveTrimmed(src, id)
  {
    if UnknownIsNotRequested(src) {
      return map id | id in unresolved :: NotRequested;
    }
    var available := ResolveStashAvailability(src, unresolved);
    var fallbacks := map id | id in unresolved :: FallbackWith(src, available, id);
    forall id | id in unresolved
      ensures FallbackWith(src, available, id) == Fallback(src, id)
    {
    }
    if src.whisparr.None? {
      return fallbacks;
    }
    var remote := Filter(id => Lookup(available, id) != Some(true), unresolved);
    if remote == [] || src.whisparr.value.queue.Threw? {
      return fallbacks;
    }
    resolved := ResolveRemote(src, remote, fallbacks);
  }

  method ResolveForScenes(src: Sources, stashIds: seq<string>) returns (statuses: map<string, Lifecycle>)
    ensures forall id :: id in statuses <==> id in NormalizedIds(stashIds)
    ensures forall id :: id in statuses ==> statuses[id] == ResolveTrimmed(src, id)
    ensures forall id :: id in statuses ==> AnswerInWords(src, id, statuses[id])
  {
    var ids := NormalizedIds(stashIds);
    NormalizedNonBlank(stashIds);
    forall id | id in ids ensures AnswerInWords(src, id, ResolveTrimmed(src, id)) {
      EveryAnswer(src, id);
    }
    if ids == [] {
      return map[];
    }
    var indexed := set id | id in ids && Fresh(src, id);
    var resolved: map<string, Lifecycle> := map[];
    if |indexed| == |ids| {
      AllIndexed(src, ids, indexed);
    } else {
      var unresolved := Filter(id => id !in indexed, ids);
      if unresolved != [] {
        resolved := ResolveUnresolved(src, unresolved);
      }
    }
    statuses := MergeResolvedStatuses(src, ids, indexed, resolved);
  }

  /** A queue snapshot and movies the caller already has. */
  datatype Evidence = Evidence(queue: Option<seq<QueueItem>>, movies: Option<map<string, Movie>>)

  /** What Whisparr answers when the evidence stands in for its answers. */
  function WithEvidence(src: Sources, evidence: Evidence): Sources {
    if src.whisparr.None? then src
    else
      var whisparr := src.whisparr.value;
      src.(whisparr := Some(Whisparr(
        if evidence.movies.Some? then (id: string) => Answered(Lookup(evidence.movies.value, id)) else whisparr.movieOf,
        if evidence.queue.Some? then Answered(evidence.queue.value) else whisparr.queue)))
  }

  /** The queue and the movies handed over stand in for Whisparr's answers where it is configured, a scene without a movie
      among them having none; everything else is as it was. */
  lemma EvidenceInWords(src: Sources, evidence: Evidence, id: string)
    ensures var with := WithEvidence(src, evidence);
            && with == src.(whisparr := with.whisparr) && (with.whisparr.Some? <==> src.whisparr.Some?)
            && (src.whisparr.Some? ==>
                  && with.whisparr.value.queue
                     == (if evidence.queue.Some? then Answered(evidence.queue.value) else src.whisparr.value.queue)
                  && with.whisparr.value.movieOf(id)
                     == (if evidence.movies.None? then src.whisparr.value.movieOf(id)
                         else if id in evidence.movies.value then Answered(Some(evidence.movies.value[id]))
                         else Answered(None)))
  {
  }

  method ResolveForScenesWithEvidence(src: Sources, stashIds: seq<string>, evidence: Evidence)
    returns (statuses: map<string, Lifecycle>)
    ensures forall id :: id in statuses <==> id in NormalizedIds(stashIds)
    ensures forall id :: id in statuses ==> statuses[id] == ResolveTrimmed(WithEvidence(src, evidence), id)
  {
    statuses := ResolveForScenes(WithEvidence(src, evidence), stashIds);
  }

  lemma RemoteResolves(src: Sources, id: string, movie: Option<Movie>)
    requires id != "" && !Fresh(src, id) && !UnknownIsNotRequested(src) && !StashSaysAvailable(src, id)
    requires src.whisparr.Some? && src.whisparr.value.queue.Answered?
    requires movie == MovieFound(src.whisparr.value, id)
    ensures ResolveTrimmed(src, id)
            == ResolveSceneStatus(movie, src.whisparr.value.queue.value, false, Lookup(src.requests, id))
  {
  }

  lemma AllIndexed(src: Sources, ids: seq<string>, indexed: set<string>)
    requires NoDuplicates(ids) && indexed == (set id | id in ids && Fresh(src, id)) && |indexed| == |ids|
    ensures forall id :: id in ids ==> id in indexed
  {
    var all := set id | id in ids;
    ListedSize(ids, all);
    SubsetOfSameSize(indexed, all);
  }

  /** The batch has exactly the distinct trimmed non-blank ids, each with what resolving it alone gives. */
  lemma BatchKeysAndSingles(src: Sources, stashIds: seq<string>)
    ensures forall i :: 0 <= i < |stashIds| ==>
              if Trim(stashIds[i]) == "" then ResolveForScene(src, stashIds[i]) == NotRequested
              else Trim(stashIds[i]) in NormalizedIds(stashIds)
                   && ResolveForScene(src, stashIds[i]) == ResolveTrimmed(src, Trim(stashIds[i]))
    ensures forall id :: id in NormalizedIds(stashIds) ==> exists i :: 0 <= i < |stashIds| && NonBlank(stashIds[i]) == Some(id)
  {
    var ids := MapSeq(NonBlank, stashIds);
    DistinctMembers(ids);
    forall i | 0 <= i < |stashIds| && Trim(stashIds[i]) != "" ensures Trim(stashIds[i]) in NormalizedIds(stashIds) {
      assert ids[i] == Some(Trim(stashIds[i]));
    }
    forall id | id in NormalizedIds(stashIds) ensures exists i :: 0 <= i < |stashIds| && NonBlank(stashIds[i]) == Some(id) {
      var i :| 0 <= i < |ids| && ids[i] == Some(id);
      assert NonBlank(stashIds[i]) == ids[i];
    }
  }

  /** The sources of a world that does not change, with an index kept over it. */
  ghost predicate Reads(src: Sources, world: IR.World) {
    && IR.Refines(world, src.rows)
    && (forall id :: Lookup(src.requests, id) == IR.StatusOf(world, id))
    && src.hasStash && src.stash.Some? && (forall id :: src.stash.value(id) == Answered(IR.InLibrary(world, id)))
    && src.whisparr.Some? && src.whisparr.value.queue == Answered(world.queue)
    && (forall id :: src.whisparr.value.movieOf(id) == Answered(IR.MovieFor(world, id)))
  }

  /** Over a refined index every path gives the live answer, except that an outdated row is not consulted
      while unknown scenes count as not requested. */
  lemma EveryPathIsLive(src: Sources, world: IR.World, id: string)
    requires Reads(src, world) && CleanId(id)
    ensures ResolveForScene(src, id) == IR.Live(world, id)
            <==> !(UnknownIsNotRequested(src) && id in src.rows && !Fresh(src, id) && src.rows[id].lifecycle != NotRequested)
  {
    if id in src.rows {
      assert IR.IsLive(world, id, src.rows[id]);
    }
  }
}
