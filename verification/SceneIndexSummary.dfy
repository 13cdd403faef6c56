/** The incrementally kept summary counters against a recount of the rows (indexing.service.ts). */
module SceneIndexSummary {
  import opened Basics
  import opened SceneStatusResolver
  import opened SceneIndex

  datatype Summary = Summary(
    indexedScenes: int,
    acquisitionTrackedScenes: int,
    requestedCount: int,
    downloadingCount: int,
    importPendingCount: int,
    failedCount: int,
    metadataPendingCount: int,
    metadataRetryableCount: int,
    lastIndexWriteAt: Option<int>)

  /** What a counter counts. */
  datatype Counter = Indexed | AcquisitionTracked | InLifecycle(lifecycle: Lifecycle) | InHydration(hydration: Hydration)

  predicate IsAcquisitionLifecycle(lifecycle: Lifecycle) {
    lifecycle in {Requested, Downloading, ImportPending, Failed}
  }

  predicate Counts(counter: Counter, row: Row) {
    match counter
    case Indexed => true
    case AcquisitionTracked => IsAcquisitionLifecycle(row.lifecycle)
    case InLifecycle(lifecycle) => row.lifecycle == lifecycle
    case InHydration(hydration) => row.columns.hydration == hydration
  }

  function Hits(rows: Table, counter: Counter): set<string> {
    set id | id in rows && Counts(counter, rows[id])
  }

  function Count(rows: Table, counter: Counter): nat {
    |Hits(rows, counter)|
  }

  /** Every counter equals a recount. */
  predicate Exact(rows: Table, summary: Summary) {
    && summary.indexedScenes == Count(rows, Indexed)
    && summary.acquisitionTrackedScenes == Count(rows, AcquisitionTracked)
    && summary.requestedCount == Count(rows, InLifecycle(Requested))
    && summary.downloadingCount == Count(rows, InLifecycle(Downloading))
    && summary.importPendingCount == Count(rows, InLifecycle(ImportPending))
    && summary.failedCount == Count(rows, InLifecycle(Failed))
    && summary.metadataPendingCount == Count(rows, InHydration(Pending))
    && summary.metadataRetryableCount == Count(rows, InHydration(FailedRetryable))
  }

  /** rebuildSceneIndexSummary: the tracked counter is written as the sum of the four lifecycle counters. */
  function Rebuild(rows: Table, newestWriteAt: Option<int>): (summary: Summary) {
    var requested := Count(rows, InLifecycle(Requested));
    var downloading := Count(rows, InLifecycle(Downloading));
    var importPending := Count(rows, InLifecycle(ImportPending));
    var failed := Count(rows, InLifecycle(Failed));
    Summary(
      Count(rows, Indexed), requested + downloading + importPending + failed,
      requested, downloading, importPending, failed,
      Count(rows, InHydration(Pending)), Count(rows, InHydration(FailedRetryable)), newestWriteAt)
  }

  lemma TrackedIsTheSum(rows: Table)
    ensures Count(rows, AcquisitionTracked)
            == Count(rows, InLifecycle(Requested)) + Count(rows, InLifecycle(Downloading))
             + Count(rows, InLifecycle(ImportPending)) + Count(rows, InLifecycle(Failed))
  {
    var requested, downloading := Hits(rows, InLifecycle(Requested)), Hits(rows, InLifecycle(Downloading));
    var importPending, failed := Hits(rows, InLifecycle(ImportPending)), Hits(rows, InLifecycle(Failed));
    assert Hits(rows, AcquisitionTracked) == requested + downloading + importPending + failed;
    assert requested !! downloading && requested + downloading !! importPending;
    assert requested + downloading + importPending !! failed;
  }

  lemma RebuildExact(rows: Table, newestWriteAt: Option<int>)
    ensures Exact(rows, Rebuild(rows, newestWriteAt)) && Rebuild(rows, newestWriteAt).lastIndexWriteAt == newestWriteAt
  {
    TrackedIsTheSum(rows);
  }

  /** In an exact summary the tracked counter is the sum of the four lifecycle counters. */
  lemma ExactTrackedIsTheSum(rows: Table, summary: Summary)
    requires Exact(rows, summary)
    ensures summary.acquisitionTrackedScenes
            == summary.requestedCount + summary.downloadingCount + summary.importPendingCount + summary.failedCount
  {
    TrackedIsTheSum(rows);
  }

  function Indicator(b: bool): int {
    if b then 1 else 0
  }

  function CountDelta(counter: Counter, next: Row, previous: Option<Row>): int {
    Indicator(Counts(counter, next)) - Indicator(previous.Some? && Counts(counter, previous.value))
  }

  const NO_DELTA := Summary(0, 0, 0, 0, 0, 0, 0, 0, None)

  function AddRow(delta: Summary, next: Row, previous: Option<Row>): Summary {
    Summary(
      delta.indexedScenes + (if previous.None? then 1 else 0),
      delta.acquisitionTrackedScenes + CountDelta(AcquisitionTracked, next, previous),
      delta.requestedCount + CountDelta(InLifecycle(Requested), next, previous),
      delta.downloadingCount + CountDelta(InLifecycle(Downloading), next, previous),
      delta.importPendingCount + CountDelta(InLifecycle(ImportPending), next, previous),
      delta.failedCount + CountDelta(InLifecycle(Failed), next, previous),
      delta.metadataPendingCount + CountDelta(InHydration(Pending), next, previous),
      delta.metadataRetryableCount + CountDelta(InHydration(FailedRetryable), next, previous),
      delta.lastIndexWriteAt)
  }

  predicate HasDelta(delta: Summary) {
    delta != NO_DELTA
  }

  function Plus(summary: Summary, delta: Summary): Summary {
    Summary(
      summary.indexedScenes + delta.indexedScenes,
      summary.acquisitionTrackedScenes + delta.acquisitionTrackedScenes,
      summary.requestedCount + delta.requestedCount,
      summary.downloadingCount + delta.downloadingCount,
      summary.importPendingCount + delta.importPendingCount,
      summary.failedCount + delta.failedCount,
      summary.metadataPendingCount + delta.metadataPendingCount,
      summary.metadataRetryableCount + delta.metadataRetryableCount,
      delta.lastIndexWriteAt)
  }

  /** The summary row after the increments of one transaction. */
  function Incremented(summary: Summary, delta: Summary): Summary {
    if HasDelta(delta) then Plus(summary, delta) else summary
  }

  /** The table once the rows of `ids` are upserted. */
  function Written(rows: Table, next: Table, ids: seq<string>): Table
    requires forall id :: id in ids ==> id in next
  {
    if ids == [] then rows
    else Written(rows, next, ids[..|ids| - 1])[ids[|ids| - 1] := next[ids[|ids| - 1]]]
  }

  /** The loop of buildSceneIndexSummaryDelta over one chunk. */
  function DeltaOf(existing: Table, next: Table, ids: seq<string>, now: int): Summary
    requires forall id :: id in ids ==> id in next
  {
    if ids == [] then NO_DELTA.(lastIndexWriteAt := Some(now))
    else
      var last := ids[|ids| - 1];
      AddRow(DeltaOf(existing, next, ids[..|ids| - 1], now), next[last], Lookup(existing, last))
  }

  method BuildSummaryDelta(chunk: seq<string>, next: Table, existing: Table, now: int) returns (delta: Summary)
    requires forall id :: id in chunk ==> id in next
    ensures delta == if chunk == [] then NO_DELTA else DeltaOf(existing, next, chunk, now)
  {
    delta := NO_DELTA.(lastIndexWriteAt := if |chunk| > 0 then Some(now) else None);
    for n := 0 to |chunk|
      invariant delta == if chunk == [] then NO_DELTA else DeltaOf(existing, next, chunk[..n], now)
    {
      assert chunk[..n + 1][..n] == chunk[..n];
      delta := AddRow(delta, next[chunk[n]], Lookup(existing, chunk[n]));
    }
    assert chunk[..|chunk|] == chunk;
  }

  lemma {:induction false} WrittenAt(rows: Table, next: Table, ids: seq<string>, id: string)
    requires forall i :: i in ids ==> i in next
    ensures Lookup(Written(rows, next, ids), id) == if id in ids then Some(next[id]) else Lookup(rows, id)
  {
    if ids != [] {
      WrittenAt(rows, next, ids[..|ids| - 1], id);
    }
  }

  lemma {:induction false} WrittenInTwo(rows: Table, next: Table, ids: seq<string>, more: seq<string>)
    requires forall id :: id in ids + more ==> id in next
    ensures forall id :: id in ids ==> id in next
    ensures forall id :: id in more ==> id in next
    ensures Written(rows, next, ids + more) == Written(Written(rows, next, ids), next, more)
  {
    assert forall id :: id in ids ==> id in ids + more;
    assert forall id :: id in more ==> id in ids + more;
    if more == [] {
      assert ids + more == ids;
    } else {
      var shorter := more[..|more| - 1];
      assert (ids + more)[..|ids + more| - 1] == ids + shorter;
      WrittenInTwo(rows, next, ids, shorter);
    }
  }

  /** One upsert changes a count by the row's delta. */
  lemma CountAfterUpsert(rows: Table, id: string, next: Row, counter: Counter)
    ensures Count(rows[id := next], counter) == Count(rows, counter) + CountDelta(counter, next, Lookup(rows, id))
  {
    var before, after := Hits(rows, counter), Hits(rows[id := next], counter);
    assert forall other :: other != id ==> (other in before <==> other in after);
    assert id in after <==> Counts(counter, next);
    SizesWithout(before, after, id);
  }

  lemma SizesWithout(before: set<string>, after: set<string>, id: string)
    requires forall other :: other != id ==> (other in before <==> other in after)
    ensures |after| == |before| + Indicator(id in after) - Indicator(id in before)
  {
    var rest := before - {id};
    assert after - {id} == rest;
    assert before == if id in before then rest + {id} else rest;
    assert after == if id in after then rest + {id} else rest;
  }

  lemma ExactAfterUpsert(rows: Table, id: string, next: Row, summary: Summary, delta: Summary)
    requires Exact(rows, Plus(summary, delta))
    ensures Exact(rows[id := next], Plus(summary, AddRow(delta, next, Lookup(rows, id))))
  {
    CountAfterUpsert(rows, id, next, Indexed);
    CountAfterUpsert(rows, id, next, AcquisitionTracked);
    CountAfterUpsert(rows, id, next, InLifecycle(Requested));
    CountAfterUpsert(rows, id, next, InLifecycle(Downloading));
    CountAfterUpsert(rows, id, next, InLifecycle(ImportPending));
    CountAfterUpsert(rows, id, next, InLifecycle(Failed));
    CountAfterUpsert(rows, id, next, InHydration(Pending));
    CountAfterUpsert(rows, id, next, InHydration(FailedRetryable));
  }

  lemma {:induction false} DeltaIsTheDifference(
    rows: Table, existing: Table, next: Table, ids: seq<string>, now: int, summary: Summary)
    requires Exact(rows, summary) && NoDuplicates(ids)
    requires forall id :: id in ids ==> id in next && Lookup(existing, id) == Lookup(rows, id)
    ensures Exact(Written(rows, next, ids), Plus(summary, DeltaOf(existing, next, ids, now)))
    ensures DeltaOf(existing, next, ids, now).lastIndexWriteAt == Some(now)
  {
    if ids != [] {
      var n := |ids| - 1;
      var shorter, last := ids[..n], ids[n];
      DeltaIsTheDifference(rows, existing, next, shorter, now, summary);
      WrittenAt(rows, next, shorter, last);
      ExactAfterUpsert(Written(rows, next, shorter), last, next[last], summary, DeltaOf(existing, next, shorter, now));
    }
  }

  /** A chunk written together with its delta leaves an exact summary exact. */
  lemma ChunkKeepsExact(rows: Table, existing: Table, next: Table, ids: seq<string>, now: int, summary: Summary)
    requires Exact(rows, summary) && NoDuplicates(ids)
    requires forall id :: id in ids ==> id in next && Lookup(existing, id) == Lookup(rows, id)
    ensures Exact(Written(rows, next, ids), Incremented(summary, DeltaOf(existing, next, ids, now)))
  {
    DeltaIsTheDifference(rows, existing, next, ids, now, summary);
  }
}
