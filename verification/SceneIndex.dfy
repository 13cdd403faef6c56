/** Scene index rows, partial patches and how a patch is built into a row (indexing.service.ts). */
module SceneIndex {
  import opened Basics
  import opened Text
  import opened SceneStatusResolver
  import QC = QueueColumns

  datatype Hydration = Pending | Hydrated | FailedRetryable

  /** The stored columns; `display` stands for the title, image, studio and other shown fields. */
  datatype Columns = Columns(
    requestStatus: Option<RequestStatus>,
    requestUpdatedAt: Option<int>,
    display: Option<string>,
    movieId: Option<int>,
    hasFile: Option<bool>,
    queuePosition: Option<int>,
    queueStatus: Option<string>,
    queueState: Option<string>,
    errorMessage: Option<string>,
    stashAvailable: Option<bool>,
    hydration: Hydration,
    metadataLastSyncedAt: Option<int>,
    metadataRetryAfterAt: Option<int>,
    whisparrLastSyncedAt: Option<int>,
    stashLastSyncedAt: Option<int>,
    lastSyncedAt: Option<int>)

  datatype Row = Row(columns: Columns, lifecycle: Lifecycle, sortOrder: nat)

  type Table = map<string, Row>

  /** The queue items a sync hands over beside the patches, by scene. */
  type QueueEvidence = map<string, seq<QueueItem>>

  /** A property of a patch object: missing, present with the value `undefined`, or present with a value. */
  datatype Field<+T> = Absent | Undefined | Given(value: T)

  datatype Patch = Patch(
    stashId: string,
    requestStatus: Field<Option<RequestStatus>> := Absent,
    requestUpdatedAt: Field<Option<int>> := Absent,
    display: Field<Option<string>> := Absent,
    movieId: Field<Option<int>> := Absent,
    hasFile: Field<Option<bool>> := Absent,
    queuePosition: Field<Option<int>> := Absent,
    queueStatus: Field<Option<string>> := Absent,
    queueState: Field<Option<string>> := Absent,
    errorMessage: Field<Option<string>> := Absent,
    stashAvailable: Field<Option<bool>> := Absent,
    hydration: Field<Hydration> := Absent,
    metadataLastSyncedAt: Field<Option<int>> := Absent,
    metadataRetryAfterAt: Field<Option<int>> := Absent,
    whisparrLastSyncedAt: Field<Option<int>> := Absent,
    stashLastSyncedAt: Field<Option<int>> := Absent,
    lastSyncedAt: Field<Option<int>> := Absent)

  const BLANK_COLUMNS := Columns(
    None, None, None, None, None, None, None, None, None, None, Pending, None, None, None, None, None)

  function PickValue<T>(incoming: Field<T>, existing: T): T {
    if incoming.Given? then incoming.value else existing
  }

  function PickColumns(existing: Columns, patch: Patch): Columns {
    Columns(
      PickValue(patch.requestStatus, existing.requestStatus),
      PickValue(patch.requestUpdatedAt, existing.requestUpdatedAt),
      PickValue(patch.display, existing.display),
      PickValue(patch.movieId, existing.movieId),
      PickValue(patch.hasFile, existing.hasFile),
      PickValue(patch.queuePosition, existing.queuePosition),
      PickValue(patch.queueStatus, existing.queueStatus),
      PickValue(patch.queueState, existing.queueState),
      PickValue(patch.errorMessage, existing.errorMessage),
      PickValue(patch.stashAvailable, existing.stashAvailable),
      PickValue(patch.hydration, existing.hydration),
      PickValue(patch.metadataLastSyncedAt, existing.metadataLastSyncedAt),
      PickValue(patch.metadataRetryAfterAt, existing.metadataRetryAfterAt),
      PickValue(patch.whisparrLastSyncedAt, existing.whisparrLastSyncedAt),
      PickValue(patch.stashLastSyncedAt, existing.stashLastSyncedAt),
      PickValue(patch.lastSyncedAt, existing.lastSyncedAt))
  }

  function MovieOf(stashId: string, columns: Columns): Option<Movie> {
    if columns.movieId.Some? then Some(Movie(columns.movieId.value, stashId, columns.hasFile == Some(true)))
    else None
  }

  function SynthesizedItems(columns: Columns): seq<QueueItem> {
    QC.SynthesizeQueueItems(columns.movieId, QC.Columns(columns.queueStatus, columns.queueState, columns.errorMessage))
  }

  function ComputeLifecycle(stashId: string, columns: Columns, items: Option<seq<QueueItem>>): Lifecycle {
    ResolveSceneStatus(
      MovieOf(stashId, columns),
      if items.Some? then items.value else SynthesizedItems(columns),
      columns.stashAvailable == Some(true),
      columns.requestStatus)
  }

  function LifecycleSortOrder(lifecycle: Lifecycle): nat {
    match lifecycle
    case Failed => 0
    case Downloading => 1
    case ImportPending => 2
    case Requested => 3
    case Available => 90
    case NotRequested => 100
  }

  const BY_URGENCY := [Failed, Downloading, ImportPending, Requested, Available, NotRequested]

  /** Rows sort by urgency, failures first and unrequested scenes last. */
  lemma SortsByUrgency(i: nat, j: nat)
    requires i < |BY_URGENCY| && j < |BY_URGENCY|
    ensures LifecycleSortOrder(BY_URGENCY[i]) < LifecycleSortOrder(BY_URGENCY[j]) <==> i < j
    ensures LifecycleSortOrder(BY_URGENCY[i]) == [0, 1, 2, 3, 90, 100][i]
  {
  }

  function ColumnsOf(existing: Option<Row>): Columns {
    if existing.Some? then existing.value.columns else BLANK_COLUMNS
  }

  function RowOf(stashId: string, columns: Columns, items: Option<seq<QueueItem>>): Row {
    var lifecycle := ComputeLifecycle(stashId, columns, items);
    Row(columns, lifecycle, LifecycleSortOrder(lifecycle))
  }

  /** The row data a patch upserts. */
  function BuildRow(existing: Option<Row>, patch: Patch, items: Option<seq<QueueItem>>): Row {
    RowOf(patch.stashId, PickColumns(ColumnsOf(existing), patch), items)
  }

  /** The lifecycle is the one its own columns give, and the sort order is that of the lifecycle. */
  ghost predicate DerivedRow(stashId: string, row: Row) {
    row == RowOf(stashId, row.columns, None)
  }

  ghost predicate Derived(rows: Table) {
    forall id :: id in rows ==> DerivedRow(id, rows[id])
  }

  /** Every row without a movie is; one with a movie may show what its queue items say. */
  ghost predicate DerivedUnlessMovie(rows: Table) {
    forall id :: id in rows && rows[id].columns.movieId.None? ==> DerivedRow(id, rows[id])
  }

  ghost predicate CleanKeys(rows: Table) {
    forall id :: id in rows ==> CleanId(id)
  }

  function SpreadField<T>(earlier: Field<T>, later: Field<T>): Field<T> {
    if later.Absent? then earlier else later
  }

  /** `{ ...earlier, ...later, stashId }` */
  function Spread(stashId: string, earlier: Patch, later: Patch): Patch {
    Patch(
      stashId,
      SpreadField(earlier.requestStatus, later.requestStatus),
      SpreadField(earlier.requestUpdatedAt, later.requestUpdatedAt),
      SpreadField(earlier.display, later.display),
      SpreadField(earlier.movieId, later.movieId),
      SpreadField(earlier.hasFile, later.hasFile),
      SpreadField(earlier.queuePosition, later.queuePosition),
      SpreadField(earlier.queueStatus, later.queueStatus),
      SpreadField(earlier.queueState, later.queueState),
      SpreadField(earlier.errorMessage, later.errorMessage),
      SpreadField(earlier.stashAvailable, later.stashAvailable),
      SpreadField(earlier.hydration, later.hydration),
      SpreadField(earlier.metadataLastSyncedAt, later.metadataLastSyncedAt),
      SpreadField(earlier.metadataRetryAfterAt, later.metadataRetryAfterAt),
      SpreadField(earlier.whisparrLastSyncedAt, later.whisparrLastSyncedAt),
      SpreadField(earlier.stashLastSyncedAt, later.stashLastSyncedAt),
      SpreadField(earlier.lastSyncedAt, later.lastSyncedAt))
  }

  /** One turn of the merge loop. */
  function MergeInto(merged: map<string, Patch>, patch: Patch): map<string, Patch> {
    var stashId := Trim(patch.stashId);
    if stashId == "" then merged
    else
      var earlier := if stashId in merged then merged[stashId] else Patch(stashId);
      merged[stashId := Spread(stashId, earlier, patch)]
  }

  /** The merged patches by scene. */
  function Merged(patches: seq<Patch>): map<string, Patch> {
    if patches == [] then map[]
    else MergeInto(Merged(patches[..|patches| - 1]), patches[|patches| - 1])
  }

  /** The table after every merged patch has been written. */
  function Applied(rows: Table, merged: map<string, Patch>, items: QueueEvidence): Table {
    map id | id in rows.Keys + merged.Keys ::
      if id in merged then BuildRow(Lookup(rows, id), merged[id], Lookup(items, id)) else rows[id]
  }

  /** Fills the merge map in order, keeping its keys in the order of first insertion. */
  method MergePatchesByStashId(patches: seq<Patch>) returns (ids: seq<string>, merged: map<string, Patch>)
    ensures merged == Merged(patches)
    ensures Lists(ids, merged.Keys)
  {
    ids, merged := [], map[];
    for n := 0 to |patches|
      invariant merged == Merged(patches[..n])
      invariant Lists(ids, merged.Keys)
    {
      var patch := patches[n];
      MergedSnoc(patches, n);
      var stashId := Trim(patch.stashId);
      if stashId == "" {
        continue;
      }
      if stashId !in merged {
        ListsSnoc(ids, merged.Keys, stashId);
        ids := ids + [stashId];
      }
      var earlier := if stashId in merged then merged[stashId] else Patch(stashId);
      merged := merged[stashId := Spread(stashId, earlier, patch)];
    }
    assert patches[..|patches|] == patches;
  }

  lemma MergedSnoc(patches: seq<Patch>, n: nat)
    requires n < |patches|
    ensures Merged(patches[..n + 1]) == MergeInto(Merged(patches[..n]), patches[n])
    ensures Merged(patches[..n + 1]).Keys ==
            Merged(patches[..n]).Keys + (if Trim(patches[n].stashId) == "" then {} else {Trim(patches[n].stashId)})
  {
    assert patches[..n + 1][..n] == patches[..n];
  }
}
