/** What a write makes of each column, read off the patches (indexing.service.ts). */
module WrittenColumns {
  import opened Basics
  import opened Text
  import opened SceneStatusResolver
  import opened SceneIndex
  import opened PatchMerging
  import opened MergeCondition

  /** The last patch of the scene that has the property at all. */
  function LastMention(patches: seq<Patch>, id: string, c: Column): (k: Option<nat>)
    ensures k.Some? ==> k.value < |patches|
  {
    if patches == [] then None
    else
      var n := |patches| - 1;
      if Trim(patches[n].stashId) == id && Property(patches[n], c) != Missing then Some(n)
      else LastMention(patches[..n], id, c)
  }

  /** A column takes a value that is given and stays as it was otherwise. */
  predicate Takes<T(==)>(given: Field<T>, before: T, after: T) {
    match given
    case Given(value) => after == value
    case _ => after == before
  }

  /** The column after a write of patches whose last one to mention it is `last`. */
  predicate ColumnTaken(last: Patch, before: Columns, after: Columns, c: Column) {
    match c
    case RequestStatusColumn => Takes(last.requestStatus, before.requestStatus, after.requestStatus)
    case RequestUpdatedAtColumn => Takes(last.requestUpdatedAt, before.requestUpdatedAt, after.requestUpdatedAt)
    case DisplayColumn => Takes(last.display, before.display, after.display)
    case MovieIdColumn => Takes(last.movieId, before.movieId, after.movieId)
    case HasFileColumn => Takes(last.hasFile, before.hasFile, after.hasFile)
    case QueuePositionColumn => Takes(last.queuePosition, before.queuePosition, after.queuePosition)
    case QueueStatusColumn => Takes(last.queueStatus, before.queueStatus, after.queueStatus)
    case QueueStateColumn => Takes(last.queueState, before.queueState, after.queueState)
    case ErrorMessageColumn => Takes(last.errorMessage, before.errorMessage, after.errorMessage)
    case StashAvailableColumn => Takes(last.stashAvailable, before.stashAvailable, after.stashAvailable)
    case HydrationColumn => Takes(last.hydration, before.hydration, after.hydration)
    case MetadataLastSyncedAtColumn => Takes(last.metadataLastSyncedAt, before.metadataLastSyncedAt, after.metadataLastSyncedAt)
    case MetadataRetryAfterAtColumn => Takes(last.metadataRetryAfterAt, before.metadataRetryAfterAt, after.metadataRetryAfterAt)
    case WhisparrLastSyncedAtColumn => Takes(last.whisparrLastSyncedAt, before.whisparrLastSyncedAt, after.whisparrLastSyncedAt)
    case StashLastSyncedAtColumn => Takes(last.stashLastSyncedAt, before.stashLastSyncedAt, after.stashLastSyncedAt)
    case LastSyncedAtColumn => Takes(last.lastSyncedAt, before.lastSyncedAt, after.lastSyncedAt)
  }

  /** The columns of a new row: nothing is known and its metadata is pending. */
  predicate IsNew(columns: Columns) {
    && columns.requestStatus == None && columns.requestUpdatedAt == None && columns.display == None
    && columns.movieId == None && columns.hasFile == None
    && columns.queuePosition == None && columns.queueStatus == None && columns.queueState == None && columns.errorMessage == None
    && columns.stashAvailable == None && columns.hydration == Pending
    && columns.metadataLastSyncedAt == None && columns.metadataRetryAfterAt == None
    && columns.whisparrLastSyncedAt == None && columns.stashLastSyncedAt == None && columns.lastSyncedAt == None
  }

  /** Each column holds the last thing the scene's patches say about it, if that is a value, and otherwise what it held
      before. */
  ghost predicate ColumnsWritten(patches: seq<Patch>, id: string, before: Columns, after: Columns) {
    forall c: Column :: ColumnWritten(patches, id, before, after, c)
  }

  predicate ColumnWritten(patches: seq<Patch>, id: string, before: Columns, after: Columns, c: Column) {
    var k := LastMention(patches, id, c);
    ColumnTaken(if k.Some? then patches[k.value] else Patch(id), before, after, c)
  }

  /** The row a write leaves for a scene, over the row before it or over none. */
  ghost predicate RowWritten(patches: seq<Patch>, id: string, before: Option<Row>, after: Row) {
    if before.Some? then ColumnsWritten(patches, id, before.value.columns, after.columns)
    else exists blank :: IsNew(blank) && ColumnsWritten(patches, id, blank, after.columns)
  }

  /** Some patch is the scene's. */
  predicate Mentioned(patches: seq<Patch>, id: string) {
    id != "" && exists k :: 0 <= k < |patches| && Trim(patches[k].stashId) == id
  }

  /** The two patches have the same property. */
  predicate SameAt(p: Patch, q: Patch, c: Column) {
    match c
    case RequestStatusColumn => p.requestStatus == q.requestStatus
    case RequestUpdatedAtColumn => p.requestUpdatedAt == q.requestUpdatedAt
    case DisplayColumn => p.display == q.display
    case MovieIdColumn => p.movieId == q.movieId
    case HasFileColumn => p.hasFile == q.hasFile
    case QueuePositionColumn => p.queuePosition == q.queuePosition
    case QueueStatusColumn => p.queueStatus == q.queueStatus
    case QueueStateColumn => p.queueState == q.queueState
    case ErrorMessageColumn => p.errorMessage == q.errorMessage
    case StashAvailableColumn => p.stashAvailable == q.stashAvailable
    case HydrationColumn => p.hydration == q.hydration
    case MetadataLastSyncedAtColumn => p.metadataLastSyncedAt == q.metadataLastSyncedAt
    case MetadataRetryAfterAtColumn => p.metadataRetryAfterAt == q.metadataRetryAfterAt
    case WhisparrLastSyncedAtColumn => p.whisparrLastSyncedAt == q.whisparrLastSyncedAt
    case StashLastSyncedAtColumn => p.stashLastSyncedAt == q.stashLastSyncedAt
    case LastSyncedAtColumn => p.lastSyncedAt == q.lastSyncedAt
  }

  lemma SpreadAt(id: string, earlier: Patch, later: Patch, c: Column)
    ensures SameAt(Spread(id, earlier, later), if Property(later, c) == Missing then earlier else later, c)
  {
  }

  lemma SameThrough(p: Patch, q: Patch, r: Patch, c: Column)
    requires SameAt(p, q, c) && SameAt(q, r, c)
    ensures SameAt(p, r, c)
  {
  }

  lemma {:induction false} MergedMention(patches: seq<Patch>, id: string, c: Column)
    requires id != ""
    ensures var k := LastMention(patches, id, c);
            SameAt(Earlier(Merged(patches), id), if k.Some? then patches[k.value] else Patch(id), c)
  {
    if patches != [] {
      var n := |patches| - 1;
      MergedMention(patches[..n], id, c);
      LastApart(patches);
      MergedSnocAt(patches[..n], patches[n], id);
      if SceneOf(patches[n]) == id {
        SpreadAt(id, Earlier(Merged(patches[..n]), id), patches[n], c);
        MentionStep(Spread(id, Earlier(Merged(patches[..n]), id), patches[n]), patches, id, c);
      }
    }
  }

  lemma MentionStep(merged: Patch, patches: seq<Patch>, id: string, c: Column)
    requires patches != [] && Trim(patches[|patches| - 1].stashId) == id
    requires var n := |patches| - 1;
             var k := LastMention(patches[..n], id, c);
             var earlier := Earlier(Merged(patches[..n]), id);
             && SameAt(earlier, if k.Some? then patches[..n][k.value] else Patch(id), c)
             && SameAt(merged, if Property(patches[n], c) == Missing then earlier else patches[n], c)
    ensures var k := LastMention(patches, id, c);
            SameAt(merged, if k.Some? then patches[k.value] else Patch(id), c)
  {
    var n := |patches| - 1;
    var k := LastMention(patches[..n], id, c);
    if Property(patches[n], c) == Missing {
      SameThrough(merged, Earlier(Merged(patches[..n]), id), if k.Some? then patches[..n][k.value] else Patch(id), c);
    }
  }

  lemma {:induction false} MergedIsMentioned(patches: seq<Patch>, id: string)
    ensures id in Merged(patches) <==> Mentioned(patches, id)
  {
    if patches != [] {
      var n := |patches| - 1;
      MergedIsMentioned(patches[..n], id);
      MentionedSnoc(patches, id);
      LastApart(patches);
      MergedSnocAt(patches[..n], patches[n], id);
    }
  }

  lemma MentionedSnoc(patches: seq<Patch>, id: string)
    requires patches != []
    ensures var n := |patches| - 1;
            Mentioned(patches, id) <==> Mentioned(patches[..n], id) || (id != "" && SceneOf(patches[n]) == id)
  {
    var n := |patches| - 1;
    assert forall k :: 0 <= k < n ==> patches[..n][k] == patches[k];
    if Mentioned(patches[..n], id) {
      var k :| 0 <= k < n && Trim(patches[..n][k].stashId) == id;
      assert Trim(patches[k].stashId) == id;
    }
  }

  lemma PickedAt(p: Patch, q: Patch, before: Columns, c: Column)
    requires SameAt(p, q, c)
    ensures ColumnTaken(q, before, PickColumns(before, p), c)
  {
  }

  /** The row built from the merged patch. */
  lemma BuiltRowWritten(patches: seq<Patch>, id: string, existing: Option<Row>, items: Option<seq<QueueItem>>)
    requires id in Merged(patches)
    ensures RowWritten(patches, id, existing, BuildRow(existing, Merged(patches)[id], items))
  {
    MergedIsMentioned(patches, id);
    var before := ColumnsOf(existing);
    var after := PickColumns(before, Merged(patches)[id]);
    forall c: Column ensures ColumnWritten(patches, id, before, after, c) {
      var k := LastMention(patches, id, c);
      MergedMention(patches, id, c);
      PickedAt(Merged(patches)[id], if k.Some? then patches[k.value] else Patch(id), before, c);
    }
    assert ColumnsWritten(patches, id, before, after);
    assert existing.None? ==> IsNew(before);
  }
}
