/** Applying patches to the stored index: chunked, retried on deadlock, mirrored in the summary (indexing.service.ts). */
module SceneIndexStore {
  import opened Basics
  import opened Text
  import opened SceneIndex
  import opened SceneIndexSummary
  import opened WrittenColumns
  import PM = PatchMerging

  const APPLY_PATCH_CHUNK_SIZE := 100
  const UPSERT_DEADLOCK_RETRY_ATTEMPTS := 3

  /** Only whole chunks. */
  predicate WholeChunks(n: nat) {
    n % APPLY_PATCH_CHUNK_SIZE == 0
  }

  lemma NextWholeChunk(n: nat)
    ensures WholeChunks(n) ==> WholeChunks(n + APPLY_PATCH_CHUNK_SIZE)
  {
    if WholeChunks(n) {
      var k := n / 100;
      assert n + 100 == 100 * (k + 1);
    }
  }

  /** How one attempt at the chunk's transaction ends. */
  datatype Fate = Commits | Deadlocks | Fails

  /** The row data the merged patches build on the given rows. */
  function NextRows(existing: Table, merged: map<string, Patch>, items: QueueEvidence): Table {
    map id | id in merged :: BuildRow(Lookup(existing, id), merged[id], Lookup(items, id))
  }

  /** An attempt commits within the limit and every earlier one deadlocked. */
  predicate CommitsInTime(fate: nat -> Fate, attempt: nat)
    decreases UPSERT_DEADLOCK_RETRY_ATTEMPTS - attempt
  {
    && attempt <= UPSERT_DEADLOCK_RETRY_ATTEMPTS
    && (fate(attempt) == Commits || (fate(attempt) == Deadlocks && CommitsInTime(fate, attempt + 1)))
  }

  /** Stable insertion into an ordered list. */
  function Insert(before: (string, string) -> bool, id: string, sorted: seq<string>): (r: seq<string>)
    ensures multiset(r) == multiset(sorted) + multiset{id}
  {
    if sorted == [] then [id]
    else if before(id, sorted[0]) then [id] + sorted
    else
      assert sorted == [sorted[0]] + sorted[1..];
      [sorted[0]] + Insert(before, id, sorted[1..])
  }

  function Sort(before: (string, string) -> bool, ids: seq<string>): (r: seq<string>)
    ensures multiset(r) == multiset(ids)
  {
    if ids == [] then []
    else
      assert ids == ids[..|ids| - 1] + [ids[|ids| - 1]];
      Insert(before, ids[|ids| - 1], Sort(before, ids[..|ids| - 1]))
  }

  lemma ReorderedLists(ids: seq<string>, order: seq<string>, scenes: set<string>)
    requires Lists(ids, scenes) && multiset(order) == multiset(ids)
    ensures Lists(order, scenes)
  {
    forall i, j | 0 <= i < j < |order| ensures order[i] != order[j] {
      if order[i] == order[j] {
        assert order == order[..j] + [order[j]] + order[j + 1..];
        assert order[i] in order[..j];
        assert multiset(order)[order[j]] >= 2;
        DistinctOnce(ids, order[j]);
      }
    }
    forall id ensures id in order <==> id in scenes {
      assert id in multiset(order) <==> id in multiset(ids);
    }
  }

  lemma DistinctOnce(ids: seq<string>, id: string)
    requires NoDuplicates(ids)
    ensures multiset(ids)[id] <= 1
  {
    if ids != [] {
      var shorter := ids[..|ids| - 1];
      assert ids == shorter + [ids[|ids| - 1]];
      DistinctOnce(shorter, id);
      assert id == ids[|ids| - 1] ==> id !in shorter;
    }
  }

  /** Whatever the order of the scenes, writing all of them is applying the merged patches. */
  lemma WrittenInAnyOrder(rows: Table, merged: map<string, Patch>, items: QueueEvidence, ids: seq<string>)
    requires Lists(ids, merged.Keys)
    ensures forall id :: id in ids ==> id in merged
    ensures Written(rows, NextRows(rows, merged, items), ids) == Applied(rows, merged, items)
  {
    var next := NextRows(rows, merged, items);
    forall id ensures Lookup(Written(rows, next, ids), id) == Lookup(Applied(rows, merged, items), id) {
      WrittenAt(rows, next, ids, id);
    }
    LookupsDecide(Written(rows, next, ids), Applied(rows, merged, items));
  }

  lemma {:induction false} WrittenAgrees(rows: Table, next: Table, other: Table, ids: seq<string>)
    requires forall id :: id in ids ==> id in next && id in other && next[id] == other[id]
    ensures Written(rows, next, ids) == Written(rows, other, ids)
  {
    if ids != [] {
      WrittenAgrees(rows, next, other, ids[..|ids| - 1]);
    }
  }

  /** The fates of the attempts at the chunk that starts at `start`. */
  function FateOf(fate: (nat, nat) -> Fate, start: nat): nat -> Fate {
    (attempt: nat) => fate(start, attempt)
  }

  /** How many of `size` scenes are written from chunk start `start` on: up to the first chunk that does not commit. */
  function Committed(fate: (nat, nat) -> Fate, start: nat, size: nat): (end: nat)
    requires start <= size
    ensures start <= end <= size
    decreases size - start
  {
    if start < size && CommitsInTime(FateOf(fate, start), 1) then
      Committed(fate, if start + APPLY_PATCH_CHUNK_SIZE < size then start + APPLY_PATCH_CHUNK_SIZE else size, size)
    else start
  }

  /** Every chunk commits in time. */
  predicate AllCommit(fate: (nat, nat) -> Fate, size: nat) {
    Committed(fate, 0, size) == size
  }

  /** The chunk that fails is the first one that does not commit in time. */
  lemma {:induction false} FirstFailingChunk(fate: (nat, nat) -> Fate, start: nat, size: nat)
    requires start <= size && WholeChunks(start)
    ensures var end := Committed(fate, start, size);
            && (end < size ==> WholeChunks(end) && !CommitsInTime(FateOf(fate, end), 1))
            && (forall i :: start <= i < end && WholeChunks(i) ==> CommitsInTime(FateOf(fate, i), 1))
    decreases size - start
  {
    if start < size && CommitsInTime(FateOf(fate, start), 1) && start + APPLY_PATCH_CHUNK_SIZE < size {
      NextWholeChunk(start);
      FirstFailingChunk(fate, start + APPLY_PATCH_CHUNK_SIZE, size);
    }
    forall i | start <= i < Committed(fate, start, size) && WholeChunks(i) ensures CommitsInTime(FateOf(fate, i), 1) {
      if start < i {
        NextChunkStart(start, i);
      }
    }
  }

  lemma NextChunkStart(i: nat, j: nat)
    requires WholeChunks(i) && WholeChunks(j) && i < j
    ensures i + APPLY_PATCH_CHUNK_SIZE <= j
  {
  }

  class SceneIndexStore {
    var rows: Table
    var summary: Option<Summary>

    constructor ()
      ensures rows == map[] && summary == None
    {
      rows := map[];
      summary := None;
    }

    /** The summary row, once present, equals a recount. */
    predicate SummaryHolds()
      reads this
    {
      summary.Some? ==> Exact(rows, summary.value)
    }

    method EnsureSceneIndexSummary(newestWriteAt: Option<int>)
      requires SummaryHolds()
      modifies this`summary
      ensures summary == if old(summary).Some? then old(summary) else Some(Rebuild(rows, newestWriteAt))
      ensures summary.Some? && SummaryHolds()
    {
      if summary.None? {
        RebuildExact(rows, newestWriteAt);
        summary := Some(Rebuild(rows, newestWriteAt));
      }
    }

    /** An attempt that commits: the rows and the increments together. */
    method WriteChunk(chunk: seq<string>, merged: map<string, Patch>, items: QueueEvidence, existing: Table, now: int)
      returns (known: Table)
      requires summary.Some? && SummaryHolds()
      requires NoDuplicates(chunk)
      requires forall id :: id in chunk ==> id in merged && Lookup(existing, id) == Lookup(rows, id)
      modifies this
      ensures rows == Written(old(rows), NextRows(existing, merged, items), chunk)
      ensures known == Written(existing, NextRows(existing, merged, items), chunk)
      ensures summary.Some? && SummaryHolds()
      ensures chunk != [] ==> summary.value.lastIndexWriteAt == Some(now)
    {
      var next := NextRows(existing, merged, items);
      var delta := BuildSummaryDelta(chunk, next, existing, now);
      if chunk != [] {
        ChunkKeepsExact(rows, existing, next, chunk, now, summary.value);
        DeltaIsTheDifference(rows, existing, next, chunk, now, summary.value);
      }
      rows := Written(rows, next, chunk);
      summary := Some(Incremented(summary.value, delta));
      return Written(existing, next, chunk);
    }

    method ExecutePatchChunk(
      chunk: seq<string>, merged: map<string, Patch>, items: QueueEvidence, existing: Table,
      fate: nat -> Fate, now: int)
      returns (ok: bool, known: Table)
      requires summary.Some? && SummaryHolds()
      requires NoDuplicates(chunk)
      requires forall id :: id in chunk ==> id in merged && Lookup(existing, id) == Lookup(rows, id)
      modifies this
      ensures ok <==> CommitsInTime(fate, 1)
      ensures var next := NextRows(existing, merged, items);
              if ok then rows == Written(old(rows), next, chunk) && known == Written(existing, next, chunk)
              else rows == old(rows) && summary == old(summary) && known == existing
      ensures summary.Some? && SummaryHolds()
      ensures ok && chunk != [] ==> summary.value.lastIndexWriteAt == Some(now)
    {
      var attempt := 1;
      while attempt <= UPSERT_DEADLOCK_RETRY_ATTEMPTS
        invariant 1 <= attempt <= UPSERT_DEADLOCK_RETRY_ATTEMPTS
        invariant rows == old(rows) && summary == old(summary)
        invariant CommitsInTime(fate, 1) <==> CommitsInTime(fate, attempt)
      {
        match fate(attempt) {
          case Commits =>
            known := WriteChunk(chunk, merged, items, existing, now);
            return true, known;
          case Fails =>
            return false, existing;
          case Deadlocks =>
            if attempt >= UPSERT_DEADLOCK_RETRY_ATTEMPTS {
              return false, existing;
            }
            attempt := attempt + 1;
        }
      }
    }

    /** The chunk loop, which stops at the first chunk that does not commit. `written` lists the scenes whose chunks
        committed. */
    method ApplyChunks(
      ids: seq<string>, merged: map<string, Patch>, items: QueueEvidence, known: Table,
      fate: (nat, nat) -> Fate, now: int)
      returns (ok: bool, written: seq<string>)
      requires summary.Some? && SummaryHolds()
      requires NoDuplicates(ids) && forall id :: id in ids ==> id in merged && Lookup(known, id) == Lookup(rows, id)
      modifies this
      ensures summary.Some? && SummaryHolds()
      ensures written <= ids && |written| == Committed(fate, 0, |ids|)
      ensures ok <==> AllCommit(fate, |ids|)
      ensures !ok ==> |written| < |ids| && WholeChunks(|written|)
      ensures forall id :: id in written ==> id in merged
      ensures rows == Written(old(rows), NextRows(old(rows), merged, items), written)
    {
      ghost var next := NextRows(rows, merged, items);
      var existing := known;
      var i := 0;
      while i < |ids|
        invariant 0 <= i <= |ids| && (i < |ids| ==> WholeChunks(i))
        invariant Committed(fate, 0, |ids|) == Committed(fate, i, |ids|)
        invariant summary.Some? && SummaryHolds()
        invariant Reached(old(rows), next, ids, i, rows, existing)
      {
        var end := if i + APPLY_PATCH_CHUNK_SIZE < |ids| then i + APPLY_PATCH_CHUNK_SIZE else |ids|;
        ghost var later := NextRows(existing, merged, items);
        UnwrittenTargets(old(rows), merged, items, ids, i, end, rows, existing);
        NextChunk(old(rows), next, later, ids, i, end, rows, existing);
        var committed;
        committed, existing :=
          ExecutePatchChunk(ids[i..end], merged, items, existing, FateOf(fate, i), now);
        if !committed {
          return false, ids[..i];
        }
        NextWholeChunk(i);
        i := end;
      }
      assert ids[..|ids|] == ids;
      return true, ids;
    }

    /** What a call does behind the write barrier. */
    method ApplySceneIndexPatches(
      patches: seq<Patch>, items: QueueEvidence, before: (string, string) -> bool,
      fate: (nat, nat) -> Fate, now: int, newestWriteAt: Option<int>)
      returns (ok: bool, written: seq<string>)
      requires SummaryHolds()
      modifies this
      ensures SummaryHolds()
      ensures forall id :: id in written ==> id in Merged(patches)
      ensures NoDuplicates(written) && |written| == Committed(fate, 0, |Merged(patches)|)
      ensures ok <==> AllCommit(fate, |Merged(patches)|)
      ensures rows == Written(old(rows), NextRows(old(rows), Merged(patches), items), written)
      ensures ok ==> rows == Applied(old(rows), Merged(patches), items)
      ensures TableWritten(patches, old(rows), written, rows)
      ensures ok ==> forall id :: id in written <==> Mentioned(patches, id)
      ensures CleanKeys(old(rows)) ==> CleanKeys(rows)
      ensures Derived(old(rows)) ==>
                (Derived(rows) <==> forall id :: id in written ==> EvidenceAgrees(old(rows), Merged(patches), items, id))
      ensures EvidenceBringsMovie(Merged(patches), items) && DerivedUnlessMovie(old(rows)) ==> DerivedUnlessMovie(rows)
      ensures !ok ==> |written| < |Merged(patches)| && WholeChunks(|written|)
    {
      var firstSeen, merged := MergePatchesByStashId(patches);
      var ids := Sort(before, firstSeen);
      ReorderedLists(firstSeen, ids, merged.Keys);
      if |ids| == 0 {
        NothingMerged(rows, merged, items, ids);
        written := [];
        AllMentioned(patches, written, ids);
        assert rows == Written(rows, NextRows(rows, merged, items), written);
        return true, written;
      }
      EnsureSceneIndexSummary(newestWriteAt);
      var existing := KnownRows(rows, merged);
      ok, written := ApplyChunks(ids, merged, items, existing, fate, now);
      PrefixDistinct(written, ids);
      WriteComplete(old(rows), merged, items, ids, written, rows);
      WriteKeeps(old(rows), patches, items, written, rows);
      WriteInColumns(old(rows), patches, items, written, rows);
      if ok {
        AllMentioned(patches, written, ids);
      }
    }
  }

  lemma NothingMerged(rows: Table, merged: map<string, Patch>, items: QueueEvidence, ids: seq<string>)
    requires Lists(ids, merged.Keys) && ids == []
    ensures Applied(rows, merged, items) == rows
  {
    WrittenInAnyOrder(rows, merged, items, ids);
  }

  lemma AllWritten(start: Table, merged: map<string, Patch>, items: QueueEvidence, ids: seq<string>)
    requires Lists(ids, merged.Keys)
    ensures |ids| == |merged| && forall id :: id in ids ==> id in merged
    ensures Written(start, NextRows(start, merged, items), ids) == Applied(start, merged, items)
  {
    WrittenInAnyOrder(start, merged, items, ids);
    ListedSize(ids, merged.Keys);
  }

  /** A write that got through the whole list has applied the merged patches. */
  lemma WriteComplete(
    start: Table, merged: map<string, Patch>, items: QueueEvidence, ids: seq<string>, written: seq<string>, after: Table)
    requires Lists(ids, merged.Keys) && written <= ids && forall id :: id in written ==> id in merged
    requires after == Written(start, NextRows(start, merged, items), written)
    ensures |ids| == |merged| && (|written| == |ids| ==> after == Applied(start, merged, items))
  {
    AllWritten(start, merged, items, ids);
    assert |written| == |ids| ==> written == ids;
  }

  lemma PrefixDistinct<T>(s: seq<T>, t: seq<T>)
    requires NoDuplicates(t) && s <= t
    ensures NoDuplicates(s)
  {
  }

  /** Only scenes under trimmed, non-blank ids are ever written. */
  lemma WrittenClean(rows: Table, patches: seq<Patch>, next: Table, ids: seq<string>)
    requires forall id :: id in ids ==> id in next && id in Merged(patches)
    ensures CleanKeys(rows) ==> CleanKeys(Written(rows, next, ids))
  {
    PM.MergedKeys(patches);
    if CleanKeys(rows) {
      forall id | id in Written(rows, next, ids) ensures CleanId(id) {
        WrittenAt(rows, next, ids, id);
      }
    }
  }

  /** The queue items handed over for the scene, if any, give the lifecycle that its new columns give. */
  ghost predicate EvidenceAgrees(rows: Table, merged: map<string, Patch>, items: QueueEvidence, id: string) {
    id in merged && id in items ==>
      var columns := PickColumns(ColumnsOf(Lookup(rows, id)), merged[id]);
      ComputeLifecycle(id, columns, Some(items[id])) == ComputeLifecycle(id, columns, None)
  }

  lemma NextRowDerived(rows: Table, merged: map<string, Patch>, items: QueueEvidence, id: string)
    requires id in merged && merged[id].stashId == id
    ensures DerivedRow(id, NextRows(rows, merged, items)[id]) <==> EvidenceAgrees(rows, merged, items, id)
  {
  }

  /** However far a write gets, every row it leaves is derived from its own columns exactly when the evidence of
      every scene written agrees with them; without evidence it always does. */
  lemma WrittenDerived(rows: Table, patches: seq<Patch>, items: QueueEvidence, ids: seq<string>)
    requires Derived(rows) && forall id :: id in ids ==> id in Merged(patches)
    ensures Derived(Written(rows, NextRows(rows, Merged(patches), items), ids))
            <==> forall id :: id in ids ==> EvidenceAgrees(rows, Merged(patches), items, id)
  {
    PM.MergedKeys(patches);
    var merged := Merged(patches);
    var after := Written(rows, NextRows(rows, merged, items), ids);
    forall id ensures id in ids ==> id in after && (DerivedRow(id, after[id]) <==> EvidenceAgrees(rows, merged, items, id))
              ensures id !in ids ==> Lookup(after, id) == Lookup(rows, id) {
      WrittenAt(rows, NextRows(rows, merged, items), ids, id);
      if id in ids {
        NextRowDerived(rows, merged, items, id);
      }
    }
    DerivedWhere(rows, after, ids);
  }

  lemma DerivedWhere(rows: Table, after: Table, ids: seq<string>)
    requires Derived(rows)
    requires forall id :: if id in ids then id in after else Lookup(after, id) == Lookup(rows, id)
    ensures Derived(after) <==> forall id :: id in ids ==> DerivedRow(id, after[id])
  {
    forall id | id in after && id !in ids ensures DerivedRow(id, after[id]) {
      assert Lookup(after, id) == Lookup(rows, id);
    }
  }

  predicate BringsMovie(patch: Patch) {
    patch.movieId.Given? && patch.movieId.value.Some?
  }

  /** Queue items are handed over only for scenes whose patch gives a movie id. */
  ghost predicate EvidenceBringsMovie(merged: map<string, Patch>, items: QueueEvidence) {
    forall id :: id in merged && id in items ==> BringsMovie(merged[id])
  }

  /** However far such a write gets, the rows without a movie stay derived from their own columns. */
  lemma WrittenKeepsDerivedUnlessMovie(rows: Table, patches: seq<Patch>, items: QueueEvidence, ids: seq<string>)
    requires DerivedUnlessMovie(rows) && forall id :: id in ids ==> id in Merged(patches)
    requires EvidenceBringsMovie(Merged(patches), items)
    ensures DerivedUnlessMovie(Written(rows, NextRows(rows, Merged(patches), items), ids))
  {
    PM.MergedKeys(patches);
    var merged := Merged(patches);
    var after := Written(rows, NextRows(rows, merged, items), ids);
    forall id | id in after && after[id].columns.movieId.None? ensures DerivedRow(id, after[id]) {
      WrittenAt(rows, NextRows(rows, merged, items), ids, id);
      if id in ids {
        NextRowDerived(rows, merged, items, id);
      }
    }
  }

  /** The rows in whatever order the database returns them. */
  method FetchOrder(rows: Table) returns (scan: seq<string>)
    ensures Lists(scan, rows.Keys)
  {
    scan := [];
    var rest := rows.Keys;
    while rest != {}
      invariant rest <= rows.Keys && Lists(scan, rows.Keys - rest)
      decreases rest
    {
      var id :| id in rest;
      ListsSnoc(scan, rows.Keys - rest, id);
      assert rows.Keys - (rest - {id}) == (rows.Keys - rest) + {id};
      scan, rest := scan + [id], rest - {id};
    }
  }

  /** The scenes written have their columns from the patches, and no other row has changed. */
  ghost predicate TableWritten(patches: seq<Patch>, before: Table, written: seq<string>, after: Table) {
    forall id ::
      if id in written then id in after && RowWritten(patches, id, Lookup(before, id), after[id])
      else Lookup(after, id) == Lookup(before, id)
  }

  lemma WriteInColumns(rows: Table, patches: seq<Patch>, items: QueueEvidence, ids: seq<string>, after: Table)
    requires forall id :: id in ids ==> id in Merged(patches)
    requires after == Written(rows, NextRows(rows, Merged(patches), items), ids)
    ensures TableWritten(patches, rows, ids, after)
  {
    forall id
      ensures if id in ids then id in after && RowWritten(patches, id, Lookup(rows, id), after[id])
              else Lookup(after, id) == Lookup(rows, id)
    {
      WrittenAt(rows, NextRows(rows, Merged(patches), items), ids, id);
      if id in ids {
        BuiltRowWritten(patches, id, Lookup(rows, id), Lookup(items, id));
      }
    }
  }

  lemma AllMentioned(patches: seq<Patch>, written: seq<string>, ids: seq<string>)
    requires Lists(ids, Merged(patches).Keys) && written == ids
    ensures forall id :: id in written <==> Mentioned(patches, id)
  {
    forall id ensures id in written <==> Mentioned(patches, id) {
      MergedIsMentioned(patches, id);
    }
  }

  /** What a write keeps, however far it gets. */
  lemma WriteKeeps(rows: Table, patches: seq<Patch>, items: QueueEvidence, ids: seq<string>, after: Table)
    requires forall id :: id in ids ==> id in Merged(patches)
    requires after == Written(rows, NextRows(rows, Merged(patches), items), ids)
    ensures CleanKeys(rows) ==> CleanKeys(after)
    ensures Derived(rows) ==> (Derived(after) <==> forall id :: id in ids ==> EvidenceAgrees(rows, Merged(patches), items, id))
    ensures EvidenceBringsMovie(Merged(patches), items) && DerivedUnlessMovie(rows) ==> DerivedUnlessMovie(after)
  {
    WrittenClean(rows, patches, NextRows(rows, Merged(patches), items), ids);
    if Derived(rows) {
      WrittenDerived(rows, patches, items, ids);
    }
    if EvidenceBringsMovie(Merged(patches), items) && DerivedUnlessMovie(rows) {
      WrittenKeepsDerivedUnlessMovie(rows, patches, items, ids);
    }
  }

  /** The rows fetched for the merged patches. */
  function KnownRows(rows: Table, merged: map<string, Patch>): (known: Table)
    ensures forall id :: id in merged ==> Lookup(known, id) == Lookup(rows, id)
  {
    map id | id in merged && id in rows :: rows[id]
  }

  /** The first `done` scenes are written, and the rows known to the call are the stored ones. */
  ghost predicate Reached(start: Table, next: Table, ids: seq<string>, done: nat, rows: Table, known: Table) {
    && done <= |ids|
    && (forall id :: id in ids ==> id in next && Lookup(known, id) == Lookup(rows, id))
    && (forall id :: id in ids[..done] ==> id in ids)
    && rows == Written(start, next, ids[..done])
  }

  /** A scene not yet written has the target row it had at the start. */
  lemma UnwrittenTargets(
    start: Table, merged: map<string, Patch>, items: QueueEvidence, ids: seq<string>, done: nat, end: nat,
    rows: Table, known: Table)
    requires NoDuplicates(ids) && done <= end <= |ids|
    requires Reached(start, NextRows(start, merged, items), ids, done, rows, known)
    ensures NoDuplicates(ids[done..end])
    ensures forall id :: id in ids[done..end] ==>
              && id in ids
              && id in NextRows(known, merged, items)
              && NextRows(known, merged, items)[id] == NextRows(start, merged, items)[id]
  {
    forall id | id in ids[done..end]
      ensures && id in ids
              && id in NextRows(known, merged, items)
              && NextRows(known, merged, items)[id] == NextRows(start, merged, items)[id]
    {
      assert id in ids && id !in ids[..done];
      WrittenAt(start, NextRows(start, merged, items), ids[..done], id);
    }
  }

  /** The next chunk, built on the rows known so far, extends what has been written. */
  lemma {:induction false} NextChunk(
    start: Table, next: Table, later: Table, ids: seq<string>, done: nat, end: nat, rows: Table, known: Table)
    requires done <= end <= |ids|
    requires Reached(start, next, ids, done, rows, known)
    requires forall id :: id in ids[done..end] ==> id in ids && id in later && later[id] == next[id]
    ensures Reached(start, next, ids, end, Written(rows, later, ids[done..end]), Written(known, later, ids[done..end]))
  {
    var chunk := ids[done..end];
    assert forall id :: id in ids[..end] ==> id in ids;
    WrittenAgrees(rows, later, next, chunk);
    assert ids[..end] == ids[..done] + chunk;
    WrittenInTwo(start, next, ids[..done], chunk);
    forall id | id in ids ensures Lookup(Written(known, later, chunk), id) == Lookup(Written(rows, later, chunk), id) {
      WrittenAt(known, later, chunk, id);
      WrittenAt(rows, later, chunk, id);
    }
  }
}
