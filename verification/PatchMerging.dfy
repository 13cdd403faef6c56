/** Writing merged patches once and writing the patches one by one (indexing.service.ts). */
module PatchMerging {
  import opened Basics
  import opened Text
  import opened SceneStatusResolver
  import opened SceneIndex

  /** Writing each patch on its own, in order. */
  function ApplyEach(rows: Table, patches: seq<Patch>): Table {
    if patches == [] then rows
    else Applied(ApplyEach(rows, patches[..|patches| - 1]), Merged([patches[|patches| - 1]]), map[])
  }

  /** Without the properties whose value is `undefined`. */
  function CleanField<T>(field: Field<T>): Field<T> {
    if field.Undefined? then Absent else field
  }

  function CleanPatch(patch: Patch): Patch {
    Patch(
      patch.stashId,
      CleanField(patch.requestStatus),
      CleanField(patch.requestUpdatedAt),
      CleanField(patch.display),
      CleanField(patch.movieId),
      CleanField(patch.hasFile),
      CleanField(patch.queuePosition),
      CleanField(patch.queueStatus),
      CleanField(patch.queueState),
      CleanField(patch.errorMessage),
      CleanField(patch.stashAvailable),
      CleanField(patch.hydration),
      CleanField(patch.metadataLastSyncedAt),
      CleanField(patch.metadataRetryAfterAt),
      CleanField(patch.whisparrLastSyncedAt),
      CleanField(patch.stashLastSyncedAt),
      CleanField(patch.lastSyncedAt))
  }

  function CleanAll(patches: seq<Patch>): seq<Patch> {
    MapSeq(CleanPatch, patches)
  }

  function CleanValues(merged: map<string, Patch>): map<string, Patch> {
    map id | id in merged :: CleanPatch(merged[id])
  }

  /** Dropping the `undefined` properties before or after merging makes no difference. */
  predicate MergeCommutes(patches: seq<Patch>) {
    CleanValues(Merged(patches)) == Merged(CleanAll(patches))
  }

  /** What one scene's row becomes under the patches taken one by one. */
  function RowAfter(id: string, row: Option<Row>, patches: seq<Patch>): Option<Row> {
    if patches == [] then row
    else
      var earlier := RowAfter(id, row, patches[..|patches| - 1]);
      var last := patches[|patches| - 1];
      if Trim(last.stashId) == id && id != "" then Some(BuildRow(earlier, Spread(id, Patch(id), last), None)) else earlier
  }

  function Rebuilt(row: Option<Row>, patch: Option<Patch>): Option<Row> {
    if patch.Some? then Some(BuildRow(row, patch.value, None)) else row
  }

  lemma AppliedAt(rows: Table, merged: map<string, Patch>, id: string)
    ensures Lookup(Applied(rows, merged, map[]), id) == Rebuilt(Lookup(rows, id), Lookup(merged, id))
  {
  }

  lemma MergedOne(patch: Patch)
    ensures Merged([patch]) == MergeInto(map[], patch)
  {
    assert [patch][..0] == [];
  }

  lemma {:induction false} ApplyEachAt(rows: Table, patches: seq<Patch>, id: string)
    ensures Lookup(ApplyEach(rows, patches), id) == RowAfter(id, Lookup(rows, id), patches)
  {
    if patches != [] {
      var before, last := patches[..|patches| - 1], patches[|patches| - 1];
      ApplyEachAt(rows, before, id);
      MergedOne(last);
      AppliedAt(ApplyEach(rows, before), Merged([last]), id);
    }
  }

  /** Picking twice is picking once from the spread patches, once `undefined` is dropped. */
  lemma PickTwice(id: string, columns: Columns, earlier: Patch, later: Patch)
    ensures PickColumns(PickColumns(columns, earlier), Spread(id, Patch(id), later))
            == PickColumns(columns, Spread(id, earlier, CleanPatch(later)))
  {
  }

  lemma {:induction false} RowAfterMerged(id: string, row: Option<Row>, patches: seq<Patch>)
    ensures RowAfter(id, row, patches) == Rebuilt(row, Lookup(Merged(CleanAll(patches)), id))
  {
    if patches != [] {
      var before, last := patches[..|patches| - 1], patches[|patches| - 1];
      RowAfterMerged(id, row, before);
      assert CleanAll(patches)[..|patches| - 1] == CleanAll(before);
      StepMerged(id, row, Merged(CleanAll(before)), last);
    }
  }

  lemma StepMerged(id: string, row: Option<Row>, merged: map<string, Patch>, last: Patch)
    ensures var earlier := Rebuilt(row, Lookup(merged, id));
            (if Trim(last.stashId) == id && id != "" then Some(BuildRow(earlier, Spread(id, Patch(id), last), None)) else earlier)
            == Rebuilt(row, Lookup(MergeInto(merged, CleanPatch(last)), id))
  {
    if Trim(last.stashId) == id && id != "" {
      if id in merged {
        PickTwice(id, ColumnsOf(row), merged[id], last);
      } else {
        PickTwice(id, ColumnsOf(row), Patch(id), last);
      }
    }
  }

  lemma CleanPicksTheSame(columns: Columns, patch: Patch)
    ensures PickColumns(columns, CleanPatch(patch)) == PickColumns(columns, patch)
  {
  }

  lemma OnceAndEachAt(rows: Table, patches: seq<Patch>, id: string)
    ensures Lookup(Applied(rows, Merged(patches), map[]), id) == Rebuilt(Lookup(rows, id), Lookup(Merged(patches), id))
    ensures Lookup(ApplyEach(rows, patches), id) == Rebuilt(Lookup(rows, id), Lookup(Merged(CleanAll(patches)), id))
  {
    AppliedAt(rows, Merged(patches), id);
    ApplyEachAt(rows, patches, id);
    RowAfterMerged(id, Lookup(rows, id), patches);
  }

  lemma SameCleanSameRow(row: Option<Row>, patches: seq<Patch>, id: string)
    requires MergeCommutes(patches)
    ensures Rebuilt(row, Lookup(Merged(patches), id)) == Rebuilt(row, Lookup(Merged(CleanAll(patches)), id))
  {
    var once, each := Merged(patches), Merged(CleanAll(patches));
    assert CleanValues(once) == each;
    assert id in once <==> id in each;
    if id in once {
      CleanPicksTheSame(ColumnsOf(row), once[id]);
    }
  }

  /** Every merged patch is filed under its own scene. */
  ghost predicate Filed(merged: map<string, Patch>) {
    forall id :: id in merged ==> merged[id].stashId == id && CleanId(id)
  }

  ghost predicate AllClean(merged: map<string, Patch>) {
    forall id :: id in merged ==> CleanPatch(merged[id]) == merged[id]
  }

  lemma {:induction false} MergedKeys(patches: seq<Patch>)
    ensures Filed(Merged(patches))
    ensures Merged(patches).Keys == Merged(CleanAll(patches)).Keys
    ensures AllClean(Merged(CleanAll(patches)))
  {
    if patches != [] {
      var before, last := patches[..|patches| - 1], patches[|patches| - 1];
      MergedKeys(before);
      assert CleanAll(patches)[..|patches| - 1] == CleanAll(before);
      MergeIntoFiled(Merged(before), last);
      MergeIntoClean(Merged(CleanAll(before)), last);
      assert MergeInto(Merged(before), last).Keys == MergeInto(Merged(CleanAll(before)), CleanPatch(last)).Keys;
    }
  }

  lemma MergeIntoFiled(merged: map<string, Patch>, last: Patch)
    requires Filed(merged)
    ensures Filed(MergeInto(merged, last))
  {
    var id := Trim(last.stashId);
    assert id != "" ==> CleanId(id);
  }

  lemma MergeIntoClean(merged: map<string, Patch>, last: Patch)
    requires AllClean(merged)
    ensures AllClean(MergeInto(merged, CleanPatch(last)))
  {
    var id := Trim(last.stashId);
    SpreadClean(id, if id in merged then merged[id] else Patch(id), last);
  }

  lemma SpreadClean(id: string, earlier: Patch, last: Patch)
    requires CleanPatch(earlier) == earlier
    ensures CleanPatch(Spread(id, earlier, CleanPatch(last))) == Spread(id, earlier, CleanPatch(last))
  {
  }

  /** A value for one column that two different clean fields turn into different values. */
  ghost function TellingValue<T>(once: Field<T>, each: Field<T>, x: T, y: T): (v: T)
    requires x != y && !once.Undefined? && !each.Undefined?
    ensures once != each ==> PickValue(once, v) != PickValue(each, v)
  {
    if PickValue(once, x) != PickValue(each, x) then x else y
  }

  lemma TellingColumns(once: Patch, each: Patch) returns (columns: Columns)
    requires CleanPatch(once) == once && CleanPatch(each) == each
    requires once.stashId == each.stashId && once != each
    ensures PickColumns(columns, once) != PickColumns(columns, each)
  {
    columns := Columns(
      TellingValue(once.requestStatus, each.requestStatus, None, Some(RequestStatus.FAILED)),
      TellingValue(once.requestUpdatedAt, each.requestUpdatedAt, None, Some(0)),
      TellingValue(once.display, each.display, None, Some("")),
      TellingValue(once.movieId, each.movieId, None, Some(0)),
      TellingValue(once.hasFile, each.hasFile, None, Some(true)),
      TellingValue(once.queuePosition, each.queuePosition, None, Some(0)),
      TellingValue(once.queueStatus, each.queueStatus, None, Some("")),
      TellingValue(once.queueState, each.queueState, None, Some("")),
      TellingValue(once.errorMessage, each.errorMessage, None, Some("")),
      TellingValue(once.stashAvailable, each.stashAvailable, None, Some(true)),
      TellingValue(once.hydration, each.hydration, Pending, Hydrated),
      TellingValue(once.metadataLastSyncedAt, each.metadataLastSyncedAt, None, Some(0)),
      TellingValue(once.metadataRetryAfterAt, each.metadataRetryAfterAt, None, Some(0)),
      TellingValue(once.whisparrLastSyncedAt, each.whisparrLastSyncedAt, None, Some(0)),
      TellingValue(once.stashLastSyncedAt, each.stashLastSyncedAt, None, Some(0)),
      TellingValue(once.lastSyncedAt, each.lastSyncedAt, None, Some(0)));
  }

  /** Where merging does not commute, some table shows it. */
  lemma TellingTable(patches: seq<Patch>) returns (rows: Table)
    requires !MergeCommutes(patches)
    ensures Applied(rows, Merged(patches), map[]) != ApplyEach(rows, patches)
  {
    var once, each := Merged(patches), Merged(CleanAll(patches));
    MergedKeys(patches);
    MergedKeys(CleanAll(patches));
    var id :| id in once && CleanPatch(once[id]) != each[id];
    CleanTwice(once[id]);
    var columns := TellingColumns(CleanPatch(once[id]), each[id]);
    CleanPicksTheSame(columns, once[id]);
    rows := map[id := Row(columns, NotRequested, 100)];
    OnceAndEachAt(rows, patches, id);
    assert ColumnsOf(Lookup(rows, id)) == columns;
  }

  lemma CleanTwice(patch: Patch)
    ensures CleanPatch(CleanPatch(patch)) == CleanPatch(patch)
  {
  }

  function SceneOf(patch: Patch): string {
    Trim(patch.stashId)
  }

  function Earlier(merged: map<string, Patch>, id: string): Patch {
    if id in merged then merged[id] else Patch(id)
  }

  /** One more patch changes only its own scene's merged patch. */
  lemma MergedSnocAt(patches: seq<Patch>, patch: Patch, id: string)
    ensures Lookup(Merged(patches + [patch]), id)
            == if SceneOf(patch) == id && id != "" then Some(Spread(id, Earlier(Merged(patches), id), patch))
               else Lookup(Merged(patches), id)
  {
    assert (patches + [patch])[..|patches|] == patches;
  }

  /** Patches of different scenes, under ids as the callers store them. */
  ghost predicate OnePerScene(patches: seq<Patch>) {
    && (forall i :: 0 <= i < |patches| ==> CleanId(patches[i].stashId))
    && (forall i, j :: 0 <= i < j < |patches| ==> patches[i].stashId != patches[j].stashId)
  }

  function PatchFor(patches: seq<Patch>, id: string): Option<Patch> {
    if patches == [] then None
    else if patches[|patches| - 1].stashId == id then Some(patches[|patches| - 1])
    else PatchFor(patches[..|patches| - 1], id)
  }

  lemma BlankSpread(patch: Patch)
    ensures Spread(patch.stashId, Patch(patch.stashId), patch) == patch
  {
  }

  /** A scene's first patch becomes its merged patch, and no other scene's changes. */
  lemma FirstPatchAt(patches: seq<Patch>, patch: Patch, id: string)
    requires CleanId(patch.stashId) && patch.stashId !in Merged(patches)
    ensures Lookup(Merged(patches + [patch]), id)
            == if id == patch.stashId then Some(patch) else Lookup(Merged(patches), id)
  {
    MergedSnocAt(patches, patch, id);
    BlankSpread(patch);
  }

  /** They merge to themselves. */
  lemma {:induction false} MergedOnePerScene(patches: seq<Patch>, id: string)
    requires OnePerScene(patches)
    ensures Lookup(Merged(patches), id) == PatchFor(patches, id)
  {
    if patches != [] {
      var before, last := patches[..|patches| - 1], patches[|patches| - 1];
      FewerScenes(patches);
      MergedOnePerScene(before, id);
      assert patches == before + [last];
      MergedSnocAt(before, last, id);
      if last.stashId == id {
        BlankSpread(last);
      }
    }
  }

  lemma FewerScenes(patches: seq<Patch>)
    requires OnePerScene(patches) && patches != []
    ensures var before, last := patches[..|patches| - 1], patches[|patches| - 1];
            OnePerScene(before) && PatchFor(before, last.stashId).None? && SceneOf(last) == last.stashId && last.stashId != ""
  {
    var before, last := patches[..|patches| - 1], patches[|patches| - 1];
    assert forall i :: 0 <= i < |before| ==> before[i] == patches[i];
    NoPatchFor(before, last.stashId);
  }

  lemma {:induction false} NoPatchFor(patches: seq<Patch>, id: string)
    requires forall i :: 0 <= i < |patches| ==> patches[i].stashId != id
    ensures PatchFor(patches, id).None?
  {
    if patches != [] {
      NoPatchFor(patches[..|patches| - 1], id);
    }
  }
}
