/** The paged mark-and-sweep of the local library and the availability it writes (indexing.service.ts). */
module LibrarySync {
  import opened Basics
  import opened Text
  import opened CatalogRefs
  import opened SceneIndex
  import opened SceneIndexStore
  import PM = PatchMerging

  /** A scene as the library returns it; a blank id makes the adapter drop it. */
  datatype LibraryScene = LibraryScene(id: string, refs: seq<string>, details: string)

  datatype LibraryRow = LibraryRow(linkedStashId: Option<string>, refs: seq<string>, details: string, lastSyncedAt: int)

  type Projection = map<string, LibraryRow>

  const LIBRARY_SYNC_PAGE_SIZE := 100

  predicate Blank(scene: LibraryScene) {
    Trim(scene.id) == ""
  }

  function ActiveId(key: Option<ProviderKey>, scene: LibraryScene): (id: Option<string>)
    ensures id.Some? ==> CleanId(id.value)
  {
    if key.None? || Blank(scene) then None
    else
      FoundIdIsClean(scene.refs, key.value);
      FindCatalogExternalIdForProvider(scene.refs, key.value)
  }

  function RowFor(key: Option<ProviderKey>, scene: LibraryScene, syncedAt: int): LibraryRow {
    LibraryRow(ActiveId(key, scene), scene.refs, scene.details, syncedAt)
  }

  function UpsertScene(rows: Projection, scene: LibraryScene, key: Option<ProviderKey>, syncedAt: int): Projection {
    if Blank(scene) then rows else rows[Trim(scene.id) := RowFor(key, scene, syncedAt)]
  }

  /** The projection after the scenes have been upserted, blank ones skipped. */
  function Upserted(rows: Projection, scenes: seq<LibraryScene>, key: Option<ProviderKey>, syncedAt: int): Projection {
    if scenes == [] then rows
    else UpsertScene(Upserted(rows, scenes[..|scenes| - 1], key, syncedAt), scenes[|scenes| - 1], key, syncedAt)
  }

  /** Rows not stamped by this pass or a later one are deleted. */
  function Swept(rows: Projection, startedAt: int): Projection {
    map id | id in rows && rows[id].lastSyncedAt >= startedAt :: rows[id]
  }

  function SceneIds(scenes: seq<LibraryScene>): set<string> {
    if scenes == [] then {}
    else
      var last := scenes[|scenes| - 1];
      SceneIds(scenes[..|scenes| - 1]) + (if Blank(last) then {} else {Trim(last.id)})
  }

  /** The last scene with the id. */
  function SceneOfId(scenes: seq<LibraryScene>, id: string): Option<LibraryScene> {
    if scenes == [] then None
    else if !Blank(scenes[|scenes| - 1]) && Trim(scenes[|scenes| - 1].id) == id then Some(scenes[|scenes| - 1])
    else SceneOfId(scenes[..|scenes| - 1], id)
  }

  lemma {:induction false} UpsertedAt(
    rows: Projection, scenes: seq<LibraryScene>, key: Option<ProviderKey>, syncedAt: int, id: string)
    ensures SceneOfId(scenes, id).Some? <==> id in SceneIds(scenes)
    ensures Lookup(Upserted(rows, scenes, key, syncedAt), id)
            == if id in SceneIds(scenes) then Some(RowFor(key, SceneOfId(scenes, id).value, syncedAt)) else Lookup(rows, id)
  {
    if scenes != [] {
      UpsertedAt(rows, scenes[..|scenes| - 1], key, syncedAt, id);
    }
  }

  /** After the sweep the projection holds exactly the scenes read, each as last read,
      precisely when every other row was stamped before the pass began. */
  lemma SweepIsExact(rows: Projection, scenes: seq<LibraryScene>, key: Option<ProviderKey>, startedAt: int)
    ensures var swept := Swept(Upserted(rows, scenes, key, startedAt), startedAt);
            && (forall id :: id in SceneIds(scenes) ==>
                  SceneOfId(scenes, id).Some? && id in swept && swept[id] == RowFor(key, SceneOfId(scenes, id).value, startedAt))
            && (swept.Keys == SceneIds(scenes)
                <==> forall id :: id in rows && id !in SceneIds(scenes) ==> rows[id].lastSyncedAt < startedAt)
  {
    var upserted := Upserted(rows, scenes, key, startedAt);
    var swept := Swept(upserted, startedAt);
    forall id
      ensures id in SceneIds(scenes) ==>
                SceneOfId(scenes, id).Some? && id in swept && swept[id] == RowFor(key, SceneOfId(scenes, id).value, startedAt)
      ensures id in swept <==> id in SceneIds(scenes) || (id in rows && rows[id].lastSyncedAt >= startedAt)
    {
      UpsertedAt(rows, scenes, key, startedAt, id);
    }
  }

  /** After a pass each scene read has a row that links to the first id its references give for the active provider, with
      its references, its details and the stamp of the pass; the other rows are as they were. */
  lemma ProjectedRow(
    rows: Projection, scenes: seq<LibraryScene>, key: Option<ProviderKey>, syncedAt: int, id: string)
    ensures var after := Upserted(rows, scenes, key, syncedAt);
            if id in SceneIds(scenes) then
              && id in after && SceneOfId(scenes, id).Some?
              && var scene := SceneOfId(scenes, id).value;
                 && after[id].linkedStashId
                    == (if key.None? then None else FindCatalogExternalIdForProvider(scene.refs, key.value))
                 && after[id].refs == scene.refs && after[id].details == scene.details && after[id].lastSyncedAt == syncedAt
            else Lookup(after, id) == Lookup(rows, id)
  {
    UpsertedAt(rows, scenes, key, syncedAt, id);
    SceneOfIdKept(scenes, id);
  }

  lemma {:induction false} SceneOfIdKept(scenes: seq<LibraryScene>, id: string)
    ensures var scene := SceneOfId(scenes, id);
            scene.Some? ==> scene.value in scenes && Trim(scene.value.id) == id && id != ""
  {
    if scenes != [] {
      SceneOfIdKept(scenes[..|scenes| - 1], id);
    }
  }

  function PageEnd(library: seq<LibraryScene>, page: nat): nat {
    if page * LIBRARY_SYNC_PAGE_SIZE < |library| then page * LIBRARY_SYNC_PAGE_SIZE else |library|
  }

  /** Page `page`, counted from 1, of the unchanging list. */
  function PageScenes(library: seq<LibraryScene>, page: nat): seq<LibraryScene>
    requires page >= 1
  {
    library[PageEnd(library, page - 1)..PageEnd(library, page)]
  }

  predicate AllBlank(scenes: seq<LibraryScene>) {
    forall i :: 0 <= i < |scenes| ==> Blank(scenes[i])
  }

  /** The pass goes on after this page. */
  predicate GoesOn(library: seq<LibraryScene>, page: nat)
    requires page >= 1
  {
    page * LIBRARY_SYNC_PAGE_SIZE < |library| && !AllBlank(PageScenes(library, page))
  }

  /** How many scenes a pass that has come to `page` reads in all. */
  function ReadFrom(library: seq<LibraryScene>, page: nat): (end: nat)
    requires page >= 1
    ensures PageEnd(library, page) <= end <= |library|
    decreases |library| - PageEnd(library, page)
  {
    if GoesOn(library, page) then ReadFrom(library, page + 1) else PageEnd(library, page)
  }

  function ActiveIdFinder(key: Option<ProviderKey>): LibraryScene -> Option<string> {
    scene => ActiveId(key, scene)
  }

  /** The active catalog ids of the scenes, each once: the set the pass fills. */
  function ActiveIds(scenes: seq<LibraryScene>, key: Option<ProviderKey>): seq<string> {
    DistinctSome(MapSeq(ActiveIdFinder(key), scenes))
  }

  lemma ActiveIdsClean(scenes: seq<LibraryScene>, key: Option<ProviderKey>)
    ensures NoDuplicates(ActiveIds(scenes, key))
    ensures forall id :: id in ActiveIds(scenes, key) ==> CleanId(id)
  {
    var ids := MapSeq(ActiveIdFinder(key), scenes);
    DistinctMembers(ids);
    forall id | id in ActiveIds(scenes, key) ensures CleanId(id) {
      var i :| 0 <= i < |ids| && ids[i] == Some(id);
      assert ids[i] == ActiveId(key, scenes[i]);
    }
  }

  lemma {:induction false} UpsertedInTwo(
    rows: Projection, scenes: seq<LibraryScene>, more: seq<LibraryScene>, key: Option<ProviderKey>, syncedAt: int)
    ensures Upserted(rows, scenes + more, key, syncedAt) == Upserted(Upserted(rows, scenes, key, syncedAt), more, key, syncedAt)
  {
    if more == [] {
      assert scenes + more == scenes;
    } else {
      var shorter, last := more[..|more| - 1], more[|more| - 1];
      assert more == shorter + [last] && scenes + more == (scenes + shorter) + [last];
      UpsertedInTwo(rows, scenes, shorter, key, syncedAt);
      UpsertedSnoc(rows, scenes + shorter, last, key, syncedAt);
      UpsertedSnoc(Upserted(rows, scenes, key, syncedAt), shorter, last, key, syncedAt);
    }
  }

  lemma NextPageUpserted(
    rows: Projection, library: seq<LibraryScene>, page: nat, key: Option<ProviderKey>, syncedAt: int)
    requires page >= 1
    ensures Upserted(Upserted(rows, library[..PageEnd(library, page - 1)], key, syncedAt), PageScenes(library, page), key, syncedAt)
            == Upserted(rows, library[..PageEnd(library, page)], key, syncedAt)
  {
    SliceInTwo(library, PageEnd(library, page - 1), PageEnd(library, page));
    UpsertedInTwo(rows, library[..PageEnd(library, page - 1)], PageScenes(library, page), key, syncedAt);
  }

  lemma UpsertedSnoc(
    rows: Projection, scenes: seq<LibraryScene>, last: LibraryScene, key: Option<ProviderKey>, syncedAt: int)
    ensures Upserted(rows, scenes + [last], key, syncedAt) == UpsertScene(Upserted(rows, scenes, key, syncedAt), last, key, syncedAt)
  {
    assert (scenes + [last])[..|scenes|] == scenes;
  }

  class LibraryProjection {
    var rows: Projection

    /** One page's upserts in one transaction. */
    method UpsertPage(scenes: seq<LibraryScene>, key: Option<ProviderKey>, syncedAt: int)
      modifies this
      ensures rows == Upserted(old(rows), scenes, key, syncedAt)
    {
      for n := 0 to |scenes|
        invariant rows == Upserted(old(rows), scenes[..n], key, syncedAt)
      {
        assert scenes[..n + 1][..n] == scenes[..n];
        if !Blank(scenes[n]) {
          rows := rows[Trim(scenes[n].id) := RowFor(key, scenes[n], syncedAt)];
        }
      }
      assert scenes[..|scenes|] == scenes;
    }

    method DeleteBefore(startedAt: int)
      modifies this
      ensures rows == Swept(old(rows), startedAt)
    {
      rows := Swept(rows, startedAt);
    }

    /** Upserts one page and adds the active ids it gives. */
    method ReadPage(
      library: seq<LibraryScene>, page: nat, key: Option<ProviderKey>, startedAt: int, known: seq<string>, ghost before: Projection)
      returns (active: seq<string>)
      requires page >= 1 && rows == PassRows(before, library, page - 1, key, startedAt)
      requires known == PassIds(library, page - 1, key)
      modifies this
      ensures rows == PassRows(before, library, page, key, startedAt)
      ensures active == PassIds(library, page, key)
    {
      NextPageUpserted(before, library, page, key, startedAt);
      UpsertPage(PageScenes(library, page), key, startedAt);
      active := CollectActive(library, PageEnd(library, page - 1), PageEnd(library, page), ActiveIdFinder(key), known);
    }

    /** Reads page after page; `pageFails` says for which page the fetch throws, or the write, which then rolls back. */
    method ReadPages(library: seq<LibraryScene>, key: Option<ProviderKey>, pageFails: nat -> bool, startedAt: int)
      returns (fetched: bool, active: seq<string>, read: nat)
      modifies this
      ensures read <= |library| && rows == Upserted(old(rows), library[..read], key, startedAt)
      ensures fetched ==> read == ReadFrom(library, 1) && active == ActiveIds(library[..read], key)
      ensures fetched <==> PagesRead(library, pageFails, 1)
    {
      active := [];
      var page := 1;
      NothingRead(old(rows), library, key, startedAt);
      while !pageFails(page)
        invariant page >= 1
        invariant rows == PassRows(old(rows), library, page - 1, key, startedAt)
        invariant active == PassIds(library, page - 1, key)
        invariant Reaches(library, pageFails, page)
        decreases |library| + LIBRARY_SYNC_PAGE_SIZE - page * LIBRARY_SYNC_PAGE_SIZE
      {
        active := ReadPage(library, page, key, startedAt, active, old(rows));
        if !GoesOn(library, page) {
          StopsAt(library, pageFails, page);
          return true, active, PageEnd(library, page);
        }
        ReachesNext(library, pageFails, page);
        page := page + 1;
      }
      FailsAt(library, pageFails, page);
      return false, active, PageEnd(library, page - 1);
    }
  }

  lemma NothingRead(rows: Projection, library: seq<LibraryScene>, key: Option<ProviderKey>, startedAt: int)
    ensures PassRows(rows, library, 0, key, startedAt) == rows && PassIds(library, 0, key) == []
  {
  }

  /** No page fails that a pass which has come to `page` still reads. */
  predicate PagesRead(library: seq<LibraryScene>, pageFails: nat -> bool, page: nat)
    requires page >= 1
    decreases |library| - PageEnd(library, page)
  {
    !pageFails(page) && (GoesOn(library, page) ==> PagesRead(library, pageFails, page + 1))
  }

  /** The pass neither stops nor fails before `page`. */
  ghost predicate Reaches(library: seq<LibraryScene>, pageFails: nat -> bool, page: nat)
    requires page >= 1
  {
    ReadFrom(library, 1) == ReadFrom(library, page) && PagesRead(library, pageFails, 1) == PagesRead(library, pageFails, page)
  }

  lemma ReachesNext(library: seq<LibraryScene>, pageFails: nat -> bool, page: nat)
    requires page >= 1 && Reaches(library, pageFails, page) && !pageFails(page) && GoesOn(library, page)
    ensures Reaches(library, pageFails, page + 1) && page * LIBRARY_SYNC_PAGE_SIZE < |library|
  {
  }

  lemma StopsAt(library: seq<LibraryScene>, pageFails: nat -> bool, page: nat)
    requires page >= 1 && Reaches(library, pageFails, page) && !pageFails(page) && !GoesOn(library, page)
    ensures ReadFrom(library, 1) == PageEnd(library, page) && PagesRead(library, pageFails, 1)
  {
  }

  lemma FailsAt(library: seq<LibraryScene>, pageFails: nat -> bool, page: nat)
    requires page >= 1 && Reaches(library, pageFails, page) && pageFails(page)
    ensures !PagesRead(library, pageFails, 1)
  {
  }

  /** The projection and the ids collected after the first `pages` pages. */
  function PassRows(
    rows: Projection, library: seq<LibraryScene>, pages: nat, key: Option<ProviderKey>, startedAt: int): Projection
  {
    Upserted(rows, library[..PageEnd(library, pages)], key, startedAt)
  }

  function PassIds(library: seq<LibraryScene>, pages: nat, key: Option<ProviderKey>): seq<string> {
    ActiveIds(library[..PageEnd(library, pages)], key)
  }

  /** Adds the ids a page's scenes give to those of the pages before. */
  method CollectActive(library: seq<LibraryScene>, from: nat, end: nat, find: LibraryScene -> Option<string>, known: seq<string>)
    returns (active: seq<string>)
    requires from <= end <= |library| && known == DistinctSome(MapSeq(find, library[..from]))
    ensures active == DistinctSome(MapSeq(find, library[..end]))
  {
    active := known;
    for n := from to end
      invariant active == DistinctSome(MapSeq(find, library[..n]))
    {
      DistinctSnoc(library, find, n);
      active := AddOnce(active, find(library[n]));
    }
  }

  function AvailabilityPatch(id: string, available: bool, syncedAt: int): Patch {
    Patch(id,
          stashAvailable := Given(Some(available)),
          stashLastSyncedAt := Given(Some(syncedAt)), lastSyncedAt := Given(Some(syncedAt)))
  }

  function AvailablePatches(ids: seq<string>, syncedAt: int): seq<Patch> {
    if ids == [] then []
    else AvailablePatches(ids[..|ids| - 1], syncedAt) + [AvailabilityPatch(ids[|ids| - 1], true, syncedAt)]
  }

  predicate WasAvailable(rows: Table, id: string) {
    id in rows && rows[id].columns.stashAvailable == Some(true)
  }

  function GonePatches(rows: Table, scan: seq<string>, ids: seq<string>, syncedAt: int): seq<Patch> {
    if scan == [] then []
    else
      var earlier, id := GonePatches(rows, scan[..|scan| - 1], ids, syncedAt), scan[|scan| - 1];
      if WasAvailable(rows, id) && id !in ids then earlier + [AvailabilityPatch(id, false, syncedAt)] else earlier
  }

  method BuildAvailabilityPatches(rows: Table, scan: seq<string>, ids: seq<string>, syncedAt: int)
    returns (patches: seq<Patch>)
    ensures patches == AvailablePatches(ids, syncedAt) + GonePatches(rows, scan, ids, syncedAt)
  {
    patches := [];
    for n := 0 to |ids|
      invariant patches == AvailablePatches(ids[..n], syncedAt)
    {
      assert ids[..n + 1][..n] == ids[..n];
      patches := patches + [AvailabilityPatch(ids[n], true, syncedAt)];
    }
    assert ids[..|ids|] == ids;
    for n := 0 to |scan|
      invariant patches == AvailablePatches(ids, syncedAt) + GonePatches(rows, scan[..n], ids, syncedAt)
    {
      assert scan[..n + 1][..n] == scan[..n];
      if WasAvailable(rows, scan[n]) && scan[n] !in ids {
        patches := patches + [AvailabilityPatch(scan[n], false, syncedAt)];
      }
    }
    assert scan[..|scan|] == scan;
  }

  /** The merged patch of each scene. */
  function SnapshotPatch(rows: Table, ids: seq<string>, id: string, syncedAt: int): Option<Patch> {
    if id in ids then Some(AvailabilityPatch(id, true, syncedAt))
    else if WasAvailable(rows, id) then Some(AvailabilityPatch(id, false, syncedAt))
    else None
  }

  /** What the availability snapshot makes of each row. */
  function AfterAvailability(rows: Table, ids: seq<string>, syncedAt: int): Table {
    map id | id in rows.Keys + (set i | i in ids) && PM.Rebuilt(Lookup(rows, id), SnapshotPatch(rows, ids, id, syncedAt)).Some? ::
      PM.Rebuilt(Lookup(rows, id), SnapshotPatch(rows, ids, id, syncedAt)).value
  }

  lemma AfterAvailabilityAt(rows: Table, ids: seq<string>, syncedAt: int, id: string)
    ensures Lookup(AfterAvailability(rows, ids, syncedAt), id)
            == PM.Rebuilt(Lookup(rows, id), SnapshotPatch(rows, ids, id, syncedAt))
  {
  }

  /** By column: a scene seen becomes available, a row available before and not seen no longer is, both with the stamp of
      the pass, and every other row stays. */
  lemma AvailabilityColumns(rows: Table, ids: seq<string>, syncedAt: int, id: string)
    ensures var after, before := AfterAvailability(rows, ids, syncedAt), ColumnsOf(Lookup(rows, id));
            if id in ids || (id in rows && rows[id].columns.stashAvailable == Some(true)) then
              && id in after
              && after[id].columns == before.(
                   stashAvailable := Some(id in ids), stashLastSyncedAt := Some(syncedAt), lastSyncedAt := Some(syncedAt))
            else Lookup(after, id) == Lookup(rows, id)
  {
    AfterAvailabilityAt(rows, ids, syncedAt, id);
  }

  ghost predicate CleanList(ids: seq<string>) {
    NoDuplicates(ids) && forall id :: id in ids ==> CleanId(id)
  }

  lemma ShorterList(ids: seq<string>)
    requires CleanList(ids) && ids != []
    ensures var before, last := ids[..|ids| - 1], ids[|ids| - 1];
            && CleanList(before) && CleanId(last) && last !in before
            && (forall id :: id in ids <==> id in before || id == last)
  {
    assert ids == ids[..|ids| - 1] + [ids[|ids| - 1]];
  }

  lemma {:induction false} MergedAvailable(ids: seq<string>, syncedAt: int, id: string)
    requires CleanList(ids)
    ensures Lookup(Merged(AvailablePatches(ids, syncedAt)), id)
            == if id in ids then Some(AvailabilityPatch(id, true, syncedAt)) else None
  {
    if ids != [] {
      var before, last := ids[..|ids| - 1], ids[|ids| - 1];
      ShorterList(ids);
      MergedAvailable(before, syncedAt, last);
      PM.FirstPatchAt(AvailablePatches(before, syncedAt), AvailabilityPatch(last, true, syncedAt), id);
      if id != last {
        MergedAvailable(before, syncedAt, id);
      }
    }
  }

  /** The scenes patched as gone once the rows in `scan` are considered. */
  predicate Gone(rows: Table, scan: seq<string>, ids: seq<string>, id: string) {
    WasAvailable(rows, id) && id in scan && id !in ids
  }

  lemma {:induction false} MergedSnapshot(rows: Table, scan: seq<string>, ids: seq<string>, syncedAt: int, id: string)
    requires CleanList(ids)
    requires NoDuplicates(scan) && CleanKeys(rows)
    ensures Lookup(Merged(AvailablePatches(ids, syncedAt) + GonePatches(rows, scan, ids, syncedAt)), id)
            == if id in ids then Some(AvailabilityPatch(id, true, syncedAt))
               else if Gone(rows, scan, ids, id) then Some(AvailabilityPatch(id, false, syncedAt))
               else None
    decreases |scan|
  {
    var first := AvailablePatches(ids, syncedAt);
    if scan == [] {
      assert first + [] == first;
      MergedAvailable(ids, syncedAt, id);
    } else {
      var before, last := scan[..|scan| - 1], scan[|scan| - 1];
      var earlier := first + GonePatches(rows, before, ids, syncedAt);
      assert last !in before;
      MergedSnapshot(rows, before, ids, syncedAt, id);
      if WasAvailable(rows, last) && last !in ids {
        MergedSnapshot(rows, before, ids, syncedAt, last);
        assert last !in Merged(earlier);
        assert first + GonePatches(rows, scan, ids, syncedAt) == earlier + [AvailabilityPatch(last, false, syncedAt)];
        PM.FirstPatchAt(earlier, AvailabilityPatch(last, false, syncedAt), id);
      }
    }
  }

  lemma SnapshotApplied(rows: Table, scan: seq<string>, ids: seq<string>, syncedAt: int)
    requires CleanList(ids)
    requires Lists(scan, rows.Keys) && CleanKeys(rows)
    ensures Applied(rows, Merged(AvailablePatches(ids, syncedAt) + GonePatches(rows, scan, ids, syncedAt)), map[])
            == AfterAvailability(rows, ids, syncedAt)
  {
    var merged := Merged(AvailablePatches(ids, syncedAt) + GonePatches(rows, scan, ids, syncedAt));
    forall id ensures Lookup(Applied(rows, merged, map[]), id) == Lookup(AfterAvailability(rows, ids, syncedAt), id) {
      MergedSnapshot(rows, scan, ids, syncedAt, id);
      PM.AppliedAt(rows, merged, id);
      AfterAvailabilityAt(rows, ids, syncedAt, id);
    }
    LookupsDecide(Applied(rows, merged, map[]), AfterAvailability(rows, ids, syncedAt));
  }

  /** After the snapshot exactly the ids seen are available; a scene gone from the library is marked absent,
      and no other column of any row changes but the two stamps. */
  lemma AvailabilityIsExact(rows: Table, ids: seq<string>, syncedAt: int)
    ensures var after := AfterAvailability(rows, ids, syncedAt);
            && (forall id :: WasAvailable(after, id) <==> id in ids)
            && (forall id :: WasAvailable(rows, id) && id !in ids ==> id in after && after[id].columns.stashAvailable == Some(false))
            && (forall id :: id in rows ==>
                  && id in after
                  && after[id].columns == rows[id].columns.(
                       stashAvailable := after[id].columns.stashAvailable,
                       stashLastSyncedAt := after[id].columns.stashLastSyncedAt,
                       lastSyncedAt := after[id].columns.lastSyncedAt))
  {
    var after := AfterAvailability(rows, ids, syncedAt);
    forall id
      ensures WasAvailable(after, id) <==> id in ids
      ensures WasAvailable(rows, id) && id !in ids ==> id in after && after[id].columns.stashAvailable == Some(false)
      ensures id in rows ==>
                && id in after
                && after[id].columns == rows[id].columns.(
                     stashAvailable := after[id].columns.stashAvailable,
                     stashLastSyncedAt := after[id].columns.stashLastSyncedAt,
                     lastSyncedAt := after[id].columns.lastSyncedAt)
    {
      AfterAvailabilityAt(rows, ids, syncedAt, id);
    }
  }

  /** The scenes the availability write touches. */
  function TouchedScenes(rows: Table, ids: seq<string>): set<string> {
    (set id | id in ids) + (set id | id in rows && WasAvailable(rows, id))
  }

  lemma MergedScenes(rows: Table, scan: seq<string>, ids: seq<string>, syncedAt: int)
    requires CleanList(ids) && CleanKeys(rows) && Lists(scan, rows.Keys)
    ensures Merged(AvailablePatches(ids, syncedAt) + GonePatches(rows, scan, ids, syncedAt)).Keys == TouchedScenes(rows, ids)
  {
    var merged := Merged(AvailablePatches(ids, syncedAt) + GonePatches(rows, scan, ids, syncedAt));
    forall id ensures id in merged <==> id in TouchedScenes(rows, ids) {
      MergedSnapshot(rows, scan, ids, syncedAt, id);
    }
  }

  method ApplyLibraryAvailabilitySnapshot(
    store: SceneIndexStore, ids: seq<string>, syncedAt: int, before: (string, string) -> bool,
    fate: (nat, nat) -> Fate, newestWriteAt: Option<int>)
    returns (ok: bool)
    requires store.SummaryHolds() && CleanKeys(store.rows) && CleanList(ids)
    modifies store
    ensures store.SummaryHolds() && CleanKeys(store.rows)
    ensures DerivedUnlessMovie(old(store.rows)) ==> DerivedUnlessMovie(store.rows)
    ensures ok <==> AllCommit(fate, |TouchedScenes(old(store.rows), ids)|)
    ensures ok ==> store.rows == AfterAvailability(old(store.rows), ids, syncedAt)
  {
    var scan := FetchOrder(store.rows);
    SnapshotApplied(store.rows, scan, ids, syncedAt);
    MergedScenes(store.rows, scan, ids, syncedAt);
    var patches := BuildAvailabilityPatches(store.rows, scan, ids, syncedAt);
    assert |Merged(patches)| == |Merged(patches).Keys|;
    var written;
    ok, written := store.ApplySceneIndexPatches(patches, map[], before, fate, syncedAt, newestWriteAt);
  }

  /** Every page is read, the sweep is done and every chunk of the availability write commits. */
  predicate LibraryCommits(
    rows: Table, library: seq<LibraryScene>, key: Option<ProviderKey>, pageFails: nat -> bool, sweepFails: bool,
    fate: (nat, nat) -> Fate)
  {
    && PagesRead(library, pageFails, 1) && !sweepFails
    && AllCommit(fate, |TouchedScenes(rows, ActiveIds(library[..ReadFrom(library, 1)], key))|)
  }

  /** Nothing happens while Stash is not configured. The sweep and the availability write run side by side, over
      different tables; a throw of either, or of a page, makes the sync throw. */
  method PerformLibraryProjectionSync(
    store: SceneIndexStore, projection: LibraryProjection, configured: bool, library: seq<LibraryScene>, key: Option<ProviderKey>,
    pageFails: nat -> bool, sweepFails: bool, startedAt: int, before: (string, string) -> bool,
    fate: (nat, nat) -> Fate, newestWriteAt: Option<int>)
    returns (fetched: bool, ok: bool)
    requires store.SummaryHolds() && CleanKeys(store.rows)
    modifies store, projection
    ensures store.SummaryHolds() && CleanKeys(store.rows)
    ensures DerivedUnlessMovie(old(store.rows)) ==> DerivedUnlessMovie(store.rows)
    ensures fetched <==> configured && PagesRead(library, pageFails, 1)
    ensures ok <==> configured ==> LibraryCommits(old(store.rows), library, key, pageFails, sweepFails, fate)
    ensures ok && configured ==>
              store.rows == AfterAvailability(old(store.rows), ActiveIds(library[..ReadFrom(library, 1)], key), startedAt)
    ensures fetched ==>
              var upserted := Upserted(old(projection.rows), library[..ReadFrom(library, 1)], key, startedAt);
              projection.rows == if sweepFails then upserted else Swept(upserted, startedAt)
    ensures !configured ==> projection.rows == old(projection.rows)
    ensures !fetched ==>
              && store.rows == old(store.rows) && store.summary == old(store.summary)
              && old(projection.rows).Keys <= projection.rows.Keys
  {
    if !configured {
      return false, true;
    }
    var ids, read;
    fetched, ids, read := projection.ReadPages(library, key, pageFails, startedAt);
    if !fetched {
      forall id | id in old(projection.rows) ensures id in projection.rows {
        UpsertedAt(old(projection.rows), library[..read], key, startedAt, id);
      }
      return false, false;
    }
    if !sweepFails {
      projection.DeleteBefore(startedAt);
    }
    ActiveIdsClean(library[..ReadFrom(library, 1)], key);
    ok := ApplyLibraryAvailabilitySnapshot(store, ids, startedAt, before, fate, newestWriteAt);
    ok := ok && !sweepFails;
  }

  /** A page of nothing but dropped scenes ends the pass although a kept scene follows. */
  ghost predicate BlankPageHides(library: seq<LibraryScene>, page: nat, i: nat) {
    && page >= 1 && page * LIBRARY_SYNC_PAGE_SIZE <= i < |library|
    && AllBlank(PageScenes(library, page)) && !Blank(library[i])
  }

  lemma WhereThePassStops(library: seq<LibraryScene>, page: nat) returns (last: nat)
    requires page >= 1
    ensures last >= page && ReadFrom(library, page) == PageEnd(library, last) && !GoesOn(library, last)
    ensures forall p :: page <= p < last ==> GoesOn(library, p)
    decreases |library| - PageEnd(library, page)
  {
    last := page;
    if GoesOn(library, page) {
      last := WhereThePassStops(library, page + 1);
    }
  }

  /** A completed pass reads every kept scene exactly when no blank page comes before one. */
  lemma PassReadsEverything(library: seq<LibraryScene>)
    ensures (forall i :: 0 <= i < |library| && !Blank(library[i]) ==> i < ReadFrom(library, 1))
            <==> !exists page, i :: BlankPageHides(library, page, i)
  {
    var last := WhereThePassStops(library, 1);
    if i :| 0 <= i < |library| && !Blank(library[i]) && i >= ReadFrom(library, 1) {
      assert BlankPageHides(library, last, i);
    }
    if page, i :| BlankPageHides(library, page, i) {
      assert !GoesOn(library, page);
      assert last <= page;
      PagesInOrder(library, last, page);
    }
  }

  /** A page of dropped scenes before a kept one: the kept one is never read. */
  lemma BlankPageStopsThePass(blank: LibraryScene, kept: LibraryScene) returns (library: seq<LibraryScene>)
    requires Blank(blank) && !Blank(kept)
    ensures |library| == 101 && library[100] == kept && forall i :: 0 <= i < 100 ==> library[i] == blank
    ensures ReadFrom(library, 1) == 100 && kept !in library[..ReadFrom(library, 1)]
  {
    library := seq(100, _ => blank) + [kept];
    assert forall i :: 0 <= i < 100 ==> PageScenes(library, 1)[i] == library[i];
    assert !GoesOn(library, 1);
  }

  lemma PagesInOrder(library: seq<LibraryScene>, page: nat, later: nat)
    requires page <= later
    ensures PageEnd(library, page) <= PageEnd(library, later)
  {
    assert page * LIBRARY_SYNC_PAGE_SIZE <= later * LIBRARY_SYNC_PAGE_SIZE;
  }

  /** Dropped scenes at the end add nothing. */
  lemma {:induction false} BlankTail(library: seq<LibraryScene>, end: nat, key: Option<ProviderKey>)
    requires end <= |library| && forall i :: end <= i < |library| ==> Blank(library[i])
    ensures SceneIds(library[..end]) == SceneIds(library) && ActiveIds(library[..end], key) == ActiveIds(library, key)
  {
    if end == |library| {
      assert library[..end] == library;
    } else {
      var shorter := library[..|library| - 1];
      assert shorter[..end] == library[..end];
      assert forall i :: end <= i < |shorter| ==> shorter[i] == library[i];
      BlankTail(shorter, end, key);
      BlankLast(library, key);
    }
  }

  lemma {:induction false} BlankLast(library: seq<LibraryScene>, key: Option<ProviderKey>)
    requires library != [] && Blank(library[|library| - 1])
    ensures SceneIds(library[..|library| - 1]) == SceneIds(library)
    ensures ActiveIds(library[..|library| - 1], key) == ActiveIds(library, key)
  {
    DistinctSnoc(library, ActiveIdFinder(key), |library| - 1);
    assert library[..|library| - 1 + 1] == library;
    assert ActiveId(key, library[|library| - 1]) == None;
  }

  /** A completed pass that no blank page cuts short, begun after every stored stamp, leaves exactly the
      library's scenes in the projection and exactly their active ids available in the index. */
  lemma CompletedPassIsExact(
    rows: Projection, index: Table, library: seq<LibraryScene>, key: Option<ProviderKey>, startedAt: int)
    requires !exists page, i :: BlankPageHides(library, page, i)
    requires forall id :: id in rows ==> rows[id].lastSyncedAt < startedAt
    ensures var read := library[..ReadFrom(library, 1)];
            && Swept(Upserted(rows, read, key, startedAt), startedAt).Keys == SceneIds(library)
            && forall id :: WasAvailable(AfterAvailability(index, ActiveIds(read, key), startedAt), id)
                            <==> id in ActiveIds(library, key)
  {
    PassReadsEverything(library);
    BlankTail(library, ReadFrom(library, 1), key);
    SweepIsExact(rows, library[..ReadFrom(library, 1)], key, startedAt);
    AvailabilityIsExact(index, ActiveIds(library, key), startedAt);
  }
}
