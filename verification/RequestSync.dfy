/** The request rows written to the index, all of them or those of given scenes (indexing.service.ts). */
module RequestSync {
  import opened Basics
  import opened Text
  import opened SceneStatusResolver
  import opened SceneIndex
  import opened SceneIndexStore
  import opened SyncState
  import PM = PatchMerging

  datatype RequestRow = RequestRow(stashId: string, status: RequestStatus, updatedAt: int)

  /** The database and the clock during one run: the fates of its chunks, whether recording its success throws, the
      stamp it writes and when the success is recorded. */
  datatype RequestRun = RequestRun(fate: (nat, nat) -> Fate, recordThrows: bool, now: int, recordedAt: int)

  function RequestOf(requests: seq<RequestRow>, id: string): Option<RequestRow> {
    if requests == [] then None
    else if requests[|requests| - 1].stashId == id then Some(requests[|requests| - 1])
    else RequestOf(requests[..|requests| - 1], id)
  }

  /** The rows the query returns: all of them unless scenes are given. */
  function Selected(requests: seq<RequestRow>, targets: seq<string>): seq<RequestRow> {
    if targets == [] then requests else Within(requests, NormalizedIds(targets))
  }

  function Within(requests: seq<RequestRow>, ids: seq<string>): seq<RequestRow> {
    if requests == [] then []
    else
      var earlier, last := Within(requests[..|requests| - 1], ids), requests[|requests| - 1];
      if last.stashId in ids then earlier + [last] else earlier
  }

  function RequestPatch(request: RequestRow, now: int): Patch {
    Patch(request.stashId,
          requestStatus := Given(Some(request.status)), requestUpdatedAt := Given(Some(request.updatedAt)),
          lastSyncedAt := Given(Some(now)))
  }

  function RequestPatches(requests: seq<RequestRow>, now: int): seq<Patch> {
    if requests == [] then []
    else RequestPatches(requests[..|requests| - 1], now) + [RequestPatch(requests[|requests| - 1], now)]
  }

  function AfterRequestSync(rows: Table, requests: seq<RequestRow>, now: int): Table {
    Applied(rows, Merged(RequestPatches(requests, now)), map[])
  }

  /** Every chunk of the write commits. */
  predicate RequestsCommit(requests: seq<RequestRow>, run: RequestRun) {
    AllCommit(run.fate, |Merged(RequestPatches(requests, run.now))|)
  }

  function RecordedRequests(jobs: Jobs, size: nat, recordedAt: int): Jobs {
    var input := SuccessInput(None, Some(Some(size)), Some(Some(size)), None, Some(Some("request-sync")));
    jobs[REQUEST_ROWS := SucceededRow(Lookup(jobs, REQUEST_ROWS), input, recordedAt)]
  }

  /** Only a run over all rows records a success. */
  method SyncRequestRows(
    store: SceneIndexStore, jobs: SyncStateService, requests: seq<RequestRow>, targets: seq<string>,
    before: (string, string) -> bool, run: RequestRun, newestWriteAt: Option<int>)
    returns (ok: bool)
    requires store.SummaryHolds() && CleanKeys(store.rows)
    modifies store, jobs
    ensures store.SummaryHolds() && CleanKeys(store.rows)
    ensures DerivedUnlessMovie(old(store.rows)) ==> DerivedUnlessMovie(store.rows)
    ensures var selected := Selected(requests, targets);
            && (ok <==> RequestsCommit(selected, run) && !(targets == [] && run.recordThrows))
            && (RequestsCommit(selected, run) ==> store.rows == AfterRequestSync(old(store.rows), selected, run.now))
            && jobs.jobs == if ok && targets == [] then RecordedRequests(old(jobs.jobs), |selected|, run.recordedAt) else old(jobs.jobs)
  {
    var selected := Selected(requests, targets);
    var patches := [];
    for n := 0 to |selected|
      invariant store.rows == old(store.rows) && store.SummaryHolds() && jobs.jobs == old(jobs.jobs)
      invariant patches == RequestPatches(selected[..n], run.now)
    {
      assert selected[..n + 1][..n] == selected[..n];
      patches := patches + [RequestPatch(selected[n], run.now)];
    }
    assert selected[..|selected|] == selected;
    var written;
    ok, written := store.ApplySceneIndexPatches(patches, map[], before, run.fate, run.now, newestWriteAt);
    if ok && targets == [] {
      if run.recordThrows {
        return false;
      }
      jobs.RecordSuccess(REQUEST_ROWS, SuccessInput(None, Some(Some(|selected|)), Some(Some(|selected|)), None, Some(Some("request-sync"))), run.recordedAt);
    }
  }

  /** The rows after a request sync that is run first, or skipped. */
  function WithRequests(rows: Table, requests: seq<RequestRow>, run: Option<RequestRun>): Table {
    if run.Some? then AfterRequestSync(rows, requests, run.value.now) else rows
  }

  predicate RequestsSynced(requests: seq<RequestRow>, run: Option<RequestRun>) {
    run.Some? ==> RequestsCommit(requests, run.value) && !run.value.recordThrows
  }

  /** The request sync that comes before another one. */
  method SyncRequestsFirst(
    store: SceneIndexStore, jobs: SyncStateService, requests: seq<RequestRow>, before: (string, string) -> bool,
    run: Option<RequestRun>, newestWriteAt: Option<int>)
    returns (ok: bool)
    requires store.SummaryHolds() && CleanKeys(store.rows)
    modifies store, jobs
    ensures store.SummaryHolds() && CleanKeys(store.rows)
    ensures DerivedUnlessMovie(old(store.rows)) ==> DerivedUnlessMovie(store.rows)
    ensures ok <==> RequestsSynced(requests, run)
    ensures ok ==> store.rows == WithRequests(old(store.rows), requests, run)
    ensures jobs.jobs == if ok && run.Some? then RecordedRequests(old(jobs.jobs), |requests|, run.value.recordedAt) else old(jobs.jobs)
    ensures run.None? ==> store.summary == old(store.summary)
  {
    if run.None? {
      return true;
    }
    ok := SyncRequestRows(store, jobs, requests, [], before, run.value, newestWriteAt);
  }

  lemma {:induction false} WithinAt(requests: seq<RequestRow>, ids: seq<string>, id: string)
    ensures RequestOf(Within(requests, ids), id) == if id in ids then RequestOf(requests, id) else None
  {
    if requests != [] {
      var earlier, last := Within(requests[..|requests| - 1], ids), requests[|requests| - 1];
      WithinAt(requests[..|requests| - 1], ids, id);
      assert (earlier + [last])[..|earlier|] == earlier;
    }
  }

  function RequestPatchOf(requests: seq<RequestRow>, id: string, now: int): Option<Patch> {
    var request := RequestOf(requests, id);
    if request.Some? then Some(RequestPatch(request.value, now)) else None
  }

  lemma {:induction false} RequestPatchAt(requests: seq<RequestRow>, now: int)
    ensures |RequestPatches(requests, now)| == |requests|
    ensures forall i :: 0 <= i < |requests| ==> RequestPatches(requests, now)[i].stashId == requests[i].stashId
  {
    if requests != [] {
      RequestPatchAt(requests[..|requests| - 1], now);
    }
  }

  lemma {:induction false} RequestPatchFor(requests: seq<RequestRow>, id: string, now: int)
    ensures PM.PatchFor(RequestPatches(requests, now), id) == RequestPatchOf(requests, id, now)
  {
    if requests != [] {
      RequestPatchFor(requests[..|requests| - 1], id, now);
    }
  }

  /** Request rows as the callers store them. */
  ghost predicate CleanRequests(requests: seq<RequestRow>) {
    && (forall i :: 0 <= i < |requests| ==> CleanId(requests[i].stashId))
    && (forall i, j :: 0 <= i < j < |requests| ==> requests[i].stashId != requests[j].stashId)
  }

  /** By column: a requested scene's row takes the request's status, its time and the stamp of the sync, and every other
      row stays. */
  lemma RequestColumns(rows: Table, requests: seq<RequestRow>, now: int, id: string)
    requires CleanRequests(requests)
    ensures var after, before := AfterRequestSync(rows, requests, now), ColumnsOf(Lookup(rows, id));
            if exists i :: 0 <= i < |requests| && requests[i].stashId == id then
              && id in after
              && exists i :: 0 <= i < |requests| && requests[i].stashId == id
                   && after[id].columns == before.(
                        requestStatus := Some(requests[i].status), requestUpdatedAt := Some(requests[i].updatedAt),
                        lastSyncedAt := Some(now))
            else Lookup(after, id) == Lookup(rows, id)
  {
    RequestsApplied(rows, requests, id, now);
    RequestOfAt(requests, id);
  }

  lemma {:induction false} RequestOfAt(requests: seq<RequestRow>, id: string)
    ensures RequestOf(requests, id).Some? <==> exists i :: 0 <= i < |requests| && requests[i].stashId == id
    ensures RequestOf(requests, id).Some? ==>
              exists i :: 0 <= i < |requests| && requests[i].stashId == id && requests[i] == RequestOf(requests, id).value
  {
    if requests != [] {
      var n := |requests| - 1;
      RequestOfAt(requests[..n], id);
      if i :| 0 <= i < |requests| && requests[i].stashId == id {
        assert i < n ==> requests[..n][i] == requests[i];
      }
      if i :| 0 <= i < n && requests[..n][i].stashId == id && Some(requests[..n][i]) == RequestOf(requests[..n], id) {
        assert requests[i] == requests[..n][i];
      }
      assert requests[n].stashId == id ==> RequestOf(requests, id) == Some(requests[n]);
    }
  }

  lemma RequestsApplied(rows: Table, requests: seq<RequestRow>, id: string, now: int)
    requires CleanRequests(requests)
    ensures Lookup(AfterRequestSync(rows, requests, now), id) == PM.Rebuilt(Lookup(rows, id), RequestPatchOf(requests, id, now))
  {
    var patches := RequestPatches(requests, now);
    RequestPatchFor(requests, id, now);
    RequestPatchAt(requests, now);
    assert PM.OnePerScene(patches);
    PM.MergedOnePerScene(patches, id);
    PM.AppliedAt(rows, Merged(patches), id);
  }
}
