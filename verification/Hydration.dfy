/** Concurrent metadata hydration runs sharing one set of claimed scenes (indexing.service.ts). */
module Hydration {
  import opened Basics
  import opened Text
  import opened SceneIndex
  import opened PatchMerging

  const METADATA_QUERY_BATCH_SIZE := 8
  const METADATA_RETRY_BACKOFF_MS := 5 * 60_000

  /** A scene as the catalog answers it, under whatever id it gives. */
  datatype SceneMetadata = SceneMetadata(id: string, display: Option<string>)

  function HydratedPatch(scene: SceneMetadata, now: int): Patch {
    Patch(scene.id, display := Given(scene.display), hydration := Given(Hydrated),
          metadataLastSyncedAt := Given(Some(now)), metadataRetryAfterAt := Given(None), lastSyncedAt := Given(Some(now)))
  }

  function MissingPatch(stashId: string, now: int): Patch {
    Patch(stashId, hydration := Given(Hydrated),
          metadataLastSyncedAt := Given(Some(now)), metadataRetryAfterAt := Given(None), lastSyncedAt := Given(Some(now)))
  }

  function FailedPatch(stashId: string, now: int): Patch {
    Patch(stashId, hydration := Given(FailedRetryable), metadataRetryAfterAt := Given(Some(now + METADATA_RETRY_BACKOFF_MS)))
  }

  function Hydrator(now: int): SceneMetadata -> Patch {
    scene => HydratedPatch(scene, now)
  }

  function Misser(now: int): string -> Patch {
    id => MissingPatch(id, now)
  }

  function Failer(now: int): string -> Patch {
    id => FailedPatch(id, now)
  }

  function AnsweredIds(scenes: seq<SceneMetadata>): set<string> {
    set scene | scene in scenes :: scene.id
  }

  /** The patches one batch contributes. */
  function BatchPatches(batch: seq<string>, answer: Answer<seq<SceneMetadata>>, now: int): seq<Patch> {
    if answer.Threw? then MapSeq(Failer(now), batch)
    else
      var answered := AnsweredIds(answer.value);
      MapSeq(Hydrator(now), answer.value)
      + MapSeq(Misser(now), Filter((id: string) => id !in answered, batch))
  }

  method HydrateBatch(batch: seq<string>, answer: Answer<seq<SceneMetadata>>, now: int) returns (patches: seq<Patch>)
    ensures patches == BatchPatches(batch, answer, now)
  {
    patches := [];
    if answer.Threw? {
      for n := 0 to |batch|
        invariant patches == MapSeq(Failer(now), batch[..n])
      {
        patches := patches + [FailedPatch(batch[n], now)];
      }
      assert batch[..|batch|] == batch;
      return;
    }
    var scenes := answer.value;
    for n := 0 to |scenes|
      invariant patches == MapSeq(Hydrator(now), scenes[..n])
    {
      patches := patches + [HydratedPatch(scenes[n], now)];
    }
    assert scenes[..|scenes|] == scenes;
    ghost var shown := patches;
    var answered := AnsweredIds(scenes);
    for n := 0 to |batch|
      invariant patches == shown
                + MapSeq(Misser(now), Filter((id: string) => id !in answered, batch[..n]))
    {
      assert batch[..n + 1][..n] == batch[..n];
      if batch[n] !in answered {
        patches := patches + [MissingPatch(batch[n], now)];
      }
    }
    assert batch[..|batch|] == batch;
  }

  /** The last answer for the scene, under its trimmed id. */
  function LastAnswer(scenes: seq<SceneMetadata>, id: string): (scene: Option<SceneMetadata>)
    ensures scene.Some? ==> scene.value in scenes && Trim(scene.value.id) == id
  {
    if scenes == [] then None
    else
      var earlier, last := LastAnswer(scenes[..|scenes| - 1], id), scenes[|scenes| - 1];
      assert scenes == scenes[..|scenes| - 1] + [last];
      if Trim(last.id) == id then Some(last) else earlier
  }

  lemma {:induction false} MergedHydrated(scenes: seq<SceneMetadata>, now: int, id: string)
    requires CleanId(id)
    ensures Lookup(Merged(MapSeq(Hydrator(now), scenes)), id)
            == var scene := LastAnswer(scenes, id);
               if scene.Some? then Some(HydratedPatch(scene.value, now).(stashId := id)) else None
  {
    if scenes != [] {
      var before, last := scenes[..|scenes| - 1], scenes[|scenes| - 1];
      LastApart(scenes);
      MergedHydrated(before, now, id);
      MapSeqSnoc(Hydrator(now), before, last);
      MergedSnocAt(MapSeq(Hydrator(now), before), HydratedPatch(last, now), id);
    }
  }

  lemma {:induction false} MergedMissing(first: seq<Patch>, shown: Option<SceneMetadata>, ids: seq<string>, now: int, id: string)
    requires CleanId(id) && forall k :: 0 <= k < |ids| ==> CleanId(ids[k])
    requires Lookup(Merged(first), id) == if shown.Some? then Some(HydratedPatch(shown.value, now).(stashId := id)) else None
    ensures Lookup(Merged(first + MapSeq(Misser(now), ids)), id)
            == if shown.Some? then Some(HydratedPatch(shown.value, now).(stashId := id))
               else if id in ids then Some(MissingPatch(id, now)) else None
  {
    if ids == [] {
      assert first + [] == first;
    } else {
      var before, last := ids[..|ids| - 1], ids[|ids| - 1];
      LastApart(ids);
      MergedMissing(first, shown, before, now, id);
      MapSeqSnoc(Misser(now), before, last);
      assert first + MapSeq(Misser(now), ids) == (first + MapSeq(Misser(now), before)) + [MissingPatch(last, now)];
      MergedSnocAt(first + MapSeq(Misser(now), before), MissingPatch(last, now), id);
    }
  }

  lemma {:induction false} MergedFailed(ids: seq<string>, now: int, id: string)
    requires CleanId(id) && forall k :: 0 <= k < |ids| ==> CleanId(ids[k])
    ensures Lookup(Merged(MapSeq(Failer(now), ids)), id) == if id in ids then Some(FailedPatch(id, now)) else None
  {
    if ids != [] {
      var before, last := ids[..|ids| - 1], ids[|ids| - 1];
      LastApart(ids);
      MergedFailed(before, now, id);
      MapSeqSnoc(Failer(now), before, last);
      MergedSnocAt(MapSeq(Failer(now), before), FailedPatch(last, now), id);
    }
  }

  /** By column, what one batch makes of a scene: a thrown query leaves its scenes to be retried in five minutes and
      touches nothing else of them; otherwise an answered scene shows what the catalog answered for it, and a scene of
      the batch it did not answer keeps its display, both hydrated as of now. Other rows stay. */
  lemma BatchColumns(rows: Table, batch: seq<string>, answer: Answer<seq<SceneMetadata>>, now: int, id: string)
    requires CleanId(id) && forall k :: 0 <= k < |batch| ==> CleanId(batch[k])
    ensures var after, before := Applied(rows, Merged(BatchPatches(batch, answer, now)), map[]), ColumnsOf(Lookup(rows, id));
            if answer.Threw? then
              if id in batch then
                id in after && after[id].columns == before.(hydration := FailedRetryable, metadataRetryAfterAt := Some(now + 300_000))
              else Lookup(after, id) == Lookup(rows, id)
            else
              var scene := LastAnswer(answer.value, id);
              if scene.Some? || id in batch then
                && id in after
                && after[id].columns == before.(
                     display := if scene.Some? then scene.value.display else before.display, hydration := Hydrated,
                     metadataLastSyncedAt := Some(now), metadataRetryAfterAt := None, lastSyncedAt := Some(now))
              else Lookup(after, id) == Lookup(rows, id)
  {
    AppliedAt(rows, Merged(BatchPatches(batch, answer, now)), id);
    if answer.Threw? {
      MergedFailed(batch, now, id);
    } else {
      MergedAnswered(batch, answer.value, now, id);
    }
  }

  lemma MergedAnswered(batch: seq<string>, scenes: seq<SceneMetadata>, now: int, id: string)
    requires CleanId(id) && forall k :: 0 <= k < |batch| ==> CleanId(batch[k])
    ensures Lookup(Merged(BatchPatches(batch, Answered(scenes), now)), id)
            == var shown := LastAnswer(scenes, id);
               if shown.Some? then Some(HydratedPatch(shown.value, now).(stashId := id))
               else if id in batch then Some(MissingPatch(id, now)) else None
  {
    var answered := AnsweredIds(scenes);
    var missing := Filter((k: string) => k !in answered, batch);
    assert forall k :: 0 <= k < |missing| ==> missing[k] in missing;
    MergedHydrated(scenes, now, id);
    MergedMissing(MapSeq(Hydrator(now), scenes), LastAnswer(scenes, id), missing, now, id);
    AnsweredIsShown(scenes, id);
  }

  lemma {:induction false} AnsweredIsShown(scenes: seq<SceneMetadata>, id: string)
    requires CleanId(id)
    ensures id in AnsweredIds(scenes) ==> LastAnswer(scenes, id).Some?
  {
    if scenes != [] {
      LastApart(scenes);
      AnsweredIsShown(scenes[..|scenes| - 1], id);
    }
  }

  /** The ids not yet claimed, in order. */
  function Unclaimed(ids: seq<string>, inFlight: set<string>): seq<string> {
    Filter((id: string) => id !in inFlight, ids)
  }

  ghost function Members(ids: seq<string>): set<string> {
    set id | id in ids
  }

  /** The set of scenes being hydrated, filled and emptied by loops. */
  class HydrationClaims {
    var inFlight: set<string>

    constructor ()
      ensures inFlight == {}
    {
      inFlight := {};
    }

    method Claim(ids: seq<string>) returns (claimed: seq<string>)
      requires NoDuplicates(ids)
      modifies this
      ensures claimed == Unclaimed(ids, old(inFlight))
      ensures inFlight == old(inFlight) + Members(claimed)
    {
      claimed := [];
      for n := 0 to |ids|
        invariant claimed == Unclaimed(ids[..n], old(inFlight))
        invariant inFlight == old(inFlight) + Members(claimed)
      {
        assert ids[..n + 1][..n] == ids[..n];
        assert ids[n] !in ids[..n];
        if ids[n] !in inFlight {
          inFlight := inFlight + {ids[n]};
          claimed := claimed + [ids[n]];
        }
      }
      assert ids[..|ids|] == ids;
    }

    method Release(claimed: seq<string>)
      modifies this
      ensures inFlight == old(inFlight) - Members(claimed)
    {
      for n := 0 to |claimed|
        invariant inFlight == old(inFlight) - Members(claimed[..n])
      {
        assert claimed[..n + 1] == claimed[..n] + [claimed[n]];
        inFlight := inFlight - {claimed[n]};
      }
      assert claimed[..|claimed|] == claimed;
    }
  }

  /** A run of performMetadataHydration: its claims, how many it has asked for, the patches collected and the ids
      whose batch failed; then on its way out, its claims still to be released. */
  datatype Phase =
    | Idle
    | Querying(ids: seq<string>, done: nat, patches: seq<Patch>, failed: set<string>)
    | Leaving(ids: seq<string>)

  datatype State = State(inFlight: set<string>, runs: seq<Phase>, rows: Table)

  datatype Event =
    | Claim(run: nat, stashIds: seq<string>)
    | Query(run: nat, answer: Answer<seq<SceneMetadata>>, now: int)
    | Commit(run: nat)
    | CommitPart(run: nat, part: set<string>)
    | Throw(run: nat)
    | Leave(run: nat)
    | Others(rows: Table)

  function Claimed(phase: Phase): seq<string> {
    if phase.Idle? then [] else phase.ids
  }

  function BatchEnd(phase: Phase): nat
    requires phase.Querying?
  {
    if phase.done + METADATA_QUERY_BATCH_SIZE < |phase.ids| then phase.done + METADATA_QUERY_BATCH_SIZE else |phase.ids|
  }

  function AfterQuery(phase: Phase, answer: Answer<seq<SceneMetadata>>, now: int): Phase
    requires phase.Querying? && phase.done <= |phase.ids|
  {
    var batch := phase.ids[phase.done..BatchEnd(phase)];
    Querying(phase.ids, BatchEnd(phase), phase.patches + BatchPatches(batch, answer, now),
             if answer.Threw? then phase.failed + (set id | id in batch) else phase.failed)
  }

  predicate AllAsked(phase: Phase) {
    phase.Querying? && phase.done == |phase.ids|
  }

  ghost predicate Step(s: State, event: Event, t: State) {
    match event
    case Claim(i, stashIds) =>
      && i < |s.runs| && s.runs[i].Idle?
      && var ids := Unclaimed(NormalizedIds(stashIds), s.inFlight);
         t == State(s.inFlight + Members(ids), s.runs[i := if ids == [] then Idle else Querying(ids, 0, [], {})], s.rows)
    case Query(i, answer, now) =>
      && i < |s.runs| && s.runs[i].Querying? && s.runs[i].done < |s.runs[i].ids|
      && t == s.(runs := s.runs[i := AfterQuery(s.runs[i], answer, now)])
    case Commit(i) =>
      && i < |s.runs| && AllAsked(s.runs[i])
      && t == State(s.inFlight, s.runs[i := Leaving(s.runs[i].ids)], Applied(s.rows, Merged(s.runs[i].patches), map[]))
    case CommitPart(i, part) =>
      && i < |s.runs| && AllAsked(s.runs[i])
      && var merged := Merged(s.runs[i].patches);
         t == State(s.inFlight, s.runs[i := Leaving(s.runs[i].ids)], Applied(s.rows, merged - part, map[]))
    case Throw(i) =>
      && i < |s.runs| && s.runs[i].Querying?
      && t == s.(runs := s.runs[i := Leaving(s.runs[i].ids)])
    case Leave(i) =>
      && i < |s.runs| && s.runs[i].Leaving?
      && t == State(s.inFlight - Members(s.runs[i].ids), s.runs[i := Idle], s.rows)
    case Others(rows) => t == s.(rows := rows)
  }

  ghost predicate Steps(s: State, t: State) {
    exists event :: Step(s, event, t)
  }

  ghost predicate Run(trace: seq<State>) {
    && trace != []
    && trace[0].inFlight == {} && (forall i :: 0 <= i < |trace[0].runs| ==> trace[0].runs[i].Idle?)
    && (forall n :: 0 <= n < |trace| - 1 ==> Steps(trace[n], trace[n + 1]))
  }

  /** The claims of the runs are disjoint and together are the claimed set. */
  ghost predicate Partition(s: State) {
    && (forall i, j, id :: 0 <= i < j < |s.runs| && id in Claimed(s.runs[i]) ==> id !in Claimed(s.runs[j]))
    && (forall i, id :: 0 <= i < |s.runs| && id in Claimed(s.runs[i]) ==> id in s.inFlight)
    && (forall id :: id in s.inFlight ==> exists i :: 0 <= i < |s.runs| && id in Claimed(s.runs[i]))
  }

  /** A patch that leaves its scene hydrated, or failed where its batch failed. */
  ghost predicate Settles(patch: Patch, failed: set<string>) {
    patch.hydration == Given(Hydrated) || (patch.hydration == Given(FailedRetryable) && SceneOf(patch) in failed)
  }

  ghost predicate AllSettle(patches: seq<Patch>, failed: set<string>) {
    forall i :: 0 <= i < |patches| ==> Settles(patches[i], failed)
  }

  function Scenes(patches: seq<Patch>): seq<string> {
    MapSeq(SceneOf, patches)
  }

  ghost predicate Covers(patches: seq<Patch>, ids: seq<string>) {
    forall id :: id in ids ==> id in Scenes(patches)
  }

  /** Everything a run has asked for has a patch, and every patch settles its scene. */
  ghost predicate PhaseFits(phase: Phase) {
    phase.Querying? ==>
      && phase.done <= |phase.ids|
      && (forall id :: id in phase.ids ==> CleanId(id))
      && AllSettle(phase.patches, phase.failed)
      && Covers(phase.patches, phase.ids[..phase.done])
  }

  ghost predicate Inv(s: State) {
    && Partition(s)
    && (forall i :: 0 <= i < |s.runs| ==> PhaseFits(s.runs[i]))
  }

  lemma BatchCovers(batch: seq<string>, answer: Answer<seq<SceneMetadata>>, now: int)
    requires forall x :: x in batch ==> CleanId(x)
    ensures Covers(BatchPatches(batch, answer, now), batch)
  {
    var patches := BatchPatches(batch, answer, now);
    forall id | id in batch ensures id in Scenes(patches) {
      if answer.Threw? {
        var i :| 0 <= i < |batch| && batch[i] == id;
        assert patches[i] == FailedPatch(id, now) && Scenes(patches)[i] == id;
      } else if id in AnsweredIds(answer.value) {
        var i :| 0 <= i < |answer.value| && answer.value[i].id == id;
        assert patches[i] == HydratedPatch(answer.value[i], now) && Scenes(patches)[i] == id;
      } else {
        var answered := AnsweredIds(answer.value);
        var missing := Filter((x: string) => x !in answered, batch);
        var i :| 0 <= i < |missing| && missing[i] == id;
        assert patches[|answer.value| + i] == MissingPatch(id, now) && Scenes(patches)[|answer.value| + i] == id;
      }
    }
  }

  lemma BatchSettles(batch: seq<string>, answer: Answer<seq<SceneMetadata>>, now: int, failed: set<string>)
    requires forall x :: x in batch ==> CleanId(x)
    requires answer.Threw? ==> forall id :: id in batch ==> id in failed
    ensures AllSettle(BatchPatches(batch, answer, now), failed)
  {
    var patches := BatchPatches(batch, answer, now);
    if answer.Threw? {
      forall i | 0 <= i < |patches| ensures Settles(patches[i], failed) {
        assert patches[i] == FailedPatch(batch[i], now) && batch[i] in batch;
      }
    }
  }

  lemma CoversMore(patches: seq<Patch>, ids: seq<string>, more: seq<Patch>, batch: seq<string>)
    requires Covers(patches, ids) && Covers(more, batch)
    ensures Covers(patches + more, ids + batch)
  {
    assert Scenes(patches + more) == Scenes(patches) + Scenes(more);
  }

  lemma SettleMore(patches: seq<Patch>, failed: set<string>, more: seq<Patch>, now: set<string>)
    requires AllSettle(patches, failed) && AllSettle(more, now) && failed <= now
    ensures AllSettle(patches + more, now)
  {
  }

  lemma QueryFits(phase: Phase, answer: Answer<seq<SceneMetadata>>, now: int)
    requires PhaseFits(phase) && phase.Querying? && phase.done < |phase.ids|
    ensures PhaseFits(AfterQuery(phase, answer, now))
  {
    var batch := phase.ids[phase.done..BatchEnd(phase)];
    var next, more := AfterQuery(phase, answer, now), BatchPatches(batch, answer, now);
    assert forall x :: x in batch ==> x in phase.ids;
    BatchSettles(batch, answer, now, next.failed);
    SettleMore(phase.patches, phase.failed, more, next.failed);
    BatchCovers(batch, answer, now);
    CoversMore(phase.patches, phase.ids[..phase.done], more, batch);
    SliceInTwo(phase.ids, phase.done, BatchEnd(phase));
  }

  /** A run that keeps its claims leaves the partition alone. */
  lemma SameClaims(s: State, i: nat, phase: Phase, t: State)
    requires Partition(s) && i < |s.runs| && Claimed(phase) == Claimed(s.runs[i])
    requires t.inFlight == s.inFlight && t.runs == s.runs[i := phase]
    ensures Partition(t)
  {
    assert forall j :: 0 <= j < |s.runs| ==> Claimed(t.runs[j]) == Claimed(s.runs[j]);
  }

  lemma ClaimKeeps(s: State, i: nat, ids: seq<string>, phase: Phase, t: State)
    requires Partition(s) && i < |s.runs| && s.runs[i].Idle? && Claimed(phase) == ids
    requires forall id :: id in ids ==> id !in s.inFlight
    requires t.inFlight == s.inFlight + Members(ids) && t.runs == s.runs[i := phase]
    ensures Partition(t)
  {
    forall id | id in t.inFlight ensures exists j :: 0 <= j < |t.runs| && id in Claimed(t.runs[j]) {
      if id in ids {
        assert id in Claimed(t.runs[i]);
      } else {
        var j :| 0 <= j < |s.runs| && id in Claimed(s.runs[j]);
        assert t.runs[j] == s.runs[j];
      }
    }
  }

  lemma LeaveKeeps(s: State, i: nat, t: State)
    requires Partition(s) && i < |s.runs| && s.runs[i].Leaving?
    requires t.inFlight == s.inFlight - Members(s.runs[i].ids) && t.runs == s.runs[i := Idle]
    ensures Partition(t)
  {
    forall id | id in t.inFlight ensures exists j :: 0 <= j < |t.runs| && id in Claimed(t.runs[j]) {
      var j :| 0 <= j < |s.runs| && id in Claimed(s.runs[j]);
      assert j != i;
      assert t.runs[j] == s.runs[j];
    }
    forall j, id | 0 <= j < |t.runs| && id in Claimed(t.runs[j]) ensures id in t.inFlight {
      assert j != i && t.runs[j] == s.runs[j];
      assert id !in Claimed(s.runs[i]);
    }
  }

  lemma StepKeeps(s: State, event: Event, t: State)
    requires Inv(s) && Step(s, event, t)
    ensures Inv(t)
  {
    match event
    case Claim(i, stashIds) =>
      NormalizedNonBlank(stashIds);
      var ids := Unclaimed(NormalizedIds(stashIds), s.inFlight);
      ClaimKeeps(s, i, ids, t.runs[i], t);
    case Query(i, answer, now) =>
      QueryFits(s.runs[i], answer, now);
      SameClaims(s, i, t.runs[i], t);
    case Commit(i) => SameClaims(s, i, t.runs[i], t);
    case CommitPart(i, _) => SameClaims(s, i, t.runs[i], t);
    case Throw(i) => SameClaims(s, i, t.runs[i], t);
    case Leave(i) => LeaveKeeps(s, i, t);
    case Others(_) =>
  }

  lemma RunKeeps(trace: seq<State>, n: nat)
    requires Run(trace) && n < |trace|
    ensures Inv(trace[n])
  {
    if n > 0 {
      RunKeeps(trace, n - 1);
      assert Steps(trace[n - 1], trace[n - 1 + 1]);
      var event :| Step(trace[n - 1], event, trace[n]);
      StepKeeps(trace[n - 1], event, trace[n]);
    }
  }

  /** However the runs interleave, fail and throw: their claims are disjoint, together they are the claimed set,
      and it is empty once every run is out. */
  lemma ClaimsPartition(trace: seq<State>, n: nat)
    requires Run(trace) && n < |trace|
    ensures Partition(trace[n])
    ensures (forall i :: 0 <= i < |trace[n].runs| ==> trace[n].runs[i].Idle?) ==> trace[n].inFlight == {}
  {
    RunKeeps(trace, n);
  }

  /** Leaving, whichever way the run ended, releases its own claims and nobody else's. */
  lemma LeaveReleasesItsOwn(trace: seq<State>, n: nat, i: nat)
    requires Run(trace) && n + 1 < |trace| && Step(trace[n], Leave(i), trace[n + 1])
    ensures forall id :: id in trace[n].inFlight && id !in trace[n + 1].inFlight <==> id in Claimed(trace[n].runs[i])
    ensures forall j, id :: 0 <= j < |trace[n].runs| && j != i && id in Claimed(trace[n].runs[j]) ==> id in trace[n + 1].inFlight
  {
    RunKeeps(trace, n);
    RunKeeps(trace, n + 1);
    forall j, id | 0 <= j < |trace[n].runs| && j != i && id in Claimed(trace[n].runs[j]) ensures id in trace[n + 1].inFlight {
      assert trace[n + 1].runs[j] == trace[n].runs[j];
    }
  }

  /** The hydration property a merged patch may carry for a scene. */
  ghost predicate HydratedOrRetryable(hydration: Field<Hydration>, mayFail: bool) {
    hydration == Given(Hydrated) || (hydration == Given(FailedRetryable) && mayFail)
  }

  lemma SpreadSettles(id: string, earlier: Patch, last: Patch, failed: set<string>)
    requires Settles(last, failed) && SceneOf(last) == id
    ensures HydratedOrRetryable(Spread(id, earlier, last).hydration, id in failed)
  {
  }

  lemma {:induction false} MergedSettles(patches: seq<Patch>, failed: set<string>, id: string)
    requires AllSettle(patches, failed)
    ensures var patch := Lookup(Merged(patches), id);
            patch.Some? ==> HydratedOrRetryable(patch.value.hydration, id in failed)
  {
    if patches != [] {
      var before, last := patches[..|patches| - 1], patches[|patches| - 1];
      MergedSettles(before, failed, id);
      assert patches == before + [last];
      MergedSnocAt(before, last, id);
      if SceneOf(last) == id {
        SpreadSettles(id, Earlier(Merged(before), id), last, failed);
      }
    }
  }

  ghost predicate Held(scenes: seq<string>, keys: set<string>) {
    forall id :: id in scenes && id != "" ==> id in keys
  }

  lemma OneMoreHeld(scenes: seq<string>, n: nat, keys: set<string>)
    requires n < |scenes| && Held(scenes[..n], keys)
    ensures Held(scenes[..n + 1], keys + (if scenes[n] == "" then {} else {scenes[n]}))
  {
  }

  lemma MergedCovers(patches: seq<Patch>, n: nat)
    requires n <= |patches|
    ensures Held(Scenes(patches)[..n], Merged(patches[..n]).Keys)
  {
    if n > 0 {
      MergedCovers(patches, n - 1);
      MergedSnoc(patches, n - 1);
      OneMoreHeld(Scenes(patches), n - 1, Merged(patches[..n - 1]).Keys);
    }
  }

  /** Once a run's write commits, each scene it claimed is hydrated, or failed where its batch failed. */
  lemma CommitSettlesClaims(trace: seq<State>, n: nat, i: nat, id: string)
    requires Run(trace) && n + 1 < |trace| && Step(trace[n], Commit(i), trace[n + 1])
    requires id in trace[n].runs[i].ids
    ensures id in trace[n + 1].rows
    ensures trace[n + 1].rows[id].columns.hydration == Hydrated
            || (trace[n + 1].rows[id].columns.hydration == FailedRetryable && id in trace[n].runs[i].failed)
  {
    RunKeeps(trace, n);
    var phase := trace[n].runs[i];
    assert phase.ids[..phase.done] == phase.ids;
    MergedCovers(phase.patches, |phase.patches|);
    assert phase.patches[..|phase.patches|] == phase.patches;
    MergedSettles(phase.patches, phase.failed, id);
    AppliedAt(trace[n].rows, Merged(phase.patches), id);
  }
}
