/** Concurrent calls of applySceneIndexPatches behind the promise-chain barrier (indexing.service.ts). */
module WriteBarrier {
  import opened Basics
  import opened SceneIndex
  import opened SceneIndexSummary
  import opened SceneIndexStore

  /** Where a call stands: awaiting the previous barrier, inside it, or past its release. */
  datatype Phase = Waiting | Entered | SummaryReady | Loaded(known: Table, attempt: nat) | Released(ok: bool)

  /** One call: its arguments, its scenes in write order, the barrier it awaits and the scenes it has committed. */
  datatype Call = Call(
    patches: seq<Patch>,
    items: QueueEvidence,
    ids: seq<string>,
    awaits: Option<nat>,
    phase: Phase,
    done: nat)

  /** `barrier` is the call whose release the stored promise stands for. */
  datatype State = State(rows: Table, summary: Option<Summary>, calls: seq<Call>, barrier: Option<nat>)

  /** One atomic step: synchronous code up to the next await, or one database call. */
  datatype Event =
    | Arrive(patches: seq<Patch>, items: QueueEvidence, ids: seq<string>)
    | Enter(call: nat)
    | EnsureSummary(call: nat, newestWriteAt: Option<int>)
    | Load(call: nat)
    | Commit(call: nat, now: int)
    | Deadlock(call: nat)
    | Throw(call: nat)
    | Finish(call: nat)

  function ChunkEnd(call: Call): nat {
    if call.done + APPLY_PATCH_CHUNK_SIZE < |call.ids| then call.done + APPLY_PATCH_CHUNK_SIZE else |call.ids|
  }

  predicate Resolved(s: State, awaits: Option<nat>) {
    awaits.None? || (awaits.value < |s.calls| && s.calls[awaits.value].phase.Released?)
  }

  function WithPhase(s: State, i: nat, phase: Phase): State
    requires i < |s.calls|
  {
    s.(calls := s.calls[i := s.calls[i].(phase := phase)])
  }

  ghost predicate Step(s: State, event: Event, t: State) {
    match event
    case Arrive(patches, items, ids) =>
      && Lists(ids, Merged(patches).Keys)
      && t == s.(calls := s.calls + [Call(patches, items, ids, s.barrier, Waiting, 0)], barrier := Some(|s.calls|))
    case Enter(i) =>
      && i < |s.calls| && s.calls[i].phase.Waiting? && Resolved(s, s.calls[i].awaits)
      && t == WithPhase(s, i, if s.calls[i].ids == [] then Released(true) else Entered)
    case EnsureSummary(i, newestWriteAt) =>
      && i < |s.calls| && s.calls[i].phase.Entered?
      && t == WithPhase(s, i, SummaryReady).(
           summary := if s.summary.Some? then s.summary else Some(Rebuild(s.rows, newestWriteAt)))
    case Load(i) =>
      && i < |s.calls| && s.calls[i].phase.SummaryReady?
      && t == WithPhase(s, i, Loaded(KnownRows(s.rows, Merged(s.calls[i].patches)), 1))
    case Commit(i, now) => CommitChunk(s, i, now, t)
    case Deadlock(i) =>
      && i < |s.calls| && s.calls[i].phase.Loaded? && s.calls[i].done < |s.calls[i].ids|
      && t == WithPhase(s, i,
           if s.calls[i].phase.attempt >= UPSERT_DEADLOCK_RETRY_ATTEMPTS then Released(false)
           else s.calls[i].phase.(attempt := s.calls[i].phase.attempt + 1))
    case Throw(i) =>
      && i < |s.calls| && !s.calls[i].phase.Waiting? && !s.calls[i].phase.Released?
      && t == WithPhase(s, i, Released(false))
    case Finish(i) =>
      && i < |s.calls| && s.calls[i].phase.Loaded? && s.calls[i].done == |s.calls[i].ids|
      && t == WithPhase(s, i, Released(true))
  }

  /** Its scenes are those of its merged patches, and it has written no more than those. */
  ghost predicate CallFits(call: Call) {
    call.done <= |call.ids| && Lists(call.ids, Merged(call.patches).Keys)
  }

  /** A call that has loaded its rows and has a chunk left. */
  ghost predicate HasChunk(call: Call) {
    CallFits(call) && call.phase.Loaded? && call.done < |call.ids|
  }

  /** The next chunk's scenes and the row data its patches build on the rows the call knows. */
  ghost function ChunkOf(call: Call): (chunk: seq<string>)
    requires HasChunk(call)
    ensures forall id :: id in chunk ==> id in ChunkRows(call)
  {
    assert forall id :: id in call.ids[call.done..ChunkEnd(call)] ==> id in call.ids;
    call.ids[call.done..ChunkEnd(call)]
  }

  ghost function ChunkRows(call: Call): Table
    requires HasChunk(call)
  {
    NextRows(call.phase.known, Merged(call.patches), call.items)
  }

  ghost function AfterChunk(call: Call): Call
    requires HasChunk(call)
  {
    call.(phase := Loaded(Written(call.phase.known, ChunkRows(call), ChunkOf(call)), 1), done := ChunkEnd(call))
  }

  /** The transaction of one chunk: its rows and its summary increments together. */
  ghost predicate CommitChunk(s: State, i: nat, now: int, t: State) {
    && i < |s.calls| && HasChunk(s.calls[i]) && s.summary.Some?
    && var call := s.calls[i];
       t == State(
         Written(s.rows, ChunkRows(call), ChunkOf(call)),
         Some(Incremented(s.summary.value, DeltaOf(call.phase.known, ChunkRows(call), ChunkOf(call), now))),
         s.calls[i := AfterChunk(call)],
         s.barrier)
  }

  ghost predicate Initial(s: State) {
    && s.calls == [] && s.barrier == None
    && (s.summary.Some? ==> Exact(s.rows, s.summary.value))
  }

  ghost predicate Steps(s: State, t: State) {
    exists event :: Step(s, event, t)
  }

  ghost predicate Run(trace: seq<State>) {
    && trace != []
    && Initial(trace[0])
    && (forall n :: 0 <= n < |trace| - 1 ==> Steps(trace[n], trace[n + 1]))
  }

  /** What a call makes of the rows it is given, as far as its chunks committed. */
  ghost function Effect(rows: Table, call: Call): Table
    requires CallFits(call)
  {
    var next := NextRows(rows, Merged(call.patches), call.items);
    assert forall id :: id in call.ids[..call.done] ==> id in call.ids;
    Written(rows, next, call.ids[..call.done])
  }

  ghost predicate WellFormed(calls: seq<Call>) {
    forall i :: 0 <= i < |calls| ==> CallFits(calls[i])
  }

  /** The calls run one after another, in the order of their arrival. */
  ghost function Serial(start: Table, calls: seq<Call>): Table
    requires WellFormed(calls)
  {
    if calls == [] then start
    else Effect(Serial(start, calls[..|calls| - 1]), calls[|calls| - 1])
  }

  ghost predicate Chained(s: State) {
    && s.barrier == (if s.calls == [] then None else Some(|s.calls| - 1))
    && (forall i :: 0 <= i < |s.calls| ==> s.calls[i].awaits == if i == 0 then None else Some(i - 1))
  }

  /** A call past its await has every earlier call behind it. */
  ghost predicate OneAtATime(s: State) {
    forall i, j :: 0 <= j < i < |s.calls| && !s.calls[i].phase.Waiting? ==> s.calls[j].phase.Released?
  }

  predicate Inside(phase: Phase) {
    phase.Entered? || phase.SummaryReady? || phase.Loaded?
  }

  /** Nothing is committed before the rows are loaded, and a call that succeeded committed everything. */
  ghost predicate PhasesFit(s: State) {
    forall i :: 0 <= i < |s.calls| ==>
      var call := s.calls[i];
      && (call.phase.Waiting? || call.phase.Entered? || call.phase.SummaryReady? ==> call.done == 0)
      && (call.phase == Released(true) ==> call.done == |call.ids|)
      && (call.phase.SummaryReady? || call.phase.Loaded? ==> s.summary.Some?)
  }

  /** The rows a call has loaded are still the stored ones, where it will write. */
  ghost predicate KnownIsStored(s: State) {
    forall i :: 0 <= i < |s.calls| && s.calls[i].phase.Loaded? ==>
      forall id :: id in s.calls[i].ids ==> Lookup(s.calls[i].phase.known, id) == Lookup(s.rows, id)
  }

  ghost predicate InOrder(s: State) {
    && WellFormed(s.calls)
    && Chained(s)
    && OneAtATime(s)
    && PhasesFit(s)
  }

  ghost predicate Inv(start: Table, s: State) {
    && InOrder(s)
    && KnownIsStored(s)
    && s.rows == Serial(start, s.calls)
    && (s.summary.Some? ==> Exact(s.rows, s.summary.value))
  }

  /** Calls that have committed nothing leave the rows alone. */
  lemma {:induction false} IdleTail(start: Table, calls: seq<Call>, i: nat)
    requires WellFormed(calls) && i < |calls|
    requires forall j :: i < j < |calls| ==> calls[j].done == 0
    ensures Serial(start, calls) == Effect(Serial(start, calls[..i]), calls[i])
    decreases |calls|
  {
    if i < |calls| - 1 {
      var shorter := calls[..|calls| - 1];
      assert shorter[..i] == calls[..i];
      IdleTail(start, shorter, i);
      NothingWritten(Serial(start, shorter), calls[|calls| - 1]);
    }
  }

  /** Replacing the active call by one that has committed as much changes nothing. */
  lemma SamePrefix(start: Table, s: State, i: nat, call: Call)
    requires WellFormed(s.calls) && i < |s.calls|
    requires forall j :: i < j < |s.calls| ==> s.calls[j].done == 0
    requires call.patches == s.calls[i].patches && call.items == s.calls[i].items && call.ids == s.calls[i].ids
    requires call.done <= |call.ids|
    ensures WellFormed(s.calls[i := call])
    ensures Serial(start, s.calls[i := call]) == Effect(Serial(start, s.calls[..i]), call)
    ensures Serial(start, s.calls) == Effect(Serial(start, s.calls[..i]), s.calls[i])
  {
    var calls := s.calls[i := call];
    assert calls[..i] == s.calls[..i];
    IdleTail(start, calls, i);
    IdleTail(start, s.calls, i);
  }

  /** A call that is, or may come, inside the barrier has every earlier call behind it and every later one idle. */
  lemma TheOthers(s: State, i: nat)
    requires InOrder(s) && i < |s.calls| && !s.calls[i].phase.Released?
    requires s.calls[i].phase.Waiting? ==> Resolved(s, s.calls[i].awaits)
    ensures forall j :: 0 <= j < i ==> s.calls[j].phase.Released?
    ensures forall j :: i < j < |s.calls| ==> s.calls[j].phase.Waiting? && s.calls[j].done == 0
  {
    if s.calls[i].phase.Waiting? && i > 0 {
      assert s.calls[i - 1].phase.Released?;
    }
    forall j | i < j < |s.calls| ensures s.calls[j].phase.Waiting? && s.calls[j].done == 0 {
      assert !s.calls[i].phase.Released?;
    }
  }

  /** The conditions under which one call may move on, committing up to `done`. */
  ghost predicate Moves(s: State, i: nat, phase: Phase, done: nat, t: State) {
    && i < |s.calls|
    && !s.calls[i].phase.Released? && !phase.Waiting?
    && (s.calls[i].phase.Waiting? ==> Resolved(s, s.calls[i].awaits))
    && t.barrier == s.barrier && t.calls == s.calls[i := s.calls[i].(phase := phase, done := done)]
    && done <= |s.calls[i].ids|
    && (phase == Released(true) ==> done == |s.calls[i].ids|)
    && (phase.Entered? || phase.SummaryReady? ==> done == 0)
    && (phase.SummaryReady? || phase.Loaded? ==> t.summary.Some?)
    && (s.summary.Some? ==> t.summary.Some?)
  }

  lemma MoveInOrder(s: State, i: nat, phase: Phase, done: nat, t: State)
    requires InOrder(s) && Moves(s, i, phase, done, t)
    ensures InOrder(t)
  {
    TheOthers(s, i);
  }

  lemma MoveSerial(start: Table, s: State, i: nat, phase: Phase, done: nat, t: State)
    requires InOrder(s) && Moves(s, i, phase, done, t)
    ensures WellFormed(t.calls)
    ensures Serial(start, t.calls) == Effect(Serial(start, s.calls[..i]), t.calls[i])
    ensures Serial(start, s.calls) == Effect(Serial(start, s.calls[..i]), s.calls[i])
  {
    TheOthers(s, i);
    SamePrefix(start, s, i, t.calls[i]);
  }

  /** No other call has loaded any rows. */
  lemma MoveKnown(s: State, i: nat, phase: Phase, done: nat, t: State)
    requires InOrder(s) && Moves(s, i, phase, done, t)
    requires phase.Loaded? ==> forall id :: id in s.calls[i].ids ==> Lookup(phase.known, id) == Lookup(t.rows, id)
    ensures KnownIsStored(t)
  {
    TheOthers(s, i);
  }

  /** A move that writes what the call's next chunk writes keeps the invariant. */
  lemma MoveKeeps(start: Table, s: State, i: nat, phase: Phase, done: nat, t: State)
    requires InOrder(s) && Moves(s, i, phase, done, t)
    requires CallFits(t.calls[i]) && t.rows == Effect(Serial(start, s.calls[..i]), t.calls[i])
    requires phase.Loaded? ==> forall id :: id in s.calls[i].ids ==> Lookup(phase.known, id) == Lookup(t.rows, id)
    requires t.summary.Some? ==> Exact(t.rows, t.summary.value)
    ensures Inv(start, t)
  {
    MoveInOrder(s, i, phase, done, t);
    MoveSerial(start, s, i, phase, done, t);
    MoveKnown(s, i, phase, done, t);
  }

  /** Only the phase of an active call moves. */
  lemma PhaseMove(start: Table, s: State, i: nat, phase: Phase, t: State)
    requires Inv(start, s) && i < |s.calls| && Moves(s, i, phase, s.calls[i].done, t)
    requires t.rows == s.rows
    requires phase.Loaded? ==> forall id :: id in s.calls[i].ids ==> Lookup(phase.known, id) == Lookup(s.rows, id)
    requires t.summary.Some? ==> Exact(t.rows, t.summary.value)
    ensures Inv(start, t)
  {
    MoveSerial(start, s, i, phase, s.calls[i].done, t);
    SameEffect(Serial(start, s.calls[..i]), s.calls[i], t.calls[i]);
    MoveKeeps(start, s, i, phase, s.calls[i].done, t);
  }

  lemma SameEffect(rows: Table, call: Call, other: Call)
    requires CallFits(call)
    requires other == call.(phase := other.phase)
    ensures Effect(rows, other) == Effect(rows, call)
  {
  }

  lemma ArriveKeeps(start: Table, s: State, event: Event, t: State)
    requires Inv(start, s) && event.Arrive? && Step(s, event, t)
    ensures Inv(start, t)
  {
    var n := |s.calls|;
    assert t.calls[..n] == s.calls;
    ArriveInOrder(s, event, t);
    NothingWritten(s.rows, t.calls[n]);
  }

  lemma ArriveInOrder(s: State, event: Event, t: State)
    requires InOrder(s) && event.Arrive? && Step(s, event, t)
    ensures InOrder(t)
  {
    var n := |s.calls|;
    assert forall i :: 0 <= i < n ==> t.calls[i] == s.calls[i];
    assert t.calls[n].phase.Waiting?;
  }

  lemma NothingWritten(rows: Table, call: Call)
    requires call.done == 0 && CallFits(call)
    ensures Effect(rows, call) == rows
  {
    assert call.ids[..0] == [];
  }

  ghost predicate KnowsItsRows(call: Call, rows: Table) {
    call.phase.Loaded? && forall id :: id in call.ids ==> Lookup(call.phase.known, id) == Lookup(rows, id)
  }

  /** A committed chunk is the call's next step on the rows before it. */
  lemma ChunkWritten(before: Table, rows: Table, call: Call)
    requires HasChunk(call) && KnowsItsRows(call, rows) && rows == Effect(before, call)
    ensures CallFits(AfterChunk(call))
    ensures Written(rows, ChunkRows(call), ChunkOf(call)) == Effect(before, AfterChunk(call))
    ensures KnowsItsRows(AfterChunk(call), Written(rows, ChunkRows(call), ChunkOf(call)))
  {
    var known, merged, end := call.phase.known, Merged(call.patches), ChunkEnd(call);
    var next := NextRows(before, merged, call.items);
    assert Reached(before, next, call.ids, call.done, rows, known) by {
      assert forall id :: id in call.ids[..call.done] ==> id in call.ids;
    }
    UnwrittenTargets(before, merged, call.items, call.ids, call.done, end, rows, known);
    NextChunk(before, next, ChunkRows(call), call.ids, call.done, end, rows, known);
  }

  lemma ChunkCounted(rows: Table, call: Call, now: int, summary: Summary)
    requires HasChunk(call) && KnowsItsRows(call, rows) && Exact(rows, summary)
    ensures Exact(Written(rows, ChunkRows(call), ChunkOf(call)),
                  Incremented(summary, DeltaOf(call.phase.known, ChunkRows(call), ChunkOf(call), now)))
  {
    ChunkKeepsExact(rows, call.phase.known, ChunkRows(call), ChunkOf(call), now, summary);
  }

  lemma CommitMoves(s: State, i: nat, now: int, t: State)
    requires InOrder(s) && CommitChunk(s, i, now, t)
    ensures Moves(s, i, t.calls[i].phase, t.calls[i].done, t)
    ensures t.calls[i] == AfterChunk(s.calls[i])
  {
  }

  /** What a committed chunk leaves, over the rows before its call. */
  ghost predicate Committed(before: Table, t: State, i: nat) {
    && i < |t.calls| && CallFits(t.calls[i]) && KnowsItsRows(t.calls[i], t.rows)
    && t.rows == Effect(before, t.calls[i])
    && t.summary.Some? && Exact(t.rows, t.summary.value)
  }

  lemma CommitWrites(before: Table, s: State, i: nat, now: int, t: State)
    requires Committed(before, s, i) && CommitChunk(s, i, now, t)
    ensures Committed(before, t, i)
  {
    ChunkWritten(before, s.rows, s.calls[i]);
    ChunkCounted(s.rows, s.calls[i], now, s.summary.value);
  }

  /** The rows before the active call are those of the calls ahead of it. */
  lemma CallsAhead(start: Table, s: State, i: nat) returns (before: Table)
    requires Inv(start, s) && i < |s.calls| && s.calls[i].phase.Loaded? && s.summary.Some?
    ensures Committed(before, s, i)
    ensures WellFormed(s.calls[..i]) && before == Serial(start, s.calls[..i])
  {
    before := Serial(start, s.calls[..i]);
    TheOthers(s, i);
    SamePrefix(start, s, i, s.calls[i]);
  }

  lemma CommitMoved(start: Table, before: Table, s: State, i: nat, now: int, t: State)
    requires InOrder(s) && CommitChunk(s, i, now, t) && Committed(before, t, i)
    requires WellFormed(s.calls[..i]) && before == Serial(start, s.calls[..i])
    ensures Inv(start, t)
  {
    CommitMoves(s, i, now, t);
    MoveKeeps(start, s, i, t.calls[i].phase, t.calls[i].done, t);
  }

  lemma CommitKeeps(start: Table, s: State, i: nat, now: int, t: State)
    requires Inv(start, s) && CommitChunk(s, i, now, t)
    ensures Inv(start, t)
  {
    var before := CallsAhead(start, s, i);
    CommitWrites(before, s, i, now, t);
    CommitMoved(start, before, s, i, now, t);
  }

  lemma StepKeeps(start: Table, s: State, event: Event, t: State)
    requires Inv(start, s) && Step(s, event, t)
    ensures Inv(start, t)
  {
    match event
    case Arrive(_, _, _) => ArriveKeeps(start, s, event, t);
    case Enter(i) => PhaseMove(start, s, i, t.calls[i].phase, t);
    case EnsureSummary(i, newestWriteAt) =>
      RebuildExact(s.rows, newestWriteAt);
      PhaseMove(start, s, i, SummaryReady, t);
    case Load(i) => PhaseMove(start, s, i, t.calls[i].phase, t);
    case Commit(i, now) => CommitKeeps(start, s, i, now, t);
    case Deadlock(i) => PhaseMove(start, s, i, t.calls[i].phase, t);
    case Throw(i) => PhaseMove(start, s, i, Released(false), t);
    case Finish(i) => PhaseMove(start, s, i, Released(true), t);
  }

  lemma RunKeeps(trace: seq<State>, n: nat)
    requires Run(trace) && n < |trace|
    ensures Inv(trace[0].rows, trace[n])
  {
    if n > 0 {
      RunKeeps(trace, n - 1);
      assert Steps(trace[n - 1], trace[n - 1 + 1]);
      var event :| Step(trace[n - 1], event, trace[n]);
      StepKeeps(trace[0].rows, trace[n - 1], event, trace[n]);
    }
  }

  /** In every state of every interleaving at most one call is inside the barrier, calls enter in the order in
      which they arrived, the table is that of the calls run one after another, and the summary is exact. */
  lemma InterleavedIsSerial(trace: seq<State>, n: nat)
    requires Run(trace) && n < |trace|
    ensures var s := trace[n];
            && WellFormed(s.calls)
            && s.rows == Serial(trace[0].rows, s.calls)
            && (forall i, j :: 0 <= j < i < |s.calls| && Inside(s.calls[i].phase) ==> !Inside(s.calls[j].phase))
            && (forall i, j :: 0 <= j < i < |s.calls| && !s.calls[i].phase.Waiting? ==> s.calls[j].phase.Released?)
            && (s.summary.Some? ==>
                  && Exact(s.rows, s.summary.value)
                  && s.summary.value.acquisitionTrackedScenes
                     == s.summary.value.requestedCount + s.summary.value.downloadingCount
                      + s.summary.value.importPendingCount + s.summary.value.failedCount)
  {
    RunKeeps(trace, n);
    if trace[n].summary.Some? {
      ExactTrackedIsTheSum(trace[n].rows, trace[n].summary.value);
    }
  }

  /** Applying the merged patches of each call in turn. */
  ghost function AppliedInTurn(start: Table, calls: seq<Call>): Table {
    if calls == [] then start
    else
      var last := calls[|calls| - 1];
      Applied(AppliedInTurn(start, calls[..|calls| - 1]), Merged(last.patches), last.items)
  }

  /** Calls that all succeeded leave what applying each whole call in turn leaves, in any write order. */
  lemma {:induction false} SuccessIsApplied(start: Table, calls: seq<Call>)
    requires WellFormed(calls)
    requires forall i :: 0 <= i < |calls| ==> calls[i].done == |calls[i].ids|
    ensures Serial(start, calls) == AppliedInTurn(start, calls)
  {
    if calls != [] {
      var shorter, last := calls[..|calls| - 1], calls[|calls| - 1];
      SuccessIsApplied(start, shorter);
      assert last.ids[..last.done] == last.ids;
      WrittenInAnyOrder(Serial(start, shorter), Merged(last.patches), last.items, last.ids);
    }
  }

  /** Once every call has returned without a throw, the table is that of the whole calls in turn. */
  lemma AllReturned(trace: seq<State>, n: nat)
    requires Run(trace) && n < |trace|
    requires forall i :: 0 <= i < |trace[n].calls| ==> trace[n].calls[i].phase == Released(true)
    ensures trace[n].rows == AppliedInTurn(trace[0].rows, trace[n].calls)
  {
    RunKeeps(trace, n);
    SuccessIsApplied(trace[0].rows, trace[n].calls);
  }

  /** A waiting call can enter exactly when its predecessors have all returned or thrown. */
  lemma NextCallCanEnter(trace: seq<State>, n: nat, i: nat)
    requires Run(trace) && n < |trace| && i < |trace[n].calls|
    ensures var s := trace[n];
            (exists t :: Step(s, Enter(i), t))
            <==> s.calls[i].phase.Waiting? && forall j :: 0 <= j < i ==> s.calls[j].phase.Released?
  {
    RunKeeps(trace, n);
    var s := trace[n];
    if s.calls[i].phase.Waiting? && forall j :: 0 <= j < i ==> s.calls[j].phase.Released? {
      assert Step(s, Enter(i), WithPhase(s, i, if s.calls[i].ids == [] then Released(true) else Entered));
    }
    if t :| Step(s, Enter(i), t) {
      assert i > 0 ==> s.calls[i - 1].phase.Released?;
    }
  }

  /** Some call can get on with its work, without a throw or a deadlock. */
  ghost predicate CanMove(s: State) {
    exists event: Event, t :: !event.Arrive? && !event.Throw? && !event.Deadlock? && Step(s, event, t)
  }

  lemma UnreleasedCanMove(s: State, i: nat)
    requires i < |s.calls| && WellFormed(s.calls) && PhasesFit(s) && !s.calls[i].phase.Released?
    requires s.calls[i].phase.Waiting? ==> Resolved(s, s.calls[i].awaits)
    ensures CanMove(s)
  {
    match s.calls[i].phase
    case Waiting => assert Step(s, Enter(i), WithPhase(s, i, if s.calls[i].ids == [] then Released(true) else Entered));
    case Entered =>
      assert Step(s, EnsureSummary(i, None),
                  WithPhase(s, i, SummaryReady).(summary := if s.summary.Some? then s.summary else Some(Rebuild(s.rows, None))));
    case SummaryReady => assert Step(s, Load(i), WithPhase(s, i, Loaded(KnownRows(s.rows, Merged(s.calls[i].patches)), 1)));
    case Loaded(_, _) => LoadedCanMove(s, i);
  }

  lemma LoadedCanMove(s: State, i: nat)
    requires i < |s.calls| && WellFormed(s.calls) && PhasesFit(s) && s.calls[i].phase.Loaded?
    ensures CanMove(s)
  {
    var call := s.calls[i];
    if call.done == |call.ids| {
      assert Step(s, Finish(i), WithPhase(s, i, Released(true)));
    } else {
      ChunkCanMove(s, i, call);
    }
  }

  lemma ChunkCanMove(s: State, i: nat, call: Call)
    requires i < |s.calls| && s.calls[i] == call && HasChunk(call) && s.summary.Some?
    ensures CanMove(s)
  {
    var t := State(
      Written(s.rows, ChunkRows(call), ChunkOf(call)),
      Some(Incremented(s.summary.value, DeltaOf(call.phase.known, ChunkRows(call), ChunkOf(call), 0))),
      s.calls[i := AfterChunk(call)],
      s.barrier);
    assert CommitChunk(s, i, 0, t);
    assert Step(s, Commit(i, 0), t);
  }

  lemma FirstUnreleased(calls: seq<Call>) returns (i: nat)
    requires exists k :: 0 <= k < |calls| && !calls[k].phase.Released?
    ensures i < |calls| && !calls[i].phase.Released? && forall j :: 0 <= j < i ==> calls[j].phase.Released?
  {
    i := 0;
    while calls[i].phase.Released?
      invariant i < |calls|
      invariant forall j :: 0 <= j < i ==> calls[j].phase.Released?
      invariant exists k :: i <= k < |calls| && !calls[k].phase.Released?
      decreases |calls| - i
    {
      i := i + 1;
    }
  }

  /** No call is ever blocked for good: some call can move until all have returned or thrown. */
  lemma StopsOnlyWhenAllReleased(trace: seq<State>, n: nat)
    requires Run(trace) && n < |trace|
    ensures CanMove(trace[n]) <==> exists i :: 0 <= i < |trace[n].calls| && !trace[n].calls[i].phase.Released?
  {
    RunKeeps(trace, n);
    if exists i :: 0 <= i < |trace[n].calls| && !trace[n].calls[i].phase.Released? {
      var i := FirstUnreleased(trace[n].calls);
      UnreleasedCanMove(trace[n], i);
    }
  }

  function Chunks(n: nat): nat {
    (n + APPLY_PATCH_CHUNK_SIZE - 1) / APPLY_PATCH_CHUNK_SIZE
  }

  /** At most how many steps a call has before it: three to load its rows, the attempts at its chunks, and its return. */
  function Remaining(call: Call): int {
    var attempts := UPSERT_DEADLOCK_RETRY_ATTEMPTS * Chunks(if call.done <= |call.ids| then |call.ids| - call.done else 0);
    match call.phase
    case Waiting => attempts + 4
    case Entered => attempts + 3
    case SummaryReady => attempts + 2
    case Loaded(_, attempt) => attempts + 2 - attempt
    case Released(_) => 0
  }

  /** The steps a call takes at most from its arrival on, the arrival among them. */
  function Budget(call: Call): nat {
    UPSERT_DEADLOCK_RETRY_ATTEMPTS * Chunks(|call.ids|) + 5
  }

  function RemainingOf(calls: seq<Call>): int {
    if calls == [] then 0 else RemainingOf(calls[..|calls| - 1]) + Remaining(calls[|calls| - 1])
  }

  function BudgetOf(calls: seq<Call>): nat {
    if calls == [] then 0 else BudgetOf(calls[..|calls| - 1]) + Budget(calls[|calls| - 1])
  }

  ghost predicate AttemptsFit(calls: seq<Call>) {
    forall i :: 0 <= i < |calls| && calls[i].phase.Loaded? ==>
      && 1 <= calls[i].phase.attempt <= UPSERT_DEADLOCK_RETRY_ATTEMPTS
      && (calls[i].done == |calls[i].ids| ==> calls[i].phase.attempt == 1)
  }

  lemma FewerChunks(size: nat, done: nat)
    requires done < size
    ensures var end := if done + APPLY_PATCH_CHUNK_SIZE < size then done + APPLY_PATCH_CHUNK_SIZE else size;
            Chunks(size - end) == Chunks(size - done) - 1
  {
  }

  /** One call has changed, and has fewer steps before it. */
  ghost predicate Advanced(calls: seq<Call>, i: nat, after: seq<Call>) {
    && i < |calls| == |after| && after == calls[i := after[i]] && after[i].ids == calls[i].ids
    && Remaining(after[i]) < Remaining(calls[i])
    && AttemptsFit(after)
  }

  lemma PhaseAdvances(calls: seq<Call>, i: nat, phase: Phase)
    requires i < |calls| && AttemptsFit(calls) && CallFits(calls[i]) && !calls[i].phase.Released?
    requires match phase
             case Waiting => false
             case Entered => calls[i].phase.Waiting?
             case SummaryReady => calls[i].phase.Entered?
             case Loaded(_, attempt) =>
               || (calls[i].phase.SummaryReady? && attempt == 1)
               || (calls[i].phase.Loaded? && calls[i].done < |calls[i].ids| && attempt == calls[i].phase.attempt + 1
                   && attempt <= UPSERT_DEADLOCK_RETRY_ATTEMPTS)
             case Released(_) => true
    ensures Advanced(calls, i, calls[i := calls[i].(phase := phase)])
  {
    if calls[i].phase.Loaded? && calls[i].done < |calls[i].ids| {
      FewerChunks(|calls[i].ids|, calls[i].done);
    }
  }

  lemma ChunkAdvances(calls: seq<Call>, i: nat, known: Table)
    requires i < |calls| && AttemptsFit(calls) && calls[i].phase.Loaded? && calls[i].done < |calls[i].ids|
    ensures Advanced(calls, i, calls[i := calls[i].(phase := Loaded(known, 1), done := ChunkEnd(calls[i]))])
  {
    FewerChunks(|calls[i].ids|, calls[i].done);
  }

  /** A step is an arrival or advances one call. */
  lemma StepCounts(s: State, event: Event, t: State) returns (i: nat)
    requires Step(s, event, t) && !event.Arrive? && AttemptsFit(s.calls) && WellFormed(s.calls)
    ensures Advanced(s.calls, i, t.calls)
  {
    i := event.call;
    if event.Commit? {
      ChunkAdvances(s.calls, i, t.calls[i].phase.known);
    } else {
      PhaseAdvances(s.calls, i, t.calls[i].phase);
    }
  }

  lemma ArrivalCounts(s: State, event: Event, t: State)
    requires Step(s, event, t) && event.Arrive? && AttemptsFit(s.calls)
    ensures AttemptsFit(t.calls) && RemainingOf(t.calls) == RemainingOf(s.calls) + Remaining(t.calls[|s.calls|])
    ensures BudgetOf(t.calls) == BudgetOf(s.calls) + Budget(t.calls[|s.calls|])
    ensures Remaining(t.calls[|s.calls|]) + 1 == Budget(t.calls[|s.calls|])
  {
    assert t.calls[..|s.calls|] == s.calls;
  }

  lemma {:induction false} OneCallMoved(calls: seq<Call>, i: nat, call: Call)
    requires i < |calls| && call.ids == calls[i].ids
    ensures RemainingOf(calls[i := call]) == RemainingOf(calls) - Remaining(calls[i]) + Remaining(call)
    ensures BudgetOf(calls[i := call]) == BudgetOf(calls)
  {
    var n := |calls| - 1;
    if i < n {
      OneCallMoved(calls[..n], i, call);
      assert calls[i := call][..n] == calls[..n][i := call];
    } else {
      assert calls[i := call][..n] == calls[..n];
    }
  }

  lemma {:induction false} RemainingIsNatural(calls: seq<Call>)
    requires AttemptsFit(calls) && WellFormed(calls)
    ensures RemainingOf(calls) >= 0
  {
    if calls != [] {
      RemainingIsNatural(calls[..|calls| - 1]);
      var last := calls[|calls| - 1];
      if last.phase.Loaded? && last.done < |last.ids| {
        FewerChunks(|last.ids|, last.done);
      }
    }
  }

  /** Every run is over after at most five steps a call and three a chunk: throughout, the steps taken and those still
      possible for the calls that have arrived are no more than that. */
  lemma {:induction false} RunsEnd(trace: seq<State>, n: nat)
    requires Run(trace) && n < |trace|
    ensures AttemptsFit(trace[n].calls) && n + RemainingOf(trace[n].calls) <= BudgetOf(trace[n].calls)
    ensures RemainingOf(trace[n].calls) >= 0
  {
    RunKeeps(trace, n);
    if n > 0 {
      RunsEnd(trace, n - 1);
      RunKeeps(trace, n - 1);
      assert Steps(trace[n - 1], trace[n - 1 + 1]);
      var event :| Step(trace[n - 1], event, trace[n]);
      if event.Arrive? {
        ArrivalCounts(trace[n - 1], event, trace[n]);
      } else {
        var i := StepCounts(trace[n - 1], event, trace[n]);
        OneCallMoved(trace[n - 1].calls, i, trace[n].calls[i]);
      }
    }
    RemainingIsNatural(trace[n].calls);
  }

  /** The evidence of every scene a call wrote agrees with the columns it wrote, over the rows before the call. */
  ghost predicate EvidenceInOrder(start: Table, calls: seq<Call>)
    requires WellFormed(calls)
  {
    calls != [] ==>
      var shorter, last := calls[..|calls| - 1], calls[|calls| - 1];
      && EvidenceInOrder(start, shorter)
      && forall id :: id in last.ids[..last.done] ==> EvidenceAgrees(Serial(start, shorter), Merged(last.patches), last.items, id)
  }

  lemma {:induction false} SerialDerived(start: Table, calls: seq<Call>)
    requires WellFormed(calls) && Derived(start) && EvidenceInOrder(start, calls)
    ensures Derived(Serial(start, calls))
  {
    if calls != [] {
      var shorter, last := calls[..|calls| - 1], calls[|calls| - 1];
      SerialDerived(start, shorter);
      assert forall id :: id in last.ids[..last.done] ==> id in last.ids;
      WrittenDerived(Serial(start, shorter), last.patches, last.items, last.ids[..last.done]);
    }
  }

  /** Every call's evidence comes with movie ids. */
  ghost predicate EvidenceWithMovies(calls: seq<Call>) {
    forall i :: 0 <= i < |calls| ==> EvidenceBringsMovie(Merged(calls[i].patches), calls[i].items)
  }

  lemma {:induction false} SerialDerivedUnlessMovie(start: Table, calls: seq<Call>)
    requires WellFormed(calls) && DerivedUnlessMovie(start) && EvidenceWithMovies(calls)
    ensures DerivedUnlessMovie(Serial(start, calls))
  {
    if calls != [] {
      var shorter, last := calls[..|calls| - 1], calls[|calls| - 1];
      SerialDerivedUnlessMovie(start, shorter);
      assert forall id :: id in last.ids[..last.done] ==> id in last.ids;
      WrittenKeepsDerivedUnlessMovie(Serial(start, shorter), last.patches, last.items, last.ids[..last.done]);
    }
  }

  /** In every state of every interleaving every row without a movie has the lifecycle its own columns give, if it was
      so at the start and calls hand over queue items only with movie ids. */
  lemma RowsStayDerivedUnlessMovie(trace: seq<State>, n: nat)
    requires Run(trace) && n < |trace| && DerivedUnlessMovie(trace[0].rows)
    requires EvidenceWithMovies(trace[n].calls)
    ensures DerivedUnlessMovie(trace[n].rows)
  {
    RunKeeps(trace, n);
    SerialDerivedUnlessMovie(trace[0].rows, trace[n].calls);
  }

  lemma {:induction false} NoEvidenceAgrees(start: Table, calls: seq<Call>)
    requires WellFormed(calls) && forall i :: 0 <= i < |calls| ==> calls[i].items == map[]
    ensures EvidenceInOrder(start, calls)
  {
    if calls != [] {
      NoEvidenceAgrees(start, calls[..|calls| - 1]);
    }
  }

  /** In every state of every interleaving every row has the lifecycle its own columns give and that lifecycle's sort
      order, if it was so at the start and the evidence handed over agrees, as it does when there is none. */
  lemma RowsStayDerived(trace: seq<State>, n: nat)
    requires Run(trace) && n < |trace| && Derived(trace[0].rows)
    ensures WellFormed(trace[n].calls)
    ensures EvidenceInOrder(trace[0].rows, trace[n].calls) ==> Derived(trace[n].rows)
    ensures (forall i :: 0 <= i < |trace[n].calls| ==> trace[n].calls[i].items == map[]) ==> Derived(trace[n].rows)
  {
    RunKeeps(trace, n);
    if forall i :: 0 <= i < |trace[n].calls| ==> trace[n].calls[i].items == map[] {
      NoEvidenceAgrees(trace[0].rows, trace[n].calls);
    }
    if EvidenceInOrder(trace[0].rows, trace[n].calls) {
      SerialDerived(trace[0].rows, trace[n].calls);
    }
  }
}
