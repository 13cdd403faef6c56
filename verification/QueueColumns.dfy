/** The three stored queue columns and what they keep of a movie's queue items (indexing.service.ts). */
module QueueColumns {
  import opened Basics
  import opened Text
  import opened SceneStatusResolver

  datatype Columns = Columns(status: Option<string>, state: Option<string>, errorMessage: Option<string>)

  function RankQueueItem(item: QueueItem): nat {
    var status := if item.status.Some? then WordOf(item.status.value) else OtherStatus;
    if status == FailedStatus then 0
    else if status == CompletedStatus || InImportState(item) then 1
    else if status == DownloadingStatus then 2
    else if status == QueuedStatus then 3
    else 4
  }

  /** The text reads as an import state. */
  predicate SaysImportState(item: QueueItem) {
    Reads(item.downloadState, "importpending") || Reads(item.downloadState, "importing")
  }

  /** Failures rank first, then what is completed or in an import state, downloads, what is queued, and the rest. */
  lemma RankInWords(item: QueueItem)
    ensures RankQueueItem(item)
            == if SaysFailed(item) then 0
               else if Reads(item.status, "completed") || SaysImportState(item) then 1
               else if SaysDownloading(item) then 2
               else if SaysQueued(item) then 3
               else 4
  {
  }

  /** How the ranking and the resolver read one item. A stray item is ranked as an import by its
      download state although its status does not resolve to one. */
  datatype Reading = Reading(rank: nat, signal: Signal) {
    predicate Stray() {
      rank == 1 && signal in {Waiting, Silent}
    }
  }

  function Read(item: QueueItem): Reading {
    Reading(RankQueueItem(item), SignalOf(item))
  }

  function Readings(items: seq<QueueItem>): seq<Reading> {
    MapSeq(Read, items)
  }

  /** The position of the head after a stable sort by rank. */
  function FirstLowest(readings: seq<Reading>): (first: nat)
    requires readings != []
    ensures first < |readings|
    ensures forall i :: 0 <= i < |readings| ==> readings[first].rank <= readings[i].rank
    ensures forall i :: 0 <= i < first ==> readings[first].rank < readings[i].rank
  {
    if |readings| == 1 then 0
    else
      var rest := FirstLowest(readings[1..]);
      if readings[0].rank <= readings[1..][rest].rank then 0 else rest + 1
  }

  function Selected(items: seq<QueueItem>): QueueItem
    requires items != []
  {
    items[FirstLowest(Readings(items))]
  }

  function SummarizeQueueItems(items: seq<QueueItem>): Columns {
    if items == [] then Columns(None, None, None)
    else
      var item := Selected(items);
      Columns(item.status, item.downloadState, item.errorMessage)
  }

  /** The columns are the status, the state and the message of the first item that ranks lowest. */
  lemma SummaryOfTheFirst(items: seq<QueueItem>)
    requires items != []
    ensures exists k :: 0 <= k < |items| && SummarizeQueueItems(items) == Columns(items[k].status, items[k].downloadState, items[k].errorMessage)
                        && (forall i :: 0 <= i < |items| ==> RankQueueItem(items[k]) <= RankQueueItem(items[i]))
                        && (forall i :: 0 <= i < k ==> RankQueueItem(items[k]) < RankQueueItem(items[i]))
  {
    var readings := Readings(items);
    var k := FirstLowest(readings);
    assert forall i :: 0 <= i < |items| ==> readings[i].rank == RankQueueItem(items[i]);
    assert SummarizeQueueItems(items) == Columns(items[k].status, items[k].downloadState, items[k].errorMessage);
  }

  function SynthesizeQueueItems(movieId: Option<int>, columns: Columns): seq<QueueItem> {
    if movieId.None? || columns.status.None? || columns.status.value == "" then []
    else [QueueItem(movieId.value, columns.status, columns.state, None, columns.errorMessage)]
  }

  /** One item stands for a movie's stored columns, and none where there is no movie or no status. */
  lemma SynthesizedItem(movieId: Option<int>, columns: Columns)
    ensures var items := SynthesizeQueueItems(movieId, columns);
            if movieId.Some? && columns.status.Some? && columns.status.value != "" then
              && |items| == 1 && items[0].movieId == movieId.value
              && items[0].status == columns.status && items[0].downloadState == columns.state
              && items[0].downloadStatus == None && items[0].errorMessage == columns.errorMessage
            else items == []
  {
  }

  function Strength(signal: Signal): nat {
    match signal
    case Failing => 4
    case Importing => 3
    case Fetching => 2
    case Waiting => 1
    case Silent => 0
  }

  predicate Strongest(readings: seq<Reading>, k: nat)
    requires k < |readings|
  {
    forall i :: 0 <= i < |readings| ==> Strength(readings[i].signal) <= Strength(readings[k].signal)
  }

  /** The item the columns are taken from is not a stray one that another item should have outranked. */
  predicate Faithful(readings: seq<Reading>) {
    readings != [] && readings[FirstLowest(readings)].Stray() ==> Strongest(readings, FirstLowest(readings))
  }

  /** A failing item is present, or no item is stronger than any stray one. */
  predicate FaithfulInEveryOrder(readings: seq<Reading>) {
    || (exists i :: 0 <= i < |readings| && readings[i].signal == Failing)
    || (forall i :: 0 <= i < |readings| && readings[i].Stray() ==> Strongest(readings, i))
  }

  /** The ranking and the resolver order items alike, except for stray items. */
  predicate Coherent(readings: seq<Reading>) {
    forall i :: 0 <= i < |readings| ==> readings[i].Stray() || readings[i].rank == 4 - Strength(readings[i].signal)
  }

  lemma ReadingsCoherent(items: seq<QueueItem>)
    ensures Coherent(Readings(items))
  {
    forall i | 0 <= i < |items|
      ensures Read(items[i]).Stray() || Read(items[i]).rank == 4 - Strength(Read(items[i]).signal)
    {
      ReadingCoherent(items[i]);
    }
  }

  lemma ReadingCoherent(item: QueueItem)
    ensures Read(item).Stray() || Read(item).rank == 4 - Strength(Read(item).signal)
  {
  }

  lemma SelectedIsStrongest(readings: seq<Reading>)
    requires readings != [] && Coherent(readings) && Faithful(readings)
    ensures Strongest(readings, FirstLowest(readings))
  {
    var first := FirstLowest(readings);
    if !readings[first].Stray() {
      forall i | 0 <= i < |readings| ensures Strength(readings[i].signal) <= Strength(readings[first].signal) {
        assert readings[first].rank <= readings[i].rank;
      }
    }
  }

  lemma StrongestExists(readings: seq<Reading>) returns (k: nat)
    requires readings != []
    ensures k < |readings| && Strongest(readings, k)
  {
    k := 0;
    for n := 1 to |readings|
      invariant k < |readings|
      invariant forall i :: 0 <= i < n ==> Strength(readings[i].signal) <= Strength(readings[k].signal)
    {
      if Strength(readings[k].signal) < Strength(readings[n].signal) {
        k := n;
      }
    }
  }

  function StateOfSignal(signal: Signal): Option<Lifecycle> {
    match signal
    case Failing => Some(Failed)
    case Importing => Some(ImportPending)
    case Fetching => Some(Downloading)
    case Waiting => Some(Requested)
    case Silent => None
  }

  /** The queue state of a movie's own items is that of the strongest one. */
  lemma StrongestDecides(movieId: int, items: seq<QueueItem>, k: nat)
    requires forall i :: 0 <= i < |items| ==> items[i].movieId == movieId
    requires k < |items| && Strongest(Readings(items), k)
    ensures QueueState(movieId, items) == StateOfSignal(SignalOf(items[k]))
  {
    var readings := Readings(items);
    assert readings[k].signal == SignalOf(items[k]);
    assert Shows(movieId, items, SignalOf(items[k]));
    forall signal | Shows(movieId, items, signal) ensures Strength(signal) <= Strength(SignalOf(items[k])) {
      var i :| 0 <= i < |items| && items[i].movieId == movieId && SignalOf(items[i]) == signal;
      assert readings[i].signal == signal;
    }
  }

  /** What is rebuilt from the columns resolves like the selected item. */
  lemma RebuiltState(movieId: int, items: seq<QueueItem>)
    requires items != []
    ensures QueueState(movieId, SynthesizeQueueItems(Some(movieId), SummarizeQueueItems(items)))
            == StateOfSignal(SignalOf(Selected(items)))
  {
    var item := Selected(items);
    var rebuilt := SynthesizeQueueItems(Some(movieId), SummarizeQueueItems(items));
    if rebuilt != [] {
      ReadingOfColumns(rebuilt[0], item);
      assert Read(rebuilt[0]) == Read(item);
      assert Strongest(Readings(rebuilt), 0);
      StrongestDecides(movieId, rebuilt, 0);
    } else {
      BlankWord();
    }
  }

  lemma ReadingOfColumns(item: QueueItem, other: QueueItem)
    requires item.status == other.status && item.downloadState == other.downloadState
    ensures Read(item) == Read(other)
  {
  }

  lemma BlankWord()
    ensures WordOf("") == OtherStatus
  {
    assert Normalise("") == "";
  }

  /** The full list resolves like a strongest item, the columns like the selected one. */
  lemma TwoStates(movieId: int, items: seq<QueueItem>) returns (k: nat)
    requires items != [] && forall i :: 0 <= i < |items| ==> items[i].movieId == movieId
    ensures var readings := Readings(items);
            && k < |readings| && Strongest(readings, k)
            && QueueState(movieId, items) == StateOfSignal(readings[k].signal)
            && QueueState(movieId, SynthesizeQueueItems(Some(movieId), SummarizeQueueItems(items)))
               == StateOfSignal(readings[FirstLowest(readings)].signal)
  {
    var readings := Readings(items);
    k := StrongestExists(readings);
    StrongestDecides(movieId, items, k);
    RebuiltState(movieId, items);
    assert readings[FirstLowest(readings)] == Read(Selected(items)) && readings[k] == Read(items[k]);
  }

  lemma FaithfulByStrongest(readings: seq<Reading>, k: nat)
    requires Coherent(readings) && k < |readings| && Strongest(readings, k)
    ensures readings[k].signal == readings[FirstLowest(readings)].signal <==> Faithful(readings)
  {
    if Faithful(readings) {
      SelectedIsStrongest(readings);
    }
  }

  /** The columns keep the queue state exactly when no stray item hides a stronger one. */
  lemma ColumnsKeepQueueState(movieId: int, items: seq<QueueItem>)
    requires forall i :: 0 <= i < |items| ==> items[i].movieId == movieId
    ensures QueueState(movieId, items)
            == QueueState(movieId, SynthesizeQueueItems(Some(movieId), SummarizeQueueItems(items)))
            <==> Faithful(Readings(items))
  {
    if items != [] {
      var k := TwoStates(movieId, items);
      ReadingsCoherent(items);
      FaithfulByStrongest(Readings(items), k);
    }
  }

  /** The same for the lifecycle: a scene not in the library gets, with and without a file, the same lifecycle. */
  lemma ColumnsKeepLifecycle(movieId: int, stashId: string, items: seq<QueueItem>, fallback: Option<RequestStatus>)
    requires forall i :: 0 <= i < |items| ==> items[i].movieId == movieId
    ensures var rebuilt := SynthesizeQueueItems(Some(movieId), SummarizeQueueItems(items));
            (forall hasFile ::
               ResolveSceneStatus(Some(Movie(movieId, stashId, hasFile)), items, false, fallback)
               == ResolveSceneStatus(Some(Movie(movieId, stashId, hasFile)), rebuilt, false, fallback))
            <==> Faithful(Readings(items))
  {
    var rebuilt := SynthesizeQueueItems(Some(movieId), SummarizeQueueItems(items));
    ColumnsKeepQueueState(movieId, items);
    var full, short := QueueState(movieId, items), QueueState(movieId, rebuilt);
    if full != short {
      var hasFile := full != Some(ImportPending) && short != Some(ImportPending);
      assert ResolveSceneStatus(Some(Movie(movieId, stashId, hasFile)), items, false, fallback)
          != ResolveSceneStatus(Some(Movie(movieId, stashId, hasFile)), rebuilt, false, fallback);
    }
  }

  lemma SameMembersFaithful(readings: seq<Reading>, order: seq<Reading>)
    requires Coherent(readings) && FaithfulInEveryOrder(readings)
    requires forall r :: r in order <==> r in readings
    ensures Faithful(order)
  {
    if order != [] && order[FirstLowest(order)].Stray() {
      var first := FirstLowest(order);
      forall i | 0 <= i < |readings| ensures readings[i].signal != Failing {
        assert readings[i] in order;
        var k :| 0 <= k < |order| && order[k] == readings[i];
      }
      assert order[first] in readings;
      var a :| 0 <= a < |readings| && readings[a] == order[first];
      assert Strongest(readings, a);
      forall k | 0 <= k < |order| ensures Strength(order[k].signal) <= Strength(order[first].signal) {
        assert order[k] in readings;
      }
    }
  }

  lemma MovedToFrontUnfaithful(readings: seq<Reading>, i: nat, j: nat, order: seq<Reading>)
    requires Coherent(readings) && forall k :: 0 <= k < |readings| ==> readings[k].signal != Failing
    requires i < |readings| && j < |readings| && readings[i].Stray()
    requires Strength(readings[j].signal) > Strength(readings[i].signal)
    requires order == [readings[i]] + readings[..i] + readings[i + 1..]
    ensures !Faithful(order)
  {
    forall k | 0 <= k < |order| ensures order[k].rank >= 1 {
      assert order[k] in readings;
    }
    assert order[0].rank == 1 && FirstLowest(order) == 0;
    var k := if j < i then j + 1 else j;
    assert order[k] == readings[j];
  }

  lemma UnfaithfulOrder(items: seq<QueueItem>) returns (order: seq<QueueItem>)
    requires !FaithfulInEveryOrder(Readings(items))
    ensures multiset(order) == multiset(items) && !Faithful(Readings(order))
  {
    var readings := Readings(items);
    ReadingsCoherent(items);
    var i :| 0 <= i < |readings| && readings[i].Stray() && !Strongest(readings, i);
    var j :| 0 <= j < |readings| && Strength(readings[j].signal) > Strength(readings[i].signal);
    order := [items[i]] + items[..i] + items[i + 1..];
    MapSeqMoved(Read, items, i);
    MovedToFrontUnfaithful(readings, i, j, Readings(order));
  }

  /** No order of the items loses the queue state exactly under that condition. */
  lemma EveryOrderKeepsQueueState(items: seq<QueueItem>)
    ensures (forall order :: multiset(order) == multiset(items) ==> Faithful(Readings(order)))
            <==> FaithfulInEveryOrder(Readings(items))
  {
    var readings := Readings(items);
    if FaithfulInEveryOrder(readings) {
      ReadingsCoherent(items);
      forall order | multiset(order) == multiset(items) ensures Faithful(Readings(order)) {
        MapSeqCovered(Read, items, order);
        MapSeqCovered(Read, order, items);
        SameMembersFaithful(readings, Readings(order));
      }
    } else {
      var order := UnfaithfulOrder(items);
    }
  }

  /** A queued item in an import state is ranked ahead of a downloading one, so the columns show a mere request
      where the full queue shows a download, whatever the scene's file flag. */
  lemma StrayItemLosesQueueState(movieId: int) returns (items: seq<QueueItem>)
    ensures |items| == 2 && items[0].movieId == items[1].movieId == movieId
    ensures Read(items[0]) == Reading(2, Fetching) && Read(items[1]) == Reading(1, Waiting)
    ensures var rebuilt := SynthesizeQueueItems(Some(movieId), SummarizeQueueItems(items));
            forall stashId, hasFile, fallback ::
              var movie := Some(Movie(movieId, stashId, hasFile));
              && ResolveSceneStatus(movie, items, false, fallback) == Downloading
              && ResolveSceneStatus(movie, rebuilt, false, fallback) == Requested
  {
    var downloading := DownloadingItem(movieId);
    var stray := QueuedImportingItem(movieId);
    items := [downloading, stray];
    HiddenItem(movieId, downloading, stray);
  }

  lemma DownloadingItem(movieId: int) returns (item: QueueItem)
    ensures item.movieId == movieId && Read(item) == Reading(2, Fetching)
  {
    var word := DownloadingWord();
    item := QueueItem(movieId, Some(word), None, None, None);
  }

  lemma QueuedImportingItem(movieId: int) returns (item: QueueItem)
    ensures item.movieId == movieId && Read(item) == Reading(1, Waiting)
  {
    var word := QueuedWord();
    var state := ImportingWord();
    item := QueueItem(movieId, Some(word), Some(state), None, None);
  }

  lemma QueuedWord() returns (word: string)
    ensures WordOf(word) == QueuedStatus
  {
    word := "queued";
    LowerCaseWord(word);
  }

  lemma DownloadingWord() returns (word: string)
    ensures WordOf(word) == DownloadingStatus
  {
    word := "downloading";
    LowerCaseStatus(word);
  }

  lemma LowerCaseStatus(word: string)
    requires word == "downloading"
    ensures WordOf(word) == DownloadingStatus
  {
    LowerCaseWord(word);
  }

  lemma ImportingWord() returns (word: string)
    ensures IsImportState(word)
  {
    word := "importing";
    LowerCaseWord(word);
  }

  lemma HiddenItem(movieId: int, downloading: QueueItem, stray: QueueItem)
    requires Read(downloading) == Reading(2, Fetching) && Read(stray) == Reading(1, Waiting)
    requires downloading.movieId == stray.movieId == movieId
    ensures QueueState(movieId, [downloading, stray]) == Some(Downloading)
    ensures QueueState(movieId, SynthesizeQueueItems(Some(movieId), SummarizeQueueItems([downloading, stray]))) == Some(Requested)
  {
    var items := [downloading, stray];
    var readings := Readings(items);
    assert readings[0] == Reading(2, Fetching) && readings[1] == Reading(1, Waiting);
    assert FirstLowest(readings) == 1;
    StrongestDecides(movieId, items, 0);
    RebuiltState(movieId, items);
  }

  /** The selected item says nothing, and what the strongest one says is what a movie without queue items shows. */
  predicate SameWithoutQueue(readings: seq<Reading>, hasFile: bool) {
    && readings != [] && readings[FirstLowest(readings)].signal == Silent
    && exists k :: 0 <= k < |readings| && Strongest(readings, k) && readings[k].signal == (if hasFile then Importing else Waiting)
  }

  /** For one scene with a given file flag the columns keep the lifecycle exactly when they keep the queue state or
      the movie alone shows the same. */
  lemma ColumnsKeepSceneLifecycle(movie: Movie, items: seq<QueueItem>, fallback: Option<RequestStatus>)
    requires forall i :: 0 <= i < |items| ==> items[i].movieId == movie.movieId
    ensures var rebuilt := SynthesizeQueueItems(Some(movie.movieId), SummarizeQueueItems(items));
            ResolveSceneStatus(Some(movie), items, false, fallback) == ResolveSceneStatus(Some(movie), rebuilt, false, fallback)
            <==> Faithful(Readings(items)) || SameWithoutQueue(Readings(items), movie.hasFile)
  {
    if items != [] {
      var k := TwoStates(movie.movieId, items);
      ReadingsCoherent(items);
      FaithfulByStrongest(Readings(items), k);
      SameByStrongest(Readings(items), k, movie.hasFile);
    }
  }

  lemma SameByStrongest(readings: seq<Reading>, k: nat, hasFile: bool)
    requires k < |readings| && Strongest(readings, k)
    ensures SameWithoutQueue(readings, hasFile)
            <==> readings[FirstLowest(readings)].signal == Silent && readings[k].signal == (if hasFile then Importing else Waiting)
  {
  }
}
