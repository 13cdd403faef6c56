/** The reference meaning of a scene's lifecycle (scene-status.resolver.ts). */
module SceneStatusResolver {
  import opened Basics
  import opened Text

  datatype RequestStatus = REQUESTED | PROCESSING | AVAILABLE | FAILED

  datatype Lifecycle = NotRequested | Requested | Downloading | ImportPending | Available | Failed

  datatype Movie = Movie(movieId: int, stashId: string, hasFile: bool)

  datatype QueueItem = QueueItem(
    movieId: int,
    status: Option<string>,
    downloadState: Option<string>,
    downloadStatus: Option<string>,
    errorMessage: Option<string>)

  /** What one queue item says about its movie. */
  datatype Signal = Failing | Importing | Fetching | Waiting | Silent

  /** The queue statuses the service knows. */
  datatype StatusWord = FailedStatus | CompletedStatus | QueuedStatus | DownloadingStatus | OtherStatus

  function WordOf(status: string): StatusWord {
    var word := Normalise(status);
    if word == "failed" || word == "warning" || word == "paused" then FailedStatus
    else if word == "completed" then CompletedStatus
    else if word == "queued" then QueuedStatus
    else if word == "downloading" then DownloadingStatus
    else OtherStatus
  }

  predicate IsImportState(state: string) {
    var word := Normalise(state);
    word == "importpending" || word == "importing"
  }

  predicate InImportState(item: QueueItem) {
    item.downloadState.Some? && IsImportState(item.downloadState.value)
  }

  function SignalOf(item: QueueItem): Signal {
    if item.status.None? then Silent
    else
      match WordOf(item.status.value)
      case FailedStatus => Failing
      case CompletedStatus => Importing
      case QueuedStatus => Waiting
      case OtherStatus => Silent
      case DownloadingStatus => if InImportState(item) then Importing else Fetching
  }

  /** Some item of the movie carries the signal. */
  predicate Shows(movieId: int, items: seq<QueueItem>, signal: Signal) {
    exists i :: 0 <= i < |items| && items[i].movieId == movieId && SignalOf(items[i]) == signal
  }

  /** The strongest signal of the movie's items decides. */
  function QueueState(movieId: int, items: seq<QueueItem>): Option<Lifecycle> {
    if Shows(movieId, items, Failing) then Some(Failed)
    else if Shows(movieId, items, Importing) then Some(ImportPending)
    else if Shows(movieId, items, Fetching) then Some(Downloading)
    else if Shows(movieId, items, Waiting) then Some(Requested)
    else None
  }

  /** The text is the word, but for white space around it and capitals. */
  predicate Reads(text: Option<string>, word: string) {
    text.Some? && Lower(Trim(text.value)) == word
  }

  predicate SaysFailed(item: QueueItem) {
    Reads(item.status, "failed") || Reads(item.status, "warning") || Reads(item.status, "paused")
  }

  predicate SaysDownloading(item: QueueItem) {
    Reads(item.status, "downloading")
  }

  predicate SaysQueued(item: QueueItem) {
    Reads(item.status, "queued")
  }

  predicate SaysImporting(item: QueueItem) {
    || Reads(item.status, "completed")
    || (SaysDownloading(item)
        && (Reads(item.downloadState, "importpending") || Reads(item.downloadState, "importing")))
  }

  ghost predicate SomeItem(movieId: int, items: seq<QueueItem>, says: QueueItem -> bool) {
    exists i :: 0 <= i < |items| && items[i].movieId == movieId && says(items[i])
  }

  /** What the words of a movie's items make of its state. */
  ghost predicate StateInWords(movieId: int, items: seq<QueueItem>, state: Option<Lifecycle>) {
    if SomeItem(movieId, items, SaysFailed) then state == Some(Failed)
    else if SomeItem(movieId, items, SaysImporting) then state == Some(ImportPending)
    else if SomeItem(movieId, items, SaysDownloading) then state == Some(Downloading)
    else if SomeItem(movieId, items, SaysQueued) then state == Some(Requested)
    else state == None
  }

  /** Each signal in the words that give it. */
  lemma SignalInWords(item: QueueItem)
    ensures SignalOf(item) == Failing <==> SaysFailed(item)
    ensures SignalOf(item) == Importing <==> SaysImporting(item)
    ensures SignalOf(item) == Fetching <==> SaysDownloading(item) && !SaysImporting(item)
    ensures SignalOf(item) == Waiting <==> SaysQueued(item)
  {
  }

  lemma ShowsInWords(movieId: int, items: seq<QueueItem>, signal: Signal, says: QueueItem -> bool)
    requires forall item :: says(item) <==> SignalOf(item) == signal
    ensures Shows(movieId, items, signal) <==> SomeItem(movieId, items, says)
  {
  }

  /** The state is Failed exactly when some item of the movie is failed, warned or paused; otherwise ImportPending
      exactly when one is completed, or downloading in an import state; otherwise Downloading exactly when one is
      downloading, Requested exactly when one is queued, and nothing exactly when none is. */
  lemma QueueStateInWords(movieId: int, items: seq<QueueItem>)
    ensures StateInWords(movieId, items, QueueState(movieId, items))
  {
    forall item ensures SignalOf(item) == Failing <==> SaysFailed(item)
                ensures SignalOf(item) == Importing <==> SaysImporting(item)
                ensures SignalOf(item) == Fetching <==> SaysDownloading(item) && !SaysImporting(item)
                ensures SignalOf(item) == Waiting <==> SaysQueued(item)
    {
      SignalInWords(item);
    }
    ShowsInWords(movieId, items, Failing, SaysFailed);
    ShowsInWords(movieId, items, Importing, SaysImporting);
    ShowsInWords(movieId, items, Waiting, SaysQueued);
    if !SomeItem(movieId, items, SaysImporting) {
      DownloadsShow(movieId, items);
    }
  }

  lemma DownloadsShow(movieId: int, items: seq<QueueItem>)
    requires !SomeItem(movieId, items, SaysImporting)
    ensures Shows(movieId, items, Fetching) <==> SomeItem(movieId, items, SaysDownloading)
  {
    if Shows(movieId, items, Fetching) {
      var i :| 0 <= i < |items| && items[i].movieId == movieId && SignalOf(items[i]) == Fetching;
      SignalInWords(items[i]);
      assert SaysDownloading(items[i]);
    }
    if SomeItem(movieId, items, SaysDownloading) {
      var i :| 0 <= i < |items| && items[i].movieId == movieId && SaysDownloading(items[i]);
      assert !SaysImporting(items[i]);
      SignalInWords(items[i]);
    }
  }

  /** Capitals and surrounding white space do not matter: "importPending" reads as "importpending". */
  lemma CapitalsRead(before: string, written: string, after: string, word: string)
    requires |written| == |word| > 0 && forall k :: 0 <= k < |word| ==> 'a' <= word[k] <= 'z'
    requires forall k :: 0 <= k < |word| ==> written[k] == word[k] || written[k] == word[k] - 'a' + 'A'
    requires forall k :: 0 <= k < |before| ==> IsSpace(before[k])
    requires forall k :: 0 <= k < |after| ==> IsSpace(after[k])
    ensures Reads(Some(before + written + after), word)
  {
    TrimOf(before, written, after);
    LowersTo(written, word);
  }

  lemma LowersTo(written: string, word: string)
    requires |written| == |word| > 0 && forall k :: 0 <= k < |word| ==> 'a' <= word[k] <= 'z'
    requires forall k :: 0 <= k < |word| ==> written[k] == word[k] || written[k] == word[k] - 'a' + 'A'
    ensures Lower(written) == word
  {
    LowerAt(written, 0);
    forall k | 0 <= k < |word| ensures Lower(written)[k] == word[k] {
      LowerAt(written, k);
    }
  }

  method ResolveQueueLifecycleState(movieId: int, items: seq<QueueItem>) returns (state: Option<Lifecycle>)
    ensures state == QueueState(movieId, items)
    ensures StateInWords(movieId, items, state)
  {
    QueueStateInWords(movieId, items);
    var hasRequested, hasDownloading, hasImportPending := false, false, false;
    for n := 0 to |items|
      invariant !Shows(movieId, items[..n], Failing)
      invariant hasImportPending <==> Shows(movieId, items[..n], Importing)
      invariant hasDownloading <==> Shows(movieId, items[..n], Fetching)
      invariant hasRequested <==> Shows(movieId, items[..n], Waiting)
    {
      var item := items[n];
      ShowsSnoc(movieId, items, n);
      if item.movieId != movieId || item.status.None? {
        continue;
      }
      var status := WordOf(item.status.value);
      if status == FailedStatus {
        assert items[n].movieId == movieId && SignalOf(items[n]) == Failing;
        return Some(Failed);
      }
      if status == CompletedStatus {
        hasImportPending := true;
        continue;
      }
      if status == QueuedStatus {
        hasRequested := true;
        continue;
      }
      if status != DownloadingStatus {
        continue;
      }
      if InImportState(item) {
        hasImportPending := true;
        continue;
      }
      hasDownloading := true;
    }
    assert items[..|items|] == items;
    if hasImportPending {
      return Some(ImportPending);
    }
    if hasDownloading {
      return Some(Downloading);
    }
    if hasRequested {
      return Some(Requested);
    }
    return None;
  }

  lemma ShowsSnoc(movieId: int, items: seq<QueueItem>, n: nat)
    requires n < |items|
    ensures forall signal ::
              Shows(movieId, items[..n + 1], signal) <==>
              Shows(movieId, items[..n], signal) || (items[n].movieId == movieId && SignalOf(items[n]) == signal)
  {
    forall signal
      ensures Shows(movieId, items[..n + 1], signal) <==>
              Shows(movieId, items[..n], signal) || (items[n].movieId == movieId && SignalOf(items[n]) == signal)
    {
      var shorter, longer := items[..n], items[..n + 1];
      assert forall i :: 0 <= i < n ==> longer[i] == shorter[i];
      assert longer[n] == items[n];
      if Shows(movieId, shorter, signal) {
        var i :| 0 <= i < |shorter| && shorter[i].movieId == movieId && SignalOf(shorter[i]) == signal;
        assert longer[i] == shorter[i];
      }
    }
  }

  function ResolveSceneStatus(
    movie: Option<Movie>, items: seq<QueueItem>, stashAvailable: bool, fallback: Option<RequestStatus>): Lifecycle
  {
    if stashAvailable then Available
    else if movie.Some? then
      var queueState := QueueState(movie.value.movieId, items);
      if queueState.Some? then queueState.value
      else if movie.value.hasFile then ImportPending
      else Requested
    else if fallback == Some(RequestStatus.FAILED) then Failed
    else if fallback.Some? then Requested
    else NotRequested
  }

  /** Each lifecycle, by what the library, the movie's items, its file and the request say. */
  lemma LifecycleExactly(
    movie: Option<Movie>, items: seq<QueueItem>, stashAvailable: bool, fallback: Option<RequestStatus>)
    ensures var lifecycle := ResolveSceneStatus(movie, items, stashAvailable, fallback);
            && (lifecycle == Available <==> stashAvailable)
            && (!stashAvailable && movie.None? ==>
                  && (lifecycle == Failed <==> fallback == Some(RequestStatus.FAILED))
                  && (lifecycle == Requested <==> fallback.Some? && fallback != Some(RequestStatus.FAILED))
                  && (lifecycle == NotRequested <==> fallback.None?))
            && (!stashAvailable && movie.Some? ==>
                  var m := movie.value.movieId;
                  var failed, importing := SomeItem(m, items, SaysFailed), SomeItem(m, items, SaysImporting);
                  var downloading, queued := SomeItem(m, items, SaysDownloading), SomeItem(m, items, SaysQueued);
                  && (lifecycle == Failed <==> failed)
                  && (lifecycle == ImportPending <==>
                        !failed && (importing || (!downloading && !queued && movie.value.hasFile)))
                  && (lifecycle == Downloading <==> !failed && !importing && downloading)
                  && (lifecycle == Requested <==> !failed && !importing && !downloading && (queued || !movie.value.hasFile)))
  {
    if movie.Some? {
      QueueStateInWords(movie.value.movieId, items);
    }
  }

  /** Items of other movies, and the order and number of equal items, do not matter. */
  lemma QueueStateIgnoresTheRest(movieId: int, items: seq<QueueItem>, others: seq<QueueItem>)
    requires forall item: QueueItem :: item.movieId == movieId ==> (item in items <==> item in others)
    ensures QueueState(movieId, items) == QueueState(movieId, others)
  {
    forall signal ensures Shows(movieId, items, signal) <==> Shows(movieId, others, signal) {
      ShowsMember(movieId, items, others, signal);
      ShowsMember(movieId, others, items, signal);
    }
  }

  lemma ShowsMember(movieId: int, items: seq<QueueItem>, others: seq<QueueItem>, signal: Signal)
    requires forall item: QueueItem :: item.movieId == movieId && item in items ==> item in others
    ensures Shows(movieId, items, signal) ==> Shows(movieId, others, signal)
  {
    if Shows(movieId, items, signal) {
      var i :| 0 <= i < |items| && items[i].movieId == movieId && SignalOf(items[i]) == signal;
      assert items[i] in others;
      var j :| 0 <= j < |others| && others[j] == items[i];
    }
  }
}
