/** The metadata backfill's wrapping cursor (indexing.service.ts). */
module Backfill {
  import opened Basics
  import opened SceneIndex

  const METADATA_BATCH_SIZE := 24
  const METADATA_REFRESH_MAX_AGE_MS := 7 * 24 * 60 * 60_000

  /** The rows a backfill looks for. */
  predicate Wanted(columns: Columns, forceBootstrapPass: bool, now: int) {
    if forceBootstrapPass then columns.hydration.Pending? || columns.hydration.FailedRetryable?
    else
      match columns.hydration
      case Pending => true
      case FailedRetryable => columns.metadataRetryAfterAt.None? || columns.metadataRetryAfterAt.value <= now
      case Hydrated =>
        columns.metadataLastSyncedAt.Some? && columns.metadataLastSyncedAt.value <= now - METADATA_REFRESH_MAX_AGE_MS
  }

  function Eligible(rows: Table, forceBootstrapPass: bool, now: int): set<string> {
    set id | id in rows && Wanted(rows[id].columns, forceBootstrapPass, now)
  }

  /** A row is eligible while its metadata is pending, once its retry is due, and a week after it was last synced; a
      bootstrap pass takes every row that is pending or failed and no other. */
  lemma EligibleInWords(rows: Table, forceBootstrapPass: bool, now: int, id: string)
    ensures id in Eligible(rows, forceBootstrapPass, now)
            <==> id in rows
                 && var columns := rows[id].columns;
                    || columns.hydration == Pending
                    || (columns.hydration == FailedRetryable
                        && (forceBootstrapPass || columns.metadataRetryAfterAt == None || columns.metadataRetryAfterAt.value <= now))
                    || (columns.hydration == Hydrated && !forceBootstrapPass
                        && columns.metadataLastSyncedAt.Some? && columns.metadataLastSyncedAt.value + 604_800_000 <= now)
  {
  }

  /** An empty cursor counts as none. */
  function Start(cursor: Option<string>): Option<string> {
    if cursor == Some("") then None else cursor
  }

  ghost function Beyond(before: (string, string) -> bool, eligible: set<string>, start: Option<string>): set<string> {
    set id | id in eligible && (start.None? || before(start.value, id))
  }

  /** An ordered query with a limit: the first rows of those matched. */
  ghost predicate FirstOf(before: (string, string) -> bool, matched: set<string>, page: seq<string>) {
    && NoDuplicates(page)
    && (forall i, j :: 0 <= i < j < |page| ==> before(page[i], page[j]))
    && (forall id :: id in page ==> id in matched)
    && |page| <= METADATA_BATCH_SIZE
    && (forall id :: id in matched && id !in page ==> |page| == METADATA_BATCH_SIZE && forall t :: t in page ==> before(t, id))
  }

  /** What getMetadataBackfillTargets returns: the rows after the cursor or, when there are none, the first rows. */
  ghost predicate Targets(before: (string, string) -> bool, eligible: set<string>, cursor: Option<string>, targets: seq<string>) {
    var direct := Beyond(before, eligible, Start(cursor));
    if direct != {} || Start(cursor).None? then FirstOf(before, direct, targets) else FirstOf(before, eligible, targets)
  }

  /** An empty cursor starts over like none, and any other one goes on strictly after itself. */
  lemma CursorInWords(before: (string, string) -> bool, eligible: set<string>, cursor: Option<string>)
    ensures Beyond(before, eligible, Start(cursor))
            == if cursor == None || cursor == Some("") then eligible else set id | id in eligible && before(cursor.value, id)
  {
  }

  /** One backfill: the table it reads, its targets and whether it completed. */
  datatype Attempt = Attempt(rows: Table, force: bool, now: int, targets: seq<string>, ok: bool) {
    function Wants(): set<string> {
      Eligible(rows, force, now)
    }

    /** Only a completed run stores its cursor. */
    function CursorAfter(cursor: Option<string>): Option<string> {
      if !ok then cursor
      else if targets == [] then None
      else Some(targets[|targets| - 1])
    }
  }

  /** Backfills in turn from a cursor, no row becoming eligible on the way. */
  ghost predicate Backfills(before: (string, string) -> bool, cursor: Option<string>, attempts: seq<Attempt>)
    decreases |attempts|
  {
    attempts != [] ==>
      && Targets(before, attempts[0].Wants(), cursor, attempts[0].targets)
      && (|attempts| > 1 ==> attempts[1].Wants() <= attempts[0].Wants())
      && Backfills(before, attempts[0].CursorAfter(cursor), attempts[1..])
  }

  function CeilDiv(n: nat): nat {
    (n + METADATA_BATCH_SIZE - 1) / METADATA_BATCH_SIZE
  }

  /** The rows to pass before reaching `x` going up from `start`. */
  ghost function Ahead(before: (string, string) -> bool, eligible: set<string>, start: Option<string>, x: string): set<string> {
    set id | id in Beyond(before, eligible, start) && before(id, x)
  }

  /** How many completed runs it takes at most until `x` is a target. */
  ghost function RunsTo(before: (string, string) -> bool, eligible: set<string>, cursor: Option<string>, x: string): nat {
    var start := Start(cursor);
    if start.None? || before(start.value, x) then |Ahead(before, eligible, start, x)| / METADATA_BATCH_SIZE + 1
    else CeilDiv(|Beyond(before, eligible, start)|) + |Ahead(before, eligible, None, x)| / METADATA_BATCH_SIZE + 1
  }

  function Completed(attempts: seq<Attempt>): nat {
    if attempts == [] then 0 else (if attempts[0].ok then 1 else 0) + Completed(attempts[1..])
  }

  /** A full page of a set leaves that much less. */
  lemma PageTaken(page: seq<string>, all: set<string>, rest: set<string>)
    requires NoDuplicates(page) && rest <= all && forall id :: id in page ==> id in all && id !in rest
    ensures |rest| + |page| <= |all|
  {
    var taken := set id | id in page;
    ListedSize(page, taken);
    assert |rest + taken| == |rest| + |taken|;
    SmallerSubset(rest + taken, all);
  }

  lemma DivDown(k: nat, l: nat)
    requires l + METADATA_BATCH_SIZE <= k
    ensures l / METADATA_BATCH_SIZE + 1 <= k / METADATA_BATCH_SIZE && CeilDiv(l) + 1 <= CeilDiv(k)
  {
  }

  lemma DivMonotone(l: nat, k: nat)
    requires l <= k
    ensures l / METADATA_BATCH_SIZE <= k / METADATA_BATCH_SIZE && CeilDiv(l) <= CeilDiv(k)
  {
  }

  /** Rows leaving brings `x` no further away. */
  lemma FewerRowsFewerRuns(
    before: (string, string) -> bool, less: set<string>, more: set<string>, cursor: Option<string>, x: string)
    requires less <= more
    ensures RunsTo(before, less, cursor, x) <= RunsTo(before, more, cursor, x)
  {
    var start := Start(cursor);
    SmallerSubset(Ahead(before, less, start, x), Ahead(before, more, start, x));
    SmallerSubset(Ahead(before, less, None, x), Ahead(before, more, None, x));
    SmallerSubset(Beyond(before, less, start), Beyond(before, more, start));
    DivMonotone(|Ahead(before, less, start, x)|, |Ahead(before, more, start, x)|);
    DivMonotone(|Ahead(before, less, None, x)|, |Ahead(before, more, None, x)|);
    DivMonotone(|Beyond(before, less, start)|, |Beyond(before, more, start)|);
  }

  /** A page from below that stops short of `x` is full, ends below `x` and uses up a page of the rows ahead. */
  lemma PageBelow(
    before: (string, string) -> bool, eligible: set<string>, start: Option<string>, page: seq<string>, x: string)
    requires StrictTotalOrder(before) && x in eligible && x !in page
    requires start.None? || before(start.value, x)
    requires FirstOf(before, Beyond(before, eligible, start), page)
    ensures page != [] && before(page[|page| - 1], x)
    ensures |Ahead(before, eligible, Some(page[|page| - 1]), x)| + METADATA_BATCH_SIZE <= |Ahead(before, eligible, start, x)|
  {
    assert x in Beyond(before, eligible, start);
    var last := page[|page| - 1];
    assert last in page;
    forall id | id in page ensures id in Ahead(before, eligible, start, x) && id !in Ahead(before, eligible, Some(last), x) {
      var i :| 0 <= i < |page| && page[i] == id;
      assert i == |page| - 1 || before(id, last);
    }
    PageTaken(page, Ahead(before, eligible, start, x), Ahead(before, eligible, Some(last), x));
  }

  /** A page above `x` uses up that much of the rows above. */
  lemma PageAbove(before: (string, string) -> bool, eligible: set<string>, start: string, page: seq<string>)
    requires StrictTotalOrder(before)
    requires Beyond(before, eligible, Some(start)) != {} && FirstOf(before, Beyond(before, eligible, Some(start)), page)
    ensures page != [] && before(start, page[|page| - 1])
    ensures CeilDiv(|Beyond(before, eligible, Some(page[|page| - 1]))|) + 1 <= CeilDiv(|Beyond(before, eligible, Some(start))|)
  {
    var all := Beyond(before, eligible, Some(start));
    assert page != [] by {
      var id :| id in all;
      assert id !in page ==> |page| == METADATA_BATCH_SIZE;
    }
    var last := page[|page| - 1];
    assert last in page;
    var rest := Beyond(before, eligible, Some(last));
    forall id | id in page ensures id !in rest {
      var i :| 0 <= i < |page| && page[i] == id;
      assert i == |page| - 1 || before(id, last);
    }
    PageTaken(page, all, rest);
    if rest == {} {
      assert |all| >= 1;
    } else {
      var id :| id in rest;
      assert id in all && id !in page;
      DivDown(|all|, |rest|);
    }
  }

  /** A completed run that does not target `x` brings it one run closer. */
  lemma RunCloser(
    before: (string, string) -> bool, eligible: set<string>, cursor: Option<string>, targets: seq<string>, x: string)
    requires StrictTotalOrder(before) && x in eligible && x !in targets && x != ""
    requires forall id :: id in eligible ==> id != ""
    requires Targets(before, eligible, cursor, targets)
    ensures targets != []
    ensures RunsTo(before, eligible, Some(targets[|targets| - 1]), x) < RunsTo(before, eligible, cursor, x)
  {
    var start := Start(cursor);
    if start.None? || before(start.value, x) {
      assert x in Beyond(before, eligible, start);
      PageBelow(before, eligible, start, targets, x);
      DivDown(|Ahead(before, eligible, start, x)|, |Ahead(before, eligible, Some(targets[|targets| - 1]), x)|);
      assert targets[|targets| - 1] in targets;
    } else if Beyond(before, eligible, start) == {} {
      assert Beyond(before, eligible, None) == eligible;
      PageBelow(before, eligible, None, targets, x);
      DivDown(|Ahead(before, eligible, None, x)|, |Ahead(before, eligible, Some(targets[|targets| - 1]), x)|);
      assert targets[|targets| - 1] in targets;
    } else {
      PageAbove(before, eligible, start.value, targets);
      assert targets[|targets| - 1] in targets;
      assert !before(targets[|targets| - 1], x);
    }
  }

  lemma {:induction false} TargetedWithin(before: (string, string) -> bool, cursor: Option<string>, attempts: seq<Attempt>, x: string)
    requires StrictTotalOrder(before) && Backfills(before, cursor, attempts) && attempts != []
    requires forall i :: 0 <= i < |attempts| ==> CleanKeys(attempts[i].rows) && x in attempts[i].Wants()
    requires Completed(attempts) >= RunsTo(before, attempts[0].Wants(), cursor, x)
    ensures exists i :: 0 <= i < |attempts| && attempts[i].ok && x in attempts[i].targets
    decreases |attempts|
  {
    var first, rest := attempts[0], attempts[1..];
    if first.ok && x in first.targets {
      return;
    }
    if first.ok {
      RunCloser(before, first.Wants(), cursor, first.targets, x);
    }
    var next := first.CursorAfter(cursor);
    assert Completed(rest) >= RunsTo(before, first.Wants(), next, x);
    assert rest != [] && rest[0] == attempts[1];
    FewerRowsFewerRuns(before, rest[0].Wants(), first.Wants(), next, x);
    assert forall i :: 0 <= i < |rest| ==> rest[i] == attempts[i + 1];
    TargetedWithin(before, next, rest, x);
    var i :| 0 <= i < |rest| && rest[i].ok && x in rest[i].targets;
    assert attempts[i + 1] == rest[i];
  }

  lemma TwoPartsOneWhole(above: nat, below: nat, n: nat)
    requires above + below + 1 <= n
    ensures CeilDiv(above) + below / METADATA_BATCH_SIZE + 1 <= CeilDiv(n) + 1
  {
  }

  /** From any cursor the bound is a page count of the eligible rows and one more. */
  lemma RunsBounded(before: (string, string) -> bool, eligible: set<string>, cursor: Option<string>, x: string)
    requires StrictTotalOrder(before) && x in eligible
    ensures RunsTo(before, eligible, cursor, x) <= CeilDiv(|eligible|) + 1
  {
    var start := Start(cursor);
    var below := Ahead(before, eligible, start, x);
    if start.None? || before(start.value, x) {
      SmallerSubset(below + {x}, eligible);
      TwoPartsOneWhole(0, |below|, |eligible|);
    } else {
      var above, under := Beyond(before, eligible, start), Ahead(before, eligible, None, x);
      assert above * under == {} && x !in above && x !in under;
      assert |above + under + {x}| == |above| + |under| + 1;
      SmallerSubset(above + under + {x}, eligible);
      TwoPartsOneWhole(|above|, |under|, |eligible|);
    }
  }

  /** The cursor is fair: a row that stays eligible is targeted within that many completed runs, however many
      others fail in between. */
  lemma EveryRowIsTargeted(before: (string, string) -> bool, cursor: Option<string>, attempts: seq<Attempt>, x: string)
    requires StrictTotalOrder(before) && Backfills(before, cursor, attempts) && attempts != []
    requires forall i :: 0 <= i < |attempts| ==> CleanKeys(attempts[i].rows) && x in attempts[i].Wants()
    requires Completed(attempts) >= CeilDiv(|attempts[0].Wants()|) + 1
    ensures exists i :: 0 <= i < |attempts| && attempts[i].ok && x in attempts[i].targets
  {
    RunsBounded(before, attempts[0].Wants(), cursor, x);
    TargetedWithin(before, cursor, attempts, x);
  }
}
