/** Windowing of the hybrid scene feed (hybrid-scenes.service.ts). */
module HybridFeed {
  import opened Basics

  const OVERSCAN_FACTOR := 5
  const PAGE_SIZE_MAX := 50

  datatype Feed = Feed(scenes: seq<string>, hasMore: bool)

  function AtLeastOne(n: int): nat {
    if n < 1 then 1 else n
  }

  function Min(a: nat, b: nat): nat {
    if a < b then a else b
  }

  function StartIndex(page: nat, perPage: nat): nat
    requires page >= 1
  {
    (page - 1) * perPage
  }

  function MaxInspected(end: nat): nat {
    (end + 1) * OVERSCAN_FACTOR
  }

  function PageSize(perPage: nat): nat {
    Min(perPage * 2, PAGE_SIZE_MAX)
  }

  /** A page that ends at `end` may inspect five candidates for each scene up to it and five more, in pages of twice its
      size and at most fifty. */
  lemma BudgetInWords(end: nat, perPage: nat)
    ensures MaxInspected(end) == 5 * end + 5
    ensures PageSize(perPage) == if perPage <= 25 then perPage + perPage else 50
  {
  }

  /** The scenes that pass the filter, in order. */
  function Matches(scenes: seq<string>, wanted: string -> bool): seq<string> {
    Filter(wanted, scenes)
  }

  /** What `slice(start, end)` keeps. */
  function Window(s: seq<string>, start: nat, end: nat): seq<string>
    requires start <= end
  {
    s[Min(start, |s|)..Min(end, |s|)]
  }

  /** The candidates at `offset`, as far as the page reaches. */
  function CandidatePage(candidates: seq<string>, offset: nat, pageSize: nat): seq<string> {
    Window(candidates, offset, offset + pageSize)
  }

  /** The inspection budget ends strictly inside the last candidate page and that page is short. */
  predicate CutsLastPage(total: nat, budget: nat, pageSize: nat)
    requires pageSize > 0
  {
    budget < total && budget % pageSize != 0 && budget / pageSize == total / pageSize
  }

  predicate HasMore(total: nat, found: nat, page: nat, perPage: nat)
    requires page >= 1 && perPage >= 1
  {
    var start := StartIndex(page, perPage);
    var budget := MaxInspected(start + perPage);
    || found > start + perPage
    || (budget < total && found > start && !CutsLastPage(total, budget, PageSize(perPage)))
  }

  lemma MatchesInTwo(s: seq<string>, t: seq<string>, wanted: string -> bool)
    ensures Matches(s + t, wanted) == Matches(s, wanted) + Matches(t, wanted)
  {
    if t == [] {
      assert s + t == s;
    } else {
      assert (s + t)[..|s + t| - 1] == s + t[..|t| - 1];
      MatchesInTwo(s, t[..|t| - 1], wanted);
    }
  }

  /** A longer prefix only adds matches at the end. */
  lemma MatchesOfPrefix(s: seq<string>, k: nat, wanted: string -> bool)
    requires k <= |s|
    ensures Matches(s[..k], wanted) <= Matches(s, wanted)
  {
    MatchesInTwo(s[..k], s[k..], wanted);
    assert s == s[..k] + s[k..];
  }

  lemma Quotient(x: nat, k: nat, d: nat)
    requires d > 0 && k * d <= x < k * d + d
    ensures x / d == k && x % d == x - k * d
  {
    var q := x / d;
    assert x == q * d + x % d;
    ScaledOrder(q + 1, k, d);
    ScaledOrder(k + 1, q, d);
  }

  lemma ScaledOrder(a: nat, b: nat, d: nat)
    ensures a <= b ==> a * d <= b * d
  {
  }

  /** A short page that starts inside the budget and holds its end is the last one, cut. */
  lemma ShortPageCut(total: nat, budget: nat, k: nat, pageSize: nat)
    requires pageSize > 0 && k * pageSize < budget < total < k * pageSize + pageSize
    ensures CutsLastPage(total, budget, pageSize)
  {
    Quotient(budget, k, pageSize);
    Quotient(total, k, pageSize);
  }

  /** Full pages up to or past the budget's end leave nothing cut. */
  lemma FullPagesUncut(total: nat, budget: nat, k: nat, pageSize: nat)
    requires pageSize > 0 && budget <= k * pageSize <= total
    ensures !CutsLastPage(total, budget, pageSize)
  {
    var j, i := budget / pageSize, total / pageSize;
    assert budget == j * pageSize + budget % pageSize && total == i * pageSize + total % pageSize;
    ScaledOrder(k, j, pageSize);
    ScaledOrder(j + 1, k, pageSize);
  }

  function Wanted(inLibrary: string -> Answer<bool>, desired: bool): string -> bool {
    (scene: string) => inLibrary(scene) == Answered(desired)
  }

  /** The lookups of one page, as the worker pool gathers them: in input order, or a throw. */
  method LookUpPage(scenes: seq<string>, inLibrary: string -> Answer<bool>) returns (found: Answer<seq<bool>>)
    ensures found.Threw? ==> exists i :: 0 <= i < |scenes| && inLibrary(scenes[i]).Threw?
    ensures found.Answered? ==>
              |found.value| == |scenes| && forall i :: 0 <= i < |scenes| ==> inLibrary(scenes[i]) == Answered(found.value[i])
  {
    var answers: seq<bool> := [];
    for n := 0 to |scenes|
      invariant |answers| == n && forall i :: 0 <= i < n ==> inLibrary(scenes[i]) == Answered(answers[i])
    {
      var answer := inLibrary(scenes[n]);
      if answer.Threw? {
        return Threw;
      }
      answers := answers + [answer.value];
    }
    return Answered(answers);
  }

  /** Adds the page's matches until the target is reached. */
  method AddMatches(matched: seq<string>, scenes: seq<string>, found: seq<bool>, desired: bool, target: nat, ghost wanted: string -> bool)
    returns (all: seq<string>)
    requires |matched| < target && |found| == |scenes|
    requires forall i :: 0 <= i < |scenes| ==> (found[i] == desired <==> wanted(scenes[i]))
    ensures all == Window(matched + Matches(scenes, wanted), 0, target)
  {
    all := matched;
    for n := 0 to |scenes|
      invariant |all| < target
      invariant all == matched + Matches(scenes[..n], wanted)
    {
      assert scenes[..n + 1] == scenes[..n] + [scenes[n]] && scenes[..n + 1][..n] == scenes[..n];
      if found[n] == desired {
        all := all + [scenes[n]];
        if |all| >= target {
          MatchesOfPrefix(scenes, n + 1, wanted);
          assert all == matched + Matches(scenes[..n + 1], wanted);
          return;
        }
      }
    }
    assert scenes[..|scenes|] == scenes;
  }

  lemma OnePageMore(candidates: seq<string>, inspected: nat, scenes: seq<string>, wanted: string -> bool, target: nat)
    requires inspected + |scenes| <= |candidates| && scenes == candidates[inspected..inspected + |scenes|]
    ensures var before := Matches(candidates[..inspected], wanted);
            |before| < target ==>
              Window(Matches(candidates[..inspected + |scenes|], wanted), 0, target)
              == Window(Window(before, 0, target) + Matches(scenes, wanted), 0, target)
  {
    SliceInTwo(candidates, inspected, inspected + |scenes|);
    MatchesInTwo(candidates[..inspected], scenes, wanted);
  }

  /** The window and the flag, from the matches in the inspected prefix. */
  lemma PrefixDecides(candidates: seq<string>, inspected: nat, budget: nat, wanted: string -> bool, start: nat, end: nat)
    requires start <= end && inspected <= budget <= |candidates|
    requires inspected == budget || |Matches(candidates[..inspected], wanted)| > end
    ensures var seen, all := Matches(candidates[..inspected], wanted), Matches(candidates[..budget], wanted);
            && Window(Window(seen, 0, end + 1), start, end) == Window(all, start, end)
            && (|Window(seen, 0, end + 1)| > end <==> |all| > end)
            && (|all| <= end ==> inspected == budget)
  {
    assert candidates[..inspected] == candidates[..budget][..inspected];
    MatchesOfPrefix(candidates[..budget], inspected, wanted);
  }

  /** The page's window of the matches among the candidates the budget allows. */
  function PageScenes(candidates: seq<string>, wanted: string -> bool, page: nat, perPage: nat): seq<string>
    requires page >= 1 && perPage >= 1
  {
    var start := StartIndex(page, perPage);
    var end := start + perPage;
    Window(Matches(candidates[..Min(MaxInspected(end), |candidates|)], wanted), start, end)
  }

  /** The answer is the page's window of the matches among the candidates the budget allows, with the flag that
      follows from them, or a throw when one of their look-ups throws. */
  ghost predicate IsFeed(candidates: seq<string>, inLibrary: string -> Answer<bool>, desired: bool, page: nat, perPage: nat,
                         feed: Answer<Feed>)
    requires page >= 1 && perPage >= 1
  {
    var budget := Min(MaxInspected(StartIndex(page, perPage) + perPage), |candidates|);
    var found := Matches(candidates[..budget], Wanted(inLibrary, desired));
    && (feed.Threw? ==> exists i :: 0 <= i < budget && inLibrary(candidates[i]).Threw?)
    && (feed.Answered? ==>
          && feed.value.scenes == PageScenes(candidates, Wanted(inLibrary, desired), page, perPage)
          && feed.value.hasMore == HasMore(|candidates|, |found|, page, perPage))
  }

  /** The candidates looked up are a prefix within the budget: all the budget allows, unless enough of them match. */
  ghost predicate InspectsPrefix(candidates: seq<string>, inLibrary: string -> Answer<bool>, desired: bool, page: nat, perPage: nat,
                                 feed: Answer<Feed>, inspected: nat)
    requires page >= 1 && perPage >= 1
  {
    var end := StartIndex(page, perPage) + perPage;
    var budget := Min(MaxInspected(end), |candidates|);
    && inspected <= budget
    && (feed.Answered? ==>
          && (forall i :: 0 <= i < inspected ==> inLibrary(candidates[i]).Answered?)
          && (inspected == budget || |Matches(candidates[..inspected], Wanted(inLibrary, desired))| > end))
  }

  /** What the loop has done after some pages. */
  ghost predicate Scanned(candidates: seq<string>, inLibrary: string -> Answer<bool>, desired: bool, target: nat,
                          inspected: nat, matched: seq<string>)
  {
    && inspected <= |candidates|
    && matched == Window(Matches(candidates[..inspected], Wanted(inLibrary, desired)), 0, target)
    && (forall i :: 0 <= i < inspected ==> inLibrary(candidates[i]).Answered?)
  }

  lemma PageScanned(candidates: seq<string>, inLibrary: string -> Answer<bool>, desired: bool, target: nat,
                    inspected: nat, matched: seq<string>, scenes: seq<string>, next: seq<string>)
    requires Scanned(candidates, inLibrary, desired, target, inspected, matched) && |matched| < target
    requires inspected + |scenes| <= |candidates| && scenes == candidates[inspected..inspected + |scenes|]
    requires forall i :: 0 <= i < |scenes| ==> inLibrary(scenes[i]).Answered?
    requires next == Window(matched + Matches(scenes, Wanted(inLibrary, desired)), 0, target)
    ensures Scanned(candidates, inLibrary, desired, target, inspected + |scenes|, next)
  {
    OnePageMore(candidates, inspected, scenes, Wanted(inLibrary, desired), target);
    forall i | 0 <= i < inspected + |scenes| ensures inLibrary(candidates[i]).Answered? {
      assert i >= inspected ==> candidates[i] == scenes[i - inspected];
    }
  }

  /** How the scan can end: enough matches, a short page, or the budget or the candidates used up by full pages. */
  ghost predicate Ended(total: nat, budget: nat, pageSize: nat, offset: nat, inspected: nat, reachedEnd: bool) {
    if reachedEnd then offset < budget && total < offset + pageSize && inspected == Min(total, budget)
    else offset <= total && inspected == Min(offset, budget) && (inspected == budget || offset == total)
  }

  lemma ScanAnswers(candidates: seq<string>, inLibrary: string -> Answer<bool>, desired: bool, page: nat, perPage: nat,
                    inspected: nat, matched: seq<string>, pages: nat, reachedEnd: bool, feed: Feed)
    requires page >= 1 && perPage >= 1
    requires var start := StartIndex(page, perPage);
             var end := start + perPage;
             && Scanned(candidates, inLibrary, desired, end + 1, inspected, matched)
             && inspected <= MaxInspected(end)
             && (|matched| <= end ==>
                   Ended(|candidates|, MaxInspected(end), PageSize(perPage), pages * PageSize(perPage), inspected, reachedEnd))
             && feed.scenes == Window(matched, start, end)
             && feed.hasMore == (|matched| > end || (!reachedEnd && feed.scenes != [] && inspected < |candidates|))
    ensures IsFeed(candidates, inLibrary, desired, page, perPage, Answered(feed))
    ensures InspectsPrefix(candidates, inLibrary, desired, page, perPage, Answered(feed), inspected)
  {
    var start := StartIndex(page, perPage);
    var end := start + perPage;
    var total, limit, pageSize := |candidates|, MaxInspected(end), PageSize(perPage);
    PrefixDecides(candidates, inspected, Min(limit, total), Wanted(inLibrary, desired), start, end);
    if |matched| <= end && limit < total {
      if reachedEnd {
        ShortPageCut(total, limit, pages, pageSize);
      } else {
        FullPagesUncut(total, limit, pages, pageSize);
      }
    }
  }

  lemma PageSlice(candidates: seq<string>, offset: nat, pageSize: nat, room: nat)
    requires offset <= |candidates|
    ensures var fetched := CandidatePage(candidates, offset, pageSize);
            var scenes := Window(fetched, 0, room);
            && |fetched| == Min(pageSize, |candidates| - offset) && |scenes| == Min(room, |fetched|)
            && scenes == candidates[offset..offset + |scenes|]
  {
  }

  /** The counts of one page. */
  lemma PageAccounts(total: nat, budget: nat, offset: nat, pageSize: nat, fetched: nat, cut: nat)
    requires offset < budget && offset <= total
    requires fetched == Min(pageSize, total - offset) && cut == Min(budget - offset, fetched)
    ensures offset + cut <= Min(budget, total)
    ensures fetched < pageSize ==> Ended(total, budget, pageSize, offset, offset + cut, true)
    ensures fetched >= pageSize ==> offset + pageSize <= total && offset + cut == Min(offset + pageSize, budget)
    ensures cut == 0 && pageSize > 0 ==> fetched < pageSize
  {
  }

  lemma NextOffset(pages: nat, pageSize: nat)
    ensures (pages + 1) * pageSize == pages * pageSize + pageSize
  {
  }

  method ScanPage(ghost candidates: seq<string>, inLibrary: string -> Answer<bool>, desired: bool, target: nat,
                  ghost inspected: nat, matched: seq<string>, scenes: seq<string>)
    returns (threw: bool, next: seq<string>)
    requires Scanned(candidates, inLibrary, desired, target, inspected, matched) && |matched| < target
    requires inspected + |scenes| <= |candidates| && scenes == candidates[inspected..inspected + |scenes|]
    ensures threw ==> exists i :: 0 <= i < inspected + |scenes| && inLibrary(candidates[i]).Threw?
    ensures !threw ==> Scanned(candidates, inLibrary, desired, target, inspected + |scenes|, next)
  {
    var found := LookUpPage(scenes, inLibrary);
    if found.Threw? {
      ghost var i :| 0 <= i < |scenes| && inLibrary(scenes[i]).Threw?;
      assert candidates[inspected + i] == scenes[i];
      return true, matched;
    }
    next := AddMatches(matched, scenes, found.value, desired, target, Wanted(inLibrary, desired));
    PageScanned(candidates, inLibrary, desired, target, inspected, matched, scenes, next);
    threw := false;
  }

  /** One turn of the scanning loop: the candidate page at `offset`, cut to the budget. */
  method ScanNextPage(candidates: seq<string>, inLibrary: string -> Answer<bool>, desired: bool,
                      target: nat, maxInspected: nat, pageSize: nat, offset: nat, matched: seq<string>)
    returns (threw: bool, next: seq<string>, inspected: nat, reachedEnd: bool)
    requires pageSize > 0 && offset < maxInspected && offset <= |candidates| && |matched| < target
    requires Scanned(candidates, inLibrary, desired, target, offset, matched)
    ensures inspected <= Min(maxInspected, |candidates|)
    ensures threw ==> exists i :: 0 <= i < Min(maxInspected, |candidates|) && inLibrary(candidates[i]).Threw?
    ensures !threw ==> Scanned(candidates, inLibrary, desired, target, inspected, next)
    ensures !threw && reachedEnd ==> Ended(|candidates|, maxInspected, pageSize, offset, inspected, true)
    ensures !threw && !reachedEnd ==> offset + pageSize <= |candidates| && inspected == Min(offset + pageSize, maxInspected)
  {
    var candidatePage := CandidatePage(candidates, offset, pageSize);
    var pageScenes := Window(candidatePage, 0, maxInspected - offset);
    PageSlice(candidates, offset, pageSize, maxInspected - offset);
    PageAccounts(|candidates|, maxInspected, offset, pageSize, |candidatePage|, |pageScenes|);
    if pageScenes == [] {
      return false, matched, offset, true;
    }
    threw, next := ScanPage(candidates, inLibrary, desired, target, offset, matched, pageScenes);
    inspected, reachedEnd := offset + |pageScenes|, |candidatePage| < pageSize;
  }

  /** The scanning loop: candidate pages until enough matches, the budget or the end. */
  method ScanCandidates(candidates: seq<string>, inLibrary: string -> Answer<bool>, desired: bool,
                        target: nat, maxInspected: nat, pageSize: nat)
    returns (threw: bool, matched: seq<string>, inspected: nat, reachedEnd: bool, ghost pages: nat)
    requires pageSize > 0 && maxInspected > 0
    ensures inspected <= Min(maxInspected, |candidates|)
    ensures threw ==> exists i :: 0 <= i < Min(maxInspected, |candidates|) && inLibrary(candidates[i]).Threw?
    ensures !threw ==> Scanned(candidates, inLibrary, desired, target, inspected, matched)
    ensures !threw && |matched| < target ==> Ended(|candidates|, maxInspected, pageSize, pages * pageSize, inspected, reachedEnd)
  {
    threw, matched, inspected, reachedEnd, pages := false, [], 0, false, 0;
    var candidatePageNo, totalCandidates: Option<nat> := 1, None;
    while |matched| < target && inspected < maxInspected
          && (totalCandidates.None? || (candidatePageNo - 1) * pageSize < totalCandidates.value)
      invariant candidatePageNo >= 1 && pages == candidatePageNo - 1
      invariant !threw && !reachedEnd
      invariant if totalCandidates == None then inspected == 0 else totalCandidates == Some(|candidates|)
      invariant inspected == Min(pages * pageSize, maxInspected) && pages * pageSize <= |candidates|
      invariant Scanned(candidates, inLibrary, desired, target, inspected, matched)
      decreases maxInspected - inspected
    {
      threw, matched, inspected, reachedEnd :=
        ScanNextPage(candidates, inLibrary, desired, target, maxInspected, pageSize, (candidatePageNo - 1) * pageSize, matched);
      totalCandidates := Some(|candidates|);
      if threw || reachedEnd {
        break;
      }
      NextOffset(pages, pageSize);
      candidatePageNo, pages := candidatePageNo + 1, pages + 1;
    }
  }

  method GetHybridSceneFeed(candidates: seq<string>, inLibrary: string -> Answer<bool>, desired: bool, pageWanted: int, perPageWanted: int)
    returns (feed: Answer<Feed>, ghost inspected: nat)
    ensures IsFeed(candidates, inLibrary, desired, AtLeastOne(pageWanted), AtLeastOne(perPageWanted), feed)
    ensures InspectsPrefix(candidates, inLibrary, desired, AtLeastOne(pageWanted), AtLeastOne(perPageWanted), feed, inspected)
  {
    var page, perPage := AtLeastOne(pageWanted), AtLeastOne(perPageWanted);
    var start := StartIndex(page, perPage);
    var end := start + perPage;
    var threw, matched, seen, reachedEnd, pages :=
      ScanCandidates(candidates, inLibrary, desired, end + 1, MaxInspected(end), PageSize(perPage));
    if threw {
      return Threw, seen;
    }
    var scenes := Window(matched, start, end);
    var answer := Feed(scenes, |matched| > end || (!reachedEnd && scenes != [] && seen < |candidates|));
    ScanAnswers(candidates, inLibrary, desired, page, perPage, seen, matched, pages, reachedEnd, answer);
    return Answered(answer), seen;
  }

  /** The first pages one after another. */
  function PagesUpTo(candidates: seq<string>, wanted: string -> bool, pages: nat, perPage: nat): seq<string>
    requires perPage >= 1
  {
    if pages == 0 then []
    else PagesUpTo(candidates, wanted, pages - 1, perPage) + PageScenes(candidates, wanted, pages, perPage)
  }

  lemma PageIsSegment(candidates: seq<string>, wanted: string -> bool, page: nat, perPage: nat)
    requires page >= 1 && perPage >= 1
    ensures var start, all, scenes := StartIndex(page, perPage), Matches(candidates, wanted), PageScenes(candidates, wanted, page, perPage);
            && |scenes| <= perPage
            && (scenes != [] ==> start + |scenes| <= |all| && scenes == all[start..start + |scenes|])
  {
    MatchesOfPrefix(candidates, Min(MaxInspected(StartIndex(page, perPage) + perPage), |candidates|), wanted);
  }

  /** While the pages before the last are full, the pages in turn are the matches from the first on: none is
      skipped, repeated or moved. */
  lemma {:induction false} PagesTileTheMatches(candidates: seq<string>, wanted: string -> bool, pages: nat, perPage: nat)
    requires perPage >= 1
    requires forall page :: 1 <= page < pages ==> |PageScenes(candidates, wanted, page, perPage)| == perPage
    ensures PagesUpTo(candidates, wanted, pages, perPage) <= Matches(candidates, wanted)
    ensures pages >= 1 && |PageScenes(candidates, wanted, pages, perPage)| == perPage ==>
              |PagesUpTo(candidates, wanted, pages, perPage)| == pages * perPage
  {
    if pages > 0 {
      PagesTileTheMatches(candidates, wanted, pages - 1, perPage);
      PageIsSegment(candidates, wanted, pages, perPage);
      NextOffset(pages - 1, perPage);
    }
  }

  lemma AllMatch(s: seq<string>, wanted: string -> bool)
    requires forall x :: x in s ==> wanted(x)
    ensures Matches(s, wanted) == s
  {
    if s != [] {
      AllMatch(s[..|s| - 1], wanted);
      assert s == s[..|s| - 1] + [s[|s| - 1]];
    }
  }

  lemma NoneMatch(s: seq<string>, wanted: string -> bool)
    requires forall x :: x in s ==> !wanted(x)
    ensures Matches(s, wanted) == []
  {
    if s != [] {
      NoneMatch(s[..|s| - 1], wanted);
    }
  }

  /** The scenes that pass a filter given as a set. */
  function PassesBy(inFilter: set<string>): string -> bool {
    (scene: string) => scene in inFilter
  }

  /** How many of the candidates the budget allows match. */
  function FoundWithin(candidates: seq<string>, wanted: string -> bool, page: nat, perPage: nat): nat
    requires page >= 1 && perPage >= 1
  {
    |Matches(candidates[..Min(MaxInspected(StartIndex(page, perPage) + perPage), |candidates|)], wanted)|
  }

  /** A page that says it is the last leaves no match from its start on unshown. */
  ghost predicate Honest(candidates: seq<string>, wanted: string -> bool, page: nat, perPage: nat)
    requires page >= 1 && perPage >= 1
  {
    !HasMore(|candidates|, FoundWithin(candidates, wanted, page, perPage), page, perPage) ==>
      |Matches(candidates, wanted)| <= StartIndex(page, perPage) + |PageScenes(candidates, wanted, page, perPage)|
  }

  /** A page hides matches exactly when the budget leaves candidates out and either the page is empty and one of
      its matches lies among all the candidates, or the budget cuts a short last candidate page and a match lies
      behind the cut. */
  lemma HidesExactly(candidates: seq<string>, wanted: string -> bool, page: nat, perPage: nat)
    requires page >= 1 && perPage >= 1
    ensures var start, budget := StartIndex(page, perPage), MaxInspected(StartIndex(page, perPage) + perPage);
            var found, all := FoundWithin(candidates, wanted, page, perPage), |Matches(candidates, wanted)|;
            !Honest(candidates, wanted, page, perPage)
            <==> budget < |candidates|
                 && if found <= start then all > start
                    else found <= start + perPage && all > found && CutsLastPage(|candidates|, budget, PageSize(perPage))
  {
    var budget := MaxInspected(StartIndex(page, perPage) + perPage);
    MatchesOfPrefix(candidates, Min(budget, |candidates|), wanted);
    if budget >= |candidates| {
      assert candidates[..|candidates|] == candidates;
    }
  }

  ghost predicate HonestBy(candidates: seq<string>, inFilter: set<string>, page: nat, perPage: nat)
    requires page >= 1 && perPage >= 1
  {
    Honest(candidates, PassesBy(inFilter), page, perPage)
  }

  ghost predicate ShowsNothing(candidates: seq<string>, inFilter: set<string>, page: nat, perPage: nat)
    requires page >= 1 && perPage >= 1
  {
    PageScenes(candidates, PassesBy(inFilter), page, perPage) == []
  }

  /** The claim to be the last page is right whatever the library holds exactly when the budget allows every
      candidate. */
  lemma LastPageIsHonest(candidates: seq<string>, page: nat, perPage: nat)
    requires page >= 1 && perPage >= 1 && NoDuplicates(candidates)
    ensures (forall inFilter :: HonestBy(candidates, inFilter, page, perPage))
            <==> |candidates| <= MaxInspected(StartIndex(page, perPage) + perPage)
  {
    var start, budget := StartIndex(page, perPage), MaxInspected(StartIndex(page, perPage) + perPage);
    if budget < |candidates| {
      var inFilter := FirstAndLast(candidates, start);
      FirstAndLastMatch(candidates, start, budget, PassesBy(inFilter));
      HidesExactly(candidates, PassesBy(inFilter), page, perPage);
      assert !HonestBy(candidates, inFilter, page, perPage);
    } else {
      forall inFilter ensures HonestBy(candidates, inFilter, page, perPage) {
        HidesExactly(candidates, PassesBy(inFilter), page, perPage);
      }
    }
  }

  /** On a page that shows something it is right whatever the library holds exactly when the budget does not cut a
      short last candidate page. */
  lemma ShownPageIsHonest(candidates: seq<string>, page: nat, perPage: nat)
    requires page >= 1 && perPage >= 1 && NoDuplicates(candidates)
    ensures (forall inFilter :: ShowsNothing(candidates, inFilter, page, perPage) || HonestBy(candidates, inFilter, page, perPage))
            <==> !CutsLastPage(|candidates|, MaxInspected(StartIndex(page, perPage) + perPage), PageSize(perPage))
  {
    var end := StartIndex(page, perPage) + perPage;
    if CutsLastPage(|candidates|, MaxInspected(end), PageSize(perPage)) {
      var inFilter := FirstAndLast(candidates, end);
      FirstAndLastMatch(candidates, end, MaxInspected(end), PassesBy(inFilter));
      HidesExactly(candidates, PassesBy(inFilter), page, perPage);
      assert !ShowsNothing(candidates, inFilter, page, perPage) && !HonestBy(candidates, inFilter, page, perPage);
    } else {
      forall inFilter ensures ShowsNothing(candidates, inFilter, page, perPage) || HonestBy(candidates, inFilter, page, perPage) {
        HidesExactly(candidates, PassesBy(inFilter), page, perPage);
      }
    }
  }

  ghost function FirstAndLast(candidates: seq<string>, k: nat): set<string>
    requires k < |candidates|
  {
    (set id | id in candidates[..k]) + {candidates[|candidates| - 1]}
  }

  lemma SliceOfSlice<T>(s: seq<T>, i: nat, j: nat)
    requires i <= j <= |s|
    ensures s[..j][..i] == s[..i]
  {
  }

  lemma FirstMatch(candidates: seq<string>, k: nat, wanted: string -> bool)
    requires NoDuplicates(candidates) && k < |candidates|
    requires forall scene :: wanted(scene) <==> scene in FirstAndLast(candidates, k)
    ensures |Matches(candidates[..k], wanted)| == k && |Matches(candidates[..|candidates| - 1], wanted)| == k
  {
    var last := |candidates| - 1;
    AllMatch(candidates[..k], wanted);
    NoneMatch(candidates[k..last], wanted);
    MatchesInTwo(candidates[..k], candidates[k..last], wanted);
    SliceInTwo(candidates, k, last);
  }

  lemma FirstAndLastMatch(candidates: seq<string>, k: nat, m: nat, wanted: string -> bool)
    requires NoDuplicates(candidates) && k <= m < |candidates|
    requires forall scene :: wanted(scene) <==> scene in FirstAndLast(candidates, k)
    ensures |Matches(candidates[..m], wanted)| == k && |Matches(candidates, wanted)| > k
  {
    FirstMatch(candidates, k, wanted);
    var last := |candidates| - 1;
    SliceOfSlice(candidates, m, last);
    MatchesOfPrefix(candidates[..last], m, wanted);
    SliceOfSlice(candidates, k, m);
    MatchesOfPrefix(candidates[..m], k, wanted);
    AllMatch([candidates[last]], wanted);
    MatchesInTwo(candidates[..last], [candidates[last]], wanted);
    LastApart(candidates);
  }

  /** Twenty-five a page over a hundred and forty candidates, the first twenty-five and the last one matching: the
      full first page says it is the last. */
  lemma CutPageHidesMatch(candidates: seq<string>) returns (wanted: string -> bool)
    requires NoDuplicates(candidates) && |candidates| == 140
    ensures |PageScenes(candidates, wanted, 1, 25)| == 25 && |Matches(candidates, wanted)| > 25
    ensures !HasMore(140, FoundWithin(candidates, wanted, 1, 25), 1, 25)
  {
    wanted := PassesBy(FirstAndLast(candidates, 25));
    FirstAndLastMatch(candidates, 25, 130, wanted);
  }

  /** Twenty-five a page over three hundred candidates, the last hundred matching: the empty first page says it is
      the last. */
  lemma EmptyPageHidesMatches(candidates: seq<string>) returns (wanted: string -> bool)
    requires NoDuplicates(candidates) && |candidates| == 300
    ensures PageScenes(candidates, wanted, 1, 25) == [] && |Matches(candidates, wanted)| == 100
    ensures !HasMore(300, FoundWithin(candidates, wanted, 1, 25), 1, 25)
  {
    wanted := PassesBy(set id | id in candidates[200..]);
    LastMatch(candidates, 200, 130, wanted);
    NothingFound(candidates, wanted, 1, 25);
  }

  lemma NothingFound(candidates: seq<string>, wanted: string -> bool, page: nat, perPage: nat)
    requires page >= 1 && perPage >= 1
    requires Matches(candidates[..Min(MaxInspected(StartIndex(page, perPage) + perPage), |candidates|)], wanted) == []
    ensures PageScenes(candidates, wanted, page, perPage) == []
    ensures !HasMore(|candidates|, FoundWithin(candidates, wanted, page, perPage), page, perPage)
  {
  }

  lemma LastMatch(candidates: seq<string>, k: nat, m: nat, wanted: string -> bool)
    requires NoDuplicates(candidates) && m <= k <= |candidates|
    requires forall scene :: wanted(scene) <==> scene in candidates[k..]
    ensures Matches(candidates[..m], wanted) == [] && |Matches(candidates, wanted)| == |candidates| - k
  {
    NoneMatch(candidates[..k], wanted);
    AllMatch(candidates[k..], wanted);
    MatchesInTwo(candidates[..k], candidates[k..], wanted);
    assert candidates == candidates[..k] + candidates[k..];
    NoneMatch(candidates[..m], wanted);
  }
}
