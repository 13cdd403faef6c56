/** The short-lived availability cache and its in-flight look-ups (scene-status.service.ts). */
module AvailabilityCache {
  import opened Basics

  const TTL_MS := 15_000
  const MAX_ENTRIES := 4000

  /** One cache entry; the cache lists its entries in insertion order, as a `Map` does. */
  datatype Entry = Entry(key: string, available: bool, expiresAt: int)

  /** A look-up under way, or one whose answer is written while its promise has not yet removed itself. */
  datatype Stage = Asking | Written

  /** How a caller's look-up is served. */
  datatype Served = Cached(available: bool) | Joined | Asked

  ghost predicate DistinctKeys(entries: seq<Entry>) {
    forall i, j :: 0 <= i < j < |entries| ==> entries[i].key != entries[j].key
  }

  ghost predicate ByExpiry(entries: seq<Entry>) {
    forall i, j :: 0 <= i < j < |entries| ==> entries[i].expiresAt <= entries[j].expiresAt
  }

  predicate Has(entries: seq<Entry>, key: string) {
    exists i :: 0 <= i < |entries| && entries[i].key == key
  }

  /** The entries not yet expired. */
  function Live(entries: seq<Entry>, now: int): seq<Entry> {
    if entries == [] then []
    else if entries[0].expiresAt > now then [entries[0]] + Live(entries[1..], now)
    else Live(entries[1..], now)
  }

  lemma {:induction false} AllLive(entries: seq<Entry>, now: int)
    requires forall i :: 0 <= i < |entries| ==> entries[i].expiresAt > now
    ensures Live(entries, now) == entries
  {
    if entries != [] {
      AllLive(entries[1..], now);
    }
  }

  /** In expiry order the unexpired entries are the last ones. */
  lemma LiveIsSuffix(entries: seq<Entry>, now: int) returns (cut: nat)
    requires ByExpiry(entries)
    ensures cut <= |entries| && Live(entries, now) == entries[cut..]
    ensures forall i :: 0 <= i < |entries| ==> (i < cut <==> entries[i].expiresAt <= now)
  {
    if entries == [] || entries[0].expiresAt > now {
      AllLive(entries, now);
      return 0;
    }
    var later := LiveIsSuffix(entries[1..], now);
    cut := later + 1;
    assert forall i :: 1 <= i < |entries| ==> entries[i] == entries[1..][i - 1];
  }

  /** `Map.set`: in place when the key is present, else at the end. */
  function Put(entries: seq<Entry>, e: Entry): seq<Entry> {
    if entries == [] then [e]
    else if entries[0].key == e.key then [e] + entries[1..]
    else [entries[0]] + Put(entries[1..], e)
  }

  lemma {:induction false} PutNew(entries: seq<Entry>, e: Entry)
    requires !Has(entries, e.key)
    ensures Put(entries, e) == entries + [e]
  {
    if entries != [] {
      assert forall i :: 0 <= i < |entries| - 1 ==> entries[1..][i] == entries[i + 1];
      PutNew(entries[1..], e);
    }
  }

  /** What remains after the oldest insertions beyond the limit are dropped. */
  function Trimmed(entries: seq<Entry>): seq<Entry> {
    if |entries| <= MAX_ENTRIES then entries else entries[|entries| - MAX_ENTRIES..]
  }

  /** The cache after a write and the pruning that follows it. */
  function AfterWrite(entries: seq<Entry>, entry: Entry, now: int): seq<Entry> {
    Trimmed(Live(Put(entries, entry), now))
  }

  /** One entry per key, in expiry order, none living beyond the time to live, at most the limit of them. */
  ghost predicate Orderly(entries: seq<Entry>, now: int) {
    && DistinctKeys(entries) && ByExpiry(entries) && |entries| <= MAX_ENTRIES
    && (forall i :: 0 <= i < |entries| ==> entries[i].expiresAt <= now + TTL_MS)
  }

  /** No key but the given one has come in. */
  ghost predicate OnlyAdds(before: seq<Entry>, key: string, after: seq<Entry>) {
    forall k :: k != key && !Has(before, k) ==> !Has(after, k)
  }

  class AvailabilityCache {
    var entries: seq<Entry>
    var lookups: map<string, Stage>
    var clock: int
    /** The provider calls that have not returned. */
    ghost var asks: multiset<string>

    /** The entries are in order, and none is for a key that is still being asked for. */
    ghost predicate Valid()
      reads this
    {
      && Orderly(entries, clock)
      && (forall key :: key in lookups && lookups[key].Asking? ==> !Has(entries, key))
      && (forall key :: asks[key] == if key in lookups && lookups[key].Asking? then 1 else 0)
    }

    constructor (now: int)
      ensures Valid() && entries == [] && lookups == map[] && clock == now
    {
      entries, lookups, clock := [], map[], now;
      asks := multiset{};
    }

    /** The clock never goes back. */
    method Advance(now: int)
      requires Valid() && clock <= now
      modifies this`clock
      ensures Valid() && clock == now
    {
      clock := now;
    }

    /** Deletes the entry of an expired key; never returns an expired answer. */
    method Read(key: string) returns (cached: Option<bool>)
      requires Valid()
      modifies this`entries
      ensures Valid()
      ensures cached.Some? <==> exists i :: 0 <= i < |old(entries)| && old(entries)[i].key == key && old(entries)[i].expiresAt > clock
      ensures forall i :: 0 <= i < |old(entries)| && old(entries)[i].key == key && cached.Some? ==>
                cached.value == old(entries)[i].available
      ensures cached.None? ==> !Has(entries, key)
      ensures cached.Some? ==> entries == old(entries)
    {
      var i := 0;
      while i < |entries|
        invariant 0 <= i <= |entries| && entries == old(entries)
        invariant forall k :: 0 <= k < i ==> entries[k].key != key
      {
        if entries[i].key == key {
          if entries[i].expiresAt <= clock {
            entries := entries[..i] + entries[i + 1..];
            return None;
          }
          return Some(entries[i].available);
        }
        i := i + 1;
      }
      return None;
    }

    /** Drops the expired entries, in one pass over the cache. */
    method DropExpired()
      modifies this`entries
      ensures entries == Live(old(entries), clock)
    {
      ghost var all := entries;
      var kept: seq<Entry> := [];
      for n := 0 to |entries|
        invariant entries == all
        invariant kept + Live(all[n..], clock) == Live(all, clock)
      {
        assert all[n..][1..] == all[n + 1..];
        if entries[n].expiresAt > clock {
          kept := kept + [entries[n]];
        }
      }
      entries := kept;
    }

    /** Drops the oldest insertions beyond the limit, one at a time. */
    method DropOverflow()
      modifies this`entries
      ensures entries == Trimmed(old(entries))
    {
      var overflow := |entries| - MAX_ENTRIES;
      if overflow <= 0 {
        return;
      }
      var removed := 0;
      while removed < overflow
        invariant 0 <= removed <= overflow
        invariant entries == old(entries)[removed..]
      {
        entries := entries[1..];
        removed := removed + 1;
      }
    }

    /** Drops the expired entries, then the oldest insertions beyond the limit. */
    method Prune()
      modifies this`entries
      ensures entries == Trimmed(Live(old(entries), clock))
      ensures old(Valid()) ==> Valid()
    {
      ghost var all, valid := entries, Valid();
      DropExpired();
      DropOverflow();
      if valid {
        PrunedStaysOrderly(all, clock);
      }
    }

    /** The synchronous part of lookupStashAvailability. A provider call starts only if none is running for the key. */
    method LookupStashAvailability(key: string) returns (served: Served)
      requires Valid()
      modifies this
      ensures Valid() && clock == old(clock)
      ensures served.Cached? <==> exists i :: 0 <= i < |old(entries)| && old(entries)[i].key == key && old(entries)[i].expiresAt > clock
      ensures served.Joined? <==> !served.Cached? && key in old(lookups)
      ensures served.Cached? ==>
                && asks == old(asks) && lookups == old(lookups) && entries == old(entries)
                && exists i :: 0 <= i < |entries| && entries[i].key == key && entries[i].expiresAt > clock
                               && entries[i].available == served.available
      ensures served.Joined? ==> asks == old(asks) && lookups == old(lookups) && key in lookups
      ensures served.Asked? ==>
                && key !in old(lookups) && lookups == old(lookups)[key := Asking]
                && asks == old(asks) + multiset{key} && asks[key] == 1
    {
      var cached := Read(key);
      if cached.Some? {
        return Cached(cached.value);
      }
      if key in lookups {
        return Joined;
      }
      asks := asks + multiset{key};
      lookups := lookups[key := Asking];
      return Asked;
    }

    method WriteStashAvailabilityCache(key: string, available: bool)
      modifies this`entries
      ensures entries == AfterWrite(old(entries), Entry(key, available, clock + TTL_MS), clock)
    {
      entries := Put(entries, Entry(key, available, clock + TTL_MS));
      Prune();
    }

    /** The provider has answered: the answer is written before the promise removes itself. The key is never
        present then, so what is written is as OldestGoFirst says. */
    method Answer(key: string, available: bool)
      requires Valid() && key in lookups && lookups[key].Asking?
      modifies this
      ensures Valid() && clock == old(clock)
      ensures !Has(old(entries), key)
      ensures entries == AfterWrite(old(entries), Entry(key, available, clock + 15_000), clock)
      ensures lookups == old(lookups)[key := Written] && asks[key] == 0
    {
      ghost var before := entries;
      WriteStashAvailabilityCache(key, available);
      WriteStaysOrderly(before, Entry(key, available, clock + TTL_MS), clock);
      lookups := lookups[key := Written];
      asks := asks[key := 0];
    }

    /** The promise removes itself, after its answer or after a failure. */
    method Settle(key: string)
      requires Valid() && key in lookups
      modifies this
      ensures Valid() && clock == old(clock) && entries == old(entries)
      ensures lookups == old(lookups) - {key} && asks[key] == 0
    {
      asks := asks[key := 0];
      lookups := lookups - {key};
    }
  }

  /** Pruning drops a prefix: the expired entries, and older ones only as far as the limit demands. */
  lemma PrunedIsSuffix(entries: seq<Entry>, now: int) returns (cut: nat)
    requires ByExpiry(entries)
    ensures cut <= |entries| && Trimmed(Live(entries, now)) == entries[cut..]
    ensures forall i :: cut <= i < |entries| ==> entries[i].expiresAt > now
    ensures forall i :: 0 <= i < cut ==> entries[i].expiresAt <= now || |entries| - cut == MAX_ENTRIES
  {
    cut := LiveIsSuffix(entries, now);
    if |entries| - cut > MAX_ENTRIES {
      SuffixOfSuffix(entries, cut, |entries| - cut - MAX_ENTRIES);
      cut := |entries| - MAX_ENTRIES;
    }
  }

  lemma SuffixOfSuffix<T>(s: seq<T>, i: nat, j: nat)
    requires i + j <= |s|
    ensures s[i..][j..] == s[i + j..]
  {
  }

  /** One entry per key and expiry order, whatever the number of entries. */
  ghost predicate Ordered(entries: seq<Entry>, now: int) {
    && DistinctKeys(entries) && ByExpiry(entries)
    && (forall i :: 0 <= i < |entries| ==> entries[i].expiresAt <= now + TTL_MS)
  }

  lemma SuffixStaysOrdered(entries: seq<Entry>, now: int, cut: nat)
    requires Ordered(entries, now) && cut <= |entries|
    ensures Ordered(entries[cut..], now)
  {
    var kept := entries[cut..];
    assert forall i :: 0 <= i < |kept| ==> kept[i] == entries[cut + i];
  }

  lemma SuffixHasNoMore(entries: seq<Entry>, cut: nat, key: string)
    requires cut <= |entries| && Has(entries[cut..], key)
    ensures Has(entries, key)
  {
    var i :| 0 <= i < |entries[cut..]| && entries[cut..][i].key == key;
    assert entries[cut + i].key == key;
  }

  /** Pruning keeps the order and brings no key in. */
  lemma PrunedStaysOrderly(entries: seq<Entry>, now: int)
    requires Ordered(entries, now)
    ensures Orderly(Trimmed(Live(entries, now)), now)
    ensures forall key :: Has(Trimmed(Live(entries, now)), key) ==> Has(entries, key)
  {
    var cut := PrunedIsSuffix(entries, now);
    SuffixStaysOrdered(entries, now, cut);
    forall key | Has(entries[cut..], key) ensures Has(entries, key) {
      SuffixHasNoMore(entries, cut, key);
    }
  }

  lemma NewestStaysOrdered(entries: seq<Entry>, entry: Entry, now: int)
    requires Ordered(entries, now) && !Has(entries, entry.key) && entry.expiresAt == now + TTL_MS
    ensures Ordered(entries + [entry], now)
    ensures forall key :: Has(entries + [entry], key) <==> key == entry.key || Has(entries, key)
  {
    var all := entries + [entry];
    assert forall i :: 0 <= i < |entries| ==> all[i] == entries[i];
    forall key ensures Has(all, key) <==> key == entry.key || Has(entries, key) {
      assert all[|entries|].key == entry.key;
      if Has(entries, key) {
        var i :| 0 <= i < |entries| && entries[i].key == key;
        assert all[i].key == key;
      }
    }
  }

  /** Writing a key that is not present keeps the order. */
  lemma WriteStaysOrderly(entries: seq<Entry>, entry: Entry, now: int)
    requires Orderly(entries, now) && !Has(entries, entry.key) && entry.expiresAt == now + TTL_MS
    ensures Orderly(AfterWrite(entries, entry, now), now)
    ensures OnlyAdds(entries, entry.key, AfterWrite(entries, entry, now))
  {
    PutNew(entries, entry);
    NewestStaysOrdered(entries, entry, now);
    PrunedStaysOrderly(entries + [entry], now);
  }

  /** Such a write puts the entry last and drops a prefix: the expired entries, and others only at the limit, none of
      them expiring later than anything kept. Insertion order is expiry order. */
  lemma OldestGoFirst(entries: seq<Entry>, entry: Entry, now: int) returns (cut: nat)
    requires Orderly(entries, now) && !Has(entries, entry.key) && entry.expiresAt == now + 15_000
    ensures var all := entries + [entry];
            && cut <= |entries| && AfterWrite(entries, entry, now) == all[cut..]
            && (forall i, j :: 0 <= i < cut <= j < |all| ==> all[i].expiresAt <= all[j].expiresAt)
            && (forall i :: 0 <= i < cut ==> all[i].expiresAt <= now || |all| - cut == 4000)
            && (forall i :: cut <= i < |all| ==> all[i].expiresAt > now)
  {
    PutNew(entries, entry);
    NewestStaysOrdered(entries, entry, now);
    cut := PrunedIsSuffix(entries + [entry], now);
    assert (entries + [entry])[|entries|] == entry;
  }
}
