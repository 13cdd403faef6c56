/** Failure streaks of the providers, stored and cached (runtime-health.service.ts). */
module RuntimeHealth {
  import opened Basics

  const FAILURE_THRESHOLD := 2
  const DEGRADED_FAILURE_THROTTLE_MS := 30_000

  datatype Service = CATALOG | STASH | WHISPARR

  const SERVICES := [CATALOG, STASH, WHISPARR]

  ghost function PositionOf(service: Service): (k: nat)
    ensures k < |SERVICES| && SERVICES[k] == service
  {
    match service
    case CATALOG => 0
    case STASH => 1
    case WHISPARR => 2
  }

  datatype Record = Record(
    degraded: bool,
    consecutiveFailures: nat,
    lastHealthyAt: Option<int>,
    lastFailureAt: Option<int>,
    lastErrorMessage: Option<string>,
    degradedAt: Option<int>)

  type Records = map<Service, Record>

  const DEFAULT_RECORD := Record(false, 0, None, None, None, None)

  datatype Event =
    | Failure(service: Service, message: string, now: int)
    | Success(service: Service, now: int)
    | Recovery(service: Service, now: int)
    | Clear(service: Service)
    | ClearAll

  function RecordOf(stored: Records, service: Service): Record {
    if service in stored then stored[service] else DEFAULT_RECORD
  }

  /** A repeat of the same failure soon after the last one. */
  predicate Throttled(record: Record, message: string, now: int) {
    && record.degraded && record.lastFailureAt.Some? && record.lastErrorMessage == Some(message)
    && now - record.lastFailureAt.value < DEGRADED_FAILURE_THROTTLE_MS
  }

  function Failed(record: Record, message: string, now: int): Record {
    var count := record.consecutiveFailures + 1;
    var degraded := count >= FAILURE_THRESHOLD;
    Record(degraded, count, record.lastHealthyAt, Some(now), Some(message),
           if !degraded then None else if record.degradedAt.Some? then record.degradedAt else Some(now))
  }

  function Recovered(record: Record, now: int): Record {
    record.(degraded := false, consecutiveFailures := 0, lastHealthyAt := Some(now), degradedAt := None)
  }

  /** What an event makes of the stored rows, whatever is cached. */
  function Next(stored: Records, event: Event): Records {
    match event
    case Failure(s, message, now) =>
      if Throttled(RecordOf(stored, s), message, now) then stored else stored[s := Failed(RecordOf(stored, s), message, now)]
    case Success(s, now) =>
      if s !in stored || (!stored[s].degraded && stored[s].consecutiveFailures == 0) then stored
      else stored[s := Recovered(stored[s], now)]
    case Recovery(s, now) => stored[s := Recovered(RecordOf(stored, s), now)]
    case Clear(s) => stored - {s}
    case ClearAll => map[]
  }

  /** What an event makes of its service's record: a failure is counted with its time and message, unless it repeats the
      last one of a degraded service within thirty seconds; a success or a recovery resets the count and notes the time,
      a success only where there is something to reset; both keep what is known of the last failure. */
  ghost predicate RecordAfter(before: Option<Record>, event: Event, after: Option<Record>) {
    var known := if before.Some? then before.value else DEFAULT_RECORD;
    match event
    case Failure(_, message, now) =>
      if known.degraded && known.lastErrorMessage == Some(message) && known.lastFailureAt.Some? && now < known.lastFailureAt.value + 30_000
      then after == before
      else
        && after.Some? && after.value.consecutiveFailures == known.consecutiveFailures + 1
        && after.value.lastFailureAt == Some(now) && after.value.lastErrorMessage == Some(message)
        && after.value.lastHealthyAt == known.lastHealthyAt
        && after.value.degraded == (after.value.consecutiveFailures >= 2)
        && after.value.degradedAt
           == (if !after.value.degraded then None else if known.degradedAt.Some? then known.degradedAt else Some(now))
    case Success(_, now) =>
      if before.None? || (!known.degraded && known.consecutiveFailures == 0) then after == before
      else Healed(known, now, after)
    case Recovery(_, now) => Healed(known, now, after)
    case Clear(_) => after == None
    case ClearAll => after == None
  }

  predicate Healed(before: Record, now: int, after: Option<Record>) {
    && after.Some? && !after.value.degraded && after.value.consecutiveFailures == 0 && after.value.degradedAt == None
    && after.value.lastHealthyAt == Some(now)
    && after.value.lastFailureAt == before.lastFailureAt && after.value.lastErrorMessage == before.lastErrorMessage
  }

  /** An event changes its own service's record as said, or clears all, and no other record. */
  lemma EventInWords(stored: Records, event: Event, service: Service)
    ensures if event.ClearAll? || event.service == service
            then RecordAfter(Lookup(stored, service), event, Lookup(Next(stored, event), service))
            else Lookup(Next(stored, event), service) == Lookup(stored, service)
  {
  }

  /** One process over the stored rows. */
  class RuntimeHealthService {
    var stored: Records
    var cache: Records
    var loadedAll: bool

    /** Every cached record is the stored one, and once everything is loaded nothing stored is uncached. */
    ghost predicate Valid()
      reads this
    {
      && (forall s :: s in cache ==> s in stored && cache[s] == stored[s])
      && (loadedAll ==> forall s :: s in stored ==> s in cache)
    }

    constructor (stored: Records)
      ensures Valid() && this.stored == stored && cache == map[] && !loadedAll
    {
      this.stored, cache, loadedAll := stored, map[], false;
    }

    method EnsureAllLoaded()
      requires Valid()
      modifies this`cache, this`loadedAll
      ensures Valid() && loadedAll
    {
      if loadedAll {
        return;
      }
      for i := 0 to |SERVICES|
        invariant Valid() && !loadedAll
        invariant forall k :: 0 <= k < i && SERVICES[k] in stored ==> SERVICES[k] in cache
      {
        if SERVICES[i] in stored {
          cache := cache[SERVICES[i] := stored[SERVICES[i]]];
        }
      }
      forall s | s in stored ensures s in cache {
        assert SERVICES[PositionOf(s)] == s;
      }
      loadedAll := true;
    }

    method GetSnapshot(service: Service) returns (found: bool, record: Record)
      requires Valid()
      modifies this`cache
      ensures Valid()
      ensures found == (service in stored) && record == RecordOf(stored, service)
    {
      if service !in cache && !loadedAll && service in stored {
        cache := cache[service := stored[service]];
      }
      if service in cache {
        return true, cache[service];
      }
      return false, DEFAULT_RECORD;
    }

    /** Persisting a row caches what was persisted. */
    method Persist(service: Service, record: Record)
      requires Valid()
      modifies this`stored, this`cache
      ensures Valid() && stored == old(stored)[service := record]
    {
      stored := stored[service := record];
      cache := cache[service := record];
    }

    method RecordFailure(service: Service, message: string, now: int)
      requires Valid()
      modifies this
      ensures Valid() && stored == Next(old(stored), Failure(service, message, now))
    {
      var found, record := GetSnapshot(service);
      if found && record.degraded && record.lastFailureAt.Some? && record.lastErrorMessage == Some(message)
         && now - record.lastFailureAt.value < DEGRADED_FAILURE_THROTTLE_MS
      {
        return;
      }
      var consecutiveFailures := record.consecutiveFailures + 1;
      var degraded := consecutiveFailures >= FAILURE_THRESHOLD;
      var degradedAt := None;
      if degraded {
        degradedAt := if record.degradedAt.Some? then record.degradedAt else Some(now);
      }
      Persist(service, Record(degraded, consecutiveFailures, record.lastHealthyAt, Some(now), Some(message), degradedAt));
    }

    method RecordSuccess(service: Service, now: int)
      requires Valid()
      modifies this
      ensures Valid() && stored == Next(old(stored), Success(service, now))
    {
      var found, record := GetSnapshot(service);
      if !found || (!record.degraded && record.consecutiveFailures == 0) {
        return;
      }
      Persist(service, record.(degraded := false, consecutiveFailures := 0, lastHealthyAt := Some(now), degradedAt := None));
    }

    method RecordManualRecovery(service: Service, now: int)
      requires Valid()
      modifies this
      ensures Valid() && stored == Next(old(stored), Recovery(service, now))
    {
      var _, record := GetSnapshot(service);
      Persist(service, Record(false, 0, Some(now), record.lastFailureAt, record.lastErrorMessage, None));
    }

    method ClearService(service: Service)
      requires Valid()
      modifies this
      ensures Valid() && stored == Next(old(stored), Clear(service))
    {
      stored := stored - {service};
      cache := cache - {service};
    }

    method ClearAllServices()
      requires Valid()
      modifies this
      ensures Valid() && stored == Next(old(stored), ClearAll) && cache == map[]
    {
      stored := map[];
      for i := 0 to |SERVICES|
        invariant stored == map[] && forall s :: s in cache ==> s !in SERVICES[..i]
      {
        cache := cache - {SERVICES[i]};
      }
      forall s: Service ensures s !in cache {
        assert SERVICES[PositionOf(s)] == s;
      }
    }

    /** The summary shows every service's stored record, and is degraded when one of them is. */
    method GetSummary() returns (degraded: bool, services: map<Service, Record>)
      requires Valid()
      modifies this`cache, this`loadedAll
      ensures Valid()
      ensures forall s: Service :: s in services && services[s] == RecordOf(stored, s)
      ensures degraded <==> exists s :: s in stored && stored[s].degraded
    {
      EnsureAllLoaded();
      degraded, services := false, map[];
      for i := 0 to |SERVICES|
        invariant forall k :: 0 <= k < i ==> SERVICES[k] in services && services[SERVICES[k]] == RecordOf(stored, SERVICES[k])
        invariant degraded <==> exists k :: 0 <= k < i && RecordOf(stored, SERVICES[k]).degraded
      {
        var record := if SERVICES[i] in cache then cache[SERVICES[i]] else DEFAULT_RECORD;
        services := services[SERVICES[i] := record];
        degraded := degraded || record.degraded;
      }
      forall s: Service ensures s in services && services[s] == RecordOf(stored, s) {
        assert SERVICES[PositionOf(s)] == s;
      }
      if s :| s in stored && stored[s].degraded {
        assert SERVICES[PositionOf(s)] == s;
      }
    }
  }

  /** The stored rows after a history of events in one process, restarted or not: a new one loads what is stored. */
  function After(events: seq<Event>): Records {
    if events == [] then map[] else Next(After(events[..|events| - 1]), events[|events| - 1])
  }

  /** The times of the failures reported since the service's last success, recovery or clear. */
  function Streak(events: seq<Event>, service: Service): seq<int> {
    if events == [] then []
    else
      var earlier, last := Streak(events[..|events| - 1], service), events[|events| - 1];
      if last.ClearAll? then []
      else if last.service != service then earlier
      else if last.Failure? then earlier + [last.now]
      else []
  }

  /** How a service's record stands for its streak; throttled failures are reported but not counted. */
  ghost predicate Stands(record: Option<Record>, streak: seq<int>) {
    match record
    case None => streak == []
    case Some(r) =>
      && r.degraded == (|streak| >= FAILURE_THRESHOLD)
      && r.degradedAt == (if |streak| >= FAILURE_THRESHOLD then Some(streak[FAILURE_THRESHOLD - 1]) else None)
      && r.consecutiveFailures <= |streak|
      && (r.consecutiveFailures == |streak| || r.consecutiveFailures >= FAILURE_THRESHOLD)
  }

  lemma EventStands(stored: Records, event: Event, service: Service, streak: seq<int>, next: seq<int>)
    requires Stands(Lookup(stored, service), streak)
    requires next == if event.ClearAll? then []
                     else if event.service != service then streak
                     else if event.Failure? then streak + [event.now]
                     else []
    ensures Stands(Lookup(Next(stored, event), service), next)
  {
  }

  lemma {:induction false} HistoryStands(events: seq<Event>, service: Service)
    ensures Stands(Lookup(After(events), service), Streak(events, service))
  {
    if events != [] {
      var before := events[..|events| - 1];
      HistoryStands(before, service);
      EventStands(After(before), events[|events| - 1], service, Streak(before, service), Streak(events, service));
    }
  }

  /** A service is degraded exactly when two failures or more were reported in its streak, and has been since the
      second of them. */
  lemma DegradedSinceTheSecondFailure(events: seq<Event>, service: Service)
    ensures var streak, record := Streak(events, service), RecordOf(After(events), service);
            && (record.degraded <==> |streak| >= 2)
            && record.degradedAt == (if |streak| >= 2 then Some(streak[1]) else None)
  {
    HistoryStands(events, service);
  }
}
