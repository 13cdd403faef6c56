/** Many workers running leased jobs over one job table, with crashes and a clock (sync-state.service.ts). */
module LeaseProtocol {
  import opened Basics
  import opened SyncState

  /** A worker's place in runWithLease: the clock reading it acts on, then the end of the lease it holds. */
  datatype Phase =
    | Idle
    | Starting(now: int)
    | Rowed(now: int)
    | Running(until: int)
    | Ending(until: int, now: int, success: Option<SuccessInput>)

  datatype Worker = Worker(job: JobName, leaseMs: nat, phase: Phase)

  /** What happened to the leases, in the order of the database writes. */
  datatype Entry =
    | Claimed(job: JobName, worker: int, at: int, leaseMs: nat)
    | Released(job: JobName, worker: int)
  {
    function Until(): int
      requires Claimed?
    {
      at + leaseMs
    }
  }

  datatype State = State(clock: int, jobs: Jobs, workers: map<int, Worker>, log: seq<Entry>)

  datatype Event =
    | Tick(ms: nat)
    | Start(worker: int, job: JobName, leaseMs: nat)
    | EnsureRow(worker: int)
    | Claim(worker: int)
    | HandlerEnds(worker: int, success: Option<SuccessInput>)
    | RecordThrows(worker: int)
    | Record(worker: int)
    | Crash(worker: int)

  function PhaseOf(s: State, w: int): Phase {
    if w in s.workers then s.workers[w].phase else Idle
  }

  function Moved(s: State, w: int, phase: Phase): State
    requires w in s.workers
  {
    s.(workers := s.workers[w := s.workers[w].(phase := phase)])
  }

  /** The row left when a worker records its end. */
  function RowAtEnd(row: JobRow, phase: Phase): JobRow
    requires phase.Ending?
  {
    EndedRow(row, if phase.success.Some? then Answered(phase.success.value) else Threw, false, phase.now)
  }

  predicate Enabled(s: State, event: Event) {
    match event
    case Tick(_) => true
    case Start(w, _, _) => PhaseOf(s, w).Idle?
    case EnsureRow(w) => PhaseOf(s, w).Starting?
    case Claim(w) => PhaseOf(s, w).Rowed? && s.workers[w].job in s.jobs
    case HandlerEnds(w, _) => PhaseOf(s, w).Running?
    case RecordThrows(w) => PhaseOf(s, w).Ending? && PhaseOf(s, w).success.Some?
    case Record(w) => PhaseOf(s, w).Ending? && s.workers[w].job in s.jobs
    case Crash(w) => w in s.workers
  }

  /** One atomic step: a clock reading or one database call. */
  function Next(s: State, event: Event): State
    requires Enabled(s, event)
  {
    match event
    case Tick(ms) => s.(clock := s.clock + ms)
    case Start(w, job, leaseMs) => s.(workers := s.workers[w := Worker(job, leaseMs, Starting(s.clock))])
    case EnsureRow(w) => Moved(s, w, Rowed(s.workers[w].phase.now)).(jobs := WithRow(s.jobs, s.workers[w].job))
    case Claim(w) =>
      var job, now := s.workers[w].job, s.workers[w].phase.now;
      if Claimable(s.jobs[job], now) then
        var until := now + s.workers[w].leaseMs;
        Moved(s, w, Running(until)).(
          jobs := s.jobs[job := ClaimedRow(s.jobs[job], now, s.workers[w].leaseMs)],
          log := s.log + [Claimed(job, w, now, s.workers[w].leaseMs)])
      else Moved(s, w, Idle)
    case HandlerEnds(w, success) => Moved(s, w, Ending(s.workers[w].phase.until, s.clock, success))
    case RecordThrows(w) => Moved(s, w, Ending(s.workers[w].phase.until, s.clock, None))
    case Record(w) =>
      var job := s.workers[w].job;
      Moved(s, w, Idle).(
        jobs := s.jobs[job := RowAtEnd(s.jobs[job], s.workers[w].phase)],
        log := s.log + [Released(job, w)])
    case Crash(w) => Moved(s, w, Idle)
  }

  /** A worker that ends records its success field by field, or its failure; a claim of a free or expired lease stores a
      run begun at the claimer's reading; no other job's row changes. */
  lemma EndsAndClaimsInWords(s: State, w: int)
    ensures Enabled(s, Record(w)) ==>
              var job, phase, t := s.workers[w].job, s.workers[w].phase, Next(s, Record(w));
              && t.jobs == s.jobs[job := t.jobs[job]]
              && if phase.success.Some? then SuccessStored(phase.success.value, s.jobs[job], phase.now, t.jobs[job])
                 else FailureStored(s.jobs[job], "Unknown error", phase.now, t.jobs[job])
    ensures Enabled(s, Claim(w)) ==>
              var worker, t := s.workers[w], Next(s, Claim(w));
              var lease := s.jobs[worker.job].leaseUntil;
              if lease.None? || lease.value <= worker.phase.now then
                && t.jobs == s.jobs[worker.job := t.jobs[worker.job]]
                && ClaimStored(s.jobs[worker.job], worker.phase.now, worker.leaseMs, t.jobs[worker.job])
              else t.jobs == s.jobs
  {
  }

  /** The state after the events, if each was enabled in its turn. */
  function Exec(s: State, events: seq<Event>): Option<State> {
    if events == [] then Some(s)
    else
      var before, last := Exec(s, events[..|events| - 1]), events[|events| - 1];
      if before.Some? && Enabled(before.value, last) then Some(Next(before.value, last)) else None
  }

  predicate Initial(s: State) {
    s.jobs == map[] && s.workers == map[] && s.log == []
  }

  /** The last log entry of the job. */
  function LastOf(log: seq<Entry>, job: JobName): Option<Entry> {
    if log == [] then None
    else if log[|log| - 1].job == job then Some(log[|log| - 1])
    else LastOf(log[..|log| - 1], job)
  }

  /** The lease the log leaves the job with. */
  function LeaseOf(log: seq<Entry>, job: JobName): Option<int> {
    var last := LastOf(log, job);
    if last.Some? && last.value.Claimed? then Some(last.value.Until()) else None
  }

  predicate ReleasedBetween(log: seq<Entry>, i: nat, j: nat) {
    exists k :: i < k < j < |log| && log[k].Released? && log[k].job == log[j].job
  }

  /** Two claims of a job with no release between them are a whole lease apart. */
  ghost predicate Spaced(log: seq<Entry>) {
    forall i, j :: 0 <= i < j < |log| && log[i].Claimed? && log[j].Claimed? && log[i].job == log[j].job
                   && !ReleasedBetween(log, i, j) ==>
      log[i].Until() <= log[j].at
  }

  /** Every open claim, the last of its job or followed only by claims, ends no later than the lease in force. */
  ghost predicate OpenClaimsEnd(log: seq<Entry>) {
    forall i :: 0 <= i < |log| && log[i].Claimed? && !ReleasedAfter(log, i) ==>
      LeaseOf(log, log[i].job).Some? && log[i].Until() <= LeaseOf(log, log[i].job).value
  }

  predicate ReleasedAfter(log: seq<Entry>, i: nat)
    requires i < |log|
  {
    exists k :: i < k < |log| && log[k].Released? && log[k].job == log[i].job
  }

  ghost predicate LogInv(log: seq<Entry>, clock: int) {
    && Spaced(log)
    && OpenClaimsEnd(log)
    && (forall i :: 0 <= i < |log| && log[i].Claimed? ==> log[i].at <= clock)
  }

  /** The job rows carry the leases the log leaves. */
  ghost predicate RowsFollowLog(s: State) {
    forall job :: LeaseOf(s.log, job) == if job in s.jobs then s.jobs[job].leaseUntil else None
  }

  ghost predicate ReadingsPast(s: State) {
    forall w :: w in s.workers && (s.workers[w].phase.Starting? || s.workers[w].phase.Rowed?) ==>
      s.workers[w].phase.now <= s.clock
  }

  ghost predicate Inv(s: State) {
    LeaseMarked(s.jobs) && RowsFollowLog(s) && LogInv(s.log, s.clock) && ReadingsPast(s)
  }

  lemma LastOfSnoc(log: seq<Entry>, entry: Entry, job: JobName)
    ensures LastOf(log + [entry], job) == if entry.job == job then Some(entry) else LastOf(log, job)
  {
    assert (log + [entry])[..|log|] == log;
  }

  lemma ReleasesSnoc(log: seq<Entry>, entry: Entry, i: nat)
    requires i < |log|
    ensures ReleasedAfter(log + [entry], i) <==> ReleasedAfter(log, i) || (entry.Released? && entry.job == log[i].job)
    ensures forall j :: i < j < |log| ==> (ReleasedBetween(log + [entry], i, j) <==> ReleasedBetween(log, i, j))
    ensures entry.job == log[i].job ==> (ReleasedBetween(log + [entry], i, |log|) <==> ReleasedAfter(log, i))
  {
    var longer := log + [entry];
    assert forall k :: 0 <= k < |log| ==> longer[k] == log[k];
    assert longer[|log|] == entry;
  }

  lemma AppendKeepsSpaced(log: seq<Entry>, entry: Entry)
    requires Spaced(log)
    requires entry.Claimed? ==>
               forall i :: 0 <= i < |log| && log[i].Claimed? && log[i].job == entry.job && !ReleasedAfter(log, i) ==>
                 log[i].Until() <= entry.at
    ensures Spaced(log + [entry])
  {
    var longer := log + [entry];
    forall i, j | 0 <= i < j < |longer| && longer[i].Claimed? && longer[j].Claimed? && longer[i].job == longer[j].job
                  && !ReleasedBetween(longer, i, j)
      ensures longer[i].Until() <= longer[j].at
    {
      ReleasesSnoc(log, entry, i);
    }
  }

  lemma AppendKeepsOpen(log: seq<Entry>, entry: Entry)
    requires OpenClaimsEnd(log)
    requires entry.Claimed? ==>
               forall i :: 0 <= i < |log| && log[i].Claimed? && log[i].job == entry.job && !ReleasedAfter(log, i) ==>
                 log[i].Until() <= entry.at
    ensures OpenClaimsEnd(log + [entry])
  {
    var longer := log + [entry];
    forall i | 0 <= i < |longer| && longer[i].Claimed? && !ReleasedAfter(longer, i)
      ensures LeaseOf(longer, longer[i].job).Some? && longer[i].Until() <= LeaseOf(longer, longer[i].job).value
    {
      LastOfSnoc(log, entry, longer[i].job);
      if i < |log| {
        ReleasesSnoc(log, entry, i);
      }
    }
  }

  /** A lease that has expired by the reading leaves no open claim beyond the reading. */
  lemma ExpiredLeasesPast(log: seq<Entry>, job: JobName, now: int)
    requires OpenClaimsEnd(log)
    requires LeaseOf(log, job).Some? ==> LeaseOf(log, job).value <= now
    ensures forall i :: 0 <= i < |log| && log[i].Claimed? && log[i].job == job && !ReleasedAfter(log, i) ==> log[i].Until() <= now
  {
  }

  lemma ClaimKeeps(s: State, w: int)
    requires Inv(s) && Enabled(s, Claim(w))
    ensures Inv(Next(s, Claim(w)))
  {
    var job, now, t := s.workers[w].job, s.workers[w].phase.now, Next(s, Claim(w));
    if Claimable(s.jobs[job], now) {
      var entry := Claimed(job, w, now, s.workers[w].leaseMs);
      ExpiredLeasesPast(s.log, job, now);
      AppendKeepsSpaced(s.log, entry);
      AppendKeepsOpen(s.log, entry);
      ClaimedRowFollows(s, w);
    }
  }

  lemma ClaimedRowFollows(s: State, w: int)
    requires Inv(s) && Enabled(s, Claim(w)) && Claimable(s.jobs[s.workers[w].job], s.workers[w].phase.now)
    ensures RowsFollowLog(Next(s, Claim(w))) && LeaseMarked(Next(s, Claim(w)).jobs)
  {
    var t := Next(s, Claim(w));
    forall other ensures LeaseOf(t.log, other) == if other in t.jobs then t.jobs[other].leaseUntil else None {
      LastOfSnoc(s.log, Claimed(s.workers[w].job, w, s.workers[w].phase.now, s.workers[w].leaseMs), other);
    }
  }

  lemma RecordKeeps(s: State, w: int)
    requires Inv(s) && Enabled(s, Record(w))
    ensures Inv(Next(s, Record(w)))
  {
    var job, t := s.workers[w].job, Next(s, Record(w));
    var entry := Released(job, w);
    AppendKeepsSpaced(s.log, entry);
    AppendKeepsOpen(s.log, entry);
    forall other ensures LeaseOf(t.log, other) == if other in t.jobs then t.jobs[other].leaseUntil else None {
      LastOfSnoc(s.log, entry, other);
    }
  }

  lemma StepKeeps(s: State, event: Event)
    requires Inv(s) && Enabled(s, event)
    ensures Inv(Next(s, event))
  {
    match event
    case Claim(w) => ClaimKeeps(s, w);
    case Record(w) => RecordKeeps(s, w);
    case _ =>
  }

  lemma {:induction false} RunKeeps(s: State, events: seq<Event>)
    requires Initial(s) && Exec(s, events).Some?
    ensures Inv(Exec(s, events).value)
  {
    if events != [] {
      var before := events[..|events| - 1];
      RunKeeps(s, before);
      StepKeeps(Exec(s, before).value, events[|events| - 1]);
    }
  }

  /** In every run, whatever the workers and crashes, two claims of a job with no release between them are
      at least the first lease apart, and a job is marked running exactly while it carries a lease. */
  lemma ClaimsAreSpaced(s: State, events: seq<Event>)
    requires Initial(s) && Exec(s, events).Some?
    ensures var t := Exec(s, events).value;
            && LeaseMarked(t.jobs)
            && forall i, j :: 0 <= i < j < |t.log| && t.log[i].Claimed? && t.log[j].Claimed? && t.log[i].job == t.log[j].job
                              && !ReleasedBetween(t.log, i, j) ==>
                 t.log[j].at - t.log[i].at >= t.log[i].leaseMs
  {
    RunKeeps(s, events);
  }

  /** A worker between its claim and the write that records its end. */
  predicate Holding(s: State, w: int) {
    PhaseOf(s, w).Running? || PhaseOf(s, w).Ending?
  }

  /** No worker outlives its lease. */
  ghost predicate Timely(s: State) {
    forall w :: Holding(s, w) ==> s.clock < s.workers[w].phase.until
  }

  ghost predicate TimelyThroughout(s: State, events: seq<Event>) {
    forall n :: 0 <= n <= |events| ==> Exec(s, events[..n]).Some? && Timely(Exec(s, events[..n]).value)
  }

  /** Whoever holds a job holds the lease in its row, alone. */
  ghost predicate Exclusive(s: State) {
    && (forall w :: Holding(s, w) ==>
          s.workers[w].job in s.jobs && s.jobs[s.workers[w].job].leaseUntil == Some(s.workers[w].phase.until))
    && (forall w, v :: Holding(s, w) && Holding(s, v) && s.workers[w].job == s.workers[v].job ==> w == v)
  }

  lemma RecordExclusive(s: State, w: int)
    requires Exclusive(s) && Enabled(s, Record(w))
    ensures Exclusive(Next(s, Record(w)))
  {
    assert Holding(s, w);
    assert forall v :: Holding(Next(s, Record(w)), v) ==> Holding(s, v) && v != w;
  }

  /** Steps that touch no lease. */
  lemma QuietExclusive(s: State, event: Event)
    requires Exclusive(s) && Enabled(s, event) && !event.Claim? && !event.Record?
    ensures Exclusive(Next(s, event))
  {
    var t := Next(s, event);
    forall w | Holding(t, w)
      ensures Holding(s, w) && t.workers[w].job == s.workers[w].job && t.workers[w].phase.until == s.workers[w].phase.until
    {
    }
  }

  lemma StepExclusive(s: State, event: Event)
    requires Inv(s) && Exclusive(s) && Timely(s) && Enabled(s, event)
    ensures Exclusive(Next(s, event))
  {
    BrokenExactlyByTakeover(s, event);
  }

  /** If every worker records its end before its lease runs out, a job never has two at once. */
  lemma {:induction false} OneHandlerAtATime(s: State, events: seq<Event>)
    requires Initial(s) && TimelyThroughout(s, events)
    ensures Exec(s, events).Some? && Exclusive(Exec(s, events).value)
  {
    assert events[..|events|] == events;
    if events != [] {
      var n := |events| - 1;
      forall k | 0 <= k <= n ensures Exec(s, events[..n][..k]).Some? && Timely(Exec(s, events[..n][..k]).value) {
        assert events[..n][..k] == events[..k];
      }
      OneHandlerAtATime(s, events[..n]);
      RunKeeps(s, events[..n]);
      StepExclusive(Exec(s, events[..n]).value, events[n]);
    }
  }

  /** Three steps of one worker alone. */
  lemma ExecOne(s: State, events: seq<Event>, event: Event)
    requires Exec(s, events).Some? && Enabled(Exec(s, events).value, event)
    ensures Exec(s, events + [event]) == Some(Next(Exec(s, events).value, event))
  {
    assert (events + [event])[..|events|] == events;
  }

  /** Whoever held the job before, a worker that tries now gets it exactly when the lease has run out:
      a crashed holder blocks nobody after its lease, and an unexpired one blocks everybody. */
  lemma ExpiredLeaseIsTaken(s: State, w: int, job: JobName, leaseMs: nat)
    requires PhaseOf(s, w).Idle?
    ensures var t := Exec(s, [Start(w, job, leaseMs), EnsureRow(w), Claim(w)]);
            t.Some? && (Holding(t.value, w) <==> job !in s.jobs || Claimable(s.jobs[job], s.clock))
  {
    ExecOne(s, [], Start(w, job, leaseMs));
    ExecOne(s, [Start(w, job, leaseMs)], EnsureRow(w));
    ExecOne(s, [Start(w, job, leaseMs), EnsureRow(w)], Claim(w));
    assert [] + [Start(w, job, leaseMs)] == [Start(w, job, leaseMs)];
    assert [Start(w, job, leaseMs)] + [EnsureRow(w)] == [Start(w, job, leaseMs), EnsureRow(w)];
    assert [Start(w, job, leaseMs), EnsureRow(w)] + [Claim(w)] == [Start(w, job, leaseMs), EnsureRow(w), Claim(w)];
  }

  lemma Extend(s: State, events: seq<Event>, t: State, event: Event) returns (longer: seq<Event>, next: State)
    requires Exec(s, events) == Some(t) && Enabled(t, event)
    ensures longer == events + [event] && next == Next(t, event) && Exec(s, longer) == Some(next)
  {
    longer, next := events + [event], Next(t, event);
    ExecOne(s, events, event);
  }

  /** One worker reads the clock and claims a free job, undisturbed. */
  lemma Take(s: State, events: seq<Event>, t: State, w: int, job: JobName, leaseMs: nat)
    returns (longer: seq<Event>, next: State)
    requires Exec(s, events) == Some(t) && PhaseOf(t, w).Idle?
    requires job in t.jobs ==> Claimable(t.jobs[job], t.clock)
    ensures longer == events + [Start(w, job, leaseMs), EnsureRow(w), Claim(w)]
    ensures Exec(s, longer) == Some(next) && next.clock == t.clock
    ensures next.workers == t.workers[w := Worker(job, leaseMs, Running(t.clock + leaseMs))]
    ensures job in next.jobs && next.jobs[job].leaseUntil == Some(t.clock + leaseMs)
  {
    longer, next := ReadAndEnsure(s, events, t, w, job, leaseMs);
    longer, next := Extend(s, longer, next, Claim(w));
  }

  lemma ReadAndEnsure(s: State, events: seq<Event>, t: State, w: int, job: JobName, leaseMs: nat)
    returns (longer: seq<Event>, next: State)
    requires Exec(s, events) == Some(t) && PhaseOf(t, w).Idle?
    ensures longer == events + [Start(w, job, leaseMs), EnsureRow(w)]
    ensures Exec(s, longer) == Some(next)
    ensures next == t.(workers := t.workers[w := Worker(job, leaseMs, Rowed(t.clock))], jobs := WithRow(t.jobs, job))
  {
    var one, started := Extend(s, events, t, Start(w, job, leaseMs));
    assert started == t.(workers := t.workers[w := Worker(job, leaseMs, Starting(t.clock))]);
    longer, next := Extend(s, one, started, EnsureRow(w));
    assert longer == events + [Start(w, job, leaseMs), EnsureRow(w)];
  }

  /** Without that assumption the end of an overrun handler clears its successor's lease: two others then
      run at once although the successor's lease has not run out. */
  lemma OverrunAdmitsTwo(s: State, job: JobName) returns (events: seq<Event>, t: State)
    requires Initial(s)
    ensures Exec(s, events) == Some(t)
    ensures PhaseOf(t, 2).Running? && PhaseOf(t, 3).Running? && t.workers[2].job == t.workers[3].job == job
    ensures t.clock < t.workers[2].phase.until
  {
    events, t := Take(s, [], s, 1, job, 10);
    events, t := Extend(s, events, t, Tick(10));
    events, t := Take(s, events, t, 2, job, 10);
    events, t := Extend(s, events, t, HandlerEnds(1, None));
    events, t := Extend(s, events, t, Record(1));
    events, t := Take(s, events, t, 3, job, 10);
  }

  /** Over an exclusive state, another worker that tries now joins a holder exactly when the holder has overrun. */
  lemma OverrunIsJoined(s: State, w: int, v: int, leaseMs: nat)
    requires Exclusive(s) && Holding(s, w) && PhaseOf(s, v).Idle?
    ensures var job := s.workers[w].job;
            var t := Exec(s, [Start(v, job, leaseMs), EnsureRow(v), Claim(v)]);
            t.Some? && ((Holding(t.value, w) && Holding(t.value, v) && t.value.workers[w].job == t.value.workers[v].job)
                        <==> s.workers[w].phase.until <= s.clock)
  {
    var job := s.workers[w].job;
    var t1 := Next(s, Start(v, job, leaseMs));
    var t2 := Next(t1, EnsureRow(v));
    var t3 := Next(t2, Claim(v));
    var events, t := Extend(s, [], s, Start(v, job, leaseMs));
    events, t := Extend(s, events, t, EnsureRow(v));
    events, t := Extend(s, events, t, Claim(v));
    assert events == [Start(v, job, leaseMs), EnsureRow(v), Claim(v)];
  }

  /** The claim takes a job whose holder has overrun. */
  ghost predicate TakesOver(s: State, event: Event) {
    && event.Claim? && Enabled(s, event)
    && exists v :: Holding(s, v) && s.workers[v].job == s.workers[event.worker].job
                   && s.workers[v].phase.until <= s.workers[event.worker].phase.now
  }

  /** From an exclusive state a step breaks exclusion exactly by taking over from an overrun holder. */
  lemma BrokenExactlyByTakeover(s: State, event: Event)
    requires Exclusive(s) && Enabled(s, event)
    ensures Exclusive(Next(s, event)) <==> !TakesOver(s, event)
  {
    match event
    case Claim(w) => ClaimTakesOver(s, w);
    case Record(w) => RecordExclusive(s, w);
    case _ => QuietExclusive(s, event);
  }

  lemma ClaimTakesOver(s: State, w: int)
    requires Exclusive(s) && Enabled(s, Claim(w))
    ensures Exclusive(Next(s, Claim(w))) <==> !TakesOver(s, Claim(w))
  {
    var job, now, t := s.workers[w].job, s.workers[w].phase.now, Next(s, Claim(w));
    if v :| Holding(s, v) && s.workers[v].job == job && s.workers[v].phase.until <= now {
      assert Holding(t, v) && Holding(t, w) && v != w;
    } else if Claimable(s.jobs[job], now) {
      assert forall v :: Holding(s, v) ==> s.workers[v].job != job;
    }
  }

  /** A job has at most one holder. */
  ghost predicate Alone(s: State) {
    forall w, v :: Holding(s, w) && Holding(s, v) && s.workers[w].job == s.workers[v].job ==> w == v
  }

  ghost predicate AloneAt(s: State, events: seq<Event>, n: nat) {
    n <= |events| && Exec(s, events[..n]).Some? && Alone(Exec(s, events[..n]).value)
  }

  ghost predicate TakeoverAt(s: State, events: seq<Event>, n: nat) {
    n < |events| && Exec(s, events[..n]).Some? && TakesOver(Exec(s, events[..n]).value, events[n])
  }

  lemma TakeoverDoubles(s: State, event: Event)
    requires Exclusive(s) && TakesOver(s, event)
    ensures !Alone(Next(s, event))
  {
    var w, t := event.worker, Next(s, event);
    var v :| Holding(s, v) && s.workers[v].job == s.workers[w].job && s.workers[v].phase.until <= s.workers[w].phase.now;
    assert Holding(t, v) && Holding(t, w) && v != w;
  }

  lemma {:induction false} EarlierStates(s: State, events: seq<Event>, n: nat)
    requires Exec(s, events).Some? && n <= |events|
    ensures Exec(s, events[..n]).Some?
    ensures n < |events| ==>
              && Enabled(Exec(s, events[..n]).value, events[n])
              && Exec(s, events[..n + 1]) == Some(Next(Exec(s, events[..n]).value, events[n]))
  {
    if n < |events| {
      var shorter := events[..|events| - 1];
      assert events[..|events|] == events;
      assert events[..n + 1][..n] == events[..n];
      if n < |shorter| {
        EarlierStates(s, shorter, n);
        assert shorter[..n] == events[..n] && shorter[..n + 1] == events[..n + 1];
      }
    } else {
      assert events[..n] == events;
    }
  }

  /** Without a takeover so far, and none next, the run stays exclusive. */
  lemma {:induction false} ExclusiveSoFar(s: State, events: seq<Event>, n: nat)
    requires Initial(s) && Exec(s, events).Some? && n <= |events|
    requires forall k :: 0 <= k < n ==> !TakeoverAt(s, events, k)
    ensures Exec(s, events[..n]).Some? && Exclusive(Exec(s, events[..n]).value)
  {
    EarlierStates(s, events, n);
    if n > 0 {
      ExclusiveSoFar(s, events, n - 1);
      EarlierStates(s, events, n - 1);
      assert !TakeoverAt(s, events, n - 1);
      BrokenExactlyByTakeover(Exec(s, events[..n - 1]).value, events[n - 1]);
    }
  }

  /** Along a run a job never has two holders exactly when no claim in it takes over from a holder whose lease had
      run out by the claimer's reading. */
  lemma NeverTwoExactly(s: State, events: seq<Event>)
    requires Initial(s) && Exec(s, events).Some?
    ensures (forall n :: 0 <= n <= |events| ==> AloneAt(s, events, n)) <==> (forall n :: 0 <= n < |events| ==> !TakeoverAt(s, events, n))
  {
    if forall n :: 0 <= n < |events| ==> !TakeoverAt(s, events, n) {
      forall n | 0 <= n <= |events| ensures AloneAt(s, events, n) {
        ExclusiveSoFar(s, events, n);
      }
    } else {
      var n :| 0 <= n < |events| && TakeoverAt(s, events, n);
      FirstTakeover(s, events, n);
    }
  }

  lemma {:induction false} FirstTakeover(s: State, events: seq<Event>, n: nat)
    requires Initial(s) && Exec(s, events).Some? && n < |events| && TakeoverAt(s, events, n)
    ensures exists k :: 0 <= k <= |events| && !AloneAt(s, events, k)
  {
    if k :| 0 <= k < n && TakeoverAt(s, events, k) {
      FirstTakeover(s, events, k);
    } else {
      ExclusiveSoFar(s, events, n);
      EarlierStates(s, events, n);
      TakeoverDoubles(Exec(s, events[..n]).value, events[n]);
      assert !AloneAt(s, events, n + 1);
    }
  }

  /** Between its clock reading and its claim. */
  predicate Pending(s: State, w: int) {
    PhaseOf(s, w).Starting? || PhaseOf(s, w).Rowed?
  }

  /** A lease in force that nobody can release: a crashed holder's. */
  ghost predicate Blocked(s: State, job: JobName) {
    && job in s.jobs && s.jobs[job].leaseUntil.Some? && s.jobs[job].leaseUntil.value > s.clock
    && forall w :: Holding(s, w) ==> s.workers[w].job != job
  }

  /** The lease it would get has already run out. */
  predicate Late(s: State, w: int) {
    Pending(s, w) && s.workers[w].phase.now + s.workers[w].leaseMs <= s.clock
  }

  /** A lease has been overrun, or will be the moment it is claimed. */
  ghost predicate Overrun(s: State) {
    || (exists w :: Holding(s, w) && s.workers[w].phase.until <= s.clock)
    || (exists w :: Late(s, w) && !Blocked(s, s.workers[w].job))
  }

  /** No time passes and every lease asked for is longer than none. */
  predicate Prompt(event: Event) {
    !event.Tick? && (event.Start? ==> event.leaseMs > 0)
  }

  ghost predicate AllPrompt(events: seq<Event>) {
    forall i :: 0 <= i < |events| ==> Prompt(events[i])
  }

  /** A state from which exclusion cannot break before time passes. */
  ghost predicate Safe(s: State) {
    Inv(s) && Exclusive(s) && !Overrun(s)
  }

  lemma PromptKeepsInTime(s: State, event: Event, w: int)
    requires Inv(s) && Exclusive(s) && !Overrun(s) && Enabled(s, event) && Prompt(event)
    ensures Holding(Next(s, event), w) ==> Next(s, event).workers[w].phase.until > Next(s, event).clock
  {
    if event.Claim? && event.worker == w {
      var job := s.workers[w].job;
      assert Late(s, w) ==> Blocked(s, job);
    } else {
      assert Holding(Next(s, event), w) ==> Holding(s, w);
    }
  }

  /** A job that is blocked stays so until time passes. */
  lemma PromptKeepsBlocked(s: State, event: Event, job: JobName)
    requires Inv(s) && Enabled(s, event) && Prompt(event) && Blocked(s, job)
    ensures Blocked(Next(s, event), job)
  {
    match event
    case Claim(w) => ClaimKeepsBlocked(s, w, job);
    case Record(w) => RecordKeepsBlocked(s, w, job);
    case _ => QuietKeepsBlocked(s, event, job);
  }

  lemma ClaimKeepsBlocked(s: State, w: int, job: JobName)
    requires Inv(s) && Enabled(s, Claim(w)) && Blocked(s, job)
    ensures Blocked(Next(s, Claim(w)), job)
  {
    assert s.workers[w].job == job ==> !Claimable(s.jobs[job], s.workers[w].phase.now);
  }

  lemma RecordKeepsBlocked(s: State, w: int, job: JobName)
    requires Enabled(s, Record(w)) && Blocked(s, job)
    ensures Blocked(Next(s, Record(w)), job)
  {
    assert Holding(s, w);
  }

  lemma QuietKeepsBlocked(s: State, event: Event, job: JobName)
    requires Enabled(s, event) && !event.Claim? && !event.Record? && !event.Tick? && Blocked(s, job)
    ensures Blocked(Next(s, event), job)
  {
    var t := Next(s, event);
    forall w | Holding(t, w) ensures t.workers[w].job != job {
      assert Holding(s, w);
    }
  }

  lemma PromptKeepsLate(s: State, event: Event, w: int)
    requires Inv(s) && Enabled(s, event) && Prompt(event) && Late(Next(s, event), w)
    ensures Late(s, w) && s.workers[w].job == Next(s, event).workers[w].job
  {
  }

  lemma PromptKeepsSafe(s: State, event: Event)
    requires Safe(s) && Enabled(s, event) && Prompt(event)
    ensures Safe(Next(s, event))
  {
    var t := Next(s, event);
    StepKeeps(s, event);
    assert Timely(s);
    StepExclusive(s, event);
    forall w | Holding(t, w) ensures t.workers[w].phase.until > t.clock {
      PromptKeepsInTime(s, event, w);
    }
    forall w | Late(t, w) ensures Blocked(t, t.workers[w].job) {
      PromptKeepsLate(s, event, w);
      PromptKeepsBlocked(s, event, s.workers[w].job);
    }
  }

  lemma {:induction false} PromptRunsSafe(s: State, events: seq<Event>)
    requires Safe(s) && AllPrompt(events) && Exec(s, events).Some?
    ensures Safe(Exec(s, events).value)
  {
    if events != [] {
      var before := events[..|events| - 1];
      PromptRunsSafe(s, before);
      PromptKeepsSafe(Exec(s, before).value, events[|events| - 1]);
    }
  }

  lemma Unused(ids: set<int>) returns (id: int)
    ensures id !in ids && forall other :: other in ids ==> other < id
  {
    if one :| one in ids {
      id := Unused(ids - {one});
      assert forall other :: other in ids ==> other == one || other in ids - {one};
      if id <= one {
        id := one + 1;
      }
    } else {
      id := 0;
    }
  }

  ghost predicate PendingStay(s: State, t: State) {
    forall w :: Pending(s, w) ==> w in t.workers && t.workers[w] == s.workers[w]
  }

  /** A holder ends and records its end at once. */
  lemma Release(s: State, events: seq<Event>, t: State, w: int) returns (longer: seq<Event>, next: State)
    requires Exec(s, events) == Some(t) && Holding(t, w) && t.workers[w].job in t.jobs && AllPrompt(events)
    ensures Exec(s, longer) == Some(next) && AllPrompt(longer) && next.clock == t.clock
    ensures next.workers == t.workers[w := t.workers[w].(phase := Idle)]
    ensures t.workers[w].job in next.jobs && next.jobs[t.workers[w].job].leaseUntil == None
  {
    longer, next := events, t;
    if PhaseOf(t, w).Running? {
      longer, next := Extend(s, longer, next, HandlerEnds(w, None));
    }
    longer, next := Extend(s, longer, next, Record(w));
  }

  /** A job that is not blocked can be freed at once, with the pending workers left where they are. */
  lemma FreeJob(s: State, job: JobName, v: int) returns (events: seq<Event>, t: State)
    requires Exclusive(s) && PhaseOf(s, v).Idle? && !Blocked(s, job)
    ensures Exec(s, events) == Some(t) && AllPrompt(events)
    ensures job in t.jobs && t.jobs[job].leaseUntil == None && t.clock == s.clock && PhaseOf(t, v).Idle?
    ensures PendingStay(s, t)
  {
    if u :| Holding(s, u) && s.workers[u].job == job {
      events, t := Release(s, [], s, u);
    } else {
      events, t := Take(s, [], s, v, job, 1);
      events, t := Release(s, events, t, v);
    }
  }

  /** A late claim of a free job, and at once another worker's. */
  lemma ClaimLate(s: State, w: int, v: int) returns (events: seq<Event>, t: State)
    requires Late(s, w) && PhaseOf(s, v).Idle?
    requires s.workers[w].job in s.jobs && s.jobs[s.workers[w].job].leaseUntil == None
    ensures Exec(s, events) == Some(t) && AllPrompt(events) && !Alone(t)
  {
    events, t := [], s;
    if PhaseOf(s, w).Starting? {
      events, t := Extend(s, events, t, EnsureRow(w));
    }
    events, t := Extend(s, events, t, Claim(w));
    events, t := Take(s, events, t, v, s.workers[w].job, 1);
    assert Holding(t, w) && Holding(t, v) && w != v;
  }

  lemma {:induction false} ExecInTwo(s: State, events: seq<Event>, t: State, more: seq<Event>)
    requires Exec(s, events) == Some(t)
    ensures Exec(s, events + more) == Exec(t, more)
  {
    if more == [] {
      assert events + more == events;
    } else {
      var before := more[..|more| - 1];
      ExecInTwo(s, events, t, before);
      assert (events + more)[..|events + more| - 1] == events + before;
    }
  }

  lemma OverrunDoubles(s: State) returns (events: seq<Event>, t: State)
    requires Exclusive(s) && Overrun(s)
    ensures Exec(s, events) == Some(t) && AllPrompt(events) && !Alone(t)
  {
    var v := Unused(s.workers.Keys);
    if w :| Holding(s, w) && s.workers[w].phase.until <= s.clock {
      events, t := Take(s, [], s, v, s.workers[w].job, 1);
      assert Holding(t, w) && Holding(t, v) && w != v;
    } else {
      var w :| Late(s, w) && !Blocked(s, s.workers[w].job);
      var freed;
      events, freed := FreeJob(s, s.workers[w].job, v);
      var more;
      more, t := ClaimLate(freed, w, v);
      ExecInTwo(s, events, freed, more);
      events := events + more;
    }
  }

  /** From an exclusive state of a run, a job can get two holders before any time passes exactly when a lease has
      been overrun, or a worker is about to claim one that has already run out. */
  lemma DoubledExactlyWhenOverrun(start: State, run: seq<Event>, s: State)
    requires Initial(start) && Exec(start, run) == Some(s) && Exclusive(s)
    ensures (exists more :: AllPrompt(more) && Exec(s, more).Some? && !Alone(Exec(s, more).value)) <==> Overrun(s)
  {
    RunKeeps(start, run);
    if Overrun(s) {
      var more, t := OverrunDoubles(s);
    } else {
      forall more | AllPrompt(more) && Exec(s, more).Some? ensures Alone(Exec(s, more).value) {
        PromptRunsSafe(s, more);
      }
    }
  }
}
