/** The stored job rows and the operations on them (sync-state.service.ts). */
module SyncState {
  import opened Basics

  /** The jobs by the names the service gives them, and any other. */
  datatype JobName =
    | BOOTSTRAP | REQUEST_ROWS | WHISPARR_QUEUE | WHISPARR_MOVIES | LIBRARY_PROJECTION | STASH_AVAILABILITY
    | METADATA_BACKFILL | OtherJob(name: string)

  datatype JobStatus = IDLE | RUNNING | SUCCEEDED | FAILED

  datatype JobRow = JobRow(
    status: JobStatus,
    startedAt: Option<int>,
    finishedAt: Option<int>,
    leaseUntil: Option<int>,
    cursor: Option<string>,
    lastError: Option<string>,
    lastSuccessAt: Option<int>,
    lastDurationMs: Option<int>,
    lastProcessedCount: Option<int>,
    lastUpdatedCount: Option<int>,
    lastRunReason: Option<string>)

  type Jobs = map<JobName, JobRow>

  const NEW_ROW := JobRow(IDLE, None, None, None, None, None, None, None, None, None, None)

  /** The success fields; `None` is `undefined`, `Some(None)` is `null`. */
  datatype SuccessInput = SuccessInput(
    cursor: Option<Option<string>>,
    processedCount: Option<Option<int>>,
    updatedCount: Option<Option<int>>,
    durationMs: Option<Option<int>>,
    runReason: Option<Option<string>>)

  function Or<T>(given: Option<T>, existing: T): T {
    if given.Some? then given.value else existing
  }

  function WithRow(jobs: Jobs, job: JobName): Jobs {
    if job in jobs then jobs else jobs[job := NEW_ROW]
  }

  predicate Claimable(row: JobRow, now: int) {
    row.leaseUntil.None? || row.leaseUntil.value <= now
  }

  function ClaimedRow(row: JobRow, now: int, leaseMs: nat): JobRow {
    row.(status := RUNNING, startedAt := Some(now), finishedAt := None, leaseUntil := Some(now + leaseMs), lastError := None)
  }

  function SucceededRow(existing: Option<JobRow>, input: SuccessInput, now: int): JobRow {
    var row := if existing.Some? then existing.value else NEW_ROW;
    row.(
      status := SUCCEEDED, finishedAt := Some(now), leaseUntil := None, lastSuccessAt := Some(now), lastError := None,
      cursor := Or(input.cursor, row.cursor),
      lastProcessedCount := Or(input.processedCount, row.lastProcessedCount),
      lastUpdatedCount := Or(input.updatedCount, row.lastUpdatedCount),
      lastDurationMs := Or(input.durationMs, row.lastDurationMs),
      lastRunReason := Or(input.runReason, row.lastRunReason))
  }

  function FailedRow(row: JobRow, error: string, now: int): JobRow {
    row.(status := FAILED, finishedAt := Some(now), leaseUntil := None, lastError := Some(error))
  }

  /** What a recorded success stores: each field given under its own name, the end, no lease and no error. */
  predicate SuccessStored(input: SuccessInput, before: JobRow, now: int, after: JobRow) {
    && after.status == SUCCEEDED && after.finishedAt == Some(now) && after.lastSuccessAt == Some(now)
    && after.leaseUntil == None && after.lastError == None && after.startedAt == before.startedAt
    && after.cursor == (if input.cursor.Some? then input.cursor.value else before.cursor)
    && after.lastProcessedCount == (if input.processedCount.Some? then input.processedCount.value else before.lastProcessedCount)
    && after.lastUpdatedCount == (if input.updatedCount.Some? then input.updatedCount.value else before.lastUpdatedCount)
    && after.lastDurationMs == (if input.durationMs.Some? then input.durationMs.value else before.lastDurationMs)
    && after.lastRunReason == (if input.runReason.Some? then input.runReason.value else before.lastRunReason)
  }

  /** What a failure stores: the end, its message and no lease; what is known of the last success stays. */
  predicate FailureStored(before: JobRow, error: string, now: int, after: JobRow) {
    && after.status == FAILED && after.finishedAt == Some(now) && after.lastError == Some(error) && after.leaseUntil == None
    && after.startedAt == before.startedAt && after.lastSuccessAt == before.lastSuccessAt && after.cursor == before.cursor
    && after.lastProcessedCount == before.lastProcessedCount && after.lastUpdatedCount == before.lastUpdatedCount
    && after.lastDurationMs == before.lastDurationMs && after.lastRunReason == before.lastRunReason
  }

  /** What a claim stores: a run begun now, leased for the given time, with no end and no error; the rest stays. */
  predicate ClaimStored(before: JobRow, now: int, leaseMs: nat, after: JobRow) {
    && after.status == RUNNING && after.startedAt == Some(now) && after.leaseUntil == Some(now + leaseMs)
    && after.finishedAt == None && after.lastError == None
    && after.lastSuccessAt == before.lastSuccessAt && after.cursor == before.cursor
    && after.lastProcessedCount == before.lastProcessedCount && after.lastUpdatedCount == before.lastUpdatedCount
    && after.lastDurationMs == before.lastDurationMs && after.lastRunReason == before.lastRunReason
  }

  /** The row a job has, or the one it starts with: idle, and nothing known. */
  predicate RowBefore(jobs: Jobs, job: JobName, row: JobRow) {
    if job in jobs then row == jobs[job]
    else
      && row.status == IDLE && row.startedAt == None && row.finishedAt == None && row.leaseUntil == None
      && row.cursor == None && row.lastError == None && row.lastSuccessAt == None && row.lastDurationMs == None
      && row.lastProcessedCount == None && row.lastUpdatedCount == None && row.lastRunReason == None
  }

  /** The row at the end of a run. */
  function EndedRow(row: JobRow, handler: Answer<SuccessInput>, recordThrows: bool, now: int): JobRow {
    if handler.Answered? && !recordThrows then SucceededRow(Some(row), handler.value, now)
    else FailedRow(row, "Unknown error", now)
  }

  /** A row is marked running exactly while it carries a lease. */
  ghost predicate LeaseMarked(jobs: Jobs) {
    forall job :: job in jobs ==> (jobs[job].status == RUNNING <==> jobs[job].leaseUntil.Some?)
  }

  class SyncStateService {
    var jobs: Jobs

    method TryAcquireLease(job: JobName, leaseMs: nat, now: int) returns (lease: Option<JobRow>)
      modifies this
      ensures var row := if job in old(jobs) then old(jobs)[job] else NEW_ROW;
              if Claimable(row, now) then
                lease == Some(ClaimedRow(row, now, leaseMs)) && jobs == old(jobs)[job := ClaimedRow(row, now, leaseMs)]
              else lease == None && jobs == old(jobs)
      ensures lease.Some? ==> exists before :: RowBefore(old(jobs), job, before) && ClaimStored(before, now, leaseMs, lease.value)
      ensures LeaseMarked(old(jobs)) ==> LeaseMarked(jobs)
    {
      jobs := WithRow(jobs, job);
      if !Claimable(jobs[job], now) {
        return None;
      }
      ghost var before := jobs[job];
      jobs := jobs[job := ClaimedRow(jobs[job], now, leaseMs)];
      assert RowBefore(old(jobs), job, before) && ClaimStored(before, now, leaseMs, jobs[job]);
      return Some(jobs[job]);
    }

    method RecordSuccess(job: JobName, input: SuccessInput, now: int)
      modifies this
      ensures jobs == old(jobs)[job := SucceededRow(Lookup(old(jobs), job), input, now)]
      ensures exists before :: RowBefore(old(jobs), job, before) && SuccessStored(input, before, now, jobs[job])
      ensures LeaseMarked(old(jobs)) ==> LeaseMarked(jobs)
    {
      ghost var before := if job in jobs then jobs[job] else NEW_ROW;
      jobs := jobs[job := SucceededRow(Lookup(jobs, job), input, now)];
      assert RowBefore(old(jobs), job, before) && SuccessStored(input, before, now, jobs[job]);
    }

    /** Throws when the job has no row. */
    method MarkFailure(job: JobName, error: string, now: int) returns (ok: bool)
      modifies this
      ensures ok <==> job in old(jobs)
      ensures jobs == if ok then old(jobs)[job := FailedRow(old(jobs)[job], error, now)] else old(jobs)
      ensures ok ==> FailureStored(old(jobs)[job], error, now, jobs[job])
      ensures LeaseMarked(old(jobs)) ==> LeaseMarked(jobs)
    {
      ok := job in jobs;
      if ok {
        jobs := jobs[job := FailedRow(jobs[job], error, now)];
      }
    }

    /** One run that nothing interrupts. The handler returns its success fields or throws, and recording a success
        may throw; either is a failure. */
    method RunWithLease(
      job: JobName, leaseMs: nat, handler: Answer<SuccessInput>, recordThrows: bool, startedAt: int, endedAt: int)
      returns (ran: bool)
      modifies this
      ensures ran <==> job !in old(jobs) || Claimable(old(jobs)[job], startedAt)
      ensures !ran ==> jobs == old(jobs)
      ensures ran ==> job in jobs && jobs[job].leaseUntil == None && jobs[job].startedAt == Some(startedAt)
                      && jobs[job].status == (if handler.Answered? && !recordThrows then SUCCEEDED else FAILED)
      ensures ran && (handler.Threw? || recordThrows) && job in old(jobs) ==> jobs[job].cursor == old(jobs)[job].cursor
      ensures ran && handler.Answered? && !recordThrows && handler.value.cursor.Some? ==>
                jobs[job].cursor == handler.value.cursor.value
      ensures LeaseMarked(old(jobs)) ==> LeaseMarked(jobs)
    {
      var lease := TryAcquireLease(job, leaseMs, startedAt);
      if lease.None? {
        return false;
      }
      EndRun(job, handler, recordThrows, endedAt);
      return true;
    }

    /** The end of a run that holds the lease. */
    method EndRun(job: JobName, handler: Answer<SuccessInput>, recordThrows: bool, endedAt: int)
      requires job in jobs
      modifies this
      ensures jobs == old(jobs)[job := EndedRow(old(jobs)[job], handler, recordThrows, endedAt)]
      ensures LeaseMarked(old(jobs)) ==> LeaseMarked(jobs)
    {
      if handler.Answered? && !recordThrows {
        RecordSuccess(job, handler.value, endedAt);
      } else {
        var _ := MarkFailure(job, "Unknown error", endedAt);
      }
    }
  }
}
