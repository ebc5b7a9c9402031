/** The ingestion job row and what each service operation does to one row. */
module IngestionRows {
  import opened Common
  import opened IngestionStates

  type JobId = nat
  type Sha = nat
  type Key = nat
  type CandidateId = nat

  /** A row of `ingestion_jobs`. Instants are whole seconds; `updatedAt` is the database's clock. */
  datatype Job = Job(
    state: IngestionState,
    sha: Sha,
    key: Key,
    candidate: Option<CandidateId>,
    score: Option<nat>,
    attempts: nat,
    lease: Option<int>,
    error: Option<string>,
    updatedAt: int)

  /** The row a won insert creates. */
  function NewJob(sha: Sha, key: Key, dbNow: int): Job {
    Job(Queued, sha, key, None, None, 0, None, None, dbNow)
  }

  /** A claim moves a queued row into its first processing state under a fresh lease. */
  function ClaimRow(job: Job, now: int, leaseSeconds: nat, dbNow: int): Job
    requires job.state == Queued
  {
    job.(state := Parsing, attempts := job.attempts + 1, lease := Some(now + leaseSeconds), updatedAt := dbNow)
  }

  /**
   The update a `transition` issues. The table decides from the caller's cached state,
   and the statement writes the target whatever the row holds by then.
   */
  function MoveRow(row: Job, target: IngestionState, error: Option<string>, dbNow: int): Job {
    row.(
      state := target,
      error := error.Or(row.error),
      lease := if IsProcessing(target) then row.lease else None,
      updatedAt := dbNow)
  }

  predicate LeaseExpired(job: Job, now: int) {
    IsProcessing(job.state) && job.lease.Some? && job.lease.value < now
  }

  /** Sweep step 1: a row whose lease ran out is taken from its presumed-dead worker. */
  function ReclaimRow(job: Job, now: int, dbNow: int): Job {
    if LeaseExpired(job, now)
    then job.(state := RetryableFailed, lease := None, updatedAt := dbNow)
    else job
  }

  /** Sweep steps 2 and 3: a failed row is queued again or given up. */
  function ResolveRow(job: Job, maxAttempts: nat, dbNow: int): Job {
    if job.state != RetryableFailed then job
    else if job.attempts >= maxAttempts then job.(state := TerminalFailed, updatedAt := dbNow)
    else job.(state := Queued, updatedAt := dbNow)
  }

  /** Sweep step 4: a queued row nobody has touched for too long. */
  predicate Stranded(job: Job, cutoff: int) {
    job.state == Queued && job.lease.None? && job.updatedAt < cutoff
  }

  /** One sweep over one row; a skipped row was locked by another transaction at that step. */
  function SweepRow(job: Job, now: int, maxAttempts: nat, dbNow: int, skipReclaim: bool, skipResolve: bool): Job {
    var reclaimed := if skipReclaim then job else ReclaimRow(job, now, dbNow);
    if skipResolve then reclaimed else ResolveRow(reclaimed, maxAttempts, dbNow)
  }

  /** What every committed row satisfies once `maxAttempts` is at least one. */
  predicate RowOk(job: Job, maxAttempts: nat) {
    && (job.lease.Some? <==> IsProcessing(job.state))
    && (job.state == Queued ==> job.attempts < maxAttempts)
    && job.attempts <= maxAttempts
  }

  /** The lexicographic measure (attempts left, stage) folded into one number. */
  function Rank(job: Job, maxAttempts: nat): nat
    requires job.attempts <= maxAttempts
  {
    7 * (maxAttempts - job.attempts) + Stage(job.state)
  }

  lemma {:induction false} ClaimLowersRank(job: Job, now: int, leaseSeconds: nat, dbNow: int, maxAttempts: nat)
    requires RowOk(job, maxAttempts) && job.state == Queued
    ensures var claimed := ClaimRow(job, now, leaseSeconds, dbNow);
            RowOk(claimed, maxAttempts) && Rank(claimed, maxAttempts) < Rank(job, maxAttempts)
  {
  }

  lemma {:induction false} MoveLowersRank(row: Job, target: IngestionState, error: Option<string>, dbNow: int, maxAttempts: nat)
    requires RowOk(row, maxAttempts) && IsProcessing(row.state) && target in Allowed(row.state)
    ensures var moved := MoveRow(row, target, error, dbNow);
            RowOk(moved, maxAttempts) && Rank(moved, maxAttempts) < Rank(row, maxAttempts)
  {
  }

  lemma {:induction false} SweepLowersRank(
    job: Job, now: int, maxAttempts: nat, dbNow: int, skipReclaim: bool, skipResolve: bool)
    requires RowOk(job, maxAttempts)
    ensures var swept := SweepRow(job, now, maxAttempts, dbNow, skipReclaim, skipResolve);
            && RowOk(swept, maxAttempts)
            && (swept == job || Rank(swept, maxAttempts) < Rank(job, maxAttempts))
            && (swept.state == job.state ==> swept == job)
  {
  }
}
