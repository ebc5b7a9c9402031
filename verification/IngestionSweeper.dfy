/** The job table with its claim, creation and sweep, each proved against the row specification. */
module IngestionSweeper {
  import opened Common
  import Sorting
  import opened IngestionStates
  import opened IngestionRows
  import opened IngestionProtocol

  datatype SweepReport = SweepReport(reclaimed: nat, requeued: seq<JobId>, terminated: nat)

  /** The ids a `SELECT ... SKIP LOCKED` returns, in the table's own order. */
  function Select(ids: seq<JobId>, rows: map<JobId, Job>, wanted: Job -> bool, locked: set<JobId>): seq<JobId> {
    if ids == [] then []
    else
      var last := ids[|ids| - 1];
      Select(ids[..|ids| - 1], rows, wanted, locked)
      + (if last in rows && last !in locked && wanted(rows[last]) then [last] else [])
  }

  lemma {:induction false} SelectMembers(
    ids: seq<JobId>, rows: map<JobId, Job>, wanted: Job -> bool, locked: set<JobId>, id: JobId)
    ensures id in Select(ids, rows, wanted, locked)
            <==> id in ids && id in rows && id !in locked && wanted(rows[id])
  {
    if ids != [] {
      SelectMembers(ids[..|ids| - 1], rows, wanted, locked, id);
      assert ids == ids[..|ids| - 1] + [ids[|ids| - 1]];
    }
  }

  lemma {:induction false} SelectDistinct(
    ids: seq<JobId>, rows: map<JobId, Job>, wanted: Job -> bool, locked: set<JobId>)
    requires Sorting.Distinct(ids)
    ensures Sorting.Distinct(Select(ids, rows, wanted, locked))
  {
    if ids != [] {
      var earlier := ids[..|ids| - 1];
      SelectDistinct(earlier, rows, wanted, locked);
      SelectMembers(earlier, rows, wanted, locked, ids[|ids| - 1]);
    }
  }

  /** Over distinct ids, a selection is as long as the set it selects. */
  lemma {:induction false} SelectCount(
    ids: seq<JobId>, rows: map<JobId, Job>, wanted: Job -> bool, locked: set<JobId>, selected: set<JobId>)
    requires Sorting.Distinct(ids)
    requires forall id :: id in selected <==> id in ids && id in rows && id !in locked && wanted(rows[id])
    ensures |Select(ids, rows, wanted, locked)| == |selected|
  {
    if ids == [] {
      assert selected == {};
    } else {
      var n := |ids| - 1;
      assert ids == ids[..n] + [ids[n]];
      SelectCount(ids[..n], rows, wanted, locked, selected - {ids[n]});
      if ids[n] in selected {
        assert |selected| == |selected - {ids[n]}| + 1;
      } else {
        assert selected - {ids[n]} == selected;
      }
    }
  }

  function Expired(now: int): Job -> bool {
    (job: Job) => LeaseExpired(job, now)
  }

  function Retryable(maxAttempts: nat): Job -> bool {
    (job: Job) => job.state == RetryableFailed && job.attempts < maxAttempts
  }

  function Exhausted(maxAttempts: nat): Job -> bool {
    (job: Job) => job.state == RetryableFailed && job.attempts >= maxAttempts
  }

  function StrandedBefore(cutoff: int): Job -> bool {
    (job: Job) => Stranded(job, cutoff)
  }

  /** Ids of one round of a sweep, and the locks other transactions hold at each of its queries. */
  datatype Locks = Locks(reclaim: set<JobId>, resolve: set<JobId>, rescan: set<JobId>)

  const UNLOCKED := Locks({}, {}, {})

  function Reclaimed(rows: map<JobId, Job>, now: int, dbNow: int, locked: set<JobId>): map<JobId, Job> {
    map id | id in rows :: if id in locked then rows[id] else ReclaimRow(rows[id], now, dbNow)
  }

  /** What a sweep reports, as queries over the table before and after its steps. */
  function Report(
    ids: seq<JobId>, rows: map<JobId, Job>, now: int, maxAttempts: nat, stale: int, dbNow: int, locks: Locks)
    : SweepReport
  {
    var reclaimed := Reclaimed(rows, now, dbNow, locks.reclaim);
    var swept := SweepJobs(rows, now, maxAttempts, dbNow, locks.reclaim, locks.resolve);
    SweepReport(
      |Select(ids, rows, Expired(now), locks.reclaim)|,
      Select(ids, reclaimed, Retryable(maxAttempts), locks.resolve)
      + Select(ids, swept, StrandedBefore(now - stale), locks.rescan),
      |Select(ids, reclaimed, Exhausted(maxAttempts), locks.resolve)|)
  }

  /** Reclaiming every row and then resolving every row is sweeping every row. */
  lemma {:induction false} SweepInTwo(
    before: map<JobId, Job>, after: map<JobId, Job>, now: int, maxAttempts: nat, dbNow: int, locks: Locks)
    requires after == map id | id in Reclaimed(before, now, dbNow, locks.reclaim) ::
                        if id in locks.resolve then Reclaimed(before, now, dbNow, locks.reclaim)[id]
                        else ResolveRow(Reclaimed(before, now, dbNow, locks.reclaim)[id], maxAttempts, dbNow)
    ensures after == SweepJobs(before, now, maxAttempts, dbNow, locks.reclaim, locks.resolve)
  {
  }

  // ----- what a sweep achieves -----

  /**
   What a sweep does to one row, in its fields: a processing row whose lease ran out is taken, a
   failed row is resolved by its attempts, a row another transaction locks at a step misses that
   step, and every other row stays as it is.
   */
  lemma {:induction false} SweptRow(
    rows: map<JobId, Job>, now: int, maxAttempts: nat, dbNow: int, locks: Locks, id: JobId)
    requires id in rows
    ensures var swept := SweepJobs(rows, now, maxAttempts, dbNow, locks.reclaim, locks.resolve);
            var row := rows[id];
            var taken := && id !in locks.reclaim
                         && row.state in {Parsing, IngestionState.Extracting, IngestionState.Scoring}
                         && row.lease.Some? && row.lease.value < now;
            var failed := taken || row.state == RetryableFailed;
            && swept.Keys == rows.Keys
            && (failed && id !in locks.resolve ==>
                  swept[id] == row.(state := if row.attempts < maxAttempts then Queued else TerminalFailed,
                                    lease := if taken then None else row.lease, updatedAt := dbNow))
            && (taken && id in locks.resolve ==>
                  swept[id] == row.(state := RetryableFailed, lease := None, updatedAt := dbNow))
            && (!taken && (row.state != RetryableFailed || id in locks.resolve) ==> swept[id] == row)
  {
  }

  /**
   A sweep that meets no lock takes back every lease that ran out, whatever stage its worker had
   reached: the row is queued again while it has attempts left, and given up otherwise.
   */
  lemma {:induction false} ExpiredLeasesAreTaken(rows: map<JobId, Job>, now: int, maxAttempts: nat, dbNow: int, id: JobId)
    requires id in rows && rows[id].state in {Parsing, IngestionState.Extracting, IngestionState.Scoring}
    requires rows[id].lease.Some? && rows[id].lease.value < now
    ensures SweepJobs(rows, now, maxAttempts, dbNow, {}, {})[id]
            == rows[id].(state := if rows[id].attempts < maxAttempts then Queued else TerminalFailed,
                         lease := None, updatedAt := dbNow)
  {
    SweptRow(rows, now, maxAttempts, dbNow, UNLOCKED, id);
  }

  /**
   After a sweep that meets no lock nothing is left to take: a row still in processing holds a
   lease that has not run out and is the row it was, and no row waits as a retryable failure.
   */
  lemma {:induction false} FullSweepSettles(rows: map<JobId, Job>, now: int, maxAttempts: nat, dbNow: int, id: JobId)
    requires id in rows
    ensures var swept := SweepJobs(rows, now, maxAttempts, dbNow, {}, {});
            && id in swept
            && (swept[id].state in {Parsing, IngestionState.Extracting, IngestionState.Scoring} ==>
                  swept[id] == rows[id]
                  && (RowOk(rows[id], maxAttempts) ==> swept[id].lease.Some?)
                  && (swept[id].lease.Some? ==> swept[id].lease.value >= now))
            && !LeaseExpired(swept[id], now)
            && swept[id].state != RetryableFailed
            && (swept[id] != rows[id] ==> swept[id].state in {Queued, TerminalFailed})
  {
    SweptRow(rows, now, maxAttempts, dbNow, UNLOCKED, id);
  }

  lemma {:induction false} ReclaimedCount(ids: seq<JobId>, rows: map<JobId, Job>, now: int, taken: set<JobId>)
    requires Sorting.Distinct(ids) && forall id :: id in rows <==> id in ids
    requires taken == set id | id in rows && rows[id].lease.Some? && rows[id].lease.value < now
                               && rows[id].state in {Parsing, IngestionState.Extracting, IngestionState.Scoring}
    ensures |Select(ids, rows, Expired(now), {})| == |taken|
  {
    SelectCount(ids, rows, Expired(now), {}, taken);
  }

  lemma {:induction false} TerminatedCount(
    ids: seq<JobId>, rows: map<JobId, Job>, now: int, maxAttempts: nat, dbNow: int, spent: set<JobId>)
    requires Sorting.Distinct(ids) && forall id :: id in rows <==> id in ids
    requires spent == set id | id in rows && rows[id].attempts >= maxAttempts
                               && (rows[id].state == RetryableFailed
                                   || (rows[id].lease.Some? && rows[id].lease.value < now
                                       && rows[id].state in {Parsing, IngestionState.Extracting, IngestionState.Scoring}))
    ensures |Select(ids, Reclaimed(rows, now, dbNow, {}), Exhausted(maxAttempts), {})| == |spent|
  {
    SelectCount(ids, Reclaimed(rows, now, dbNow, {}), Exhausted(maxAttempts), {}, spent);
  }

  /** The counts of a report, over the rows themselves. */
  lemma {:induction false} ReportCounts(
    ids: seq<JobId>, rows: map<JobId, Job>, now: int, maxAttempts: nat, stale: int, dbNow: int)
    requires Sorting.Distinct(ids) && forall id :: id in rows <==> id in ids
    ensures var report := Report(ids, rows, now, maxAttempts, stale, dbNow, UNLOCKED);
            && report.reclaimed
               == |set id | id in rows && rows[id].lease.Some? && rows[id].lease.value < now
                            && rows[id].state in {Parsing, IngestionState.Extracting, IngestionState.Scoring}|
            && report.terminated
               == |set id | id in rows && rows[id].attempts >= maxAttempts
                            && (rows[id].state == RetryableFailed
                                || (rows[id].lease.Some? && rows[id].lease.value < now
                                    && rows[id].state in {Parsing, IngestionState.Extracting, IngestionState.Scoring}))|
  {
    ReclaimedCount(ids, rows, now,
                   set id | id in rows && rows[id].lease.Some? && rows[id].lease.value < now
                            && rows[id].state in {Parsing, IngestionState.Extracting, IngestionState.Scoring});
    TerminatedCount(ids, rows, now, maxAttempts, dbNow,
                    set id | id in rows && rows[id].attempts >= maxAttempts
                             && (rows[id].state == RetryableFailed
                                 || (rows[id].lease.Some? && rows[id].lease.value < now
                                     && rows[id].state in {Parsing, IngestionState.Extracting, IngestionState.Scoring})));
  }

  /** Every requeued row and every stranded one is reported, and nothing else. */
  lemma {:induction false} ReportIsComplete(
    ids: seq<JobId>, rows: map<JobId, Job>, now: int, maxAttempts: nat, stale: int, dbNow: int, id: JobId)
    requires id in ids && id in rows && RowOk(rows[id], maxAttempts)
    ensures var report := Report(ids, rows, now, maxAttempts, stale, dbNow, UNLOCKED);
            var row := rows[id];
            var expired := && row.state in {Parsing, IngestionState.Extracting, IngestionState.Scoring}
                           && row.lease.Some? && row.lease.value < now;
            id in report.requeued
            <==> ((expired || row.state == RetryableFailed) && row.attempts < maxAttempts)
                 || (row.state == Queued && row.updatedAt < now - stale)
  {
    var reclaimed := Reclaimed(rows, now, dbNow, {});
    var swept := SweepJobs(rows, now, maxAttempts, dbNow, {}, {});
    SelectMembers(ids, reclaimed, Retryable(maxAttempts), {}, id);
    SelectMembers(ids, swept, StrandedBefore(now - stale), {}, id);
    RowIsReported(rows[id], now, maxAttempts, stale, dbNow);
  }

  lemma {:induction false} RowIsReported(row: Job, now: int, maxAttempts: nat, stale: int, dbNow: int)
    requires RowOk(row, maxAttempts)
    ensures var reclaimed := ReclaimRow(row, now, dbNow);
            var swept := SweepRow(row, now, maxAttempts, dbNow, false, false);
            var failed := row.state == RetryableFailed || LeaseExpired(row, now);
            (reclaimed.state == RetryableFailed && reclaimed.attempts < maxAttempts) || Stranded(swept, now - stale)
            <==> (failed && row.attempts < maxAttempts) || Stranded(row, now - stale)
  {
  }

  /**
   Each id is reported once exactly when the database's clock is not behind the cutoff, or
   nothing was requeued: a row requeued in step 2 carries the database's clock as its
   `updated_at`, and step 4 rescans it when that lies before `now - stale`.
   */
  lemma {:induction false} ReportedOnceIff(
    ids: seq<JobId>, rows: map<JobId, Job>, now: int, maxAttempts: nat, stale: int, dbNow: int)
    requires Sorting.Distinct(ids) && (forall id :: id in rows ==> RowOk(rows[id], maxAttempts))
    ensures var again := Select(ids, Reclaimed(rows, now, dbNow, {}), Retryable(maxAttempts), {});
            Sorting.Distinct(Report(ids, rows, now, maxAttempts, stale, dbNow, UNLOCKED).requeued)
            <==> now - stale <= dbNow || again == []
  {
    var reclaimed := Reclaimed(rows, now, dbNow, {});
    var swept := SweepJobs(rows, now, maxAttempts, dbNow, {}, {});
    var again := Select(ids, reclaimed, Retryable(maxAttempts), {});
    var stranded := Select(ids, swept, StrandedBefore(now - stale), {});
    SelectDistinct(ids, reclaimed, Retryable(maxAttempts), {});
    SelectDistinct(ids, swept, StrandedBefore(now - stale), {});
    forall id | id in again ensures id in stranded <==> dbNow < now - stale {
      RequeuedIsRescanned(ids, rows, now, maxAttempts, stale, dbNow, id);
    }
    ConcatDistinct(again, stranded);
    if again != [] {
      assert again[0] in again;
    }
  }

  lemma {:induction false} ConcatDistinct(a: seq<JobId>, b: seq<JobId>)
    requires Sorting.Distinct(a) && Sorting.Distinct(b)
    ensures Sorting.Distinct(a + b) <==> forall id :: id in a ==> id !in b
  {
    var ab := a + b;
    if Sorting.Distinct(ab) {
      forall i, k | 0 <= i < |a| && 0 <= k < |b| ensures a[i] != b[k] {
        assert ab[i] != ab[|a| + k];
      }
    }
    if forall id :: id in a ==> id !in b {
      forall i, j | 0 <= i < j < |ab| ensures ab[i] != ab[j] {
        if i < |a| <= j {
          assert ab[i] in a && ab[j] in b;
        }
      }
    }
  }

  lemma {:induction false} RequeuedIsRescanned(
    ids: seq<JobId>, rows: map<JobId, Job>, now: int, maxAttempts: nat, stale: int, dbNow: int, id: JobId)
    requires forall id :: id in rows ==> RowOk(rows[id], maxAttempts)
    requires id in Select(ids, Reclaimed(rows, now, dbNow, {}), Retryable(maxAttempts), {})
    ensures id in Select(ids, SweepJobs(rows, now, maxAttempts, dbNow, {}, {}), StrandedBefore(now - stale), {})
            <==> dbNow < now - stale
  {
    var swept := SweepJobs(rows, now, maxAttempts, dbNow, {}, {});
    SelectMembers(ids, Reclaimed(rows, now, dbNow, {}), Retryable(maxAttempts), {}, id);
    SelectMembers(ids, swept, StrandedBefore(now - stale), {}, id);
    assert swept[id] == rows[id].(state := Queued, lease := None, updatedAt := dbNow);
  }

  // ----- one pass over the table -----

  lemma {:induction false} SelectNext(
    ids: seq<JobId>, rows: map<JobId, Job>, wanted: Job -> bool, locked: set<JobId>, i: nat)
    requires i < |ids| && ids[i] in rows
    ensures Select(ids[..i + 1], rows, wanted, locked)
            == Select(ids[..i], rows, wanted, locked)
               + (if ids[i] !in locked && wanted(rows[ids[i]]) then [ids[i]] else [])
  {
    assert ids[..i + 1][..i] == ids[..i];
  }

  /** The rows after `update` was applied to those in `done`. */
  function Updated(rows: map<JobId, Job>, update: Job -> Job, done: set<JobId>): map<JobId, Job> {
    map id | id in rows :: if id in done then update(rows[id]) else rows[id]
  }

  function Visited(ids: seq<JobId>, locked: set<JobId>): set<JobId> {
    set id | id in ids && id !in locked
  }

  lemma {:induction false} VisitNext(
    rows: map<JobId, Job>, update: Job -> Job, ids: seq<JobId>, i: nat, locked: set<JobId>)
    requires Sorting.Distinct(ids) && i < |ids| && ids[i] in rows
    ensures var now := Updated(rows, update, Visited(ids[..i], locked));
            && now[ids[i]] == rows[ids[i]]
            && Updated(rows, update, Visited(ids[..i + 1], locked))
               == if ids[i] in locked then now else now[ids[i] := update(rows[ids[i]])]
  {
    assert ids[..i + 1] == ids[..i] + [ids[i]];
    assert ids[i] !in ids[..i];
    if ids[i] in locked {
      assert Visited(ids[..i + 1], locked) == Visited(ids[..i], locked);
    } else {
      assert Visited(ids[..i + 1], locked) == Visited(ids[..i], locked) + {ids[i]};
    }
  }

  function Reclaiming(now: int, dbNow: int): Job -> Job {
    (job: Job) => ReclaimRow(job, now, dbNow)
  }

  function Resolving(maxAttempts: nat, dbNow: int): Job -> Job {
    (job: Job) => ResolveRow(job, maxAttempts, dbNow)
  }

  // ----- the table -----

  datatype CreateError = ConflictVanished

  /** The table of jobs. `order` is the order in which unordered queries return its rows. */
  class JobTable {
    var rows: map<JobId, Job>
    var order: seq<JobId>

    ghost predicate Valid()
      reads this
    {
      Sorting.Distinct(order) && (set id | id in order) == rows.Keys
    }

    constructor ()
      ensures Valid() && rows == map[]
    {
      rows, order := map[], [];
    }

    /** `transition`: refused by the table, or written over whatever the row holds. */
    method Transition(id: JobId, cached: IngestionState, target: IngestionState, error: Option<string>, dbNow: int)
      returns (moved: bool)
      requires Valid() && id in rows
      modifies this`rows
      ensures Valid()
      ensures moved <==> target in Allowed(cached)
      ensures !moved ==> rows == old(rows)
      ensures moved ==> rows == old(rows)[id := old(rows)[id].(
                                            state := target, updatedAt := dbNow,
                                            error := if error.Some? then error else old(rows)[id].error,
                                            lease := if target in {Parsing, IngestionState.Extracting, IngestionState.Scoring}
                                                     then old(rows)[id].lease else None)]
      ensures rows == if moved then old(rows)[id := MoveRow(old(rows)[id], target, error, dbNow)] else old(rows)
    {
      if target !in Allowed(cached) {
        return false;
      }
      var row := rows[id].(state := target);
      if error.Some? {
        row := row.(error := error);
      }
      if !IsProcessing(target) {
        row := row.(lease := None);
      }
      rows := rows[id := row.(updatedAt := dbNow)];
      return true;
    }

    method FindActive(sha: Sha) returns (found: Option<JobId>)
      ensures found.Some? <==> HasActive(rows, sha)
      ensures found.Some? ==> found.value in rows && rows[found.value].sha == sha && IsActive(rows[found.value].state)
    {
      if id :| id in rows && rows[id].sha == sha && IsActive(rows[id].state) {
        return Some(id);
      }
      return None;
    }

    /**
     `create_or_reuse` is three statements. `racing` is the table the insert meets and `settled`
     the table its re-read meets, after other transactions committed in between.
     */
    method CreateOrReuse(
      sha: Sha, key: Key, id: JobId, dbNow: int, racing: map<JobId, Job>, settled: map<JobId, Job>)
      returns (r: Result<(JobId, bool), CreateError>)
      requires Valid() && id !in racing
      modifies this`rows
      ensures r.Err? <==> !HasActive(old(rows), sha) && HasActive(racing, sha) && !HasActive(settled, sha)
      ensures r.Ok? ==> var (job, created) := r.value;
                        job in rows && rows[job].sha == sha && IsActive(rows[job].state)
      ensures r.Ok? && r.value.1 ==> !HasActive(old(rows), sha) && !HasActive(racing, sha)
                                     && r.value.0 == id && rows == racing[id := NewJob(sha, key, dbNow)]
                                     && rows[id] == Job(Queued, sha, key, None, None, 0, None, None, dbNow)
      ensures r.Ok? && !r.value.1 ==> rows == if HasActive(old(rows), sha) then old(rows) else settled
    {
      var existing := FindActive(sha);
      if existing.Some? {
        return Ok((existing.value, false));
      }
      rows := racing;
      var conflict := FindActive(sha);
      if conflict.None? {
        rows := rows[id := NewJob(sha, key, dbNow)];
        return Ok((id, true));
      }
      rows := settled;
      existing := FindActive(sha);
      if existing.None? {
        return Err(ConflictVanished);
      }
      return Ok((existing.value, false));
    }

    method ReclaimExpired(now: int, dbNow: int, locked: set<JobId>) returns (reclaimed: nat)
      requires Valid()
      modifies this`rows
      ensures Valid()
      ensures rows == Reclaimed(old(rows), now, dbNow, locked)
      ensures reclaimed == |Select(order, old(rows), Expired(now), locked)|
      ensures forall id :: id in old(rows) ==>
                             var row := old(rows)[id];
                             rows[id] == if id !in locked && row.lease.Some? && row.lease.value < now
                                            && row.state in {Parsing, IngestionState.Extracting, IngestionState.Scoring}
                                         then row.(state := RetryableFailed, lease := None, updatedAt := dbNow)
                                         else row
    {
      ghost var before, update := rows, Reclaiming(now, dbNow);
      reclaimed := 0;
      assert rows == Updated(before, update, Visited(order[..0], locked));
      for i := 0 to |order|
        invariant Valid() && rows.Keys == before.Keys
        invariant rows == Updated(before, update, Visited(order[..i], locked))
        invariant reclaimed == |Select(order[..i], before, Expired(now), locked)|
      {
        var id := order[i];
        VisitNext(before, update, order, i, locked);
        SelectNext(order, before, Expired(now), locked, i);
        if id !in locked && LeaseExpired(rows[id], now) {
          rows := rows[id := rows[id].(state := RetryableFailed, lease := None, updatedAt := dbNow)];
          reclaimed := reclaimed + 1;
        }
      }
      assert order[..|order|] == order;
    }

    method ResolveFailed(maxAttempts: nat, dbNow: int, locked: set<JobId>)
      returns (again: seq<JobId>, terminated: nat)
      requires Valid()
      modifies this`rows
      ensures Valid()
      ensures rows == map id | id in old(rows) ::
                        if id in locked then old(rows)[id] else ResolveRow(old(rows)[id], maxAttempts, dbNow)
      ensures again == Select(order, old(rows), Retryable(maxAttempts), locked)
      ensures terminated == |Select(order, old(rows), Exhausted(maxAttempts), locked)|
      ensures forall id :: id in old(rows) && (id in locked || old(rows)[id].state != RetryableFailed) ==>
                             rows[id] == old(rows)[id]
      ensures forall id :: id in old(rows) && id !in locked && old(rows)[id].state == RetryableFailed ==>
                             rows[id] == old(rows)[id].(
                                         state := if old(rows)[id].attempts < maxAttempts then Queued else TerminalFailed,
                                         updatedAt := dbNow)
    {
      ghost var before, update := rows, Resolving(maxAttempts, dbNow);
      again, terminated := [], 0;
      assert rows == Updated(before, update, Visited(order[..0], locked));
      for i := 0 to |order|
        invariant Valid() && rows.Keys == before.Keys
        invariant rows == Updated(before, update, Visited(order[..i], locked))
        invariant again == Select(order[..i], before, Retryable(maxAttempts), locked)
        invariant terminated == |Select(order[..i], before, Exhausted(maxAttempts), locked)|
      {
        var id := order[i];
        VisitNext(before, update, order, i, locked);
        SelectNext(order, before, Retryable(maxAttempts), locked, i);
        SelectNext(order, before, Exhausted(maxAttempts), locked, i);
        if id !in locked && rows[id].state == RetryableFailed {
          if rows[id].attempts >= maxAttempts {
            rows := rows[id := rows[id].(state := TerminalFailed, updatedAt := dbNow)];
            terminated := terminated + 1;
          } else {
            rows := rows[id := rows[id].(state := Queued, updatedAt := dbNow)];
            again := again + [id];
          }
        }
      }
      assert order[..|order|] == order;
    }

    method RescanStranded(cutoff: int, locked: set<JobId>) returns (stranded: seq<JobId>)
      requires Valid()
      ensures stranded == Select(order, rows, StrandedBefore(cutoff), locked)
      ensures forall id :: id in stranded
                           <==> id in rows && id !in locked && rows[id].state == Queued && rows[id].lease.None?
                                && rows[id].updatedAt < cutoff
    {
      stranded := [];
      for i := 0 to |order|
        invariant stranded == Select(order[..i], rows, StrandedBefore(cutoff), locked)
      {
        var id := order[i];
        SelectNext(order, rows, StrandedBefore(cutoff), locked, i);
        if id !in locked && Stranded(rows[id], cutoff) {
          stranded := stranded + [id];
        }
      }
      assert order[..|order|] == order;
      forall id
        ensures id in stranded <==> id in order && id in rows && id !in locked && Stranded(rows[id], cutoff)
      {
        SelectMembers(order, rows, StrandedBefore(cutoff), locked, id);
      }
      assert forall id :: id in order <==> id in (set other | other in order);
    }

    /** `sweep`: reclaim, requeue or terminate, rescan, all in one transaction. */
    method Sweep(now: int, maxAttempts: nat, stale: int, dbNow: int, locks: Locks) returns (report: SweepReport)
      requires Valid()
      modifies this`rows
      ensures Valid()
      ensures rows == SweepJobs(old(rows), now, maxAttempts, dbNow, locks.reclaim, locks.resolve)
      ensures report == Report(order, old(rows), now, maxAttempts, stale, dbNow, locks)
      ensures forall id :: id in old(rows) && id !in locks.reclaim && id !in locks.resolve
                           && old(rows)[id].state in {Parsing, IngestionState.Extracting, IngestionState.Scoring}
                           && old(rows)[id].lease.Some? && old(rows)[id].lease.value < now ==>
                             rows[id] == old(rows)[id].(
                                         state := if old(rows)[id].attempts < maxAttempts then Queued else TerminalFailed,
                                         lease := None, updatedAt := dbNow)
    {
      var reclaimed := ReclaimExpired(now, dbNow, locks.reclaim);
      var again, terminated := ResolveFailed(maxAttempts, dbNow, locks.resolve);
      SweepInTwo(old(rows), rows, now, maxAttempts, dbNow, locks);
      var stranded := RescanStranded(now - stale, locks.rescan);
      report := SweepReport(reclaimed, again + stranded, terminated);
    }
  }
}
