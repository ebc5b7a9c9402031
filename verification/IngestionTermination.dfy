/**
 Every ingestion job comes to rest: attempts never pass the maximum, and each change of state
 lowers a measure that starts at a fixed bound.
 */
module IngestionTermination {
  import opened Common
  import opened IngestionStates
  import opened IngestionRows
  import opened IngestionProtocol
  import opened IngestionSafety

  ghost predicate RowsOk(cfg: Config, jobs: map<JobId, Job>) {
    forall id :: id in jobs ==> RowOk(jobs[id], cfg.maxAttempts)
  }

  /** A row either keeps its state and attempts or loses rank. */
  predicate Sinks(before: Job, after: Job, maxAttempts: nat) {
    && RowOk(before, maxAttempts) && RowOk(after, maxAttempts)
    && ((after.state == before.state && after.attempts == before.attempts)
        || (after.state != before.state && Rank(after, maxAttempts) < Rank(before, maxAttempts)))
  }

  ghost predicate AllSink(cfg: Config, jobs: map<JobId, Job>, jobs': map<JobId, Job>) {
    && jobs.Keys <= jobs'.Keys
    && forall id :: id in jobs ==> Sinks(jobs[id], jobs'[id], cfg.maxAttempts)
  }

  /** The row a worker writes is in processing, and the target is allowed from it. */
  lemma {:induction false} MoveSinks(
    cfg: Config, jobs: map<JobId, Job>, id: JobId, row: Job, target: IngestionState, error: Option<string>, dbNow: int)
    requires RowsOk(cfg, jobs) && id in jobs && IsProcessing(jobs[id].state) && target in Allowed(jobs[id].state)
    requires row == jobs[id].(score := row.score, candidate := row.candidate)
    ensures var jobs' := jobs[id := MoveRow(row, target, error, dbNow)];
            RowsOk(cfg, jobs') && AllSink(cfg, jobs, jobs')
  {
    MoveLowersRank(row, target, error, dbNow, cfg.maxAttempts);
  }

  lemma {:induction false} ClaimSinks(cfg: Config, s: System, a: Action, s': System)
    requires RowsOk(cfg, s.jobs) && Step(cfg, s, a) == Some(s') && a.Claim?
    ensures RowsOk(cfg, s'.jobs) && AllSink(cfg, s.jobs, s'.jobs)
  {
    ClaimLowersRank(s.jobs[a.job], s.clock, cfg.lease, s.clock, cfg.maxAttempts);
  }

  lemma {:induction false} SweepSinks(cfg: Config, s: System, a: Action, s': System)
    requires RowsOk(cfg, s.jobs) && Step(cfg, s, a) == Some(s') && a.Sweep?
    ensures RowsOk(cfg, s'.jobs) && AllSink(cfg, s.jobs, s'.jobs)
  {
    forall id | id in s.jobs
      ensures RowOk(s'.jobs[id], cfg.maxAttempts) && Sinks(s.jobs[id], s'.jobs[id], cfg.maxAttempts)
    {
      SweepLowersRank(s.jobs[id], a.now, cfg.maxAttempts, s.clock, id in a.skipReclaim, id in a.skipResolve);
    }
  }

  /** A worker commits a row. */
  predicate WritesRow(a: Action) {
    a.Extract? || a.LoadKnown? || a.CommitScore? || a.CommitCandidate? || a.RecordFailure?
  }

  /** Every other action leaves the rows there are alone; `Create` adds one. */
  lemma {:induction false} OtherSinks(cfg: Config, s: System, a: Action, s': System)
    requires cfg.maxAttempts >= 1 && RowsOk(cfg, s.jobs) && Step(cfg, s, a) == Some(s')
    requires !a.Claim? && !a.Sweep? && !WritesRow(a)
    ensures RowsOk(cfg, s'.jobs) && AllSink(cfg, s.jobs, s'.jobs)
  {
    if !a.Create? {
      assert s'.jobs == s.jobs;
    }
  }

  lemma {:induction false} FailureSinks(cfg: Config, s: System, w: WorkerId, target: IngestionState, error: string, s': System)
    requires OwnersAgree(s) && RowsOk(cfg, s.jobs) && DoRecordFailure(s, w, target, error) == Some(s')
    ensures RowsOk(cfg, s'.jobs) && AllSink(cfg, s.jobs, s'.jobs)
  {
    var id := s.workers[w].job;
    if id in s.jobs && target in Allowed(s.jobs[id].state) {
      MoveSinks(cfg, s.jobs, id, s.jobs[id], target, Some(error), s.clock);
    }
  }

  lemma {:induction false} CandidateSinks(cfg: Config, s: System, w: WorkerId, s': System)
    requires OwnersAgree(s) && PhasesOk(s) && RowsOk(cfg, s.jobs) && DoCommitCandidate(s, w) == Some(s')
    ensures RowsOk(cfg, s'.jobs) && AllSink(cfg, s.jobs, s'.jobs)
  {
    var me := s.workers[w];
    assert PhaseOk(s, me);
    var cid := if me.phase.Inserted? then me.phase.cid else me.phase.known;
    var target := if me.activeRule then IngestionState.Scoring else Ready;
    MoveSinks(cfg, s.jobs, me.job, s.jobs[me.job].(candidate := Some(cid)), target, None, s.clock);
  }

  lemma {:induction false} ExtractSinks(cfg: Config, s: System, w: WorkerId, s': System)
    requires OwnersAgree(s) && PhasesOk(s) && RowsOk(cfg, s.jobs)
    requires DoExtract(s, w) == Some(s') || DoLoadKnown(s, w) == Some(s')
    ensures RowsOk(cfg, s'.jobs) && AllSink(cfg, s.jobs, s'.jobs)
  {
    assert PhaseOk(s, s.workers[w]);
    MoveSinks(cfg, s.jobs, s.workers[w].job, s.jobs[s.workers[w].job], IngestionState.Extracting, None, s.clock);
  }

  lemma {:induction false} ScoreSinks(cfg: Config, s: System, w: WorkerId, score: nat, s': System)
    requires OwnersAgree(s) && PhasesOk(s) && RowsOk(cfg, s.jobs) && DoCommitScore(s, w, score) == Some(s')
    ensures RowsOk(cfg, s'.jobs) && AllSink(cfg, s.jobs, s'.jobs)
  {
    var id := s.workers[w].job;
    assert PhaseOk(s, s.workers[w]);
    MoveSinks(cfg, s.jobs, id, s.jobs[id].(score := Some(score)), Completed, None, s.clock);
  }

  lemma {:induction false} WorkerSinks(cfg: Config, s: System, a: Action, s': System)
    requires OwnersAgree(s) && PhasesOk(s) && RowsOk(cfg, s.jobs) && Step(cfg, s, a) == Some(s')
    requires WritesRow(a)
    ensures RowsOk(cfg, s'.jobs) && AllSink(cfg, s.jobs, s'.jobs)
  {
    match a
    case Extract(w) => ExtractSinks(cfg, s, w, s');
    case LoadKnown(w) => ExtractSinks(cfg, s, w, s');
    case CommitScore(w, score) => ScoreSinks(cfg, s, w, score, s');
    case CommitCandidate(w) => CandidateSinks(cfg, s, w, s');
    case RecordFailure(w, target, error) => FailureSinks(cfg, s, w, target, error, s');
  }

  /** Each action keeps the row invariant and sinks every row it changes. */
  lemma {:induction false} StepSinks(cfg: Config, s: System, a: Action, s': System)
    requires cfg.maxAttempts >= 1
    requires OwnersAgree(s) && PhasesOk(s) && RowsOk(cfg, s.jobs) && Step(cfg, s, a) == Some(s')
    ensures RowsOk(cfg, s'.jobs) && AllSink(cfg, s.jobs, s'.jobs)
  {
    if a.Claim? {
      ClaimSinks(cfg, s, a, s');
    } else if a.Sweep? {
      SweepSinks(cfg, s, a, s');
    } else if WritesRow(a) {
      WorkerSinks(cfg, s, a, s');
    } else {
      OtherSinks(cfg, s, a, s');
    }
  }

  /** How often a run claims a job. */
  function Claims(actions: seq<Action>, id: JobId): nat {
    if actions == [] then 0
    else Claims(actions[..|actions| - 1], id)
         + (var a := actions[|actions| - 1]; if a.Claim? && a.job == id then 1 else 0)
  }

  /** How often a run changes a job's state. */
  function Changes(cfg: Config, s: System, actions: seq<Action>, id: JobId): nat
    requires Run(cfg, s, actions).Some?
  {
    if actions == [] then 0
    else
      var before := Run(cfg, s, actions[..|actions| - 1]).value;
      var after := Run(cfg, s, actions).value;
      Changes(cfg, s, actions[..|actions| - 1], id)
      + (if id in before.jobs && id in after.jobs && before.jobs[id].state != after.jobs[id].state then 1 else 0)
  }

  lemma {:induction false} StepCounts(cfg: Config, s: System, a: Action, s': System, id: JobId)
    requires Step(cfg, s, a) == Some(s')
    ensures id in s.jobs ==> id in s'.jobs
                             && s'.jobs[id].attempts == s.jobs[id].attempts + (if a.Claim? && a.job == id then 1 else 0)
    ensures id !in s.jobs && a.Claim? ==> a.job != id
    ensures id !in s.jobs && id in s'.jobs ==> s'.jobs[id].attempts == 0 && s'.jobs[id].state == Queued
  {
  }

  /** Bound and termination: a job is claimed at most `maxAttempts` times and changes state boundedly often. */
  lemma {:induction false} JobComesToRest(cfg: Config, actions: seq<Action>, s: System, id: JobId)
    requires 1 <= cfg.maxAttempts && cfg.timeLimit <= cfg.lease
    requires Run(cfg, INITIAL, actions) == Some(s)
    ensures Inv(s) && RowsOk(cfg, s.jobs)
    ensures Claims(actions, id) == (if id in s.jobs then s.jobs[id].attempts else 0) <= cfg.maxAttempts
    ensures Changes(cfg, INITIAL, actions, id)
            + (if id in s.jobs then Rank(s.jobs[id], cfg.maxAttempts) else 0) <= 7 * cfg.maxAttempts + 2
    ensures id !in s.jobs ==> Changes(cfg, INITIAL, actions, id) == 0
  {
    if actions == [] {
      assert Inv(INITIAL);
    } else {
      var earlier := actions[..|actions| - 1];
      var a := actions[|actions| - 1];
      var before := Run(cfg, INITIAL, earlier).value;
      JobComesToRest(cfg, earlier, before, id);
      StepKeeps(cfg, before, a, s);
      StepSinks(cfg, before, a, s);
      StepCounts(cfg, before, a, s, id);
      if id in before.jobs {
        assert Sinks(before.jobs[id], s.jobs[id], cfg.maxAttempts);
      }
    }
  }
}
