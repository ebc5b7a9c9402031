/**
 The bound "task time limit <= lease" is exact. With it every reachable state is safe; without
 it two workers can drive one job that may be tried twice, and the later one deletes the object
 of the candidate that the earlier one committed.
 */
module IngestionLeaseBound {
  import opened Common
  import opened IngestionStates
  import opened IngestionRows
  import opened IngestionProtocol
  import opened IngestionSafety
  import IngestionSingleAttempt

  lemma {:induction false} ReachableStep(cfg: Config, s: System, a: Action, s': System)
    requires Reachable(cfg, s) && Step(cfg, s, a) == Some(s')
    ensures Reachable(cfg, s')
  {
    var actions :| Run(cfg, INITIAL, actions) == Some(s);
    assert (actions + [a])[..|actions|] == actions;
    assert Run(cfg, INITIAL, actions + [a]) == Some(s');
  }

  lemma {:induction false} InitialIsReachable(cfg: Config)
    ensures Reachable(cfg, INITIAL)
  {
    assert Run(cfg, INITIAL, []) == Some(INITIAL);
  }

  lemma {:induction false} InitialIsSafe()
    ensures Inv(INITIAL)
  {
  }

  lemma {:induction false} ReachableIsSafe(cfg: Config, s: System)
    requires cfg.timeLimit <= cfg.lease && Reachable(cfg, s)
    ensures Inv(s)
  {
    var actions :| Run(cfg, INITIAL, actions) == Some(s);
    InitialIsSafe();
    RunKeeps(cfg, INITIAL, actions, s);
  }

  const LATE_JOB := NewJob(0, 0, 0)

  function FirstOwner(cfg: Config): Worker {
    Worker(0, cfg.timeLimit, false, IngestionState.Extracting, 0, None, Extracted)
  }

  function ExtractingJob(cfg: Config): Job {
    Job(IngestionState.Extracting, 0, 0, None, None, 1, Some(cfg.lease), None, 0)
  }

  lemma {:induction false} UploadedJob(cfg: Config) returns (s: System)
    ensures Reachable(cfg, s)
    ensures s == System(0, map[0 := LATE_JOB], map[], {0}, {0}, map[], map[])
  {
    InitialIsReachable(cfg);
    var s1 := DoStore(INITIAL, 0, 0, 0).value;
    ReachableStep(cfg, INITIAL, Store(0, 0, 0), s1);
    s := DoCreate(s1, 0, 0).value;
    ReachableStep(cfg, s1, Create(0, 0), s);
  }

  /** One uploaded job, claimed at instant 0 and driven as far as extraction. */
  lemma {:induction false} OwnedJob(cfg: Config) returns (s: System)
    ensures Reachable(cfg, s)
    ensures s == System(0, map[0 := ExtractingJob(cfg)], map[], {0}, {0}, map[0 := FirstOwner(cfg)], map[])
  {
    var s0 := UploadedJob(cfg);
    var s1 := DoClaim(cfg, s0, 0, 0, 0, false).value;
    ReachableStep(cfg, s0, Claim(0, 0, 0, false), s1);
    var s2 := DoParse(s1, 0).value;
    ReachableStep(cfg, s1, Action.Parse(0), s2);
    s := DoExtract(s2, 0).value;
    ReachableStep(cfg, s2, Extract(0), s);
  }

  /** The lease runs out under a task that is still allowed to run, and the sweeper acts on it. */
  lemma {:induction false} StolenJob(cfg: Config) returns (s: System)
    requires cfg.timeLimit > cfg.lease
    ensures Reachable(cfg, s)
    ensures s == System(
                   cfg.lease + 1,
                   map[0 := SweepRow(ExtractingJob(cfg), cfg.lease + 1, cfg.maxAttempts, cfg.lease + 1, false, false)],
                   map[], {0}, {0}, map[0 := FirstOwner(cfg)], map[])
    ensures s.jobs[0].state == if cfg.maxAttempts <= 1 then TerminalFailed else Queued
  {
    var owned := OwnedJob(cfg);
    var late := DoTick(owned, cfg.lease + 1).value;
    ReachableStep(cfg, owned, Tick(cfg.lease + 1), late);
    assert late.workers == map[0 := FirstOwner(cfg)];
    s := DoSweep(cfg, late, cfg.lease + 1, {}, {}).value;
    ReachableStep(cfg, late, Sweep(cfg.lease + 1, {}, {}), s);
  }

  /** The worker that holds job 0 in phase `phase` beside the first owner. */
  ghost predicate Rival(s: System, cfg: Config, phase: Phase) {
    && s.workers.Keys == {0, 1} && s.workers[0] == FirstOwner(cfg)
    && s.workers[1].job == 0 && s.workers[1].key == 0 && !s.workers[1].activeRule
    && s.workers[1].candidate.None? && s.workers[1].phase == phase
    && 0 in s.jobs && s.objects == {0}
  }

  /** A second worker claims the stolen job. */
  lemma {:induction false} SecondClaim(cfg: Config) returns (s: System)
    requires cfg.timeLimit > cfg.lease && cfg.maxAttempts >= 2
    ensures Reachable(cfg, s) && Rival(s, cfg, Fresh) && s.workers[1].state == Parsing && s.candidates == map[]
  {
    var s0 := StolenJob(cfg);
    s := DoClaim(cfg, s0, 1, 0, s0.clock, false).value;
    ReachableStep(cfg, s0, Claim(1, 0, s0.clock, false), s);
  }

  /** The second worker reaches extraction too. */
  lemma {:induction false} SecondExtraction(cfg: Config) returns (s: System)
    requires cfg.timeLimit > cfg.lease && cfg.maxAttempts >= 2
    ensures Reachable(cfg, s) && Rival(s, cfg, Extracted) && s.workers[1].state == IngestionState.Extracting
    ensures s.candidates == map[]
  {
    var s0 := SecondClaim(cfg);
    var s1 := DoParse(s0, 1).value;
    ReachableStep(cfg, s0, Action.Parse(1), s1);
    s := DoExtract(s1, 1).value;
    ReachableStep(cfg, s1, Extract(1), s);
  }

  /** The second worker commits a candidate that names the shared object. */
  lemma {:induction false} SecondOwner(cfg: Config) returns (s: System)
    requires cfg.timeLimit > cfg.lease && cfg.maxAttempts >= 2
    ensures Reachable(cfg, s)
    ensures 0 in s.workers && s.workers[0] == FirstOwner(cfg)
    ensures s.candidates == map[0 := Candidate(0, 0)] && s.objects == {0}
  {
    var s0 := SecondExtraction(cfg);
    var s1 := DoInsert(s0, 1, 0, 0).value;
    ReachableStep(cfg, s0, Insert(1, 0, 0), s1);
    s := DoCommitCandidate(s1, 1).value;
    ReachableStep(cfg, s1, CommitCandidate(1), s);
  }

  /** A reachable state in which a committed candidate's object is gone. */
  lemma {:induction false} LostObject(cfg: Config) returns (s: System)
    requires cfg.timeLimit > cfg.lease && cfg.maxAttempts >= 2
    ensures Reachable(cfg, s) && !ObjectsSafe(s)
  {
    var s0 := SecondOwner(cfg);
    s := DoDuplicate(s0, 0, 0, true, false).value;
    ReachableStep(cfg, s0, Duplicate(0, 0, true, false), s);
    assert 0 in s.candidates && s.candidates[0].key !in s.objects;
  }

  /** Mutual exclusion: in every reachable state each job has one live owner whose copy is the row. */
  lemma {:induction false} OwnershipIffLeaseCoversLimit(cfg: Config)
    ensures (forall s :: Reachable(cfg, s) ==> OwnersAgree(s) && SoleOwner(s)) <==> cfg.timeLimit <= cfg.lease
  {
    if cfg.timeLimit <= cfg.lease {
      forall s | Reachable(cfg, s) ensures OwnersAgree(s) && SoleOwner(s) {
        ReachableIsSafe(cfg, s);
      }
    } else {
      var s := StolenJob(cfg);
      assert s.workers[0].job == 0;
      assert !OwnersAgree(s);
    }
  }

  /** Canonical-object safety: exactly when the lease covers the task, or no job is tried twice. */
  lemma {:induction false} ObjectsSafeIffLeaseCoversLimit(cfg: Config)
    ensures (forall s :: Reachable(cfg, s) ==> ObjectsSafe(s)) <==> cfg.timeLimit <= cfg.lease || cfg.maxAttempts <= 1
  {
    if cfg.timeLimit <= cfg.lease {
      forall s | Reachable(cfg, s) ensures ObjectsSafe(s) {
        ReachableIsSafe(cfg, s);
      }
    } else if cfg.maxAttempts <= 1 {
      forall s | Reachable(cfg, s) ensures ObjectsSafe(s) {
        IngestionSingleAttempt.OneAttemptIsSafe(cfg, s);
      }
    } else {
      var s := LostObject(cfg);
    }
  }

  /** One active job per content hash and one candidate per identity in every reachable state. */
  lemma {:induction false} UniqueRows(cfg: Config, s: System)
    requires cfg.timeLimit <= cfg.lease && Reachable(cfg, s)
    ensures OneActive(s) && UniquePii(s)
  {
    ReachableIsSafe(cfg, s);
  }

  const SHIPPED := Config(600, 900, 3)

  /** The shipped settings satisfy the bound. */
  lemma {:induction false} ShippedSettingsAreSafe(s: System)
    requires Reachable(SHIPPED, s)
    ensures OwnersAgree(s) && SoleOwner(s) && ObjectsSafe(s)
  {
    ReachableIsSafe(SHIPPED, s);
  }

  /** A claimed job that raises and is given up: three steps to a settled row. */
  lemma {:induction false} SettlingSteps(cfg: Config, racing: System) returns (s1: System, s2: System, settled: System)
    requires racing == System(0, map[0 := LATE_JOB], map[], {0}, {0}, map[], map[])
    ensures Step(cfg, racing, Claim(0, 0, 0, false)) == Some(s1) && Step(cfg, s1, Raise(0)) == Some(s2)
    ensures Step(cfg, s2, RecordFailure(0, TerminalFailed, "resume_parser_failed")) == Some(settled)
    ensures settled.jobs.Keys == {0} && settled.jobs[0].state == TerminalFailed
  {
    s1 := DoClaim(cfg, racing, 0, 0, 0, false).value;
    assert s1.jobs[0].state == Parsing && s1.workers[0].job == 0;
    s2 := DoRaise(s1, 0).value;
    assert s2.jobs == s1.jobs && s2.workers[0].phase == Failing;
    settled := DoRecordFailure(s2, 0, TerminalFailed, "resume_parser_failed").value;
  }

  /**
   The row an insert conflicts with can settle before it is read again: the one case in which
   creation returns no job at all.
   */
  lemma {:induction false} ConflictCanVanish(cfg: Config) returns (racing: System, settled: System, actions: seq<Action>)
    ensures Reachable(cfg, racing) && Run(cfg, racing, actions) == Some(settled)
    ensures !HasActive(INITIAL.jobs, 0) && HasActive(racing.jobs, 0) && !HasActive(settled.jobs, 0)
  {
    racing := UploadedJob(cfg);
    assert racing.jobs[0].sha == 0 && IsActive(racing.jobs[0].state);
    var s1, s2;
    s1, s2, settled := SettlingSteps(cfg, racing);
    actions := SettlingRun(cfg, racing, s1, s2, settled);
  }

  lemma {:induction false} SettlingRun(cfg: Config, racing: System, s1: System, s2: System, settled: System) returns (actions: seq<Action>)
    requires Step(cfg, racing, Claim(0, 0, 0, false)) == Some(s1) && Step(cfg, s1, Raise(0)) == Some(s2)
    requires Step(cfg, s2, RecordFailure(0, TerminalFailed, "resume_parser_failed")) == Some(settled)
    ensures Run(cfg, racing, actions) == Some(settled)
  {
    var claim, failure := Claim(0, 0, 0, false), RecordFailure(0, TerminalFailed, "resume_parser_failed");
    RunTwo(cfg, racing, claim, s1, Raise(0), s2);
    RunOne(cfg, s2, failure, settled);
    RunJoin(cfg, racing, [claim, Raise(0)], s2, [failure], settled);
    actions := [claim, Raise(0)] + [failure];
  }
}
