/**
 No job stays with a dead worker: from every reachable state, time and one unhindered sweep take
 each job back, and the next claim starts its next attempt.
 */
module IngestionRecovery {
  import opened Common
  import opened IngestionStates
  import opened IngestionRows
  import opened IngestionProtocol
  import opened IngestionSafety
  import opened IngestionTermination
  import opened IngestionLeaseBound
  import IngestionSweeper

  /** A system in which time has passed and a sweep has met no lock. */
  ghost predicate SweptAt(cfg: Config, s: System, now: int, t: System) {
    Run(cfg, s, [Tick(now), Sweep(now, {}, {})]) == Some(t)
  }

  lemma {:induction false} SweepAfter(cfg: Config, s: System, now: int) returns (t: System)
    requires s.clock <= now
    ensures SweptAt(cfg, s, now, t)
    ensures t.clock == now && t.jobs == SweepJobs(s.jobs, now, cfg.maxAttempts, now, {}, {})
    ensures forall w :: w in t.workers ==> w in s.workers && t.workers[w] == s.workers[w] && now <= t.workers[w].deadline
  {
    var late := DoTick(s, now).value;
    t := DoSweep(cfg, late, now, {}, {}).value;
    RunTwo(cfg, s, Tick(now), late, Sweep(now, {}, {}), t);
  }

  /**
   Whatever stage its worker died in, a job whose lease ran out is queued again while it has
   attempts left and given up otherwise; and no live worker holds it any more.
   */
  lemma {:induction false} AbandonedJobIsTaken(cfg: Config, s: System, id: JobId, now: int) returns (t: System)
    requires Reachable(cfg, s) && cfg.timeLimit <= cfg.lease && s.clock <= now
    requires id in s.jobs && s.jobs[id].state in {Parsing, IngestionState.Extracting, IngestionState.Scoring}
    requires s.jobs[id].lease.Some? && s.jobs[id].lease.value < now
    ensures SweptAt(cfg, s, now, t) && t.clock == now
    ensures id in t.jobs && t.jobs[id] == s.jobs[id].(
                                          state := if s.jobs[id].attempts < cfg.maxAttempts then Queued else TerminalFailed,
                                          lease := None, updatedAt := now)
    ensures forall w :: w in t.workers ==> w in s.workers && t.workers[w].job != id
  {
    ReachableIsSafe(cfg, s);
    t := SweepAfter(cfg, s, now);
    IngestionSweeper.ExpiredLeasesAreTaken(s.jobs, now, cfg.maxAttempts, now, id);
    forall w | w in t.workers ensures t.workers[w].job != id {
      OwnerIsWithinLease(s, w, id, now);
    }
  }

  lemma {:induction false} OwnerIsWithinLease(s: System, w: WorkerId, id: JobId, now: int)
    requires OwnersAgree(s) && w in s.workers && now <= s.workers[w].deadline
    requires id in s.jobs && IsProcessing(s.jobs[id].state)
    requires s.jobs[id].lease.Some? && s.jobs[id].lease.value < now
    ensures s.workers[w].job != id
  {
  }

  /** The attempt after that: the same file under the same row, one attempt more, and a lease from now on. */
  lemma {:induction false} AbandonedJobIsRetried(
    cfg: Config, s: System, id: JobId, now: int, w: WorkerId, activeRule: bool) returns (u: System)
    requires Reachable(cfg, s) && cfg.timeLimit <= cfg.lease && s.clock <= now && w !in s.workers
    requires id in s.jobs && s.jobs[id].state in {Parsing, IngestionState.Extracting, IngestionState.Scoring}
    requires s.jobs[id].lease.Some? && s.jobs[id].lease.value < now && s.jobs[id].attempts < cfg.maxAttempts
    ensures Run(cfg, s, [Tick(now), Sweep(now, {}, {}), Claim(w, id, now, activeRule)]) == Some(u)
    ensures id in u.jobs && u.jobs[id] == s.jobs[id].(
                                          state := Parsing, attempts := s.jobs[id].attempts + 1,
                                          lease := Some(now + cfg.lease), updatedAt := now)
    ensures w in u.workers && u.workers[w].job == id && u.workers[w].deadline == now + cfg.timeLimit
    ensures forall v :: v in u.workers && v != w ==> u.workers[v].job != id
  {
    var t := AbandonedJobIsTaken(cfg, s, id, now);
    u := DoClaim(cfg, t, w, id, now, activeRule).value;
    RunOne(cfg, t, Claim(w, id, now, activeRule), u);
    RunJoin(cfg, s, [Tick(now), Sweep(now, {}, {})], t, [Claim(w, id, now, activeRule)], u);
    assert [Tick(now), Sweep(now, {}, {})] + [Claim(w, id, now, activeRule)]
        == [Tick(now), Sweep(now, {}, {}), Claim(w, id, now, activeRule)];
  }

  lemma {:induction false} ReachableRowOk(cfg: Config, s: System, id: JobId)
    requires Reachable(cfg, s) && cfg.timeLimit <= cfg.lease && 1 <= cfg.maxAttempts && id in s.jobs
    ensures RowOk(s.jobs[id], cfg.maxAttempts)
  {
    var actions :| Run(cfg, INITIAL, actions) == Some(s);
    JobComesToRest(cfg, actions, s, id);
  }

  /**
   No job is stuck: from every reachable state and for every job there is an instant from which
   any unhindered sweep leaves the job queued and free for a claim below the attempt cap, or
   finished for good.
   */
  lemma {:induction false} NoJobIsStuck(cfg: Config, s: System, id: JobId) returns (instant: int)
    requires Reachable(cfg, s) && cfg.timeLimit <= cfg.lease && 1 <= cfg.maxAttempts && id in s.jobs
    ensures s.clock <= instant
    ensures forall now, t :: instant <= now && SweptAt(cfg, s, now, t) ==>
                               && id in t.jobs
                               && (|| (t.jobs[id].state == Queued && t.jobs[id].lease == None
                                       && t.jobs[id].attempts < cfg.maxAttempts)
                                   || t.jobs[id].state in {Ready, Completed, TerminalFailed, Deleted})
  {
    var row := s.jobs[id];
    ReachableRowOk(cfg, s, id);
    instant := if row.lease.Some? && row.lease.value >= s.clock then row.lease.value + 1 else s.clock + 1;
    forall now, t | instant <= now && SweptAt(cfg, s, now, t)
      ensures id in t.jobs
      ensures || (t.jobs[id].state == Queued && t.jobs[id].lease == None && t.jobs[id].attempts < cfg.maxAttempts)
              || t.jobs[id].state in {Ready, Completed, TerminalFailed, Deleted}
    {
      var same := SweepAfter(cfg, s, now);
      assert t == same;
    }
  }
}
