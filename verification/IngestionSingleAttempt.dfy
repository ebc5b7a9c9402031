/**
 With at most one attempt a job is never queued again, so it never has a second worker: whatever
 the lease, no candidate loses its stored object.
 */
module IngestionSingleAttempt {
  import opened Common
  import opened IngestionStates
  import opened IngestionRows
  import opened IngestionProtocol
  import opened IngestionSafety

  /** The worker has not committed a candidate, and may still. */
  predicate Early(phase: Phase) {
    phase.Fresh? || phase.Parsed? || phase.Extracted? || phase.Inserted?
  }

  /** The worker has checked that its object is there. */
  predicate Holding(phase: Phase) {
    phase.Parsed? || phase.Extracted? || phase.Inserted?
  }

  /** A queued job was never claimed. */
  ghost predicate QueuedIsNew(s: System) {
    forall id :: id in s.jobs && s.jobs[id].state == Queued ==> s.jobs[id].attempts == 0
  }

  /** Each worker has a claimed job of its own. */
  ghost predicate OneWorkerEach(s: System) {
    && (forall w :: w in s.workers ==>
                      && s.workers[w].job in s.jobs
                      && s.jobs[s.workers[w].job].attempts >= 1
                      && s.jobs[s.workers[w].job].key == s.workers[w].key)
    && (forall v, w :: v in s.workers && w in s.workers && s.workers[v].job == s.workers[w].job ==> v == w)
  }

  /** A candidate's object stands, and is nobody's to delete. */
  ghost predicate CandidatesApart(s: System) {
    && (forall c :: c in s.candidates ==> s.candidates[c].key in s.objects && s.candidates[c].key in s.issued)
    && (forall c, p :: c in s.candidates && p in s.uploads ==> s.candidates[c].key != s.uploads[p].key)
    && (forall c, id :: c in s.candidates && id in s.jobs && s.candidates[c].key == s.jobs[id].key ==>
                          s.jobs[id].attempts >= 1)
    && (forall c, w :: c in s.candidates && w in s.workers && Early(s.workers[w].phase) ==>
                         s.candidates[c].key != s.workers[w].key)
  }

  ghost predicate HoldersHave(s: System) {
    forall w :: w in s.workers && Holding(s.workers[w].phase) ==> s.workers[w].key in s.objects
  }

  ghost predicate Once(s: System) {
    KeysOwned(s) && QueuedIsNew(s) && OneWorkerEach(s) && CandidatesApart(s) && HoldersHave(s)
  }

  // ----- steps that create nothing -----

  /** Every row is an old one with its key and attempts, and is queued only if it was never claimed. */
  ghost predicate RowsStay(jobs: map<JobId, Job>, jobs': map<JobId, Job>) {
    && jobs'.Keys == jobs.Keys
    && forall id :: id in jobs ==>
                      && jobs'[id].key == jobs[id].key
                      && jobs'[id].attempts == jobs[id].attempts
                      && (jobs'[id].state == Queued ==> jobs[id].attempts == 0)
  }

  /** Every worker is an old one on its job, no earlier than before, and has what it holds. */
  ghost predicate WorkersStay(s: System, s': System) {
    forall w :: w in s'.workers ==>
                  && w in s.workers
                  && s'.workers[w].job == s.workers[w].job
                  && s'.workers[w].key == s.workers[w].key
                  && (Early(s'.workers[w].phase) ==> Early(s.workers[w].phase))
                  && (Holding(s'.workers[w].phase) ==> s'.workers[w].key in s'.objects)
  }

  ghost predicate CandidatesStay(s: System, s': System) {
    && s'.candidates == s.candidates && s'.issued == s.issued
    && (forall p :: p in s'.uploads ==> p in s.uploads && s'.uploads[p] == s.uploads[p])
    && (forall c :: c in s.candidates ==> s.candidates[c].key in s'.objects)
  }

  ghost predicate Quiet(s: System, s': System) {
    RowsStay(s.jobs, s'.jobs) && WorkersStay(s, s') && CandidatesStay(s, s')
  }

  lemma {:induction false} QuietKeys(s: System, s': System)
    requires KeysOwned(s) && Quiet(s, s')
    ensures KeysOwned(s')
  {
  }

  lemma {:induction false} QuietClaimed(s: System, s': System)
    requires QueuedIsNew(s) && OneWorkerEach(s) && Quiet(s, s')
    ensures QueuedIsNew(s') && OneWorkerEach(s')
  {
  }

  lemma {:induction false} QuietCandidates(s: System, s': System)
    requires CandidatesApart(s) && Quiet(s, s')
    ensures CandidatesApart(s') && HoldersHave(s')
  {
  }

  lemma {:induction false} QuietOnce(s: System, s': System)
    requires Once(s) && Quiet(s, s')
    ensures Once(s')
  {
    QuietKeys(s, s');
    QuietClaimed(s, s');
    QuietCandidates(s, s');
  }

  /** A change of rows alone. */
  lemma {:induction false} RowsOnce(s: System, jobs: map<JobId, Job>)
    requires Once(s) && RowsStay(s.jobs, jobs)
    ensures Once(s.(jobs := jobs))
  {
    QuietOnce(s, s.(jobs := jobs));
  }

  /** Workers that end. */
  lemma {:induction false} LeaveOnce(s: System, workers: map<WorkerId, Worker>, clock: int)
    requires Once(s) && forall w :: w in workers ==> w in s.workers && workers[w] == s.workers[w]
    ensures Once(s.(workers := workers, clock := clock))
  {
    QuietOnce(s, s.(workers := workers, clock := clock));
  }

  lemma {:induction false} DropOnce(s: System, p: UploadId, removed: bool)
    requires Once(s) && p in s.uploads
    ensures Once(DropUpload(s, p, removed))
  {
    var s' := DropUpload(s, p, removed);
    forall w | w in s.workers && Holding(s.workers[w].phase) ensures s.workers[w].key in s'.objects {
      assert s.jobs[s.workers[w].job].key != s.uploads[p].key;
    }
    QuietOnce(s, s');
  }

  /** A step of worker `w` that moves its row on and keeps every object. */
  lemma {:induction false} MoveOnce(s: System, s': System, w: WorkerId)
    requires Once(s) && w in s.workers && w in s'.workers
    requires s'.workers == s.workers[w := s'.workers[w]]
    requires s'.workers[w].job == s.workers[w].job && s'.workers[w].key == s.workers[w].key
    requires Early(s'.workers[w].phase) ==> Early(s.workers[w].phase)
    requires Holding(s'.workers[w].phase) ==> s.workers[w].key in s.objects
    requires RowsStay(s.jobs, s'.jobs)
    requires s'.candidates == s.candidates && s'.objects == s.objects && s'.uploads == s.uploads && s'.issued == s.issued
    ensures Once(s')
  {
    QuietOnce(s, s');
  }

  lemma {:induction false} ParseOnce(s: System, w: WorkerId, s': System)
    requires Once(s) && DoParse(s, w) == Some(s')
    ensures Once(s')
  {
    MoveOnce(s, s', w);
  }

  lemma {:induction false} CommitRows(s: System, w: WorkerId, row: Job, target: IngestionState, phase: Phase)
    requires w in s.workers && s.workers[w].job in s.jobs && QueuedIsNew(s) && target != Queued
    requires row.key == s.jobs[s.workers[w].job].key && row.attempts == s.jobs[s.workers[w].job].attempts
    ensures RowsStay(s.jobs, Commit(s, w, row, target, phase).jobs)
  {
  }

  lemma {:induction false} ExtractOnce(s: System, w: WorkerId, s': System)
    requires Once(s) && DoExtract(s, w) == Some(s')
    ensures Once(s')
  {
    CommitRows(s, w, s.jobs[s.workers[w].job], IngestionState.Extracting, Extracted);
    MoveOnce(s, s', w);
  }

  lemma {:induction false} InsertOnce(s: System, w: WorkerId, cid: CandidateId, pii: Pii, s': System)
    requires Once(s) && DoInsert(s, w, cid, pii) == Some(s')
    ensures Once(s')
  {
    MoveOnce(s, s', w);
  }

  lemma {:induction false} LoadKnownOnce(s: System, w: WorkerId, s': System)
    requires Once(s) && DoLoadKnown(s, w) == Some(s')
    ensures Once(s')
  {
    CommitRows(s, w, s.jobs[s.workers[w].job], IngestionState.Extracting, s'.workers[w].phase);
    MoveOnce(s, s', w);
  }

  lemma {:induction false} CommitScoreOnce(s: System, w: WorkerId, score: nat, s': System)
    requires Once(s) && DoCommitScore(s, w, score) == Some(s')
    ensures Once(s')
  {
    CommitRows(s, w, s.jobs[s.workers[w].job].(score := Some(score)), Completed, Finished);
    MoveOnce(s, s', w);
  }

  lemma {:induction false} RaiseOnce(s: System, w: WorkerId, s': System)
    requires Once(s) && DoRaise(s, w) == Some(s')
    ensures Once(s')
  {
    MoveOnce(s, s', w);
  }

  /** No other worker has the key of this one's job. */
  lemma {:induction false} OtherKey(s: System, w: WorkerId, v: WorkerId)
    requires KeysOwned(s) && OneWorkerEach(s) && w in s.workers && v in s.workers && v != w
    ensures s.workers[v].key != s.workers[w].key
  {
  }

  /** The delete of the duplicate branch hits an object of this job alone. */
  lemma {:induction false} DuplicateWorkers(s: System, w: WorkerId, owner: CandidateId, removed: bool, raised: bool, s': System)
    requires HoldersHave(s) && DoDuplicate(s, w, owner, removed, raised) == Some(s')
    requires forall v :: v in s.workers && v != w ==> s.workers[v].key != s.workers[w].key
    ensures WorkersStay(s, s')
  {
  }

  /** And that object is no candidate's. */
  lemma {:induction false} DuplicateCandidates(s: System, w: WorkerId, owner: CandidateId, removed: bool, raised: bool, s': System)
    requires CandidatesApart(s) && DoDuplicate(s, w, owner, removed, raised) == Some(s')
    ensures CandidatesStay(s, s') && s'.jobs == s.jobs
  {
  }

  lemma {:induction false} DuplicateOnce(s: System, w: WorkerId, owner: CandidateId, removed: bool, raised: bool, s': System)
    requires Once(s) && DoDuplicate(s, w, owner, removed, raised) == Some(s')
    ensures Once(s')
  {
    forall v | v in s.workers && v != w ensures s.workers[v].key != s.workers[w].key {
      OtherKey(s, w, v);
    }
    DuplicateWorkers(s, w, owner, removed, raised, s');
    DuplicateCandidates(s, w, owner, removed, raised, s');
    QuietOnce(s, s');
  }

  lemma {:induction false} FailureRows(s: System, w: WorkerId, target: IngestionState, error: string, s': System)
    requires QueuedIsNew(s) && DoRecordFailure(s, w, target, error) == Some(s')
    ensures RowsStay(s.jobs, s'.jobs) && s' == s.(jobs := s'.jobs, workers := s.workers - {w})
  {
  }

  lemma {:induction false} RecordFailureOnce(s: System, w: WorkerId, target: IngestionState, error: string, s': System)
    requires Once(s) && DoRecordFailure(s, w, target, error) == Some(s')
    ensures Once(s')
  {
    FailureRows(s, w, target, error, s');
    RowsOnce(s, s'.jobs);
    LeaveOnce(s.(jobs := s'.jobs), s.workers - {w}, s.clock);
  }

  lemma {:induction false} DieOnce(s: System, w: WorkerId, s': System)
    requires Once(s) && DoDie(s, w) == Some(s')
    ensures Once(s')
  {
    LeaveOnce(s, s'.workers, s.clock);
  }

  lemma {:induction false} TickWorkers(s: System, to: int, s': System)
    requires DoTick(s, to) == Some(s')
    ensures s' == s.(workers := s'.workers, clock := to)
    ensures forall w :: w in s'.workers ==> w in s.workers && s'.workers[w] == s.workers[w]
  {
  }

  lemma {:induction false} TickOnce(s: System, to: int, s': System)
    requires Once(s) && DoTick(s, to) == Some(s')
    ensures Once(s')
  {
    TickWorkers(s, to, s');
    LeaveOnce(s, s'.workers, to);
  }

  /** With one attempt, a sweep queues no claimed job. */
  lemma {:induction false} SweepRows(
    jobs: map<JobId, Job>, now: int, maxAttempts: nat, dbNow: int, skipReclaim: set<JobId>, skipResolve: set<JobId>)
    requires maxAttempts <= 1 && forall id :: id in jobs && jobs[id].state == Queued ==> jobs[id].attempts == 0
    ensures RowsStay(jobs, SweepJobs(jobs, now, maxAttempts, dbNow, skipReclaim, skipResolve))
  {
  }

  lemma {:induction false} SweepOnce(
    cfg: Config, s: System, now: int, skipReclaim: set<JobId>, skipResolve: set<JobId>, s': System)
    requires cfg.maxAttempts <= 1 && Once(s) && DoSweep(cfg, s, now, skipReclaim, skipResolve) == Some(s')
    ensures Once(s')
  {
    SweepRows(s.jobs, now, cfg.maxAttempts, s.clock, skipReclaim, skipResolve);
    RowsOnce(s, s'.jobs);
  }

  // ----- steps that create -----

  lemma {:induction false} StoreKeys(s: System, p: UploadId, key: Key, sha: Sha, s': System)
    requires KeysOwned(s) && DoStore(s, p, key, sha) == Some(s')
    ensures KeysOwned(s')
  {
  }

  /** A fresh key is no candidate's. */
  lemma {:induction false} StoreCandidates(s: System, p: UploadId, key: Key, sha: Sha, s': System)
    requires CandidatesApart(s) && HoldersHave(s) && DoStore(s, p, key, sha) == Some(s')
    ensures CandidatesApart(s') && HoldersHave(s')
  {
  }

  lemma {:induction false} StoreOnce(s: System, p: UploadId, key: Key, sha: Sha, s': System)
    requires Once(s) && DoStore(s, p, key, sha) == Some(s')
    ensures Once(s')
  {
    StoreKeys(s, p, key, sha, s');
    StoreCandidates(s, p, key, sha, s');
    assert s'.jobs == s.jobs && s'.workers == s.workers;
  }

  lemma {:induction false} CreateKeys(s: System, p: UploadId, id: JobId, s': System)
    requires KeysOwned(s) && DoCreate(s, p, id) == Some(s')
    ensures KeysOwned(s')
  {
  }

  lemma {:induction false} NewRow(jobs: map<JobId, Job>, workers: map<WorkerId, Worker>, id: JobId, row: Job, w: WorkerId)
    requires id !in jobs && w in workers && workers[w].job in jobs
    ensures workers[w].job in jobs[id := row] && jobs[id := row][workers[w].job] == jobs[workers[w].job]
  {
  }

  lemma {:induction false} CreateRows(s: System, p: UploadId, id: JobId, s': System)
    requires QueuedIsNew(s) && DoCreate(s, p, id) == Some(s')
    ensures QueuedIsNew(s')
  {
  }

  lemma {:induction false} CreateWorkers(s: System, p: UploadId, id: JobId, s': System)
    requires OneWorkerEach(s) && DoCreate(s, p, id) == Some(s')
    ensures OneWorkerEach(s')
  {
    forall w | w in s.workers
      ensures s.workers[w].job in s'.jobs && s'.jobs[s.workers[w].job] == s.jobs[s.workers[w].job]
    {
      NewRow(s.jobs, s.workers, id, s'.jobs[id], w);
    }
    assert s'.workers == s.workers;
  }

  /** An upload's key is no candidate's, so neither is the new job's. */
  lemma {:induction false} CreateCandidates(s: System, p: UploadId, id: JobId, s': System)
    requires CandidatesApart(s) && HoldersHave(s) && DoCreate(s, p, id) == Some(s')
    ensures CandidatesApart(s') && HoldersHave(s')
  {
  }

  lemma {:induction false} CreateOnce(s: System, p: UploadId, id: JobId, s': System)
    requires Once(s) && DoCreate(s, p, id) == Some(s')
    ensures Once(s')
  {
    CreateKeys(s, p, id, s');
    CreateRows(s, p, id, s');
    CreateWorkers(s, p, id, s');
    CreateCandidates(s, p, id, s');
  }

  lemma {:induction false} ClaimRows(cfg: Config, s: System, w: WorkerId, id: JobId, started: int, activeRule: bool, s': System)
    requires QueuedIsNew(s) && OneWorkerEach(s) && DoClaim(cfg, s, w, id, started, activeRule) == Some(s')
    ensures QueuedIsNew(s') && OneWorkerEach(s')
  {
    forall v | v in s.workers ensures s.workers[v].job != id {
    }
  }

  /** A queued job's key is no candidate's, so the worker that claims it starts apart from all of them. */
  lemma {:induction false} ClaimCandidates(cfg: Config, s: System, w: WorkerId, id: JobId, started: int, activeRule: bool, s': System)
    requires QueuedIsNew(s) && CandidatesApart(s) && HoldersHave(s)
    requires DoClaim(cfg, s, w, id, started, activeRule) == Some(s')
    ensures CandidatesApart(s') && HoldersHave(s')
  {
    forall c | c in s.candidates ensures s.candidates[c].key != s.jobs[id].key {
    }
  }

  lemma {:induction false} ClaimKeys(cfg: Config, s: System, w: WorkerId, id: JobId, started: int, activeRule: bool, s': System)
    requires KeysOwned(s) && DoClaim(cfg, s, w, id, started, activeRule) == Some(s')
    ensures KeysOwned(s')
  {
  }

  /** Every candidate is an old one, or names an object of worker `w` that stands. */
  ghost predicate NewFrom(s: System, w: WorkerId, candidates: map<CandidateId, Candidate>)
    requires w in s.workers
  {
    forall c :: c in candidates ==>
                  || (c in s.candidates && candidates[c] == s.candidates[c])
                  || (candidates[c].key == s.workers[w].key && s.workers[w].key in s.objects)
  }

  /** A worker that is past its commit gives its object to a candidate: nobody else can reach it. */
  lemma {:induction false} AddCandidate(s: System, w: WorkerId, candidates: map<CandidateId, Candidate>)
    requires Once(s) && w in s.workers && !Early(s.workers[w].phase) && NewFrom(s, w, candidates)
    ensures Once(s.(candidates := candidates))
  {
    forall v | v in s.workers && v != w ensures s.workers[v].key != s.workers[w].key {
      OtherKey(s, w, v);
    }
    assert s.jobs[s.workers[w].job].key == s.workers[w].key;
    assert CandidatesApart(s.(candidates := candidates));
  }

  /** The commit without the candidate row: the worker is past it, and its row has moved on. */
  ghost predicate PastCommit(s: System, moved: System, w: WorkerId) {
    && w in s.workers && w in moved.workers
    && moved.workers == s.workers[w := moved.workers[w]]
    && moved.workers[w].job == s.workers[w].job && moved.workers[w].key == s.workers[w].key
    && !Early(moved.workers[w].phase)
    && moved == s.(jobs := moved.jobs, workers := moved.workers)
    && RowsStay(s.jobs, moved.jobs)
  }

  lemma {:induction false} CommitMoves(s: System, w: WorkerId, s': System)
    requires QueuedIsNew(s) && DoCommitCandidate(s, w) == Some(s')
    ensures PastCommit(s, s'.(candidates := s.candidates), w)
  {
  }

  lemma {:induction false} CommitAdds(s: System, w: WorkerId, s': System)
    requires HoldersHave(s) && DoCommitCandidate(s, w) == Some(s')
    ensures NewFrom(s, w, s'.candidates)
  {
  }

  lemma {:induction false} PastCommitOnce(s: System, moved: System, w: WorkerId)
    requires Once(s) && PastCommit(s, moved, w)
    ensures Once(moved)
  {
    MoveOnce(s, moved, w);
  }

  lemma {:induction false} CommitCandidateOnce(s: System, w: WorkerId, s': System)
    requires Once(s) && DoCommitCandidate(s, w) == Some(s')
    ensures Once(s')
  {
    var moved := s'.(candidates := s.candidates);
    CommitMoves(s, w, s');
    CommitAdds(s, w, s');
    PastCommitOnce(s, moved, w);
    AddCandidate(moved, w, s'.candidates);
  }

  lemma {:induction false} ClaimOnce(cfg: Config, s: System, w: WorkerId, id: JobId, started: int, activeRule: bool, s': System)
    requires Once(s) && DoClaim(cfg, s, w, id, started, activeRule) == Some(s')
    ensures Once(s')
  {
    ClaimKeys(cfg, s, w, id, started, activeRule, s');
    ClaimRows(cfg, s, w, id, started, activeRule, s');
    ClaimCandidates(cfg, s, w, id, started, activeRule, s');
  }

  // ----- every run -----

  lemma {:induction false} WorkerStepOnce(cfg: Config, s: System, a: Action, s': System)
    requires Once(s) && Step(cfg, s, a) == Some(s')
    requires a.Parse? || a.Extract? || a.Insert? || a.Duplicate? || a.LoadKnown? || a.CommitCandidate? || a.CommitScore?
             || a.Raise? || a.RecordFailure? || a.Die?
    ensures Once(s')
  {
    match a
    case Parse(w) => ParseOnce(s, w, s');
    case Extract(w) => ExtractOnce(s, w, s');
    case Insert(w, cid, pii) => InsertOnce(s, w, cid, pii, s');
    case Duplicate(w, owner, removed, raised) => DuplicateOnce(s, w, owner, removed, raised, s');
    case LoadKnown(w) => LoadKnownOnce(s, w, s');
    case CommitCandidate(w) => CommitCandidateOnce(s, w, s');
    case CommitScore(w, score) => CommitScoreOnce(s, w, score, s');
    case Raise(w) => RaiseOnce(s, w, s');
    case RecordFailure(w, target, error) => RecordFailureOnce(s, w, target, error, s');
    case Die(w) => DieOnce(s, w, s');
  }

  lemma {:induction false} IntakeStepOnce(cfg: Config, s: System, a: Action, s': System)
    requires Once(s) && Step(cfg, s, a) == Some(s') && (a.Store? || a.Create? || a.Reuse? || a.Abandon?)
    ensures Once(s')
  {
    match a
    case Store(p, key, sha) => StoreOnce(s, p, key, sha, s');
    case Create(p, id) => CreateOnce(s, p, id, s');
    case Reuse(p, removed) => DropOnce(s, p, removed);
    case Abandon(p, removed) => DropOnce(s, p, removed);
  }

  lemma {:induction false} TimeStepOnce(cfg: Config, s: System, a: Action, s': System)
    requires cfg.maxAttempts <= 1 && Once(s) && Step(cfg, s, a) == Some(s') && (a.Tick? || a.Claim? || a.Sweep?)
    ensures Once(s')
  {
    match a
    case Tick(to) => TickOnce(s, to, s');
    case Claim(w, id, started, activeRule) => ClaimOnce(cfg, s, w, id, started, activeRule, s');
    case Sweep(now, skipReclaim, skipResolve) => SweepOnce(cfg, s, now, skipReclaim, skipResolve, s');
  }

  lemma {:induction false} StepOnce(cfg: Config, s: System, a: Action, s': System)
    requires cfg.maxAttempts <= 1 && Once(s) && Step(cfg, s, a) == Some(s')
    ensures Once(s')
  {
    if a.Store? || a.Create? || a.Reuse? || a.Abandon? {
      IntakeStepOnce(cfg, s, a, s');
    } else if a.Tick? || a.Claim? || a.Sweep? {
      TimeStepOnce(cfg, s, a, s');
    } else {
      WorkerStepOnce(cfg, s, a, s');
    }
  }

  lemma {:induction false} RunOnce(cfg: Config, actions: seq<Action>, s: System)
    requires cfg.maxAttempts <= 1 && Run(cfg, INITIAL, actions) == Some(s)
    ensures Once(s)
  {
    if actions != [] {
      var before := Run(cfg, INITIAL, actions[..|actions| - 1]).value;
      RunOnce(cfg, actions[..|actions| - 1], before);
      StepOnce(cfg, before, actions[|actions| - 1], s);
    }
  }

  /** Whatever the lease, one attempt keeps every candidate's object in every reachable state. */
  lemma {:induction false} OneAttemptIsSafe(cfg: Config, s: System)
    requires cfg.maxAttempts <= 1 && Reachable(cfg, s)
    ensures ObjectsSafe(s)
  {
    var actions :| Run(cfg, INITIAL, actions) == Some(s);
    RunOnce(cfg, actions, s);
  }
}
