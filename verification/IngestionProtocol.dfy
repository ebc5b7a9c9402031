/**
 The ingestion protocol as a state machine: uploads, workers, the sweeper and one clock.

 Every action is one database commit, one storage effect, or one failure. Messages are not
 represented: a claim may be tried for any job at any time, which covers lost, late and
 duplicated ones.
 */
module IngestionProtocol {
  import opened Common
  import opened IngestionStates
  import opened IngestionRows

  type Pii = nat
  type WorkerId = nat
  type UploadId = nat

  datatype Config = Config(timeLimit: nat, lease: nat, maxAttempts: nat)

  datatype Candidate = Candidate(pii: Pii, key: Key)

  /** Where a worker stands in `run_job`. */
  datatype Phase =
    | Fresh
    | Parsed
    | Extracted
    | Inserted(cid: CandidateId, pii: Pii)
    | Resolved(known: CandidateId)
    | Judging
    | Failing
    | Finished

  /** A live task. `state`, `key` and `candidate` are its session's cached copy of the row. */
  datatype Worker = Worker(
    job: JobId, deadline: int, activeRule: bool,
    state: IngestionState, key: Key, candidate: Option<CandidateId>, phase: Phase)

  /** An upload whose object is stored and whose job is not committed yet. */
  datatype Upload = Upload(key: Key, sha: Sha)

  datatype System = System(
    clock: int,
    jobs: map<JobId, Job>,
    candidates: map<CandidateId, Candidate>,
    objects: set<Key>,
    issued: set<Key>,
    workers: map<WorkerId, Worker>,
    uploads: map<UploadId, Upload>)

  const INITIAL := System(0, map[], map[], {}, {}, map[], map[])

  datatype Action =
    | Tick(to: int)
    // intake
    | Store(p: UploadId, newKey: Key, sha: Sha)
    | Create(p: UploadId, newJob: JobId)
    | Reuse(p: UploadId, removed: bool)
    | Abandon(p: UploadId, removed: bool)
    // worker
    | Claim(w: WorkerId, job: JobId, started: int, activeRule: bool)
    | Parse(w: WorkerId)
    | Extract(w: WorkerId)
    | Insert(w: WorkerId, cid: CandidateId, pii: Pii)
    | Duplicate(w: WorkerId, owner: CandidateId, removed: bool, raised: bool)
    | LoadKnown(w: WorkerId)
    | CommitCandidate(w: WorkerId)
    | CommitScore(w: WorkerId, score: nat)
    | Raise(w: WorkerId)
    | RecordFailure(w: WorkerId, target: IngestionState, error: string)
    | Die(w: WorkerId)
    // sweeper
    | Sweep(now: int, skipReclaim: set<JobId>, skipResolve: set<JobId>)

  // ----- intake -----

  predicate HasActive(jobs: map<JobId, Job>, sha: Sha) {
    exists id :: id in jobs && jobs[id].sha == sha && IsActive(jobs[id].state)
  }

  function DoStore(s: System, p: UploadId, key: Key, sha: Sha): Option<System> {
    if p in s.uploads || key in s.issued then None
    else Some(s.(
                objects := s.objects + {key}, issued := s.issued + {key},
                uploads := s.uploads[p := Upload(key, sha)]))
  }

  /** The insert wins the partial unique index and commits. */
  function DoCreate(s: System, p: UploadId, id: JobId): Option<System> {
    if p !in s.uploads || id in s.jobs || HasActive(s.jobs, s.uploads[p].sha) then None
    else
      var upload := s.uploads[p];
      Some(s.(jobs := s.jobs[id := NewJob(upload.sha, upload.key, s.clock)], uploads := s.uploads - {p}))
  }

  /** The upload ends without a job of its own; its object is deleted, or the delete failed. */
  function DropUpload(s: System, p: UploadId, removed: bool): System
    requires p in s.uploads
  {
    s.(objects := if removed then s.objects - {s.uploads[p].key} else s.objects, uploads := s.uploads - {p})
  }

  function DoReuse(s: System, p: UploadId, removed: bool): Option<System> {
    if p !in s.uploads || !HasActive(s.jobs, s.uploads[p].sha) then None
    else Some(DropUpload(s, p, removed))
  }

  function DoAbandon(s: System, p: UploadId, removed: bool): Option<System> {
    if p !in s.uploads then None else Some(DropUpload(s, p, removed))
  }

  // ----- worker -----

  function DoClaim(
    cfg: Config, s: System, w: WorkerId, id: JobId, started: int, activeRule: bool): Option<System>
  {
    if w in s.workers || id !in s.jobs || s.jobs[id].state != Queued
       || !(started <= s.clock <= started + cfg.timeLimit) then None
    else
      var row := ClaimRow(s.jobs[id], s.clock, cfg.lease, s.clock);
      var worker := Worker(id, started + cfg.timeLimit, activeRule, row.state, row.key, row.candidate, Fresh);
      Some(s.(jobs := s.jobs[id := row], workers := s.workers[w := worker]))
  }

  function DoParse(s: System, w: WorkerId): Option<System> {
    if w !in s.workers then None
    else
      var me := s.workers[w];
      if me.phase != Fresh || me.candidate.Some? || me.key !in s.objects then None
      else Some(s.(workers := s.workers[w := me.(phase := Parsed)]))
  }

  /** Commit a cached-state transition of the worker's row, and the worker's next phase. */
  function Commit(s: System, w: WorkerId, row: Job, target: IngestionState, phase: Phase): System
    requires w in s.workers && s.workers[w].job in s.jobs
  {
    var me := s.workers[w];
    s.(
      jobs := s.jobs[me.job := MoveRow(row, target, None, s.clock)],
      workers := s.workers[w := me.(state := target, phase := phase)])
  }

  function DoExtract(s: System, w: WorkerId): Option<System> {
    if w !in s.workers || s.workers[w].job !in s.jobs then None
    else
      var me := s.workers[w];
      if me.phase != Parsed || IngestionState.Extracting !in Allowed(me.state) then None
      else Some(Commit(s, w, s.jobs[me.job], IngestionState.Extracting, Extracted))
  }

  predicate Pending(s: System, pii: Pii) {
    exists w :: w in s.workers && s.workers[w].phase.Inserted? && s.workers[w].phase.pii == pii
  }

  predicate Taken(s: System, cid: CandidateId) {
    || cid in s.candidates
    || exists w :: w in s.workers && s.workers[w].phase.Inserted? && s.workers[w].phase.cid == cid
  }

  predicate HasPii(candidates: map<CandidateId, Candidate>, pii: Pii) {
    exists c :: c in candidates && candidates[c].pii == pii
  }

  /** The candidate insert wins; it holds the unique key until it commits or rolls back. */
  function DoInsert(s: System, w: WorkerId, cid: CandidateId, pii: Pii): Option<System> {
    if w !in s.workers || Taken(s, cid) || Pending(s, pii) || HasPii(s.candidates, pii) then None
    else
      var me := s.workers[w];
      if me.phase != Extracted then None
      else Some(s.(workers := s.workers[w := me.(phase := Inserted(cid, pii))]))
  }

  /** Another candidate owns the identity: verify its object, then delete this job's own. */
  function DoDuplicate(s: System, w: WorkerId, owner: CandidateId, removed: bool, raised: bool): Option<System> {
    if w !in s.workers || owner !in s.candidates || s.candidates[owner].key !in s.objects
       || (!raised && !removed) then None
    else
      var me := s.workers[w];
      if me.phase != Extracted then None
      else Some(s.(
                  objects := if removed then s.objects - {me.key} else s.objects,
                  workers := s.workers[w := me.(phase := if raised then Failing else Resolved(owner))]))
  }

  /** A retry of a job whose candidate is known skips storage, parsing and extraction. */
  function DoLoadKnown(s: System, w: WorkerId): Option<System> {
    if w !in s.workers || s.workers[w].job !in s.jobs then None
    else
      var me := s.workers[w];
      if me.phase != Fresh || me.candidate.None? || me.candidate.value !in s.candidates
         || IngestionState.Extracting !in Allowed(me.state) then None
      else Some(Commit(s, w, s.jobs[me.job], IngestionState.Extracting, Resolved(me.candidate.value)))
  }

  /** One commit makes the candidate row, the job's link to it and the next state durable together. */
  function DoCommitCandidate(s: System, w: WorkerId): Option<System> {
    if w !in s.workers || s.workers[w].job !in s.jobs then None
    else
      var me := s.workers[w];
      var target := if me.activeRule then IngestionState.Scoring else Ready;
      if !(me.phase.Inserted? || me.phase.Resolved?) || target !in Allowed(me.state) then None
      else
        var cid := if me.phase.Inserted? then me.phase.cid else me.phase.known;
        var row := s.jobs[me.job].(candidate := Some(cid));
        var next := Commit(s, w, row, target, if me.activeRule then Judging else Finished);
        Some(next.(
               candidates := if me.phase.Inserted?
                             then s.candidates[cid := Candidate(me.phase.pii, me.key)]
                             else s.candidates,
               workers := next.workers[w := next.workers[w].(candidate := Some(cid))]))
  }

  function DoCommitScore(s: System, w: WorkerId, score: nat): Option<System> {
    if w !in s.workers || s.workers[w].job !in s.jobs then None
    else
      var me := s.workers[w];
      if me.phase != Judging || Completed !in Allowed(me.state) then None
      else Some(Commit(s, w, s.jobs[me.job].(score := Some(score)), Completed, Finished))
  }

  /** Any exception: the session rolls back, so an uncommitted candidate vanishes. */
  function DoRaise(s: System, w: WorkerId): Option<System> {
    if w !in s.workers then None
    else Some(s.(workers := s.workers[w := s.workers[w].(phase := Failing)]))
  }

  /** `_fail_job` reads the row afresh; the transition table may refuse, and the task ends anyway. */
  function DoRecordFailure(s: System, w: WorkerId, target: IngestionState, error: string): Option<System> {
    if w !in s.workers || s.workers[w].phase != Failing || target !in {RetryableFailed, TerminalFailed} then None
    else
      var id := s.workers[w].job;
      var left := s.(workers := s.workers - {w});
      if id !in s.jobs || target !in Allowed(s.jobs[id].state) then Some(left)
      else Some(left.(jobs := s.jobs[id := MoveRow(s.jobs[id], target, Some(error), s.clock)]))
  }

  function DoDie(s: System, w: WorkerId): Option<System> {
    if w !in s.workers then None else Some(s.(workers := s.workers - {w}))
  }

  // ----- clock and sweeper -----

  /** Time passes; a task that reaches its time limit is killed. */
  function DoTick(s: System, to: int): Option<System> {
    if to < s.clock then None
    else Some(s.(clock := to, workers := map w | w in s.workers && to <= s.workers[w].deadline :: s.workers[w]))
  }

  function SweepJobs(
    jobs: map<JobId, Job>, now: int, maxAttempts: nat, dbNow: int,
    skipReclaim: set<JobId>, skipResolve: set<JobId>): map<JobId, Job>
  {
    map id | id in jobs :: SweepRow(jobs[id], now, maxAttempts, dbNow, id in skipReclaim, id in skipResolve)
  }

  /** One sweep transaction; `now` was read before it started. */
  function DoSweep(
    cfg: Config, s: System, now: int, skipReclaim: set<JobId>, skipResolve: set<JobId>): Option<System>
  {
    if now > s.clock then None
    else Some(s.(jobs := SweepJobs(s.jobs, now, cfg.maxAttempts, s.clock, skipReclaim, skipResolve)))
  }

  /** One step of the protocol; None when the action is not enabled. */
  function Step(cfg: Config, s: System, a: Action): Option<System> {
    match a
    case Tick(to) => DoTick(s, to)
    case Store(p, key, sha) => DoStore(s, p, key, sha)
    case Create(p, id) => DoCreate(s, p, id)
    case Reuse(p, removed) => DoReuse(s, p, removed)
    case Abandon(p, removed) => DoAbandon(s, p, removed)
    case Claim(w, id, started, activeRule) => DoClaim(cfg, s, w, id, started, activeRule)
    case Parse(w) => DoParse(s, w)
    case Extract(w) => DoExtract(s, w)
    case Insert(w, cid, pii) => DoInsert(s, w, cid, pii)
    case Duplicate(w, owner, removed, raised) => DoDuplicate(s, w, owner, removed, raised)
    case LoadKnown(w) => DoLoadKnown(s, w)
    case CommitCandidate(w) => DoCommitCandidate(s, w)
    case CommitScore(w, score) => DoCommitScore(s, w, score)
    case Raise(w) => DoRaise(s, w)
    case RecordFailure(w, target, error) => DoRecordFailure(s, w, target, error)
    case Die(w) => DoDie(s, w)
    case Sweep(now, skipReclaim, skipResolve) => DoSweep(cfg, s, now, skipReclaim, skipResolve)
  }

  /** The state a run of actions reaches; None when some action was not enabled. */
  function Run(cfg: Config, s: System, actions: seq<Action>): Option<System> {
    if actions == [] then Some(s)
    else
      var before := Run(cfg, s, actions[..|actions| - 1]);
      if before.None? then None else Step(cfg, before.value, actions[|actions| - 1])
  }

  ghost predicate Reachable(cfg: Config, s: System) {
    exists actions :: Run(cfg, INITIAL, actions) == Some(s)
  }

  // ----- runs compose -----

  lemma {:induction false} RunOne(cfg: Config, s: System, a: Action, t: System)
    requires Step(cfg, s, a) == Some(t)
    ensures Run(cfg, s, [a]) == Some(t)
  {
    assert [a][..0] == [];
  }

  lemma {:induction false} RunTwo(cfg: Config, s: System, a: Action, t: System, b: Action, u: System)
    requires Step(cfg, s, a) == Some(t) && Step(cfg, t, b) == Some(u)
    ensures Run(cfg, s, [a, b]) == Some(u)
  {
    RunOne(cfg, s, a, t);
    assert [a, b][..1] == [a];
  }

  lemma {:induction false} RunJoin(
    cfg: Config, s: System, first: seq<Action>, t: System, second: seq<Action>, u: System)
    requires Run(cfg, s, first) == Some(t) && Run(cfg, t, second) == Some(u)
    ensures Run(cfg, s, first + second) == Some(u)
  {
    if second == [] {
      assert first + second == first;
    } else {
      var earlier := second[..|second| - 1];
      RunJoin(cfg, s, first, t, earlier, Run(cfg, t, earlier).value);
      assert (first + second)[..|first + second| - 1] == first + earlier;
    }
  }
}
