/**
 Safety of the ingestion protocol over every run, given that a task is killed no later than
 its lease runs out: one owner per job, and no candidate ever loses its stored object.
 */
module IngestionSafety {
  import opened Common
  import opened IngestionStates
  import opened IngestionRows
  import opened IngestionProtocol

  /** A worker that may still write its job. */
  predicate Driving(me: Worker) {
    IsProcessing(me.state)
  }

  /** A live owner's cached copy is the row, and its lease outlives its task. */
  ghost predicate OwnersAgree(s: System) {
    forall w :: w in s.workers ==>
                  var me := s.workers[w];
                  && me.job in s.jobs
                  && var row := s.jobs[me.job];
                  && me.key == row.key
                  && s.clock <= me.deadline
                  && (Driving(me) ==> row.state == me.state && row.candidate == me.candidate
                                      && row.lease.Some? && me.deadline <= row.lease.value)
                  && (!Driving(me) ==> IsTerminal(row.state))
  }

  ghost predicate SoleOwner(s: System) {
    forall w1, w2 | w1 in s.workers && w2 in s.workers ::
      Driving(s.workers[w1]) && Driving(s.workers[w2]) && s.workers[w1].job == s.workers[w2].job ==> w1 == w2
  }

  predicate PhaseOk(s: System, me: Worker) {
    match me.phase
    case Fresh => me.state == Parsing
    case Parsed => me.state == Parsing && me.candidate.None? && me.key in s.objects
    case Extracted => me.state == IngestionState.Extracting && me.candidate.None? && me.key in s.objects
    case Inserted(cid, pii) =>
      me.state == IngestionState.Extracting && me.candidate.None? && me.key in s.objects
      && cid !in s.candidates && !HasPii(s.candidates, pii)
    case Resolved(known) =>
      me.state == IngestionState.Extracting && known in s.candidates
      && (me.candidate.Some? ==> me.candidate.value == known)
    case Judging => me.state == IngestionState.Scoring
    case Failing => true
    case Finished => !Driving(me)
  }

  ghost predicate PhasesOk(s: System) {
    forall w :: w in s.workers ==> PhaseOk(s, s.workers[w])
  }

  /** The unique keys serialise uncommitted inserts. */
  ghost predicate PendingDistinct(s: System) {
    forall w1, w2 | w1 in s.workers && w2 in s.workers && w1 != w2 ::
      s.workers[w1].phase.Inserted? && s.workers[w2].phase.Inserted? ==>
        && s.workers[w1].phase.cid != s.workers[w2].phase.cid
        && s.workers[w1].phase.pii != s.workers[w2].phase.pii
  }

  /** Each stored object belongs to one job or one upload. */
  ghost predicate KeysOwned(s: System) {
    && (forall id :: id in s.jobs ==> s.jobs[id].key in s.issued)
    && (forall p :: p in s.uploads ==> s.uploads[p].key in s.issued)
    && (forall i, j :: i in s.jobs && j in s.jobs && s.jobs[i].key == s.jobs[j].key ==> i == j)
    && (forall p, q :: p in s.uploads && q in s.uploads && s.uploads[p].key == s.uploads[q].key ==> p == q)
    && (forall id, p :: id in s.jobs && p in s.uploads ==> s.jobs[id].key != s.uploads[p].key)
  }

  /** A candidate's object came from the one job that is linked to it. */
  ghost predicate CandidatesLinked(s: System) {
    && (forall c :: c in s.candidates ==> s.candidates[c].key in s.issued)
    && (forall c, p :: c in s.candidates && p in s.uploads ==> s.candidates[c].key != s.uploads[p].key)
    && (forall c, id :: c in s.candidates && id in s.jobs && s.candidates[c].key == s.jobs[id].key ==>
                          s.jobs[id].candidate == Some(c))
    && (forall id :: id in s.jobs && s.jobs[id].candidate.Some? ==> s.jobs[id].candidate.value in s.candidates)
  }

  /** Canonical-object safety: the object every candidate row names exists. */
  ghost predicate ObjectsSafe(s: System) {
    forall c :: c in s.candidates ==> s.candidates[c].key in s.objects
  }

  ghost predicate UniquePii(s: System) {
    forall c, d :: c in s.candidates && d in s.candidates && s.candidates[c].pii == s.candidates[d].pii ==> c == d
  }

  /** One active job per content hash. */
  ghost predicate OneActive(s: System) {
    forall i, j | i in s.jobs && j in s.jobs ::
      IsActive(s.jobs[i].state) && IsActive(s.jobs[j].state) && s.jobs[i].sha == s.jobs[j].sha ==> i == j
  }

  ghost predicate Ownership(s: System) {
    OwnersAgree(s) && SoleOwner(s) && PhasesOk(s) && PendingDistinct(s)
  }

  ghost predicate Storage(s: System) {
    KeysOwned(s) && CandidatesLinked(s) && ObjectsSafe(s) && UniquePii(s) && OneActive(s)
  }

  ghost predicate Inv(s: System) {
    Ownership(s) && Storage(s)
  }

  // ----- frames -----

  /** No other live worker, driving or not, has the job of a driving one. */
  lemma {:induction false} DriverIsAlone(s: System, w: WorkerId, other: WorkerId)
    requires OwnersAgree(s) && SoleOwner(s)
    requires w in s.workers && other in s.workers && w != other && Driving(s.workers[w])
    ensures s.workers[other].job != s.workers[w].job
  {
  }

  /** Rows keep their content, and none comes back to life. */
  ghost predicate RowsEvolve(jobs: map<JobId, Job>, jobs': map<JobId, Job>) {
    && jobs'.Keys == jobs.Keys
    && forall id :: id in jobs ==>
                      && jobs'[id].key == jobs[id].key
                      && jobs'[id].sha == jobs[id].sha
                      && jobs'[id].candidate == jobs[id].candidate
                      && (IsActive(jobs'[id].state) ==> IsActive(jobs[id].state))
  }

  lemma {:induction false} StorageFrame(s: System, s': System)
    requires Storage(s) && RowsEvolve(s.jobs, s'.jobs)
    requires s'.candidates == s.candidates && s'.uploads == s.uploads
    requires s'.issued == s.issued && s'.objects == s.objects
    ensures Storage(s')
  {
  }

  /** A step of worker `w` on its own row: the owners still agree. */
  lemma {:induction false} OwnersFrame(s: System, s': System, w: WorkerId)
    requires OwnersAgree(s) && SoleOwner(s) && w in s.workers && w in s'.workers
    requires s'.clock == s.clock && s'.workers == s.workers[w := s'.workers[w]]
    requires var me, me' := s.workers[w], s'.workers[w];
             && me'.job == me.job && me'.key == me.key && me'.deadline == me.deadline
             && me.job in s'.jobs && s'.jobs == s.jobs[me.job := s'.jobs[me.job]]
             && s'.jobs[me.job].key == me.key
             && ((s'.jobs == s.jobs && me'.state == me.state && me'.candidate == me.candidate) || Driving(me))
             && (Driving(me) ==>
                   if Driving(me')
                   then s'.jobs[me.job].state == me'.state && s'.jobs[me.job].candidate == me'.candidate
                        && s'.jobs[me.job].lease == s.jobs[me.job].lease
                   else IsTerminal(s'.jobs[me.job].state))
    ensures OwnersAgree(s') && SoleOwner(s')
  {
    var me := s.workers[w];
    if Driving(me) {
      forall o | o in s.workers && o != w ensures s.workers[o].job != me.job {
        DriverIsAlone(s, w, o);
      }
    }
  }

  /** The other workers' phases survive when their objects and pending inserts are left alone. */
  lemma {:induction false} PhasesFrame(s: System, s': System, w: WorkerId)
    requires PhasesOk(s) && w in s.workers && w in s'.workers
    requires s'.workers == s.workers[w := s'.workers[w]]
    requires PhaseOk(s', s'.workers[w])
    requires s.candidates.Keys <= s'.candidates.Keys
    requires forall o | o in s.workers && o != w ::
               && (Driving(s.workers[o]) && s.workers[o].key in s.objects ==> s.workers[o].key in s'.objects)
               && (s.workers[o].phase.Inserted? ==>
                     s.workers[o].phase.cid !in s'.candidates && !HasPii(s'.candidates, s.workers[o].phase.pii))
    ensures PhasesOk(s')
  {
  }

  // ----- every action keeps the owners -----

  lemma {:induction false} StoreOwnership(s: System, p: UploadId, key: Key, sha: Sha, s': System)
    requires Ownership(s) && DoStore(s, p, key, sha) == Some(s')
    ensures Ownership(s')
  {
    assert PhasesOk(s');
  }

  lemma {:induction false} CreateOwnership(s: System, p: UploadId, id: JobId, s': System)
    requires Ownership(s) && DoCreate(s, p, id) == Some(s')
    ensures Ownership(s')
  {
    assert PhasesOk(s');
  }

  lemma {:induction false} DropUploadOwnership(s: System, p: UploadId, removed: bool)
    requires Ownership(s) && KeysOwned(s) && p in s.uploads
    ensures Ownership(DropUpload(s, p, removed))
  {
    var s' := DropUpload(s, p, removed);
    assert OwnersAgree(s');
    forall w | w in s.workers ensures PhaseOk(s', s'.workers[w]) {
      assert s.jobs[s.workers[w].job].key != s.uploads[p].key;
    }
  }

  lemma {:induction false} ClaimOwners(
    cfg: Config, s: System, w: WorkerId, id: JobId, started: int, activeRule: bool, s': System)
    requires cfg.timeLimit <= cfg.lease
    requires OwnersAgree(s) && SoleOwner(s) && DoClaim(cfg, s, w, id, started, activeRule) == Some(s')
    ensures OwnersAgree(s') && SoleOwner(s')
  {
    forall o | o in s.workers ensures s.workers[o].job != id {
    }
  }

  lemma {:induction false} ClaimPhases(
    cfg: Config, s: System, w: WorkerId, id: JobId, started: int, activeRule: bool, s': System)
    requires PhasesOk(s) && PendingDistinct(s) && DoClaim(cfg, s, w, id, started, activeRule) == Some(s')
    ensures PhasesOk(s') && PendingDistinct(s')
  {
  }

  lemma {:induction false} TickOwnership(s: System, to: int, s': System)
    requires Ownership(s) && DoTick(s, to) == Some(s')
    ensures Ownership(s')
  {
    assert forall w :: w in s'.workers ==> w in s.workers && s'.workers[w] == s.workers[w];
  }

  lemma {:induction false} DieOwnership(s: System, w: WorkerId, s': System)
    requires Ownership(s) && DoDie(s, w) == Some(s')
    ensures Ownership(s')
  {
  }

  lemma {:induction false} PhaseStepOwnership(s: System, w: WorkerId, phase: Phase)
    requires Ownership(s) && w in s.workers
    requires PhaseOk(s, s.workers[w].(phase := phase)) && !phase.Inserted?
    ensures Ownership(s.(workers := s.workers[w := s.workers[w].(phase := phase)]))
  {
    var s' := s.(workers := s.workers[w := s.workers[w].(phase := phase)]);
    OwnersFrame(s, s', w);
    PhasesFrame(s, s', w);
  }

  lemma {:induction false} InsertOwnership(s: System, w: WorkerId, cid: CandidateId, pii: Pii, s': System)
    requires Ownership(s) && DoInsert(s, w, cid, pii) == Some(s')
    ensures Ownership(s')
  {
    OwnersFrame(s, s', w);
    PhasesFrame(s, s', w);
  }

  /** The duplicate branch goes on only beside an owner whose object is there, and takes away no other object than its own. */
  lemma {:induction false} DuplicateVerifies(s: System, w: WorkerId, owner: CandidateId, removed: bool, raised: bool, s': System)
    requires DoDuplicate(s, w, owner, removed, raised) == Some(s')
    ensures w in s.workers && owner in s.candidates && s.candidates[owner].key in s.objects
    ensures s'.objects == s.objects - (if removed then {s.workers[w].key} else {}) && s'.candidates == s.candidates
    ensures s'.workers[w].phase.Resolved? ==> removed && s'.workers[w].phase.known == owner
  {
  }

  lemma {:induction false} DuplicateOwnership(s: System, w: WorkerId, owner: CandidateId, removed: bool, raised: bool, s': System)
    requires Ownership(s) && KeysOwned(s) && DoDuplicate(s, w, owner, removed, raised) == Some(s')
    ensures Ownership(s')
  {
    OwnersFrame(s, s', w);
    DuplicatePhases(s, w, owner, removed, raised, s');
  }

  lemma {:induction false} DuplicatePhases(s: System, w: WorkerId, owner: CandidateId, removed: bool, raised: bool, s': System)
    requires Ownership(s) && KeysOwned(s) && DoDuplicate(s, w, owner, removed, raised) == Some(s')
    ensures PhasesOk(s') && PendingDistinct(s')
  {
    forall o | o in s.workers && o != w ensures s.workers[o].key != s.workers[w].key {
      DriverIsAlone(s, w, o);
    }
    PhasesFrame(s, s', w);
  }

  lemma {:induction false} CommitOwners(s: System, w: WorkerId, row: Job, target: IngestionState, phase: Phase)
    requires OwnersAgree(s) && SoleOwner(s) && w in s.workers && Driving(s.workers[w])
    requires row == s.jobs[s.workers[w].job].(score := row.score)
    requires target in Allowed(s.workers[w].state) && target in {IngestionState.Extracting, Completed}
    ensures var s' := Commit(s, w, row, target, phase); OwnersAgree(s') && SoleOwner(s')
  {
    OwnersFrame(s, Commit(s, w, row, target, phase), w);
  }

  lemma {:induction false} CommitPhases(s: System, w: WorkerId, row: Job, target: IngestionState, phase: Phase)
    requires PhasesOk(s) && PendingDistinct(s) && w in s.workers && s.workers[w].job in s.jobs
    requires PhaseOk(s, s.workers[w].(state := target, phase := phase)) && !phase.Inserted?
    ensures var s' := Commit(s, w, row, target, phase); PhasesOk(s') && PendingDistinct(s')
  {
    PhasesFrame(s, Commit(s, w, row, target, phase), w);
  }

  lemma {:induction false} CommitCandidateOwners(s: System, w: WorkerId, s': System)
    requires OwnersAgree(s) && SoleOwner(s) && PhasesOk(s) && DoCommitCandidate(s, w) == Some(s')
    ensures OwnersAgree(s') && SoleOwner(s')
  {
    OwnersFrame(s, s', w);
  }

  lemma {:induction false} CommitCandidatePhases(s: System, w: WorkerId, s': System)
    requires PhasesOk(s) && PendingDistinct(s) && DoCommitCandidate(s, w) == Some(s')
    ensures PhasesOk(s') && PendingDistinct(s')
  {
    PhasesFrame(s, s', w);
  }

  lemma {:induction false} LeaverOwners(s: System, w: WorkerId)
    requires OwnersAgree(s) && SoleOwner(s)
    ensures var left := s.(workers := s.workers - {w}); OwnersAgree(left) && SoleOwner(left)
  {
  }

  /** A row that no live worker has may change as it likes. */
  lemma {:induction false} FreeRowOwners(s: System, id: JobId, row: Job)
    requires OwnersAgree(s) && SoleOwner(s) && forall w :: w in s.workers ==> s.workers[w].job != id
    ensures var s' := s.(jobs := s.jobs[id := row]); OwnersAgree(s') && SoleOwner(s')
  {
  }

  /** A failure is recorded only by a driving worker: the table refuses it on a terminal row. */
  lemma {:induction false} FailureMoves(s: System, w: WorkerId, target: IngestionState, error: string, s': System)
    requires OwnersAgree(s) && DoRecordFailure(s, w, target, error) == Some(s')
    ensures var left := s.(workers := s.workers - {w});
            var id := s.workers[w].job;
            s' == left || (Driving(s.workers[w]) && id in s'.jobs && s' == left.(jobs := left.jobs[id := s'.jobs[id]]))
  {
    var left, id := s.(workers := s.workers - {w}), s.workers[w].job;
    if s' != left {
      assert s' == left.(jobs := left.jobs[id := MoveRow(s.jobs[id], target, Some(error), s.clock)]);
    }
  }

  lemma {:induction false} RecordFailureOwners(s: System, w: WorkerId, target: IngestionState, error: string, s': System)
    requires OwnersAgree(s) && SoleOwner(s) && DoRecordFailure(s, w, target, error) == Some(s')
    ensures OwnersAgree(s') && SoleOwner(s')
  {
    var left := s.(workers := s.workers - {w});
    LeaverOwners(s, w);
    FailureMoves(s, w, target, error, s');
    if s' != left {
      forall o | o in left.workers ensures left.workers[o].job != s.workers[w].job {
        DriverIsAlone(s, w, o);
      }
      FreeRowOwners(left, s.workers[w].job, s'.jobs[s.workers[w].job]);
    }
  }

  lemma {:induction false} RecordFailurePhases(s: System, w: WorkerId, target: IngestionState, error: string, s': System)
    requires PhasesOk(s) && PendingDistinct(s) && DoRecordFailure(s, w, target, error) == Some(s')
    ensures PhasesOk(s') && PendingDistinct(s')
  {
  }

  /** A live owner's row is never reclaimed, requeued or given up. */
  lemma {:induction false} SweepSparesOwners(
    cfg: Config, s: System, now: int, skipReclaim: set<JobId>, skipResolve: set<JobId>, w: WorkerId)
    requires OwnersAgree(s) && now <= s.clock && w in s.workers
    ensures var id := s.workers[w].job;
            SweepJobs(s.jobs, now, cfg.maxAttempts, s.clock, skipReclaim, skipResolve)[id] == s.jobs[id]
  {
  }

  lemma {:induction false} SweepOwnership(
    cfg: Config, s: System, now: int, skipReclaim: set<JobId>, skipResolve: set<JobId>, s': System)
    requires Ownership(s) && DoSweep(cfg, s, now, skipReclaim, skipResolve) == Some(s')
    ensures Ownership(s')
  {
    forall w | w in s.workers ensures s'.jobs[s.workers[w].job] == s.jobs[s.workers[w].job] {
      SweepSparesOwners(cfg, s, now, skipReclaim, skipResolve, w);
    }
  }

  // ----- every action keeps the stored objects -----

  lemma {:induction false} StoreStorage(s: System, p: UploadId, key: Key, sha: Sha, s': System)
    requires Storage(s) && DoStore(s, p, key, sha) == Some(s')
    ensures Storage(s')
  {
  }

  lemma {:induction false} CreateStorage(s: System, p: UploadId, id: JobId, s': System)
    requires Storage(s) && DoCreate(s, p, id) == Some(s')
    ensures Storage(s')
  {
  }

  lemma {:induction false} DropUploadStorage(s: System, p: UploadId, removed: bool)
    requires Storage(s) && p in s.uploads
    ensures Storage(DropUpload(s, p, removed))
  {
  }

  lemma {:induction false} ClaimStorage(
    cfg: Config, s: System, w: WorkerId, id: JobId, started: int, activeRule: bool, s': System)
    requires Storage(s) && DoClaim(cfg, s, w, id, started, activeRule) == Some(s')
    ensures Storage(s')
  {
    StorageFrame(s, s');
  }

  lemma {:induction false} CommitStorage(s: System, w: WorkerId, row: Job, target: IngestionState, phase: Phase)
    requires Storage(s) && w in s.workers && s.workers[w].job in s.jobs
    requires row == s.jobs[s.workers[w].job].(score := row.score) && IsActive(row.state)
    ensures Storage(Commit(s, w, row, target, phase))
  {
    StorageFrame(s, Commit(s, w, row, target, phase));
  }

  lemma {:induction false} FailureEvolves(s: System, w: WorkerId, target: IngestionState, error: string, s': System)
    requires DoRecordFailure(s, w, target, error) == Some(s')
    ensures RowsEvolve(s.jobs, s'.jobs) && s' == s.(jobs := s'.jobs, workers := s.workers - {w})
  {
  }

  lemma {:induction false} RecordFailureStorage(s: System, w: WorkerId, target: IngestionState, error: string, s': System)
    requires Storage(s) && DoRecordFailure(s, w, target, error) == Some(s')
    ensures Storage(s')
  {
    FailureEvolves(s, w, target, error, s');
    StorageFrame(s, s');
  }

  lemma {:induction false} SweptRowsEvolve(
    jobs: map<JobId, Job>, now: int, maxAttempts: nat, dbNow: int,
    skipReclaim: set<JobId>, skipResolve: set<JobId>)
    ensures RowsEvolve(jobs, SweepJobs(jobs, now, maxAttempts, dbNow, skipReclaim, skipResolve))
  {
  }

  lemma {:induction false} SweepStorage(
    cfg: Config, s: System, now: int, skipReclaim: set<JobId>, skipResolve: set<JobId>, s': System)
    requires Storage(s) && DoSweep(cfg, s, now, skipReclaim, skipResolve) == Some(s')
    ensures Storage(s')
  {
    SweptRowsEvolve(s.jobs, now, cfg.maxAttempts, s.clock, skipReclaim, skipResolve);
    StorageFrame(s, s');
  }

  /** The dangerous delete: no candidate names the key of a job that has none. */
  lemma {:induction false} DuplicateStorage(s: System, w: WorkerId, owner: CandidateId, removed: bool, raised: bool, s': System)
    requires OwnersAgree(s) && PhasesOk(s) && Storage(s)
    requires DoDuplicate(s, w, owner, removed, raised) == Some(s')
    ensures Storage(s')
  {
    var me := s.workers[w];
    assert PhaseOk(s, me);
    forall c | c in s.candidates ensures s.candidates[c].key != me.key {
      assert s.jobs[me.job].candidate.None?;
    }
  }

  /** What the commit of a candidate changes in the stored rows. */
  ghost predicate CandidateCommitted(s: System, s': System, id: JobId, cid: CandidateId) {
    && id in s.jobs && id in s'.jobs
    && s'.jobs == s.jobs[id := s'.jobs[id]]
    && s'.jobs[id].key == s.jobs[id].key && s'.jobs[id].sha == s.jobs[id].sha
    && s'.jobs[id].candidate == Some(cid)
    && IsActive(s.jobs[id].state)
    && s'.objects == s.objects && s'.issued == s.issued && s'.uploads == s.uploads
  }

  /** The candidate was known before, and so was any earlier link of the row. */
  lemma {:induction false} KnownCandidateStorage(s: System, s': System, id: JobId, cid: CandidateId)
    requires Storage(s) && CandidateCommitted(s, s', id, cid)
    requires cid in s.candidates && s'.candidates == s.candidates
    requires s.jobs[id].candidate in {None, Some(cid)}
    ensures Storage(s')
  {
  }

  /** The candidate is new, with a new identity and this job's own object. */
  lemma {:induction false} NewCandidateStorage(s: System, s': System, id: JobId, cid: CandidateId, pii: Pii)
    requires Storage(s) && CandidateCommitted(s, s', id, cid)
    requires cid !in s.candidates && !HasPii(s.candidates, pii)
    requires s'.candidates == s.candidates[cid := Candidate(pii, s.jobs[id].key)]
    requires s.jobs[id].candidate.None? && s.jobs[id].key in s.objects
    ensures Storage(s')
  {
    assert ObjectsSafe(s') && UniquePii(s');
    assert KeysOwned(s') && OneActive(s');
  }

  lemma {:induction false} CommitCandidateStorage(s: System, w: WorkerId, s': System)
    requires OwnersAgree(s) && PhasesOk(s) && Storage(s) && DoCommitCandidate(s, w) == Some(s')
    ensures Storage(s')
  {
    var me := s.workers[w];
    CommitShape(s, w, s');
    if me.phase.Inserted? {
      NewCandidateStorage(s, s', me.job, me.phase.cid, me.phase.pii);
    } else {
      KnownCandidateStorage(s, s', me.job, me.phase.known);
    }
  }

  lemma {:induction false} CommitShape(s: System, w: WorkerId, s': System)
    requires OwnersAgree(s) && PhasesOk(s) && DoCommitCandidate(s, w) == Some(s')
    ensures var me := s.workers[w];
            var cid := if me.phase.Inserted? then me.phase.cid else me.phase.known;
            && PhaseOk(s, me) && me.job in s.jobs && me.key == s.jobs[me.job].key
            && s.jobs[me.job].candidate == me.candidate
            && CandidateCommitted(s, s', me.job, cid)
            && s'.candidates == if me.phase.Inserted? then s.candidates[cid := Candidate(me.phase.pii, me.key)] else s.candidates
  {
    assert PhaseOk(s, s.workers[w]);
  }

  // ----- the invariant over every step and run -----

  lemma {:induction false} StorageSame(s: System, s': System)
    requires Storage(s) && s'.jobs == s.jobs
    requires s'.candidates == s.candidates && s'.uploads == s.uploads
    requires s'.issued == s.issued && s'.objects == s.objects
    ensures Storage(s')
  {
  }

  lemma {:induction false} StoreKeeps(s: System, p: UploadId, key: Key, sha: Sha, s': System)
    requires Inv(s) && DoStore(s, p, key, sha) == Some(s')
    ensures Inv(s')
  {
    StoreOwnership(s, p, key, sha, s');
    StoreStorage(s, p, key, sha, s');
  }

  lemma {:induction false} CreateKeeps(s: System, p: UploadId, id: JobId, s': System)
    requires Inv(s) && DoCreate(s, p, id) == Some(s')
    ensures Inv(s')
  {
    CreateOwnership(s, p, id, s');
    CreateStorage(s, p, id, s');
  }

  lemma {:induction false} DropUploadKeeps(s: System, p: UploadId, removed: bool)
    requires Inv(s) && p in s.uploads
    ensures Inv(DropUpload(s, p, removed))
  {
    DropUploadOwnership(s, p, removed);
    DropUploadStorage(s, p, removed);
  }

  lemma {:induction false} ClaimKeeps(
    cfg: Config, s: System, w: WorkerId, id: JobId, started: int, activeRule: bool, s': System)
    requires cfg.timeLimit <= cfg.lease
    requires Inv(s) && DoClaim(cfg, s, w, id, started, activeRule) == Some(s')
    ensures Inv(s')
  {
    ClaimOwners(cfg, s, w, id, started, activeRule, s');
    ClaimPhases(cfg, s, w, id, started, activeRule, s');
    ClaimStorage(cfg, s, w, id, started, activeRule, s');
  }

  lemma {:induction false} TickKeeps(s: System, to: int, s': System)
    requires Inv(s) && DoTick(s, to) == Some(s')
    ensures Inv(s')
  {
    TickOwnership(s, to, s');
    StorageSame(s, s');
  }

  lemma {:induction false} DieKeeps(s: System, w: WorkerId, s': System)
    requires Inv(s) && DoDie(s, w) == Some(s')
    ensures Inv(s')
  {
    DieOwnership(s, w, s');
    StorageSame(s, s');
  }

  lemma {:induction false} RecordFailureKeeps(s: System, w: WorkerId, target: IngestionState, error: string, s': System)
    requires Inv(s) && DoRecordFailure(s, w, target, error) == Some(s')
    ensures Inv(s')
  {
    RecordFailureOwners(s, w, target, error, s');
    RecordFailurePhases(s, w, target, error, s');
    RecordFailureStorage(s, w, target, error, s');
  }

  lemma {:induction false} PhaseStepKeeps(s: System, w: WorkerId, phase: Phase)
    requires Inv(s) && w in s.workers
    requires PhaseOk(s, s.workers[w].(phase := phase)) && !phase.Inserted?
    ensures Inv(s.(workers := s.workers[w := s.workers[w].(phase := phase)]))
  {
    PhaseStepOwnership(s, w, phase);
    StorageSame(s, s.(workers := s.workers[w := s.workers[w].(phase := phase)]));
  }

  lemma {:induction false} InsertStorage(s: System, w: WorkerId, cid: CandidateId, pii: Pii, s': System)
    requires Storage(s) && DoInsert(s, w, cid, pii) == Some(s')
    ensures Storage(s')
  {
    StorageSame(s, s');
  }

  lemma {:induction false} InsertKeeps(s: System, w: WorkerId, cid: CandidateId, pii: Pii, s': System)
    requires Inv(s) && DoInsert(s, w, cid, pii) == Some(s')
    ensures Inv(s')
  {
    InsertOwnership(s, w, cid, pii, s');
    InsertStorage(s, w, cid, pii, s');
  }

  lemma {:induction false} DuplicateKeeps(s: System, w: WorkerId, owner: CandidateId, removed: bool, raised: bool, s': System)
    requires Inv(s) && DoDuplicate(s, w, owner, removed, raised) == Some(s')
    ensures Inv(s')
  {
    DuplicateOwnership(s, w, owner, removed, raised, s');
    DuplicateStorage(s, w, owner, removed, raised, s');
  }

  lemma {:induction false} CommitKeeps(s: System, w: WorkerId, row: Job, target: IngestionState, phase: Phase)
    requires Inv(s) && w in s.workers && Driving(s.workers[w])
    requires row == s.jobs[s.workers[w].job].(score := row.score)
    requires target in Allowed(s.workers[w].state) && target in {IngestionState.Extracting, Completed}
    requires PhaseOk(s, s.workers[w].(state := target, phase := phase)) && !phase.Inserted?
    ensures Inv(Commit(s, w, row, target, phase))
  {
    CommitOwners(s, w, row, target, phase);
    CommitPhases(s, w, row, target, phase);
    CommitStorage(s, w, row, target, phase);
  }

  lemma {:induction false} CommitCandidateKeeps(s: System, w: WorkerId, s': System)
    requires Inv(s) && DoCommitCandidate(s, w) == Some(s')
    ensures Inv(s')
  {
    CommitCandidateOwners(s, w, s');
    CommitCandidatePhases(s, w, s');
    CommitCandidateStorage(s, w, s');
  }

  lemma {:induction false} SweepKeeps(
    cfg: Config, s: System, now: int, skipReclaim: set<JobId>, skipResolve: set<JobId>, s': System)
    requires Inv(s) && DoSweep(cfg, s, now, skipReclaim, skipResolve) == Some(s')
    ensures Inv(s')
  {
    SweepOwnership(cfg, s, now, skipReclaim, skipResolve, s');
    SweepStorage(cfg, s, now, skipReclaim, skipResolve, s');
  }

  lemma {:induction false} IntakeStepKeeps(cfg: Config, s: System, a: Action, s': System)
    requires Inv(s) && Step(cfg, s, a) == Some(s')
    requires a.Store? || a.Create? || a.Reuse? || a.Abandon?
    ensures Inv(s')
  {
    match a
    case Store(p, key, sha) => StoreKeeps(s, p, key, sha, s');
    case Create(p, id) => CreateKeeps(s, p, id, s');
    case Reuse(p, removed) => DropUploadKeeps(s, p, removed);
    case Abandon(p, removed) => DropUploadKeeps(s, p, removed);
  }

  lemma {:induction false} ExtractKeeps(s: System, w: WorkerId, s': System)
    requires Inv(s) && DoExtract(s, w) == Some(s')
    ensures Inv(s')
  {
    assert PhaseOk(s, s.workers[w]);
    CommitKeeps(s, w, s.jobs[s.workers[w].job], IngestionState.Extracting, Extracted);
  }

  lemma {:induction false} LoadKnownKeeps(s: System, w: WorkerId, s': System)
    requires Inv(s) && DoLoadKnown(s, w) == Some(s')
    ensures Inv(s')
  {
    assert PhaseOk(s, s.workers[w]);
    CommitKeeps(s, w, s.jobs[s.workers[w].job], IngestionState.Extracting, Resolved(s.workers[w].candidate.value));
  }

  lemma {:induction false} CommitScoreKeeps(s: System, w: WorkerId, score: nat, s': System)
    requires Inv(s) && DoCommitScore(s, w, score) == Some(s')
    ensures Inv(s')
  {
    assert PhaseOk(s, s.workers[w]);
    CommitKeeps(s, w, s.jobs[s.workers[w].job].(score := Some(score)), Completed, Finished);
  }

  lemma {:induction false} TransitionStepKeeps(cfg: Config, s: System, a: Action, s': System)
    requires Inv(s) && Step(cfg, s, a) == Some(s')
    requires a.Extract? || a.LoadKnown? || a.CommitScore?
    ensures Inv(s')
  {
    match a
    case Extract(w) => ExtractKeeps(s, w, s');
    case LoadKnown(w) => LoadKnownKeeps(s, w, s');
    case CommitScore(w, score) => CommitScoreKeeps(s, w, score, s');
  }

  lemma {:induction false} WorkStepKeeps(cfg: Config, s: System, a: Action, s': System)
    requires Inv(s) && Step(cfg, s, a) == Some(s')
    requires a.Parse? || a.Insert? || a.Duplicate? || a.CommitCandidate?
    ensures Inv(s')
  {
    match a
    case Parse(w) => assert PhaseOk(s, s.workers[w]); PhaseStepKeeps(s, w, Parsed);
    case Insert(w, cid, pii) => InsertKeeps(s, w, cid, pii, s');
    case Duplicate(w, owner, removed, raised) => DuplicateKeeps(s, w, owner, removed, raised, s');
    case CommitCandidate(w) => CommitCandidateKeeps(s, w, s');
  }

  lemma {:induction false} TimeStepKeeps(cfg: Config, s: System, a: Action, s': System)
    requires cfg.timeLimit <= cfg.lease
    requires Inv(s) && Step(cfg, s, a) == Some(s')
    requires a.Claim? || a.Tick? || a.Sweep?
    ensures Inv(s')
  {
    match a
    case Claim(w, id, started, activeRule) => ClaimKeeps(cfg, s, w, id, started, activeRule, s');
    case Tick(to) => TickKeeps(s, to, s');
    case Sweep(now, skipReclaim, skipResolve) => SweepKeeps(cfg, s, now, skipReclaim, skipResolve, s');
  }

  lemma {:induction false} EndStepKeeps(cfg: Config, s: System, a: Action, s': System)
    requires Inv(s) && Step(cfg, s, a) == Some(s')
    requires a.Raise? || a.RecordFailure? || a.Die?
    ensures Inv(s')
  {
    match a
    case Raise(w) => PhaseStepKeeps(s, w, Failing);
    case RecordFailure(w, target, error) => RecordFailureKeeps(s, w, target, error, s');
    case Die(w) => DieKeeps(s, w, s');
  }

  /** Each action keeps one owner per job, the storage links and every candidate's object. */
  lemma {:induction false} StepKeeps(cfg: Config, s: System, a: Action, s': System)
    requires cfg.timeLimit <= cfg.lease
    requires Inv(s) && Step(cfg, s, a) == Some(s')
    ensures Inv(s')
  {
    if a.Store? || a.Create? || a.Reuse? || a.Abandon? {
      IntakeStepKeeps(cfg, s, a, s');
    } else if a.Extract? || a.LoadKnown? || a.CommitScore? {
      TransitionStepKeeps(cfg, s, a, s');
    } else if a.Parse? || a.Insert? || a.Duplicate? || a.CommitCandidate? {
      WorkStepKeeps(cfg, s, a, s');
    } else if a.Claim? || a.Tick? || a.Sweep? {
      TimeStepKeeps(cfg, s, a, s');
    } else {
      EndStepKeeps(cfg, s, a, s');
    }
  }

  /** Safety over every run, with arbitrary crashes, duplicate messages and sweeps. */
  lemma {:induction false} RunKeeps(cfg: Config, s: System, actions: seq<Action>, s': System)
    requires cfg.timeLimit <= cfg.lease
    requires Inv(s) && Run(cfg, s, actions) == Some(s')
    ensures Inv(s')
  {
    if actions != [] {
      var before := Run(cfg, s, actions[..|actions| - 1]).value;
      RunKeeps(cfg, s, actions[..|actions| - 1], before);
      StepKeeps(cfg, before, actions[|actions| - 1], s');
    }
  }
}
