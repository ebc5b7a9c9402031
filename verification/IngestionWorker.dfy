/**
 The code of one task and of one upload, statement by statement, over the shared tables and
 object store. Each is proved to be a run of the protocol, so every safety result about runs
 is a result about this code.
 */
module IngestionWorker {
  import opened Common
  import opened IngestionStates
  import opened IngestionRows
  import opened IngestionProtocol

  // ----- failures -----

  /** The exception classes `_fail_job` tells apart. */
  datatype ErrorClass =
    | MinerUUnavailableError
    | LLMUnavailableError
    | UsageLedgerUnavailable
    | MinerUContractError
    | MinerUTaskError
    | LLMConfigurationError
    | LLMInvalidResponseError
    | LLMInvalidOutputError
    | ModelPriceMissing
    | ObjectNotFoundError
    | CandidateFileConflict
    | OtherError

  /** `_fail_job`'s verdict on an exception class: the state to move to and the code to record. */
  function Classify(errorClass: ErrorClass): (verdict: (IngestionState, string))
    ensures verdict.0 in {RetryableFailed, TerminalFailed}
  {
    match errorClass
    case MinerUContractError => (TerminalFailed, "resume_parser_contract_invalid")
    case MinerUTaskError => (TerminalFailed, "resume_parser_failed")
    case LLMConfigurationError => (TerminalFailed, "ai_service_configuration_invalid")
    case LLMInvalidResponseError => (TerminalFailed, "ai_invalid_output")
    case LLMInvalidOutputError => (TerminalFailed, "ai_invalid_output")
    case ModelPriceMissing => (TerminalFailed, "model_price_missing")
    case MinerUUnavailableError => (RetryableFailed, "resume_parser_unavailable")
    case LLMUnavailableError => (RetryableFailed, "ai_service_unavailable")
    case UsageLedgerUnavailable => (RetryableFailed, "usage_ledger_unavailable")
    case _ => (RetryableFailed, "ingestion_worker_error")
  }

  /** How an external call, or a whole `run_job`, ends. */
  datatype Outcome<+T> = Returns(value: T) | Raises(errorClass: ErrorClass) | Dies

  /** The answers of everything outside the database and the object store, in call order. */
  datatype Script = Script(
    activeRule: bool,
    parse: Outcome<()>,
    extract: Outcome<Pii>,
    newCandidate: CandidateId,
    deletion: Outcome<bool>,
    judge: Outcome<nat>)

  /** No other transaction holds an uncommitted candidate; an insert would wait for it. */
  ghost predicate NoInsertPending(workers: map<WorkerId, Worker>) {
    forall o :: o in workers ==> !workers[o].phase.Inserted?
  }

  /** The row after the second half of `run_job`. */
  function RowAfterFinish(row: Job, cid: CandidateId, script: Script, now: int): Job {
    var linked := row.(candidate := Some(cid), updatedAt := now);
    if !script.activeRule then linked.(state := Ready, lease := None)
    else if script.judge.Returns? then linked.(state := Completed, lease := None, score := Some(script.judge.value))
    else linked.(state := IngestionState.Scoring)
  }

  /** Where an upload fails: before the store, in it, or at one of the later statements. */
  datatype UploadFault = NoFault | Rejected | StoreFails | CreateFails | DeleteFails | CommitFails

  class Deployment {
    const cfg: Config
    var clock: int
    var jobs: map<JobId, Job>
    var candidates: map<CandidateId, Candidate>
    var objects: set<Key>
    ghost var issued: set<Key>
    ghost var workers: map<WorkerId, Worker>
    ghost var uploads: map<UploadId, Upload>

    ghost function Sys(): System
      reads this
    {
      System(clock, jobs, candidates, objects, issued, workers, uploads)
    }

    constructor (cfg: Config)
      ensures this.cfg == cfg && Sys() == INITIAL
    {
      this.cfg := cfg;
      clock, jobs, candidates, objects := 0, map[], map[], {};
      issued, workers, uploads := {}, map[], map[];
    }

    /** Update the row the session holds, and commit. */
    method CommitTransition(w: WorkerId, id: JobId, row: Job, target: IngestionState, ghost phase: Phase)
      requires w in workers && workers[w].job == id && id in jobs
      modifies this`jobs, this`workers
      ensures Sys() == Commit(old(Sys()), w, row, target, phase)
      ensures jobs == old(jobs)[id := row.(
                                  state := target, updatedAt := clock,
                                  lease := if target in {Parsing, IngestionState.Extracting, IngestionState.Scoring}
                                           then row.lease else None)]
    {
      var next := row.(state := target, updatedAt := clock);
      if !IsProcessing(target) {
        next := next.(lease := None);
      }
      jobs := jobs[id := next];
      workers := workers[w := workers[w].(state := target, phase := phase)];
    }

    /** Download, parse and record the move to extraction. */
    method ParseFile(w: WorkerId, id: JobId, script: Script) returns (r: Outcome<()>, ghost trace: seq<Action>)
      requires w in workers && workers[w].job == id && id in jobs
      requires workers[w].phase == Fresh && workers[w].state == Parsing && workers[w].candidate.None?
      requires workers[w].key == jobs[id].key
      modifies this`jobs, this`workers
      ensures Run(cfg, old(Sys()), trace) == Some(Sys())
      ensures r.Returns? <==> old(jobs)[id].key in objects && script.parse.Returns?
      ensures !r.Returns? ==> Sys() == old(Sys())
      ensures r.Returns? ==>
                && workers == old(workers)[w := old(workers)[w].(state := IngestionState.Extracting, phase := Extracted)]
                && jobs == old(jobs)[id := MoveRow(old(jobs)[id], IngestionState.Extracting, None, clock)]
    {
      ghost var s0 := Sys();
      if jobs[id].key !in objects {
        return Raises(ObjectNotFoundError), [];
      }
      match script.parse {
        case Raises(e) => return Raises(e), [];
        case Dies => return Dies, [];
        case Returns(_) =>
      }
      workers := workers[w := workers[w].(phase := Parsed)];
      ghost var s1 := Sys();
      CommitTransition(w, id, jobs[id], IngestionState.Extracting, Extracted);
      trace := [Action.Parse(w), Extract(w)];
      RunTwo(cfg, s0, Action.Parse(w), s1, Extract(w), Sys());
      return Returns(()), trace;
    }

    /** `_insert_or_reuse_candidate`: insert, or verify the owner's object and drop this job's. */
    method InsertOrReuse(w: WorkerId, id: JobId, script: Script)
      returns (r: Outcome<(CandidateId, Option<Candidate>)>, ghost trace: seq<Action>)
      requires w in workers && workers[w].job == id && id in jobs && workers[w].phase == Extracted
      requires workers[w].key == jobs[id].key && script.extract.Returns?
      requires NoInsertPending(workers) && script.newCandidate !in candidates
      modifies this`objects, this`workers
      ensures objects == old(objects) || objects == old(objects) - {jobs[id].key}
      ensures Run(cfg, old(Sys()), trace) == Some(Sys())
      ensures w in workers && workers == old(workers)[w := old(workers)[w].(phase := workers[w].phase)]
      ensures r.Returns? && r.value.1.Some? ==>
                forall c :: c in candidates ==> candidates[c].pii != script.extract.value
      ensures r.Returns? && r.value.1.None? ==> r.value.0 in candidates && candidates[r.value.0].key in old(objects)
      ensures (exists c :: c in candidates && candidates[c].pii == script.extract.value)
              && (forall c :: c in candidates && candidates[c].pii == script.extract.value ==> candidates[c].key !in old(objects)) ==>
                r == Raises(CandidateFileConflict) && Sys() == old(Sys())
      ensures r.Returns? ==>
                && (r.value.1.Some? ==> r.value.0 == script.newCandidate
                                        && r.value.1.value == Candidate(script.extract.value, jobs[id].key)
                                        && workers[w].phase == Inserted(r.value.0, script.extract.value)
                                        && objects == old(objects))
                && (r.value.1.None? ==> r.value.0 in candidates
                                        && candidates[r.value.0].pii == script.extract.value
                                        && workers[w].phase == Resolved(r.value.0)
                                        && objects == old(objects) - {jobs[id].key})
    {
      trace := [];
      var pii, key := script.extract.value, jobs[id].key;
      if owner :| owner in candidates && candidates[owner].pii == pii {
        if candidates[owner].key !in objects {
          return Raises(CandidateFileConflict), trace;
        }
        match script.deletion {
          case Returns(_) =>
            objects := objects - {key};
            workers := workers[w := workers[w].(phase := Resolved(owner))];
            trace := [Duplicate(w, owner, true, false)];
            RunOne(cfg, old(Sys()), Duplicate(w, owner, true, false), Sys());
            return Returns((owner, None)), trace;
          case Raises(e) =>
            workers := workers[w := workers[w].(phase := Failing)];
            trace := [Duplicate(w, owner, false, true)];
            RunOne(cfg, old(Sys()), Duplicate(w, owner, false, true), Sys());
            return Raises(e), trace;
          case Dies =>
            objects := objects - {key};
            workers := workers[w := workers[w].(phase := Failing)];
            trace := [Duplicate(w, owner, true, true)];
            RunOne(cfg, old(Sys()), Duplicate(w, owner, true, true), Sys());
            return Dies, trace;
        }
      }
      workers := workers[w := workers[w].(phase := Inserted(script.newCandidate, pii))];
      trace := [Insert(w, script.newCandidate, pii)];
      RunOne(cfg, old(Sys()), Insert(w, script.newCandidate, pii), Sys());
      return Returns((script.newCandidate, Some(Candidate(pii, key)))), trace;
    }

    /** The first half of `run_job` for a job without a candidate. */
    method Prepare(w: WorkerId, id: JobId, script: Script)
      returns (r: Outcome<(CandidateId, Option<Candidate>)>, ghost trace: seq<Action>)
      requires w in workers && workers[w].job == id && id in jobs
      requires workers[w].phase == Fresh && workers[w].state == Parsing && workers[w].candidate.None?
      requires workers[w].key == jobs[id].key && jobs[id].state == Parsing
      requires NoInsertPending(workers) && script.newCandidate !in candidates
      modifies this`jobs, this`objects, this`workers
      ensures Run(cfg, old(Sys()), trace) == Some(Sys())
      ensures KeepsWorker(old(Sys()), Sys(), w, id)
      ensures r.Returns? ==> CandidateFound(old(Sys()), Sys(), w, id, script, r.value.0, r.value.1)
    {
      ghost var s0 := Sys();
      var parsed;
      parsed, trace := ParseFile(w, id, script);
      match parsed {
        case Raises(e) => return Raises(e), trace;
        case Dies => return Dies, trace;
        case Returns(_) =>
      }
      match script.extract {
        case Raises(e) => return Raises(e), trace;
        case Dies => return Dies, trace;
        case Returns(_) =>
      }
      ghost var s2 := Sys();
      assert KeepsWorker(s0, s2, w, id);
      ghost var found;
      r, found := InsertOrReuse(w, id, script);
      RunJoin(cfg, s0, trace, s2, found, Sys());
      trace := trace + found;
    }

    /** The commit that links the job, with its candidate when that is new. */
    method CommitCandidateRow(w: WorkerId, id: JobId, cid: CandidateId, created: Option<Candidate>, script: Script)
      requires w in workers && workers[w].job == id && id in jobs
      requires workers[w].state == IngestionState.Extracting && workers[w].activeRule == script.activeRule
      requires created.Some? ==> workers[w].phase == Inserted(cid, created.value.pii)
                                 && created.value.key == workers[w].key
      requires created.None? ==> workers[w].phase == Resolved(cid)
      modifies this`jobs, this`candidates, this`workers
      ensures Step(cfg, old(Sys()), CommitCandidate(w)) == Some(Sys())
      ensures candidates == if created.Some? then old(candidates)[cid := created.value] else old(candidates)
      ensures var target := if script.activeRule then IngestionState.Scoring else Ready;
              && jobs == old(jobs)[id := MoveRow(old(jobs)[id].(candidate := Some(cid)), target, None, clock)]
              && workers == old(workers)[w := old(workers)[w].(
                                           state := target, candidate := Some(cid),
                                           phase := if script.activeRule then Judging else Finished)]
    {
      var row := jobs[id].(candidate := Some(cid));
      if created.Some? {
        candidates := candidates[cid := created.value];
      }
      if script.activeRule {
        CommitTransition(w, id, row, IngestionState.Scoring, Judging);
      } else {
        CommitTransition(w, id, row, Ready, Finished);
      }
      workers := workers[w := workers[w].(candidate := Some(cid))];
    }

    /** The second half of `run_job`: commit the candidate, score it when a rule is active, finish. */
    method Finish(w: WorkerId, id: JobId, cid: CandidateId, created: Option<Candidate>, script: Script)
      returns (r: Outcome<()>, ghost trace: seq<Action>)
      requires w in workers && workers[w].job == id && id in jobs
      requires workers[w].state == IngestionState.Extracting && workers[w].activeRule == script.activeRule
      requires created.Some? ==> workers[w].phase == Inserted(cid, created.value.pii)
                                 && created.value.key == workers[w].key
      requires created.None? ==> workers[w].phase == Resolved(cid)
      modifies this`jobs, this`candidates, this`workers
      ensures Run(cfg, old(Sys()), trace) == Some(Sys())
      ensures w in workers && workers == old(workers)[w := workers[w]] && workers[w].job == id
      ensures candidates == if created.Some? then old(candidates)[cid := created.value] else old(candidates)
      ensures r.Returns? <==> !script.activeRule || script.judge.Returns?
      ensures id in jobs && jobs == old(jobs)[id := RowAfterFinish(old(jobs)[id], cid, script, clock)]
      ensures workers[w].state == jobs[id].state
    {
      ghost var s0 := Sys();
      CommitCandidateRow(w, id, cid, created, script);
      ghost var s1 := Sys();
      RunOne(cfg, s0, CommitCandidate(w), s1);
      trace := [CommitCandidate(w)];
      if !script.activeRule {
        return Returns(()), trace;
      }
      match script.judge {
        case Raises(e) => return Raises(e), trace;
        case Dies => return Dies, trace;
        case Returns(score) =>
          CommitTransition(w, id, jobs[id].(score := Some(score)), Completed, Finished);
          RunTwo(cfg, s0, CommitCandidate(w), s1, CommitScore(w, score), Sys());
          return Returns(()), [CommitCandidate(w), CommitScore(w, score)];
      }
    }

    /** A retry of a job whose candidate is known: no object, parser or extractor is touched. */
    method LoadKnownCandidate(w: WorkerId, id: JobId) returns (r: Outcome<CandidateId>, ghost trace: seq<Action>)
      requires w in workers && workers[w].job == id && id in jobs
      requires workers[w].phase == Fresh && workers[w].state == Parsing
      requires workers[w].candidate == jobs[id].candidate && jobs[id].candidate.Some?
      modifies this`jobs, this`workers
      ensures Run(cfg, old(Sys()), trace) == Some(Sys())
      ensures r.Returns? <==> old(jobs)[id].candidate.value in candidates
      ensures !r.Returns? ==> Sys() == old(Sys())
      ensures r.Returns? ==>
                && r.value == old(jobs)[id].candidate.value
                && workers == old(workers)[w := old(workers)[w].(state := IngestionState.Extracting, phase := Resolved(r.value))]
                && jobs == old(jobs)[id := MoveRow(old(jobs)[id], IngestionState.Extracting, None, clock)]
    {
      var cid := jobs[id].candidate.value;
      if cid !in candidates {
        return Raises(OtherError), [];
      }
      ghost var s0 := Sys();
      CommitTransition(w, id, jobs[id], IngestionState.Extracting, Resolved(cid));
      RunOne(cfg, s0, LoadKnown(w), Sys());
      return Returns(cid), [LoadKnown(w)];
    }

    /** The branch on `job.candidate_id`. */
    method FindCandidate(w: WorkerId, id: JobId, script: Script)
      returns (r: Outcome<(CandidateId, Option<Candidate>)>, ghost trace: seq<Action>)
      requires Claimed(Sys(), w, id, script)
      requires NoInsertPending(workers) && script.newCandidate !in candidates
      modifies this`jobs, this`objects, this`workers
      ensures Run(cfg, old(Sys()), trace) == Some(Sys())
      ensures KeepsWorker(old(Sys()), Sys(), w, id)
      ensures old(jobs)[id].candidate.Some? ==> objects == old(objects)
      ensures r.Returns? && old(jobs)[id].candidate.None? ==>
                CandidateFound(old(Sys()), Sys(), w, id, script, r.value.0, r.value.1)
      ensures r.Returns? && old(jobs)[id].candidate.Some? ==>
                && r.value == (old(jobs)[id].candidate.value, None) && r.value.0 in candidates
                && workers[w].state == IngestionState.Extracting && workers[w].phase == Resolved(r.value.0)
    {
      if jobs[id].candidate.None? {
        r, trace := Prepare(w, id, script);
      } else {
        var known;
        known, trace := LoadKnownCandidate(w, id);
        match known {
          case Raises(e) => return Raises(e), trace;
          case Dies => return Dies, trace;
          case Returns(cid) => return Returns((cid, None)), trace;
        }
      }
    }

    /** `run_job` on a freshly claimed job. */
    method RunJob(w: WorkerId, id: JobId, script: Script) returns (r: Outcome<()>, ghost trace: seq<Action>)
      requires Claimed(Sys(), w, id, script)
      requires NoInsertPending(workers) && script.newCandidate !in candidates
      modifies this`jobs, this`candidates, this`objects, this`workers
      ensures Run(cfg, old(Sys()), trace) == Some(Sys())
      ensures JobRan(old(Sys()), Sys(), w, id, script, r)
    {
      ghost var s0 := Sys();
      var found;
      found, trace := FindCandidate(w, id, script);
      match found {
        case Raises(e) => return Raises(e), trace;
        case Dies => return Dies, trace;
        case Returns(v) =>
          ghost var s1 := Sys();
          ghost var rest;
          r, rest := Finish(w, id, v.0, v.1, script);
          RunJoin(cfg, s0, trace, s1, rest, Sys());
          trace := trace + rest;
      }
    }

    /** `_fail_job`: read the row afresh, and record the verdict unless the table refuses it. */
    method FailJob(w: WorkerId, id: JobId, target: IngestionState, code: string)
      requires w in workers && workers[w].job == id && id in jobs && workers[w].phase == Failing
      requires target in {RetryableFailed, TerminalFailed}
      modifies this`jobs, this`workers
      ensures Step(cfg, old(Sys()), RecordFailure(w, target, code)) == Some(Sys())
      ensures workers == old(workers) - {w}
      ensures jobs == if target in Allowed(old(jobs)[id].state)
              then old(jobs)[id := MoveRow(old(jobs)[id], target, Some(code), clock)]
              else old(jobs)
      ensures target in Allowed(old(jobs)[id].state) ==>
                jobs[id] == old(jobs)[id].(state := target, error := Some(code), lease := None, updatedAt := clock)
    {
      if target in Allowed(jobs[id].state) {
        var row := jobs[id].(state := target, error := Some(code), updatedAt := clock);
        jobs := jobs[id := row.(lease := None)];
      }
      workers := workers - {w};
    }

    /** The end of a task: nothing more, a recorded failure, or a killed process. */
    method EndTask(w: WorkerId, id: JobId, r: Outcome<()>) returns (ghost trace: seq<Action>)
      requires w in workers && workers[w].job == id && id in jobs
      modifies this`jobs, this`workers
      ensures Run(cfg, old(Sys()), trace) == Some(Sys())
      ensures workers == old(workers) - {w}
      ensures jobs == if r.Raises? && Classify(r.errorClass).0 in Allowed(old(jobs)[id].state)
              then old(jobs)[id := MoveRow(old(jobs)[id], Classify(r.errorClass).0,
                                           Some(Classify(r.errorClass).1), clock)]
              else old(jobs)
    {
      ghost var s0 := Sys();
      if r.Raises? {
        var (target, code) := Classify(r.errorClass);
        workers := workers[w := workers[w].(phase := Failing)];
        ghost var s1 := Sys();
        FailJob(w, id, target, code);
        trace := [Raise(w), RecordFailure(w, target, code)];
        RunTwo(cfg, s0, Raise(w), s1, RecordFailure(w, target, code), Sys());
      } else {
        workers := workers - {w};
        trace := [Die(w)];
        RunOne(cfg, s0, Die(w), Sys());
      }
    }

    method ClaimJob(w: WorkerId, id: JobId, started: int, ghost activeRule: bool)
      returns (claimed: bool, ghost trace: seq<Action>)
      requires w !in workers && started <= clock <= started + cfg.timeLimit
      modifies this`jobs, this`workers
      ensures Run(cfg, old(Sys()), trace) == Some(Sys())
      ensures claimed <==> id in old(jobs) && old(jobs)[id].state == Queued
      ensures !claimed ==> Sys() == old(Sys())
      ensures claimed ==>
                && jobs == old(jobs)[id := ClaimRow(old(jobs)[id], clock, cfg.lease, clock)]
                && jobs[id] == old(jobs)[id].(
                               state := Parsing, attempts := old(jobs)[id].attempts + 1,
                               lease := Some(clock + cfg.lease), updatedAt := clock)
                && w in workers && workers == old(workers)[w := workers[w]]
                && workers[w] == Worker(id, started + cfg.timeLimit, activeRule, Parsing,
                                        jobs[id].key, jobs[id].candidate, Fresh)
    {
      if id !in jobs || jobs[id].state != Queued {
        return false, [];
      }
      ghost var s0 := Sys();
      var row := jobs[id].(state := Parsing, attempts := jobs[id].attempts + 1);
      row := row.(lease := Some(clock + cfg.lease), updatedAt := clock);
      jobs := jobs[id := row];
      workers := workers[w := Worker(id, started + cfg.timeLimit, activeRule, Parsing, row.key, row.candidate, Fresh)];
      RunOne(cfg, s0, Claim(w, id, started, activeRule), Sys());
      return true, [Claim(w, id, started, activeRule)];
    }

    /** `parse_and_score_task`: one delivered message, from claim to the end of the task. */
    method ParseAndScore(w: WorkerId, id: JobId, started: int, script: Script)
      returns (claimed: bool, r: Outcome<()>, ghost trace: seq<Action>)
      requires w !in workers && started <= clock <= started + cfg.timeLimit
      requires NoInsertPending(workers) && script.newCandidate !in candidates
      modifies this`jobs, this`candidates, this`objects, this`workers
      ensures Run(cfg, old(Sys()), trace) == Some(Sys())
      ensures claimed <==> id in old(jobs) && old(jobs)[id].state == Queued
      ensures !claimed ==> Sys() == old(Sys())
      ensures claimed ==> TaskEnded(old(Sys()), Sys(), id, cfg, script, r)
    {
      ghost var s0 := Sys();
      r := Dies;
      claimed, trace := ClaimJob(w, id, started, script.activeRule);
      if !claimed {
        return;
      }
      ghost var s1 := Sys();
      ghost var ran;
      r, ran := RunJob(w, id, script);
      ghost var s2 := Sys();
      RunJoin(cfg, s0, trace, s1, ran, s2);
      ghost var ended := EndTask(w, id, r);
      RunJoin(cfg, s0, trace + ran, s2, ended, Sys());
      trace := trace + ran + ended;
      TaskEndsFromParts(cfg, s0, s1, s2, Sys(), w, id, script, r);
    }

    /** The object is stored under the fresh key the store draws. */
    method StoreObject(ghost p: UploadId, key: Key, ghost sha: Sha)
      requires p !in uploads && key !in issued
      modifies this`objects, this`issued, this`uploads
      ensures Step(cfg, old(Sys()), Store(p, key, sha)) == Some(Sys())
      ensures objects == old(objects) + {key} && uploads == old(uploads)[p := Upload(key, sha)]
    {
      objects := objects + {key};
      issued := issued + {key};
      uploads := uploads[p := Upload(key, sha)];
    }

    /**
     Create or reuse the job of a stored upload, and commit. `objectNeedsCleanup` is the flag
     the source keeps: the object still stands and no committed job names it.
     */
    method Register(key: Key, sha: Sha, id: JobId, fault: UploadFault)
      returns (r: Result<(JobId, bool), UploadFault>, objectNeedsCleanup: bool)
      requires id !in jobs && key in objects
      modifies this`jobs, this`objects
      ensures r.Err? <==> fault in {StoreFails, CreateFails, CommitFails}
                          || (fault == DeleteFails && HasActive(old(jobs), sha))
      ensures r.Err? ==> r.error == fault && jobs == old(jobs)
      ensures r.Ok? && r.value.1 ==> !HasActive(old(jobs), sha) && r.value.0 == id
                                     && jobs == old(jobs)[id := NewJob(sha, key, clock)]
                                     && jobs[id] == Job(Queued, sha, key, None, None, 0, None, None, clock)
      ensures r.Ok? && !r.value.1 ==> HasActive(jobs, sha) && jobs == old(jobs) && key !in objects
                                      && r.value.0 in jobs && jobs[r.value.0].sha == sha
                                      && IsActive(jobs[r.value.0].state)
      ensures objectNeedsCleanup <==> r.Err? && key in objects
      ensures objects == old(objects) || objects == old(objects) - {key}
      ensures r.Ok? && r.value.1 ==> objects == old(objects)
    {
      objectNeedsCleanup := true;
      if fault == StoreFails || fault == CreateFails {
        return Err(fault), objectNeedsCleanup;
      }
      if existing :| existing in jobs && jobs[existing].sha == sha && IsActive(jobs[existing].state) {
        if fault == DeleteFails {
          return Err(fault), objectNeedsCleanup;
        }
        objects := objects - {key};
        objectNeedsCleanup := false;
        if fault == CommitFails {
          return Err(fault), objectNeedsCleanup;
        }
        return Ok((existing, false)), objectNeedsCleanup;
      }
      if fault == CommitFails {
        return Err(fault), objectNeedsCleanup;
      }
      jobs := jobs[id := NewJob(sha, key, clock)];
      objectNeedsCleanup := false;
      return Ok((id, true)), objectNeedsCleanup;
    }

    /**
     `ingest_upload`: store, create or reuse, commit; on any failure the object is deleted
     unless it is already gone, and no job is left behind.
     */
    method IngestUpload(ghost p: UploadId, key: Key, sha: Sha, id: JobId, fault: UploadFault, cleanupFails: bool)
      returns (r: Result<(JobId, bool), UploadFault>, ghost trace: seq<Action>)
      requires p !in uploads && key !in issued && key !in objects && id !in jobs
      modifies this`jobs, this`objects, this`issued, this`uploads
      ensures Run(cfg, old(Sys()), trace) == Some(Sys())
      ensures r.Err? <==> fault !in {NoFault, DeleteFails} || (fault == DeleteFails && HasActive(old(jobs), sha))
      ensures r.Err? ==> jobs == old(jobs) && r.error == fault
                         && (objects == old(objects) || (cleanupFails && objects == old(objects) + {key}))
      ensures r.Ok? && r.value.1 ==> !HasActive(old(jobs), sha) && r.value.0 == id
                                     && jobs == old(jobs)[id := NewJob(sha, key, clock)]
                                     && jobs[id] == Job(Queued, sha, key, None, None, 0, None, None, clock)
                                     && objects == old(objects) + {key}
      ensures r.Ok? && !r.value.1 ==> jobs == old(jobs) && objects == old(objects)
                                      && r.value.0 in jobs && jobs[r.value.0].sha == sha
                                      && IsActive(jobs[r.value.0].state)
    {
      if fault == Rejected {
        return Err(fault), [];
      }
      ghost var s0 := Sys();
      StoreObject(p, key, sha);
      ghost var s1 := Sys();
      var objectNeedsCleanup;
      r, objectNeedsCleanup := Register(key, sha, id, fault);
      if objectNeedsCleanup && !cleanupFails {
        objects := objects - {key};
      }
      uploads := uploads - {p};
      ghost var last := if r.Ok? && r.value.1 then Create(p, id) else Abandon(p, key !in objects);
      UploadEnds(cfg, s1, p, id, last, Sys());
      trace := [Store(p, key, sha), last];
      RunTwo(cfg, s0, Store(p, key, sha), s1, last, Sys());
    }
  }

  /** The task keeps its job, its limits and everybody else's rows. */
  ghost predicate KeepsWorker(s: System, t: System, w: WorkerId, id: JobId) {
    && w in s.workers && w in t.workers && id in s.jobs && id in t.jobs
    && t.clock == s.clock && t.candidates == s.candidates
    && (t.objects == s.objects || t.objects == s.objects - {s.jobs[id].key})
    && t.workers == s.workers[w := t.workers[w]]
    && t.workers[w] == s.workers[w].(state := t.workers[w].state, phase := t.workers[w].phase)
    && t.workers[w].state in {Parsing, IngestionState.Extracting}
    && t.jobs == s.jobs[id := t.jobs[id]]
    && t.jobs[id] == s.jobs[id].(state := t.workers[w].state, updatedAt := t.jobs[id].updatedAt)
  }

  /** A new candidate awaits its commit, or an existing one was found and this job's object dropped. */
  ghost predicate CandidateFound(
    s: System, t: System, w: WorkerId, id: JobId, script: Script, cid: CandidateId, created: Option<Candidate>)
  {
    && w in t.workers && id in t.jobs && script.extract.Returns?
    && t.workers[w].state == IngestionState.Extracting
    && (if created.Some? then
          && cid == script.newCandidate && cid !in s.candidates
          && created.value == Candidate(script.extract.value, t.jobs[id].key)
          && t.workers[w].phase == Inserted(cid, script.extract.value)
          && t.objects == s.objects
        else
          && cid in s.candidates && s.candidates[cid].pii == script.extract.value
          && t.workers[w].phase == Resolved(cid)
          && t.objects == s.objects - {t.jobs[id].key})
  }

  /** The state right after a claim. */
  ghost predicate Claimed(s: System, w: WorkerId, id: JobId, script: Script) {
    && w in s.workers && id in s.jobs
    && var me := s.workers[w];
    && me.job == id && me.phase == Fresh && me.state == Parsing && me.activeRule == script.activeRule
    && s.jobs[id].state == Parsing && me.key == s.jobs[id].key && me.candidate == s.jobs[id].candidate
  }

  /**
   What a whole `run_job` leaves: on success the job is at rest and linked to a candidate of the
   extracted identity; otherwise it is still in processing. No other row changes, and the only
   object that may go is the job's own, and only while the job had no candidate.
   */
  ghost predicate JobRan(s: System, t: System, w: WorkerId, id: JobId, script: Script, r: Outcome<()>) {
    && w in t.workers && t.workers == s.workers[w := t.workers[w]] && t.workers[w].job == id
    && id in s.jobs && id in t.jobs && t.jobs == s.jobs[id := t.jobs[id]]
    && t.jobs[id].state == t.workers[w].state && t.jobs[id].attempts == s.jobs[id].attempts
    && (s.objects == t.objects || (s.jobs[id].candidate.None? && t.objects == s.objects - {s.jobs[id].key}))
    && (forall c :: c in s.candidates ==> c in t.candidates && t.candidates[c] == s.candidates[c])
    && (if r.Returns? then
          && (script.activeRule ==> script.judge.Returns?)
          && t.jobs[id].state == (if script.activeRule then Completed else Ready)
          && t.jobs[id].lease.None?
          && t.jobs[id].candidate.Some? && t.jobs[id].candidate.value in t.candidates
          && t.jobs[id].score == (if script.activeRule then Some(script.judge.value) else s.jobs[id].score)
          && (s.jobs[id].candidate.Some? ==> t.jobs[id].candidate == s.jobs[id].candidate)
          && (s.jobs[id].candidate.None? ==>
                script.extract == Returns(t.candidates[t.jobs[id].candidate.value].pii))
        else
          IsProcessing(t.jobs[id].state) && t.jobs[id].lease == s.jobs[id].lease)
  }

  /** What one delivered message that found a queued job leaves behind. */
  ghost predicate TaskEnded(s: System, t: System, id: JobId, cfg: Config, script: Script, r: Outcome<()>) {
    && t.workers == s.workers && id in s.jobs && id in t.jobs && t.jobs == s.jobs[id := t.jobs[id]]
    && t.jobs[id].attempts == s.jobs[id].attempts + 1
    && (s.jobs[id].candidate.Some? ==> t.objects == s.objects)
    && s.objects - {s.jobs[id].key} <= t.objects <= s.objects
    && match r
       case Returns(_) =>
         && (script.activeRule ==> script.judge.Returns?)
         && t.jobs[id].score == (if script.activeRule then Some(script.judge.value) else s.jobs[id].score)
         && t.jobs[id].state == (if script.activeRule then Completed else Ready)
         && t.jobs[id].lease.None? && t.jobs[id].candidate.Some?
       case Raises(e) =>
         t.jobs[id].state == Classify(e).0 && t.jobs[id].error == Some(Classify(e).1) && t.jobs[id].lease.None?
       case Dies =>
         IsProcessing(t.jobs[id].state) && t.jobs[id].lease == Some(s.clock + cfg.lease)
  }

  /**
   What a raised exception comes to: the six classes of unusable input or configuration end the
   job for good, and no sweep touches it again; every other class is tried again by the next
   unhindered sweep while attempts are left.
   */
  lemma {:induction false} FailureVerdict(
    s: System, t: System, id: JobId, cfg: Config, script: Script, e: ErrorClass, now: int, dbNow: int,
    skipReclaim: set<JobId>, skipResolve: set<JobId>)
    requires TaskEnded(s, t, id, cfg, script, Raises(e))
    ensures var swept := SweepJobs(t.jobs, now, cfg.maxAttempts, dbNow, skipReclaim, skipResolve)[id];
            if e in {MinerUContractError, MinerUTaskError, LLMConfigurationError, LLMInvalidResponseError,
                     LLMInvalidOutputError, ModelPriceMissing}
            then t.jobs[id].state == TerminalFailed && swept == t.jobs[id]
            else && t.jobs[id].state == RetryableFailed && swept.error == t.jobs[id].error
                 && (id !in skipResolve ==>
                       swept.state == if s.jobs[id].attempts + 1 < cfg.maxAttempts then Queued else TerminalFailed)
  {
  }

  /** The code a failed task leaves on its row, by exception class. */
  lemma {:induction false} FailureCode(s: System, t: System, id: JobId, cfg: Config, script: Script, e: ErrorClass)
    requires TaskEnded(s, t, id, cfg, script, Raises(e))
    ensures t.jobs[id].error.Some?
    ensures var code := t.jobs[id].error.value;
            && (e == MinerUUnavailableError ==> code == "resume_parser_unavailable")
            && (e == LLMUnavailableError ==> code == "ai_service_unavailable")
            && (e == UsageLedgerUnavailable ==> code == "usage_ledger_unavailable")
            && (e == MinerUContractError ==> code == "resume_parser_contract_invalid")
            && (e == MinerUTaskError ==> code == "resume_parser_failed")
            && (e == LLMConfigurationError ==> code == "ai_service_configuration_invalid")
            && (e in {LLMInvalidResponseError, LLMInvalidOutputError} ==> code == "ai_invalid_output")
            && (e == ModelPriceMissing ==> code == "model_price_missing")
            && (e in {ObjectNotFoundError, CandidateFileConflict, OtherError} ==> code == "ingestion_worker_error")
  {
  }

  /** An upload ends with its own job, or without one and with or without its object. */
  lemma {:induction false} UploadEnds(cfg: Config, s: System, p: UploadId, id: JobId, last: Action, t: System)
    requires p in s.uploads && s.uploads[p].key in s.objects
    requires t == s.(jobs := t.jobs, objects := t.objects, uploads := s.uploads - {p})
    requires var key := s.uploads[p].key;
             || (last == Create(p, id) && id !in s.jobs && !HasActive(s.jobs, s.uploads[p].sha) && t.objects == s.objects
                 && t.jobs == s.jobs[id := NewJob(s.uploads[p].sha, key, s.clock)])
             || (last == Abandon(p, key !in t.objects) && t.jobs == s.jobs
                 && (t.objects == s.objects || t.objects == s.objects - {key}))
    ensures Step(cfg, s, last) == Some(t)
  {
  }

  lemma {:induction false} TaskEndsFromParts(
    cfg: Config, s0: System, s1: System, s2: System, s3: System,
    w: WorkerId, id: JobId, script: Script, r: Outcome<()>)
    requires id in s0.jobs && s0.jobs[id].state == Queued && w !in s0.workers && w in s1.workers
    requires s1.jobs == s0.jobs[id := ClaimRow(s0.jobs[id], s0.clock, cfg.lease, s0.clock)]
    requires s1.workers == s0.workers[w := s1.workers[w]] && s1.objects == s0.objects
    requires JobRan(s1, s2, w, id, script, r)
    requires s3.workers == s2.workers - {w} && s3.objects == s2.objects
    requires s3.jobs == if r.Raises? && Classify(r.errorClass).0 in Allowed(s2.jobs[id].state)
                        then s2.jobs[id := MoveRow(s2.jobs[id], Classify(r.errorClass).0,
                                                   Some(Classify(r.errorClass).1), s2.clock)]
                        else s2.jobs
    ensures TaskEnded(s0, s3, id, cfg, script, r)
  {
    assert s3.workers == s0.workers;
    assert s3.jobs == s0.jobs[id := s3.jobs[id]];
  }
}
