# Verification of the recruiting platform's protocols and kernels

This project models the stateful and arithmetical core of the recruiting backend and proves what
that core is relied on for. `dafny verify dfyconfig.toml` checks all of it with Dafny 4.11.

## What is modelled

**Ingestion jobs** (`Ingestion*.dfy`). A resume upload becomes a row of a leased work queue, a
worker claims it, parses, extracts and scores it, and a sweeper takes rows back from workers whose
lease ran out. `IngestionProtocol` is the whole system as a state machine: rows, candidates, stored
objects, uploads in flight and live workers, with a step for each database commit or storage call,
for an exception, for a killed process and for the passing of time. `IngestionWorker` and
`IngestionSweeper` are the code itself, statement by statement, and each worker method is proved
to be a run of that state machine. There is no lease token: safety rests on the task time limit
and the lease alone, and the bound is proved to be necessary and sufficient. `IngestionRecovery`
shows that no job stays with a dead worker.

**Cross-check queue** (`CrossCheck*.dfy`). A lease queue fenced by tokens, whose newest row decides
what a score shows.

**Sync** (`Sync*.dfy`). An at-least-once listing through an overlapping, capped window; a ledger
keyed by source item and content hash; a cursor; the pass that replays failed rows; and histories
in which publications, revisions, runs and passes follow each other in any order. `SyncOutcomes`
says what a run makes of each item, and that accepted content is brought in once and for all.

**Budgets** (`Calendar`, `PeriodChains`, `Budgets`, `BudgetReconciler`, `BudgetAlerts`). Local calendar
periods, alerts that are emitted once, a cursor that walks complete periods, and the spends at which
an alert exists.

**Canonical JSON** (`Decimals`, `NumberTokens`, `NumberReader`, `JsonStrings`, `CanonicalJson`,
`GoldenSet`). The printer behind the golden-set content address and the release fingerprint, with
an exact reader for sections 6 and 7 of RFC 8259 as its partner.

**Calibration and other metrics** (`Metrics`, `Calibration`, `CalibrationReport`, `CalibrationMeaning`),
**exact cost** (`DecimalContext`, `Pricing`) and **rule diff** (`RuleDiff`, `RuleDiffMeaning`,
`RuleDiffFields`).

`Common`, `Sorting` and `StringOrder` hold what the others share.

## How the model is built

Database tables are maps from keys to rows, held in the fields of a class where the source updates
them. One step is one commit. `SKIP LOCKED` is an arbitrary set of rows that a query passes over;
where a sweep is said to be complete, that set is empty. Outcomes of parsers, models, storage and
the recruiting source are scripts given to a call, so every statement holds for all of them. Clocks
are parameters. Sessions are opened with `expire_on_commit=False`
(`backend/app/database.py`), so a worker goes on writing from the copy of the row it claimed; the
model keeps that copy.

The operations are proved against functions of the rows. What those functions come to is stated a
second time in the fields of the rows, the settings and the items themselves.

Every lemma turns Dafny's automatic induction off; each induction is written out.

The lemmas about the budget walk hold of any calendar that tiles time, and `CalendarTiles` shows
that the daily and the monthly one do.

## What the proofs found

- Exclusion of workers holds in every reachable state **if and only if** the task time limit is at
  most the lease. `backend/app/config.py:131-134` asks for a strictly greater lease; equality is
  enough. No canonical object is ever lost **if and only if** the bound holds *or* a job gets at
  most one attempt (`ObjectsSafeIffLeaseCoversLimit`); `LostObject` gives the losing run otherwise.
- `create_or_reuse` calls a raise unreachable (`backend/app/services/ingestion/jobs.py:81-85`). At the
  grain of its statements it is reachable: the row the insert conflicts with can settle before it
  is read again (`ConflictCanVanish`).
- A sweep reports a requeued id twice exactly when the database clock lags the sweeper's clock by
  more than the stale interval (`ReportedOnceIff`).
- Before the first completed sync run there is no cursor, and the default one moves with the
  clock. An aborted first run can therefore lose an item of its window for good
  (`AbortedFirstRunCanLose`); from the first completed run on nothing in reach is lost
  (`NothingElseIsLost`).
- A run moves the cursor beyond itself exactly when fewer than `max_items` items lie in the overlap
  window at the cursor (`AdvancesIff`); a fuller window stops it for good (`DenseWindowStarves`).
- `replay_failed` says the row it discards cannot be the ingested one
  (`backend/app/services/sync/replay.py:217-233`). It can. Take two failed rows of one external id,
  a source that describes it and answers both fetches with the content of the second row, and an
  intake that accepts: the first turn ingests the second row, the second turn discards that very
  row, and neither is left (`TwoRowsVanish`). No pass discards an ingested row, none loses content
  it ingested, and none that ends early touches a row it did not reach, each **if and only if**,
  among the selected rows of one external id, each after the first is a placeholder for content
  never fetched (`DiscardIff`, `SurvivalIff`, `RestIff`). What was ingested before a pass is safe
  from it without any condition (`IngestedBeforeStays`).
- The transition table has a state `deleted` that no code moves a job to.

## Model

| member | source | states |
|---|---|---|
| IngestionStates.TerminalIsForever | backend/app/services/ingestion/states.py:22-54 | along any path allowed by the transition table, a terminal state is never followed by an active one |
| IngestionStates.PathIsBounded | backend/app/services/ingestion/states.py:31-54 | any path of the table is no longer than the attempts it starts allow: the retry loop is its only cycle |
| IngestionStates.EnteredFrom | backend/app/services/ingestion/states.py:31-54 | the table read backwards: which states each state may be entered from |
| IngestionStates.ReachesIff | backend/app/services/ingestion/states.py:22-54 | one state leads to another by some path if and only if the first is active, or they are the same, or a finished one is deleted |
| IngestionRows.ClaimLowersRank | backend/app/services/ingestion/jobs.py:98-114 | a claim keeps the row invariant (lease exactly in processing states, queued below the attempt cap) and lowers the rank (attempts left, stage) |
| IngestionRows.MoveLowersRank | backend/app/services/ingestion/jobs.py:116-125 | so does every transition the table allows from a processing state |
| IngestionRows.SweepLowersRank | backend/app/services/ingestion/sweeper.py:61-129 | a sweep over one row keeps the invariant, leaves attempts alone and lowers the rank of every row whose state it changes |
| IngestionSafety.DriverIsAlone | backend/app/tasks/ingest.py:492-523 | beside a worker that may still write its job there is no other live worker on that job |
| IngestionSafety.SweepSparesOwners | backend/app/services/ingestion/sweeper.py:61-106 | a sweep never reclaims, requeues or gives up the row of a live owner |
| IngestionSafety.DuplicateVerifies | backend/app/tasks/ingest.py:147-168 | the duplicate branch goes on only beside an owner whose object is there, and deletes no object but its own |
| IngestionSafety.DuplicateStorage | backend/app/tasks/ingest.py:147-168 | the delete in the duplicate branch leaves every object that a candidate row names |
| IngestionSafety.NewCandidateStorage | backend/app/tasks/ingest.py:368-415 | the commit of a new candidate links it to the one job whose object it names |
| IngestionSafety.StepKeeps | backend/app/tasks/ingest.py:325-523 | each step of the system keeps one agreeing owner per job, the links between rows and objects, and every candidate's object |
| IngestionSafety.RunKeeps | backend/app/tasks/celery_app.py:26-29 | the same over every run, with arbitrary crashes, duplicate messages and sweeps, when the time limit is at most the lease |
| IngestionLeaseBound.OwnershipIffLeaseCoversLimit | backend/app/config.py:131-134 | in every reachable state each job has one live owner whose cached copy is the row, if and only if the time limit is at most the lease |
| IngestionLeaseBound.ObjectsSafeIffLeaseCoversLimit | backend/app/tasks/ingest.py:147-168 | every candidate's object exists in every reachable state if and only if the time limit is at most the lease or a job gets at most one attempt |
| IngestionSingleAttempt.OneAttemptIsSafe | backend/app/services/ingestion/sweeper.py:98-106 | with at most one attempt a claimed job is never queued again, so no candidate loses its object, whatever the lease |
| IngestionSingleAttempt.DuplicateOnce | backend/app/tasks/ingest.py:147-168 | under that bound the delete in the duplicate branch hits an object of its own job alone, which no candidate names |
| IngestionLeaseBound.LostObject | backend/app/tasks/ingest.py:147-168 | with the bound broken, a reachable state in which a committed candidate's object is gone |
| IngestionLeaseBound.UniqueRows | backend/app/models/ingestion_job.py:50-57 | in every reachable state at most one job per content hash is active, and candidate identities are unique |
| IngestionLeaseBound.ShippedSettingsAreSafe | backend/app/tasks/celery_app.py:26-29 | the shipped time limit of 600 seconds and lease of 900 keep exclusion and objects safe in every reachable state |
| IngestionLeaseBound.ConflictCanVanish | backend/app/services/ingestion/jobs.py:70-86 | a run in which the row an insert conflicts with is settled before it is read again |
| IngestionTermination.StepSinks | backend/app/services/ingestion/states.py:31-54 | each step keeps every row's invariant, and every state change lowers the rank |
| IngestionTermination.JobComesToRest | backend/app/services/ingestion/sweeper.py:98-106 | over any run a job is claimed exactly as often as its attempts say, never more than the cap, and changes state at most 7 x cap + 2 times |
| IngestionRecovery.AbandonedJobIsTaken | backend/app/services/ingestion/sweeper.py:61-106 | from every reachable state, whatever stage a worker died in: once the lease ran out, an unhindered sweep queues the job while attempts are left and gives it up otherwise, and no live worker holds it |
| IngestionRecovery.AbandonedJobIsRetried | backend/app/services/ingestion/jobs.py:98-114 | the next claim then starts the same file again, one attempt more, under a lease from that instant |
| IngestionRecovery.NoJobIsStuck | backend/app/services/ingestion/sweeper.py:25-53 | from every reachable state each job has an instant from which any unhindered sweep leaves it claimable below the cap or finished |
| IngestionSweeper.JobTable.CreateOrReuse | backend/app/services/ingestion/jobs.py:28-96 | the job returned is active and has the hash; a created one met no active row; it raises exactly when a conflicting row vanished |
| IngestionSweeper.JobTable.Transition | backend/app/services/ingestion/jobs.py:116-125 | refused exactly when the table refuses it; otherwise the row moves, and the lease ends outside processing states |
| IngestionSweeper.JobTable.ReclaimExpired | backend/app/services/ingestion/sweeper.py:61-85 | the loop moves to retryable failed exactly the unlocked parsing, extracting and scoring rows whose lease is before now, and counts them |
| IngestionSweeper.JobTable.ResolveFailed | backend/app/services/ingestion/sweeper.py:87-106 | the loop gives up or requeues exactly the unlocked failed rows by their attempts, and lists the requeued ones in order |
| IngestionSweeper.JobTable.RescanStranded | backend/app/services/ingestion/sweeper.py:110-125 | the loop lists exactly the unlocked queued rows untouched for too long, and changes none |
| IngestionSweeper.JobTable.Sweep | backend/app/services/ingestion/sweeper.py:25-129 | the transaction changes the table as the protocol's sweep step does, every unlocked expired lease included, and reports what the queries before and after say |
| IngestionSweeper.FullSweepSettles | backend/app/services/ingestion/sweeper.py:61-106 | after an unhindered sweep no row is retryable failed, and each row still in processing is the row it was under a lease not before now |
| IngestionSweeper.SweptRow | backend/app/services/ingestion/sweeper.py:61-106 | the whole of a sweep on one row, in its fields and for any locks: taken, resolved by attempts, or left as it was |
| IngestionSweeper.ExpiredLeasesAreTaken | backend/app/services/ingestion/sweeper.py:61-106 | an unhindered sweep takes every parsing, extracting or scoring row whose lease is before now: queued below the cap, terminal otherwise, lease gone, all else kept |
| IngestionSweeper.ReportCounts | backend/app/services/ingestion/sweeper.py:76-106 | reclaimed is the number of processing rows whose lease is before now, terminated the number of those and of failed rows at the cap |
| IngestionSweeper.ReportIsComplete | backend/app/services/ingestion/sweeper.py:87-129 | it reports exactly the rows below the cap that failed or whose lease ran out, and the queued rows older than the stale cutoff |
| IngestionSweeper.ReportedOnceIff | backend/app/services/ingestion/sweeper.py:110-129 | each id once, if and only if the database clock is not behind the stale cutoff or nothing was requeued |
| IngestionWorker.Deployment.InsertOrReuse | backend/app/tasks/ingest.py:88-168 | inserts, or verifies the owner's object and drops this job's own, as a run of the protocol |
| IngestionWorker.Deployment.Prepare | backend/app/tasks/ingest.py:355-400 | parse, extract and insert for a job without a candidate, as a run of the protocol |
| IngestionWorker.Deployment.Finish | backend/app/tasks/ingest.py:411-433 | one commit makes the candidate, the job's link and the next state durable together; then scoring |
| IngestionWorker.Deployment.RunJob | backend/app/tasks/ingest.py:325-433 | ends in completed or ready with a candidate, or raises, or dies, and touches no other job |
| IngestionWorker.Deployment.FailJob | backend/app/tasks/ingest.py:436-489 | reads the row afresh and records the verdict unless the table refuses it |
| IngestionWorker.Deployment.ParseAndScore | backend/app/tasks/ingest.py:492-523 | a delivered message claims exactly a queued job, spends one attempt, and leaves the row finished, classified as failed, or leased to a dead worker; objects change only by this job's own, and not at all on a retry past its candidate |
| IngestionWorker.FailureVerdict | backend/app/tasks/ingest.py:44-57 | a task that raised one of the six classes of unusable input or configuration is terminal and no sweep touches it again; any other class is queued again by the next unhindered sweep while attempts are left |
| IngestionWorker.FailureCode | backend/app/tasks/ingest.py:40-58 | the error code the failed row keeps, class by class |
| IngestionWorker.Deployment.Register | backend/app/services/ingestion/intake.py:66-95 | the cleanup flag is set exactly when the call failed and the object still stands |
| IngestionWorker.Deployment.IngestUpload | backend/app/services/ingestion/intake.py:66-112 | a failed upload leaves no row and, unless cleanup fails too, no object; a created job has its object; a reused one is active and the new object is gone |
| CrossCheckRows.MergeIsUnion | backend/app/services/cross_check/state.py:52-55 | a merged reason list holds the known reasons of both sides, each once, in the fixed order |
| CrossCheckRows.MergeCommutes | backend/app/services/cross_check/state.py:52-55 | the stored list depends on the set of triggers alone, not on the order they came in |
| CrossCheckRows.MergedList | backend/app/services/cross_check/sampling.py:13-19 | the merged list in full: the five triggers in the fixed order, each where either side has it |
| CrossCheckRows.GreatestIsMax | backend/app/services/cross_check/state.py:58-65 | the greatest id of a score is the greatest id among its rows, when it has any |
| CrossCheckStore.Store.EnsureCrossCheck | backend/app/services/cross_check/state.py:68-120 | returns the row of the key, inserts it when new, merges reasons, and clears the projection exactly when the row becomes the newest |
| CrossCheckStore.Store.ClaimCrossCheck | backend/app/services/cross_check/state.py:123-150 | claims exactly a queued row with attempts left, under the fresh token |
| CrossCheckStore.Store.CompleteCrossCheck | backend/app/services/cross_check/state.py:153-196 | succeeds exactly for the running row's own token, records the other total and how far it lies from the score's, never negative, and projects the verdict exactly when the row is the newest |
| CrossCheckStore.Store.FailCrossCheck | backend/app/services/cross_check/state.py:199-227 | succeeds exactly for the running row's own token; retryable exactly for a retryable code with attempts left |
| CrossCheckStore.Store.SweepCrossChecks | backend/app/services/cross_check/state.py:230-260 | resolves exactly the unlocked recoverable rows and returns the requeued ids in order |
| CrossCheckStore.RequeuedExactly | backend/app/services/cross_check/state.py:230-260 | the returned ids ascend and are exactly the recoverable rows with attempts left |
| CrossCheckProtocol.RunKeeps | backend/app/services/cross_check/state.py:68-260 | after any sequence of operations: rows well formed (running exactly with token and lease, queued and retryable below the cap), tokens fenced, projection agreeing with the newest row |
| CrossCheckProtocol.VerdictOfNewest | backend/app/services/cross_check/state.py:153-196 | after any sequence, a score shows its greatest-id row's difference and `diff >= threshold` if that row is completed, and otherwise null and false |
| CrossCheckProtocol.RecordedDifference | backend/app/services/cross_check/state.py:179-186 | after any sequence of operations a completed row's difference is not negative and is its score's total less the other or the other less it; no other row holds one |
| CrossCheckProtocol.VerdictOnInputs | backend/app/services/cross_check/state.py:179-194 | in any run, a score whose newest check completed is suspicious exactly when either total exceeds the other by the threshold or more |
| CrossCheckProtocol.SuccessIsFenced | backend/app/services/cross_check/state.py:153-227 | a success carries the token of the row's latest claim, and the same call does not succeed again |
| CrossCheckProtocol.AtMostOncePerClaim | backend/app/services/cross_check/state.py:153-227 | over any run a token settles at most one completion or failure |
| CrossCheckProtocol.StepSinks | backend/app/services/cross_check/state.py:123-260 | completed and terminal rows are never left, and every change of state lowers the rank |
| CrossCheckProtocol.ClaimsAreBounded | backend/app/services/cross_check/state.py:123-150 | over any run a row is claimed as often as its attempts say, never more than the cap |
| CrossCheckProtocol.ShownVerdict | backend/app/services/cross_check/state.py:68-196 | a run from empty tables to a completed newest check whose difference its score shows as suspicious |
| SyncListing.ListingIsOldest | backend/app/services/sync/dingtalk.py:395-396 | sorting before the cap keeps the oldest eligible items, oldest first, and omits one only for older ones |
| SyncListing.TiesKeepOrder | backend/app/services/sync/dingtalk.py:395-396 | items of one instant stay in the order the server gave them |
| SyncListing.PrefixIsOldest | backend/app/services/sync/runner.py:107-132 | the run's own cut keeps the oldest `max_items` of them |
| SyncLedger.NextCursorIsMax | backend/app/services/sync/ledger.py:29-35 | the next cursor is the newest instant among the items and the current cursor |
| SyncLedger.RecordItemRecords | backend/app/services/sync/ledger.py:69-139 | an upsert sets outcome, error and last seen, counts one attempt more, keeps first seen, and keeps the job unless given another; no other row changes |
| SyncRunner.SyncDatabase.RunSync | backend/app/services/sync/runner.py:75-289 | what a run leaves in ledger and cursor, whether it completes or aborts at any item, and that listed is ingested plus skipped plus failed |
| SyncRunner.SyncDatabase.RunItems | backend/app/services/sync/runner.py:147-265 | the loop's counters and ledger after any prefix of items |
| SyncRunner.SyncDatabase.ProcessOne | backend/app/services/sync/runner.py:147-265 | one item, in the rows: accepted content is ingested under its job, known content is skipped and untouched, and each failure is recorded with its reason |
| SyncOutcomes.ItemBringsIn | backend/app/services/sync/runner.py:178-227 | after any item of a run, content is ingested exactly when it was before or the item was fetched with it and accepted, and then under that job |
| SyncOutcomes.ResultIsRow | backend/app/services/sync/runner.py:147-265 | the counted result of an item is the outcome and the error code of its row |
| SyncOutcomes.RunBringsIn | backend/app/services/sync/runner.py:147-265 | over a whole run, content is ingested exactly when it was before or some item brought it and was accepted |
| SyncOutcomes.FirstJobStays | backend/app/services/sync/runner.py:219-227 | and it carries the job of the first item that brought it |
| SyncOutcomes.IngestedCount | backend/app/services/sync/runner.py:219-227 | the number reported as ingested is the number of contents the run added to those ingested |
| SyncOutcomes.AcceptedStaysIn | backend/app/services/sync/ledger.py:45-66 | content accepted in one run is ingested under the same row after any publications, revisions, runs and passes that follow |
| SyncOutcomes.AcceptedNeverAgain | backend/app/services/sync/runner.py:178-188 | and no later run hands it to intake: an item that fetches it is skipped and leaves the ledger as it was |
| SyncSafety.IngestedNeverResubmitted | backend/app/services/sync/ledger.py:45-66 | content once ingested is not submitted again, and its item leaves the ledger as it was |
| SyncSafety.IngestedForever | backend/app/services/sync/ledger.py:105-128 | over any history of publications, revisions, runs and replay passes, an ingested row keeps its outcome, job and counts |
| SyncSafety.RunIsTheCode | backend/app/services/sync/runner.py:75-289 | the run of a history leaves the cursor and the ledger that the method is proved to leave |
| SyncSafety.PassIsTheCode | backend/app/services/sync/replay.py:68-314 | and its pass the ledger that the method is proved to leave |
| SyncSafety.CompletedRunCovers | backend/app/services/sync/runner.py:107-132 | every item a completed run could list is afterwards recorded or still listable |
| SyncSafety.RunKeepsCovered | backend/app/services/sync/runner.py:267-270 | a run, completed or aborted, never moves the cursor back and keeps exactly the items that were within reach |
| SyncSafety.NothingElseIsLost | backend/app/services/sync/ledger.py:18-35 | over any such history, in whose passes repeated ids are placeholders: each source item has a ledger row or is still listable, exactly when it did not appear below the window nor was left behind by the first completed run |
| SyncSafety.FirstCompletedRun | backend/app/services/sync/runner.py:100-106 | the first completed run leaves behind exactly the unrecorded items below its own window |
| SyncSafety.AbortedFirstRunCanLose | backend/app/services/sync/runner.py:39 | a history in which an aborted first run loses an item of its window |
| SyncProgress.AdvancesIff | backend/app/services/sync/runner.py:112-132 | given an item beyond the cursor, a completed run advances it if and only if fewer than `max_items` items lie in the overlap window |
| SyncProgress.QuietSourceDrains | backend/app/services/sync/runner.py:267-270 | with every window that sparse, each completed run removes an item from beyond the cursor, until none is left |
| SyncProgress.DrainedRunRecordsAll | backend/app/services/sync/runner.py:147-265 | one more run then has recorded every item still within reach |
| SyncProgress.DenseWindowStarves | backend/app/services/sync/runner.py:112-132 | a window that fills the cap stops the cursor for good |
| SyncReplay.ReplayFailed | backend/app/services/sync/replay.py:68-314 | the ledger after a pass, whether it goes through, breaks off or is abandoned before or after a row is recorded, and that selected is replayed plus failed plus superseded plus undescribable |
| SyncReplay.ReplayRows | backend/app/services/sync/replay.py:170-314 | its loop: the ledger and the counters after any prefix of rows |
| SyncReplay.PassKeepsIds | backend/app/services/sync/replay.py:171-314 | a pass that draws fresh ids keeps the ids of rows unique, so another can follow it |
| SyncReplay.SelectionIs | backend/app/services/sync/replay.py:100-118 | a pass selects exactly the failed rows with attempts below the maximum |
| SyncReplay.ReplayRow | backend/app/services/sync/replay.py:171-314 | one selected row, in the rows: spent attempt, supersession or ingestion, each with its record, its error code and its discard |
| SyncReplayPotential.PassLowersPotential | backend/app/services/sync/replay.py:383-415 | a pass lowers the attempts left over all eligible failed rows by at least the number of rows it handled |
| SyncReplayPotential.PassesStop | backend/app/services/sync/replay.py:100-118 | over any sequence of passes the rows handled are at most the attempts left at the start |
| SyncReplayPotential.AnsweredPassesEmpty | backend/app/services/sync/replay.py:100-118 | after as many fully answered passes as attempts were left, a pass selects nothing |
| SyncReplayPotential.EmptyIffSpent | backend/app/services/sync/replay.py:100-118 | a selection is empty exactly when no eligible row has attempts left |
| SyncReplaySurvival.OthersUntouched | backend/app/services/sync/replay.py:171-314 | rows whose external id no handled row has, selected or not, are left as they were |
| SyncReplaySurvival.IngestedBeforeStays | backend/app/services/sync/replay.py:171-314 | a row ingested before the pass is untouched by it, whatever the source answers |
| SyncReplaySurvival.BreakLeavesRestIff | backend/app/services/sync/replay.py:171-193 | a pass that ends early leaves an unreached row as it was, if and only if no handled row of its external id was described, fetched with that row's content, and accepted |
| SyncReplaySurvival.BreakTouchesRest | backend/app/services/sync/replay.py:171-193 | a pass that breaks off at its second row after the first one ingested it |
| SyncReplaySurvival.RestIff | backend/app/services/sync/replay.py:171-193 | no pass that ends early touches an unreached row, if and only if each later selected row of a repeated external id is a placeholder |
| SyncReplaySurvival.SurvivalIff | backend/app/services/sync/replay.py:171-314 | content ingested within a pass survives it, for every pass and every ending, if and only if each later selected row of a repeated external id is a placeholder |
| SyncReplaySurvival.DiscardIff | backend/app/services/sync/replay.py:217-233 | no pass deletes an ingested row, under exactly that condition |
| SyncReplaySurvival.TwoRowsVanish | backend/app/services/sync/replay.py:217-233 | two rows of one id, described and fetched with the second one's content: the second is ingested, found superseded by itself, discarded, and no row of the item is left |
| SyncReplaySurvival.PassKeepsRow | backend/app/services/sync/replay.py:217-280 | under the condition an item that has a ledger row has one after the pass |
| SyncReplaySurvival.RepeatedIdCanLose | backend/app/services/sync/replay.py:217-233 | a repeated external id with a real hash admits a pass that discards the content it ingested |
| Calendar.OrdinalOfDate | backend/app/services/operations/budgets.py:39-45 | the calendar counted day by day agrees with the closed form of the proleptic Gregorian calendar |
| Calendar.DateOfOrdinal | backend/app/services/operations/budgets.py:39-45 | each valid date has its own day number, and is the date of it |
| Calendar.MonthStep | backend/app/services/operations/budgets.py:57 | thirty-two days past the first of a month, set back to day one, is the first of the next month, leap years included |
| Calendar.PeriodContains | backend/app/services/operations/budgets.py:48-62 | an instant lies in its own half-open daily and monthly period |
| Calendar.PeriodsTile | backend/app/services/operations/budgets.py:110-112 | the period after a period starts where it ends |
| Calendar.PeriodUnique | backend/app/services/operations/budgets.py:110-112 | every instant of a period has that very period |
| Calendar.PeriodAtMidnight | backend/app/services/operations/budgets.py:35-46 | periods start and end at midnight eight hours ahead of UTC |
| Calendar.DayBounds | backend/app/services/operations/budgets.py:48-62 | a daily period is the twenty-four hours of its date |
| Calendar.MonthBounds | backend/app/services/operations/budgets.py:48-62 | a monthly period runs from the first of its month to the first of the next |
| PeriodChains.CalendarTiles | backend/app/services/operations/budgets.py:48-62 | daily and monthly periods each partition time |
| PeriodChains.ChainCovers | backend/app/services/operations/budgets.py:250-288 | the period of every instant a walk passes is among the periods walked: no gap |
| PeriodChains.ChainDistinct | backend/app/services/operations/budgets.py:250-288 | the periods walked are in order, disjoint, and inside the walk: none twice |
| PeriodChains.RunsDrain | backend/app/services/operations/budgets.py:278-288 | after any number of bounded runs the periods passed are the bound per run, up to the backlog |
| PeriodChains.BacklogDrains | backend/app/services/operations/budgets.py:278-288 | as many runs as there are complete periods leave none |
| PeriodChains.DaysFillMonth | backend/app/services/operations/budgets.py:48-62 | the days of a month, by the civil calendar, walk from its start to its end |
| Budgets.CrossedIsMonotone | backend/app/services/operations/budgets.py:65-90 | more spend crosses every threshold less spend crosses, in the same order, zero and negative budgets included |
| Budgets.WindowsAdd | backend/app/services/operations/budgets.py:124-143 | spend and unknown counts of adjacent windows add up |
| Budgets.MonthIsItsDays | backend/app/services/operations/budgets.py:124-143 | a month's spend and unknown count are the sums over its days |
| Budgets.AlertIff | backend/app/services/operations/budgets.py:146-228 | over any sequence of evaluations, an alert exists exactly when one of them crossed its threshold for its period |
| Budgets.FindingsKeep | backend/app/services/operations/budgets.py:146-228 | at most one alert per scope, period and threshold, and no exceeded alert before its warning |
| BudgetReconciler.EarliestIsLeast | backend/app/services/operations/budgets.py:242-247 | the reference of a new cursor is the start of the earliest attempt |
| BudgetReconciler.BudgetDatabase.InsertThresholdOnce | backend/app/services/operations/budgets.py:146-200 | adds the event exactly when none has its scope, period and threshold, and says so |
| BudgetReconciler.BudgetDatabase.EvaluatePeriod | backend/app/services/operations/budgets.py:203-228 | the events after the loop over crossed thresholds, and the evaluation returned: budget of the scope, spend of the window, exceeded from the budget on or from any spend where there is none, warning from the ratio on |
| BudgetReconciler.BudgetDatabase.EvaluateCurrentBudgets | backend/app/services/operations/budgets.py:231-239 | evaluates the period of each calendar that holds now, daily before monthly |
| BudgetReconciler.BudgetDatabase.ReconcileBudgets | backend/app/services/operations/budgets.py:291-304 | drains both scopes, neither moving the other's cursor, and then evaluates both current periods |
| BudgetReconciler.BudgetDatabase.ReconcileBudgetScope | backend/app/services/operations/budgets.py:250-288 | evaluates exactly the consecutive complete periods from the cursor, as many as the bound and the backlog allow, and leaves the cursor at the next one |
| BudgetReconciler.BudgetDatabase.DrainPeriods | backend/app/services/operations/budgets.py:276-288 | its loop, over any calendar that tiles time |
| BudgetReconciler.RunResumes | backend/app/services/operations/budgets.py:277-283 | the next run starts exactly where this one ended |
| BudgetReconciler.NoAttemptSkipped | backend/app/services/operations/budgets.py:242-288 | once the backlog is drained, the period of every attempt whose period is complete was evaluated |
| BudgetReconciler.AlertsAreExact | backend/app/services/operations/budgets.py:203-288 | the alerts of the reconciled periods are exactly the thresholds their spends cross |
| BudgetAlerts.ExceededAlertIff | backend/app/services/operations/budgets.py:65-90 | a reconciled period has an exceeded alert if and only if its spend reaches a positive budget, or is positive where there is none |
| BudgetAlerts.WarningAlertIff | backend/app/services/operations/budgets.py:65-90 | and a warning if and only if it has that one, or its spend reaches the ratio of a positive budget |
| BudgetAlerts.AlertsAreTrue | backend/app/services/operations/budgets.py:146-200 | every alert is about one of the periods walked, with the budget of its scope and the spend and unknown count of its window |
| BudgetAlerts.LevelIff | backend/app/services/operations/budgets.py:65-90 | at what spend each level begins |
| BudgetAlerts.AggregatesJoin | backend/app/services/operations/budgets.py:124-143 | the aggregates of a log are the sums over its parts |
| BudgetAlerts.AggregatesOfOne | backend/app/services/operations/budgets.py:124-143 | one attempt counts with its cost, or as unknown, in exactly the windows that hold its start |
| BudgetReconciler.LatestDecides | backend/app/services/operations/budgets.py:203-239 | however often a growing period is evaluated, its alerts are those its last evaluation crosses |
| BudgetReconciler.SpendGrows | backend/app/services/operations/budgets.py:124-143 | recording more attempts never lowers a spend or an unknown count |
| Decimals.NormalizeIff | backend/app/services/quality/releases.py:109-120 | two decimals have the same normal form exactly when they are numerically equal |
| NumberTokens.ZeroToken | backend/app/services/quality/releases.py:109-120 | every zero, signed or scaled, prints as `0` |
| NumberTokens.TokenOfNormal | backend/app/services/quality/releases.py:109-120 | a decimal prints as its normal form does: trailing zeros and scale do not matter |
| NumberTokens.TokenShape | backend/app/services/quality/releases.py:109-120 | a token is fixed-point: no exponent, no zero at the end of a fraction, no bare point |
| NumberReader.ReadToken | backend/app/services/quality/releases.py:109-120 | the number grammar of section 6 of RFC 8259 reads a token back to the exact value, wherever a value may end |
| NumberReader.TokenIff | backend/app/services/quality/releases.py:109-120 | two decimals have the same token exactly when they are numerically equal |
| JsonStrings.ReadsBody | backend/app/services/quality/releases.py:132-133 | the string grammar of section 7 of RFC 8259 reads every written string back |
| JsonStrings.OrdinaryText | backend/app/services/quality/releases.py:132-133 | text without quotes, backslashes and control characters is written as it is |
| JsonStrings.EscapedCharacter | backend/app/services/quality/releases.py:132-133 | each other character has its one escape |
| CanonicalJson.IntIsNumber | backend/app/services/quality/releases.py:130-131 | an integer prints as the decimal of the same value |
| CanonicalJson.PrintReads | backend/app/services/quality/releases.py:123-143 | the reader returns the normal form of a printed value and leaves what follows it, at every nesting |
| CanonicalJson.RoundTrip | backend/app/services/quality/releases.py:123-143 | parsing a printed value gives its normal form |
| CanonicalJson.NormIff | backend/app/services/quality/releases.py:123-143 | normal forms agree exactly for equal values: numbers by value, lists in order, dicts by their keys |
| CanonicalJson.PrintOfNorm | backend/app/services/quality/releases.py:176-179 | printing what was read back gives the same text |
| CanonicalJson.KeysAscend | backend/app/services/quality/releases.py:134-139 | the text of a dict lists its keys in string order, each once, with their values |
| CanonicalJson.TextIff | backend/app/services/quality/releases.py:123-143 | two values have the same text if and only if they are equal |
| StringOrder.SortIff | backend/app/services/quality/releases.py:134-139 | two dicts sort to the same list of items exactly when they hold the same items |
| StringOrder.StrLeIff | backend/app/services/quality/releases.py:134-139 | that order is decided at the first difference, by code point |
| GoldenSet.GoldenTextIff | backend/app/services/quality/releases.py:146-152 | two golden row lists have the same pre-hash text if and only if they are equal as multisets |
| GoldenSet.GoldenTextReads | backend/app/services/quality/releases.py:146-152 | the pre-hash text reads as the rows, each jd, candidate, label, sorted in that order |
| GoldenSet.FingerprintIff | backend/app/services/quality/releases.py:203-231 | two releases have the same pre-hash text if and only if hash, window, bindings in jd order and targets agree |
| GoldenSet.FingerprintReads | backend/app/services/quality/releases.py:203-231 | the fingerprint text reads as a dict of the six members, bindings in jd order |
| GoldenSet.BindingReads | backend/app/services/quality/releases.py:220-227 | a binding reads as a dict of its three fields |
| GoldenSet.BindingsIff | backend/app/services/quality/releases.py:220-227 | with one binding a jd, bindings in jd order agree if and only if the bindings do as multisets |
| Metrics.ClassificationMetrics | backend/app/services/quality/metrics.py:76-98 | each count is the number of items of its kind, and covered, uncovered and excluded make up the total |
| CalibrationMeaning.KindsAreCounted | backend/app/services/quality/metrics.py:76-98 | each count, over the grades and labels: predicted to advance is any grade but rejected |
| Metrics.F1IsHarmonic | backend/app/services/golden_set.py:184-194 | F1 as computed is the harmonic mean of precision and recall as computed |
| Metrics.EvidenceMetrics | backend/app/services/quality/metrics.py:110-151 | expected and covered counts, covered at most expected, ratio in [0, 1] exactly when there is anything to cover |
| CalibrationMeaning.CoversIff | backend/app/services/quality/metrics.py:123-134 | a dimension is covered exactly when its last observation is known and has validated evidence |
| CalibrationMeaning.ItemExpects | backend/app/services/quality/metrics.py:121-134 | each item the judge saw adds the dimensions of its jd to what is expected, and those it covers |
| Calibration.WeightedConfidence | backend/app/services/quality/metrics.py:154-170 | the loop computes the weighted mean over the known, usable, positively weighted observations |
| Calibration.MeanIsBetween | backend/app/services/quality/metrics.py:154-170 | that mean lies between the least and the greatest confidence that counts |
| Calibration.MeanInUnit | backend/app/services/quality/metrics.py:154-170 | and in [0, 1] |
| CalibrationMeaning.ConfidenceIff | backend/app/services/quality/metrics.py:154-170 | an item has a confidence exactly when some observation is known, usable and of positive weight; it is then their weighted mean |
| CalibrationMeaning.ObservationAdds | backend/app/services/quality/metrics.py:154-170 | what one observation adds to weight and sum |
| CalibrationMeaning.WeightIsLast | backend/app/services/quality/metrics.py:187 | the weight of a key is that of the last dimension that has it |
| Calibration.BinIndex | backend/app/services/quality/metrics.py:173-177 | the loop finds the bin of a confidence |
| Calibration.BinsPartition | backend/app/services/quality/metrics.py:21-27 | each confidence in [0, 1] is in exactly that one of the five bins |
| CalibrationMeaning.BinIsFifth | backend/app/services/quality/metrics.py:21-27 | the bins are fifths with their lower edge; the last has its upper edge too |
| Calibration.BinsConserve | backend/app/services/quality/metrics.py:189-200 | bin counts plus unavailable are the scored, judged, non-borderline items |
| CalibrationReport.ConfidenceMetrics | backend/app/services/quality/metrics.py:180-248 | the report of the two loops |
| CalibrationReport.FillBuckets | backend/app/services/quality/metrics.py:187-200 | the first loop puts each scored item in its bin, in order, with whether its decision was right, or counts it unavailable |
| CalibrationReport.ReportConserves | backend/app/services/quality/metrics.py:243-248 | available plus unavailable is the number of scored items |
| CalibrationMeaning.BinSays | backend/app/services/quality/metrics.py:204-228 | a row of the report: its count, accuracy times count as the number of right decisions between its edges, and the gap as the distance of mean and accuracy |
| CalibrationMeaning.CorrectAreRight | backend/app/services/quality/metrics.py:199-200 | over the five bins the correct entries are exactly the available items rejected and to be rejected or neither |
| CalibrationMeaning.RightIsTrue | backend/app/services/quality/metrics.py:76-98 | those are the true positives and true negatives among the available items |
| CalibrationMeaning.AllRight | backend/app/services/quality/metrics.py:214-218 | a bin of right decisions has accuracy one, a bin of wrong ones zero |
| CalibrationMeaning.AvailableAre | backend/app/services/quality/metrics.py:189-196 | available and unavailable are the judged items with and without a confidence |
| CalibrationMeaning.ErrorOfFive | backend/app/services/quality/metrics.py:230-241 | the error times the items of the sufficient bins is the sum of their gaps, each as often as its bin has items |
| CalibrationReport.MeanInBin | backend/app/services/quality/metrics.py:202-210 | a bin's mean lies in the bin, the upper edge excluded except in the last |
| CalibrationReport.EceIsBetween | backend/app/services/quality/metrics.py:230-241 | the calibration error lies between the least and the greatest gap of the sufficient bins |
| CalibrationReport.EceInUnit | backend/app/services/quality/metrics.py:230-241 | it lies in [0, 1], and exists exactly when some bin is sufficient |
| DecimalContext.ShedAdded | backend/app/services/llm/pricing.py:122-125 | an exact quotient sheds the zeros long division added |
| Pricing.RateAcceptedIff | backend/app/services/llm/pricing.py:59-74 | a rate is accepted exactly when it is a finite, nonnegative number of at most six places within Numeric(18,6), and keeps its value |
| Pricing.RateInMillionths | backend/app/services/llm/pricing.py:59-74 | a rate in millionths: accepted from zero to eighteen nines, and kept |
| Pricing.MulExact | backend/app/services/llm/pricing.py:120-125 | no product of an accepted rate and an accepted token count is rounded in the 40-digit context |
| Pricing.AddExact | backend/app/services/llm/pricing.py:120-125 | nor the sum of two |
| Pricing.DivExact | backend/app/services/llm/pricing.py:120-125 | nor the division by a million |
| Pricing.CostIsTotal | backend/app/services/llm/pricing.py:120-126 | nor the half-up quantisation: the quantised cost is the true value |
| Pricing.CostIsExact | backend/app/services/llm/pricing.py:109-129 | none for unknown usage; refused exactly for bad counts or a value beyond Numeric(24,12); otherwise the true rational value |
| Pricing.CostInTrillionths | backend/app/services/llm/pricing.py:109-129 | a cost in trillionths: input tokens times input rate plus output tokens times output rate, refused exactly beyond 32-bit counts or twenty-four nines |
| Pricing.CountsAreChecked | backend/app/services/llm/pricing.py:114-119 | a missing count has no cost; a negative or non-integer one is refused |
| Pricing.CostIsAdditive | backend/app/services/llm/pricing.py:109-129 | costs add up over calls |
| Pricing.CostIsMonotone | backend/app/services/llm/pricing.py:109-129 | fewer tokens never cost more, nor are refused when more are accepted |
| Pricing.LimitIsSharp | backend/app/services/llm/pricing.py:127-128 | a cost of exactly the largest Numeric(24,12) value is accepted, one quantum more is refused |
| RuleDiff.DiffSchemas | backend/app/services/read/rule_diff.py:18-48 | the loops compute the diff: scalars, then removed, added and changed entries of each collection in id order |
| RuleDiff.DiffCollection | backend/app/services/read/rule_diff.py:28-46 | the loops over one collection |
| RuleDiff.SortedIdsHolds | backend/app/services/read/rule_diff.py:31-41 | the ids of a set, each once, in string order |
| RuleDiffMeaning.DiffDescribes | backend/app/services/read/rule_diff.py:18-48 | the diff holds exactly one change, the true one, for each path at which the keyed views differ, and no other |
| RuleDiffMeaning.EmptyIff | backend/app/services/read/rule_diff.py:18-20 | the diff is empty if and only if the keyed views are equal |
| RuleDiffMeaning.PatchWorks | backend/app/services/read/rule_diff.py:18-48 | applying the diff to the keyed view of the first schema gives that of the second |
| RuleDiffMeaning.ViewExists | backend/app/services/read/rule_diff.py:18-48 | every schema has a keyed view, the one its diff from an empty schema builds |
| RuleDiffFields.IndexIsLast | backend/app/services/read/rule_diff.py:14-15 | an id is in the index exactly when some object has it, with the body of the last |
| RuleDiffFields.ScalarsChange | backend/app/services/read/rule_diff.py:23-26 | each of the two scalars is changed in the diff exactly when its two values differ, and carries them |
| RuleDiffFields.HardFiltersChange | backend/app/services/read/rule_diff.py:28-46 | at each id of the hard filters: a change exactly when the last objects of that id in the two schemas differ, removed, added or changed as they are there |
| RuleDiffFields.RuleDimensionsChange | backend/app/services/read/rule_diff.py:28-46 | the same for the rule dimensions |
| RuleDiffFields.JudgeDimensionsChange | backend/app/services/read/rule_diff.py:28-46 | the same for the judge dimensions |
| RuleDiffFields.GradeThresholdsChange | backend/app/services/read/rule_diff.py:28-46 | the same for the grade thresholds |
| RuleDiffFields.DiffIsOrdered | backend/app/services/read/rule_diff.py:18-48 | changes come field by field, removed before added before changed, by id |
| RuleDiffFields.PathIsWritten | backend/app/services/read/rule_diff.py:5-11 | how the paths of the six fields are written |
| RuleDiffMeaning.PatchUndone | backend/app/services/read/rule_diff.py:18-48 | the diff the other way undoes it |
| RuleDiffMeaning.DiffFlips | backend/app/services/read/rule_diff.py:18-48 | the diff the other way holds each change turned round, and nothing else |
| RuleDiffMeaning.PathTextInjective | backend/app/services/read/rule_diff.py:33-45 | no two paths are written alike |
| RuleDiffMeaning.ReorderedIndex | backend/app/services/read/rule_diff.py:14-15 | reordering a collection with distinct ids leaves its index as it was |
| RuleDiffMeaning.ReorderingIsNoChange | backend/app/services/read/rule_diff.py:18-20 | schemas that differ in order alone have no diff |

## Left out

- Routers, schemas, sessions and authentication, the frontend and the tool server: plumbing without a hard property.
- Network calls to the parser, the models and the recruiting source: only their outcomes appear, as scripts of a call.
- SQL, locks and isolation levels: a transaction is a step over maps of rows, a skipped lock an arbitrary set of rows.
- ORM identity maps and aliasing between rows: a table is a map field, a session's copy of a row a value.
- The partial unique index on updates of a row: with the lease bound kept no update can violate it; with the bound broken the database would refuse some writes of a stale worker that the model lets through.
- SHA-256, encryption and the object store's internals: hashes and keys are opaque values, and a stored key is fresh.
- The older `run_parse_and_score` path: it is not part of the queue.
- Audit and log rows, except the budget alerts: their contents drive no decision.
- `_merge_reasons` on a stored value that is not a list: the column holds lists only.
- IngestionWorker.Deployment.ParseAndScore: time does not pass inside one call of the method; the protocol's steps let it pass between any two of them.
- IngestionWorker.Deployment.IngestUpload: a process that dies before cleanup is the protocol's abandon step without removal, not a return of the method.
- SyncReplaySurvival.SurvivalIff: the selection of a pass is taken as one snapshot, and no other run writes the ledger during it.
- SyncSafety.NothingElseIsLost: runs and passes do not overlap, and the source answers with every row from the window's start on or with its oldest ones up to the limit.
- Several sources in one ledger: rows of one source share no key with those of another, so one source is modelled.
- `identity_key` on a blank hash or id, which raises: it ends a run like any other exception.
- Historic daylight saving of the local zone, and dates beyond year 9999: the offset is eight hours throughout and years have no upper end.
- Naive datetimes, which `local_periods` refuses: instants are numbers.
- BudgetReconciler.NoAttemptSkipped: attempts recorded later with a start before the cursor are not evaluated by the source either, and are not claimed.
- Rounding of decimal means at 28 digits and of binary floats and Numeric(6,2): metrics and cross-check differences are exact reals.
- CanonicalJson.RoundTrip: non-finite decimals and values of other types, which the source refuses with an error, are not values of the model; dict keys are strings; insignificant whitespace is not read.
- GoldenSet.FingerprintIff: window bounds enter as the UTC texts the source writes; that two instants have different texts is not part of this model.
- `parse_price_book`: the JSON shape checks around `_normalize_rate` are easy members.
- RuleDiff.DiffSchemas: ids and grades are strings; the bodies of entries are opaque values compared for equality.
- Agreement metrics, target verdicts and the release roll-up: easy members.
- Release creation and its retry on conflicting writers.
