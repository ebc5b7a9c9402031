/** The bounded re-drive of failed ledger rows, as a pass over a snapshot of them. */
module SyncReplay {
  import opened Common
  import opened SyncListing
  import opened SyncLedger
  import opened SyncRunner

  /** A row of the snapshot a pass works from. */
  datatype Pending = Pending(rowId: nat, externalId: ExternalId, sha: ContentHash)

  datatype Describe = Described | NotThere | Unsupported

  /**
   Answers for one row. An abort ends the pass before the row has an outcome, as when the source
   is down, or after it was committed, as when the broker refuses the new job.
   */
  datatype ReplayCall = ReplayCall(abort: Abort, describe: Describe, fetch: Fetch, intake: Intake, newId: nat)

  datatype ReplayResult = Replayed | SpentAttempt | Superseded

  function Key(p: Pending): Identity {
    (p.externalId, p.sha)
  }

  /** `attempts < max` and failed: what a pass selects. */
  predicate Selected(row: LedgerRow, maxAttempts: nat) {
    row.outcome == Failed && row.attempts < maxAttempts
  }

  function DeleteRow(ledger: Ledger, id: nat): Ledger {
    map key | key in ledger && ledger[key].id != id :: ledger[key]
  }

  /** The failure is recorded on the selected row, never under a freshly fetched hash. */
  function SpendAttempt(ledger: Ledger, p: Pending, error: ErrorCode, now: int, newId: nat): Ledger {
    RecordItem(ledger, Key(p), Failed, Some(error), None, now, newId)
  }

  function ReplayResultOf(ledger: Ledger, p: Pending, call: ReplayCall): ReplayResult {
    if call.describe.NotThere? || call.fetch.Unavailable? then SpentAttempt
    else if AlreadyIngested(ledger, (p.externalId, call.fetch.sha)) then Superseded
    else if call.intake.Accepted? then Replayed
    else SpentAttempt
  }

  function ReplayOne(ledger: Ledger, p: Pending, call: ReplayCall, now: int): Ledger {
    if call.describe.NotThere? || call.fetch.Unavailable? then
      SpendAttempt(ledger, p, ItemUnavailable, now, call.newId)
    else
      var key := (p.externalId, call.fetch.sha);
      if AlreadyIngested(ledger, key) then DeleteRow(ledger, p.rowId)
      else match call.intake
           case Accepted(job, _) =>
             var recorded := RecordItem(ledger, key, Ingested, None, Some(job), now, call.newId);
             if call.fetch.sha != p.sha then DeleteRow(recorded, p.rowId) else recorded
           case Rejected => SpendAttempt(ledger, p, UnsupportedAttachment, now, call.newId)
           case Errored => SpendAttempt(ledger, p, IngestionFailed, now, call.newId)
  }

  function ReplayAll(ledger: Ledger, pending: seq<Pending>, calls: seq<ReplayCall>, now: int): Ledger
    requires |calls| == |pending|
  {
    if pending == [] then ledger
    else
      var n := |pending| - 1;
      ReplayOne(ReplayAll(ledger, pending[..n], calls[..n], now), pending[n], calls[n], now)
  }

  function CountReplay(ledger: Ledger, pending: seq<Pending>, calls: seq<ReplayCall>, now: int, result: ReplayResult): nat
    requires |calls| == |pending|
  {
    if pending == [] then 0
    else
      var n := |pending| - 1;
      CountReplay(ledger, pending[..n], calls[..n], now, result)
      + (if ReplayResultOf(ReplayAll(ledger, pending[..n], calls[..n], now), pending[n], calls[n]) == result
         then 1 else 0)
  }

  /** The row gets an outcome. */
  predicate Proceeds(call: ReplayCall) {
    call.abort != BeforeRecord && !call.describe.Unsupported?
  }

  /** How many rows get an outcome before the pass ends. */
  function Handled(calls: seq<ReplayCall>): (n: nat)
    ensures n <= |calls|
  {
    if calls == [] || !Proceeds(calls[0]) then 0
    else if calls[0].abort == AfterRecord then 1
    else 1 + Handled(calls[1..])
  }

  lemma {:induction false} HandledProceed(calls: seq<ReplayCall>)
    ensures forall k :: 0 <= k < Handled(calls) ==> Proceeds(calls[k])
  {
    if calls != [] && Proceeds(calls[0]) && calls[0].abort != AfterRecord {
      HandledProceed(calls[1..]);
      forall k | 0 <= k < Handled(calls) ensures Proceeds(calls[k]) {
        assert k > 0 ==> calls[k] == calls[1..][k - 1];
      }
    }
  }

  /** A pass goes through its snapshot, breaks off for want of a capability, or is abandoned. */
  datatype Ending = WentThrough | BrokeOff | Abandoned

  function EndingOf(calls: seq<ReplayCall>): Ending {
    if calls == [] then WentThrough
    else if calls[0].abort == BeforeRecord then Abandoned
    else if calls[0].describe.Unsupported? then BrokeOff
    else if calls[0].abort == AfterRecord then Abandoned
    else EndingOf(calls[1..])
  }

  predicate GoesOn(call: ReplayCall) {
    call.abort == NoAbort && !call.describe.Unsupported?
  }

  /** After rows that went on, the next answer decides where and how the pass ends. */
  lemma {:induction false} HandledAt(calls: seq<ReplayCall>, i: nat)
    requires i <= |calls| && forall k :: 0 <= k < i ==> GoesOn(calls[k])
    ensures i <= Handled(calls)
    ensures i < |calls| && !Proceeds(calls[i]) ==> Handled(calls) == i
    ensures i < |calls| && Proceeds(calls[i]) ==> i < Handled(calls)
    ensures i < |calls| && calls[i].abort == AfterRecord && Proceeds(calls[i]) ==> Handled(calls) == i + 1
    ensures i == |calls| ==> Handled(calls) == i && EndingOf(calls) == WentThrough
    ensures i < |calls| && !GoesOn(calls[i]) ==>
              EndingOf(calls) == if calls[i].abort != BeforeRecord && calls[i].describe.Unsupported? then BrokeOff else Abandoned
  {
    if i > 0 {
      HandledAt(calls[1..], i - 1);
    }
  }

  datatype ReplayReport = ReplayReport(selected: nat, replayed: nat, failed: nat, superseded: nat, undescribable: nat)

  function Keys(pending: seq<Pending>): set<Identity> {
    set p | p in pending :: Key(p)
  }

  /** The answer of the selecting query: exactly the selected rows, each once. */
  ghost predicate IsSelection(ledger: Ledger, pending: seq<Pending>, maxAttempts: nat) {
    && (forall i :: 0 <= i < |pending| ==> Key(pending[i]) in ledger
                                           && ledger[Key(pending[i])].id == pending[i].rowId
                                           && Selected(ledger[Key(pending[i])], maxAttempts))
    && (forall i, j :: 0 <= i < j < |pending| ==> Key(pending[i]) != Key(pending[j]))
    && (forall key :: key in ledger && Selected(ledger[key], maxAttempts) ==> key in Keys(pending))
  }

  /** A pass selects exactly the failed rows that have attempts left. */
  lemma {:induction false} SelectionIs(ledger: Ledger, pending: seq<Pending>, maxAttempts: nat, key: Identity)
    requires IsSelection(ledger, pending, maxAttempts)
    ensures key in Keys(pending) <==> key in ledger && ledger[key].outcome == Failed && ledger[key].attempts < maxAttempts
    ensures pending == [] <==> forall key :: key in ledger && ledger[key].outcome == Failed ==> ledger[key].attempts >= maxAttempts
  {
    if key in Keys(pending) {
      var i :| 0 <= i < |pending| && Key(pending[i]) == key;
      assert Selected(ledger[Key(pending[i])], maxAttempts);
    }
    if pending != [] {
      assert Selected(ledger[Key(pending[0])], maxAttempts);
    } else {
      assert Keys(pending) == {};
    }
  }

  /** The rows of the id are gone, and every other row is there as it was. */
  ghost predicate Removed(before: Ledger, after: Ledger, id: nat) {
    && (forall key :: key in after <==> key in before && before[key].id != id)
    && (forall key :: key in after ==> after[key] == before[key])
  }

  /** `_discard`. */
  method Discard(db: SyncDatabase, id: nat)
    modifies db`ledger
    ensures db.ledger == DeleteRow(old(db.ledger), id)
    ensures Removed(old(db.ledger), db.ledger, id)
  {
    db.ledger := map key | key in db.ledger && db.ledger[key].id != id :: db.ledger[key];
  }

  /** The body of the loop: describe, fetch, look up, hand to intake, record. */
  method ReplayRow(db: SyncDatabase, p: Pending, call: ReplayCall, now: int) returns (result: ReplayResult)
    requires Proceeds(call)
    modifies db`ledger
    ensures db.ledger == ReplayOne(old(db.ledger), p, call, now)
    ensures result == ReplayResultOf(old(db.ledger), p, call)
    ensures call.describe.NotThere? || call.fetch.Unavailable? ==>
              result == SpentAttempt
              && Recorded(old(db.ledger), db.ledger, (p.externalId, p.sha), Failed, Some(ItemUnavailable), None, now, call.newId)
    ensures !call.describe.NotThere? && call.fetch.Fetched? ==>
              var key := (p.externalId, call.fetch.sha);
              var known := key in old(db.ledger) && old(db.ledger)[key].outcome == Ingested;
              && (known ==> result == Superseded && Removed(old(db.ledger), db.ledger, p.rowId))
              && (!known && call.intake.Accepted? ==>
                    result == Replayed
                    && var recorded := RecordItem(old(db.ledger), key, Ingested, None, Some(call.intake.job), now, call.newId);
                    && Recorded(old(db.ledger), recorded, key, Ingested, None, Some(call.intake.job), now, call.newId)
                    && (if call.fetch.sha == p.sha then db.ledger == recorded else Removed(recorded, db.ledger, p.rowId)))
              && (!known && call.intake.Rejected? ==>
                    result == SpentAttempt
                    && Recorded(old(db.ledger), db.ledger, (p.externalId, p.sha), Failed, Some(UnsupportedAttachment), None,
                                now, call.newId))
              && (!known && call.intake.Errored? ==>
                    result == SpentAttempt
                    && Recorded(old(db.ledger), db.ledger, (p.externalId, p.sha), Failed, Some(IngestionFailed), None,
                                now, call.newId))
  {
    if call.describe.NotThere? || call.fetch.Unavailable? {
      db.Record(Key(p), Failed, Some(ItemUnavailable), None, now, call.newId);
      return SpentAttempt;
    }
    var key := (p.externalId, call.fetch.sha);
    if AlreadyIngested(db.ledger, key) {
      Discard(db, p.rowId);
      return Superseded;
    }
    match call.intake {
      case Accepted(job, _) =>
        db.Record(key, Ingested, None, Some(job), now, call.newId);
        if call.fetch.sha != p.sha {
          Discard(db, p.rowId);
        }
        return Replayed;
      case Rejected =>
        db.Record(Key(p), Failed, Some(UnsupportedAttachment), None, now, call.newId);
        return SpentAttempt;
      case Errored =>
        db.Record(Key(p), Failed, Some(IngestionFailed), None, now, call.newId);
        return SpentAttempt;
    }
  }

  /** The report on the first `n` rows of a pass. */
  function ReportOf(ledger: Ledger, pending: seq<Pending>, calls: seq<ReplayCall>, now: int, n: nat): ReplayReport
    requires |calls| == |pending| && n <= |pending|
  {
    ReplayReport(
      |pending|,
      CountReplay(ledger, pending[..n], calls[..n], now, Replayed),
      CountReplay(ledger, pending[..n], calls[..n], now, SpentAttempt),
      CountReplay(ledger, pending[..n], calls[..n], now, Superseded),
      |pending| - n)
  }

  /** Every row of a pass has one outcome, or is one of those left. */
  lemma {:induction false} ReportAddsUp(ledger: Ledger, pending: seq<Pending>, calls: seq<ReplayCall>, now: int, n: nat)
    requires |calls| == |pending| && n <= |pending|
    ensures var r := ReportOf(ledger, pending, calls, now, n);
            r.selected == r.replayed + r.failed + r.superseded + r.undescribable
  {
    if n > 0 {
      ReportAddsUp(ledger, pending, calls, now, n - 1);
      ReportStep(ledger, pending, calls, now, n - 1);
    }
  }

  /** The report once row `i` has its outcome. */
  function Counted(r: ReplayReport, result: ReplayResult): ReplayReport
    requires r.undescribable > 0
  {
    var left := r.undescribable - 1;
    match result
    case Replayed => r.(replayed := r.replayed + 1, undescribable := left)
    case SpentAttempt => r.(failed := r.failed + 1, undescribable := left)
    case Superseded => r.(superseded := r.superseded + 1, undescribable := left)
  }

  lemma {:induction false} ReportStep(ledger: Ledger, pending: seq<Pending>, calls: seq<ReplayCall>, now: int, i: nat)
    requires |calls| == |pending| && i < |pending|
    ensures var before := ReplayAll(ledger, pending[..i], calls[..i], now);
            ReportOf(ledger, pending, calls, now, i + 1)
            == Counted(ReportOf(ledger, pending, calls, now, i), ReplayResultOf(before, pending[i], calls[i]))
  {
    ReplayPrefixStep(ledger, pending, calls, now, i);
  }

  /** The loop of `replay_failed`; None when an exception ends it. */
  method ReplayRows(db: SyncDatabase, pending: seq<Pending>, calls: seq<ReplayCall>, now: int)
    returns (r: Option<ReplayReport>)
    requires |calls| == |pending|
    modifies db`ledger
    ensures db.ledger == ReplayAll(old(db.ledger), pending[..Handled(calls)], calls[..Handled(calls)], now)
    ensures r.None? <==> EndingOf(calls) == Abandoned
    ensures r.Some? ==> r.value == ReportOf(old(db.ledger), pending, calls, now, Handled(calls))
    ensures r.Some? ==>
              var ledger, n := old(db.ledger), Handled(calls);
              && r.value.selected == |pending| && r.value.undescribable == |pending| - n
              && r.value.replayed == CountReplay(ledger, pending[..n], calls[..n], now, Replayed)
              && r.value.failed == CountReplay(ledger, pending[..n], calls[..n], now, SpentAttempt)
              && r.value.superseded == CountReplay(ledger, pending[..n], calls[..n], now, Superseded)
  {
    var report := ReplayReport(|pending|, 0, 0, 0, |pending|);
    var i := 0;
    while i < |pending|
      invariant 0 <= i <= |pending|
      invariant forall k :: 0 <= k < i ==> GoesOn(calls[k])
      invariant db.ledger == ReplayAll(old(db.ledger), pending[..i], calls[..i], now)
      invariant report == ReportOf(old(db.ledger), pending, calls, now, i)
    {
      var call := calls[i];
      HandledAt(calls, i);
      if call.abort == BeforeRecord {
        return None;
      }
      if call.describe.Unsupported? {
        return Some(report);
      }
      ReplayPrefixStep(old(db.ledger), pending, calls, now, i);
      ReportStep(old(db.ledger), pending, calls, now, i);
      var result := ReplayRow(db, pending[i], call, now);
      if call.abort == AfterRecord {
        return None;
      }
      report := Counted(report, result);
      i := i + 1;
    }
    HandledAt(calls, i);
    return Some(report);
  }

  /** `replay_failed` over its snapshot. The closing audit row may fail to commit like any other. */
  method ReplayFailed(db: SyncDatabase, pending: seq<Pending>, calls: seq<ReplayCall>, now: int, auditFails: bool)
    returns (r: Result<ReplayReport, RunError>)
    requires |calls| == |pending|
    modifies db`ledger
    ensures db.ledger == ReplayAll(old(db.ledger), pending[..Handled(calls)], calls[..Handled(calls)], now)
    ensures r.Err? <==> EndingOf(calls) == Abandoned || auditFails
    ensures r.Ok? ==> r.value == ReportOf(old(db.ledger), pending, calls, now, Handled(calls))
    ensures r.Ok? ==> r.value.selected == r.value.replayed + r.value.failed + r.value.superseded + r.value.undescribable
  {
    ReportAddsUp(db.ledger, pending, calls, now, Handled(calls));
    var report := ReplayRows(db, pending, calls, now);
    if report.None? || auditFails {
      return Err(RunAborted);
    }
    return Ok(report.value);
  }

  lemma {:induction false} ReplayPrefixStep(ledger: Ledger, pending: seq<Pending>, calls: seq<ReplayCall>, now: int, i: nat)
    requires |calls| == |pending| && i < |pending|
    ensures var before := ReplayAll(ledger, pending[..i], calls[..i], now);
            && ReplayAll(ledger, pending[..i + 1], calls[..i + 1], now) == ReplayOne(before, pending[i], calls[i], now)
            && forall result ::
                 CountReplay(ledger, pending[..i + 1], calls[..i + 1], now, result)
                 == CountReplay(ledger, pending[..i], calls[..i], now, result)
                    + (if ReplayResultOf(before, pending[i], calls[i]) == result then 1 else 0)
  {
    assert pending[..i + 1][..i] == pending[..i] && calls[..i + 1][..i] == calls[..i];
  }

  // ----- the ids a pass draws -----

  /** The ids drawn by inserts are new. */
  ghost predicate FreshIds(ledger: Ledger, calls: seq<ReplayCall>) {
    forall i :: 0 <= i < |calls| ==> calls[i].newId !in IdsOf(ledger)
  }

  /** And no two of them are the same. */
  ghost predicate DistinctIds(calls: seq<ReplayCall>) {
    forall i, j :: 0 <= i < j < |calls| ==> calls[i].newId != calls[j].newId
  }

  function NewIds(calls: seq<ReplayCall>): set<nat> {
    set call | call in calls :: call.newId
  }

  lemma {:induction false} ReplayDraws(ledger: Ledger, p: Pending, call: ReplayCall, now: int)
    ensures Draws(ledger, ReplayOne(ledger, p, call, now), call.newId)
  {
  }

  lemma {:induction false} StillFresh(before: Ledger, middle: Ledger, calls: seq<ReplayCall>, n: nat)
    requires n < |calls| && FreshIds(before, calls) && DistinctIds(calls)
    requires IdsOf(middle) <= IdsOf(before) + NewIds(calls[..n])
    ensures calls[n].newId !in IdsOf(middle)
    ensures NewIds(calls[..n + 1]) == NewIds(calls[..n]) + {calls[n].newId}
  {
    assert calls[..n + 1] == calls[..n] + [calls[n]];
    forall call | call in calls[..n] ensures call.newId != calls[n].newId {
      var i :| 0 <= i < n && calls[..n][i] == call;
      assert calls[i].newId != calls[n].newId;
    }
  }

  /** A pass keeps ids unique, so another can follow it. */
  lemma {:induction false} PassKeepsIds(ledger: Ledger, pending: seq<Pending>, calls: seq<ReplayCall>, now: int, n: nat)
    requires UniqueIds(ledger) && FreshIds(ledger, calls) && DistinctIds(calls) && |calls| == |pending| && n <= |pending|
    ensures var after := ReplayAll(ledger, pending[..n], calls[..n], now);
            UniqueIds(after) && IdsOf(after) <= IdsOf(ledger) + NewIds(calls[..n])
  {
    if n > 0 {
      PassKeepsIds(ledger, pending, calls, now, n - 1);
      ReplayPrefixStep(ledger, pending, calls, now, n - 1);
      var middle := ReplayAll(ledger, pending[..n - 1], calls[..n - 1], now);
      StillFresh(ledger, middle, calls, n - 1);
      ReplayDraws(middle, pending[n - 1], calls[n - 1], now);
      DrawsKeep(middle, ReplayOne(middle, pending[n - 1], calls[n - 1], now), calls[n - 1].newId);
    }
  }
}
