/** One run of the sync: list, fetch, deduplicate, ingest, record, and move the cursor. */
module SyncRunner {
  import opened Common
  import opened SyncListing
  import opened SyncLedger

  const FIRST_RUN_LOOKBACK: int := 86400

  /** The answers of the source and of intake for one item. */
  datatype Fetch = Unavailable | Fetched(sha: ContentHash)

  datatype Intake = Accepted(job: nat, created: bool) | Rejected | Errored

  /** Where an exception that no handler of the loop catches ends the run, if anywhere. */
  datatype Abort = NoAbort | BeforeRecord | AfterRecord

  /** `rowId` is the ledger id an insert for this item draws. */
  datatype ItemCall = ItemCall(fetch: Fetch, intake: Intake, abort: Abort, rowId: nat)

  datatype ItemResult = WasIngested | WasSkipped | WasFailed

  /** What the loop decides for one item. */
  function ResultOf(ledger: Ledger, item: SourceItem, call: ItemCall): ItemResult {
    if call.fetch.Unavailable? then WasFailed
    else if AlreadyIngested(ledger, (item.externalId, call.fetch.sha)) then WasSkipped
    else if call.intake.Accepted? then WasIngested
    else WasFailed
  }

  /** The item is handed to intake. */
  predicate Submits(ledger: Ledger, item: SourceItem, call: ItemCall) {
    call.fetch.Fetched? && !AlreadyIngested(ledger, (item.externalId, call.fetch.sha))
  }

  /** What processing one item writes to the ledger. */
  function Process(ledger: Ledger, item: SourceItem, call: ItemCall, now: int): Ledger {
    if call.fetch.Unavailable? then
      RecordItem(ledger, (item.externalId, UNKNOWN_SHA256), Failed, Some(ItemUnavailable), None, now, call.rowId)
    else
      var key := (item.externalId, call.fetch.sha);
      if AlreadyIngested(ledger, key) then ledger
      else match call.intake
           case Accepted(job, _) => RecordItem(ledger, key, Ingested, None, Some(job), now, call.rowId)
           case Rejected => RecordItem(ledger, key, Failed, Some(UnsupportedAttachment), None, now, call.rowId)
           case Errored => RecordItem(ledger, key, Failed, Some(IngestionFailed), None, now, call.rowId)
  }

  /** The ledger after the items of a run, in order. */
  function ProcessAll(ledger: Ledger, items: seq<SourceItem>, calls: seq<ItemCall>, now: int): Ledger
    requires |calls| == |items|
  {
    if items == [] then ledger
    else
      var n := |items| - 1;
      Process(ProcessAll(ledger, items[..n], calls[..n], now), items[n], calls[n], now)
  }

  /** How many items of a run ended with `result`. */
  function Count(ledger: Ledger, items: seq<SourceItem>, calls: seq<ItemCall>, now: int, result: ItemResult): nat
    requires |calls| == |items|
  {
    if items == [] then 0
    else
      var n := |items| - 1;
      Count(ledger, items[..n], calls[..n], now, result)
      + (if ResultOf(ProcessAll(ledger, items[..n], calls[..n], now), items[n], calls[n]) == result then 1 else 0)
  }

  datatype Tally = Tally(ingested: nat, skipped: nat, failed: nat)

  /** The counters of the loop after some items. */
  function TallyOf(ledger: Ledger, items: seq<SourceItem>, calls: seq<ItemCall>, now: int): Tally
    requires |calls| == |items|
  {
    Tally(Count(ledger, items, calls, now, WasIngested), Count(ledger, items, calls, now, WasSkipped),
          Count(ledger, items, calls, now, WasFailed))
  }

  function Counted(t: Tally, result: ItemResult): Tally {
    match result
    case WasIngested => t.(ingested := t.ingested + 1)
    case WasSkipped => t.(skipped := t.skipped + 1)
    case WasFailed => t.(failed := t.failed + 1)
  }

  /** Every item has one result. */
  lemma {:induction false} CountsAddUp(ledger: Ledger, items: seq<SourceItem>, calls: seq<ItemCall>, now: int)
    requires |calls| == |items|
    ensures var t := TallyOf(ledger, items, calls, now); t.ingested + t.skipped + t.failed == |items|
  {
    if items != [] {
      CountsAddUp(ledger, items[..|items| - 1], calls[..|items| - 1], now);
    }
  }

  /** The items a run looks at before it completes or aborts; the aborting one counts once recorded. */
  function Reached(calls: seq<ItemCall>): nat {
    if calls == [] then 0
    else match calls[0].abort
         case NoAbort => 1 + Reached(calls[1..])
         case AfterRecord => 1
         case BeforeRecord => 0
  }

  lemma {:induction false} ReachedAt(calls: seq<ItemCall>, i: nat)
    requires i <= |calls| && forall k :: 0 <= k < i ==> calls[k].abort == NoAbort
    ensures Reached(calls) <= |calls|
    ensures i < |calls| && calls[i].abort == BeforeRecord ==> Reached(calls) == i
    ensures i < |calls| && calls[i].abort == AfterRecord ==> Reached(calls) == i + 1
    ensures i == |calls| ==> Reached(calls) == i
  {
    if calls != [] {
      if i > 0 {
        ReachedAt(calls[1..], i - 1);
      } else if calls[0].abort == NoAbort {
        ReachedAt(calls[1..], 0);
      }
    }
  }

  predicate Completes(calls: seq<ItemCall>) {
    forall k :: 0 <= k < |calls| ==> calls[k].abort == NoAbort
  }

  datatype SyncReport = SyncReport(
    listed: nat, ingested: nat, skipped: nat, failed: nat,
    droppedAtLeast: nat, truncated: bool, cursorFrom: int, cursorTo: int)

  datatype RunError = SourceUnavailable | RunAborted

  /**
   What a run leaves of a cursor and a ledger: both as they were when the source is unavailable;
   otherwise the items it reached are in the ledger, and a run that completes moves the cursor.
   */
  ghost predicate RunLeaves(
    cursor: Option<int>, ledger: Ledger, page: Option<seq<SourceItem>>, calls: seq<ItemCall>, now: int, maxItems: nat,
    cursorWriteFails: bool, cursor': Option<int>, ledger': Ledger)
  {
    if page.None? then cursor' == cursor && ledger' == ledger
    else
      var offered := ListChanged(page.value, maxItems + 1);
      var items := offered[..Min(maxItems, |offered|)];
      && |calls| == |items| && Reached(calls) <= |items|
      && ledger' == ProcessAll(ledger, items[..Reached(calls)], calls[..Reached(calls)], now)
      && cursor' == if Completes(calls) && !cursorWriteFails
                    then Some(NextCursor(if cursor.Some? then cursor.value else now - FIRST_RUN_LOOKBACK, items))
                    else cursor
  }

  /** The database a run writes: the cursor row of its source, and the ledger. */
  class SyncDatabase {
    var cursor: Option<int>
    var ledger: Ledger

    constructor ()
      ensures cursor == None && ledger == map[]
    {
      cursor, ledger := None, map[];
    }

    method ReadCursor(default: int) returns (value: int)
      ensures value == if cursor.Some? then cursor.value else default
    {
      if cursor.None? {
        return default;
      }
      return cursor.value;
    }

    /**
     `run_sync`. `page` is the server's answer, None when the source is unavailable; `calls`
     answers for the kept items; the cursor write may fail like any other statement.
     */
    method RunSync(
      page: Option<seq<SourceItem>>, calls: seq<ItemCall>, now: int, maxItems: nat, cursorWriteFails: bool)
      returns (r: Result<SyncReport, RunError>)
      requires page.Some? ==> |calls| == Min(maxItems, |ListChanged(page.value, maxItems + 1)|)
      modifies this
      ensures page.None? ==> r == Err(SourceUnavailable) && cursor == old(cursor) && ledger == old(ledger)
      ensures page.Some? ==>
                var offered := ListChanged(page.value, maxItems + 1);
                var items := offered[..Min(maxItems, |offered|)];
                var from := if old(cursor).Some? then old(cursor).value else now - FIRST_RUN_LOOKBACK;
                && Reached(calls) <= |items|
                && ledger == ProcessAll(old(ledger), items[..Reached(calls)], calls[..Reached(calls)], now)
                && (r.Ok? <==> Completes(calls) && !cursorWriteFails)
                && (r.Err? ==> r.error == RunAborted && cursor == old(cursor))
                && (r.Ok? ==> cursor == Some(NextCursor(from, items))
                              && r.value == SyncReport(
                                   |items|,
                                   Count(old(ledger), items, calls, now, WasIngested),
                                   Count(old(ledger), items, calls, now, WasSkipped),
                                   Count(old(ledger), items, calls, now, WasFailed),
                                   |offered| - |items|, |offered| > |items|, from, NextCursor(from, items)))
      ensures r.Ok? ==> r.value.listed == r.value.ingested + r.value.skipped + r.value.failed
      ensures RunLeaves(old(cursor), old(ledger), page, calls, now, maxItems, cursorWriteFails, cursor, ledger)
    {
      var from := ReadCursor(now - FIRST_RUN_LOOKBACK);
      if page.None? {
        return Err(SourceUnavailable);
      }
      var offered := ListChanged(page.value, maxItems + 1);
      var items := offered[..Min(maxItems, |offered|)];
      var droppedAtLeast := |offered| - |items|;
      var counts := RunItems(items, calls, now);
      if counts.None? || cursorWriteFails {
        return Err(RunAborted);
      }
      var (processed, ingested, skipped, failed) := counts.value;
      var advanced := NextCursor(from, processed);
      cursor := Some(advanced);
      return Ok(SyncReport(
                  |items|, ingested, skipped, failed, droppedAtLeast, droppedAtLeast > 0, from, advanced));
    }

    /** The loop over the kept items; None when an exception escapes it. */
    method RunItems(items: seq<SourceItem>, calls: seq<ItemCall>, now: int) returns (counts: Option<(seq<SourceItem>, nat, nat, nat)>)
      requires |calls| == |items|
      modifies this`ledger
      ensures counts.Some? <==> Completes(calls)
      ensures Reached(calls) <= |items|
      ensures ledger == ProcessAll(old(ledger), items[..Reached(calls)], calls[..Reached(calls)], now)
      ensures counts.Some? ==>
                && Reached(calls) == |items|
                && counts.value.0 == items
                && counts.value.1 == Count(old(ledger), items, calls, now, WasIngested)
                && counts.value.2 == Count(old(ledger), items, calls, now, WasSkipped)
                && counts.value.3 == Count(old(ledger), items, calls, now, WasFailed)
                && counts.value.1 + counts.value.2 + counts.value.3 == |items|
    {
      var processed: seq<SourceItem> := [];
      var ingested, skipped, failed := 0, 0, 0;
      for i := 0 to |items|
        invariant forall k :: 0 <= k < i ==> calls[k].abort == NoAbort
        invariant processed == items[..i]
        invariant ledger == ProcessAll(old(ledger), items[..i], calls[..i], now)
        invariant Tally(ingested, skipped, failed) == TallyOf(old(ledger), items[..i], calls[..i], now)
      {
        var item, call := items[i], calls[i];
        PrefixStep(old(ledger), items, calls, now, i);
        ReachedAt(calls, i);
        if call.abort == BeforeRecord {
          return None;
        }
        var result := ProcessOne(item, call, now);
        if call.abort == AfterRecord {
          return None;
        }
        match result {
          case WasIngested => ingested := ingested + 1;
          case WasSkipped => skipped := skipped + 1;
          case WasFailed => failed := failed + 1;
        }
        processed := processed + [item];
      }
      assert items[..|items|] == items && calls[..|items|] == calls;
      ReachedAt(calls, |items|);
      CountsAddUp(old(ledger), items, calls, now);
      return Some((processed, ingested, skipped, failed));
    }

    /** The body of the loop: fetch, look up, hand to intake, record. */
    method ProcessOne(item: SourceItem, call: ItemCall, now: int) returns (result: ItemResult)
      modifies this`ledger
      ensures ledger == Process(old(ledger), item, call, now)
      ensures result == ResultOf(old(ledger), item, call)
      ensures call.fetch.Unavailable? ==>
                result == WasFailed
                && Recorded(old(ledger), ledger, (item.externalId, UNKNOWN_SHA256), Failed, Some(ItemUnavailable), None,
                            now, call.rowId)
      ensures call.fetch.Fetched? ==>
                var key := (item.externalId, call.fetch.sha);
                var known := key in old(ledger) && old(ledger)[key].outcome == Ingested;
                && (known ==> result == WasSkipped && ledger == old(ledger))
                && (!known && call.intake.Accepted? ==>
                      result == WasIngested
                      && Recorded(old(ledger), ledger, key, Ingested, None, Some(call.intake.job), now, call.rowId))
                && (!known && call.intake.Rejected? ==>
                      result == WasFailed
                      && Recorded(old(ledger), ledger, key, Failed, Some(UnsupportedAttachment), None, now, call.rowId))
                && (!known && call.intake.Errored? ==>
                      result == WasFailed
                      && Recorded(old(ledger), ledger, key, Failed, Some(IngestionFailed), None, now, call.rowId))
    {
      if call.fetch.Unavailable? {
        Record((item.externalId, UNKNOWN_SHA256), Failed, Some(ItemUnavailable), None, now, call.rowId);
        return WasFailed;
      }
      var key := (item.externalId, call.fetch.sha);
      if AlreadyIngested(ledger, key) {
        return WasSkipped;
      }
      match call.intake {
        case Accepted(job, _) =>
          Record(key, Ingested, None, Some(job), now, call.rowId);
          return WasIngested;
        case Rejected =>
          Record(key, Failed, Some(UnsupportedAttachment), None, now, call.rowId);
          return WasFailed;
        case Errored =>
          Record(key, Failed, Some(IngestionFailed), None, now, call.rowId);
          return WasFailed;
      }
    }

    /** `record_item`. */
    method Record(key: Identity, outcome: LedgerOutcome, error: Option<ErrorCode>, job: Option<nat>, now: int, id: nat)
      modifies this`ledger
      ensures ledger == RecordItem(old(ledger), key, outcome, error, job, now, id)
      ensures Recorded(old(ledger), ledger, key, outcome, error, job, now, id)
    {
      if key in ledger {
        var row := ledger[key];
        row := row.(outcome := outcome, error := error, attempts := row.attempts + 1, lastSeen := now);
        if job.Some? {
          row := row.(job := job);
        }
        ledger := ledger[key := row];
      } else {
        ledger := ledger[key := LedgerRow(id, job, outcome, error, 1, now, now)];
      }
    }
  }

  lemma {:induction false} PrefixStep(ledger: Ledger, items: seq<SourceItem>, calls: seq<ItemCall>, now: int, i: nat)
    requires |calls| == |items| && i < |items|
    ensures var before := ProcessAll(ledger, items[..i], calls[..i], now);
            && ProcessAll(ledger, items[..i + 1], calls[..i + 1], now) == Process(before, items[i], calls[i], now)
            && TallyOf(ledger, items[..i + 1], calls[..i + 1], now)
               == Counted(TallyOf(ledger, items[..i], calls[..i], now), ResultOf(before, items[i], calls[i]))
  {
    assert items[..i + 1][..i] == items[..i] && calls[..i + 1][..i] == calls[..i];
  }
}
