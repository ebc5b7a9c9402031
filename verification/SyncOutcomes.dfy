/**
 What a run makes of each item, in the rows of the ledger: accepted content is ingested, under its
 job, and never handed to intake again, in no run that follows.
 */
module SyncOutcomes {
  import opened Common
  import opened SyncListing
  import opened SyncLedger
  import opened SyncRunner
  import opened SyncSafety

  /** The content was brought in: its row says so. */
  predicate IsIn(ledger: Ledger, key: Identity) {
    key in ledger && ledger[key].outcome == Ingested
  }

  /** The item was fetched with this content, and intake accepted it. */
  predicate Accepts(item: SourceItem, call: ItemCall, key: Identity) {
    item.externalId == key.0 && call.fetch == Fetched(key.1) && call.intake.Accepted?
  }

  // ----- one item -----

  /** Content is in after an item exactly when it was in before or the item brought it, under the job it was accepted as. */
  lemma {:induction false} ItemBringsIn(
    ledger: Ledger, items: seq<SourceItem>, calls: seq<ItemCall>, now: int, i: nat, key: Identity)
    requires |calls| == |items| && i < |items| && key.1 != UNKNOWN_SHA256
    ensures var before := ProcessAll(ledger, items[..i], calls[..i], now);
            var after := ProcessAll(ledger, items[..i + 1], calls[..i + 1], now);
            && (IsIn(after, key) <==> IsIn(before, key) || Accepts(items[i], calls[i], key))
            && (IsIn(before, key) ==> after[key] == before[key])
            && (!IsIn(before, key) && Accepts(items[i], calls[i], key) ==>
                  after[key].job == Some(calls[i].intake.job) && after[key].error == None)
  {
    PrefixStep(ledger, items, calls, now, i);
  }

  /**
   The result that is counted for an item says what its row holds: ingested under the job it was
   accepted as, ingested already and untouched, or failed with the reason.
   */
  lemma {:induction false} ResultIsRow(
    ledger: Ledger, items: seq<SourceItem>, calls: seq<ItemCall>, now: int, i: nat)
    requires |calls| == |items| && i < |items|
    ensures var before := ProcessAll(ledger, items[..i], calls[..i], now);
            var after := ProcessAll(ledger, items[..i + 1], calls[..i + 1], now);
            var key := (items[i].externalId, if calls[i].fetch.Fetched? then calls[i].fetch.sha else UNKNOWN_SHA256);
            var result := ResultOf(before, items[i], calls[i]);
            && key in after
            && (result == WasIngested <==> calls[i].fetch.Fetched? && !IsIn(before, key) && after[key].outcome == Ingested)
            && (result == WasIngested ==> calls[i].intake.Accepted? && after[key].job == Some(calls[i].intake.job))
            && (result == WasSkipped <==> calls[i].fetch.Fetched? && IsIn(before, key))
            && (result == WasSkipped ==> after == before)
            && (result == WasFailed <==> after[key].outcome == Failed)
            && (result == WasFailed ==>
                  after[key].error == Some(if calls[i].fetch.Unavailable? then ItemUnavailable
                                           else if calls[i].intake.Rejected? then UnsupportedAttachment
                                           else IngestionFailed))
            && (Submits(before, items[i], calls[i]) <==> calls[i].fetch.Fetched? && result != WasSkipped)
  {
    PrefixStep(ledger, items, calls, now, i);
  }

  // ----- a run -----

  /** Over the items of a run: content is in exactly when it was in before or some item of the run brought it. */
  lemma {:induction false} RunBringsIn(
    ledger: Ledger, items: seq<SourceItem>, calls: seq<ItemCall>, now: int, key: Identity)
    requires |calls| == |items| && key.1 != UNKNOWN_SHA256
    ensures IsIn(ProcessAll(ledger, items, calls, now), key)
            <==> IsIn(ledger, key) || exists i :: 0 <= i < |items| && Accepts(items[i], calls[i], key)
    ensures IsIn(ledger, key) ==> ProcessAll(ledger, items, calls, now)[key] == ledger[key]
  {
    if items != [] {
      var n := |items| - 1;
      RunBringsIn(ledger, items[..n], calls[..n], now, key);
      ItemBringsIn(ledger, items, calls, now, n, key);
      assert items[..n + 1] == items && calls[..n + 1] == calls;
    }
  }

  /** Content that was not in carries the job of the first item that brought it. */
  lemma {:induction false} FirstJobStays(
    ledger: Ledger, items: seq<SourceItem>, calls: seq<ItemCall>, now: int, key: Identity, i: nat)
    requires |calls| == |items| && key.1 != UNKNOWN_SHA256 && !IsIn(ledger, key)
    requires i < |items| && Accepts(items[i], calls[i], key)
    requires forall k :: 0 <= k < i ==> !Accepts(items[k], calls[k], key)
    ensures var after := ProcessAll(ledger, items, calls, now);
            IsIn(after, key) && after[key].job == Some(calls[i].intake.job) && after[key].error == None
  {
    var n := |items| - 1;
    assert items[..n + 1] == items && calls[..n + 1] == calls;
    ItemBringsIn(ledger, items, calls, now, n, key);
    if i < n {
      FirstJobStays(ledger, items[..n], calls[..n], now, key, i);
    } else {
      RunBringsIn(ledger, items[..n], calls[..n], now, key);
    }
  }

  /** The contents that are in. */
  function Contents(ledger: Ledger): set<Identity> {
    set key | key in ledger && ledger[key].outcome == Ingested
  }

  /** The number a run reports as ingested is the number of contents it brought in. */
  lemma {:induction false} IngestedCount(ledger: Ledger, items: seq<SourceItem>, calls: seq<ItemCall>, now: int)
    requires |calls| == |items| && FetchesAreReal(calls)
    requires forall key :: key in ledger && key.1 == UNKNOWN_SHA256 ==> ledger[key].outcome == Failed
    ensures var after := ProcessAll(ledger, items, calls, now);
            && |Contents(after)| == |Contents(ledger)| + Count(ledger, items, calls, now, WasIngested)
            && forall key :: key in after && key.1 == UNKNOWN_SHA256 ==> after[key].outcome == Failed
  {
    if items != [] {
      var n := |items| - 1;
      IngestedCount(ledger, items[..n], calls[..n], now);
      ContentsStep(ProcessAll(ledger, items[..n], calls[..n], now), items[n], calls[n], now);
    }
  }

  lemma {:induction false} ContentsStep(ledger: Ledger, item: SourceItem, call: ItemCall, now: int)
    requires call.fetch.Fetched? ==> call.fetch.sha != UNKNOWN_SHA256
    requires forall key :: key in ledger && key.1 == UNKNOWN_SHA256 ==> ledger[key].outcome == Failed
    ensures var after := Process(ledger, item, call, now);
            && |Contents(after)| == |Contents(ledger)| + (if ResultOf(ledger, item, call) == WasIngested then 1 else 0)
            && forall key :: key in after && key.1 == UNKNOWN_SHA256 ==> after[key].outcome == Failed
  {
    var after := Process(ledger, item, call, now);
    if ResultOf(ledger, item, call) == WasIngested {
      var key := (item.externalId, call.fetch.sha);
      assert Contents(after) == Contents(ledger) + {key};
    } else {
      assert Contents(after) == Contents(ledger);
    }
  }

  // ----- the runs that follow -----

  /** The item at place `k` of a run was recorded, and brought this content in or found it there. */
  ghost predicate BroughtIn(cfg: Settings, e: Event, k: nat, key: Identity) {
    && e.Run? && e.page.Some? && |e.calls| == |Kept(cfg, e.page.value)|
    && k < Reached(e.calls) <= |e.calls|
    && Accepts(Kept(cfg, e.page.value)[k], e.calls[k], key)
  }

  lemma {:induction false} BroughtInIsIn(cfg: Settings, w: World, e: Event, k: nat, key: Identity)
    requires Enabled(cfg, w, e) && BroughtIn(cfg, e, k, key)
    ensures IsIn(Apply(cfg, w, e).ledger, key)
    ensures !IsIn(w.ledger, key) && (forall j :: 0 <= j < k ==> !Accepts(Kept(cfg, e.page.value)[j], e.calls[j], key)) ==>
              Apply(cfg, w, e).ledger[key].job == Some(e.calls[k].intake.job)
  {
    var items, n := Kept(cfg, e.page.value), Reached(e.calls);
    RunBringsIn(w.ledger, items[..n], e.calls[..n], e.now, key);
    assert Accepts(items[..n][k], e.calls[..n][k], key);
    if !IsIn(w.ledger, key) && (forall j :: 0 <= j < k ==> !Accepts(items[j], e.calls[j], key)) {
      FirstJobStays(w.ledger, items[..n], e.calls[..n], e.now, key, k);
    }
  }

  /**
   Content accepted in one run is in from then on, under the same row, whatever publications,
   revisions, runs and replay passes follow.
   */
  lemma {:induction false} AcceptedStaysIn(
    cfg: Settings, worlds: seq<World>, events: seq<Event>, i: nat, k: nat, key: Identity, j: nat)
    requires IsHistory(cfg, worlds, events) && i < j <= |events|
    requires BroughtIn(cfg, events[i], k, key)
    ensures IsIn(worlds[i + 1].ledger, key) && IsIn(worlds[j].ledger, key) && worlds[j].ledger[key] == worlds[i + 1].ledger[key]
  {
    BroughtInIsIn(cfg, worlds[i], events[i], k, key);
    assert worlds[i + 1] == Apply(cfg, worlds[i], events[i]);
    IngestedForever(cfg, worlds[..j + 1], events[..j], i + 1, key);
  }

  /**
   At most once: no later run hands it to intake again. Wherever a later listing shows an item that
   fetches the same content, the item is counted as skipped and the ledger stays as it was.
   */
  lemma {:induction false} AcceptedNeverAgain(
    cfg: Settings, worlds: seq<World>, events: seq<Event>, i: nat, k: nat, key: Identity, j: nat, m: nat)
    requires IsHistory(cfg, worlds, events) && i < j < |events|
    requires BroughtIn(cfg, events[i], k, key)
    requires events[j].Run? && events[j].page.Some? && m < |events[j].calls| == |Kept(cfg, events[j].page.value)|
    requires Kept(cfg, events[j].page.value)[m].externalId == key.0 && events[j].calls[m].fetch == Fetched(key.1)
    ensures var items, calls, now := Kept(cfg, events[j].page.value), events[j].calls, events[j].now;
            var before := ProcessAll(worlds[j].ledger, items[..m], calls[..m], now);
            && !Submits(before, items[m], calls[m])
            && ResultOf(before, items[m], calls[m]) == WasSkipped
            && ProcessAll(worlds[j].ledger, items[..m + 1], calls[..m + 1], now) == before
  {
    var items, calls, now := Kept(cfg, events[j].page.value), events[j].calls, events[j].now;
    AcceptedStaysIn(cfg, worlds, events, i, k, key, j);
    RunBringsIn(worlds[j].ledger, items[..m], calls[..m], now, key);
    PrefixStep(worlds[j].ledger, items, calls, now, m);
  }
}
