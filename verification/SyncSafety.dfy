/**
 The sync over every history of publications, revisions, runs and replay passes: what it can
 lose, and that content once ingested stays.
 */
module SyncSafety {
  import opened Common
  import opened SyncListing
  import opened SyncLedger
  import opened SyncRunner
  import opened SyncReplay
  import opened SyncReplaySurvival

  datatype Settings = Settings(overlap: nat, maxItems: nat, maxAttempts: nat)

  /**
   The source, the database, and two histories: the items some run recorded an outcome for, and
   the items that were out of reach from the moment they could have been listed.
   */
  datatype World = World(
    source: set<SourceItem>, cursor: Option<int>, ledger: Ledger,
    looked: set<SourceItem>, missed: set<SourceItem>)

  const START := World({}, None, map[], {}, {})

  /** A revised item keeps its id and gets a new `updated_at`. */
  datatype Event =
    | Publish(item: SourceItem)
    | Revise(was: SourceItem, item: SourceItem)
    | Run(now: int, page: Option<seq<SourceItem>>, calls: seq<ItemCall>, cursorWriteFails: bool)
    | Replay(now: int, pending: seq<Pending>, answers: seq<ReplayCall>)

  function From(w: World, now: int): int {
    if w.cursor.Some? then w.cursor.value else now - FIRST_RUN_LOOKBACK
  }

  function Kept(cfg: Settings, page: seq<SourceItem>): seq<SourceItem> {
    var offered := ListChanged(page, cfg.maxItems + 1);
    offered[..Min(cfg.maxItems, |offered|)]
  }

  /** The listed items that got an outcome in a run. */
  function Recorded(items: seq<SourceItem>, calls: seq<ItemCall>): set<SourceItem>
    requires |calls| == |items|
  {
    ReachedAt(calls, 0);
    set item | item in items[..Reached(calls)]
  }

  /** The ids drawn by the inserts of a run are new, and no two of them are the same. */
  ghost predicate FreshRows(ledger: Ledger, calls: seq<ItemCall>) {
    && (forall i :: 0 <= i < |calls| ==> calls[i].rowId !in IdsOf(ledger))
    && (forall i, j :: 0 <= i < j < |calls| ==> calls[i].rowId != calls[j].rowId)
  }

  predicate FetchesAreReal(calls: seq<ItemCall>) {
    forall k :: 0 <= k < |calls| ==> calls[k].fetch.Fetched? ==> calls[k].fetch.sha != UNKNOWN_SHA256
  }

  ghost predicate Enabled(cfg: Settings, w: World, e: Event) {
    match e
    case Publish(item) => item !in w.source
    case Revise(was, item) => was in w.source && item !in w.source && item.externalId == was.externalId
    case Run(now, page, calls, _) =>
      page.Some? ==>
        && ServerPage(w.source, From(w, now) - cfg.overlap, cfg.maxItems + 1, page.value)
        && |calls| == |Kept(cfg, page.value)|
        && FetchesAreReal(calls) && FreshRows(w.ledger, calls)
    case Replay(_, pending, answers) =>
      IsSelection(w.ledger, pending, cfg.maxAttempts) && Answers(w.ledger, pending, answers) && DistinctIds(answers)
  }

  /** An item appears in the source: out of reach when it lies below the window. */
  function Appear(cfg: Settings, w: World, item: SourceItem): World {
    w.(source := w.source + {item},
    missed := if w.cursor.Some? && item.updatedAt < w.cursor.value - cfg.overlap then w.missed + {item} else w.missed)
  }

  /** The effect of an event; those of a run and a pass are what `RunSync` and `ReplayFailed` are proved to have. */
  ghost function Apply(cfg: Settings, w: World, e: Event): World
    requires Enabled(cfg, w, e)
  {
    match e
    case Publish(item) => Appear(cfg, w, item)
    case Revise(was, item) =>
      Appear(cfg, w.(source := w.source - {was}, looked := w.looked - {was}, missed := w.missed - {was}), item)
    case Replay(now, pending, answers) =>
      w.(ledger := After(w.ledger, pending, answers, now, Handled(answers)))
    case Run(now, page, calls, cursorWriteFails) =>
      if page.None? then w
      else
        ReachedAt(calls, 0);
        var items := Kept(cfg, page.value);
        var n := Reached(calls);
        var recorded := w.(
                        ledger := ProcessAll(w.ledger, items[..n], calls[..n], now),
                        looked := w.looked + Recorded(items, calls));
        if !Completes(calls) || cursorWriteFails then recorded
        else
          var next := NextCursor(From(w, now), items);
          recorded.(
          cursor := Some(next),
          missed := if w.cursor.Some? then w.missed
                    else set item | item in w.source && item !in recorded.looked && item.updatedAt < next - cfg.overlap)
  }

  /** The run of a history is the run of the code: whatever `RunSync` leaves is what the event leaves. */
  lemma {:induction false} RunIsTheCode(cfg: Settings, w: World, e: Event, cursor': Option<int>, ledger': Ledger)
    requires Enabled(cfg, w, e) && e.Run?
    requires RunLeaves(w.cursor, w.ledger, e.page, e.calls, e.now, cfg.maxItems, e.cursorWriteFails, cursor', ledger')
    ensures Apply(cfg, w, e).cursor == cursor' && Apply(cfg, w, e).ledger == ledger'
  {
  }

  /** And its pass is the pass of the code. */
  lemma {:induction false} PassIsTheCode(cfg: Settings, w: World, e: Event, ledger': Ledger)
    requires Enabled(cfg, w, e) && e.Replay? && |e.answers| == |e.pending|
    requires var n := Handled(e.answers); ledger' == ReplayAll(w.ledger, e.pending[..n], e.answers[..n], e.now)
    ensures Apply(cfg, w, e).ledger == ledger' && Apply(cfg, w, e).cursor == w.cursor
  {
  }

  /** Still within reach: some run recorded it, or the next run may list it. */
  predicate Covered(cfg: Settings, w: World, item: SourceItem) {
    item in w.looked || (w.cursor.Some? ==> item.updatedAt >= w.cursor.value - cfg.overlap)
  }

  // ----- the ledger only grows, and ingested rows stay -----

  lemma {:induction false} ProcessKeepsRows(ledger: Ledger, items: seq<SourceItem>, calls: seq<ItemCall>, now: int, key: Identity)
    requires |calls| == |items| && FetchesAreReal(calls)
    ensures var after := ProcessAll(ledger, items, calls, now);
            && (key in ledger ==> key in after)
            && (key.1 != UNKNOWN_SHA256 && AlreadyIngested(ledger, key) ==> after[key] == ledger[key])
  {
    if items != [] {
      ProcessKeepsRows(ledger, items[..|items| - 1], calls[..|items| - 1], now, key);
    }
  }

  /** Overlap is idempotent: content once ingested is never handed to intake again, in this run or a later one. */
  lemma {:induction false} IngestedNeverResubmitted(
    ledger: Ledger, items: seq<SourceItem>, calls: seq<ItemCall>, now: int, key: Identity, i: nat)
    requires |calls| == |items| && FetchesAreReal(calls) && i < |items|
    requires key.1 != UNKNOWN_SHA256 && AlreadyIngested(ledger, key)
    requires calls[i].fetch == Fetched(key.1) && items[i].externalId == key.0
    ensures var before := ProcessAll(ledger, items[..i], calls[..i], now);
            !Submits(before, items[i], calls[i]) && Process(before, items[i], calls[i], now) == before
  {
    ProcessKeepsRows(ledger, items[..i], calls[..i], now, key);
  }

  // ----- ids stay unique -----

  function RowIds(calls: seq<ItemCall>): set<nat> {
    set call | call in calls :: call.rowId
  }

  lemma {:induction false} ProcessDraws(ledger: Ledger, item: SourceItem, call: ItemCall, now: int)
    ensures Draws(ledger, Process(ledger, item, call, now), call.rowId)
  {
  }

  lemma {:induction false} RunKeepsIds(ledger: Ledger, items: seq<SourceItem>, calls: seq<ItemCall>, now: int)
    requires UniqueIds(ledger) && FreshRows(ledger, calls) && |calls| == |items|
    ensures var after := ProcessAll(ledger, items, calls, now);
            UniqueIds(after) && IdsOf(after) <= IdsOf(ledger) + RowIds(calls)
  {
    if items != [] {
      var n := |items| - 1;
      var middle := ProcessAll(ledger, items[..n], calls[..n], now);
      RunKeepsIds(ledger, items[..n], calls[..n], now);
      RowIdsSnoc(calls);
      ProcessDraws(middle, items[n], calls[n], now);
      DrawsKeep(middle, Process(middle, items[n], calls[n], now), calls[n].rowId);
    }
  }

  lemma {:induction false} RowIdsSnoc(calls: seq<ItemCall>)
    requires calls != [] && forall i, j :: 0 <= i < j < |calls| ==> calls[i].rowId != calls[j].rowId
    ensures var n := |calls| - 1;
            RowIds(calls) == RowIds(calls[..n]) + {calls[n].rowId} && calls[n].rowId !in RowIds(calls[..n])
  {
    var n := |calls| - 1;
    assert calls == calls[..n] + [calls[n]];
    forall call | call in calls[..n] ensures call.rowId != calls[n].rowId {
      var i :| 0 <= i < n && calls[..n][i] == call;
      assert calls[i].rowId != calls[n].rowId;
    }
  }

  lemma {:induction false} RunEventKeepsIds(cfg: Settings, w: World, e: Event)
    requires UniqueIds(w.ledger) && Enabled(cfg, w, e) && e.Run? && e.page.Some?
    ensures UniqueIds(Apply(cfg, w, e).ledger)
  {
    ReachedAt(e.calls, 0);
    var n := Reached(e.calls);
    RunKeepsIds(w.ledger, Kept(cfg, e.page.value)[..n], e.calls[..n], e.now);
  }

  lemma {:induction false} ReplayEventKeepsIds(cfg: Settings, w: World, e: Event)
    requires UniqueIds(w.ledger) && Enabled(cfg, w, e) && e.Replay?
    ensures UniqueIds(Apply(cfg, w, e).ledger)
  {
    PassKeepsIds(w.ledger, e.pending, e.answers, e.now, Handled(e.answers));
  }

  lemma {:induction false} EventKeepsIds(cfg: Settings, w: World, e: Event)
    requires UniqueIds(w.ledger) && Enabled(cfg, w, e)
    ensures UniqueIds(Apply(cfg, w, e).ledger)
  {
    if e.Run? && e.page.Some? {
      RunEventKeepsIds(cfg, w, e);
    } else if e.Replay? {
      ReplayEventKeepsIds(cfg, w, e);
    }
  }

  // ----- ingested rows stay -----

  lemma {:induction false} EventKeepsIngested(cfg: Settings, w: World, e: Event, key: Identity)
    requires UniqueIds(w.ledger) && Enabled(cfg, w, e)
    requires key.1 != UNKNOWN_SHA256 && AlreadyIngested(w.ledger, key)
    ensures key in Apply(cfg, w, e).ledger && Apply(cfg, w, e).ledger[key] == w.ledger[key]
  {
    if e.Run? && e.page.Some? {
      ReachedAt(e.calls, 0);
      var n := Reached(e.calls);
      ProcessKeepsRows(w.ledger, Kept(cfg, e.page.value)[..n], e.calls[..n], e.now, key);
    } else if e.Replay? {
      IngestedBeforeStays(w.ledger, e.pending, e.answers, e.now, cfg.maxAttempts, Handled(e.answers), key);
    }
  }

  lemma {:induction false} HistoryKeepsIds(cfg: Settings, worlds: seq<World>, events: seq<Event>)
    requires IsHistory(cfg, worlds, events)
    ensures UniqueIds(worlds[|events|].ledger)
  {
    if events != [] {
      var n := |events| - 1;
      HistoryKeepsIds(cfg, worlds[..n + 1], events[..n]);
      EventKeepsIds(cfg, worlds[n], events[n]);
      assert worlds[n + 1] == Apply(cfg, worlds[n], events[n]);
    }
  }

  /**
   In every history, however runs and replay passes follow each other, a row ingested under a real
   hash keeps its outcome, job and counts.
   */
  lemma {:induction false} IngestedForever(
    cfg: Settings, worlds: seq<World>, events: seq<Event>, i: nat, key: Identity)
    requires IsHistory(cfg, worlds, events) && i <= |events|
    requires key.1 != UNKNOWN_SHA256 && AlreadyIngested(worlds[i].ledger, key)
    ensures key in worlds[|events|].ledger && worlds[|events|].ledger[key] == worlds[i].ledger[key]
  {
    if i < |events| {
      var n := |events| - 1;
      IngestedForever(cfg, worlds[..n + 1], events[..n], i, key);
      HistoryKeepsIds(cfg, worlds[..n + 1], events[..n]);
      EventKeepsIngested(cfg, worlds[n], events[n], key);
      assert worlds[n + 1] == Apply(cfg, worlds[n], events[n]);
    }
  }

  lemma {:induction false} ProcessedHasRow(ledger: Ledger, items: seq<SourceItem>, calls: seq<ItemCall>, now: int, item: SourceItem)
    requires |calls| == |items| && FetchesAreReal(calls) && item in items
    ensures exists sha :: (item.externalId, sha) in ProcessAll(ledger, items, calls, now)
  {
    var n := |items| - 1;
    var before := ProcessAll(ledger, items[..n], calls[..n], now);
    if item == items[n] {
      var sha := if calls[n].fetch.Unavailable? then UNKNOWN_SHA256 else calls[n].fetch.sha;
      assert (item.externalId, sha) in ProcessAll(ledger, items, calls, now);
    } else {
      assert items == items[..n] + [items[n]];
      ProcessedHasRow(ledger, items[..n], calls[..n], now, item);
      var sha :| (item.externalId, sha) in before;
      assert (item.externalId, sha) in ProcessAll(ledger, items, calls, now);
    }
  }

  // ----- nothing is lost -----

  lemma {:induction false} KeptAreOldest(cfg: Settings, source: set<SourceItem>, since: int, page: seq<SourceItem>)
    requires ServerPage(source, since, cfg.maxItems + 1, page)
    ensures Oldest(source, since, cfg.maxItems, Kept(cfg, page))
  {
    ListingIsOldest(source, since, cfg.maxItems + 1, page);
    PrefixIsOldest(source, since, cfg.maxItems + 1, ListChanged(page, cfg.maxItems + 1), cfg.maxItems);
  }

  /** An eligible item that was not kept is no older than the next cursor allows. */
  lemma {:induction false} KeptOrAhead(
    source: set<SourceItem>, from: int, overlap: nat, limit: nat, items: seq<SourceItem>, item: SourceItem)
    requires Oldest(source, from - overlap, limit, items) && item in source && item.updatedAt >= from - overlap
    ensures item in items || item.updatedAt >= NextCursor(from, items) - overlap
  {
    NextCursorIsMax(from, items);
    assert item in Eligible(source, from - overlap);
  }

  /** What one completed run does to an item that it could list. */
  lemma {:induction false} CompletedRunCovers(cfg: Settings, w: World, e: Event, item: SourceItem)
    requires Enabled(cfg, w, e) && e.Run? && e.page.Some? && Completes(e.calls) && !e.cursorWriteFails
    requires item in w.source && item.updatedAt >= From(w, e.now) - cfg.overlap
    ensures Covered(cfg, Apply(cfg, w, e), item)
  {
    var items := Kept(cfg, e.page.value);
    KeptAreOldest(cfg, w.source, From(w, e.now) - cfg.overlap, e.page.value);
    KeptOrAhead(w.source, From(w, e.now), cfg.overlap, cfg.maxItems, items, item);
    ReachedAt(e.calls, |items|);
    assert items[..|items|] == items;
  }

  /** The cursor never moves back, and an item in reach before a run is in reach after it. */
  lemma {:induction false} RunKeepsCovered(cfg: Settings, w: World, e: Event, item: SourceItem)
    requires Enabled(cfg, w, e) && e.Run? && w.cursor.Some? && item in w.source
    ensures var w' := Apply(cfg, w, e);
            && w'.cursor.Some? && w.cursor.value <= w'.cursor.value
            && (Covered(cfg, w, item) <==> Covered(cfg, w', item))
  {
    if e.page.Some? {
      var since := From(w, e.now) - cfg.overlap;
      var items := Kept(cfg, e.page.value);
      NextCursorIsMax(From(w, e.now), items);
      ReachedAt(e.calls, 0);
      if Covered(cfg, w, item) && item !in w.looked && Completes(e.calls) && !e.cursorWriteFails {
        CompletedRunCovers(cfg, w, e, item);
      }
      if !Covered(cfg, w, item) {
        KeptAreEligible(cfg, w, e);
        assert item !in items;
      }
    }
  }

  lemma {:induction false} KeptAreEligible(cfg: Settings, w: World, e: Event)
    requires Enabled(cfg, w, e) && e.Run? && e.page.Some?
    ensures forall item :: item in Kept(cfg, e.page.value) ==>
                             item in w.source && item.updatedAt >= From(w, e.now) - cfg.overlap
  {
    var since := From(w, e.now) - cfg.overlap;
    ListingIsOldest(w.source, since, cfg.maxItems + 1, e.page.value);
  }

  ghost predicate IsHistory(cfg: Settings, worlds: seq<World>, events: seq<Event>) {
    && |worlds| == |events| + 1 && worlds[0] == START
    && forall i :: 0 <= i < |events| ==> Enabled(cfg, worlds[i], events[i]) && worlds[i + 1] == Apply(cfg, worlds[i], events[i])
  }

  ghost predicate Accounted(cfg: Settings, w: World) {
    && w.looked <= w.source && w.missed <= w.source
    && (w.cursor.None? ==> w.missed == {})
    && (w.cursor.Some? ==> forall item :: item in w.source ==> (Covered(cfg, w, item) <==> item !in w.missed))
    && (forall item :: item in w.looked ==> HasRow(w.ledger, item.externalId))
  }

  lemma {:induction false} RunKeepsRow(cfg: Settings, w: World, e: Event, item: SourceItem)
    requires Enabled(cfg, w, e) && e.Run? && e.page.Some?
    requires item in w.looked ==> HasRow(w.ledger, item.externalId)
    requires item in Apply(cfg, w, e).looked
    ensures HasRow(Apply(cfg, w, e).ledger, item.externalId)
  {
    var items := Kept(cfg, e.page.value);
    ReachedAt(e.calls, 0);
    var n := Reached(e.calls);
    if item in w.looked {
      var sha :| (item.externalId, sha) in w.ledger;
      ProcessKeepsRows(w.ledger, items[..n], e.calls[..n], e.now, (item.externalId, sha));
    } else {
      ProcessedHasRow(w.ledger, items[..n], e.calls[..n], e.now, item);
    }
  }

  lemma {:induction false} LookedHaveRows(cfg: Settings, w: World, e: Event)
    requires Accounted(cfg, w) && Enabled(cfg, w, e) && e.Run? && e.page.Some?
    ensures var w' := Apply(cfg, w, e);
            w'.looked <= w.source && forall item :: item in w'.looked ==> HasRow(w'.ledger, item.externalId)
  {
    KeptAreEligible(cfg, w, e);
    ReachedAt(e.calls, 0);
    forall item | item in Apply(cfg, w, e).looked ensures HasRow(Apply(cfg, w, e).ledger, item.externalId) {
      RunKeepsRow(cfg, w, e, item);
    }
  }

  lemma {:induction false} RunKeepsAccount(cfg: Settings, w: World, e: Event)
    requires Accounted(cfg, w) && Enabled(cfg, w, e) && e.Run?
    ensures Accounted(cfg, Apply(cfg, w, e))
  {
    var w' := Apply(cfg, w, e);
    if e.page.Some? {
      LookedHaveRows(cfg, w, e);
      if w.cursor.Some? {
        forall item | item in w.source ensures Covered(cfg, w', item) <==> item !in w'.missed {
          RunKeepsCovered(cfg, w, e, item);
        }
      }
    }
  }

  lemma {:induction false} AppearKeepsAccount(cfg: Settings, w: World, item: SourceItem)
    requires Accounted(cfg, w) && item !in w.source
    ensures Accounted(cfg, Appear(cfg, w, item))
  {
  }

  lemma {:induction false} WithoutKeepsAccount(cfg: Settings, w: World, item: SourceItem)
    requires Accounted(cfg, w)
    ensures Accounted(cfg, w.(source := w.source - {item}, looked := w.looked - {item}, missed := w.missed - {item}))
  {
  }

  lemma {:induction false} ReplayKeepsAccount(cfg: Settings, w: World, e: Event)
    requires Accounted(cfg, w) && UniqueIds(w.ledger) && Enabled(cfg, w, e)
    requires e.Replay? && LaterArePlaceholders(e.pending)
    ensures Accounted(cfg, Apply(cfg, w, e))
  {
    forall item | item in w.looked ensures HasRow(Apply(cfg, w, e).ledger, item.externalId) {
      PassKeepsRow(w.ledger, e.pending, e.answers, e.now, cfg.maxAttempts, Handled(e.answers), item.externalId);
    }
  }

  lemma {:induction false} EventKeepsAccount(cfg: Settings, w: World, e: Event)
    requires Accounted(cfg, w) && UniqueIds(w.ledger) && Enabled(cfg, w, e)
    requires e.Replay? ==> LaterArePlaceholders(e.pending)
    ensures Accounted(cfg, Apply(cfg, w, e))
  {
    match e
    case Publish(item) => AppearKeepsAccount(cfg, w, item);
    case Revise(was, item) =>
      WithoutKeepsAccount(cfg, w, was);
      AppearKeepsAccount(
        cfg, w.(source := w.source - {was}, looked := w.looked - {was}, missed := w.missed - {was}), item);
    case Run(_, _, _, _) => RunKeepsAccount(cfg, w, e);
    case Replay(_, _, _) => ReplayKeepsAccount(cfg, w, e);
  }

  /** In every replay pass, of the selected rows of one external id only the first has a real hash. */
  ghost predicate RepeatsArePlaceholders(events: seq<Event>) {
    forall i :: 0 <= i < |events| && events[i].Replay? ==> LaterArePlaceholders(events[i].pending)
  }

  /**
   Sync loses nothing but what was never in reach. In every history, once a run has completed,
   each source item either has a ledger row or can still be listed, exactly when it is not one
   of those that appeared below the window, or below the window the first completed run left behind.
   Replay passes may come between, as long as none of them can take an item's rows away.
   */
  lemma {:induction false} NothingElseIsLost(cfg: Settings, worlds: seq<World>, events: seq<Event>)
    requires IsHistory(cfg, worlds, events) && RepeatsArePlaceholders(events)
    ensures Accounted(cfg, worlds[|events|])
  {
    if events != [] {
      var n := |events| - 1;
      NothingElseIsLost(cfg, worlds[..n + 1], events[..n]);
      HistoryKeepsIds(cfg, worlds[..n + 1], events[..n]);
      EventKeepsAccount(cfg, worlds[n], events[n]);
      assert worlds[n + 1] == Apply(cfg, worlds[n], events[n]);
    }
  }

  /** The first completed run leaves behind only what lies below its own window. */
  lemma {:induction false} FirstCompletedRun(cfg: Settings, w: World, e: Event, item: SourceItem)
    requires Accounted(cfg, w) && Enabled(cfg, w, e) && w.cursor.None?
    requires e.Run? && e.page.Some? && Completes(e.calls) && !e.cursorWriteFails
    ensures item in Apply(cfg, w, e).missed
            <==> item in w.source && item !in w.looked && item.updatedAt < e.now - 86_400 - cfg.overlap
  {
    var since := From(w, e.now) - cfg.overlap;
    var w' := Apply(cfg, w, e);
    NextCursorIsMax(From(w, e.now), Kept(cfg, e.page.value));
    KeptAreEligible(cfg, w, e);
    ReachedAt(e.calls, |e.calls|);
    if item in w.source && item.updatedAt >= since {
      CompletedRunCovers(cfg, w, e, item);
    }
  }

  /**
   An aborted first run is not harmless: the default cursor moves with the clock, so an item in
   the window of the first attempt can be below that of the first completed run, for good.
   */
  lemma {:induction false} AbortedFirstRunCanLose(cfg: Settings) returns (worlds: seq<World>, events: seq<Event>, item: SourceItem)
    ensures IsHistory(cfg, worlds, events) && |events| == 3
    ensures events[1].Run? && item in worlds[1].source && item.updatedAt >= From(worlds[1], events[1].now) - cfg.overlap
    ensures item in worlds[3].missed && !Covered(cfg, worlds[3], item)
  {
    item := SourceItem(0, -(cfg.overlap as int));
    var w1 := START.(source := {item});
    var w3 := w1.(cursor := Some(1), missed := {item});
    var offline := Run(FIRST_RUN_LOOKBACK, None, [], false);
    var completed := Run(FIRST_RUN_LOOKBACK + 1, Some([]), [], false);
    events := [Publish(item), offline, completed];
    worlds := [START, w1, w1, w3];
    assert Apply(cfg, START, Publish(item)) == w1;
    assert Apply(cfg, w1, offline) == w1;
    assert Eligible(w1.source, From(w1, FIRST_RUN_LOOKBACK + 1) - cfg.overlap) == {};
    assert Kept(cfg, []) == [];
    assert Enabled(cfg, w1, completed);
    ReachedAt([], 0);
    assert Apply(cfg, w1, completed) == w3;
  }
}
