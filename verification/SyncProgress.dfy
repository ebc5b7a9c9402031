/** When the sync cursor moves, and that a source whose windows are not too dense drains. */
module SyncProgress {
  import opened Common
  import Sorting
  import opened SyncListing
  import opened SyncLedger
  import opened SyncRunner
  import opened SyncSafety

  /** The items of one closed overlap window that ends at `end`. */
  function Window(cfg: Settings, source: set<SourceItem>, end: int): set<SourceItem> {
    set item | item in source && end - cfg.overlap <= item.updatedAt <= end
  }

  function Beyond(source: set<SourceItem>, cursor: int): set<SourceItem> {
    set item | item in source && item.updatedAt > cursor
  }

  ghost predicate CompletedRun(cfg: Settings, w: World, e: Event) {
    Enabled(cfg, w, e) && e.Run? && e.page.Some? && Completes(e.calls) && !e.cursorWriteFails
  }

  lemma {:induction false} DistinctCount(items: seq<SourceItem>, members: set<SourceItem>)
    requires Sorting.Distinct(items) && members == set item | item in items
    ensures |members| == |items|
  {
    if items != [] {
      var front, last := items[..|items| - 1], items[|items| - 1];
      assert items == front + [last];
      assert last !in front;
      DistinctCount(front, members - {last});
    }
  }

  lemma {:induction false} SubsetCount(a: set<SourceItem>, b: set<SourceItem>)
    requires a <= b
    ensures |a| <= |b| && (|a| == |b| ==> a == b)
  {
    if a != b {
      assert |b - a| == |b| - |a|;
      assert b - a != {};
    }
  }

  lemma {:induction false} KeptIsOldest(cfg: Settings, w: World, e: Event)
    requires Enabled(cfg, w, e) && e.Run? && e.page.Some?
    ensures Oldest(w.source, From(w, e.now) - cfg.overlap, cfg.maxItems, Kept(cfg, e.page.value))
  {
    var since := From(w, e.now) - cfg.overlap;
    ListingIsOldest(w.source, since, cfg.maxItems + 1, e.page.value);
    PrefixIsOldest(w.source, since, cfg.maxItems + 1, ListChanged(e.page.value, cfg.maxItems + 1), cfg.maxItems);
  }

  /** The kept items stay inside the window exactly when the window fills the cap. */
  lemma {:induction false} KeptReachesBeyond(
    cfg: Settings, source: set<SourceItem>, cursor: int, items: seq<SourceItem>, beyond: SourceItem)
    requires Oldest(source, cursor - cfg.overlap, cfg.maxItems, items)
    requires beyond in Beyond(source, cursor)
    ensures (exists item :: item in items && item.updatedAt > cursor) <==> |Window(cfg, source, cursor)| < cfg.maxItems
  {
    var window := Window(cfg, source, cursor);
    var members := set item | item in items;
    DistinctCount(items, members);
    assert beyond in Eligible(source, cursor - cfg.overlap);
    if exists item :: item in items && item.updatedAt > cursor {
      var far :| far in items && far.updatedAt > cursor;
      forall item | item in window ensures item in members - {far} {
        assert item in Eligible(source, cursor - cfg.overlap);
      }
      SubsetCount(window, members - {far});
    } else {
      assert members <= window;
      SubsetCount(members, window);
      assert beyond !in items;
      assert |items| == cfg.maxItems;
    }
  }

  /**
   Given an item beyond the cursor, a completed run strictly advances it exactly when fewer
   than `maxItems` items lie in the overlap window that ends at the cursor.
   */
  lemma {:induction false} AdvancesIff(cfg: Settings, w: World, e: Event)
    requires CompletedRun(cfg, w, e) && Beyond(w.source, From(w, e.now)) != {}
    ensures Apply(cfg, w, e).cursor.value > From(w, e.now)
            <==> |Window(cfg, w.source, From(w, e.now))| < cfg.maxItems
  {
    var cursor, items := From(w, e.now), Kept(cfg, e.page.value);
    KeptIsOldest(cfg, w, e);
    NextCursorIsMax(cursor, items);
    var beyond :| beyond in Beyond(w.source, cursor);
    KeptReachesBeyond(cfg, w.source, cursor, items, beyond);
  }

  /** Every closed window of overlap length holds fewer items than the cap. */
  ghost predicate Sparse(cfg: Settings, source: set<SourceItem>) {
    forall end: int :: |Window(cfg, source, end)| < cfg.maxItems
  }

  /** Completed runs on a source that does not change. */
  ghost predicate QuietRuns(cfg: Settings, worlds: seq<World>, events: seq<Event>) {
    && |worlds| == |events| + 1 && worlds[0].cursor.Some?
    && forall i :: 0 <= i < |events| ==> CompletedRun(cfg, worlds[i], events[i]) && worlds[i + 1] == Apply(cfg, worlds[i], events[i])
  }

  lemma {:induction false} QuietStep(cfg: Settings, w: World, e: Event)
    requires Sparse(cfg, w.source) && CompletedRun(cfg, w, e) && w.cursor.Some?
    ensures var w' := Apply(cfg, w, e);
            && w'.source == w.source && w'.cursor.Some? && w.cursor.value <= w'.cursor.value
            && (var before, after := Beyond(w.source, w.cursor.value), Beyond(w'.source, w'.cursor.value);
                |after| <= |before| && (before != {} ==> |after| < |before|))
  {
    var w', items := Apply(cfg, w, e), Kept(cfg, e.page.value);
    NextCursorIsMax(w.cursor.value, items);
    var before, after := Beyond(w.source, w.cursor.value), Beyond(w'.source, w'.cursor.value);
    assert after <= before;
    SubsetCount(after, before);
    if before != {} {
      AdvancesIff(cfg, w, e);
      var top :| top in items && top.updatedAt == w'.cursor.value;
      KeptAreEligible(cfg, w, e);
      assert top in before && top !in after;
    }
  }

  /** A quiet, sparse source drains: after as many completed runs as items beyond the cursor, none is left. */
  lemma {:induction false} QuietSourceDrains(cfg: Settings, worlds: seq<World>, events: seq<Event>)
    requires QuietRuns(cfg, worlds, events) && Sparse(cfg, worlds[0].source)
    ensures var last := worlds[|events|];
            && last.source == worlds[0].source && last.cursor.Some? && worlds[0].cursor.value <= last.cursor.value
            && |Beyond(last.source, last.cursor.value)|
               <= Max(0, |Beyond(worlds[0].source, worlds[0].cursor.value)| - |events|)
  {
    if events != [] {
      var n := |events| - 1;
      QuietSourceDrains(cfg, worlds[..n + 1], events[..n]);
      QuietStep(cfg, worlds[n], events[n]);
      assert worlds[n + 1] == Apply(cfg, worlds[n], events[n]);
    }
  }

  /** Once nothing lies beyond the cursor, one more completed run has recorded every item still in reach. */
  lemma {:induction false} DrainedRunRecordsAll(cfg: Settings, w: World, e: Event, item: SourceItem)
    requires Sparse(cfg, w.source) && CompletedRun(cfg, w, e) && w.cursor.Some?
    requires Beyond(w.source, w.cursor.value) == {}
    requires item in w.source && Covered(cfg, w, item)
    ensures item in Apply(cfg, w, e).looked
  {
    var cursor, items := w.cursor.value, Kept(cfg, e.page.value);
    KeptIsOldest(cfg, w, e);
    if item !in w.looked {
      var members := set i | i in items;
      DistinctCount(items, members);
      assert members <= Window(cfg, w.source, cursor) by {
        forall i | i in members ensures i in Window(cfg, w.source, cursor) {
          assert i !in Beyond(w.source, cursor);
        }
      }
      SubsetCount(members, Window(cfg, w.source, cursor));
      assert item in Eligible(w.source, cursor - cfg.overlap);
      ReachedAt(e.calls, |e.calls|);
      assert items[..|items|] == items;
    }
  }

  /** A window that fills the cap stops the cursor for good while the source stays as it is. */
  lemma {:induction false} DenseWindowStarves(cfg: Settings, worlds: seq<World>, events: seq<Event>)
    requires QuietRuns(cfg, worlds, events)
    requires Beyond(worlds[0].source, worlds[0].cursor.value) != {}
    requires |Window(cfg, worlds[0].source, worlds[0].cursor.value)| >= cfg.maxItems
    ensures worlds[|events|].cursor == worlds[0].cursor && worlds[|events|].source == worlds[0].source
  {
    if events != [] {
      var n := |events| - 1;
      DenseWindowStarves(cfg, worlds[..n + 1], events[..n]);
      AdvancesIff(cfg, worlds[n], events[n]);
      NextCursorIsMax(worlds[n].cursor.value, Kept(cfg, events[n].page.value));
      assert worlds[n + 1] == Apply(cfg, worlds[n], events[n]);
    }
  }
}
