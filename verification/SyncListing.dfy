/** What one listing of changed items offers a run: the oldest eligible ones, oldest first. */
module SyncListing {
  import opened Common
  import opened Sorting

  type ExternalId = nat

  /** One changed item as the source describes it. Instants are whole seconds. */
  datatype SourceItem = SourceItem(externalId: ExternalId, updatedAt: int)

  predicate UpdatedLe(a: SourceItem, b: SourceItem) {
    a.updatedAt <= b.updatedAt
  }

  /** The stable ascending sort on `updated_at`. */
  function SortByUpdated(page: seq<SourceItem>): seq<SourceItem> {
    Sort(page, UpdatedLe)
  }

  /** The end of `list_changed`: sort the page, then cap it. */
  function ListChanged(page: seq<SourceItem>, limit: nat): seq<SourceItem> {
    var sorted := SortByUpdated(page);
    sorted[..Min(limit, |sorted|)]
  }

  ghost predicate Ascending(items: seq<SourceItem>) {
    forall i, j :: 0 <= i <= j < |items| ==> items[i].updatedAt <= items[j].updatedAt
  }

  // ----- the listing under the assumption on the server -----

  function Eligible(source: set<SourceItem>, since: int): set<SourceItem> {
    set item | item in source && item.updatedAt >= since
  }

  /** The server answers with every eligible row, or with `limit` of the oldest ones. */
  ghost predicate ServerPage(source: set<SourceItem>, since: int, limit: nat, page: seq<SourceItem>) {
    && Distinct(page)
    && (forall item :: item in page ==> item in Eligible(source, since))
    && ((forall item :: item in Eligible(source, since) ==> item in page)
        || (|page| == limit
            && forall item, kept :: item in Eligible(source, since) && item !in page && kept in page ==>
                                      kept.updatedAt <= item.updatedAt))
  }

  /** The oldest eligible items, at most `limit` of them, and fewer only when there are no more. */
  ghost predicate Oldest(source: set<SourceItem>, since: int, limit: nat, items: seq<SourceItem>) {
    && Ascending(items) && Distinct(items) && |items| <= limit
    && (forall item :: item in items ==> item in Eligible(source, since))
    && (forall item, kept :: item in Eligible(source, since) && item !in items && kept in items ==>
                               kept.updatedAt <= item.updatedAt)
    && (|items| < limit ==> forall item :: item in Eligible(source, since) ==> item in items)
  }

  lemma {:induction false} SortedPage(page: seq<SourceItem>)
    requires Distinct(page)
    ensures var sorted := SortByUpdated(page);
            Ascending(sorted) && Distinct(sorted) && |sorted| == |page| && forall x :: x in page <==> x in sorted
  {
    SortSorts(page, UpdatedLe);
    DistinctByMultiset(page, SortByUpdated(page));
    var sorted := SortByUpdated(page);
    forall i, j | 0 <= i <= j < |sorted| ensures sorted[i].updatedAt <= sorted[j].updatedAt {
      if i < j {
        assert UpdatedLe(sorted[i], sorted[j]);
      }
    }
  }

  /** Items of one instant stay in the order the server gave them. */
  lemma {:induction false} TiesKeepOrder(page: seq<SourceItem>, instant: int)
    ensures var tied := (item: SourceItem) => item.updatedAt == instant;
            Filter(SortByUpdated(page), tied) == Filter(page, tied)
  {
    SortIsStable(page, UpdatedLe, (item: SourceItem) => item.updatedAt == instant);
  }

  /** Sorting before the cap bites makes the kept window the oldest one. */
  lemma {:induction false} ListingIsOldest(source: set<SourceItem>, since: int, limit: nat, page: seq<SourceItem>)
    requires ServerPage(source, since, limit, page)
    ensures Oldest(source, since, limit, ListChanged(page, limit))
  {
    var sorted := SortByUpdated(page);
    SortedPage(page);
    var kept := ListChanged(page, limit);
    forall item, k | item in Eligible(source, since) && item !in kept && k in kept
      ensures k.updatedAt <= item.updatedAt
    {
      if item in sorted {
        var i :| 0 <= i < |sorted| && sorted[i] == item;
        assert i >= |kept|;
      }
    }
  }

  /** The run keeps the first `cap` of an offer of `cap + 1`. */
  lemma {:induction false} PrefixIsOldest(source: set<SourceItem>, since: int, limit: nat, items: seq<SourceItem>, cap: nat)
    requires Oldest(source, since, limit, items) && cap <= limit
    ensures Oldest(source, since, cap, items[..Min(cap, |items|)])
  {
    var kept := items[..Min(cap, |items|)];
    forall item, k | item in Eligible(source, since) && item !in kept && k in kept
      ensures k.updatedAt <= item.updatedAt
    {
      if item in items {
        var i :| 0 <= i < |items| && items[i] == item;
        assert i >= |kept|;
      }
    }
  }
}
