/** The structural diff of two rule schemas, as a patch from one to the other. */
module RuleDiff {
  import opened Common
  import opened StringOrder

  datatype Scalar = PassingThreshold | TotalScore

  datatype Collection = HardFilters | RuleDimensions | JudgeDimensions | GradeThresholds

  /** An object of a collection: its id or grade, when it has one, and the whole object. */
  datatype Item<V> = Item(key: Option<string>, body: V)

  /** A rule schema; an absent or null field is `None`. */
  datatype Schema<V> = Schema(
    passingThreshold: Option<V>, totalScore: Option<V>,
    hardFilters: Option<seq<Item<V>>>, ruleDimensions: Option<seq<Item<V>>>,
    judgeDimensions: Option<seq<Item<V>>>, gradeThresholds: Option<seq<Item<V>>>)

  function ScalarOf<V>(s: Schema<V>, field: Scalar): Option<V> {
    match field
    case PassingThreshold => s.passingThreshold
    case TotalScore => s.totalScore
  }

  function ItemsOf<V>(s: Schema<V>, collection: Collection): seq<Item<V>> {
    var items := match collection
      case HardFilters => s.hardFilters
      case RuleDimensions => s.ruleDimensions
      case JudgeDimensions => s.judgeDimensions
      case GradeThresholds => s.gradeThresholds;
    if items.Some? then items.value else []
  }

  /** `_index`: by key, the last object of a key winning; objects without a key are left out. */
  function Index<V>(items: seq<Item<V>>): map<string, V> {
    if items == [] then map[]
    else
      var last := items[|items| - 1];
      var front := Index(items[..|items| - 1]);
      if last.key.Some? then front[last.key.value := last.body] else front
  }

  // ----- the sorted keys of a set -----

  predicate IsLeast(ids: set<string>, least: string) {
    least in ids && forall x :: x in ids ==> StrLe(least, x)
  }

  lemma {:induction false} LeastExists(ids: set<string>) returns (least: string)
    requires ids != {}
    ensures IsLeast(ids, least)
  {
    least :| least in ids;
    StrLeReflexive(least);
    var others := ids - {least};
    if others != {} {
      var other := LeastExists(others);
      StrLeTotal(least, other);
      StrLeReflexive(other);
      var first := if StrLe(other, least) then other else least;
      forall x | x in ids ensures StrLe(first, x) {
        if x in others && first == least {
          StrLeTransitive(least, other, x);
        }
      }
      least := first;
    } else {
      assert ids == {least};
    }
  }

  lemma {:induction false} HasLeast(ids: set<string>)
    requires ids != {}
    ensures exists least :: IsLeast(ids, least)
    ensures forall x, y :: IsLeast(ids, x) && IsLeast(ids, y) ==> x == y
  {
    var least := LeastExists(ids);
    forall x, y | IsLeast(ids, x) && IsLeast(ids, y) ensures x == y {
      StrLeAntisymmetric(x, y);
    }
  }

  /** `sorted(ids, key=str)`. */
  function SortedIds(ids: set<string>): seq<string> {
    if ids == {} then []
    else
      HasLeast(ids);
      var least :| least in ids && IsLeast(ids, least);
      [least] + SortedIds(ids - {least})
  }

  /** The sorted keys are in order, and are the set, each once. */
  lemma {:induction false} SortedIdsHolds(ids: set<string>)
    ensures forall x :: x in SortedIds(ids) <==> x in ids
    ensures forall i, j :: 0 <= i < j < |SortedIds(ids)| ==>
              SortedIds(ids)[i] != SortedIds(ids)[j] && StrLe(SortedIds(ids)[i], SortedIds(ids)[j])
  {
    SortedIdsAre(ids);
    SortedIdsAscend(ids);
  }

  lemma {:induction false} SortedIdsAre(ids: set<string>)
    ensures forall x :: x in SortedIds(ids) <==> x in ids
  {
    if ids != {} {
      HasLeast(ids);
      var least :| least in ids && IsLeast(ids, least);
      SortedIdsAre(ids - {least});
      assert SortedIds(ids) == [least] + SortedIds(ids - {least});
    }
  }

  lemma {:induction false} SortedIdsAscend(ids: set<string>)
    ensures forall i, j :: 0 <= i < j < |SortedIds(ids)| ==>
              SortedIds(ids)[i] != SortedIds(ids)[j] && StrLe(SortedIds(ids)[i], SortedIds(ids)[j])
  {
    if ids != {} {
      HasLeast(ids);
      var least :| least in ids && IsLeast(ids, least);
      var rest := SortedIds(ids - {least});
      SortedIdsAscend(ids - {least});
      SortedIdsAre(ids - {least});
      assert SortedIds(ids) == [least] + rest;
      forall k | 0 <= k < |rest| ensures least != rest[k] && StrLe(least, rest[k]) {
        assert rest[k] in rest;
      }
    }
  }

  lemma {:induction false} SortedAreIn(ids: set<string>)
    ensures forall i :: 0 <= i < |SortedIds(ids)| ==> SortedIds(ids)[i] in ids
  {
    SortedIdsHolds(ids);
    forall i | 0 <= i < |SortedIds(ids)| ensures SortedIds(ids)[i] in ids {
      assert SortedIds(ids)[i] in SortedIds(ids);
    }
  }

  // ----- the diff -----

  datatype Path = Field(field: Scalar) | Entry(collection: Collection, id: string)

  datatype Kind = Changed | Removed | Added

  datatype Change<V> = Change(path: Path, kind: Kind, before: Option<V>, after: Option<V>)

  function ScalarChanges<V(==)>(a: Schema<V>, b: Schema<V>, field: Scalar): seq<Change<V>> {
    var before, after := ScalarOf(a, field), ScalarOf(b, field);
    if before != after then [Change(Field(field), Changed, before, after)] else []
  }

  function RemovedChanges<V>(collection: Collection, before: map<string, V>, ids: seq<string>): seq<Change<V>>
    requires forall i :: 0 <= i < |ids| ==> ids[i] in before
  {
    seq(|ids|, i requires 0 <= i < |ids| => Change(Entry(collection, ids[i]), Removed, Some(before[ids[i]]), None))
  }

  function AddedChanges<V>(collection: Collection, after: map<string, V>, ids: seq<string>): seq<Change<V>>
    requires forall i :: 0 <= i < |ids| ==> ids[i] in after
  {
    seq(|ids|, i requires 0 <= i < |ids| => Change(Entry(collection, ids[i]), Added, None, Some(after[ids[i]])))
  }

  function CommonChanges<V(==)>(
    collection: Collection, before: map<string, V>, after: map<string, V>, ids: seq<string>): seq<Change<V>>
    requires forall i :: 0 <= i < |ids| ==> ids[i] in before && ids[i] in after
  {
    if ids == [] then []
    else
      var id := ids[|ids| - 1];
      CommonChanges(collection, before, after, ids[..|ids| - 1])
      + if before[id] != after[id] then [Change(Entry(collection, id), Changed, Some(before[id]), Some(after[id]))] else []
  }

  function CollectionChanges<V(==)>(a: Schema<V>, b: Schema<V>, collection: Collection): seq<Change<V>> {
    var before, after := Index(ItemsOf(a, collection)), Index(ItemsOf(b, collection));
    var missing := SortedIds(before.Keys - after.Keys);
    var added := SortedIds(after.Keys - before.Keys);
    var common := SortedIds(before.Keys * after.Keys);
    SortedAreIn(before.Keys - after.Keys);
    SortedAreIn(after.Keys - before.Keys);
    SortedAreIn(before.Keys * after.Keys);
    RemovedChanges(collection, before, missing) + AddedChanges(collection, after, added)
    + CommonChanges(collection, before, after, common)
  }

  /** The specification of `diff_schemas`. */
  function Diff<V(==)>(a: Schema<V>, b: Schema<V>): seq<Change<V>> {
    ScalarChanges(a, b, PassingThreshold) + ScalarChanges(a, b, TotalScore)
    + CollectionChanges(a, b, HardFilters) + CollectionChanges(a, b, RuleDimensions)
    + CollectionChanges(a, b, JudgeDimensions) + CollectionChanges(a, b, GradeThresholds)
  }

  // ----- the loops -----

  method DiffCollection<V(==)>(a: Schema<V>, b: Schema<V>, collection: Collection) returns (changes: seq<Change<V>>)
    ensures changes == CollectionChanges(a, b, collection)
  {
    var before, after := Index(ItemsOf(a, collection)), Index(ItemsOf(b, collection));
    var missing := SortedIds(before.Keys - after.Keys);
    var added := SortedIds(after.Keys - before.Keys);
    var common := SortedIds(before.Keys * after.Keys);
    SortedAreIn(before.Keys - after.Keys);
    SortedAreIn(after.Keys - before.Keys);
    SortedAreIn(before.Keys * after.Keys);
    changes := [];
    for i := 0 to |missing|
      invariant changes == RemovedChanges(collection, before, missing[..i])
    {
      changes := changes + [Change(Entry(collection, missing[i]), Removed, Some(before[missing[i]]), None)];
    }
    assert missing[..|missing|] == missing;
    ghost var removals := changes;
    for i := 0 to |added|
      invariant changes == removals + AddedChanges(collection, after, added[..i])
    {
      changes := changes + [Change(Entry(collection, added[i]), Added, None, Some(after[added[i]]))];
    }
    assert added[..|added|] == added;
    ghost var additions := changes;
    for i := 0 to |common|
      invariant changes == additions + CommonChanges(collection, before, after, common[..i])
    {
      assert common[..i + 1][..i] == common[..i];
      var id := common[i];
      if before[id] != after[id] {
        changes := changes + [Change(Entry(collection, id), Changed, Some(before[id]), Some(after[id]))];
      }
    }
    assert common[..|common|] == common;
  }

  /** `diff_schemas`: the scalars, then the collections, each in id order. */
  method DiffSchemas<V(==)>(a: Schema<V>, b: Schema<V>) returns (changes: seq<Change<V>>)
    ensures changes == Diff(a, b)
  {
    changes := ScalarChanges(a, b, PassingThreshold) + ScalarChanges(a, b, TotalScore);
    var more := DiffCollection(a, b, HardFilters);
    changes := changes + more;
    more := DiffCollection(a, b, RuleDimensions);
    changes := changes + more;
    more := DiffCollection(a, b, JudgeDimensions);
    changes := changes + more;
    more := DiffCollection(a, b, GradeThresholds);
    changes := changes + more;
  }
}
