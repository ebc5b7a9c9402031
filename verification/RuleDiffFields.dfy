/**
 The diff of two rule schemas in the fields of their records: which field a change is filed under,
 which of several objects of one id counts, and what a change carries.
 */
module RuleDiffFields {
  import opened Common
  import opened StringOrder
  import opened RuleDiff
  import opened RuleDiffMeaning

  /** What a collection holds under an id: the last object of that id, or nothing; an absent collection is empty. */
  ghost predicate HoldsAt<V(!new)>(collection: Option<seq<Item<V>>>, id: string, held: Option<V>) {
    var items := if collection.Some? then collection.value else [];
    if held.None? then forall i :: 0 <= i < |items| ==> items[i].key != Some(id)
    else exists i :: 0 <= i < |items| && items[i] == Item(Some(id), held.value)
                     && forall j :: i < j < |items| ==> items[j].key != Some(id)
  }

  // ----- the index -----

  /** An id is in the index exactly when some object has it, with the body of the last that has. */
  lemma {:induction false} IndexIsLast<V(!new)>(items: seq<Item<V>>, id: string)
    ensures id in Index(items) <==> exists i :: 0 <= i < |items| && items[i].key == Some(id)
    ensures HoldsAt(Some(items), id, if id in Index(items) then Some(Index(items)[id]) else None)
  {
    if items != [] {
      var n := |items| - 1;
      IndexIsLast(items[..n], id);
      if items[n].key == Some(id) {
        assert items[n] == Item(Some(id), items[n].body);
      } else if id in Index(items[..n]) {
        var i :| 0 <= i < n && items[..n][i] == Item(Some(id), Index(items[..n])[id])
                 && forall j :: i < j < n ==> items[..n][j].key != Some(id);
        assert items[i] == items[..n][i];
        assert forall j :: i < j < n ==> items[j] == items[..n][j];
      } else {
        assert forall j :: 0 <= j < n ==> items[j] == items[..n][j];
      }
    }
  }

  /** A collection holds one thing under an id. */
  lemma {:induction false} HoldsOne<V(!new)>(collection: Option<seq<Item<V>>>, id: string, x: Option<V>, y: Option<V>)
    requires HoldsAt(collection, id, x) && HoldsAt(collection, id, y)
    ensures x == y
  {
    var items := if collection.Some? then collection.value else [];
    if x.Some? && y.Some? {
      var i :| 0 <= i < |items| && items[i] == Item(Some(id), x.value)
               && forall j :: i < j < |items| ==> items[j].key != Some(id);
      var k :| 0 <= k < |items| && items[k] == Item(Some(id), y.value)
               && forall j :: k < j < |items| ==> items[j].key != Some(id);
      assert i == k;
    }
  }

  // ----- a change at a path -----

  /** The changes of a diff at one path: none when nothing changed there, otherwise this one. */
  ghost predicate ChangedFrom<V(!new)>(changes: seq<Change<V>>, p: Path, before: Option<V>, after: Option<V>) {
    && (before != after <==> exists i :: 0 <= i < |changes| && changes[i].path == p)
    && (forall i :: 0 <= i < |changes| && changes[i].path == p ==>
                      && changes[i].before == before && changes[i].after == after
                      && (p.Entry? ==> (changes[i].kind == Removed <==> after == None)
                                       && (changes[i].kind == Added <==> before == None))
                      && (p.Field? ==> changes[i].kind == Changed))
  }

  lemma {:induction false} ChangedAt<V(!new)>(a: Schema<V>, b: Schema<V>, p: Path)
    ensures ChangedFrom(Diff(a, b), p, At(a, p), At(b, p))
  {
    var changes := Diff(a, b);
    DiffDescribes(a, b);
    EveryPath(p);
    if At(a, p) != At(b, p) {
      assert HasPath(changes, p);
    }
    forall i | 0 <= i < |changes| && changes[i].path == p ensures changes[i] == ChangeAt(a, b, p) && At(a, p) != At(b, p) {
    }
  }

  lemma {:induction false} EntryAt<V(!new)>(s: Schema<V>, collection: Collection, field: Option<seq<Item<V>>>, id: string, held: Option<V>)
    requires ItemsOf(s, collection) == (if field.Some? then field.value else [])
    requires HoldsAt(field, id, held)
    ensures At(s, Entry(collection, id)) == held
  {
    var items := ItemsOf(s, collection);
    IndexIsLast(items, id);
    HoldsOne(Some(items), id, held, if id in Index(items) then Some(Index(items)[id]) else None);
  }

  // ----- the six fields -----

  lemma {:induction false} ScalarsChange<V(!new)>(a: Schema<V>, b: Schema<V>)
    ensures ChangedFrom(Diff(a, b), Field(PassingThreshold), a.passingThreshold, b.passingThreshold)
    ensures ChangedFrom(Diff(a, b), Field(TotalScore), a.totalScore, b.totalScore)
  {
    ChangedAt(a, b, Field(PassingThreshold));
    ChangedAt(a, b, Field(TotalScore));
  }

  lemma {:induction false} HardFiltersChange<V(!new)>(a: Schema<V>, b: Schema<V>, id: string, before: Option<V>, after: Option<V>)
    requires HoldsAt(a.hardFilters, id, before) && HoldsAt(b.hardFilters, id, after)
    ensures ChangedFrom(Diff(a, b), Entry(HardFilters, id), before, after)
  {
    EntryAt(a, HardFilters, a.hardFilters, id, before);
    EntryAt(b, HardFilters, b.hardFilters, id, after);
    ChangedAt(a, b, Entry(HardFilters, id));
  }

  lemma {:induction false} RuleDimensionsChange<V(!new)>(a: Schema<V>, b: Schema<V>, id: string, before: Option<V>, after: Option<V>)
    requires HoldsAt(a.ruleDimensions, id, before) && HoldsAt(b.ruleDimensions, id, after)
    ensures ChangedFrom(Diff(a, b), Entry(RuleDimensions, id), before, after)
  {
    EntryAt(a, RuleDimensions, a.ruleDimensions, id, before);
    EntryAt(b, RuleDimensions, b.ruleDimensions, id, after);
    ChangedAt(a, b, Entry(RuleDimensions, id));
  }

  lemma {:induction false} JudgeDimensionsChange<V(!new)>(a: Schema<V>, b: Schema<V>, id: string, before: Option<V>, after: Option<V>)
    requires HoldsAt(a.judgeDimensions, id, before) && HoldsAt(b.judgeDimensions, id, after)
    ensures ChangedFrom(Diff(a, b), Entry(JudgeDimensions, id), before, after)
  {
    EntryAt(a, JudgeDimensions, a.judgeDimensions, id, before);
    EntryAt(b, JudgeDimensions, b.judgeDimensions, id, after);
    ChangedAt(a, b, Entry(JudgeDimensions, id));
  }

  lemma {:induction false} GradeThresholdsChange<V(!new)>(a: Schema<V>, b: Schema<V>, id: string, before: Option<V>, after: Option<V>)
    requires HoldsAt(a.gradeThresholds, id, before) && HoldsAt(b.gradeThresholds, id, after)
    ensures ChangedFrom(Diff(a, b), Entry(GradeThresholds, id), before, after)
  {
    EntryAt(a, GradeThresholds, a.gradeThresholds, id, before);
    EntryAt(b, GradeThresholds, b.gradeThresholds, id, after);
    ChangedAt(a, b, Entry(GradeThresholds, id));
  }

  /** Every collection holds something, or nothing, under every id. */
  lemma {:induction false} HoldsSome<V(!new)>(collection: Option<seq<Item<V>>>, id: string) returns (held: Option<V>)
    ensures HoldsAt(collection, id, held)
  {
    var items := if collection.Some? then collection.value else [];
    IndexIsLast(items, id);
    held := if id in Index(items) then Some(Index(items)[id]) else None;
  }

  /** How a path is written, field by field. */
  lemma {:induction false} PathIsWritten(id: string)
    ensures PathText(Field(PassingThreshold)) == "passing_threshold"
    ensures PathText(Field(TotalScore)) == "total_score"
    ensures PathText(Entry(HardFilters, id)) == "hard_filters" + "[" + id + "]"
    ensures PathText(Entry(RuleDimensions, id)) == "rule_dimensions" + "[" + id + "]"
    ensures PathText(Entry(JudgeDimensions, id)) == "judge_dimensions" + "[" + id + "]"
    ensures PathText(Entry(GradeThresholds, id)) == "grade_thresholds" + "[" + id + "]"
  {
  }

  // ----- the order of a diff -----

  /** Scalars come first, then the collections, in the order the source lists them. */
  function Place(p: Path): nat {
    match p
    case Field(PassingThreshold) => 0
    case Field(TotalScore) => 1
    case Entry(HardFilters, _) => 2
    case Entry(RuleDimensions, _) => 3
    case Entry(JudgeDimensions, _) => 4
    case Entry(GradeThresholds, _) => 5
  }

  /** What is removed comes first, then what is added, then what is changed. */
  function Turn(kind: Kind): nat {
    match kind
    case Removed => 0
    case Added => 1
    case Changed => 2
  }

  /** `c` may stand before `d`: in an earlier field, or of an earlier kind, or under a smaller id. */
  predicate Precedes<V>(c: Change<V>, d: Change<V>) {
    || Place(c.path) < Place(d.path)
    || (Place(c.path) == Place(d.path)
        && (Turn(c.kind) < Turn(d.kind)
            || (c.kind == d.kind && c.path.Entry? && d.path.Entry? && StrLe(c.path.id, d.path.id))))
  }

  ghost predicate Ordered<V>(changes: seq<Change<V>>) {
    forall i, j :: 0 <= i < j < |changes| ==> Precedes(changes[i], changes[j])
  }

  /** All changes lie in fields from `low` to `high`. */
  ghost predicate Placed<V>(changes: seq<Change<V>>, low: nat, high: nat) {
    forall i :: 0 <= i < |changes| ==> low <= Place(changes[i].path) <= high
  }

  lemma {:induction false} OrderedConcat<V>(xs: seq<Change<V>>, ys: seq<Change<V>>, low: nat, mid: nat, high: nat)
    requires Ordered(xs) && Ordered(ys) && Placed(xs, low, mid) && Placed(ys, mid + 1, high) && low <= mid < high
    ensures Ordered(xs + ys) && Placed(xs + ys, low, high)
  {
  }

  /** All changes are of one collection, and of kinds from `low` to `high`. */
  ghost predicate Turned<V>(changes: seq<Change<V>>, collection: Collection, low: nat, high: nat) {
    forall i :: 0 <= i < |changes| ==>
      changes[i].path.Entry? && changes[i].path.collection == collection && low <= Turn(changes[i].kind) <= high
  }

  lemma {:induction false} TurnsConcat<V>(
    xs: seq<Change<V>>, ys: seq<Change<V>>, collection: Collection, low: nat, mid: nat, high: nat)
    requires Ordered(xs) && Ordered(ys) && Turned(xs, collection, low, mid) && Turned(ys, collection, mid + 1, high)
    requires low <= mid < high
    ensures Ordered(xs + ys) && Turned(xs + ys, collection, low, high)
  {
  }

  ghost predicate Ascends(ids: seq<string>) {
    forall i, j :: 0 <= i < j < |ids| ==> StrLe(ids[i], ids[j])
  }

  lemma {:induction false} RemovedOrdered<V>(collection: Collection, before: map<string, V>, ids: seq<string>)
    requires Ascends(ids) && forall i :: 0 <= i < |ids| ==> ids[i] in before
    ensures Ordered(RemovedChanges(collection, before, ids)) && Turned(RemovedChanges(collection, before, ids), collection, 0, 0)
  {
  }

  lemma {:induction false} AddedOrdered<V>(collection: Collection, after: map<string, V>, ids: seq<string>)
    requires Ascends(ids) && forall i :: 0 <= i < |ids| ==> ids[i] in after
    ensures Ordered(AddedChanges(collection, after, ids)) && Turned(AddedChanges(collection, after, ids), collection, 1, 1)
  {
  }

  lemma {:induction false} CommonOrdered<V>(
    collection: Collection, before: map<string, V>, after: map<string, V>, ids: seq<string>)
    requires Ascends(ids) && forall i :: 0 <= i < |ids| ==> ids[i] in before && ids[i] in after
    ensures var changes := CommonChanges(collection, before, after, ids);
            && Ordered(changes) && Turned(changes, collection, 2, 2)
            && forall k :: 0 <= k < |changes| ==> changes[k].path.id in ids
  {
    if ids != [] {
      var n := |ids| - 1;
      CommonOrdered(collection, before, after, ids[..n]);
      forall k | k in ids[..n] ensures StrLe(k, ids[n]) && k in ids {
        var i :| 0 <= i < n && ids[..n][i] == k;
        assert StrLe(ids[i], ids[n]);
      }
    }
  }

  lemma {:induction false} SortedAscends(ids: set<string>)
    ensures Ascends(SortedIds(ids))
    ensures forall i :: 0 <= i < |SortedIds(ids)| ==> SortedIds(ids)[i] in ids
  {
    SortedIdsHolds(ids);
    SortedAreIn(ids);
  }

  lemma {:induction false} CollectionOrdered<V>(a: Schema<V>, b: Schema<V>, collection: Collection)
    ensures Ordered(CollectionChanges(a, b, collection)) && Turned(CollectionChanges(a, b, collection), collection, 0, 2)
  {
    var before, after := Index(ItemsOf(a, collection)), Index(ItemsOf(b, collection));
    var missing := SortedIds(before.Keys - after.Keys);
    var added := SortedIds(after.Keys - before.Keys);
    var common := SortedIds(before.Keys * after.Keys);
    SortedAscends(before.Keys - after.Keys);
    SortedAscends(after.Keys - before.Keys);
    SortedAscends(before.Keys * after.Keys);
    RemovedOrdered(collection, before, missing);
    AddedOrdered(collection, after, added);
    CommonOrdered(collection, before, after, common);
    var first, second, third := RemovedChanges(collection, before, missing), AddedChanges(collection, after, added),
        CommonChanges(collection, before, after, common);
    TurnsConcat(first, second, collection, 0, 0, 1);
    TurnsConcat(first + second, third, collection, 0, 1, 2);
  }

  lemma {:induction false} ScalarOrdered<V>(a: Schema<V>, b: Schema<V>, field: Scalar)
    ensures Ordered(ScalarChanges(a, b, field)) && Placed(ScalarChanges(a, b, field), Place(Field(field)), Place(Field(field)))
  {
  }

  lemma {:induction false} CollectionPlaced<V>(a: Schema<V>, b: Schema<V>, collection: Collection, place: nat)
    requires place == Place(Entry(collection, ""))
    ensures Ordered(CollectionChanges(a, b, collection)) && Placed(CollectionChanges(a, b, collection), place, place)
  {
    CollectionOrdered(a, b, collection);
    PlacedByCollection(CollectionChanges(a, b, collection), collection, place);
  }

  lemma {:induction false} PlacedByCollection<V>(changes: seq<Change<V>>, collection: Collection, place: nat)
    requires Turned(changes, collection, 0, 2) && place == Place(Entry(collection, ""))
    ensures Placed(changes, place, place)
  {
  }

  lemma {:induction false} SixOrdered<V>(
    c0: seq<Change<V>>, c1: seq<Change<V>>, c2: seq<Change<V>>, c3: seq<Change<V>>, c4: seq<Change<V>>, c5: seq<Change<V>>)
    requires Ordered(c0) && Ordered(c1) && Ordered(c2) && Ordered(c3) && Ordered(c4) && Ordered(c5)
    requires Placed(c0, 0, 0) && Placed(c1, 1, 1) && Placed(c2, 2, 2) && Placed(c3, 3, 3) && Placed(c4, 4, 4) && Placed(c5, 5, 5)
    ensures Ordered(c0 + c1 + c2 + c3 + c4 + c5)
  {
    OrderedConcat(c0, c1, 0, 0, 1);
    OrderedConcat(c0 + c1, c2, 0, 1, 2);
    OrderedConcat(c0 + c1 + c2, c3, 0, 2, 3);
    OrderedConcat(c0 + c1 + c2 + c3, c4, 0, 3, 4);
    OrderedConcat(c0 + c1 + c2 + c3 + c4, c5, 0, 4, 5);
  }

  /** A diff lists its changes field by field, removed before added before changed, by id. */
  lemma {:induction false} DiffIsOrdered<V>(a: Schema<V>, b: Schema<V>)
    ensures Ordered(Diff(a, b))
  {
    ScalarOrdered(a, b, PassingThreshold);
    ScalarOrdered(a, b, TotalScore);
    CollectionPlaced(a, b, HardFilters, 2);
    CollectionPlaced(a, b, RuleDimensions, 3);
    CollectionPlaced(a, b, JudgeDimensions, 4);
    CollectionPlaced(a, b, GradeThresholds, 5);
    SixOrdered(
      ScalarChanges(a, b, PassingThreshold), ScalarChanges(a, b, TotalScore), CollectionChanges(a, b, HardFilters),
      CollectionChanges(a, b, RuleDimensions), CollectionChanges(a, b, JudgeDimensions), CollectionChanges(a, b, GradeThresholds));
  }
}
