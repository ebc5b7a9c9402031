/** What a diff of two rule schemas means: the changed paths exactly, and a patch between their keyed views. */
module RuleDiffMeaning {
  import opened Common
  import opened RuleDiff

  // ----- what a schema holds at a path -----

  /** The keyed view of a schema: what it holds at each path. */
  function At<V>(s: Schema<V>, p: Path): Option<V> {
    match p
    case Field(field) => ScalarOf(s, field)
    case Entry(collection, id) =>
      var index := Index(ItemsOf(s, collection));
      if id in index then Some(index[id]) else None
  }

  function KindAt<V>(a: Schema<V>, b: Schema<V>, p: Path): Kind {
    if p.Field? then Changed
    else if At(b, p).None? then Removed
    else if At(a, p).None? then Added
    else Changed
  }

  /** The change from `a` to `b` at a path. */
  function ChangeAt<V>(a: Schema<V>, b: Schema<V>, p: Path): Change<V> {
    Change(p, KindAt(a, b, p), At(a, p), At(b, p))
  }

  ghost predicate HasPath<V>(changes: seq<Change<V>>, p: Path) {
    exists i :: 0 <= i < |changes| && changes[i].path == p
  }

  /** Each change is the true one at its path, and is a change. */
  ghost predicate Truthful<V>(changes: seq<Change<V>>, a: Schema<V>, b: Schema<V>) {
    forall i :: 0 <= i < |changes| ==>
      changes[i] == ChangeAt(a, b, changes[i].path) && At(a, changes[i].path) != At(b, changes[i].path)
  }

  /** No path is changed twice. */
  ghost predicate OnePerPath<V>(changes: seq<Change<V>>) {
    forall i, j :: 0 <= i < j < |changes| ==> changes[i].path != changes[j].path
  }

  /** The changes of `a` to `b` over the paths of `scope`: each that differs, once. */
  ghost predicate Describes<V>(changes: seq<Change<V>>, scope: iset<Path>, a: Schema<V>, b: Schema<V>) {
    Truthful(changes, a, b) && OnePerPath(changes)
    && (forall i :: 0 <= i < |changes| ==> changes[i].path in scope)
    && (forall p :: p in scope && At(a, p) != At(b, p) ==> HasPath(changes, p))
  }

  lemma {:induction false} HasPathConcat<V>(xs: seq<Change<V>>, ys: seq<Change<V>>, p: Path)
    ensures HasPath(xs + ys, p) <==> HasPath(xs, p) || HasPath(ys, p)
  {
    if HasPath(xs, p) {
      var i :| 0 <= i < |xs| && xs[i].path == p;
      assert (xs + ys)[i].path == p;
    }
    if HasPath(ys, p) {
      var i :| 0 <= i < |ys| && ys[i].path == p;
      assert (xs + ys)[|xs| + i].path == p;
    }
  }

  lemma {:induction false} DescribesConcat<V>(
    xs: seq<Change<V>>, ys: seq<Change<V>>, here: iset<Path>, there: iset<Path>, a: Schema<V>, b: Schema<V>)
    requires Describes(xs, here, a, b) && Describes(ys, there, a, b) && here !! there
    ensures Describes(xs + ys, here + there, a, b)
  {
    forall p | p in here + there && At(a, p) != At(b, p) ensures HasPath(xs + ys, p) {
      HasPathConcat(xs, ys, p);
    }
  }

  // ----- the pieces -----

  ghost function FieldPaths(field: Scalar): iset<Path> {
    iset{Field(field)}
  }

  ghost function EntryPaths(collection: Collection): iset<Path> {
    iset p: Path | p.Entry? && p.collection == collection
  }

  /** The paths of a collection whose id is in the set. */
  ghost function IdPaths(collection: Collection, ids: set<string>): iset<Path> {
    iset p: Path | p.Entry? && p.collection == collection && p.id in ids
  }

  lemma {:induction false} ScalarDescribes<V>(a: Schema<V>, b: Schema<V>, field: Scalar)
    ensures Describes(ScalarChanges(a, b, field), FieldPaths(field), a, b)
  {
    var changes := ScalarChanges(a, b, field);
    if changes != [] {
      assert changes[0].path == Field(field);
    }
  }

  ghost predicate SameIds(ids: seq<string>, all: set<string>) {
    (forall x :: x in all ==> exists i :: 0 <= i < |ids| && ids[i] == x)
    && (forall i :: 0 <= i < |ids| ==> ids[i] in all)
    && (forall i, j :: 0 <= i < j < |ids| ==> ids[i] != ids[j])
  }

  lemma {:induction false} SortedSameIds(all: set<string>)
    ensures SameIds(SortedIds(all), all)
  {
    var ids := SortedIds(all);
    SortedIdsHolds(all);
    forall i | 0 <= i < |ids| ensures ids[i] in all {
      assert ids[i] in ids;
    }
  }

  lemma {:induction false} RemovedDescribes<V>(a: Schema<V>, b: Schema<V>, collection: Collection, ids: seq<string>)
    requires var before, after := Index(ItemsOf(a, collection)), Index(ItemsOf(b, collection));
             SameIds(ids, before.Keys - after.Keys)
    ensures var before, after := Index(ItemsOf(a, collection)), Index(ItemsOf(b, collection));
            Describes(RemovedChanges(collection, before, ids), IdPaths(collection, before.Keys - after.Keys), a, b)
  {
    var before, after := Index(ItemsOf(a, collection)), Index(ItemsOf(b, collection));
    var changes := RemovedChanges(collection, before, ids);
    forall p | p in IdPaths(collection, before.Keys - after.Keys) ensures HasPath(changes, p) {
      var i :| 0 <= i < |ids| && ids[i] == p.id;
      assert changes[i].path == p;
    }
  }

  lemma {:induction false} AddedDescribes<V>(a: Schema<V>, b: Schema<V>, collection: Collection, ids: seq<string>)
    requires var before, after := Index(ItemsOf(a, collection)), Index(ItemsOf(b, collection));
             SameIds(ids, after.Keys - before.Keys)
    ensures var before, after := Index(ItemsOf(a, collection)), Index(ItemsOf(b, collection));
            Describes(AddedChanges(collection, after, ids), IdPaths(collection, after.Keys - before.Keys), a, b)
  {
    var before, after := Index(ItemsOf(a, collection)), Index(ItemsOf(b, collection));
    var changes := AddedChanges(collection, after, ids);
    forall p | p in IdPaths(collection, after.Keys - before.Keys) ensures HasPath(changes, p) {
      var i :| 0 <= i < |ids| && ids[i] == p.id;
      assert changes[i].path == p;
    }
  }

  /** The ids of a list, as a set. */
  ghost function IdSet(ids: seq<string>): set<string> {
    set x | x in ids
  }

  lemma {:induction false} CommonDescribes<V>(a: Schema<V>, b: Schema<V>, collection: Collection, ids: seq<string>)
    requires forall i :: 0 <= i < |ids| ==>
               ids[i] in Index(ItemsOf(a, collection)) && ids[i] in Index(ItemsOf(b, collection))
    requires forall i, j :: 0 <= i < j < |ids| ==> ids[i] != ids[j]
    ensures Describes(CommonChanges(collection, Index(ItemsOf(a, collection)), Index(ItemsOf(b, collection)), ids),
                      IdPaths(collection, IdSet(ids)), a, b)
  {
    var before, after := Index(ItemsOf(a, collection)), Index(ItemsOf(b, collection));
    if ids != [] {
      var n := |ids| - 1;
      var id := ids[n];
      CommonDescribes(a, b, collection, ids[..n]);
      CommonStep(a, b, collection, id);
      var last := if before[id] != after[id] then [Change(Entry(collection, id), Changed, Some(before[id]), Some(after[id]))] else [];
      DescribesConcat(CommonChanges(collection, before, after, ids[..n]), last,
                      IdPaths(collection, IdSet(ids[..n])), IdPaths(collection, {id}), a, b);
      assert IdSet(ids) == IdSet(ids[..n]) + {id} by {
        assert ids == ids[..n] + [id];
      }
      assert IdPaths(collection, IdSet(ids)) == IdPaths(collection, IdSet(ids[..n])) + IdPaths(collection, {id});
    }
  }

  lemma {:induction false} CommonStep<V>(a: Schema<V>, b: Schema<V>, collection: Collection, id: string)
    requires id in Index(ItemsOf(a, collection)) && id in Index(ItemsOf(b, collection))
    ensures var before, after := Index(ItemsOf(a, collection))[id], Index(ItemsOf(b, collection))[id];
            Describes(if before != after then [Change(Entry(collection, id), Changed, Some(before), Some(after))] else [],
                      IdPaths(collection, {id}), a, b)
  {
    var before, after := Index(ItemsOf(a, collection))[id], Index(ItemsOf(b, collection))[id];
    if before != after {
      var changes := [Change(Entry(collection, id), Changed, Some(before), Some(after))];
      assert changes[0].path == Entry(collection, id);
    }
  }

  lemma {:induction false} ThreeDescribe<V>(
    xs: seq<Change<V>>, ys: seq<Change<V>>, zs: seq<Change<V>>,
    first: iset<Path>, second: iset<Path>, third: iset<Path>, all: iset<Path>, a: Schema<V>, b: Schema<V>)
    requires Describes(xs, first, a, b) && Describes(ys, second, a, b) && Describes(zs, third, a, b)
    requires first !! second && first + second !! third && first + second + third <= all
    requires forall p :: p in all && p !in first + second + third ==> At(a, p) == At(b, p)
    ensures Describes(xs + ys + zs, all, a, b)
  {
    DescribesConcat(xs, ys, first, second, a, b);
    DescribesConcat(xs + ys, zs, first + second, third, a, b);
    DescribesMore(xs + ys + zs, first + second + third, all, a, b);
  }

  /** Outside both indexes, the schemas agree. */
  lemma {:induction false} NothingElse<V>(a: Schema<V>, b: Schema<V>, collection: Collection, p: Path)
    requires p in EntryPaths(collection)
    requires p.id !in Index(ItemsOf(a, collection)) && p.id !in Index(ItemsOf(b, collection))
    ensures At(a, p) == At(b, p)
  {
  }

  lemma {:induction false} RemovedPart<V>(a: Schema<V>, b: Schema<V>, collection: Collection, missing: set<string>)
    requires missing == Index(ItemsOf(a, collection)).Keys - Index(ItemsOf(b, collection)).Keys
    ensures SameIds(SortedIds(missing), missing)
    ensures Describes(RemovedChanges(collection, Index(ItemsOf(a, collection)), SortedIds(missing)), IdPaths(collection, missing), a, b)
  {
    SortedSameIds(missing);
    RemovedDescribes(a, b, collection, SortedIds(missing));
  }

  lemma {:induction false} AddedPart<V>(a: Schema<V>, b: Schema<V>, collection: Collection, added: set<string>)
    requires added == Index(ItemsOf(b, collection)).Keys - Index(ItemsOf(a, collection)).Keys
    ensures SameIds(SortedIds(added), added)
    ensures Describes(AddedChanges(collection, Index(ItemsOf(b, collection)), SortedIds(added)), IdPaths(collection, added), a, b)
  {
    SortedSameIds(added);
    AddedDescribes(a, b, collection, SortedIds(added));
  }

  lemma {:induction false} CommonPart<V>(a: Schema<V>, b: Schema<V>, collection: Collection, common: set<string>)
    requires common == Index(ItemsOf(a, collection)).Keys * Index(ItemsOf(b, collection)).Keys
    ensures SameIds(SortedIds(common), common)
    ensures Describes(CommonChanges(collection, Index(ItemsOf(a, collection)), Index(ItemsOf(b, collection)), SortedIds(common)),
                      IdPaths(collection, common), a, b)
  {
    SortedSameIds(common);
    CommonIsSet(common);
    CommonDescribes(a, b, collection, SortedIds(common));
  }

  lemma {:induction false} CollectionDescribes<V>(a: Schema<V>, b: Schema<V>, collection: Collection)
    ensures Describes(CollectionChanges(a, b, collection), EntryPaths(collection), a, b)
  {
    var before, after := Index(ItemsOf(a, collection)), Index(ItemsOf(b, collection));
    var missing, added, common := before.Keys - after.Keys, after.Keys - before.Keys, before.Keys * after.Keys;
    RemovedPart(a, b, collection, missing);
    AddedPart(a, b, collection, added);
    CommonPart(a, b, collection, common);
    forall p | p in EntryPaths(collection)
      && p !in IdPaths(collection, missing) + IdPaths(collection, added) + IdPaths(collection, common)
      ensures At(a, p) == At(b, p)
    {
      NothingElse(a, b, collection, p);
    }
    ThreeDescribe(
      RemovedChanges(collection, before, SortedIds(missing)), AddedChanges(collection, after, SortedIds(added)),
      CommonChanges(collection, before, after, SortedIds(common)),
      IdPaths(collection, missing), IdPaths(collection, added), IdPaths(collection, common), EntryPaths(collection), a, b);
  }

  lemma {:induction false} CommonIsSet(all: set<string>)
    ensures IdSet(SortedIds(all)) == all
  {
    SortedIdsHolds(all);
  }

  /** Paths at which the schemas agree may be added to the scope. */
  lemma {:induction false} DescribesMore<V>(changes: seq<Change<V>>, scope: iset<Path>, wider: iset<Path>, a: Schema<V>, b: Schema<V>)
    requires Describes(changes, scope, a, b) && scope <= wider
    requires forall p :: p in wider && p !in scope ==> At(a, p) == At(b, p)
    ensures Describes(changes, wider, a, b)
  {
  }

  // ----- the whole diff -----

  ghost function AllPaths(): iset<Path> {
    FieldPaths(PassingThreshold) + FieldPaths(TotalScore) + EntryPaths(HardFilters)
    + EntryPaths(RuleDimensions) + EntryPaths(JudgeDimensions) + EntryPaths(GradeThresholds)
  }

  lemma {:induction false} EveryPath(p: Path)
    ensures p in AllPaths()
  {
    match p
    case Field(field) => match field { case PassingThreshold => case TotalScore => }
    case Entry(collection, _) =>
      match collection { case HardFilters => case RuleDimensions => case JudgeDimensions => case GradeThresholds => }
  }

  lemma {:induction false} SixDescribe<V>(
    c1: seq<Change<V>>, c2: seq<Change<V>>, c3: seq<Change<V>>, c4: seq<Change<V>>, c5: seq<Change<V>>, c6: seq<Change<V>>,
    p1: iset<Path>, p2: iset<Path>, p3: iset<Path>, p4: iset<Path>, p5: iset<Path>, p6: iset<Path>,
    a: Schema<V>, b: Schema<V>)
    requires Describes(c1, p1, a, b) && Describes(c2, p2, a, b) && Describes(c3, p3, a, b)
    requires Describes(c4, p4, a, b) && Describes(c5, p5, a, b) && Describes(c6, p6, a, b)
    requires p1 !! p2 && p1 + p2 !! p3 && p1 + p2 + p3 !! p4 && p1 + p2 + p3 + p4 !! p5
    requires p1 + p2 + p3 + p4 + p5 !! p6
    ensures Describes(c1 + c2 + c3 + c4 + c5 + c6, p1 + p2 + p3 + p4 + p5 + p6, a, b)
  {
    DescribesConcat(c1, c2, p1, p2, a, b);
    DescribesConcat(c1 + c2, c3, p1 + p2, p3, a, b);
    DescribesConcat(c1 + c2 + c3, c4, p1 + p2 + p3, p4, a, b);
    DescribesConcat(c1 + c2 + c3 + c4, c5, p1 + p2 + p3 + p4, p5, a, b);
    DescribesConcat(c1 + c2 + c3 + c4 + c5, c6, p1 + p2 + p3 + p4 + p5, p6, a, b);
  }

  /** The diff holds a change for exactly the paths at which the schemas differ, each once and true. */
  lemma {:induction false} DiffDescribes<V>(a: Schema<V>, b: Schema<V>)
    ensures Describes(Diff(a, b), AllPaths(), a, b)
  {
    ScalarDescribes(a, b, PassingThreshold);
    ScalarDescribes(a, b, TotalScore);
    CollectionDescribes(a, b, HardFilters);
    CollectionDescribes(a, b, RuleDimensions);
    CollectionDescribes(a, b, JudgeDimensions);
    CollectionDescribes(a, b, GradeThresholds);
    SixDescribe(
      ScalarChanges(a, b, PassingThreshold), ScalarChanges(a, b, TotalScore),
      CollectionChanges(a, b, HardFilters), CollectionChanges(a, b, RuleDimensions),
      CollectionChanges(a, b, JudgeDimensions), CollectionChanges(a, b, GradeThresholds),
      FieldPaths(PassingThreshold), FieldPaths(TotalScore), EntryPaths(HardFilters),
      EntryPaths(RuleDimensions), EntryPaths(JudgeDimensions), EntryPaths(GradeThresholds), a, b);
  }

  /** The same keyed view. */
  ghost predicate SameView<V>(a: Schema<V>, b: Schema<V>) {
    forall p: Path :: At(a, p) == At(b, p)
  }

  lemma {:induction false} NoChangeIff<V>(changes: seq<Change<V>>, a: Schema<V>, b: Schema<V>)
    requires Describes(changes, AllPaths(), a, b)
    ensures changes == [] <==> SameView(a, b)
  {
    if changes == [] {
      forall p: Path ensures At(a, p) == At(b, p) {
        EveryPath(p);
        assert !HasPath(changes, p);
      }
    } else {
      assert At(a, changes[0].path) != At(b, changes[0].path);
    }
  }

  /** A diff is empty exactly when the keyed views are equal. */
  lemma {:induction false} EmptyIff<V>(a: Schema<V>, b: Schema<V>)
    ensures Diff(a, b) == [] <==> SameView(a, b)
  {
    DiffDescribes(a, b);
    NoChangeIff(Diff(a, b), a, b);
  }

  // ----- the diff as a patch -----

  function Lookup<V>(view: map<Path, V>, p: Path): Option<V> {
    if p in view then Some(view[p]) else None
  }

  /** A view: what the schema holds at each path, as a map. */
  ghost predicate IsView<V>(view: map<Path, V>, s: Schema<V>) {
    forall p: Path :: Lookup(view, p) == At(s, p)
  }

  function ApplyOne<V>(view: map<Path, V>, c: Change<V>): map<Path, V> {
    if c.after.Some? then view[c.path := c.after.value] else view - {c.path}
  }

  function Apply<V>(view: map<Path, V>, changes: seq<Change<V>>): map<Path, V> {
    if changes == [] then view
    else ApplyOne(Apply(view, changes[..|changes| - 1]), changes[|changes| - 1])
  }

  lemma {:induction false} ApplyElsewhere<V>(view: map<Path, V>, changes: seq<Change<V>>, p: Path)
    requires !HasPath(changes, p)
    ensures Lookup(Apply(view, changes), p) == Lookup(view, p)
  {
    if changes != [] {
      var n := |changes| - 1;
      assert changes[n].path != p;
      forall i | 0 <= i < n ensures changes[..n][i].path != p {
        assert changes[i].path != p;
      }
      ApplyElsewhere(view, changes[..n], p);
    }
  }

  lemma {:induction false} ApplyHere<V>(view: map<Path, V>, changes: seq<Change<V>>, i: nat)
    requires i < |changes| && OnePerPath(changes)
    ensures Lookup(Apply(view, changes), changes[i].path) == changes[i].after
    decreases |changes|
  {
    var n := |changes| - 1;
    if i < n {
      assert changes[n].path != changes[i].path;
      ApplyHere(view, changes[..n], i);
    }
  }

  lemma {:induction false} PatchBy<V>(changes: seq<Change<V>>, a: Schema<V>, b: Schema<V>, view: map<Path, V>)
    requires IsView(view, a) && Describes(changes, AllPaths(), a, b)
    ensures IsView(Apply(view, changes), b)
  {
    forall p: Path ensures Lookup(Apply(view, changes), p) == At(b, p) {
      EveryPath(p);
      if HasPath(changes, p) {
        var i :| 0 <= i < |changes| && changes[i].path == p;
        ApplyHere(view, changes, i);
      } else {
        ApplyElsewhere(view, changes, p);
      }
    }
  }

  /** Applying the diff to the view of `a` gives the view of `b`. */
  lemma {:induction false} PatchWorks<V>(a: Schema<V>, b: Schema<V>, view: map<Path, V>)
    requires IsView(view, a)
    ensures IsView(Apply(view, Diff(a, b)), b)
  {
    DiffDescribes(a, b);
    PatchBy(Diff(a, b), a, b, view);
  }

  /** Every schema has a view: the one its diff from an empty schema builds. */
  lemma {:induction false} ViewExists<V>(s: Schema<V>)
    ensures IsView(Apply(map[], Diff(Schema(None, None, None, None, None, None), s)), s)
  {
    var empty: Schema<V> := Schema(None, None, None, None, None, None);
    assert IsView(map[], empty);
    PatchWorks(empty, s, map[]);
  }

  lemma {:induction false} ViewsAgree<V>(x: map<Path, V>, y: map<Path, V>, s: Schema<V>)
    requires IsView(x, s) && IsView(y, s)
    ensures x == y
  {
    forall p: Path ensures p in x <==> p in y {
      assert Lookup(x, p) == At(s, p) == Lookup(y, p);
    }
    forall p | p in x ensures x[p] == y[p] {
      assert Lookup(x, p) == At(s, p) == Lookup(y, p);
    }
  }

  /** The diff the other way undoes the patch. */
  lemma {:induction false} PatchUndone<V>(a: Schema<V>, b: Schema<V>, view: map<Path, V>)
    requires IsView(view, a)
    ensures Apply(Apply(view, Diff(a, b)), Diff(b, a)) == view
  {
    PatchWorks(a, b, view);
    PatchWorks(b, a, Apply(view, Diff(a, b)));
    ViewsAgree(view, Apply(Apply(view, Diff(a, b)), Diff(b, a)), a);
  }

  function FlipKind(kind: Kind): Kind {
    match kind
    case Removed => Added
    case Added => Removed
    case Changed => Changed
  }

  function Flip<V>(c: Change<V>): Change<V> {
    Change(c.path, FlipKind(c.kind), c.after, c.before)
  }

  lemma {:induction false} FlipIn<V>(there: seq<Change<V>>, back: seq<Change<V>>, a: Schema<V>, b: Schema<V>, c: Change<V>)
    requires Describes(there, AllPaths(), a, b) && Describes(back, AllPaths(), b, a)
    ensures c in there ==> Flip(c) in back
  {
    if c in there {
      var i :| 0 <= i < |there| && there[i] == c;
      EveryPath(c.path);
      assert HasPath(back, c.path);
      var j :| 0 <= j < |back| && back[j].path == c.path;
      assert back[j] == ChangeAt(b, a, c.path) == Flip(c);
    }
  }

  lemma {:induction false} FlipIff<V>(there: seq<Change<V>>, back: seq<Change<V>>, a: Schema<V>, b: Schema<V>, c: Change<V>)
    requires Describes(there, AllPaths(), a, b) && Describes(back, AllPaths(), b, a)
    ensures c in there <==> Flip(c) in back
  {
    FlipIn(there, back, a, b, c);
    FlipIn(back, there, b, a, Flip(c));
    assert Flip(Flip(c)) == c;
  }

  /** The diff the other way holds each change turned round, and nothing else. */
  lemma {:induction false} DiffFlips<V>(a: Schema<V>, b: Schema<V>, c: Change<V>)
    ensures c in Diff(a, b) <==> Flip(c) in Diff(b, a)
  {
    DiffDescribes(a, b);
    DiffDescribes(b, a);
    FlipIff(Diff(a, b), Diff(b, a), a, b, c);
  }

  // ----- paths as they are written -----

  function CollectionName(c: Collection): string {
    match c
    case HardFilters => "hard_filters"
    case RuleDimensions => "rule_dimensions"
    case JudgeDimensions => "judge_dimensions"
    case GradeThresholds => "grade_thresholds"
  }

  function PathText(p: Path): string {
    match p
    case Field(PassingThreshold) => "passing_threshold"
    case Field(TotalScore) => "total_score"
    case Entry(collection, id) => CollectionName(collection) + "[" + id + "]"
  }

  /** No two paths are written alike, whatever characters an id holds. */
  lemma {:induction false} PathTextInjective(p: Path, q: Path)
    requires PathText(p) == PathText(q)
    ensures p == q
  {
    assert PathText(p)[0] == PathText(q)[0];
    if p.Entry? && q.Entry? {
      var n := |CollectionName(p.collection)| + 1;
      assert p.id == PathText(p)[n..|PathText(p)| - 1];
      assert q.id == PathText(q)[n..|PathText(q)| - 1];
    }
  }

  // ----- reordering -----

  /** With distinct keys, the index holds each object at its key. */
  lemma {:induction false} IndexHolds<V>(items: seq<Item<V>>, i: nat)
    requires i < |items| && items[i].key.Some?
    requires forall j :: 0 <= j < |items| && j != i && items[j].key.Some? ==> items[j].key != items[i].key
    ensures items[i].key.value in Index(items) && Index(items)[items[i].key.value] == items[i].body
    decreases |items|
  {
    if i < |items| - 1 {
      IndexHolds(items[..|items| - 1], i);
    }
  }

  lemma {:induction false} IndexFrom<V>(items: seq<Item<V>>, id: string) returns (i: nat)
    requires id in Index(items)
    ensures i < |items| && items[i].key == Some(id) && items[i].body == Index(items)[id]
  {
    var n := |items| - 1;
    if items[n].key == Some(id) {
      i := n;
    } else {
      i := IndexFrom(items[..n], id);
    }
  }

  ghost predicate DistinctIds<V>(items: seq<Item<V>>) {
    forall i, j :: 0 <= i < j < |items| && items[i].key.Some? ==> items[i].key != items[j].key
  }

  lemma {:induction false} IndexSubset<V>(xs: seq<Item<V>>, ys: seq<Item<V>>, id: string)
    requires multiset(xs) == multiset(ys) && DistinctIds(ys) && id in Index(xs)
    ensures id in Index(ys) && Index(ys)[id] == Index(xs)[id]
  {
    var i := IndexFrom(xs, id);
    assert xs[i] in multiset(ys);
    var j :| 0 <= j < |ys| && ys[j] == xs[i];
    IndexHolds(ys, j);
  }

  /** Reordering a collection whose ids are distinct does not change its index. */
  lemma {:induction false} ReorderedIndex<V>(xs: seq<Item<V>>, ys: seq<Item<V>>)
    requires multiset(xs) == multiset(ys) && DistinctIds(xs) && DistinctIds(ys)
    ensures Index(xs) == Index(ys)
  {
    forall id | id in Index(xs) ensures id in Index(ys) && Index(ys)[id] == Index(xs)[id] {
      IndexSubset(xs, ys, id);
    }
    forall id | id in Index(ys) ensures id in Index(xs) {
      IndexSubset(ys, xs, id);
    }
  }

  ghost predicate Reordered<V>(a: Schema<V>, b: Schema<V>) {
    a.passingThreshold == b.passingThreshold && a.totalScore == b.totalScore
    && forall c: Collection ::
         multiset(ItemsOf(a, c)) == multiset(ItemsOf(b, c)) && DistinctIds(ItemsOf(a, c)) && DistinctIds(ItemsOf(b, c))
  }

  lemma {:induction false} ReorderedView<V>(a: Schema<V>, b: Schema<V>)
    requires Reordered(a, b)
    ensures SameView(a, b)
  {
    forall p: Path ensures At(a, p) == At(b, p) {
      if p.Entry? {
        ReorderedIndex(ItemsOf(a, p.collection), ItemsOf(b, p.collection));
      }
    }
  }

  /** So schemas that differ in order alone have no diff. */
  lemma {:induction false} ReorderingIsNoChange<V>(a: Schema<V>, b: Schema<V>)
    requires Reordered(a, b)
    ensures Diff(a, b) == []
  {
    ReorderedView(a, b);
    EmptyIff(a, b);
  }
}
