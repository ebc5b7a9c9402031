/** Python's stable `sorted(items, key=...)`, for any key order. */
module Sorting {

  /** A total preorder, as comparing keys gives one. */
  ghost predicate TotalOrder<T(!new)>(le: (T, T) -> bool) {
    (forall a, b :: le(a, b) || le(b, a)) &&
    (forall a, b, c :: le(a, b) && le(b, c) ==> le(a, c))
  }

  function Insert<T>(sorted: seq<T>, item: T, le: (T, T) -> bool): seq<T> {
    if sorted == [] || !le(sorted[0], item) then [item] + sorted
    else [sorted[0]] + Insert(sorted[1..], item, le)
  }

  function Sort<T>(items: seq<T>, le: (T, T) -> bool): seq<T> {
    if items == [] then [] else Insert(Sort(items[..|items| - 1], le), items[|items| - 1], le)
  }

  ghost predicate Sorted<T>(items: seq<T>, le: (T, T) -> bool) {
    forall i, j :: 0 <= i < j < |items| ==> le(items[i], items[j])
  }

  lemma {:induction false} InsertHolds<T(!new)>(sorted: seq<T>, item: T, le: (T, T) -> bool)
    ensures multiset(Insert(sorted, item, le)) == multiset(sorted) + multiset{item}
  {
    if sorted != [] && le(sorted[0], item) {
      InsertHolds(sorted[1..], item, le);
      assert sorted == [sorted[0]] + sorted[1..];
    }
  }

  lemma {:induction false} InsertSorts<T(!new)>(sorted: seq<T>, item: T, le: (T, T) -> bool)
    requires TotalOrder(le) && Sorted(sorted, le)
    ensures Sorted(Insert(sorted, item, le), le)
  {
    if sorted != [] && le(sorted[0], item) {
      InsertSorts(sorted[1..], item, le);
      InsertAfter(sorted, item, le);
    } else if sorted != [] {
      assert le(item, sorted[0]);
    }
  }

  lemma {:induction false} InsertAfter<T(!new)>(sorted: seq<T>, item: T, le: (T, T) -> bool)
    requires sorted != [] && Sorted(sorted, le) && le(sorted[0], item)
    ensures forall x :: x in Insert(sorted[1..], item, le) ==> le(sorted[0], x)
  {
    InsertHolds(sorted[1..], item, le);
    forall x | x in Insert(sorted[1..], item, le) ensures le(sorted[0], x) {
      assert x in multiset(sorted[1..]) + multiset{item};
    }
  }

  /** The sort is in order and holds the same items. */
  lemma {:induction false} SortSorts<T(!new)>(items: seq<T>, le: (T, T) -> bool)
    requires TotalOrder(le)
    ensures Sorted(Sort(items, le), le)
    ensures multiset(Sort(items, le)) == multiset(items)
  {
    SortIsSorted(items, le);
    SortHolds(items, le);
  }

  lemma {:induction false} SortIsSorted<T(!new)>(items: seq<T>, le: (T, T) -> bool)
    requires TotalOrder(le)
    ensures Sorted(Sort(items, le), le)
  {
    if items != [] {
      var front := items[..|items| - 1];
      SortIsSorted(front, le);
      InsertSorts(Sort(front, le), items[|items| - 1], le);
    }
  }

  lemma {:induction false} SortHolds<T(!new)>(items: seq<T>, le: (T, T) -> bool)
    ensures multiset(Sort(items, le)) == multiset(items)
  {
    if items != [] {
      var front := items[..|items| - 1];
      SortHolds(front, le);
      InsertHolds(Sort(front, le), items[|items| - 1], le);
      assert items == front + [items[|items| - 1]];
    }
  }

  lemma {:induction false} MultisetTail<T>(a: seq<T>)
    requires a != []
    ensures multiset(a[1..]) == multiset(a) - multiset{a[0]}
  {
    assert a == [a[0]] + a[1..];
  }

  /** No two different items of `items` have the same key. */
  ghost predicate Separates<T(!new)>(items: multiset<T>, le: (T, T) -> bool) {
    forall x, y :: x in items && y in items && le(x, y) && le(y, x) ==> x == y
  }

  ghost predicate Reflexive<T(!new)>(le: (T, T) -> bool) {
    forall a :: le(a, a)
  }

  lemma {:induction false} HeadIsLeast<T(!new)>(a: seq<T>, x: T, le: (T, T) -> bool)
    requires Reflexive(le) && Sorted(a, le) && x in multiset(a)
    ensures le(a[0], x)
  {
    var k :| 0 <= k < |a| && a[k] == x;
    assert le(x, x);
  }

  lemma {:induction false} HeadsAgree<T(!new)>(a: seq<T>, b: seq<T>, le: (T, T) -> bool)
    requires Reflexive(le) && Sorted(a, le) && Sorted(b, le) && a != [] && b != []
    requires multiset(a) == multiset(b) && Separates(multiset(a), le)
    ensures a[0] == b[0]
  {
    assert a[0] in multiset(a) && b[0] in multiset(b);
    HeadIsLeast(a, b[0], le);
    HeadIsLeast(b, a[0], le);
  }

  lemma {:induction false} TailKeeps<T(!new)>(a: seq<T>, le: (T, T) -> bool)
    requires a != [] && Sorted(a, le) && Separates(multiset(a), le)
    ensures Sorted(a[1..], le) && Separates(multiset(a[1..]), le)
  {
    MultisetTail(a);
    forall x, y | x in multiset(a[1..]) && y in multiset(a[1..]) && le(x, y) && le(y, x) ensures x == y {
      assert x in multiset(a) && y in multiset(a);
    }
  }

  lemma {:induction false} SameLength<T>(a: seq<T>, b: seq<T>)
    requires multiset(a) == multiset(b)
    ensures |a| == |b|
  {
    assert |multiset(a)| == |a| && |multiset(b)| == |b|;
  }

  lemma {:induction false} HeadAndTail<T>(a: seq<T>, b: seq<T>)
    requires a != [] && b != [] && a[0] == b[0] && a[1..] == b[1..]
    ensures a == b
  {
    assert a == [a[0]] + a[1..] && b == [b[0]] + b[1..];
  }

  lemma {:induction false} SortedUnique<T(!new)>(a: seq<T>, b: seq<T>, le: (T, T) -> bool)
    requires Reflexive(le) && Sorted(a, le) && Sorted(b, le)
    requires multiset(a) == multiset(b) && Separates(multiset(a), le)
    ensures a == b
  {
    SameLength(a, b);
    if a != [] {
      HeadsAgree(a, b, le);
      MultisetTail(a);
      MultisetTail(b);
      TailKeeps(a, le);
      TailKeeps(b, le);
      SortedUnique(a[1..], b[1..], le);
      HeadAndTail(a, b);
    }
  }

  /** When the key tells items apart, two lists sort alike exactly when they hold the same items. */
  lemma {:induction false} SortIff<T(!new)>(xs: seq<T>, ys: seq<T>, le: (T, T) -> bool)
    requires TotalOrder(le) && Separates(multiset(xs), le)
    ensures Sort(xs, le) == Sort(ys, le) <==> multiset(xs) == multiset(ys)
  {
    SortSorts(xs, le);
    SortSorts(ys, le);
    if multiset(xs) == multiset(ys) {
      SortedUnique(Sort(xs, le), Sort(ys, le), le);
    }
  }

  lemma {:induction false} InsertLast<T(!new)>(sorted: seq<T>, item: T, le: (T, T) -> bool)
    requires forall k :: 0 <= k < |sorted| ==> le(sorted[k], item)
    ensures Insert(sorted, item, le) == sorted + [item]
  {
    if sorted != [] {
      InsertLast(sorted[1..], item, le);
      assert sorted == [sorted[0]] + sorted[1..];
    }
  }

  /** A sorted list is its own sort. */
  lemma {:induction false} SortOfSorted<T(!new)>(items: seq<T>, le: (T, T) -> bool)
    requires Sorted(items, le)
    ensures Sort(items, le) == items
  {
    if items != [] {
      var front := items[..|items| - 1];
      SortOfSorted(front, le);
      InsertLast(front, items[|items| - 1], le);
    }
  }

  // ----- lists without repetition -----

  ghost predicate Distinct<T>(items: seq<T>) {
    forall i, j :: 0 <= i < j < |items| ==> items[i] != items[j]
  }

  lemma {:induction false} OnceIn<T>(items: seq<T>, x: T)
    requires Distinct(items)
    ensures multiset(items)[x] <= 1
  {
    if items != [] {
      var front, last := items[..|items| - 1], items[|items| - 1];
      OnceIn(front, x);
      assert items == front + [last];
      if x == last {
        assert x !in front;
      }
    }
  }

  lemma {:induction false} TwiceIn<T>(items: seq<T>, i: nat, j: nat)
    requires i < j < |items| && items[i] == items[j]
    ensures multiset(items)[items[i]] >= 2
  {
    assert items == items[..j] + [items[j]] + items[j + 1..];
    assert items[i] in items[..j];
  }

  lemma {:induction false} DistinctByMultiset<T(!new)>(a: seq<T>, b: seq<T>)
    requires Distinct(a) && multiset(a) == multiset(b)
    ensures Distinct(b) && |a| == |b| && forall x :: x in a <==> x in b
  {
    SameLength(a, b);
    forall x ensures x in a <==> x in b {
      assert x in multiset(a) <==> x in a;
      assert x in multiset(b) <==> x in b;
    }
    forall i, j | 0 <= i < j < |b| ensures b[i] != b[j] {
      if b[i] == b[j] {
        TwiceIn(b, i, j);
        OnceIn(a, b[i]);
      }
    }
  }

  /** A list without repetition holds the items of another of its length when each of its items is there. */
  lemma {:induction false} SameElements<T(!new)>(xs: seq<T>, ys: seq<T>)
    requires Distinct(xs) && |xs| == |ys|
    requires forall x :: x in xs ==> x in ys
    ensures multiset(xs) == multiset(ys)
  {
    forall x ensures multiset(xs)[x] <= multiset(ys)[x] {
      OnceIn(xs, x);
      if x in xs {
        assert x in ys;
      }
    }
    assert multiset(xs) <= multiset(ys);
    assert |multiset(ys) - multiset(xs)| == 0;
    assert multiset(ys) == multiset(xs) + (multiset(ys) - multiset(xs));
  }

  // ----- stability -----

  function Filter<T>(items: seq<T>, keep: T -> bool): seq<T> {
    if items == [] then []
    else Filter(items[..|items| - 1], keep) + (if keep(items[|items| - 1]) then [items[|items| - 1]] else [])
  }

  lemma {:induction false} FilterConcat<T>(a: seq<T>, b: seq<T>, keep: T -> bool)
    ensures Filter(a + b, keep) == Filter(a, keep) + Filter(b, keep)
  {
    if b == [] {
      assert a + b == a;
    } else {
      var n := |b| - 1;
      FilterConcat(a, b[..n], keep);
      assert (a + b)[..|a| + n] == a + b[..n];
    }
  }

  lemma {:induction false} FilterNone<T>(items: seq<T>, keep: T -> bool)
    requires forall i :: 0 <= i < |items| ==> !keep(items[i])
    ensures Filter(items, keep) == []
  {
    if items != [] {
      FilterNone(items[..|items| - 1], keep);
    }
  }

  lemma {:induction false} FilterOne<T>(item: T, keep: T -> bool)
    ensures Filter([item], keep) == if keep(item) then [item] else []
  {
    assert [item][..0] == [];
  }

  /** All that `keep` holds of are equal in the order. */
  ghost predicate AllEqual<T(!new)>(keep: T -> bool, le: (T, T) -> bool) {
    forall x, y :: keep(x) && keep(y) ==> le(x, y)
  }

  lemma {:induction false} NothingEqualAfter<T(!new)>(sorted: seq<T>, item: T, le: (T, T) -> bool, keep: T -> bool)
    requires TotalOrder(le) && Sorted(sorted, le) && AllEqual(keep, le)
    requires sorted != [] && !le(sorted[0], item) && keep(item)
    ensures forall i :: 0 <= i < |sorted| ==> !keep(sorted[i])
  {
    forall i | 0 <= i < |sorted| ensures !keep(sorted[i]) {
      assert i == 0 || le(sorted[0], sorted[i]);
    }
  }

  lemma {:induction false} InsertKeepsOrder<T(!new)>(sorted: seq<T>, item: T, le: (T, T) -> bool, keep: T -> bool)
    requires TotalOrder(le) && Sorted(sorted, le) && AllEqual(keep, le)
    ensures Filter(Insert(sorted, item, le), keep) == Filter(sorted, keep) + (if keep(item) then [item] else [])
  {
    FilterOne(item, keep);
    if sorted == [] {
      assert Insert(sorted, item, le) == [item];
    } else if !le(sorted[0], item) {
      FilterConcat([item], sorted, keep);
      if keep(item) {
        NothingEqualAfter(sorted, item, le, keep);
        FilterNone(sorted, keep);
      }
    } else {
      InsertKeepsOrder(sorted[1..], item, le, keep);
      FilterConcat([sorted[0]], Insert(sorted[1..], item, le), keep);
      FilterConcat([sorted[0]], sorted[1..], keep);
      assert [sorted[0]] + sorted[1..] == sorted;
    }
  }

  /** The sort is stable: what is equal in the order stays in the order it came in. */
  lemma {:induction false} SortIsStable<T(!new)>(items: seq<T>, le: (T, T) -> bool, keep: T -> bool)
    requires TotalOrder(le) && AllEqual(keep, le)
    ensures Filter(Sort(items, le), keep) == Filter(items, keep)
  {
    if items != [] {
      var n := |items| - 1;
      SortIsStable(items[..n], le, keep);
      SortIsSorted(items[..n], le);
      InsertKeepsOrder(Sort(items[..n], le), items[n], le, keep);
    }
  }
}
