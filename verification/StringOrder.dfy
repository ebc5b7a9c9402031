/** Python's order on strings, by code point, and the stable sort of keyed lists. */
module StringOrder {
  import Sorting

  predicate StrLe(a: string, b: string) {
    a == "" || (b != "" && (a[0] < b[0] || (a[0] == b[0] && StrLe(a[1..], b[1..]))))
  }

  lemma {:induction false} StrLeReflexive(a: string)
    ensures StrLe(a, a)
  {
    if a != "" {
      StrLeReflexive(a[1..]);
    }
  }

  lemma {:induction false} StrLeTotal(a: string, b: string)
    ensures StrLe(a, b) || StrLe(b, a)
  {
    if a != "" && b != "" && a[0] == b[0] {
      StrLeTotal(a[1..], b[1..]);
    }
  }

  lemma {:induction false} StrLeAntisymmetric(a: string, b: string)
    requires StrLe(a, b) && StrLe(b, a)
    ensures a == b
  {
    if a != "" && b != "" {
      StrLeAntisymmetric(a[1..], b[1..]);
      assert a == [a[0]] + a[1..] && b == [b[0]] + b[1..];
    }
  }

  lemma {:induction false} StrLeTransitive(a: string, b: string, c: string)
    requires StrLe(a, b) && StrLe(b, c)
    ensures StrLe(a, c)
  {
    if a != "" && a[0] == b[0] && b[0] == c[0] {
      StrLeTransitive(a[1..], b[1..], c[1..]);
    }
  }

  /** `a` comes before `b` where they first differ, or is where `b` begins. */
  ghost predicate ComesFirst(a: string, b: string) {
    || a <= b
    || exists k :: 0 <= k < |a| && k < |b| && a[..k] == b[..k] && a[k] < b[k]
  }

  lemma {:induction false} SameHead(c: char, x: string, y: string)
    ensures ComesFirst(x, y) ==> ComesFirst([c] + x, [c] + y)
  {
    var a, b := [c] + x, [c] + y;
    if ComesFirst(x, y) && !(x <= y) {
      var k :| 0 <= k < |x| && k < |y| && x[..k] == y[..k] && x[k] < y[k];
      assert a[..k + 1] == [c] + x[..k] && b[..k + 1] == [c] + y[..k];
      assert a[k + 1] < b[k + 1];
    }
  }

  lemma {:induction false} SameTail(c: char, x: string, y: string)
    ensures ComesFirst([c] + x, [c] + y) ==> ComesFirst(x, y)
  {
    var a, b := [c] + x, [c] + y;
    if a <= b {
      assert x == a[1..] && y == b[1..];
    } else if ComesFirst(a, b) {
      var k :| 0 <= k < |a| && k < |b| && a[..k] == b[..k] && a[k] < b[k];
      assert x[..k - 1] == a[..k][1..] && y[..k - 1] == b[..k][1..];
      assert x[k - 1] < y[k - 1];
    }
  }

  lemma {:induction false} Heads(a: string, b: string, k: nat)
    requires k <= |a| && k <= |b| && a[..k] == b[..k]
    ensures k > 0 ==> a[0] == b[0]
  {
    if k > 0 {
      assert a[0] == a[..k][0] && b[0] == b[..k][0];
    }
  }

  lemma {:induction false} OtherHead(a: string, b: string)
    requires a != "" && b != "" && a[0] != b[0]
    ensures ComesFirst(a, b) <==> a[0] < b[0]
  {
    if a[0] < b[0] {
      assert a[..0] == b[..0];
    } else if ComesFirst(a, b) && !(a <= b) {
      var k :| 0 <= k < |a| && k < |b| && a[..k] == b[..k] && a[k] < b[k];
      Heads(a, b, k);
    }
  }

  /** The order is that of the first difference, by code point. */
  lemma {:induction false} StrLeIff(a: string, b: string)
    ensures StrLe(a, b) <==> ComesFirst(a, b)
  {
    if a != "" && b != "" {
      if a[0] == b[0] {
        assert a == [a[0]] + a[1..] && b == [a[0]] + b[1..];
        StrLeIff(a[1..], b[1..]);
        SameHead(a[0], a[1..], b[1..]);
        SameTail(a[0], a[1..], b[1..]);
      } else {
        OtherHead(a, b);
      }
    }
  }

  // ----- keyed lists -----

  predicate KeyLe<T>(a: (string, T), b: (string, T)) {
    StrLe(a.0, b.0)
  }

  /** `sorted(items)` on pairs whose keys are distinct. */
  function SortByKey<T>(items: seq<(string, T)>): seq<(string, T)> {
    Sorting.Sort(items, KeyLe)
  }

  ghost predicate DistinctKeys<T>(items: seq<(string, T)>) {
    forall i, j :: 0 <= i < j < |items| ==> items[i].0 != items[j].0
  }

  lemma {:induction false} KeyOrder<T(!new)>()
    ensures Sorting.TotalOrder(KeyLe<T>)
  {
    forall a: (string, T), b: (string, T) ensures KeyLe(a, b) || KeyLe(b, a) {
      StrLeTotal(a.0, b.0);
    }
    forall a: (string, T), b: (string, T), c: (string, T) | KeyLe(a, b) && KeyLe(b, c) ensures KeyLe(a, c) {
      StrLeTransitive(a.0, b.0, c.0);
    }
  }

  /** Sorting a sort changes nothing. */
  lemma {:induction false} SortTwice<T(!new)>(items: seq<(string, T)>)
    ensures SortByKey(SortByKey(items)) == SortByKey(items)
  {
    KeyOrder<T>();
    Sorting.SortSorts(items, KeyLe);
    Sorting.SortOfSorted(SortByKey(items), KeyLe);
  }

  /** The same keys in the same places, with values related by `related`. */
  ghost predicate Matched<A(!new), B(!new)>(
    xs: seq<(string, A)>, ys: seq<(string, B)>, related: (A, B) -> bool)
  {
    |xs| == |ys| && forall i :: 0 <= i < |xs| ==> xs[i].0 == ys[i].0 && related(xs[i].1, ys[i].1)
  }

  lemma {:induction false} InsertMatched<A(!new), B(!new)>(
    xs: seq<(string, A)>, ys: seq<(string, B)>, x: (string, A), y: (string, B), related: (A, B) -> bool)
    requires Matched(xs, ys, related) && x.0 == y.0 && related(x.1, y.1)
    ensures Matched(Sorting.Insert(xs, x, KeyLe), Sorting.Insert(ys, y, KeyLe), related)
  {
    if xs != [] && StrLe(xs[0].0, x.0) {
      InsertMatched(xs[1..], ys[1..], x, y, related);
    }
  }

  /** Sorting looks at keys alone, so related lists stay related. */
  lemma {:induction false} SortMatched<A(!new), B(!new)>(
    xs: seq<(string, A)>, ys: seq<(string, B)>, related: (A, B) -> bool)
    requires Matched(xs, ys, related)
    ensures Matched(SortByKey(xs), SortByKey(ys), related)
  {
    if xs != [] {
      var n := |xs| - 1;
      SortMatched(xs[..n], ys[..n], related);
      InsertMatched(SortByKey(xs[..n]), SortByKey(ys[..n]), xs[n], ys[n], related);
    }
  }

  lemma {:induction false} KeysSeparate<T(!new)>(items: seq<(string, T)>)
    requires DistinctKeys(items)
    ensures Sorting.Separates(multiset(items), KeyLe)
  {
    forall x, y | x in multiset(items) && y in multiset(items) && KeyLe(x, y) && KeyLe(y, x) ensures x == y {
      StrLeAntisymmetric(x.0, y.0);
      assert x in items && y in items;
    }
  }

  /** Two keyed lists, each with distinct keys, have the same sort exactly when they have the same members. */
  lemma {:induction false} SortIff<T(!new)>(xs: seq<(string, T)>, ys: seq<(string, T)>)
    requires DistinctKeys(xs)
    ensures SortByKey(xs) == SortByKey(ys) <==> |xs| == |ys| && forall x :: x in xs ==> x in ys
  {
    KeyOrder<T>();
    KeysSeparate(xs);
    Sorting.SortIff(xs, ys, KeyLe);
    if multiset(xs) == multiset(ys) {
      Sorting.DistinctByMultiset(xs, ys);
    } else if |xs| == |ys| && forall x :: x in xs ==> x in ys {
      Sorting.SameElements(xs, ys);
    }
  }
}
