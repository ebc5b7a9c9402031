/**
 The content address of the golden set and the release fingerprint, as the texts that are
 hashed: each is decided by its inputs alone, whatever order they came in.
 */
module GoldenSet {
  import opened Common
  import opened Decimals
  import opened StringOrder
  import opened CanonicalJson
  import Sorting

  datatype GoldenRow = GoldenRow(jdId: int, candidateId: int, tag: string)

  /** The key order (jd_id, candidate_id, label), the label held in `tag`. */
  predicate RowLe(a: GoldenRow, b: GoldenRow) {
    if a.jdId != b.jdId then a.jdId < b.jdId
    else if a.candidateId != b.candidateId then a.candidateId < b.candidateId
    else StrLe(a.tag, b.tag)
  }

  function RowJson(row: GoldenRow): Json {
    List([Int(row.jdId), Int(row.candidateId), Text(row.tag)])
  }

  function RowList(rows: seq<GoldenRow>): Json {
    List(seq(|rows|, i requires 0 <= i < |rows| => RowJson(rows[i])))
  }

  /** The text `golden_content_hash` hashes. */
  function GoldenText(rows: seq<GoldenRow>): string {
    Print(RowList(Sorting.Sort(rows, RowLe)))
  }

  lemma {:induction false} RowOrder()
    ensures Sorting.TotalOrder(RowLe)
  {
    forall a, b ensures RowLe(a, b) || RowLe(b, a) {
      StrLeTotal(a.tag, b.tag);
    }
    forall a, b, c | RowLe(a, b) && RowLe(b, c) ensures RowLe(a, c) {
      if StrLe(a.tag, b.tag) && StrLe(b.tag, c.tag) {
        StrLeTransitive(a.tag, b.tag, c.tag);
      }
    }
  }

  lemma {:induction false} RowsSeparate(rows: multiset<GoldenRow>)
    ensures Sorting.Separates(rows, RowLe)
  {
    forall x, y | x in rows && y in rows && RowLe(x, y) && RowLe(y, x) ensures x == y {
      StrLeAntisymmetric(x.tag, y.tag);
    }
  }

  lemma {:induction false} SameInt(m: int, n: int)
    ensures Same(Int(m), Int(n)) <==> m == n
  {
    assert Pow10(0) == 1;
  }

  lemma {:induction false} SameRow(a: GoldenRow, b: GoldenRow)
    ensures Same(RowJson(a), RowJson(b)) <==> a == b
  {
    SameInt(a.jdId, b.jdId);
    SameInt(a.candidateId, b.candidateId);
    var xs, ys := RowJson(a).items, RowJson(b).items;
    assert xs[0] == Int(a.jdId) && xs[1] == Int(a.candidateId) && xs[2] == Text(a.tag);
    assert ys[0] == Int(b.jdId) && ys[1] == Int(b.candidateId) && ys[2] == Text(b.tag);
  }

  lemma {:induction false} SameRows(xs: seq<GoldenRow>, ys: seq<GoldenRow>)
    ensures Same(RowList(xs), RowList(ys)) <==> xs == ys
  {
    forall i | 0 <= i < |xs| && i < |ys|
      ensures Same(RowList(xs).items[i], RowList(ys).items[i]) <==> xs[i] == ys[i]
    {
      SameRow(xs[i], ys[i]);
    }
  }

  /** Two golden sets have the same text exactly when they hold the same rows, as often. */
  lemma {:induction false} GoldenTextIff(xs: seq<GoldenRow>, ys: seq<GoldenRow>)
    ensures GoldenText(xs) == GoldenText(ys) <==> multiset(xs) == multiset(ys)
  {
    var sx, sy := Sorting.Sort(xs, RowLe), Sorting.Sort(ys, RowLe);
    RowOrder();
    RowsSeparate(multiset(xs));
    Sorting.SortIff(xs, ys, RowLe);
    SameRows(sx, sy);
    TextIff(RowList(sx), RowList(sy));
  }

  // ----- the release fingerprint -----

  datatype Binding = Binding(jdId: int, jdCode: string, ruleVersionId: int)

  /** What a release is computed from, its window already written in UTC. */
  datatype Inputs = Inputs(
    goldenHash: string, bindings: seq<Binding>, windowStart: string, windowEnd: string, targets: Json)

  const METRIC_SCHEMA_VERSION := "wp7_v1"

  predicate BindingLe(a: Binding, b: Binding) {
    a.jdId <= b.jdId
  }

  function BindingJson(b: Binding): Json {
    Object([("jd_id", Int(b.jdId)), ("jd_code", Text(b.jdCode)), ("rule_version_id", Int(b.ruleVersionId))])
  }

  function BindingList(bindings: seq<Binding>): Json {
    List(seq(|bindings|, i requires 0 <= i < |bindings| => BindingJson(bindings[i])))
  }

  function Payload(inputs: Inputs): Json {
    Object([
      ("metric_schema_version", Text(METRIC_SCHEMA_VERSION)),
      ("golden_content_sha256", Text(inputs.goldenHash)),
      ("bindings", BindingList(Sorting.Sort(inputs.bindings, BindingLe))),
      ("window_start", Text(inputs.windowStart)),
      ("window_end", Text(inputs.windowEnd)),
      ("targets", inputs.targets)])
  }

  /** The text `input_fingerprint` hashes. */
  function FingerprintText(inputs: Inputs): string {
    Print(Payload(inputs))
  }

  /** Two dicts with the same keys in the same places are equal when their values are. */
  lemma {:induction false} SameAligned(a: seq<(string, Json)>, b: seq<(string, Json)>)
    requires DistinctKeys(a) && |a| == |b| && forall i :: 0 <= i < |a| ==> a[i].0 == b[i].0
    ensures Same(Object(a), Object(b)) <==> forall i :: 0 <= i < |a| ==> Same(a[i].1, b[i].1)
  {
    SameObject(Object(a), Object(b));
    if SameMembers(a, b) {
      forall i | 0 <= i < |a| ensures Same(a[i].1, b[i].1) {
        assert Holds(b, a[i]);
        var j :| 0 <= j < |b| && SameMember(a[i], b[j]);
        assert i == j;
      }
    }
    if forall i :: 0 <= i < |a| ==> Same(a[i].1, b[i].1) {
      forall i | 0 <= i < |a| ensures Holds(b, a[i]) {
        assert SameMember(a[i], b[i]);
      }
    }
  }

  lemma {:induction false} BindingKeys(b: Binding)
    ensures DistinctKeys(BindingJson(b).members) && WellFormed(BindingJson(b))
  {
    var ms := BindingJson(b).members;
    assert ms[0].0 == "jd_id" && ms[1].0 == "jd_code" && ms[2].0 == "rule_version_id";
    assert |ms[0].0| == 5 && |ms[1].0| == 7 && |ms[2].0| == 15;
    assert WellFormed(ms[0].1) && WellFormed(ms[1].1) && WellFormed(ms[2].1);
  }

  lemma {:induction false} SameBinding(a: Binding, b: Binding)
    ensures Same(BindingJson(a), BindingJson(b)) <==> a == b
  {
    var xs, ys := BindingJson(a).members, BindingJson(b).members;
    BindingKeys(a);
    SameInt(a.jdId, b.jdId);
    SameInt(a.ruleVersionId, b.ruleVersionId);
    SameAligned(xs, ys);
    assert xs[0].1 == Int(a.jdId) && xs[1].1 == Text(a.jdCode) && xs[2].1 == Int(a.ruleVersionId);
    assert ys[0].1 == Int(b.jdId) && ys[1].1 == Text(b.jdCode) && ys[2].1 == Int(b.ruleVersionId);
  }

  lemma {:induction false} SameBindings(xs: seq<Binding>, ys: seq<Binding>)
    ensures Same(BindingList(xs), BindingList(ys)) <==> xs == ys
    ensures WellFormed(BindingList(xs))
  {
    forall i | 0 <= i < |xs| && i < |ys|
      ensures Same(BindingList(xs).items[i], BindingList(ys).items[i]) <==> xs[i] == ys[i]
    {
      SameBinding(xs[i], ys[i]);
    }
    forall i | 0 <= i < |xs| ensures WellFormed(BindingJson(xs[i])) {
      BindingKeys(xs[i]);
    }
  }

  lemma {:induction false} PayloadKeys(inputs: Inputs)
    requires WellFormed(inputs.targets)
    ensures DistinctKeys(Payload(inputs).members) && WellFormed(Payload(inputs))
  {
    var ms := Payload(inputs).members;
    var sorted := Sorting.Sort(inputs.bindings, BindingLe);
    assert ms[0].0[0] == 'm' && ms[1].0[0] == 'g' && ms[2].0[0] == 'b' && ms[5].0[0] == 't';
    assert ms[3].0[0] == 'w' && ms[4].0[0] == 'w' && ms[3].0[7] == 's' && ms[4].0[7] == 'e';
    SameBindings(sorted, sorted);
    assert forall i :: 0 <= i < |ms| ==> WellFormed(ms[i].1);
  }

  /** Two releases have the same text exactly when their inputs agree, bindings in jd order. */
  lemma {:induction false} FingerprintIff(a: Inputs, b: Inputs)
    requires WellFormed(a.targets) && WellFormed(b.targets)
    ensures FingerprintText(a) == FingerprintText(b) <==>
              a.goldenHash == b.goldenHash && a.windowStart == b.windowStart && a.windowEnd == b.windowEnd
              && Sorting.Sort(a.bindings, BindingLe) == Sorting.Sort(b.bindings, BindingLe)
              && Same(a.targets, b.targets)
  {
    PayloadKeys(a);
    PayloadKeys(b);
    TextIff(Payload(a), Payload(b));
    PayloadSame(a, b);
  }

  lemma {:induction false} PayloadSame(a: Inputs, b: Inputs)
    requires DistinctKeys(Payload(a).members)
    ensures Same(Payload(a), Payload(b)) <==>
              a.goldenHash == b.goldenHash && a.windowStart == b.windowStart && a.windowEnd == b.windowEnd
              && Sorting.Sort(a.bindings, BindingLe) == Sorting.Sort(b.bindings, BindingLe)
              && Same(a.targets, b.targets)
  {
    var xs, ys := Payload(a).members, Payload(b).members;
    SameAligned(xs, ys);
    SixValues(xs, ys);
    ValuesSame(a, b);
  }

  lemma {:induction false} ValuesSame(a: Inputs, b: Inputs)
    ensures var xs, ys := Payload(a).members, Payload(b).members;
            && (Same(xs[0].1, ys[0].1))
            && (Same(xs[1].1, ys[1].1) <==> a.goldenHash == b.goldenHash)
            && (Same(xs[2].1, ys[2].1) <==> Sorting.Sort(a.bindings, BindingLe) == Sorting.Sort(b.bindings, BindingLe))
            && (Same(xs[3].1, ys[3].1) <==> a.windowStart == b.windowStart)
            && (Same(xs[4].1, ys[4].1) <==> a.windowEnd == b.windowEnd)
            && (Same(xs[5].1, ys[5].1) <==> Same(a.targets, b.targets))
  {
    SameText(METRIC_SCHEMA_VERSION, METRIC_SCHEMA_VERSION);
    SameText(a.goldenHash, b.goldenHash);
    SameBindings(Sorting.Sort(a.bindings, BindingLe), Sorting.Sort(b.bindings, BindingLe));
    SameText(a.windowStart, b.windowStart);
    SameText(a.windowEnd, b.windowEnd);
  }

  lemma {:induction false} SameText(s: string, t: string)
    ensures Same(Text(s), Text(t)) <==> s == t
  {
  }

  lemma {:induction false} SixValues(a: seq<(string, Json)>, b: seq<(string, Json)>)
    requires |a| == |b| == 6
    ensures (forall i :: 0 <= i < |a| ==> Same(a[i].1, b[i].1)) <==>
              Same(a[0].1, b[0].1) && Same(a[1].1, b[1].1) && Same(a[2].1, b[2].1)
              && Same(a[3].1, b[3].1) && Same(a[4].1, b[4].1) && Same(a[5].1, b[5].1)
  {
  }

  /** With one binding a jd, the order the bindings came in does not matter, and nothing else about them is lost. */
  lemma {:induction false} BindingsIff(xs: seq<Binding>, ys: seq<Binding>)
    requires forall x, y :: x in xs && y in xs && x.jdId == y.jdId ==> x == y
    ensures Sorting.Sort(xs, BindingLe) == Sorting.Sort(ys, BindingLe) <==> multiset(xs) == multiset(ys)
  {
    forall x, y | x in multiset(xs) && y in multiset(xs) && BindingLe(x, y) && BindingLe(y, x) ensures x == y {
      assert x in xs && y in xs;
    }
    Sorting.SortIff(xs, ys, BindingLe);
  }

  // ----- what the hashed texts say -----

  /** In the order jd, candidate, label. */
  predicate Before(a: GoldenRow, b: GoldenRow) {
    || a.jdId < b.jdId
    || (a.jdId == b.jdId && a.candidateId < b.candidateId)
    || (a.jdId == b.jdId && a.candidateId == b.candidateId && StrLe(a.tag, b.tag))
  }

  /** The golden text reads as the rows, each as jd, candidate and label, in that order. */
  lemma {:induction false} GoldenTextReads(rows: seq<GoldenRow>) returns (sorted: seq<GoldenRow>)
    ensures multiset(sorted) == multiset(rows)
    ensures forall i, j :: 0 <= i < j < |sorted| ==> Before(sorted[i], sorted[j])
    ensures Parse(GoldenText(rows))
            == Some(List(seq(|sorted|, i requires 0 <= i < |sorted| =>
                               List([Norm(Int(sorted[i].jdId)), Norm(Int(sorted[i].candidateId)), Text(sorted[i].tag)]))))
  {
    sorted := Sorting.Sort(rows, RowLe);
    RowOrder();
    Sorting.SortSorts(rows, RowLe);
    RoundTrip(RowList(sorted));
    forall i, j | 0 <= i < j < |sorted| ensures Before(sorted[i], sorted[j]) {
      assert RowLe(sorted[i], sorted[j]);
    }
    NormRows(sorted);
  }

  lemma {:induction false} NormRows(rows: seq<GoldenRow>)
    ensures Norm(RowList(rows))
            == List(seq(|rows|, i requires 0 <= i < |rows| =>
                          List([Norm(Int(rows[i].jdId)), Norm(Int(rows[i].candidateId)), Text(rows[i].tag)])))
  {
    forall i | 0 <= i < |rows|
      ensures Norm(RowJson(rows[i])) == List([Norm(Int(rows[i].jdId)), Norm(Int(rows[i].candidateId)), Text(rows[i].tag)])
    {
      var row := RowJson(rows[i]).items;
      assert seq(|row|, k requires 0 <= k < |row| => Norm(row[k]))
          == [Norm(Int(rows[i].jdId)), Norm(Int(rows[i].candidateId)), Text(rows[i].tag)];
    }
  }

  /** The fingerprint text reads as a dict of these six members, the bindings in jd order. */
  lemma {:induction false} FingerprintReads(inputs: Inputs) returns (read: seq<(string, Json)>, sorted: seq<Binding>)
    requires WellFormed(inputs.targets)
    ensures Parse(FingerprintText(inputs)) == Some(Object(read)) && |read| == 6
    ensures multiset(sorted) == multiset(inputs.bindings)
    ensures forall i, j :: 0 <= i < j < |sorted| ==> sorted[i].jdId <= sorted[j].jdId
    ensures ("metric_schema_version", Text("wp7_v1")) in read
    ensures ("golden_content_sha256", Text(inputs.goldenHash)) in read
    ensures ("bindings", Norm(BindingList(sorted))) in read
    ensures ("window_start", Text(inputs.windowStart)) in read && ("window_end", Text(inputs.windowEnd)) in read
    ensures ("targets", Norm(inputs.targets)) in read
  {
    sorted := Sorting.Sort(inputs.bindings, BindingLe);
    Sorting.SortSorts(inputs.bindings, BindingLe);
    forall i, j | 0 <= i < j < |sorted| ensures sorted[i].jdId <= sorted[j].jdId {
      assert BindingLe(sorted[i], sorted[j]);
    }
    PayloadKeys(inputs);
    read := KeysAscend(Payload(inputs).members);
    SixMembers(inputs, read, sorted);
  }

  lemma {:induction false} SixMembers(inputs: Inputs, read: seq<(string, Json)>, sorted: seq<Binding>)
    requires sorted == Sorting.Sort(inputs.bindings, BindingLe)
    requires var ms := Payload(inputs).members; forall i :: 0 <= i < |ms| ==> (ms[i].0, Norm(ms[i].1)) in read
    ensures ("metric_schema_version", Text("wp7_v1")) in read
    ensures ("golden_content_sha256", Text(inputs.goldenHash)) in read
    ensures ("bindings", Norm(BindingList(sorted))) in read
    ensures ("window_start", Text(inputs.windowStart)) in read && ("window_end", Text(inputs.windowEnd)) in read
    ensures ("targets", Norm(inputs.targets)) in read
  {
    var ms := Payload(inputs).members;
    assert (ms[0].0, Norm(ms[0].1)) in read && (ms[1].0, Norm(ms[1].1)) in read && (ms[2].0, Norm(ms[2].1)) in read;
    assert (ms[3].0, Norm(ms[3].1)) in read && (ms[4].0, Norm(ms[4].1)) in read && (ms[5].0, Norm(ms[5].1)) in read;
  }

  /** A binding reads as a dict of its three fields. */
  lemma {:induction false} BindingReads(b: Binding) returns (read: seq<(string, Json)>)
    ensures Norm(BindingJson(b)) == Object(read) && |read| == 3
    ensures ("jd_id", Norm(Int(b.jdId))) in read && ("jd_code", Text(b.jdCode)) in read
    ensures ("rule_version_id", Norm(Int(b.ruleVersionId))) in read
  {
    BindingKeys(b);
    var ms := BindingJson(b).members;
    read := NormKeysAscend(ms);
    assert (ms[0].0, Norm(ms[0].1)) in read && (ms[1].0, Norm(ms[1].1)) in read && (ms[2].0, Norm(ms[2].1)) in read;
  }
}
