/**
 Calibration of judge confidence: each item's weighted confidence, five bins, and the expected
 calibration error, over exact reals.
 */
module Calibration {
  import opened Common
  import opened Metrics

  // ----- weighted confidence -----

  type Weights = map<(int, string), real>

  /** `{(d.jd_id, d.id): d.weight for d in dimensions}`: the last dimension of a key wins. */
  function WeightsOf(dims: seq<Dimension>): Weights {
    if dims == [] then map[]
    else
      var d := dims[|dims| - 1];
      WeightsOf(dims[..|dims| - 1])[(d.jdId, d.id) := d.weight]
  }

  predicate IsUsable(confidence: Option<Reading>) {
    confidence.Some? && confidence.value.Finite? && 0.0 <= confidence.value.value <= 1.0
  }

  /** The weight an observation carries; nothing unless it is known, usable and positively weighted. */
  function WeightOf(jdId: int, o: Observation, weights: Weights): real {
    if (jdId, o.dimensionId) in weights && weights[(jdId, o.dimensionId)] > 0.0 && IsKnown(o) && IsUsable(o.confidence)
    then weights[(jdId, o.dimensionId)]
    else 0.0
  }

  function ConfidenceOf(o: Observation): real {
    if IsUsable(o.confidence) then o.confidence.value.value else 0.0
  }

  function TotalWeight(jdId: int, judge: seq<Observation>, weights: Weights): (w: real)
    ensures w >= 0.0
  {
    if judge == [] then 0.0
    else TotalWeight(jdId, judge[..|judge| - 1], weights) + WeightOf(jdId, judge[|judge| - 1], weights)
  }

  function WeightedSum(jdId: int, judge: seq<Observation>, weights: Weights): real {
    if judge == [] then 0.0
    else
      var o := judge[|judge| - 1];
      WeightedSum(jdId, judge[..|judge| - 1], weights) + ConfidenceOf(o) * WeightOf(jdId, o, weights)
  }

  /** The specification of `_weighted_confidence`. */
  function WeightedMean(item: Item, weights: Weights): Option<real> {
    var total := TotalWeight(item.jdId, item.judge, weights);
    if total == 0.0 then None else Some(WeightedSum(item.jdId, item.judge, weights) / total)
  }

  method WeightedConfidence(item: Item, weights: Weights) returns (r: Option<real>)
    ensures r == WeightedMean(item, weights)
  {
    var total, sum := 0.0, 0.0;
    for i := 0 to |item.judge|
      invariant total == TotalWeight(item.jdId, item.judge[..i], weights)
      invariant sum == WeightedSum(item.jdId, item.judge[..i], weights)
    {
      assert item.judge[..i + 1][..i] == item.judge[..i];
      var o := item.judge[i];
      if (item.jdId, o.dimensionId) !in weights || weights[(item.jdId, o.dimensionId)] <= 0.0 {
        continue;
      }
      if !IsKnown(o) || !IsUsable(o.confidence) {
        continue;
      }
      var weight := weights[(item.jdId, o.dimensionId)];
      total := total + weight;
      sum := sum + o.confidence.value.value * weight;
    }
    assert item.judge[..|item.judge|] == item.judge;
    if total == 0.0 {
      return None;
    }
    return Some(sum / total);
  }

  lemma {:induction false} TimesLe(a: real, b: real, w: real)
    requires a <= b && w >= 0.0
    ensures a * w <= b * w
  {
  }

  lemma {:induction false} Distribute(x: real, a: real, b: real)
    ensures x * (a + b) == x * a + x * b
  {
  }

  /** `sum` is at least `low` and at most `high` times `total`. */
  ghost predicate Between(low: real, high: real, total: real, sum: real) {
    low * total <= sum <= high * total
  }

  lemma {:induction false} StepBetween(low: real, high: real, total: real, sum: real, c: real, w: real, newTotal: real, newSum: real)
    requires Between(low, high, total, sum) && w >= 0.0 && (w > 0.0 ==> low <= c <= high)
    requires newTotal == total + w && newSum == sum + c * w
    ensures Between(low, high, newTotal, newSum)
  {
    Distribute(low, total, w);
    Distribute(high, total, w);
    if w > 0.0 {
      TimesLe(low, c, w);
      TimesLe(c, high, w);
    }
  }

  /** Every confidence that counts lies between the two. */
  ghost predicate CountedBetween(jdId: int, judge: seq<Observation>, weights: Weights, low: real, high: real) {
    forall i :: 0 <= i < |judge| && WeightOf(jdId, judge[i], weights) > 0.0 ==> low <= ConfidenceOf(judge[i]) <= high
  }

  lemma {:induction false} SumBetween(
    jdId: int, judge: seq<Observation>, weights: Weights, low: real, high: real, total: real, sum: real)
    requires CountedBetween(jdId, judge, weights, low, high)
    requires total == TotalWeight(jdId, judge, weights) && sum == WeightedSum(jdId, judge, weights)
    ensures Between(low, high, total, sum)
  {
    if judge != [] {
      var front, o := judge[..|judge| - 1], judge[|judge| - 1];
      var frontTotal, frontSum := TotalWeight(jdId, front, weights), WeightedSum(jdId, front, weights);
      assert CountedBetween(jdId, front, weights, low, high);
      SumBetween(jdId, front, weights, low, high, frontTotal, frontSum);
      StepBetween(low, high, frontTotal, frontSum, ConfidenceOf(o), WeightOf(jdId, o, weights), total, sum);
    }
  }

  lemma {:induction false} CancelLe(a: real, b: real, w: real)
    requires w > 0.0 && a * w <= b * w
    ensures a <= b
  {
    assert (b - a) * w >= 0.0;
  }

  lemma {:induction false} QuotientBetween(sum: real, total: real, low: real, high: real)
    requires total > 0.0 && low * total <= sum <= high * total
    ensures low <= sum / total <= high
  {
    var q := sum / total;
    assert q * total == sum;
    CancelLe(low, q, total);
    CancelLe(q, high, total);
  }

  /** The weighted confidence lies between the least and the greatest confidence that counts. */
  lemma {:induction false} MeanIsBetween(item: Item, weights: Weights, low: real, high: real)
    requires WeightedMean(item, weights).Some?
    requires CountedBetween(item.jdId, item.judge, weights, low, high)
    ensures low <= WeightedMean(item, weights).value <= high
  {
    var total, sum := TotalWeight(item.jdId, item.judge, weights), WeightedSum(item.jdId, item.judge, weights);
    SumBetween(item.jdId, item.judge, weights, low, high, total, sum);
    QuotientBetween(sum, total, low, high);
  }

  /** In particular it lies in [0, 1]. */
  lemma {:induction false} MeanInUnit(item: Item, weights: Weights)
    ensures WeightedMean(item, weights).Some? ==> 0.0 <= WeightedMean(item, weights).value <= 1.0
  {
    if WeightedMean(item, weights).Some? {
      MeanIsBetween(item, weights, 0.0, 1.0);
    }
  }

  // ----- bins -----

  const EDGES: seq<(real, real)> := [(0.0, 0.2), (0.2, 0.4), (0.4, 0.6), (0.6, 0.8), (0.8, 1.0)]

  /** The confidences of a bin; only the last holds its upper edge. */
  predicate InBin(c: real, b: nat)
    requires b < 5
  {
    EDGES[b].0 <= c && (c < EDGES[b].1 || (b == 4 && c == 1.0))
  }

  /** The bin a confidence falls in. */
  function BinOf(c: real): (b: nat)
    ensures b < 5
  {
    if c < 0.2 then 0 else if c < 0.4 then 1 else if c < 0.6 then 2 else if c < 0.8 then 3 else 4
  }

  /** `_bin_index`: the first bin whose upper edge is above, or the last. */
  method BinIndex(c: real) returns (b: nat)
    ensures b == BinOf(c)
  {
    for i := 0 to |EDGES|
      invariant forall j :: 0 <= j < i ==> c >= EDGES[j].1
    {
      if c < EDGES[i].1 {
        assert i > 0 ==> c >= EDGES[i - 1].1;
        return i;
      }
    }
    assert c >= EDGES[4].1;
    return |EDGES| - 1;
  }

  /** The bins partition [0, 1]. */
  lemma {:induction false} BinsPartition(c: real, b: nat)
    requires 0.0 <= c <= 1.0 && b < 5
    ensures InBin(c, b) <==> b == BinOf(c)
  {
  }

  // ----- the items of a bin -----

  /** An item's confidence and whether its decision was correct. */
  datatype Entry = Entry(confidence: real, correct: bool)

  predicate Scored(item: Item) {
    item.goldenLabel != Borderline && item.grade.Some? && item.reachedJudge
  }

  predicate Correct(item: Item)
    requires item.grade.Some?
  {
    PredictsAdvance(item.grade.value) == (item.goldenLabel == Advance)
  }

  function EntryOf(item: Item, weights: Weights): Option<Entry> {
    if !Scored(item) || WeightedMean(item, weights).None? then None
    else Some(Entry(WeightedMean(item, weights).value, Correct(item)))
  }

  /** The entries of bin `b`, in item order. */
  function Bucket(items: seq<Item>, weights: Weights, b: nat): seq<Entry> {
    if items == [] then []
    else
      var rest := Bucket(items[..|items| - 1], weights, b);
      var e := EntryOf(items[|items| - 1], weights);
      if e.Some? && BinOf(e.value.confidence) == b then rest + [e.value] else rest
  }

  function CountScored(items: seq<Item>): nat {
    if items == [] then 0
    else CountScored(items[..|items| - 1]) + if Scored(items[|items| - 1]) then 1 else 0
  }

  /** Scored items without a confidence. */
  function CountUnavailable(items: seq<Item>, weights: Weights): nat {
    if items == [] then 0
    else
      var item := items[|items| - 1];
      CountUnavailable(items[..|items| - 1], weights)
      + if Scored(item) && WeightedMean(item, weights).None? then 1 else 0
  }

  /** Every scored item is in exactly one bin or unavailable. */
  lemma {:induction false} BinsConserve(items: seq<Item>, weights: Weights)
    ensures |Bucket(items, weights, 0)| + |Bucket(items, weights, 1)| + |Bucket(items, weights, 2)|
          + |Bucket(items, weights, 3)| + |Bucket(items, weights, 4)| + CountUnavailable(items, weights)
         == CountScored(items)
  {
    if items != [] {
      BinsConserve(items[..|items| - 1], weights);
    }
  }

  lemma {:induction false} BucketInBin(items: seq<Item>, weights: Weights, b: nat)
    requires b < 5
    ensures forall i :: 0 <= i < |Bucket(items, weights, b)| ==>
              0.0 <= Bucket(items, weights, b)[i].confidence <= 1.0 && InBin(Bucket(items, weights, b)[i].confidence, b)
  {
    if items != [] {
      var item := items[|items| - 1];
      BucketInBin(items[..|items| - 1], weights, b);
      MeanInUnit(item, weights);
      if EntryOf(item, weights).Some? {
        BinsPartition(EntryOf(item, weights).value.confidence, b);
      }
    }
  }
}
