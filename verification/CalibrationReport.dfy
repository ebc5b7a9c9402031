/** The calibration report: bins of means, accuracies and gaps, and the expected calibration error. */
module CalibrationReport {
  import opened Common
  import opened Metrics
  import opened Calibration

  function SumConfidence(entries: seq<Entry>): real {
    if entries == [] then 0.0
    else SumConfidence(entries[..|entries| - 1]) + entries[|entries| - 1].confidence
  }

  function CountCorrect(entries: seq<Entry>): (n: nat)
    ensures n <= |entries|
  {
    if entries == [] then 0
    else CountCorrect(entries[..|entries| - 1]) + if entries[|entries| - 1].correct then 1 else 0
  }

  datatype Bin = Bin(count: nat, mean: Option<real>, accuracy: Option<real>, gap: Option<real>)

  datatype Report = Report(available: nat, unavailable: nat, bins: seq<Bin>, ece: Option<real>)

  predicate Sufficient(count: nat, minimum: int) {
    count >= minimum && count > 0
  }

  /** One row of the report. */
  function BinRow(entries: seq<Entry>, minimum: int): Bin {
    var count := |entries|;
    if count == 0 then Bin(0, None, None, None)
    else
      var mean := SumConfidence(entries) / count as real;
      if !Sufficient(count, minimum) then Bin(count, Some(mean), None, None)
      else
        var accuracy := CountCorrect(entries) as real / count as real;
        Bin(count, Some(mean), Some(accuracy), Some(Abs(mean - accuracy)))
  }

  /** How many items the sufficient bins hold. */
  function SufficientTotal(bins: seq<Bin>): nat {
    if bins == [] then 0
    else
      var b := bins[|bins| - 1];
      SufficientTotal(bins[..|bins| - 1]) + if b.gap.Some? then b.count else 0
  }

  function EceSum(bins: seq<Bin>, total: nat): real
    requires total > 0
  {
    if bins == [] then 0.0
    else
      var b := bins[|bins| - 1];
      EceSum(bins[..|bins| - 1], total)
      + if b.gap.Some? then b.count as real / total as real * b.gap.value else 0.0
  }

  function Ece(bins: seq<Bin>): Option<real> {
    var total := SufficientTotal(bins);
    if total == 0 then None else Some(EceSum(bins, total))
  }

  function Buckets(items: seq<Item>, weights: Weights): seq<seq<Entry>> {
    seq(5, b requires 0 <= b < 5 => Bucket(items, weights, b))
  }

  function BinRows(buckets: seq<seq<Entry>>, minimum: int): seq<Bin> {
    seq(|buckets|, b requires 0 <= b < |buckets| => BinRow(buckets[b], minimum))
  }

  function Available(buckets: seq<seq<Entry>>): nat {
    if buckets == [] then 0 else Available(buckets[..|buckets| - 1]) + |buckets[|buckets| - 1]|
  }

  /** The specification of `confidence_metrics`. */
  function ReportOf(items: seq<Item>, dims: seq<Dimension>, minimum: int): Report {
    var weights := WeightsOf(dims);
    var bins := BinRows(Buckets(items, weights), minimum);
    Report(Available(Buckets(items, weights)), CountUnavailable(items, weights), bins, Ece(bins))
  }

  /** The first loop: each scored item goes to its bin, or is unavailable. */
  method FillBuckets(items: seq<Item>, weights: Weights) returns (buckets: seq<seq<Entry>>, unavailable: nat)
    ensures buckets == Buckets(items, weights) && unavailable == CountUnavailable(items, weights)
  {
    buckets, unavailable := [[], [], [], [], []], 0;
    for i := 0 to |items|
      invariant buckets == Buckets(items[..i], weights)
      invariant unavailable == CountUnavailable(items[..i], weights)
    {
      assert items[..i + 1][..i] == items[..i];
      var item := items[i];
      if item.goldenLabel == Borderline || item.grade.None? || !item.reachedJudge {
        continue;
      }
      var confidence := WeightedConfidence(item, weights);
      if confidence.None? {
        unavailable := unavailable + 1;
        continue;
      }
      var correct := PredictsAdvance(item.grade.value) == (item.goldenLabel == Advance);
      var b := BinIndex(confidence.value);
      buckets := buckets[b := buckets[b] + [Entry(confidence.value, correct)]];
    }
    assert items[..|items|] == items;
  }

  /** The second loop: one row a bin, and the error over the sufficient ones. */
  method ConfidenceMetrics(items: seq<Item>, dims: seq<Dimension>, minimum: int) returns (r: Report)
    ensures r == ReportOf(items, dims, minimum)
  {
    var buckets, unavailable := FillBuckets(items, WeightsOf(dims));
    var bins := [];
    var available, total := 0, 0;
    for b := 0 to |buckets|
      invariant bins == BinRows(buckets[..b], minimum)
      invariant available == Available(buckets[..b]) && total == SufficientTotal(bins)
    {
      assert buckets[..b + 1][..b] == buckets[..b];
      var row := BinRow(buckets[b], minimum);
      assert (bins + [row])[..b] == bins;
      bins := bins + [row];
      available := available + |buckets[b]|;
      if row.gap.Some? {
        total := total + row.count;
      }
    }
    assert buckets[..|buckets|] == buckets;
    var ece := None;
    if total > 0 {
      var sum := SumGaps(bins, total);
      ece := Some(sum);
    }
    r := Report(available, unavailable, bins, ece);
  }

  method SumGaps(bins: seq<Bin>, total: nat) returns (sum: real)
    requires total > 0
    ensures sum == EceSum(bins, total)
  {
    sum := 0.0;
    for i := 0 to |bins|
      invariant sum == EceSum(bins[..i], total)
    {
      assert bins[..i + 1][..i] == bins[..i];
      if bins[i].gap.Some? {
        sum := sum + bins[i].count as real / total as real * bins[i].gap.value;
      }
    }
    assert bins[..|bins|] == bins;
  }

  // ----- what a report promises -----

  /** Every scored item is available or unavailable, and no other item is counted. */
  lemma {:induction false} ReportConserves(items: seq<Item>, dims: seq<Dimension>, minimum: int)
    ensures var r := ReportOf(items, dims, minimum); r.available + r.unavailable == CountScored(items)
  {
    var weights := WeightsOf(dims);
    var bs := Buckets(items, weights);
    BinsConserve(items, weights);
    assert bs[..5] == bs;
    assert Available(bs[..0]) == 0;
    AvailableStep(bs, 0);
    AvailableStep(bs, 1);
    AvailableStep(bs, 2);
    AvailableStep(bs, 3);
    AvailableStep(bs, 4);
  }

  lemma {:induction false} AvailableStep(bs: seq<seq<Entry>>, i: nat)
    requires i < |bs|
    ensures Available(bs[..i + 1]) == Available(bs[..i]) + |bs[i]|
  {
    assert bs[..i + 1][..i] == bs[..i];
  }

  lemma {:induction false} SumOfEntries(entries: seq<Entry>, low: real, high: real, total: real, sum: real)
    requires forall i :: 0 <= i < |entries| ==> low <= entries[i].confidence <= high
    requires total == |entries| as real && sum == SumConfidence(entries)
    ensures Between(low, high, total, sum)
  {
    if entries != [] {
      var n := |entries| - 1;
      SumOfEntries(entries[..n], low, high, n as real, SumConfidence(entries[..n]));
      StepBetween(low, high, n as real, SumConfidence(entries[..n]), entries[n].confidence, 1.0, total, sum);
    }
  }

  lemma {:induction false} GreatestEntry(entries: seq<Entry>) returns (k: nat)
    requires entries != []
    ensures k < |entries| && forall i :: 0 <= i < |entries| ==> entries[i].confidence <= entries[k].confidence
  {
    var n := |entries| - 1;
    k := n;
    if n > 0 {
      var j := GreatestEntry(entries[..n]);
      assert forall i :: 0 <= i < n ==> entries[..n][i] == entries[i];
      if entries[n].confidence < entries[j].confidence {
        k := j;
      }
    }
  }

  lemma {:induction false} MeanOfEntries(entries: seq<Entry>, low: real, high: real)
    requires entries != [] && forall i :: 0 <= i < |entries| ==> low <= entries[i].confidence <= high
    ensures low <= SumConfidence(entries) / |entries| as real <= high
  {
    SumOfEntries(entries, low, high, |entries| as real, SumConfidence(entries));
    QuotientBetween(SumConfidence(entries), |entries| as real, low, high);
  }

  lemma {:induction false} BinIsConvex(b: nat, c: real, mean: real)
    requires b < 5 && InBin(c, b) && EDGES[b].0 <= mean <= c
    ensures InBin(mean, b)
  {
  }

  /** A bin's mean lies in the bin, its upper edge excluded except in the last one. */
  lemma {:induction false} MeanInBin(items: seq<Item>, weights: Weights, minimum: int, b: nat)
    requires b < 5 && Bucket(items, weights, b) != []
    ensures InBin(BinRow(Bucket(items, weights, b), minimum).mean.value, b)
  {
    var entries := Bucket(items, weights, b);
    BucketInBin(items, weights, b);
    var k := GreatestEntry(entries);
    MeanOfEntries(entries, EDGES[b].0, entries[k].confidence);
    BinIsConvex(b, entries[k].confidence, BinRow(entries, minimum).mean.value);
  }

  /** A gap is at most one: both the mean and the accuracy lie in [0, 1]. */
  lemma {:induction false} GapInUnit(items: seq<Item>, weights: Weights, minimum: int, b: nat)
    requires b < 5
    ensures var row := BinRow(Bucket(items, weights, b), minimum);
            row.gap.Some? ==> 0.0 <= row.gap.value <= 1.0 && 0.0 <= row.accuracy.value <= 1.0 && row.count > 0
  {
    var entries := Bucket(items, weights, b);
    if entries != [] {
      MeanInBin(items, weights, minimum, b);
      RatioInUnit(CountCorrect(entries), |entries|);
    }
  }

  function GapSum(bins: seq<Bin>): real {
    if bins == [] then 0.0
    else
      var b := bins[|bins| - 1];
      GapSum(bins[..|bins| - 1]) + if b.gap.Some? then b.gap.value * b.count as real else 0.0
  }

  ghost predicate GapsBetween(bins: seq<Bin>, low: real, high: real) {
    forall i :: 0 <= i < |bins| && bins[i].gap.Some? ==> low <= bins[i].gap.value <= high
  }

  lemma {:induction false} GapSumBetween(bins: seq<Bin>, low: real, high: real, total: real, sum: real)
    requires GapsBetween(bins, low, high) && total == SufficientTotal(bins) as real && sum == GapSum(bins)
    ensures Between(low, high, total, sum)
  {
    if bins != [] {
      var front, b := bins[..|bins| - 1], bins[|bins| - 1];
      var frontTotal, frontSum := SufficientTotal(front) as real, GapSum(front);
      GapSumBetween(front, low, high, frontTotal, frontSum);
      if b.gap.Some? {
        StepBetween(low, high, frontTotal, frontSum, b.gap.value, b.count as real, total, sum);
      }
    }
  }

  lemma {:induction false} ScaleStep(count: real, total: real, gap: real)
    requires total > 0.0
    ensures (count / total * gap) * total == gap * count
  {
    var q := count / total;
    assert q * total == count;
    assert (q * gap) * total == gap * (q * total);
  }

  lemma {:induction false} EceScaled(bins: seq<Bin>, total: nat)
    requires total > 0
    ensures EceSum(bins, total) * total as real == GapSum(bins)
  {
    if bins != [] {
      var front, b := bins[..|bins| - 1], bins[|bins| - 1];
      EceScaled(front, total);
      if b.gap.Some? {
        ScaleStep(b.count as real, total as real, b.gap.value);
        Distribute(total as real, EceSum(front, total), b.count as real / total as real * b.gap.value);
      }
    }
  }

  ghost predicate Scaled(mean: real, total: real, sum: real) {
    mean * total == sum
  }

  lemma {:induction false} FromScaled(low: real, high: real, total: real, sum: real, mean: real)
    requires Between(low, high, total, sum) && total > 0.0 && Scaled(mean, total, sum)
    ensures low <= mean <= high
  {
    CancelLe(low, mean, total);
    CancelLe(mean, high, total);
  }

  /** The error is a weighted mean of the gaps: between the least and the greatest of them. */
  lemma {:induction false} EceIsBetween(bins: seq<Bin>, low: real, high: real, ece: real)
    requires GapsBetween(bins, low, high) && Ece(bins) == Some(ece)
    ensures low <= ece <= high
  {
    var total, sum := SufficientTotal(bins) as real, GapSum(bins);
    GapSumBetween(bins, low, high, total, sum);
    EceTimes(bins, ece, total, sum);
    FromScaled(low, high, total, sum, ece);
  }

  lemma {:induction false} EceTimes(bins: seq<Bin>, ece: real, total: real, sum: real)
    requires Ece(bins) == Some(ece) && total == SufficientTotal(bins) as real && sum == GapSum(bins)
    ensures total > 0.0 && Scaled(ece, total, sum)
  {
    EceScaled(bins, SufficientTotal(bins));
  }

  /** The expected calibration error lies in [0, 1], and exists exactly when some bin is sufficient. */
  lemma {:induction false} EceInUnit(items: seq<Item>, dims: seq<Dimension>, minimum: int)
    ensures var r := ReportOf(items, dims, minimum);
            (r.ece.Some? ==> 0.0 <= r.ece.value <= 1.0)
            && (r.ece.Some? <==> exists b :: 0 <= b < |r.bins| && r.bins[b].gap.Some?)
  {
    var weights := WeightsOf(dims);
    var bins := BinRows(Buckets(items, weights), minimum);
    forall b | 0 <= b < |bins| && bins[b].gap.Some? ensures 0.0 <= bins[b].gap.value <= 1.0 && bins[b].count > 0 {
      GapInUnit(items, weights, minimum, b);
    }
    SomeSufficient(bins);
    if Ece(bins).Some? {
      EceIsBetween(bins, 0.0, 1.0, Ece(bins).value);
    }
  }

  lemma {:induction false} SomeSufficient(bins: seq<Bin>)
    requires forall b :: 0 <= b < |bins| && bins[b].gap.Some? ==> bins[b].count > 0
    ensures SufficientTotal(bins) > 0 <==> exists b :: 0 <= b < |bins| && bins[b].gap.Some?
  {
    if bins != [] {
      var front := bins[..|bins| - 1];
      SomeSufficient(front);
      if exists b :: 0 <= b < |bins| && bins[b].gap.Some? {
        var b :| 0 <= b < |bins| && bins[b].gap.Some?;
        if b < |front| {
          assert front[b].gap.Some?;
        }
      }
    }
  }
}
