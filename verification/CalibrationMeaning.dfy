/**
 What the calibration report and the coverage counts count, in the fields of the items: which
 decisions are right, which observations weigh, what a bin's row says and what the error sums.
 */
module CalibrationMeaning {
  import opened Common
  import opened Metrics
  import opened Calibration
  import opened CalibrationReport

  // ----- numbers of items -----

  /** The places of a list at which `wanted` holds. */
  function Places<T>(items: seq<T>, wanted: T -> bool): set<int> {
    set i | 0 <= i < |items| && wanted(items[i])
  }

  lemma {:induction false} PlacesSnoc<T>(items: seq<T>, wanted: T -> bool)
    requires items != []
    ensures var n := |items| - 1;
            |Places(items, wanted)| == |Places(items[..n], wanted)| + (if wanted(items[n]) then 1 else 0)
  {
    var n := |items| - 1;
    if wanted(items[n]) {
      assert Places(items, wanted) == Places(items[..n], wanted) + {n};
    } else {
      assert Places(items, wanted) == Places(items[..n], wanted);
    }
  }

  // ----- classification -----

  lemma {:induction false} CountOfKind(items: seq<Item>, kind: Kind, wanted: Item -> bool)
    requires forall item :: wanted(item) <==> KindOf(item) == kind
    ensures Count(items, kind) == |Places(items, wanted)|
  {
    if items == [] {
      assert Places(items, wanted) == {};
    } else {
      CountOfKind(items[..|items| - 1], kind, wanted);
      PlacesSnoc(items, wanted);
    }
  }

  /** The four decided counts and the two others, over the grades and the labels themselves. */
  lemma {:induction false} KindsAreCounted(items: seq<Item>)
    ensures Count(items, TruePositive)
            == |Places(items, (item: Item) => item.goldenLabel == Advance && item.grade.Some? && item.grade.value != "rejected")|
    ensures Count(items, FalseNegative)
            == |Places(items, (item: Item) => item.goldenLabel == Advance && item.grade == Some("rejected"))|
    ensures Count(items, FalsePositive)
            == |Places(items, (item: Item) => item.goldenLabel == Reject && item.grade.Some? && item.grade.value != "rejected")|
    ensures Count(items, TrueNegative)
            == |Places(items, (item: Item) => item.goldenLabel == Reject && item.grade == Some("rejected"))|
    ensures Count(items, Excluded) == |Places(items, (item: Item) => item.goldenLabel == Borderline && item.grade.Some?)|
    ensures Count(items, Uncovered) == |Places(items, (item: Item) => item.grade.None?)|
  {
    CountOfKind(items, TruePositive,
                (item: Item) => item.goldenLabel == Advance && item.grade.Some? && item.grade.value != "rejected");
    CountOfKind(items, FalseNegative, (item: Item) => item.goldenLabel == Advance && item.grade == Some("rejected"));
    CountOfKind(items, FalsePositive,
                (item: Item) => item.goldenLabel == Reject && item.grade.Some? && item.grade.value != "rejected");
    CountOfKind(items, TrueNegative, (item: Item) => item.goldenLabel == Reject && item.grade == Some("rejected"));
    CountOfKind(items, Excluded, (item: Item) => item.goldenLabel == Borderline && item.grade.Some?);
    CountOfKind(items, Uncovered, (item: Item) => item.grade.None?);
  }

  // ----- right decisions -----

  /** The judge saw the item, it was graded, its label is a decision, and its confidence is known. */
  predicate IsAvailable(item: Item, weights: Weights) {
    && item.reachedJudge && item.grade.Some? && item.goldenLabel in {Advance, Reject}
    && WeightedMean(item, weights).Some?
  }

  /** The decision was right: not rejected and to be advanced, or rejected and to be rejected. */
  predicate IsRight(item: Item) {
    item.grade.Some? && (item.grade.value != "rejected" <==> item.goldenLabel == Advance)
  }

  /** Five bins a fifth wide, each with its lower edge; the last has its upper edge too. */
  lemma {:induction false} BinIsFifth(c: real, b: nat)
    requires b < 5
    ensures InBin(c, b) <==> b as real <= 5.0 * c && (5.0 * c < b as real + 1.0 || (b == 4 && c == 1.0))
  {
  }

  /** The item is available, and its confidence lies between the edges of the bin. */
  predicate HeldIn(item: Item, weights: Weights, b: nat)
    requires b < 5
  {
    IsAvailable(item, weights) && InBin(WeightedMean(item, weights).value, b)
  }

  function InEdges(weights: Weights, b: nat): Item -> bool
    requires b < 5
  {
    (item: Item) => HeldIn(item, weights, b)
  }

  function RightInEdges(weights: Weights, b: nat): Item -> bool
    requires b < 5
  {
    (item: Item) => HeldIn(item, weights, b) && IsRight(item)
  }

  lemma {:induction false} EntryIs(item: Item, weights: Weights, b: nat)
    requires b < 5
    ensures EntryOf(item, weights).Some? <==> IsAvailable(item, weights)
    ensures IsAvailable(item, weights) ==>
              EntryOf(item, weights).value == Entry(WeightedMean(item, weights).value, IsRight(item))
              && (BinOf(WeightedMean(item, weights).value) == b <==> InBin(WeightedMean(item, weights).value, b))
  {
    MeanInUnit(item, weights);
    if IsAvailable(item, weights) {
      BinsPartition(WeightedMean(item, weights).value, b);
    }
  }

  /** A bin holds the available items between its edges, and counts those decided right. */
  lemma {:induction false} BucketCounts(items: seq<Item>, weights: Weights, b: nat)
    requires b < 5
    ensures |Bucket(items, weights, b)| == |Places(items, InEdges(weights, b))|
    ensures CountCorrect(Bucket(items, weights, b)) == |Places(items, RightInEdges(weights, b))|
  {
    if items == [] {
      assert Places(items, InEdges(weights, b)) == {} && Places(items, RightInEdges(weights, b)) == {};
    } else {
      var n := |items| - 1;
      BucketCounts(items[..n], weights, b);
      PlacesSnoc(items, InEdges(weights, b));
      PlacesSnoc(items, RightInEdges(weights, b));
      EntryIs(items[n], weights, b);
      if HeldIn(items[n], weights, b) {
        CorrectSnoc(Bucket(items[..n], weights, b), EntryOf(items[n], weights).value);
      }
    }
  }

  lemma {:induction false} CorrectSnoc(entries: seq<Entry>, e: Entry)
    ensures CountCorrect(entries + [e]) == CountCorrect(entries) + (if e.correct then 1 else 0)
  {
    assert (entries + [e])[..|entries|] == entries;
  }

  lemma {:induction false} CorrectStep(items: seq<Item>, weights: Weights, b: nat)
    requires items != [] && b < 5
    ensures var last := items[|items| - 1];
            CountCorrect(Bucket(items, weights, b))
            == CountCorrect(Bucket(items[..|items| - 1], weights, b)) + (if HeldIn(last, weights, b) && IsRight(last) then 1 else 0)
  {
    var n := |items| - 1;
    EntryIs(items[n], weights, b);
    if HeldIn(items[n], weights, b) {
      CorrectSnoc(Bucket(items[..n], weights, b), EntryOf(items[n], weights).value);
    }
  }

  /** One bin, when there is any. */
  function Once(item: Item, weights: Weights, b: nat): nat
    requires b < 5
  {
    if HeldIn(item, weights, b) && IsRight(item) then 1 else 0
  }

  function Hit(wanted: bool, place: nat, b: nat): nat {
    if wanted && place == b then 1 else 0
  }

  lemma {:induction false} HitsOnce(wanted: bool, place: nat)
    requires place < 5
    ensures Hit(wanted, place, 0) + Hit(wanted, place, 1) + Hit(wanted, place, 2) + Hit(wanted, place, 3) + Hit(wanted, place, 4)
            == if wanted then 1 else 0
  {
  }

  lemma {:induction false} OnceIs(item: Item, weights: Weights, b: nat, place: nat)
    requires b < 5 && (IsAvailable(item, weights) ==> place == BinOf(WeightedMean(item, weights).value))
    ensures Once(item, weights, b) == Hit(IsAvailable(item, weights) && IsRight(item), place, b)
  {
    EntryIs(item, weights, b);
  }

  lemma {:induction false} InOneBin(item: Item, weights: Weights)
    ensures Once(item, weights, 0) + Once(item, weights, 1) + Once(item, weights, 2) + Once(item, weights, 3) + Once(item, weights, 4)
            == if IsAvailable(item, weights) && IsRight(item) then 1 else 0
  {
    var place := if IsAvailable(item, weights) then BinOf(WeightedMean(item, weights).value) else 0;
    OnceIs(item, weights, 0, place);
    OnceIs(item, weights, 1, place);
    OnceIs(item, weights, 2, place);
    OnceIs(item, weights, 3, place);
    OnceIs(item, weights, 4, place);
    HitsOnce(IsAvailable(item, weights) && IsRight(item), place);
  }

  /** Over the five bins: the correct entries are the available items that were decided right. */
  lemma {:induction false} CorrectAreRight(items: seq<Item>, weights: Weights, right: Item -> bool)
    requires forall item :: right(item) <==> IsAvailable(item, weights) && IsRight(item)
    ensures CountCorrect(Bucket(items, weights, 0)) + CountCorrect(Bucket(items, weights, 1))
            + CountCorrect(Bucket(items, weights, 2)) + CountCorrect(Bucket(items, weights, 3))
            + CountCorrect(Bucket(items, weights, 4))
            == |Places(items, right)|
  {
    if items == [] {
      assert Places(items, right) == {};
    } else {
      var n := |items| - 1;
      CorrectAreRight(items[..n], weights, right);
      PlacesSnoc(items, right);
      CorrectStep(items, weights, 0);
      CorrectStep(items, weights, 1);
      CorrectStep(items, weights, 2);
      CorrectStep(items, weights, 3);
      CorrectStep(items, weights, 4);
      InOneBin(items[n], weights);
    }
  }

  /** The right ones among the available items are the true positives and the true negatives among them. */
  lemma {:induction false} RightIsTrue(item: Item, weights: Weights)
    requires IsAvailable(item, weights)
    ensures IsRight(item) <==> KindOf(item) == TruePositive || KindOf(item) == TrueNegative
  {
  }

  /**
   What a row of the report says, in whole numbers: how many available items lie between its
   edges, and, when they are enough, that accuracy times count is how many of them were decided
   right, and that the gap is the distance of the mean and the accuracy.
   */
  ghost predicate Says(row: Bin, items: seq<Item>, weights: Weights, minimum: int, b: nat)
    requires b < 5
  {
    && row.count == |Places(items, InEdges(weights, b))|
    && (row.mean.Some? <==> row.count > 0)
    && (row.accuracy.Some? <==> row.count > 0 && row.count >= minimum)
    && (row.gap.Some? <==> row.accuracy.Some?)
    && (row.accuracy.Some? ==>
          row.accuracy.value * row.count as real == |Places(items, RightInEdges(weights, b))| as real)
    && (row.gap.Some? ==>
          && row.gap.value >= 0.0
          && (|| row.gap.value == row.mean.value - row.accuracy.value
              || row.gap.value == row.accuracy.value - row.mean.value))
  }

  lemma {:induction false} RowRatio(entries: seq<Entry>, minimum: int, row: Bin)
    requires row == BinRow(entries, minimum)
    ensures row.accuracy.Some? ==> row.accuracy.value * row.count as real == CountCorrect(entries) as real
  {
  }

  lemma {:induction false} RowShape(entries: seq<Entry>, minimum: int, row: Bin)
    requires row == BinRow(entries, minimum)
    ensures row.count == |entries| && (row.mean.Some? <==> row.count > 0)
    ensures row.accuracy.Some? <==> row.count > 0 && row.count >= minimum
    ensures row.gap.Some? <==> row.accuracy.Some?
    ensures row.gap.Some? ==> row.gap.value >= 0.0
    ensures row.gap.Some? ==> || row.gap.value == row.mean.value - row.accuracy.value
                              || row.gap.value == row.accuracy.value - row.mean.value
  {
  }

  lemma {:induction false} RowSays(items: seq<Item>, weights: Weights, minimum: int, b: nat, entries: seq<Entry>, row: Bin)
    requires b < 5 && row == BinRow(entries, minimum)
    requires |entries| == |Places(items, InEdges(weights, b))|
    requires CountCorrect(entries) == |Places(items, RightInEdges(weights, b))|
    ensures Says(row, items, weights, minimum, b)
  {
    RowShape(entries, minimum, row);
    RowRatio(entries, minimum, row);
  }

  lemma {:induction false} ReportRow(items: seq<Item>, dims: seq<Dimension>, minimum: int, b: nat)
    requires b < 5
    ensures |ReportOf(items, dims, minimum).bins| == 5
    ensures ReportOf(items, dims, minimum).bins[b] == BinRow(Bucket(items, WeightsOf(dims), b), minimum)
  {
  }

  lemma {:induction false} BinSays(items: seq<Item>, dims: seq<Dimension>, minimum: int, b: nat)
    requires b < 5
    ensures |ReportOf(items, dims, minimum).bins| == 5
    ensures Says(ReportOf(items, dims, minimum).bins[b], items, WeightsOf(dims), minimum, b)
  {
    ReportRow(items, dims, minimum, b);
    BucketCounts(items, WeightsOf(dims), b);
    RowSays(items, WeightsOf(dims), minimum, b, Bucket(items, WeightsOf(dims), b),
            BinRow(Bucket(items, WeightsOf(dims), b), minimum));
  }

  lemma {:induction false} AccuracyEnds(accuracy: real, count: nat, right: nat)
    requires count > 0 && accuracy * count as real == right as real
    ensures right == count ==> accuracy == 1.0
    ensures right == 0 ==> accuracy == 0.0
  {
    var c := count as real;
    if right == count {
      CancelLe(accuracy, 1.0, c);
      CancelLe(1.0, accuracy, c);
    }
    if right == 0 {
      assert 0.0 * c == 0.0;
      CancelLe(accuracy, 0.0, c);
      CancelLe(0.0, accuracy, c);
    }
  }

  lemma {:induction false} PlacesAgree<T>(items: seq<T>, all: T -> bool, some: T -> bool)
    requires forall i :: 0 <= i < |items| && some(items[i]) ==> all(items[i])
    ensures (forall i :: 0 <= i < |items| && all(items[i]) ==> some(items[i])) ==> |Places(items, some)| == |Places(items, all)|
    ensures (forall i :: 0 <= i < |items| && all(items[i]) ==> !some(items[i])) ==> |Places(items, some)| == 0
  {
    if forall i :: 0 <= i < |items| && all(items[i]) ==> some(items[i]) {
      assert Places(items, some) == Places(items, all);
    }
    if forall i :: 0 <= i < |items| && all(items[i]) ==> !some(items[i]) {
      assert Places(items, some) == {};
    }
  }

  /** A bin whose decisions are all right has accuracy one, one whose decisions are all wrong zero. */
  lemma {:induction false} AllRight(items: seq<Item>, weights: Weights, minimum: int, b: nat, row: Bin)
    requires b < 5 && Says(row, items, weights, minimum, b) && row.accuracy.Some?
    ensures (forall i :: 0 <= i < |items| && HeldIn(items[i], weights, b) ==> IsRight(items[i])) ==> row.accuracy.value == 1.0
    ensures (forall i :: 0 <= i < |items| && HeldIn(items[i], weights, b) ==> !IsRight(items[i])) ==> row.accuracy.value == 0.0
  {
    PlacesAgree(items, InEdges(weights, b), RightInEdges(weights, b));
    AccuracyEnds(row.accuracy.value, row.count, |Places(items, RightInEdges(weights, b))|);
  }

  /** The judge saw the item, it was graded, and its label is a decision. */
  predicate IsJudged(item: Item) {
    item.reachedJudge && item.grade.Some? && item.goldenLabel in {Advance, Reject}
  }

  lemma {:induction false} JudgedAre(items: seq<Item>, weights: Weights, without: Item -> bool)
    requires forall item :: without(item) <==> IsJudged(item) && WeightedMean(item, weights).None?
    ensures CountScored(items) == |Places(items, IsJudged)|
    ensures CountUnavailable(items, weights) == |Places(items, without)|
  {
    if items == [] {
      assert Places(items, IsJudged) == {} && Places(items, without) == {};
    } else {
      JudgedAre(items[..|items| - 1], weights, without);
      PlacesSnoc(items, IsJudged);
      PlacesSnoc(items, without);
    }
  }

  /** The report counts as unavailable the judged items without a confidence, and as available the others. */
  lemma {:induction false} AvailableAre(items: seq<Item>, dims: seq<Dimension>, minimum: int, without: Item -> bool)
    requires forall item :: without(item) <==> IsJudged(item) && WeightedMean(item, WeightsOf(dims)).None?
    ensures ReportOf(items, dims, minimum).unavailable == |Places(items, without)|
    ensures ReportOf(items, dims, minimum).available == |Places(items, IsJudged)| - |Places(items, without)|
  {
    JudgedAre(items, WeightsOf(dims), without);
    ReportConserves(items, dims, minimum);
    ReportUnavailable(items, dims, minimum);
  }

  lemma {:induction false} ReportUnavailable(items: seq<Item>, dims: seq<Dimension>, minimum: int)
    ensures ReportOf(items, dims, minimum).unavailable == CountUnavailable(items, WeightsOf(dims))
  {
  }

  // ----- means -----

  /** The sum behind a bin's mean is that of its entries. */
  lemma {:induction false} ConfidencesAdd(xs: seq<Entry>, ys: seq<Entry>, e: Entry)
    ensures SumConfidence(xs + ys) == SumConfidence(xs) + SumConfidence(ys)
    ensures SumConfidence([e]) == e.confidence && SumConfidence([]) == 0.0
  {
    assert [e][..0] == [];
    if ys == [] {
      assert xs + ys == xs;
    } else {
      var n := |ys| - 1;
      ConfidencesAdd(xs, ys[..n], e);
      assert (xs + ys)[..|xs| + n] == xs + ys[..n];
    }
  }

  lemma {:induction false} MeanTimesCount(entries: seq<Entry>, minimum: int)
    requires entries != []
    ensures var row := BinRow(entries, minimum);
            row.mean.Some? && row.mean.value * row.count as real == SumConfidence(entries)
  {
  }

  // ----- the observations that weigh -----

  /** Known, with a usable confidence, of a dimension of positive weight. */
  predicate Weighs(jdId: int, o: Observation, weights: Weights) {
    && (jdId, o.dimensionId) in weights && weights[(jdId, o.dimensionId)] > 0.0
    && o.tier != "unknown" && o.score.Some?
    && o.confidence.Some? && o.confidence.value.Finite? && 0.0 <= o.confidence.value.value <= 1.0
  }

  /** One observation adds its weight, and its confidence as often, when it weighs, and nothing otherwise. */
  lemma {:induction false} ObservationAdds(jdId: int, judge: seq<Observation>, o: Observation, weights: Weights)
    ensures TotalWeight(jdId, [], weights) == 0.0 && WeightedSum(jdId, [], weights) == 0.0
    ensures TotalWeight(jdId, judge + [o], weights)
            == TotalWeight(jdId, judge, weights) + (if Weighs(jdId, o, weights) then weights[(jdId, o.dimensionId)] else 0.0)
    ensures WeightedSum(jdId, judge + [o], weights)
            == WeightedSum(jdId, judge, weights)
               + (if Weighs(jdId, o, weights) then o.confidence.value.value * weights[(jdId, o.dimensionId)] else 0.0)
  {
    assert (judge + [o])[..|judge|] == judge;
  }

  lemma {:induction false} SomeWeighs(jdId: int, judge: seq<Observation>, weights: Weights)
    ensures TotalWeight(jdId, judge, weights) > 0.0 <==> exists i :: 0 <= i < |judge| && Weighs(jdId, judge[i], weights)
  {
    if judge != [] {
      var n := |judge| - 1;
      SomeWeighs(jdId, judge[..n], weights);
      ObservationAdds(jdId, judge[..n], judge[n], weights);
      assert judge[..n] + [judge[n]] == judge;
    }
  }

  /** An item has a confidence exactly when some observation weighs, and it is then their weighted mean. */
  lemma {:induction false} ConfidenceIff(item: Item, weights: Weights)
    ensures WeightedMean(item, weights).Some? <==>
              exists i :: 0 <= i < |item.judge| && Weighs(item.jdId, item.judge[i], weights)
    ensures WeightedMean(item, weights).Some? ==>
              WeightedMean(item, weights).value * TotalWeight(item.jdId, item.judge, weights)
              == WeightedSum(item.jdId, item.judge, weights)
  {
    SomeWeighs(item.jdId, item.judge, weights);
  }

  /** The last dimension of a key. */
  ghost predicate IsLastDimension(dims: seq<Dimension>, jdId: int, id: string, k: int) {
    && 0 <= k < |dims| && dims[k].jdId == jdId && dims[k].id == id
    && forall j :: k < j < |dims| ==> dims[j].jdId != jdId || dims[j].id != id
  }

  /** The weight of a key is that of the last dimension that has it. */
  lemma {:induction false} WeightIsLast(dims: seq<Dimension>, jdId: int, id: string)
    ensures if (jdId, id) in WeightsOf(dims)
            then exists k :: IsLastDimension(dims, jdId, id, k) && dims[k].weight == WeightsOf(dims)[(jdId, id)]
            else forall i :: 0 <= i < |dims| ==> dims[i].jdId != jdId || dims[i].id != id
  {
    if dims != [] {
      var n := |dims| - 1;
      var front := dims[..n];
      WeightIsLast(front, jdId, id);
      if dims[n].jdId == jdId && dims[n].id == id {
        assert IsLastDimension(dims, jdId, id, n);
      } else if (jdId, id) in WeightsOf(front) {
        var k :| IsLastDimension(front, jdId, id, k) && front[k].weight == WeightsOf(front)[(jdId, id)];
        assert forall j :: 0 <= j < n ==> front[j] == dims[j];
        assert IsLastDimension(dims, jdId, id, k);
      } else {
        assert forall j :: 0 <= j < n ==> front[j] == dims[j];
      }
    }
  }

  // ----- the calibration error -----

  /** The items of a bin that are enough to judge. */
  function Enough(b: Bin): nat {
    if b.gap.Some? then b.count else 0
  }

  /** The gap of such a bin, as often as it has items. */
  function Share(b: Bin): real {
    if b.gap.Some? then b.gap.value * b.count as real else 0.0
  }

  lemma {:induction false} TotalsAt(bins: seq<Bin>, i: nat)
    requires i < |bins|
    ensures SufficientTotal(bins[..i + 1]) == SufficientTotal(bins[..i]) + Enough(bins[i])
    ensures GapSum(bins[..i + 1]) == GapSum(bins[..i]) + Share(bins[i])
  {
    assert bins[..i + 1][..i] == bins[..i];
  }

  lemma {:induction false} FiveTotals(bins: seq<Bin>)
    requires |bins| == 5
    ensures SufficientTotal(bins) == Enough(bins[0]) + Enough(bins[1]) + Enough(bins[2]) + Enough(bins[3]) + Enough(bins[4])
    ensures GapSum(bins) == Share(bins[0]) + Share(bins[1]) + Share(bins[2]) + Share(bins[3]) + Share(bins[4])
  {
    assert bins[..0] == [] && bins[..5] == bins;
    TotalsAt(bins, 0);
    TotalsAt(bins, 1);
    TotalsAt(bins, 2);
    TotalsAt(bins, 3);
    TotalsAt(bins, 4);
  }

  /** The error of five bins times the items judged is the sum of each gap as often as its bin has items. */
  lemma {:induction false} ErrorOfFive(bins: seq<Bin>, total: real, shares: real)
    requires |bins| == 5
    requires total == (Enough(bins[0]) + Enough(bins[1]) + Enough(bins[2]) + Enough(bins[3]) + Enough(bins[4])) as real
    requires shares == Share(bins[0]) + Share(bins[1]) + Share(bins[2]) + Share(bins[3]) + Share(bins[4])
    ensures Ece(bins).Some? <==> total > 0.0
    ensures Ece(bins).Some? ==> Ece(bins).value * total == shares
  {
    FiveTotals(bins);
    if Ece(bins).Some? {
      EceTimes(bins, Ece(bins).value, total, shares);
    }
  }

  /** The report's error is that of its bins. */
  lemma {:induction false} ReportError(items: seq<Item>, dims: seq<Dimension>, minimum: int)
    ensures ReportOf(items, dims, minimum).ece == Ece(ReportOf(items, dims, minimum).bins)
  {
  }

  // ----- evidence -----

  /** The last observation of an id. */
  ghost predicate IsLastOf(judge: seq<Observation>, id: string, k: int) {
    0 <= k < |judge| && judge[k].dimensionId == id && forall j :: k < j < |judge| ==> judge[j].dimensionId != id
  }

  /** A dimension is covered exactly when its last observation is known and has validated evidence. */
  lemma {:induction false} CoversIff(item: Item, d: Dimension)
    ensures Covers(item, d) <==>
              exists k :: IsLastOf(item.judge, d.id, k) && item.judge[k].tier != "unknown" && item.judge[k].score.Some?
                          && item.judge[k].hasEvidence
  {
    LastIs(item.judge, d.id);
  }

  lemma {:induction false} LastIs(judge: seq<Observation>, id: string)
    ensures LastObservation(judge, id).None? ==> forall k :: 0 <= k < |judge| ==> judge[k].dimensionId != id
    ensures LastObservation(judge, id).Some? ==>
              exists k :: IsLastOf(judge, id, k) && judge[k] == LastObservation(judge, id).value
    ensures forall k, l :: IsLastOf(judge, id, k) && IsLastOf(judge, id, l) ==> k == l
  {
    if judge != [] {
      var n := |judge| - 1;
      LastIs(judge[..n], id);
      if judge[n].dimensionId == id {
        assert IsLastOf(judge, id, n);
      } else {
        assert forall k :: 0 <= k < n ==> judge[..n][k] == judge[k];
        if LastObservation(judge[..n], id).Some? {
          var k :| IsLastOf(judge[..n], id, k) && judge[..n][k] == LastObservation(judge[..n], id).value;
          assert IsLastOf(judge, id, k);
        }
      }
    }
  }

  lemma {:induction false} ExpectedIs(item: Item, dims: seq<Dimension>)
    ensures Expected(item, dims) == |Places(dims, (d: Dimension) => d.jdId == item.jdId)|
    ensures Covered(item, dims) == |Places(dims, (d: Dimension) => d.jdId == item.jdId && Covers(item, d))|
  {
    var own := (d: Dimension) => d.jdId == item.jdId;
    var covered := (d: Dimension) => d.jdId == item.jdId && Covers(item, d);
    if dims == [] {
      assert Places(dims, own) == {} && Places(dims, covered) == {};
    } else {
      ExpectedIs(item, dims[..|dims| - 1]);
      PlacesSnoc(dims, own);
      PlacesSnoc(dims, covered);
    }
  }

  /** An item adds its own dimensions to what is expected, and those it covers, when the judge saw it. */
  lemma {:induction false} ItemExpects(items: seq<Item>, item: Item, dims: seq<Dimension>)
    ensures ExpectedOver([], dims) == 0 && CoveredOver([], dims) == 0
    ensures ExpectedOver(items + [item], dims)
            == ExpectedOver(items, dims)
               + (if item.reachedJudge then |Places(dims, (d: Dimension) => d.jdId == item.jdId)| else 0)
    ensures CoveredOver(items + [item], dims)
            == CoveredOver(items, dims)
               + (if item.reachedJudge then |Places(dims, (d: Dimension) => d.jdId == item.jdId && Covers(item, d))| else 0)
  {
    ExpectedIs(item, dims);
    assert (items + [item])[..|items|] == items;
  }
}
