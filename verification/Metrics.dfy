/** Classification counts and evidence coverage over the golden items of a release. */
module Metrics {
  import opened Common

  datatype Label = Advance | Reject | Borderline

  /** A `Decimal` reading, which may be NaN or infinite. */
  datatype Reading = NotFinite | Finite(value: real)

  datatype Observation = Observation(
    dimensionId: string, tier: string, score: Option<Reading>, confidence: Option<Reading>, hasEvidence: bool)

  datatype Item = Item(
    jdId: int, goldenLabel: Label, grade: Option<string>, reachedJudge: bool, judge: seq<Observation>)

  datatype Dimension = Dimension(jdId: int, id: string, weight: real)

  predicate PredictsAdvance(grade: string) {
    grade != "rejected"
  }

  predicate IsKnown(o: Observation) {
    o.tier != "unknown" && o.score.Some?
  }

  // ----- classification -----

  /** Where an item is counted; an item without a grade is uncovered even when borderline. */
  datatype Kind = Uncovered | Excluded | TruePositive | FalseNegative | FalsePositive | TrueNegative

  function KindOf(item: Item): Kind {
    if item.grade.None? then Uncovered
    else
      match item.goldenLabel
      case Borderline => Excluded
      case Advance => if PredictsAdvance(item.grade.value) then TruePositive else FalseNegative
      case Reject => if PredictsAdvance(item.grade.value) then FalsePositive else TrueNegative
  }

  /** How many items are of the kind. */
  function Count(items: seq<Item>, kind: Kind): nat {
    if items == [] then 0
    else Count(items[..|items| - 1], kind) + if KindOf(items[|items| - 1]) == kind then 1 else 0
  }

  datatype Classification = Classification(
    labeledTotal: nat, covered: nat, uncovered: nat, excluded: nat, tp: nat, fp: nat, tn: nat, fn: nat)

  method ClassificationMetrics(items: seq<Item>) returns (c: Classification)
    ensures c.tp == Count(items, TruePositive) && c.fp == Count(items, FalsePositive)
    ensures c.tn == Count(items, TrueNegative) && c.fn == Count(items, FalseNegative)
    ensures c.uncovered == Count(items, Uncovered) && c.excluded == Count(items, Excluded)
    ensures c.labeledTotal == |items| == c.covered + c.uncovered + c.excluded
  {
    var tp, fp, tn, fn, excluded, uncovered := 0, 0, 0, 0, 0, 0;
    for i := 0 to |items|
      invariant tp == Count(items[..i], TruePositive) && fp == Count(items[..i], FalsePositive)
      invariant tn == Count(items[..i], TrueNegative) && fn == Count(items[..i], FalseNegative)
      invariant uncovered == Count(items[..i], Uncovered) && excluded == Count(items[..i], Excluded)
    {
      assert items[..i + 1][..i] == items[..i];
      var item := items[i];
      if item.grade.None? {
        uncovered := uncovered + 1;
      } else if item.goldenLabel == Borderline {
        excluded := excluded + 1;
      } else if item.goldenLabel == Advance {
        if PredictsAdvance(item.grade.value) { tp := tp + 1; } else { fn := fn + 1; }
      } else {
        if PredictsAdvance(item.grade.value) { fp := fp + 1; } else { tn := tn + 1; }
      }
    }
    assert items[..|items|] == items;
    CountsAddUp(items);
    c := Classification(|items|, tp + fp + tn + fn, uncovered, excluded, tp, fp, tn, fn);
  }

  /** Every item is of exactly one kind. */
  lemma {:induction false} CountsAddUp(items: seq<Item>)
    ensures Count(items, TruePositive) + Count(items, FalsePositive) + Count(items, TrueNegative)
          + Count(items, FalseNegative) + Count(items, Uncovered) + Count(items, Excluded) == |items|
  {
    if items != [] {
      CountsAddUp(items[..|items| - 1]);
    }
  }

  function Ratio(num: nat, den: nat): Option<real> {
    if den == 0 then None else Some(num as real / den as real)
  }

  /** F1 is the harmonic mean of precision and recall. */
  lemma {:induction false} F1IsHarmonic(tp: nat, fp: nat, fn: nat)
    requires tp > 0
    ensures var p, r, f := Ratio(tp, tp + fp), Ratio(tp, tp + fn), Ratio(2 * tp, 2 * tp + fp + fn);
            f.value * (p.value + r.value) == 2.0 * p.value * r.value
  {
    var t, a, b := tp as real, (tp + fp) as real, (tp + fn) as real;
    var p, r, f := t / a, t / b, (2.0 * t) / (a + b);
    assert p * a == t && r * b == t;
    assert f * (a + b) == 2.0 * t;
    HarmonicStep(t, a, b, p, r, f);
  }

  lemma {:induction false} HarmonicStep(t: real, a: real, b: real, p: real, r: real, f: real)
    requires a > 0.0 && b > 0.0 && p * a == t && r * b == t && f * (a + b) == 2.0 * t
    ensures f * (p + r) == 2.0 * p * r
  {
    var x, y := f * (p + r), 2.0 * p * r;
    var ab := a * b;
    assert (p + r) * ab == (p * a) * b + (r * b) * a == t * (a + b);
    assert x * ab == f * ((p + r) * ab) == f * (t * (a + b)) == t * (f * (a + b)) == 2.0 * t * t;
    assert y * ab == 2.0 * (p * a) * (r * b) == 2.0 * t * t;
    assert (x - y) * ab == 0.0;
    assert ab > 0.0;
  }

  // ----- evidence -----

  /** `{entry.dimension_id: entry for entry in item.judge}`: the last entry of an id wins. */
  function LastObservation(judge: seq<Observation>, id: string): Option<Observation> {
    if judge == [] then None
    else if judge[|judge| - 1].dimensionId == id then Some(judge[|judge| - 1])
    else LastObservation(judge[..|judge| - 1], id)
  }

  predicate Covers(item: Item, d: Dimension) {
    var o := LastObservation(item.judge, d.id);
    o.Some? && IsKnown(o.value) && o.value.hasEvidence
  }

  /** How many of the dimensions are the item's, and how many of those it covers. */
  function Expected(item: Item, dims: seq<Dimension>): nat {
    if dims == [] then 0
    else Expected(item, dims[..|dims| - 1]) + if dims[|dims| - 1].jdId == item.jdId then 1 else 0
  }

  function Covered(item: Item, dims: seq<Dimension>): nat {
    if dims == [] then 0
    else
      var d := dims[|dims| - 1];
      Covered(item, dims[..|dims| - 1]) + if d.jdId == item.jdId && Covers(item, d) then 1 else 0
  }

  function ExpectedOver(items: seq<Item>, dims: seq<Dimension>): nat {
    if items == [] then 0
    else
      var item := items[|items| - 1];
      ExpectedOver(items[..|items| - 1], dims) + if item.reachedJudge then Expected(item, dims) else 0
  }

  function CoveredOver(items: seq<Item>, dims: seq<Dimension>): nat {
    if items == [] then 0
    else
      var item := items[|items| - 1];
      CoveredOver(items[..|items| - 1], dims) + if item.reachedJudge then Covered(item, dims) else 0
  }

  datatype Status = Measured | InsufficientData | NotApplicable

  datatype Evidence = Evidence(expected: nat, covered: nat, value: Option<real>, status: Status)

  /** The inner loop: one participating item against the expected dimensions. */
  method CountEvidence(item: Item, dims: seq<Dimension>) returns (expected: nat, covered: nat)
    ensures expected == Expected(item, dims) && covered == Covered(item, dims)
  {
    expected, covered := 0, 0;
    for j := 0 to |dims|
      invariant expected == Expected(item, dims[..j]) && covered == Covered(item, dims[..j])
    {
      assert dims[..j + 1][..j] == dims[..j];
      if dims[j].jdId == item.jdId {
        expected := expected + 1;
        if Covers(item, dims[j]) {
          covered := covered + 1;
        }
      }
    }
    assert dims[..|dims|] == dims;
  }

  /** The outer loop, over the items that reached the judge. */
  method CountAllEvidence(items: seq<Item>, dims: seq<Dimension>) returns (expected: nat, covered: nat)
    ensures expected == ExpectedOver(items, dims) && covered == CoveredOver(items, dims)
  {
    expected, covered := 0, 0;
    for i := 0 to |items|
      invariant expected == ExpectedOver(items[..i], dims) && covered == CoveredOver(items[..i], dims)
    {
      assert items[..i + 1][..i] == items[..i];
      if items[i].reachedJudge {
        var more, found := CountEvidence(items[i], dims);
        expected, covered := expected + more, covered + found;
      }
    }
    assert items[..|items|] == items;
  }

  /** Coverage counts, and their ratio when there is anything to cover. */
  method EvidenceMetrics(items: seq<Item>, dims: seq<Dimension>) returns (e: Evidence)
    ensures e.expected == ExpectedOver(items, dims) && e.covered == CoveredOver(items, dims)
    ensures e.covered <= e.expected
    ensures e.status == if dims == [] then NotApplicable else if e.expected == 0 then InsufficientData else Measured
    ensures e.value.Some? <==> e.status == Measured
    ensures e.value.Some? ==> 0.0 <= e.value.value <= 1.0 && e.value.value * e.expected as real == e.covered as real
  {
    var expected, covered := CountAllEvidence(items, dims);
    CoverageBounded(items, dims);
    if dims == [] {
      NothingExpected(items);
      e := Evidence(expected, covered, None, NotApplicable);
    } else if expected == 0 {
      e := Evidence(expected, covered, None, InsufficientData);
    } else {
      RatioInUnit(covered, expected);
      e := Evidence(expected, covered, Ratio(covered, expected), Measured);
    }
  }

  lemma {:induction false} RatioInUnit(num: nat, den: nat)
    requires num <= den && den > 0
    ensures 0.0 <= Ratio(num, den).value <= 1.0 && Ratio(num, den).value * den as real == num as real
  {
  }

  lemma {:induction false} ItemCoverage(item: Item, dims: seq<Dimension>)
    ensures Covered(item, dims) <= Expected(item, dims)
  {
    if dims != [] {
      ItemCoverage(item, dims[..|dims| - 1]);
    }
  }

  lemma {:induction false} CoverageBounded(items: seq<Item>, dims: seq<Dimension>)
    ensures CoveredOver(items, dims) <= ExpectedOver(items, dims)
  {
    if items != [] {
      CoverageBounded(items[..|items| - 1], dims);
      ItemCoverage(items[|items| - 1], dims);
    }
  }

  lemma {:induction false} NothingExpected(items: seq<Item>)
    ensures ExpectedOver(items, []) == 0
  {
    if items != [] {
      NothingExpected(items[..|items| - 1]);
    }
  }
}
