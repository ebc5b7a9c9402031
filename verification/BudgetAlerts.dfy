/**
 When an alert of a budget exists, in the settings and the recorded attempts alone: at what spend,
 against which budget, and what the event says.
 */
module BudgetAlerts {
  import opened Common
  import opened Calendar
  import opened PeriodChains
  import opened Budgets
  import opened BudgetReconciler

  // ----- spend, from single attempts up -----

  /** The aggregates of a log are the sums over its parts. */
  lemma {:induction false} AggregatesJoin(xs: seq<Attempt>, ys: seq<Attempt>, start: int, end: int)
    ensures Spend(xs + ys, start, end) == Spend(xs, start, end) + Spend(ys, start, end)
    ensures Unknown(xs + ys, start, end) == Unknown(xs, start, end) + Unknown(ys, start, end)
  {
    if ys == [] {
      assert xs + ys == xs;
    } else {
      var n := |ys| - 1;
      AggregatesJoin(xs, ys[..n], start, end);
      assert (xs + ys)[..|xs| + n] == xs + ys[..n];
    }
  }

  /** One attempt counts with its cost, or as unknown, in every window that holds its start and in no other. */
  lemma {:induction false} AggregatesOfOne(a: Attempt, start: int, end: int)
    ensures Spend([a], start, end) == if start <= a.startedAt < end && a.cost.Some? then a.cost.value else 0.0
    ensures Unknown([a], start, end) == if start <= a.startedAt < end && a.cost.None? then 1 else 0
    ensures Spend([], start, end) == 0.0 && Unknown([], start, end) == 0
  {
    assert [a][..0] == [];
  }

  // ----- thresholds -----

  /**
   A spend is over its budget from the budget on, or from any spend at all when there is no
   budget; it is worth a warning from the ratio of a budget on, and whenever it is over.
   */
  lemma {:induction false} LevelIff(spend: real, budget: real, warnRatio: real)
    ensures var over := (budget > 0.0 && spend >= budget) || (budget <= 0.0 && spend > 0.0);
            var near := budget > 0.0 && spend >= budget * warnRatio;
            && (BudgetState(spend, budget, warnRatio) == Exceeded <==> over)
            && (BudgetState(spend, budget, warnRatio) == Warning <==> near && !over)
            && (Exceeded in ThresholdsCrossed(spend, budget, warnRatio) <==> over)
            && (Warning in ThresholdsCrossed(spend, budget, warnRatio) <==> near || over)
            && Normal !in ThresholdsCrossed(spend, budget, warnRatio)
  {
  }

  /** What one evaluation of a period returns, from the settings of its scope and the attempts in its window. */
  lemma {:induction false} EvaluationIs(attempts: seq<Attempt>, settings: Settings, p: Period)
    ensures Judges(EvaluationOf(FindingOf(attempts, settings, p)), attempts, settings, p)
  {
    LevelIff(Spend(attempts, p.start, p.end), BudgetFor(p.scope, settings), settings.warnRatio);
  }

  // ----- alerts of reconciled periods -----

  /** A reconciled period has an exceeded alert exactly when its spend reached its budget, or is not nothing where there is none. */
  lemma {:induction false} ExceededAlertIff(
    attempts: seq<Attempt>, settings: Settings, cal: Periods, s: int, n: nat, i: nat, p: Period, budget: real, spend: real)
    requires Tiles(cal) && IsBoundary(cal, s) && i < n && p == Chain(cal, s, n)[i]
    requires budget == (if p.scope == Daily then settings.daily else settings.monthly)
    requires spend == Spend(attempts, p.start, p.end)
    ensures HasEvent(AfterFindings([], FindingsOf(attempts, settings, Chain(cal, s, n))), p.scope, p.start, Exceeded)
            <==> (budget > 0.0 && spend >= budget) || (budget <= 0.0 && spend > 0.0)
  {
    AlertsAreExact(attempts, settings, cal, s, n, i, Exceeded);
    LevelIff(spend, budget, settings.warnRatio);
  }

  /** And a warning alert exactly when it has an exceeded one, or its spend reached the ratio of its budget. */
  lemma {:induction false} WarningAlertIff(
    attempts: seq<Attempt>, settings: Settings, cal: Periods, s: int, n: nat, i: nat, p: Period, budget: real, spend: real)
    requires Tiles(cal) && IsBoundary(cal, s) && i < n && p == Chain(cal, s, n)[i]
    requires budget == (if p.scope == Daily then settings.daily else settings.monthly)
    requires spend == Spend(attempts, p.start, p.end)
    ensures HasEvent(AfterFindings([], FindingsOf(attempts, settings, Chain(cal, s, n))), p.scope, p.start, Warning)
            <==> (budget > 0.0 && (spend >= budget || spend >= budget * settings.warnRatio)) || (budget <= 0.0 && spend > 0.0)
  {
    AlertsAreExact(attempts, settings, cal, s, n, i, Warning);
    LevelIff(spend, budget, settings.warnRatio);
  }

  /** What an alert says is what was evaluated: its period, the budget of its scope, and the spend of its window. */
  ghost predicate Says(e: Event, attempts: seq<Attempt>, settings: Settings, p: Period) {
    && e.scope == p.scope && e.start == p.start && e.end == p.end && e.threshold in {Warning, Exceeded}
    && e.budget == (if p.scope == Daily then settings.daily else settings.monthly)
    && e.spend == Spend(attempts, p.start, p.end) && e.unknown == Unknown(attempts, p.start, p.end)
  }

  lemma {:induction false} FindingSays(events: seq<Event>, attempts: seq<Attempt>, settings: Settings, p: Period, k: nat)
    requires var after := AfterFinding(events, FindingOf(attempts, settings, p)); |events| <= k < |after|
    ensures Says(AfterFinding(events, FindingOf(attempts, settings, p))[k], attempts, settings, p)
  {
    FindingCases(events, FindingOf(attempts, settings, p));
  }

  lemma {:induction false} FindingAppends(events: seq<Event>, f: Finding)
    ensures events <= AfterFinding(events, f)
  {
    FindingCases(events, f);
  }

  /** Every alert of a walk is about one of its periods, and tells the truth about it. */
  lemma {:induction false} AlertsAreTrue(attempts: seq<Attempt>, settings: Settings, ps: seq<Period>, k: nat) returns (i: nat)
    requires k < |AfterFindings([], FindingsOf(attempts, settings, ps))|
    ensures i < |ps| && Says(AfterFindings([], FindingsOf(attempts, settings, ps))[k], attempts, settings, ps[i])
  {
    var n := |ps| - 1;
    assert FindingsOf(attempts, settings, ps)[..n] == FindingsOf(attempts, settings, ps[..n]);
    var before := AfterFindings([], FindingsOf(attempts, settings, ps[..n]));
    FindingAppends(before, FindingOf(attempts, settings, ps[n]));
    if k < |before| {
      i := AlertsAreTrue(attempts, settings, ps[..n], k);
    } else {
      FindingSays(before, attempts, settings, ps[n], k);
      i := n;
    }
  }
}
