/** The reconciler that walks complete periods, and what its runs leave behind. */
module BudgetReconciler {
  import opened Common
  import opened Calendar
  import opened PeriodChains
  import opened Budgets

  datatype Evaluation = Evaluation(period: Period, budget: real, spend: real, unknown: nat, level: Level)

  function FindingOf(attempts: seq<Attempt>, settings: Settings, p: Period): Finding {
    Finding(p, BudgetFor(p.scope, settings), settings.warnRatio,
            Spend(attempts, p.start, p.end), Unknown(attempts, p.start, p.end))
  }

  function FindingsOf(attempts: seq<Attempt>, settings: Settings, ps: seq<Period>): seq<Finding> {
    seq(|ps|, i requires 0 <= i < |ps| => FindingOf(attempts, settings, ps[i]))
  }

  function EvaluationOf(f: Finding): Evaluation {
    Evaluation(f.period, f.budget, f.spend, f.unknown, BudgetState(f.spend, f.budget, f.warnRatio))
  }

  /**
   An evaluation in the settings and the attempts alone: the budget of the scope, the spend of the
   window, and a level that is exceeded from the budget on, or from any spend when there is none,
   and a warning from the ratio of the budget on.
   */
  ghost predicate Judges(e: Evaluation, attempts: seq<Attempt>, settings: Settings, p: Period) {
    && e.period == p && e.budget == (if p.scope == Daily then settings.daily else settings.monthly)
    && e.spend == Spend(attempts, p.start, p.end) && e.unknown == Unknown(attempts, p.start, p.end)
    && (e.level == Exceeded <==> (e.budget > 0.0 && e.spend >= e.budget) || (e.budget <= 0.0 && e.spend > 0.0))
    && (e.level == Warning <==> e.budget > 0.0 && e.budget > e.spend >= e.budget * settings.warnRatio)
  }

  /** When the first attempt started. */
  function Earliest(attempts: seq<Attempt>): Option<int> {
    if attempts == [] then None
    else
      var a := attempts[|attempts| - 1].startedAt;
      match Earliest(attempts[..|attempts| - 1])
      case None => Some(a)
      case Some(t) => Some(Min(t, a))
  }

  lemma {:induction false} EarliestIsLeast(attempts: seq<Attempt>)
    ensures Earliest(attempts) == None <==> attempts == []
    ensures attempts != [] ==> exists i :: 0 <= i < |attempts| && attempts[i].startedAt == Earliest(attempts).value
    ensures forall i :: 0 <= i < |attempts| ==> Earliest(attempts).value <= attempts[i].startedAt
  {
    if attempts != [] {
      var n := |attempts| - 1;
      EarliestIsLeast(attempts[..n]);
      forall i | 0 <= i < |attempts| ensures Earliest(attempts).value <= attempts[i].startedAt {
        if i < n {
          assert attempts[..n][i] == attempts[i];
        }
      }
      if n > 0 && Earliest(attempts).value != attempts[n].startedAt {
        var i :| 0 <= i < n && attempts[..n][i].startedAt == Earliest(attempts[..n]).value;
        assert attempts[i].startedAt == Earliest(attempts).value;
      }
    }
  }

  predicate TimesInRange(attempts: seq<Attempt>) {
    forall i :: 0 <= i < |attempts| ==> InRange(attempts[i].startedAt)
  }

  /** `_initial_cursor_start`, over the calendar of its scope. */
  function InitialCursor(attempts: seq<Attempt>, cal: Periods, now: int): int {
    var reference := if Earliest(attempts).Some? then Earliest(attempts).value else now;
    cal(reference).start
  }

  lemma {:induction false} InitialIsBoundary(attempts: seq<Attempt>, cal: Periods, now: int)
    requires Tiles(cal) && TimesInRange(attempts) && InRange(now)
    ensures IsBoundary(cal, InitialCursor(attempts, cal, now))
    ensures forall i :: 0 <= i < |attempts| ==> InitialCursor(attempts, cal, now) <= attempts[i].startedAt
  {
    EarliestIsLeast(attempts);
    var reference := if Earliest(attempts).Some? then Earliest(attempts).value else now;
    StartIsBoundary(cal, reference);
    assert TilesAt(cal, reference);
  }

  /** The tables the budget service reads and writes. */
  class BudgetDatabase {
    var attempts: seq<Attempt>
    var events: seq<Event>
    var cursors: map<Scope, int>

    ghost predicate Valid()
      reads this
    {
      TimesInRange(attempts) && forall scope :: scope in cursors ==> InRange(cursors[scope])
    }

    /** The cursor a run starts from. */
    function Cursor(scope: Scope, cal: Periods, now: int): int
      reads this
    {
      if scope in cursors then cursors[scope] else InitialCursor(attempts, cal, now)
    }

    /** `_insert_threshold_once`: one event a scope, period and threshold. */
    method InsertThresholdOnce(f: Finding, threshold: Level) returns (inserted: bool)
      modifies this`events
      ensures events == InsertOnce(old(events), f, threshold)
      ensures inserted <==> !HasEvent(old(events), f.period.scope, f.period.start, threshold)
      ensures events == old(events) + (if inserted
                                       then [Event(f.period.scope, f.period.start, f.period.end, threshold,
                                                   f.budget, f.spend, f.unknown)]
                                       else [])
    {
      if HasEvent(events, f.period.scope, f.period.start, threshold) {
        return false;
      }
      events := events + [EventOf(f, threshold)];
      return true;
    }

    /** `_evaluate_period`. */
    method EvaluatePeriod(p: Period, settings: Settings) returns (e: Evaluation)
      modifies this`events
      ensures events == AfterFinding(old(events), FindingOf(attempts, settings, p))
      ensures e == EvaluationOf(FindingOf(attempts, settings, p))
      ensures Judges(e, attempts, settings, p)
    {
      var f := FindingOf(attempts, settings, p);
      var thresholds := ThresholdsCrossed(f.spend, f.budget, f.warnRatio);
      for i := 0 to |thresholds|
        invariant events == InsertAll(old(events), f, thresholds[..i])
      {
        assert thresholds[..i + 1][..i] == thresholds[..i];
        var _ := InsertThresholdOnce(f, thresholds[i]);
      }
      assert thresholds[..|thresholds|] == thresholds;
      return EvaluationOf(f);
    }

    /** `evaluate_current_budgets`, over both calendars: the two periods that hold `now`. */
    method EvaluateCurrentBudgets(days: Periods, months: Periods, now: int, settings: Settings)
      returns (es: seq<Evaluation>)
      modifies this`events
      ensures var day, month := FindingOf(attempts, settings, days(now)), FindingOf(attempts, settings, months(now));
              events == AfterFinding(AfterFinding(old(events), day), month)
              && es == [EvaluationOf(day), EvaluationOf(month)]
    {
      var daily := EvaluatePeriod(days(now), settings);
      var monthly := EvaluatePeriod(months(now), settings);
      es := [daily, monthly];
    }

    /** The cursor row, inserted when the scope has none. */
    method EnsureCursor(scope: Scope, cal: Periods, now: int)
      requires Valid() && InRange(now) && Tiles(cal)
      modifies this`cursors
      ensures Valid() && cursors == old(cursors)[scope := old(Cursor(scope, cal, now))]
    {
      InitialIsBoundary(attempts, cal, now);
      if scope !in cursors {
        cursors := cursors[scope := InitialCursor(attempts, cal, now)];
      }
    }

    /** The loop of `reconcile_budget_scope`, over the calendar of its scope. */
    method DrainPeriods(scope: Scope, cal: Periods, now: int, maxPeriods: int, settings: Settings) returns (processed: nat)
      requires Valid() && scope in cursors && Tiles(cal)
      modifies this`events, this`cursors
      ensures Valid()
      ensures var from := cal(old(cursors[scope])).start;
              processed == Min(Max(0, maxPeriods), Backlog(cal, from, now))
              && events == AfterFindings(old(events), FindingsOf(attempts, settings, Chain(cal, from, processed)))
              && cursors == if processed == 0 then old(cursors) else old(cursors)[scope := Walk(cal, from, processed)]
    {
      ghost var from := cal(cursors[scope]).start;
      StartIsBoundary(cal, cursors[scope]);
      processed := 0;
      var period := cal(cursors[scope]);
      while processed < maxPeriods && period.end <= now
        invariant Valid() && processed <= Max(0, maxPeriods) && processed <= Backlog(cal, from, now)
        invariant period == cal(Walk(cal, from, processed))
        invariant events == AfterFindings(old(events), FindingsOf(attempts, settings, Chain(cal, from, processed)))
        invariant cursors == if processed == 0 then old(cursors) else old(cursors)[scope := Walk(cal, from, processed)]
      {
        NextPeriod(cal, from, now, processed);
        NextFinding(old(events), attempts, settings, cal, from, processed);
        var _ := EvaluatePeriod(period, settings);
        period := cal(period.end);
        cursors := cursors[scope := period.start];
        processed := processed + 1;
      }
      WalkRises(cal, from, 0, processed);
      WalkRises(cal, from, processed, processed + 1);
      BacklogAfter(cal, from, now, processed);
    }

    method ReconcileOver(scope: Scope, cal: Periods, now: int, maxPeriods: int, settings: Settings) returns (processed: nat)
      requires Valid() && InRange(now) && Tiles(cal)
      modifies this`events, this`cursors
      ensures Valid()
      ensures var cursor := old(Cursor(scope, cal, now));
              var from := cal(cursor).start;
              processed == Min(Max(0, maxPeriods), Backlog(cal, from, now))
              && events == AfterFindings(old(events), FindingsOf(attempts, settings, Chain(cal, from, processed)))
              && cursors == old(cursors)[scope := if processed == 0 then cursor else Walk(cal, from, processed)]
    {
      EnsureCursor(scope, cal, now);
      processed := DrainPeriods(scope, cal, now, maxPeriods, settings);
    }

    /** `reconcile_budget_scope`: the complete periods from the cursor on, oldest first, at most `maxPeriods`. */
    method ReconcileBudgetScope(scope: Scope, now: int, maxPeriods: int, settings: Settings) returns (processed: nat)
      requires Valid() && InRange(now)
      modifies this`events, this`cursors
      ensures Valid()
      ensures var cal := CalendarOf(scope);
              var cursor := old(Cursor(scope, cal, now));
              var from := cal(cursor).start;
              processed == Min(Max(0, maxPeriods), Backlog(cal, from, now))
              && events == AfterFindings(old(events), FindingsOf(attempts, settings, Chain(cal, from, processed)))
              && cursors == old(cursors)[scope := if processed == 0 then cursor else Walk(cal, from, processed)]
    {
      CalendarTiles(scope);
      processed := ReconcileOver(scope, CalendarOf(scope), now, maxPeriods, settings);
    }

    /** Each scope's backlog in turn; neither run moves the other's cursor. */
    method ReconcileBoth(days: Periods, months: Periods, now: int, maxPeriods: int, settings: Settings)
      returns (daily: nat, monthly: nat)
      requires Valid() && InRange(now) && Tiles(days) && Tiles(months)
      modifies this`events, this`cursors
      ensures Valid()
      ensures var firstDay := days(old(Cursor(Daily, days, now))).start;
              var firstMonth := months(old(Cursor(Monthly, months, now))).start;
              daily == Min(Max(0, maxPeriods), Backlog(days, firstDay, now))
              && monthly == Min(Max(0, maxPeriods), Backlog(months, firstMonth, now))
              && events == AfterFindings(
                   AfterFindings(old(events), FindingsOf(attempts, settings, Chain(days, firstDay, daily))),
                   FindingsOf(attempts, settings, Chain(months, firstMonth, monthly)))
    {
      daily := ReconcileOver(Daily, days, now, maxPeriods, settings);
      monthly := ReconcileOver(Monthly, months, now, maxPeriods, settings);
    }

    /** `reconcile_budgets`, over both calendars: each scope's backlog, then both current periods. */
    method ReconcileBudgets(days: Periods, months: Periods, now: int, maxPeriods: int, settings: Settings)
      returns (daily: nat, monthly: nat, current: seq<Evaluation>)
      requires Valid() && InRange(now) && Tiles(days) && Tiles(months)
      modifies this`events, this`cursors
      ensures Valid()
      ensures var firstDay := days(old(Cursor(Daily, days, now))).start;
              var firstMonth := months(old(Cursor(Monthly, months, now))).start;
              var drained := AfterFindings(
                AfterFindings(old(events), FindingsOf(attempts, settings, Chain(days, firstDay, daily))),
                FindingsOf(attempts, settings, Chain(months, firstMonth, monthly)));
              var day, month := FindingOf(attempts, settings, days(now)), FindingOf(attempts, settings, months(now));
              daily == Min(Max(0, maxPeriods), Backlog(days, firstDay, now))
              && monthly == Min(Max(0, maxPeriods), Backlog(months, firstMonth, now))
              && events == AfterFinding(AfterFinding(drained, day), month)
              && current == [EvaluationOf(day), EvaluationOf(month)]
    {
      daily, monthly := ReconcileBoth(days, months, now, maxPeriods, settings);
      current := EvaluateCurrentBudgets(days, months, now, settings);
    }
  }

  /** A complete period at the end of a walk is one more of the backlog, and ends on a boundary. */
  lemma {:induction false} NextPeriod(cal: Periods, s: int, now: int, n: nat)
    requires Tiles(cal) && IsBoundary(cal, s)
    requires n <= Backlog(cal, s, now) && cal(Walk(cal, s, n)).end <= now
    ensures n + 1 <= Backlog(cal, s, now)
    ensures cal(Walk(cal, s, n)).end == Walk(cal, s, n + 1)
    ensures InRange(Walk(cal, s, n + 1)) && cal(Walk(cal, s, n + 1)).start == Walk(cal, s, n + 1)
  {
    WalkRises(cal, s, n, n + 1);
    WalkRises(cal, s, 0, n);
    BacklogAfter(cal, s, now, n);
  }

  lemma {:induction false} NextFinding(
    events: seq<Event>, attempts: seq<Attempt>, settings: Settings, cal: Periods, s: int, n: nat)
    ensures var f := FindingOf(attempts, settings, cal(Walk(cal, s, n)));
            AfterFindings(events, FindingsOf(attempts, settings, Chain(cal, s, n + 1)))
            == AfterFinding(AfterFindings(events, FindingsOf(attempts, settings, Chain(cal, s, n))), f)
  {
    FindingsGrow(attempts, settings, cal, s, n);
    FindingsSnoc(events, FindingsOf(attempts, settings, Chain(cal, s, n)), FindingOf(attempts, settings, cal(Walk(cal, s, n))));
  }

  lemma {:induction false} FindingsSnoc(events: seq<Event>, fs: seq<Finding>, f: Finding)
    ensures AfterFindings(events, fs + [f]) == AfterFinding(AfterFindings(events, fs), f)
  {
    assert (fs + [f])[..|fs|] == fs;
  }

  lemma {:induction false} FindingsGrow(attempts: seq<Attempt>, settings: Settings, cal: Periods, s: int, n: nat)
    ensures FindingsOf(attempts, settings, Chain(cal, s, n + 1))
         == FindingsOf(attempts, settings, Chain(cal, s, n)) + [FindingOf(attempts, settings, cal(Walk(cal, s, n)))]
  {
  }

  // ----- what a drained backlog leaves behind -----

  /** A run that follows `n` periods starts exactly where they end. */
  lemma {:induction false} RunResumes(cal: Periods, s: int, n: nat)
    requires Tiles(cal) && IsBoundary(cal, s)
    ensures cal(Walk(cal, s, n)).start == Walk(cal, s, n)
  {
    WalkRises(cal, s, 0, n);
  }

  /** Every attempt whose period is complete has that period in the drained chain. */
  lemma {:induction false} NoAttemptSkipped(attempts: seq<Attempt>, cal: Periods, created: int, now: int, i: nat)
    requires Tiles(cal) && TimesInRange(attempts) && InRange(created)
    requires i < |attempts| && cal(attempts[i].startedAt).end <= now
    ensures var from := InitialCursor(attempts, cal, created);
            cal(attempts[i].startedAt) in Chain(cal, from, Backlog(cal, from, now))
  {
    var from, u := InitialCursor(attempts, cal, created), attempts[i].startedAt;
    InitialIsBoundary(attempts, cal, created);
    DrainedPast(cal, from, now, u);
    ChainCovers(cal, from, Backlog(cal, from, now), u);
  }

  /** The walk over the whole backlog passes every instant whose period is complete. */
  lemma {:induction false} DrainedPast(cal: Periods, s: int, now: int, u: int)
    requires Tiles(cal) && IsBoundary(cal, s) && InRange(u) && cal(u).end <= now
    ensures u < Walk(cal, s, Backlog(cal, s, now))
  {
    var n := Backlog(cal, s, now);
    var last := Walk(cal, s, n);
    BacklogAfter(cal, s, now, n);
    WalkRises(cal, s, 0, n);
    assert TilesAt(cal, last) && TilesAt(cal, u);
  }

  /** For each period of the chain, the alerts are exactly the thresholds its spend crosses. */
  lemma {:induction false} AlertsAreExact(
    attempts: seq<Attempt>, settings: Settings, cal: Periods, s: int, n: nat, i: nat, threshold: Level)
    requires Tiles(cal) && IsBoundary(cal, s) && i < n
    ensures var p := Chain(cal, s, n)[i];
            HasEvent(AfterFindings([], FindingsOf(attempts, settings, Chain(cal, s, n))), p.scope, p.start, threshold)
            <==> threshold in Crossed(FindingOf(attempts, settings, p))
  {
    var ps := Chain(cal, s, n);
    var fs := FindingsOf(attempts, settings, ps);
    AlertIff([], fs, ps[i].scope, ps[i].start, threshold);
    assert fs[i].period == ps[i];
    forall j | 0 <= j < n && ps[j].start == ps[i].start ensures j == i {
      if j < i {
        ChainDistinct(cal, s, n, j, i);
      } else if i < j {
        ChainDistinct(cal, s, n, i, j);
      }
    }
  }

  // ----- evaluations of one period as its spend grows -----

  /** A later finding of the same period, after no less spend. */
  ghost predicate GrowsTo(f: Finding, g: Finding) {
    f.period == g.period && f.budget == g.budget && f.warnRatio == g.warnRatio && f.spend <= g.spend
  }

  ghost predicate SamePeriodGrowing(fs: seq<Finding>) {
    forall i, j :: 0 <= i <= j < |fs| ==> GrowsTo(fs[i], fs[j])
  }

  lemma {:induction false} EarlierCrosses(f: Finding, g: Finding, threshold: Level)
    requires GrowsTo(f, g) && threshold in Crossed(f)
    ensures threshold in Crossed(g)
  {
    CrossedIsMonotone(f.spend, g.spend, f.budget, f.warnRatio);
  }

  /** However often a growing period is evaluated, its alerts are those of the last evaluation. */
  lemma {:induction false} LatestDecides(fs: seq<Finding>, threshold: Level)
    requires fs != [] && SamePeriodGrowing(fs)
    ensures var last := fs[|fs| - 1];
            HasEvent(AfterFindings([], fs), last.period.scope, last.period.start, threshold)
            <==> threshold in Crossed(last)
  {
    var n := |fs| - 1;
    var last := fs[n];
    AlertIff([], fs, last.period.scope, last.period.start, threshold);
    forall i | 0 <= i < |fs| && threshold in Crossed(fs[i]) ensures threshold in Crossed(last) {
      EarlierCrosses(fs[i], fs[n], threshold);
    }
  }

  /** Recording more attempts never lowers a spend, when costs are not negative. */
  lemma {:induction false} SpendGrows(attempts: seq<Attempt>, more: seq<Attempt>, start: int, end: int)
    requires forall i :: 0 <= i < |more| ==> more[i].cost.Or(Some(0.0)).value >= 0.0
    ensures Spend(attempts, start, end) <= Spend(attempts + more, start, end)
    ensures Unknown(attempts, start, end) <= Unknown(attempts + more, start, end)
  {
    if more == [] {
      assert attempts + more == attempts;
    } else {
      var n := |more| - 1;
      SpendGrows(attempts, more[..n], start, end);
      assert (attempts + more)[..|attempts| + n] == attempts + more[..n];
    }
  }
}
