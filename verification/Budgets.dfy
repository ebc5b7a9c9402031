/**
 Budget alerts and their reconciliation: spend per calendar period, at most one alert a
 threshold and period, and a cursor that walks complete periods without a gap.
 */
module Budgets {
  import opened Common
  import opened Calendar
  import opened PeriodChains

  /** One LLM call: when it started, and its cost when the cost is known. */
  datatype Attempt = Attempt(startedAt: int, cost: Option<real>)

  /** The classification of a spend; the last two are the thresholds. */
  datatype Level = Normal | Warning | Exceeded

  datatype Settings = Settings(daily: real, monthly: real, warnRatio: real)

  function BudgetFor(scope: Scope, settings: Settings): real {
    if scope.Daily? then settings.daily else settings.monthly
  }

  function BudgetState(spend: real, budget: real, warnRatio: real): Level {
    if budget <= 0.0 then (if spend > 0.0 then Exceeded else Normal)
    else if spend >= budget then Exceeded
    else if spend >= budget * warnRatio then Warning
    else Normal
  }

  function ThresholdsCrossed(spend: real, budget: real, warnRatio: real): seq<Level> {
    match BudgetState(spend, budget, warnRatio)
    case Exceeded => [Warning, Exceeded]
    case Warning => [Warning]
    case Normal => []
  }

  /** More spend crosses every threshold less spend does, in the same order. */
  lemma {:induction false} CrossedIsMonotone(less: real, more: real, budget: real, warnRatio: real)
    requires less <= more
    ensures ThresholdsCrossed(less, budget, warnRatio) <= ThresholdsCrossed(more, budget, warnRatio)
  {
  }

  // ----- aggregates -----

  predicate Within(a: Attempt, start: int, end: int) {
    start <= a.startedAt < end
  }

  /** The known cost of the attempts that started in the window. */
  function Spend(attempts: seq<Attempt>, start: int, end: int): real {
    if attempts == [] then 0.0
    else
      var a := attempts[|attempts| - 1];
      Spend(attempts[..|attempts| - 1], start, end)
      + if Within(a, start, end) && a.cost.Some? then a.cost.value else 0.0
  }

  /** How many attempts of the window have no known cost. */
  function Unknown(attempts: seq<Attempt>, start: int, end: int): nat {
    if attempts == [] then 0
    else
      var a := attempts[|attempts| - 1];
      Unknown(attempts[..|attempts| - 1], start, end)
      + if Within(a, start, end) && a.cost.None? then 1 else 0
  }

  /** Adjacent windows add up. */
  lemma {:induction false} WindowsAdd(attempts: seq<Attempt>, a: int, b: int, c: int)
    requires a <= b <= c
    ensures Spend(attempts, a, c) == Spend(attempts, a, b) + Spend(attempts, b, c)
    ensures Unknown(attempts, a, c) == Unknown(attempts, a, b) + Unknown(attempts, b, c)
  {
    if attempts != [] {
      WindowsAdd(attempts[..|attempts| - 1], a, b, c);
    }
  }

  lemma {:induction false} EmptyWindow(attempts: seq<Attempt>, a: int)
    ensures Spend(attempts, a, a) == 0.0 && Unknown(attempts, a, a) == 0
  {
    if attempts != [] {
      EmptyWindow(attempts[..|attempts| - 1], a);
    }
  }

  // ----- conservation -----

  function SpendOver(attempts: seq<Attempt>, periods: seq<Period>): real {
    if periods == [] then 0.0
    else
      var p := periods[|periods| - 1];
      SpendOver(attempts, periods[..|periods| - 1]) + Spend(attempts, p.start, p.end)
  }

  function UnknownOver(attempts: seq<Attempt>, periods: seq<Period>): nat {
    if periods == [] then 0
    else
      var p := periods[|periods| - 1];
      UnknownOver(attempts, periods[..|periods| - 1]) + Unknown(attempts, p.start, p.end)
  }

  /** The periods of a chain add up to the window they fill. */
  lemma {:induction false} ChainAdds(attempts: seq<Attempt>, cal: Periods, s: int, n: nat)
    requires Tiles(cal) && IsBoundary(cal, s)
    ensures SpendOver(attempts, Chain(cal, s, n)) == Spend(attempts, s, Walk(cal, s, n))
    ensures UnknownOver(attempts, Chain(cal, s, n)) == Unknown(attempts, s, Walk(cal, s, n))
  {
    if n == 0 {
      EmptyWindow(attempts, s);
    } else {
      ChainAdds(attempts, cal, s, n - 1);
      WalkRises(cal, s, 0, n - 1);
      WalkRises(cal, s, n - 1, n);
      WindowsAdd(attempts, s, Walk(cal, s, n - 1), Walk(cal, s, n));
      assert Chain(cal, s, n)[..n - 1] == Chain(cal, s, n - 1);
    }
  }

  /** A month's spend and unknown count are the sums over its days. */
  lemma {:induction false} MonthIsItsDays(attempts: seq<Attempt>, t: int, today: Date, month: Period)
    requires InRange(t) && today == LocalDate(t) && month == PeriodFor(Monthly, t)
    ensures var days := Chain(CalendarOf(Daily), month.start, MonthLength(today.year, today.month));
            SpendOver(attempts, days) == Spend(attempts, month.start, month.end)
            && UnknownOver(attempts, days) == Unknown(attempts, month.start, month.end)
  {
    CalendarTiles(Daily);
    DaysFillMonth(t, today, month);
    MonthStartsADay(t, month);
    ChainAdds(attempts, CalendarOf(Daily), month.start, MonthLength(today.year, today.month));
  }

  lemma {:induction false} MonthStartsADay(t: int, month: Period)
    requires InRange(t) && month == PeriodFor(Monthly, t)
    ensures IsBoundary(CalendarOf(Daily), month.start)
  {
    PeriodForm(Monthly, t);
    MidnightDate(FirstDate(Monthly, LocalDate(t)));
    PeriodForm(Daily, month.start);
  }

  // ----- alerts -----

  /** A threshold audit event. */
  datatype Event = Event(
    scope: Scope, start: int, end: int, threshold: Level, budget: real, spend: real, unknown: nat)

  /** What one evaluation of a period sees. */
  datatype Finding = Finding(period: Period, budget: real, warnRatio: real, spend: real, unknown: nat)

  function Crossed(f: Finding): seq<Level> {
    ThresholdsCrossed(f.spend, f.budget, f.warnRatio)
  }

  predicate Matches(e: Event, scope: Scope, start: int, threshold: Level) {
    e.scope == scope && e.start == start && e.threshold == threshold
  }

  predicate HasEvent(events: seq<Event>, scope: Scope, start: int, threshold: Level) {
    exists i :: 0 <= i < |events| && Matches(events[i], scope, start, threshold)
  }

  function EventOf(f: Finding, threshold: Level): Event {
    Event(f.period.scope, f.period.start, f.period.end, threshold, f.budget, f.spend, f.unknown)
  }

  function InsertOnce(events: seq<Event>, f: Finding, threshold: Level): seq<Event> {
    if HasEvent(events, f.period.scope, f.period.start, threshold) then events
    else events + [EventOf(f, threshold)]
  }

  function InsertAll(events: seq<Event>, f: Finding, thresholds: seq<Level>): seq<Event> {
    if thresholds == [] then events
    else
      var last := |thresholds| - 1;
      InsertOnce(InsertAll(events, f, thresholds[..last]), f, thresholds[last])
  }

  /** The events after one evaluation. */
  function AfterFinding(events: seq<Event>, f: Finding): seq<Event> {
    InsertAll(events, f, Crossed(f))
  }

  /** The events after evaluations in order. */
  function AfterFindings(events: seq<Event>, fs: seq<Finding>): seq<Event> {
    if fs == [] then events
    else AfterFinding(AfterFindings(events, fs[..|fs| - 1]), fs[|fs| - 1])
  }

  /** No two events share a scope, a period and a threshold. */
  ghost predicate OneEach(events: seq<Event>) {
    forall i, j :: 0 <= i < j < |events| ==>
      !Matches(events[j], events[i].scope, events[i].start, events[i].threshold)
  }

  /** An exceeded event comes after the warning event of its period. */
  ghost predicate WarnedFirst(events: seq<Event>) {
    forall i :: 0 <= i < |events| && events[i].threshold == Exceeded ==>
      HasEvent(events[..i], events[i].scope, events[i].start, Warning)
  }

  lemma {:induction false} HasEventAppend(events: seq<Event>, e: Event, scope: Scope, start: int, threshold: Level)
    ensures HasEvent(events + [e], scope, start, threshold) <==>
              HasEvent(events, scope, start, threshold) || Matches(e, scope, start, threshold)
  {
    var more := events + [e];
    if HasEvent(events, scope, start, threshold) {
      var i :| 0 <= i < |events| && Matches(events[i], scope, start, threshold);
      assert Matches(more[i], scope, start, threshold);
    }
    if Matches(e, scope, start, threshold) {
      assert Matches(more[|events|], scope, start, threshold);
    }
  }

  lemma {:induction false} InsertOnceHas(events: seq<Event>, f: Finding, threshold: Level, scope: Scope, start: int, wanted: Level)
    ensures HasEvent(InsertOnce(events, f, threshold), scope, start, wanted) <==>
              HasEvent(events, scope, start, wanted)
              || (f.period.scope == scope && f.period.start == start && threshold == wanted)
  {
    HasEventAppend(events, EventOf(f, threshold), scope, start, wanted);
  }

  lemma {:induction false} InsertAllHas(
    events: seq<Event>, f: Finding, thresholds: seq<Level>, scope: Scope, start: int, wanted: Level)
    ensures HasEvent(InsertAll(events, f, thresholds), scope, start, wanted) <==>
              HasEvent(events, scope, start, wanted)
              || (f.period.scope == scope && f.period.start == start && wanted in thresholds)
  {
    if thresholds != [] {
      var last := |thresholds| - 1;
      InsertAllHas(events, f, thresholds[..last], scope, start, wanted);
      InsertOnceHas(InsertAll(events, f, thresholds[..last]), f, thresholds[last], scope, start, wanted);
      assert thresholds == thresholds[..last] + [thresholds[last]];
    }
  }

  /** An alert exists exactly when some evaluation of its period crossed its threshold. */
  lemma {:induction false} AlertIff(events: seq<Event>, fs: seq<Finding>, scope: Scope, start: int, threshold: Level)
    ensures HasEvent(AfterFindings(events, fs), scope, start, threshold) <==>
              HasEvent(events, scope, start, threshold)
              || exists i :: 0 <= i < |fs| && fs[i].period.scope == scope && fs[i].period.start == start
                          && threshold in Crossed(fs[i])
  {
    if fs != [] {
      var n := |fs| - 1;
      AlertIff(events, fs[..n], scope, start, threshold);
      InsertAllHas(AfterFindings(events, fs[..n]), fs[n], Crossed(fs[n]), scope, start, threshold);
    }
  }

  lemma {:induction false} InsertKeepsOneEach(events: seq<Event>, f: Finding, threshold: Level)
    requires OneEach(events)
    ensures OneEach(InsertOnce(events, f, threshold))
  {
    var more := InsertOnce(events, f, threshold);
    if more != events {
      forall i, j | 0 <= i < j < |more|
        ensures !Matches(more[j], more[i].scope, more[i].start, more[i].threshold)
      {
        if j == |events| {
          assert !Matches(events[i], f.period.scope, f.period.start, threshold);
        }
      }
    }
  }

  lemma {:induction false} InsertKeepsWarned(events: seq<Event>, f: Finding, threshold: Level)
    requires WarnedFirst(events)
    requires threshold == Exceeded ==> HasEvent(events, f.period.scope, f.period.start, Warning)
    ensures WarnedFirst(InsertOnce(events, f, threshold))
  {
    var more := InsertOnce(events, f, threshold);
    if more != events {
      forall i | 0 <= i < |more| && more[i].threshold == Exceeded
        ensures HasEvent(more[..i], more[i].scope, more[i].start, Warning)
      {
        assert more[..i] == events[..i];
        assert events[..|events|] == events;
      }
    }
  }

  lemma {:induction false} FindingKeeps(events: seq<Event>, f: Finding)
    requires OneEach(events) && WarnedFirst(events)
    ensures OneEach(AfterFinding(events, f)) && WarnedFirst(AfterFinding(events, f))
  {
    var warned := InsertOnce(events, f, Warning);
    InsertKeepsOneEach(events, f, Warning);
    InsertKeepsWarned(events, f, Warning);
    InsertOnceHas(events, f, Warning, f.period.scope, f.period.start, Warning);
    InsertKeepsOneEach(warned, f, Exceeded);
    InsertKeepsWarned(warned, f, Exceeded);
    FindingCases(events, f);
  }

  lemma {:induction false} FindingCases(events: seq<Event>, f: Finding)
    ensures AfterFinding(events, f)
         == if Crossed(f) == [] then events
            else if Crossed(f) == [Warning] then InsertOnce(events, f, Warning)
            else InsertOnce(InsertOnce(events, f, Warning), f, Exceeded)
  {
    assert [Warning][..0] == [];
    assert [Warning, Exceeded][..1] == [Warning];
    assert InsertAll(events, f, [Warning]) == InsertOnce(events, f, Warning);
  }

  /** Over any run of evaluations: one alert a key, and never an exceeded one without its warning. */
  lemma {:induction false} FindingsKeep(events: seq<Event>, fs: seq<Finding>)
    requires OneEach(events) && WarnedFirst(events)
    ensures OneEach(AfterFindings(events, fs)) && WarnedFirst(AfterFindings(events, fs))
  {
    if fs != [] {
      FindingsKeep(events, fs[..|fs| - 1]);
      FindingKeeps(AfterFindings(events, fs[..|fs| - 1]), fs[|fs| - 1]);
    }
  }
}
