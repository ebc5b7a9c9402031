/**
 Chains of consecutive periods. The lemmas hold of any calendar that tiles time; the last
 section shows that the daily and the monthly calendar do.
 */
module PeriodChains {
  import opened Common
  import opened Calendar

  /** From each instant in range to the period that holds it. */
  type Periods = int -> Period

  /** The instant is in its own period, shares it with all of that period, and the next one abuts. */
  ghost predicate TilesAt(cal: Periods, t: int) {
    var p := cal(t);
    p.start <= t < p.end && InRange(p.start) && cal(p.end).start == p.end
    && forall u: int :: p.start <= u < p.end ==> cal(u) == p
  }

  ghost predicate Tiles(cal: Periods) {
    forall t: int {:trigger TilesAt(cal, t)} :: InRange(t) ==> TilesAt(cal, t)
  }

  /** The `n`th boundary after `s`. */
  function Walk(cal: Periods, s: int, n: nat): int {
    if n == 0 then s else cal(Walk(cal, s, n - 1)).end
  }

  /** `n` consecutive periods from `s`. */
  function Chain(cal: Periods, s: int, n: nat): seq<Period> {
    seq(n, i requires 0 <= i < n => cal(Walk(cal, s, i)))
  }

  /** `s` is where a period starts. */
  predicate IsBoundary(cal: Periods, s: int) {
    InRange(s) && cal(s).start == s
  }

  lemma {:induction false} StartIsBoundary(cal: Periods, t: int)
    requires Tiles(cal) && InRange(t)
    ensures IsBoundary(cal, cal(t).start) && cal(cal(t).start) == cal(t)
  {
    assert TilesAt(cal, t);
  }

  /** Every boundary of a walk starts a period, later than the ones before it. */
  lemma {:induction false} WalkRises(cal: Periods, s: int, i: nat, j: nat)
    requires Tiles(cal) && IsBoundary(cal, s) && i <= j
    ensures IsBoundary(cal, Walk(cal, s, j))
    ensures Walk(cal, s, i) + (j - i) <= Walk(cal, s, j)
    decreases j
  {
    if j > 0 {
      WalkRises(cal, s, if i < j then i else 0, j - 1);
      assert TilesAt(cal, Walk(cal, s, j - 1));
    }
  }

  /** Walking `a` steps and then `b` more is walking `a + b`. */
  lemma {:induction false} WalkAdd(cal: Periods, s: int, a: nat, b: nat)
    ensures Walk(cal, Walk(cal, s, a), b) == Walk(cal, s, a + b)
  {
    if b > 0 {
      WalkAdd(cal, s, a, b - 1);
    }
  }

  lemma {:induction false} WalkHolds(cal: Periods, s: int, n: nat, u: int) returns (i: nat)
    requires s <= u < Walk(cal, s, n)
    ensures i < n && Walk(cal, s, i) <= u < Walk(cal, s, i + 1)
    decreases n
  {
    if n > 0 && Walk(cal, s, n - 1) <= u {
      i := n - 1;
    } else {
      i := WalkHolds(cal, s, n - 1, u);
    }
  }

  /** No gap: the period of every instant the walk passes is in the chain. */
  lemma {:induction false} ChainCovers(cal: Periods, s: int, n: nat, u: int)
    requires Tiles(cal) && IsBoundary(cal, s) && s <= u < Walk(cal, s, n)
    ensures cal(u) in Chain(cal, s, n)
  {
    var i := WalkHolds(cal, s, n, u);
    WalkRises(cal, s, 0, i);
    assert TilesAt(cal, Walk(cal, s, i));
    assert Chain(cal, s, n)[i] == cal(u);
  }

  /** No period twice, and nothing outside the walk. */
  lemma {:induction false} ChainDistinct(cal: Periods, s: int, n: nat, i: nat, j: nat)
    requires Tiles(cal) && IsBoundary(cal, s) && i < j < n
    ensures s <= Chain(cal, s, n)[i].start < Chain(cal, s, n)[i].end <= Chain(cal, s, n)[j].start
    ensures Chain(cal, s, n)[j].end <= Walk(cal, s, n)
  {
    WalkRises(cal, s, 0, i);
    WalkRises(cal, s, i, i + 1);
    WalkRises(cal, s, i + 1, j);
    WalkRises(cal, s, j + 1, n);
  }

  // ----- draining a backlog -----

  /** How many whole periods from `s` end by `now`. */
  function Backlog(cal: Periods, s: int, now: int): nat
    decreases now - s
  {
    if s < cal(s).end <= now then 1 + Backlog(cal, cal(s).end, now) else 0
  }

  lemma {:induction false} WalkTail(cal: Periods, s: int, n: nat)
    ensures Walk(cal, cal(s).end, n) == Walk(cal, s, n + 1)
  {
    if n > 0 {
      WalkTail(cal, s, n - 1);
    }
  }

  /** What is left after `n` of them. */
  lemma {:induction false} BacklogAfter(cal: Periods, s: int, now: int, n: nat)
    requires n <= Backlog(cal, s, now)
    ensures Backlog(cal, Walk(cal, s, n), now) == Backlog(cal, s, now) - n
  {
    if n > 0 {
      BacklogAfter(cal, s, now, n - 1);
    }
  }

  /** The periods passed after `runs` runs of at most `limit` periods each. */
  function Passed(cal: Periods, s: int, now: int, limit: nat, runs: nat): (n: nat)
    ensures n <= Backlog(cal, s, now)
  {
    if runs == 0 then 0
    else
      var before := Passed(cal, s, now, limit, runs - 1);
      BacklogAfter(cal, s, now, before);
      before + Min(limit, Backlog(cal, Walk(cal, s, before), now))
  }

  function Times(n: nat, limit: nat): nat {
    if n == 0 then 0 else Times(n - 1, limit) + limit
  }

  /** Runs drain the backlog, `limit` periods each until nothing is left. */
  lemma {:induction false} RunsDrain(cal: Periods, s: int, now: int, limit: nat, runs: nat)
    ensures Passed(cal, s, now, limit, runs) == Min(Times(runs, limit), Backlog(cal, s, now))
  {
    if runs > 0 {
      RunsDrain(cal, s, now, limit, runs - 1);
      BacklogAfter(cal, s, now, Passed(cal, s, now, limit, runs - 1));
    }
  }

  lemma {:induction false} TimesAtLeast(runs: nat, limit: nat)
    requires limit >= 1
    ensures Times(runs, limit) >= runs
  {
    if runs > 0 {
      TimesAtLeast(runs - 1, limit);
    }
  }

  /** As many runs as there are periods leave no complete period behind. */
  lemma {:induction false} BacklogDrains(cal: Periods, s: int, now: int, limit: nat, runs: nat)
    requires limit >= 1 && runs >= Backlog(cal, s, now)
    ensures Backlog(cal, Walk(cal, s, Passed(cal, s, now, limit, runs)), now) == 0
  {
    RunsDrain(cal, s, now, limit, runs);
    TimesAtLeast(runs, limit);
    BacklogAfter(cal, s, now, Passed(cal, s, now, limit, runs));
  }

  // ----- the calendar -----

  function PeriodAt(scope: Scope, t: int): Period {
    if InRange(t) then PeriodFor(scope, t) else Period(scope, t, t + 1)
  }

  function CalendarOf(scope: Scope): Periods {
    (t: int) => PeriodAt(scope, t)
  }

  lemma {:induction false} PeriodAtTiles(scope: Scope, t: int, u: int)
    requires InRange(t)
    ensures var p := PeriodAt(scope, t);
            p.start <= t < p.end && InRange(p.start) && PeriodAt(scope, p.end).start == p.end
            && (p.start <= u < p.end ==> PeriodAt(scope, u) == p)
  {
    PeriodContains(scope, t);
    PeriodsTile(scope, t);
    if PeriodFor(scope, t).start <= u < PeriodFor(scope, t).end {
      PeriodUnique(scope, t, u);
    }
  }

  /** Daily and monthly periods partition time. */
  lemma {:induction false} CalendarTiles(scope: Scope)
    ensures Tiles(CalendarOf(scope))
  {
    var cal := CalendarOf(scope);
    forall t: int | InRange(t) ensures TilesAt(cal, t) {
      PeriodAtTiles(scope, t, t);
      forall u: int | cal(t).start <= u < cal(t).end ensures cal(u) == cal(t) {
        PeriodAtTiles(scope, t, u);
      }
    }
  }

  // ----- the days of a month -----

  lemma {:induction false} DayStep(d: Date, s: int)
    requires Valid(d) && s == LocalMidnight(d)
    ensures CalendarOf(Daily)(s).end == s + DAY_LENGTH
  {
    MidnightDate(d);
    PeriodForm(Daily, s);
    NextDayOrdinal(d);
  }

  lemma {:induction false} DayMidnight(first: Date, day: int)
    requires Valid(first) && first.day == 1
    ensures LocalMidnight(first.(day := day)) == LocalMidnight(first) + (day - 1) * DAY_LENGTH
  {
    OrdinalInMonth(first, day);
  }

  lemma {:induction false} WalkOfDays(cal: Periods, s: int, n: nat)
    requires forall i :: 0 <= i < n ==> cal(s + i * DAY_LENGTH).end == s + i * DAY_LENGTH + DAY_LENGTH
    ensures Walk(cal, s, n) == s + n * DAY_LENGTH
  {
    if n > 0 {
      WalkOfDays(cal, s, n - 1);
    }
  }

  /** One day of a month, by its place from the start. */
  lemma {:induction false} DayAt(first: Date, i: nat, s: int, cal: Periods)
    requires Valid(first) && first.day == 1 && i < MonthLength(first.year, first.month)
    requires s == LocalMidnight(first) && cal == CalendarOf(Daily)
    ensures cal(s + i * DAY_LENGTH).end == s + i * DAY_LENGTH + DAY_LENGTH
  {
    DayMidnight(first, i + 1);
    DayStep(first.(day := i + 1), s + i * DAY_LENGTH);
  }

  lemma {:induction false} DaysAbut(first: Date, s: int, n: nat, cal: Periods)
    requires Valid(first) && first.day == 1 && n == MonthLength(first.year, first.month)
    requires s == LocalMidnight(first) && cal == CalendarOf(Daily)
    ensures Walk(cal, s, n) == s + n * DAY_LENGTH
  {
    forall i | 0 <= i < n ensures cal(s + i * DAY_LENGTH).end == s + i * DAY_LENGTH + DAY_LENGTH {
      DayAt(first, i, s, cal);
    }
    WalkOfDays(cal, s, n);
  }

  lemma {:induction false} MonthSpan(first: Date)
    requires Valid(first) && first.day == 1
    ensures LocalMidnight(NextMonth(first)) == LocalMidnight(first) + MonthLength(first.year, first.month) * DAY_LENGTH
  {
    NextMonthOrdinal(first);
  }

  lemma {:induction false} DaysOfMonth(first: Date)
    requires Valid(first) && first.day == 1
    ensures Walk(CalendarOf(Daily), LocalMidnight(first), MonthLength(first.year, first.month)) == LocalMidnight(NextMonth(first))
  {
    DaysAbut(first, LocalMidnight(first), MonthLength(first.year, first.month), CalendarOf(Daily));
    MonthSpan(first);
  }

  /** The days of a month walk from its start to its end. */
  lemma {:induction false} DaysFillMonth(t: int, today: Date, month: Period)
    requires InRange(t) && today == LocalDate(t) && month == PeriodFor(Monthly, t)
    ensures Walk(CalendarOf(Daily), month.start, MonthLength(today.year, today.month)) == month.end
  {
    var first := today.(day := 1);
    PeriodForm(Monthly, t);
    assert FirstDate(Monthly, today) == first && NextDate(Monthly, today) == NextMonth(first);
    DaysOfMonth(first);
  }
}
