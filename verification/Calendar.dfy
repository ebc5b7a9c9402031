/**
 The civil calendar behind the budget periods, and the periods themselves. Instants are
 microseconds; local time is eight hours ahead of UTC.
 */
module Calendar {

  datatype Date = Date(year: int, month: int, day: int)

  predicate Leap(year: int) {
    year % 4 == 0 && (year % 100 != 0 || year % 400 == 0)
  }

  function MonthLength(year: int, month: int): int {
    if month == 2 then (if Leap(year) then 29 else 28)
    else if month == 4 || month == 6 || month == 9 || month == 11 then 30
    else 31
  }

  predicate Valid(d: Date) {
    d.year >= 1 && 1 <= d.month <= 12 && 1 <= d.day <= MonthLength(d.year, d.month)
  }

  function NextMonth(d: Date): Date {
    if d.month == 12 then Date(d.year + 1, 1, 1) else Date(d.year, d.month + 1, 1)
  }

  function NextDay(d: Date): Date {
    if d.day < MonthLength(d.year, d.month) then d.(day := d.day + 1) else NextMonth(d)
  }

  /** The date of day `n`, where day 1 is the first of January of year 1. */
  function DateOf(n: int): (d: Date)
    requires n >= 1
    ensures Valid(d)
    decreases n
  {
    if n == 1 then Date(1, 1, 1) else NextDay(DateOf(n - 1))
  }

  // ----- the day number of a date, in closed form -----

  /** The day number of the first of January. */
  function YearStart(year: int): int {
    365 * (year - 1) + (year - 1) / 4 - (year - 1) / 100 + (year - 1) / 400 + 1
  }

  function DaysBefore(year: int, month: int): int
    requires 1 <= month <= 13
    decreases month
  {
    if month == 1 then 0 else DaysBefore(year, month - 1) + MonthLength(year, month - 1)
  }

  function Ordinal(d: Date): int
    requires 1 <= d.month <= 12
  {
    YearStart(d.year) + DaysBefore(d.year, d.month) + d.day - 1
  }

  lemma {:induction false} FloorStep(x: int, k: int)
    requires k > 0
    ensures x / k - (x - 1) / k == if x % k == 0 then 1 else 0
  {
    var q, r := (x - 1) / k, (x - 1) % k;
    assert x - 1 == k * q + r;
    if r == k - 1 {
      assert x == k * (q + 1);
      Quotient(x, k, q + 1, 0);
    } else {
      Quotient(x, k, q, r + 1);
    }
  }

  lemma {:induction false} ScaleSign(k: int, d: int)
    requires k > 0
    ensures d >= 1 ==> k * d >= k
    ensures d <= -1 ==> k * d <= -k
  {
    assert k * d == k + k * (d - 1) == -k + k * (d + 1);
  }

  lemma {:induction false} Quotient(x: int, k: int, q: int, r: int)
    requires k > 0 && x == k * q + r && 0 <= r < k
    ensures x / k == q && x % k == r
  {
    var d := x / k - q;
    assert x == k * (x / k) + x % k;
    assert k * d == k * (x / k) - k * q;
    ScaleSign(k, d);
  }

  lemma {:induction false} Multiples(year: int)
    ensures year % 400 == 0 ==> year % 100 == 0
    ensures year % 100 == 0 ==> year % 4 == 0
  {
  }

  lemma {:induction false} YearLength(year: int)
    ensures YearStart(year + 1) - YearStart(year) == if Leap(year) then 366 else 365
  {
    FloorStep(year, 4);
    FloorStep(year, 100);
    FloorStep(year, 400);
    Multiples(year);
  }

  lemma {:induction false} MonthsFillYear(year: int)
    ensures DaysBefore(year, 13) == if Leap(year) then 366 else 365
  {
    var d := DaysBefore(year, 7);
    assert d == if Leap(year) then 182 else 181 by {
      assert DaysBefore(year, 4) == if Leap(year) then 91 else 90 by {
        assert DaysBefore(year, 2) == 31;
      }
    }
    assert DaysBefore(year, 10) == d + 92;
  }

  lemma {:induction false} NextMonthOrdinal(d: Date)
    requires 1 <= d.month <= 12
    ensures Ordinal(NextMonth(d)) == Ordinal(d.(day := 1)) + MonthLength(d.year, d.month)
  {
    if d.month == 12 {
      YearLength(d.year);
      MonthsFillYear(d.year);
    }
  }

  lemma {:induction false} NextDayOrdinal(d: Date)
    requires 1 <= d.month <= 12 && 1 <= d.day <= MonthLength(d.year, d.month)
    ensures Ordinal(NextDay(d)) == Ordinal(d) + 1
  {
    NextMonthOrdinal(d);
  }

  lemma {:induction false} DateOfNext(n: int, m: int, d: Date)
    requires n >= 1 && m == n + 1 && DateOf(n) == d
    ensures DateOf(m) == NextDay(d)
  {
  }

  /** Counting days one by one agrees with the closed form. */
  lemma {:induction false} OrdinalOfDate(n: int, d: Date)
    requires n >= 1 && d == DateOf(n)
    ensures Ordinal(d) == n
    decreases n
  {
    if n > 1 {
      var before := DateOf(n - 1);
      OrdinalOfDate(n - 1, before);
      NextDayOrdinal(before);
      DateOfNext(n - 1, n, before);
    } else {
      FirstDay();
    }
  }

  lemma {:induction false} FirstDay()
    ensures Ordinal(Date(1, 1, 1)) == 1
  {
    assert DaysBefore(1, 1) == 0;
    FirstYear();
  }

  lemma {:induction false} FirstYear()
    ensures YearStart(1) == 1
  {
  }

  function PreviousDay(d: Date): Date {
    if d.day > 1 then d.(day := d.day - 1)
    else if d.month > 1 then Date(d.year, d.month - 1, MonthLength(d.year, d.month - 1))
    else Date(d.year - 1, 12, 31)
  }

  lemma {:induction false} PreviousDayIsBefore(d: Date)
    requires Valid(d) && d != Date(1, 1, 1)
    ensures Valid(PreviousDay(d)) && NextDay(PreviousDay(d)) == d
  {
  }

  /** The two are inverse: each valid date has its own day number. */
  lemma {:induction false} DateOfOrdinal(d: Date)
    requires Valid(d)
    ensures Ordinal(d) >= 1 && DateOf(Ordinal(d)) == d
    decreases d.year, d.month, d.day
  {
    if d == Date(1, 1, 1) {
      FirstDay();
    } else {
      PreviousDayIsBefore(d);
      DateOfOrdinal(PreviousDay(d));
      NextDayOrdinal(PreviousDay(d));
      DateOfNext(Ordinal(PreviousDay(d)), Ordinal(d), PreviousDay(d));
    }
  }

  // ----- periods -----

  datatype Scope = Daily | Monthly

  /** A half-open window of instants. */
  datatype Period = Period(scope: Scope, start: int, end: int)

  const DAY_LENGTH := 86_400_000_000
  const OFFSET := 28_800_000_000

  /** The first instant whose local date is in year 1. */
  const EARLIEST := DAY_LENGTH - OFFSET

  predicate InRange(t: int) {
    t >= EARLIEST
  }

  function LocalDate(t: int): Date
    requires InRange(t)
  {
    DateOf((t + OFFSET) / DAY_LENGTH)
  }

  function LocalMidnight(d: Date): int
    requires 1 <= d.month <= 12
  {
    Ordinal(d) * DAY_LENGTH - OFFSET
  }

  /** `date + timedelta(days=n)`. */
  function PlusDays(d: Date, n: nat): Date
    requires Valid(d)
  {
    DateOfOrdinal(d);
    DateOf(Ordinal(d) + n)
  }

  /** The period of the scope that holds `t`, as `period_for` computes it. */
  function PeriodFor(scope: Scope, t: int): Period
    requires InRange(t)
  {
    var today := LocalDate(t);
    match scope
    case Daily => Period(Daily, LocalMidnight(today), LocalMidnight(PlusDays(today, 1)))
    case Monthly =>
      var first := today.(day := 1);
      Period(Monthly, LocalMidnight(first), LocalMidnight(PlusDays(first, 32).(day := 1)))
  }

  lemma {:induction false} MidnightDate(d: Date)
    requires Valid(d)
    ensures InRange(LocalMidnight(d)) && LocalDate(LocalMidnight(d)) == d
  {
    DateOfOrdinal(d);
    Quotient(LocalMidnight(d) + OFFSET, DAY_LENGTH, Ordinal(d), 0);
  }

  lemma {:induction false} OrdinalInMonth(d: Date, day: int)
    requires 1 <= d.month <= 12
    ensures Ordinal(d.(day := day)) == Ordinal(d.(day := 1)) + day - 1
  {
  }

  /** The date thirty-two days past the first of a month. */
  function Later(first: Date): Date {
    NextMonth(first).(day := 33 - MonthLength(first.year, first.month))
  }

  lemma {:induction false} LaterOrdinal(first: Date)
    requires Valid(first) && first.day == 1
    ensures Valid(Later(first)) && Ordinal(Later(first)) == Ordinal(first) + 32
  {
    NextMonthOrdinal(first);
    OrdinalInMonth(NextMonth(first), Later(first).day);
  }

  lemma {:induction false} DateAfter(d: Date, n: nat, later: Date)
    requires Valid(d) && Valid(later) && Ordinal(later) == Ordinal(d) + n
    ensures PlusDays(d, n) == later
  {
    DateOfOrdinal(later);
  }

  /** Thirty-two days past the first of a month is always in the next month. */
  lemma {:induction false} MonthStep(first: Date)
    requires Valid(first) && first.day == 1
    ensures PlusDays(first, 32).(day := 1) == NextMonth(first)
  {
    LaterOrdinal(first);
    DateAfter(first, 32, Later(first));
  }

  /** The first day of the period of `today`, and of the next period. */
  function FirstDate(scope: Scope, today: Date): Date {
    if scope.Daily? then today else today.(day := 1)
  }

  function NextDate(scope: Scope, today: Date): Date {
    if scope.Daily? then NextDay(today) else NextMonth(today)
  }

  lemma {:induction false} NextDateForm(scope: Scope, today: Date)
    requires Valid(today)
    ensures Valid(FirstDate(scope, today)) && Valid(NextDate(scope, today))
    ensures NextDate(scope, today)
         == if scope.Daily? then PlusDays(today, 1) else PlusDays(today.(day := 1), 32).(day := 1)
  {
    if scope.Daily? {
      NextDayOrdinal(today);
      DateAfter(today, 1, NextDay(today));
    } else {
      MonthStep(today.(day := 1));
    }
  }

  /** The window of a day and of a month, by the dates they start on. */
  lemma {:induction false} PeriodForm(scope: Scope, t: int)
    requires InRange(t)
    ensures Valid(FirstDate(scope, LocalDate(t))) && Valid(NextDate(scope, LocalDate(t)))
    ensures PeriodFor(scope, t)
         == Period(scope, LocalMidnight(FirstDate(scope, LocalDate(t))), LocalMidnight(NextDate(scope, LocalDate(t))))
  {
    NextDateForm(scope, LocalDate(t));
  }

  lemma {:induction false} DayOf(t: int)
    requires InRange(t)
    ensures Valid(LocalDate(t))
    ensures Ordinal(LocalDate(t)) * DAY_LENGTH <= t + OFFSET < (Ordinal(LocalDate(t)) + 1) * DAY_LENGTH
  {
    OrdinalOfDate((t + OFFSET) / DAY_LENGTH, LocalDate(t));
  }

  lemma {:induction false} ScaleLe(a: int, b: int)
    requires a <= b
    ensures a * DAY_LENGTH <= b * DAY_LENGTH
  {
  }

  /** A period is at least a day long, and `today` is inside it. */
  lemma {:induction false} PeriodDays(scope: Scope, today: Date)
    requires Valid(today)
    ensures Valid(FirstDate(scope, today)) && Valid(NextDate(scope, today))
    ensures Ordinal(FirstDate(scope, today)) <= Ordinal(today) < Ordinal(NextDate(scope, today))
  {
    OrdinalInMonth(today, today.day);
    NextDayOrdinal(today);
    NextMonthOrdinal(today);
  }

  /** An instant lies in its own period. */
  lemma {:induction false} PeriodContains(scope: Scope, t: int)
    requires InRange(t)
    ensures var p := PeriodFor(scope, t);
            p.scope == scope && p.start <= t < p.end && InRange(p.start) && InRange(p.end)
  {
    var today := LocalDate(t);
    PeriodForm(scope, t);
    DayOf(t);
    PeriodDays(scope, today);
    var first, next := FirstDate(scope, today), NextDate(scope, today);
    MidnightDate(first);
    MidnightDate(next);
    ScaleLe(Ordinal(first), Ordinal(today));
    ScaleLe(Ordinal(today) + 1, Ordinal(next));
  }

  lemma {:induction false} FirstOfNext(scope: Scope, today: Date)
    requires Valid(today)
    ensures FirstDate(scope, NextDate(scope, today)) == NextDate(scope, today)
  {
  }

  /** The period after a period starts where it ends. */
  lemma {:induction false} PeriodsTile(scope: Scope, t: int)
    requires InRange(t)
    ensures var p := PeriodFor(scope, t); InRange(p.end) && PeriodFor(scope, p.end).start == p.end
  {
    var today := LocalDate(t);
    PeriodForm(scope, t);
    MidnightDate(NextDate(scope, today));
    PeriodForm(scope, PeriodFor(scope, t).end);
    FirstOfNext(scope, today);
  }

  lemma {:induction false} DayBetween(t: int, low: int, high: int)
    requires InRange(t) && low * DAY_LENGTH - OFFSET <= t < high * DAY_LENGTH - OFFSET
    ensures low <= (t + OFFSET) / DAY_LENGTH < high
  {
    var n := (t + OFFSET) / DAY_LENGTH;
    DayOf(t);
    OrdinalOfDate(n, LocalDate(t));
    if n < low {
      ScaleLe(n + 1, low);
    }
    if n >= high {
      ScaleLe(high, n);
    }
  }

  /** A date between the first day of a period and the next period is of that period. */
  lemma {:induction false} SamePeriod(scope: Scope, today: Date, other: Date)
    requires Valid(today) && Valid(other)
    requires Ordinal(FirstDate(scope, today)) <= Ordinal(other) < Ordinal(NextDate(scope, today))
    ensures FirstDate(scope, other) == FirstDate(scope, today)
    ensures NextDate(scope, other) == NextDate(scope, today)
  {
    var first := FirstDate(scope, today);
    if scope.Daily? {
      NextDayOrdinal(today);
      SameOrdinal(other, today);
    } else {
      NextMonthOrdinal(first);
      var day := Ordinal(other) - Ordinal(first) + 1;
      OrdinalInMonth(first, day);
      SameOrdinal(other, first.(day := day));
    }
  }

  lemma {:induction false} SameOrdinal(a: Date, b: Date)
    requires Valid(a) && Valid(b) && Ordinal(a) == Ordinal(b)
    ensures a == b
  {
    DateOfOrdinal(a);
    DateOfOrdinal(b);
  }

  /** Every instant of a period has that period: periods of a scope are equal or disjoint. */
  lemma {:induction false} PeriodUnique(scope: Scope, t: int, u: int)
    requires InRange(t) && PeriodFor(scope, t).start <= u < PeriodFor(scope, t).end
    ensures InRange(u) && PeriodFor(scope, u) == PeriodFor(scope, t)
  {
    var today := LocalDate(t);
    PeriodForm(scope, t);
    PeriodContains(scope, t);
    PeriodDays(scope, today);
    DayBetween(u, Ordinal(FirstDate(scope, today)), Ordinal(NextDate(scope, today)));
    DayOf(u);
    OrdinalOfDate((u + OFFSET) / DAY_LENGTH, LocalDate(u));
    SamePeriod(scope, today, LocalDate(u));
    PeriodForm(scope, u);
  }

  /** Midnight, eight hours ahead of UTC. */
  predicate AtMidnight(t: int) {
    (t + 28_800_000_000) % 86_400_000_000 == 0
  }

  lemma {:induction false} DateAtMidnight(d: Date)
    requires Valid(d)
    ensures AtMidnight(LocalMidnight(d))
  {
    assert LocalMidnight(d) + 28_800_000_000 == 86_400_000_000 * Ordinal(d);
  }

  /** Both ends of a period are midnights. */
  lemma {:induction false} PeriodAtMidnight(scope: Scope, t: int)
    requires InRange(t)
    ensures AtMidnight(PeriodFor(scope, t).start) && AtMidnight(PeriodFor(scope, t).end)
  {
    PeriodForm(scope, t);
    DateAtMidnight(FirstDate(scope, LocalDate(t)));
    DateAtMidnight(NextDate(scope, LocalDate(t)));
  }

  /** A daily period is the twenty-four hours of its date. */
  lemma {:induction false} DayBounds(t: int)
    requires InRange(t)
    ensures var p := PeriodFor(Daily, t);
            p.end == p.start + 86_400_000_000 && InRange(p.start) && LocalDate(p.start) == LocalDate(t)
  {
    PeriodForm(Daily, t);
    MidnightDate(LocalDate(t));
    NextDayOrdinal(LocalDate(t));
  }

  /** A monthly period runs from the first of its month to the first of the next. */
  lemma {:induction false} MonthBounds(t: int)
    requires InRange(t)
    ensures var p, today := PeriodFor(Monthly, t), LocalDate(t);
            && InRange(p.start) && LocalDate(p.start) == Date(today.year, today.month, 1)
            && InRange(p.end)
            && LocalDate(p.end) == if today.month < 12 then Date(today.year, today.month + 1, 1) else Date(today.year + 1, 1, 1)
  {
    DayOf(t);
    PeriodForm(Monthly, t);
    MidnightDate(FirstDate(Monthly, LocalDate(t)));
    MidnightDate(NextDate(Monthly, LocalDate(t)));
  }
}
