/**
  Next-run search of a cron expression (cli/scheduler/cronexpr.go, match and Next).  Instants are
  nanoseconds since Go's zero time; the search goes minute by minute over a five-year window.
 */
module Cron {
  import opened Arithmetic
  import opened Calendar
  import opened CronField

  const MINUTE := 60_000_000_000
  const MINUTES_PER_DAY := 1440

  /** match, on the number of a minute. */
  predicate Matches(c: CronExpr, t: nat) {
    var d := DateOf(t / MINUTES_PER_DAY);
    && t % 60 in c.minute
    && t / 60 % 24 in c.hour
    && d.day in c.dom
    && d.month in c.month
    && Weekday(t / MINUTES_PER_DAY) in c.dow
  }

  /** AddDate(5, 0, 0) on minutes. */
  function FiveYearsLater(t: nat): nat {
    var d := DateOf(t / MINUTES_PER_DAY);
    DayNumber(d.year + 5, d.month, d.day) * MINUTES_PER_DAY + t % MINUTES_PER_DAY
  }

  /** The first minute Next looks at. */
  function FirstMinute(from: nat): nat { from / MINUTE + 1 }

  /** First match from t to the deadline, or 0. */
  function FirstMatch(c: CronExpr, t: nat, deadline: nat): nat
    decreases if t <= deadline then deadline + 1 - t else 0
  {
    if t > deadline then 0 else if Matches(c, t) then t else FirstMatch(c, t + 1, deadline)
  }

  /** Next; the zero time 0 means that the window holds no match. */
  function Next(c: CronExpr, from: nat): nat {
    FirstMatch(c, FirstMinute(from), FiveYearsLater(FirstMinute(from))) * MINUTE
  }

  lemma WholeMinutes(k: int, t: int)
    ensures k * MINUTE / MINUTE == k && k * MINUTE % MINUTE == 0
    ensures t < k * MINUTE <==> t / MINUTE + 1 <= k
  {
  }

  /** What matches once matches again after 400 years. */
  lemma MatchesRepeat(c: CronExpr, t: nat)
    requires Matches(c, t)
    ensures Matches(c, t + DAYS_IN_400_YEARS * MINUTES_PER_DAY)
  {
    hide DateOf, Weekday;
    CalendarRepeats(t / MINUTES_PER_DAY);
    MinutesRepeat(t, DAYS_IN_400_YEARS);
  }

  lemma MinutesRepeat(t: nat, days: nat)
    ensures var t' := t + days * MINUTES_PER_DAY;
            t' / MINUTES_PER_DAY == t / MINUTES_PER_DAY + days && t' % 60 == t % 60 && t' / 60 % 24 == t / 60 % 24
  {
    var h := t / 60;
    ModIs(t / MINUTES_PER_DAY + days, t % MINUTES_PER_DAY, MINUTES_PER_DAY);
    ModIs(h + 24 * days, t % 60, 60);
    ModIs(h / 24 + days, h % 24, 24);
  }

  method NextRun(c: CronExpr, from: nat) returns (t: nat)
    ensures t == Next(c, from)
  {
    hide Matches, FiveYearsLater;
    t := from / MINUTE * MINUTE + MINUTE;
    ghost var k := FirstMinute(from);
    WholeMinutes(k, from);
    var last := FiveYearsLater(t / MINUTE);
    var deadline := last * MINUTE;
    while t <= deadline
      invariant t == k * MINUTE && k >= 1
      invariant FirstMatch(c, FirstMinute(from), last) == FirstMatch(c, k, last)
      decreases deadline + MINUTE - t
    {
      WholeMinutes(k, from);
      if Matches(c, t / MINUTE) {
        return t;
      }
      t := t + MINUTE;
      k := k + 1;
    }
    t := 0;
  }

  lemma {:induction false} FirstMatchMeaning(c: CronExpr, t: nat, deadline: nat)
    requires 1 <= t
    ensures var r := FirstMatch(c, t, deadline);
            && (r != 0 ==> t <= r <= deadline && Matches(c, r) && forall m: nat :: t <= m < r ==> !Matches(c, m))
            && (r == 0 ==> forall m: nat :: t <= m <= deadline ==> !Matches(c, m))
    decreases if t <= deadline then deadline + 1 - t else 0
  {
    if t <= deadline && !Matches(c, t) {
      FirstMatchMeaning(c, t + 1, deadline);
    }
  }

  /**
    Next returns the earliest matching minute strictly after the given instant, and the zero time exactly
    when no minute of the five-year window matches.
   */
  lemma NextMeaning(c: CronExpr, from: nat)
    ensures var r := Next(c, from); var last := FiveYearsLater(FirstMinute(from));
            && (r == 0 <==> forall m: nat :: from < m * MINUTE && m <= last ==> !Matches(c, m))
            && (r != 0 ==> r % MINUTE == 0 && from < r && r / MINUTE <= last && Matches(c, r / MINUTE))
            && (r != 0 ==> forall m: nat :: from < m * MINUTE < r ==> !Matches(c, m))
  {
    var t, last := FirstMinute(from), FiveYearsLater(FirstMinute(from));
    FirstMatchMeaning(c, t, last);
    var k := FirstMatch(c, t, last);
    WholeMinutes(k, from);
    forall m: nat ensures from < m * MINUTE <==> t <= m {
      WholeMinutes(m, from);
    }
  }

  /** Mondays that are the 29th of February, at midnight ("0 0 29 2 1"). */
  const LEAP_MONDAYS := CronExpr([0], [0], [29], [2], [1])

  /** Midnight of the 29th of February. */
  function LeapDay(y: nat): nat
    requires 1 <= y
  {
    DayNumber(y, 2, 29) * MINUTES_PER_DAY
  }

  lemma LeapMondayMatches(y: nat)
    requires 1 <= y && IsLeap(y) && Weekday(DayNumber(y, 2, 29)) == 1
    ensures Matches(LEAP_MONDAYS, LeapDay(y))
  {
    hide DayNumber, DateOf;
    DateOfDay(Date(y, 2, 29));
    MinuteParts(DayNumber(y, 2, 29), 0, 0);
  }

  lemma LeapMondaysOnly(t: nat)
    requires Matches(LEAP_MONDAYS, t)
    ensures var y := DateOf(t / MINUTES_PER_DAY).year; IsLeap(y) && t == LeapDay(y) && Weekday(DayNumber(y, 2, 29)) == 1
  {
    hide DayNumber, DateOf;
    DayOfDate(t / MINUTES_PER_DAY);
    MidnightParts(t);
  }

  lemma MidnightParts(t: nat)
    requires t % 60 == 0 && t / 60 % 24 == 0
    ensures t == t / MINUTES_PER_DAY * MINUTES_PER_DAY
  {
  }

  /** The five years after 29 February 2016, a Monday, hold no such day; 2044 and 2072 have the next two. */
  lemma LeapMondayIsNotFound()
    ensures Matches(LEAP_MONDAYS, LeapDay(2016)) && Matches(LEAP_MONDAYS, LeapDay(2044)) && Matches(LEAP_MONDAYS, LeapDay(2072))
    ensures 0 < LeapDay(2016) < LeapDay(2044) < LeapDay(2072)
    ensures Next(LEAP_MONDAYS, LeapDay(2016) * MINUTE) == 0
  {
    LeapDaysOfNote();
    LeapMondayMatches(2016);
    LeapMondayMatches(2044);
    LeapMondayMatches(2072);
    var a := LeapDay(2016);
    NextMeaning(LEAP_MONDAYS, a * MINUTE);
    WindowAfterLeapDay();
    forall m: nat | a * MINUTE < m * MINUTE && m <= FiveYearsLater(FirstMinute(a * MINUTE)) ensures !Matches(LEAP_MONDAYS, m) {
      if Matches(LEAP_MONDAYS, m) {
        LeapMondaysOnly(m);
        OnlyLeapDayInWindow(DateOf(m / MINUTES_PER_DAY).year);
      }
    }
  }

  lemma LeapDaysOfNote()
    ensures DayNumber(2016, 2, 29) == 736022 && DayNumber(2020, 2, 29) == 737483 && DayNumber(2021, 2, 29) == 737849
    ensures DayNumber(2044, 2, 29) == 746249 && DayNumber(2072, 2, 29) == 756476
    ensures Weekday(736022) == 1 && Weekday(737483) == 6 && Weekday(746249) == 1 && Weekday(756476) == 1
  {
  }

  lemma WindowAfterLeapDay()
    ensures FiveYearsLater(FirstMinute(LeapDay(2016) * MINUTE)) == LeapDay(2021) + 1
  {
    hide DateOf, DayNumber;
    var day := DayNumber(2016, 2, 29);
    WholeMinutes(LeapDay(2016), 0);
    DateOfDay(Date(2016, 2, 29));
    MinuteParts(day, 0, 1);
    MinuteOfDay(day);
  }

  lemma MinuteOfDay(day: nat)
    ensures (day * MINUTES_PER_DAY + 1) % MINUTES_PER_DAY == 1
  {
  }

  /** The only 29th of February in the window is that of 2020, a Saturday. */
  lemma OnlyLeapDayInWindow(y: nat)
    requires 1 <= y && IsLeap(y) && LeapDay(2016) < LeapDay(y) <= LeapDay(2021) + 1
    ensures y == 2020
  {
    if y < 2016 {
      LeapDaysIncrease(y, 2016);
    } else if y > 2021 {
      LeapDaysIncrease(2021, y);
    }
  }

  lemma LeapDaysIncrease(y: nat, z: nat)
    requires 1 <= y < z
    ensures LeapDay(y) + 1 < LeapDay(z)
  {
    YearsIncrease(y, z);
    MonthShift(y, 2);
    MonthShift(z, 2);
  }

  /** Some chosen day and month exist in every year. */
  predicate YearlyDate(c: CronExpr, m: nat, d: nat) {
    m in c.month && d in c.dom && 1 <= m <= 12 && 1 <= d <= DaysInMonth(1, m)
  }

  /** Minute h:mi of day m-d in year y. */
  function At(y: nat, m: nat, d: nat, h: nat, mi: nat): nat
    requires 1 <= y && 1 <= m <= 12 && 1 <= d
  {
    DayNumber(y, m, d) * MINUTES_PER_DAY + h * 60 + mi
  }

  lemma AtMatches(c: CronExpr, y: nat, m: nat, d: nat, h: nat, mi: nat)
    requires 1 <= y && YearlyDate(c, m, d) && h in c.hour && mi in c.minute && h < 24 && mi < 60
    requires forall w :: 0 <= w <= 6 ==> w in c.dow
    ensures Matches(c, At(y, m, d, h, mi))
  {
    hide DayNumber, DateOf;
    MinuteParts(DayNumber(y, m, d), h, mi);
    DateOfDay(Date(y, m, d));
  }

  lemma MinuteParts(day: nat, h: nat, mi: nat)
    requires h < 24 && mi < 60
    ensures var t := day * MINUTES_PER_DAY + h * 60 + mi;
            t / MINUTES_PER_DAY == day && t / 60 == day * 24 + h && t / 60 % 24 == h && t % 60 == mi
  {
  }

  lemma WithinItsYear(f: nat, y: nat, n: nat, n': nat, first: nat, next: nat, h: nat, mi: nat)
    requires first <= f / MINUTES_PER_DAY < next <= first + 366 && first <= n < next <= n' <= n + 366
    requires h < 24 && mi < 60
    ensures n * MINUTES_PER_DAY + h * 60 + mi <= f + 366 * MINUTES_PER_DAY
    ensures f < n' * MINUTES_PER_DAY + h * 60 + mi
    ensures n * MINUTES_PER_DAY + h * 60 + mi <= f ==>
              n' * MINUTES_PER_DAY + h * 60 + mi <= f + 366 * MINUTES_PER_DAY
  {
  }

  /** The date m-d comes round within 366 days of any minute. */
  lemma ComesRound(f: nat, m: nat, d: nat, h: nat, mi: nat) returns (y: nat)
    requires 1 <= m <= 12 && 1 <= d <= DaysInMonth(1, m) && h < 24 && mi < 60
    ensures 1 <= y && f < At(y, m, d, h, mi) <= f + 366 * MINUTES_PER_DAY
  {
    var day := f / MINUTES_PER_DAY;
    y := DateOf(day).year;
    DayOfDate(day);
    DateFits(DateOf(day));
    YearsFollow(y);
    ExistsEveryYear(y, m, d);
    ExistsEveryYear(y + 1, m, d);
    SameDateNextYear(y, m, d);
    WithinItsYear(f, y, DayNumber(y, m, d), DayNumber(y + 1, m, d), DaysBeforeYear(y), DaysBeforeYear(y + 1), h, mi);
    if At(y, m, d, h, mi) <= f {
      y := y + 1;
    }
  }

  lemma ExistsEveryYear(y: nat, m: nat, d: nat)
    requires 1 <= y && 1 <= m <= 12 && 1 <= d <= DaysInMonth(1, m)
    ensures DaysBeforeYear(y) <= DayNumber(y, m, d) < DaysBeforeYear(y + 1)
  {
    DateFits(Date(y, m, d));
  }

  lemma WindowIsLong(t: nat)
    ensures t + 366 * MINUTES_PER_DAY <= FiveYearsLater(t)
  {
    var d := DateOf(t / MINUTES_PER_DAY);
    DayOfDate(t / MINUTES_PER_DAY);
    SameDateNextYear(d.year, d.month, d.day);
    SameDateNextYear(d.year + 1, d.month, d.day);
    SameDateNextYear(d.year + 2, d.month, d.day);
    SameDateNextYear(d.year + 3, d.month, d.day);
    SameDateNextYear(d.year + 4, d.month, d.day);
  }

  /**
    With every day of the week allowed and some chosen date that exists in every year, Next always finds a
    run, and finds it within 366 days.
   */
  lemma YearlyRunsAreFound(c: CronExpr, from: nat, m: nat, d: nat)
    requires Valid(c) && YearlyDate(c, m, d) && forall w :: 0 <= w <= 6 ==> w in c.dow
    ensures from < Next(c, from) <= from + 366 * MINUTES_PER_DAY * MINUTE
  {
    var h, mi := c.hour[0], c.minute[0];
    assert h in c.hour && mi in c.minute;
    var f := from / MINUTE;
    var y := ComesRound(f, m, d, h, mi);
    var t := At(y, m, d, h, mi);
    AtMatches(c, y, m, d, h, mi);
    WindowIsLong(f + 1);
    NextMeaning(c, from);
    WholeMinutes(t, from);
    assert from < t * MINUTE <= from + 366 * MINUTES_PER_DAY * MINUTE;
  }
}
