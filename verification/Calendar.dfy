/**
  The proleptic Gregorian calendar in UTC, as package time of Go's standard library has it.
  Days are counted from 1 January of year 1, a Monday and the zero time of Go.
 */
module Calendar {
  import opened Arithmetic

  predicate IsLeap(y: nat) { y % 4 == 0 && (y % 100 != 0 || y % 400 == 0) }

  function DaysInMonth(y: nat, m: nat): nat
    requires 1 <= m <= 12
  {
    if m == 2 then (if IsLeap(y) then 29 else 28)
    else if m in {4, 6, 9, 11} then 30 else 31
  }

  function YearLength(y: nat): nat { if IsLeap(y) then 366 else 365 }

  function DaysBeforeYear(y: nat): nat
    requires 1 <= y
  {
    365 * (y - 1) + (y - 1) / 4 - (y - 1) / 100 + (y - 1) / 400
  }

  function DaysBeforeMonth(y: nat, m: nat): nat
    requires 1 <= m <= 13
  {
    if m == 1 then 0 else DaysBeforeMonth(y, m - 1) + DaysInMonth(y, m - 1)
  }

  datatype Date = Date(year: nat, month: nat, day: nat)

  predicate ValidDate(d: Date) {
    1 <= d.year && 1 <= d.month <= 12 && 1 <= d.day <= DaysInMonth(d.year, d.month)
  }

  /** Day number of a date; a day past the end of its month runs over into the next one, as time.Date normalises it. */
  function DayNumber(y: nat, m: nat, d: nat): nat
    requires 1 <= y && 1 <= m <= 12 && 1 <= d
  {
    DaysBeforeYear(y) + DaysBeforeMonth(y, m) + d - 1
  }

  /** The date n days after the first of a month. */
  function DateFrom(n: nat, y: nat, m: nat): (d: Date)
    requires 1 <= y && 1 <= m <= 12
    ensures ValidDate(d)
    decreases n
  {
    var k := DaysInMonth(y, m);
    if n < k then Date(y, m, n + 1)
    else if m < 12 then DateFrom(n - k, y, m + 1)
    else DateFrom(n - k, y + 1, 1)
  }

  /** The date of a day. */
  function DateOf(n: nat): (d: Date)
    ensures ValidDate(d)
  {
    DateFrom(n, 1, 1)
  }

  /** 0 is Sunday. */
  function Weekday(n: nat): nat { (n + 1) % 7 }

  lemma YearsFollow(y: nat)
    requires 1 <= y
    ensures DaysBeforeYear(y + 1) == DaysBeforeYear(y) + YearLength(y)
  {
    DivStep(y - 1, 4);
    DivStep(y - 1, 100);
    DivStep(y - 1, 400);
    LeapCounts(y);
  }

  lemma LeapCounts(y: nat)
    ensures (if y % 4 == 0 then 1 else 0) - (if y % 100 == 0 then 1 else 0) + (if y % 400 == 0 then 1 else 0)
              == if IsLeap(y) then 1 else 0
  {
    assert y % 400 == 0 ==> y % 100 == 0;
    assert y % 100 == 0 ==> y % 4 == 0;
  }

  lemma MonthsMakeTheYear(y: nat)
    ensures DaysBeforeMonth(y, 13) == YearLength(y)
  {
    var feb := DaysInMonth(y, 2);
    assert DaysBeforeMonth(y, 1) == 0;
    assert DaysBeforeMonth(y, 2) == 31;
    assert DaysBeforeMonth(y, 3) == 31 + feb;
    assert DaysBeforeMonth(y, 4) == 62 + feb;
    assert DaysBeforeMonth(y, 5) == 92 + feb;
    assert DaysBeforeMonth(y, 6) == 123 + feb;
    assert DaysBeforeMonth(y, 7) == 153 + feb;
    assert DaysBeforeMonth(y, 8) == 184 + feb;
    assert DaysBeforeMonth(y, 9) == 215 + feb;
    assert DaysBeforeMonth(y, 10) == 245 + feb;
    assert DaysBeforeMonth(y, 11) == 276 + feb;
    assert DaysBeforeMonth(y, 12) == 306 + feb;
  }

  lemma {:induction false} YearsIncrease(y: nat, z: nat)
    requires 1 <= y <= z
    ensures DaysBeforeYear(y) + 365 * (z - y) <= DaysBeforeYear(z)
    decreases z - y
  {
    if y < z {
      YearsFollow(y);
      YearsIncrease(y + 1, z);
    }
  }

  lemma {:induction false} MonthsIncrease(y: nat, m: nat, k: nat)
    requires 1 <= m <= k <= 13
    ensures DaysBeforeMonth(y, m) <= DaysBeforeMonth(y, k)
    decreases k
  {
    if m < k {
      MonthsIncrease(y, m, k - 1);
    }
  }

  /** A date fits into its month and its year. */
  lemma DateFits(d: Date)
    requires ValidDate(d)
    ensures DaysBeforeYear(d.year) <= DayNumber(d.year, d.month, d.day) < DaysBeforeYear(d.year + 1)
    ensures DaysBeforeMonth(d.year, d.month) <= DayNumber(d.year, d.month, d.day) - DaysBeforeYear(d.year)
                                             < DaysBeforeMonth(d.year, d.month + 1)
  {
    MonthsIncrease(d.year, d.month + 1, 13);
    MonthsMakeTheYear(d.year);
    YearsFollow(d.year);
  }

  lemma {:induction false} DayOfDateFrom(n: nat, y: nat, m: nat)
    requires 1 <= y && 1 <= m <= 12
    ensures var d := DateFrom(n, y, m); DayNumber(d.year, d.month, d.day) == DayNumber(y, m, 1) + n
    decreases n
  {
    hide DaysBeforeYear, DaysBeforeMonth, IsLeap;
    var k := DaysInMonth(y, m);
    if n >= k {
      if m < 12 {
        DayOfDateFrom(n - k, y, m + 1);
        MonthFollows(y, m);
      } else {
        DayOfDateFrom(n - k, y + 1, 1);
        YearFollows(y);
      }
    }
  }

  lemma MonthFollows(y: nat, m: nat)
    requires 1 <= y && 1 <= m < 12
    ensures DayNumber(y, m + 1, 1) == DayNumber(y, m, 1) + DaysInMonth(y, m)
  {
  }

  lemma YearFollows(y: nat)
    requires 1 <= y
    ensures DayNumber(y + 1, 1, 1) == DayNumber(y, 12, 1) + DaysInMonth(y, 12)
  {
    hide DaysBeforeYear, IsLeap;
    YearsFollow(y);
    MonthsMakeTheYear(y);
  }

  /** Days and dates correspond one to one. */
  lemma DayOfDate(n: nat)
    ensures DayNumber(DateOf(n).year, DateOf(n).month, DateOf(n).day) == n
  {
    DayOfDateFrom(n, 1, 1);
    assert DayNumber(1, 1, 1) == 0;
  }

  lemma DatesDiffer(d: Date, e: Date)
    requires ValidDate(d) && ValidDate(e) && DayNumber(d.year, d.month, d.day) == DayNumber(e.year, e.month, e.day)
    ensures d.year <= e.year && (d.year == e.year ==> d.month <= e.month)
  {
    DateFits(d);
    DateFits(e);
    YearsInOrder(e.year + 1, d.year);
    MonthsInOrder(d.year, e.month + 1, d.month);
  }

  lemma YearsInOrder(y: nat, z: nat)
    requires 1 <= y
    ensures y <= z ==> DaysBeforeYear(y) <= DaysBeforeYear(z)
  {
    if y <= z {
      YearsIncrease(y, z);
    }
  }

  lemma MonthsInOrder(y: nat, m: nat, k: nat)
    requires 1 <= m && k <= 13
    ensures m <= k ==> DaysBeforeMonth(y, m) <= DaysBeforeMonth(y, k)
  {
    if m <= k {
      MonthsIncrease(y, m, k);
    }
  }

  lemma DateOfDay(d: Date)
    requires ValidDate(d)
    ensures DateOf(DayNumber(d.year, d.month, d.day)) == d
  {
    var n := DayNumber(d.year, d.month, d.day);
    DayOfDate(n);
    DatesDiffer(d, DateOf(n));
    DatesDiffer(DateOf(n), d);
  }

  const DAYS_IN_400_YEARS := 146097

  /** After 400 years every date falls on the same day of the week again. */
  lemma CalendarRepeats(n: nat)
    ensures var d, d' := DateOf(n), DateOf(n + DAYS_IN_400_YEARS);
            d'.year == d.year + 400 && d'.month == d.month && d'.day == d.day
    ensures Weekday(n + DAYS_IN_400_YEARS) == Weekday(n)
  {
    hide DateOf, DayNumber;
    var d := DateOf(n);
    DayOfDate(n);
    DayNumberRepeats(d.year, d.month, d.day);
    YearsRepeat(d.year);
    DateOfDay(Date(d.year + 400, d.month, d.day));
  }

  lemma DayNumberRepeats(y: nat, m: nat, d: nat)
    requires 1 <= y && 1 <= m <= 12 && 1 <= d
    ensures DayNumber(y + 400, m, d) == DayNumber(y, m, d) + DAYS_IN_400_YEARS
  {
    hide IsLeap, DaysBeforeMonth, DaysBeforeYear;
    YearsRepeat(y);
    MonthShift(y, m);
    MonthShift(y + 400, m);
  }

  lemma YearsRepeat(y: nat)
    requires 1 <= y
    ensures DaysBeforeYear(y + 400) == DaysBeforeYear(y) + DAYS_IN_400_YEARS && (IsLeap(y + 400) <==> IsLeap(y))
  {
    hide IsLeap;
    var b := y - 1;
    assert (b + 400) / 4 == b / 4 + 100;
    assert (b + 400) / 100 == b / 100 + 4;
    assert (b + 400) / 400 == b / 400 + 1;
    LeapYearsRepeat(y);
  }

  lemma LeapYearsRepeat(y: nat)
    ensures IsLeap(y + 400) <==> IsLeap(y)
  {
    assert (y + 400) % 4 == y % 4;
    assert (y + 400) % 100 == y % 100;
    assert (y + 400) % 400 == y % 400;
  }

  /** The same date a year later is 365 or 366 days away. */
  lemma SameDateNextYear(y: nat, m: nat, d: nat)
    requires 1 <= y && 1 <= m <= 12 && 1 <= d
    ensures DayNumber(y, m, d) + 365 <= DayNumber(y + 1, m, d) <= DayNumber(y, m, d) + 366
  {
    YearsFollow(y);
    MonthShift(y, m);
    MonthShift(y + 1, m);
  }

  /** Only February moves the months behind it. */
  lemma {:induction false} MonthShift(y: nat, m: nat)
    requires 1 <= m <= 12
    ensures DaysBeforeMonth(y, m) == DaysBeforeMonth(1, m) + (if IsLeap(y) && m > 2 then 1 else 0)
  {
    if m > 1 {
      MonthShift(y, m - 1);
    }
  }
}
