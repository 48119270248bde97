/**
 * Proleptic-Gregorian calendar helpers of the datcon engine: leap years, month
 * and year lengths, and the day count that every conversion is built on.
 * The source repeats these helpers in several places; they are defined once here.
 */
module Calendar {

  /** A calendar tuple [Y, M, D, h, mi, s]: year, month, day, hour, minute, second. */
  datatype Fields = Fields(Y: int, M: int, D: int, h: int, mi: int, s: int)

  /** Gregorian leap rule, as the encoder, normaliser and decoder write it. */
  predicate IsLeapYear(y: int)
  {
    (y % 4 == 0 && y % 100 != 0) || y % 400 == 0
  }

  /** The same rule as the field views write it. */
  predicate IsLeapYearAsViewsWriteIt(y: int)
  {
    y % 4 == 0 && (y % 100 != 0 || y % 400 == 0)
  }

  lemma LeapYearFormsAgree(y: int)
    ensures IsLeapYear(y) <==> IsLeapYearAsViewsWriteIt(y)
  {
  }

  lemma LeapYearExamples()
    ensures IsLeapYear(0) && IsLeapYear(2000) && IsLeapYear(2024)
    ensures !IsLeapYear(1900) && !IsLeapYear(2023) && !IsLeapYear(2100)
  {
  }

  /** Month lengths of a common year, January first. */
  const MonthLengths: seq<int> := [31, 28, 31, 30, 31, 30, 31, 31, 30, 31, 30, 31]

  /** Length of month `m` in a year that is leap or not. */
  function MonthLength(leap: bool, m: int): (n: int)
    requires 1 <= m <= 12
    ensures 28 <= n <= 31
    ensures m == 2 ==> (n == 29 <==> leap) && (n == 28 <==> !leap)
  {
    if m == 2 then (if leap then 29 else 28)
    else if m == 4 || m == 6 || m == 9 || m == 11 then 30
    else 31
  }

  /** Length of month `m` of year `y`: February has 29 days exactly in leap years. */
  function DaysInMonth(y: int, m: int): (n: int)
    requires 1 <= m <= 12
    ensures 28 <= n <= 31
    ensures m == 2 ==> (n == 29 <==> IsLeapYear(y)) && (n == 28 <==> !IsLeapYear(y))
  {
    MonthLength(IsLeapYear(y), m)
  }

  /** February aside, a month's length is the table entry `mdays[m - 1]`. */
  lemma MonthLengthIsTable(leap: bool, m: int)
    requires 1 <= m <= 12
    ensures MonthLength(leap, m) == if m == 2 && leap then 29 else MonthLengths[m - 1]
  {
  }

  /** The month view's own helper: 31-day and 30-day months listed as sets. */
  function DaysInMonthBySets(y: int, m: int): int
    requires 1 <= m <= 12
  {
    if m in {1, 3, 5, 7, 8, 10, 12} then 31
    else if m in {4, 6, 9, 11} then 30
    else if IsLeapYear(y) then 29 else 28
  }

  lemma DaysInMonthFormsAgree(y: int, m: int)
    requires 1 <= m <= 12
    ensures DaysInMonth(y, m) == DaysInMonthBySets(y, m)
  {
  }

  function YearLength(leap: bool): int
  {
    if leap then 366 else 365
  }

  function DaysInYear(y: int): (n: int)
    ensures n == 365 || n == 366
    ensures n == 366 <==> IsLeapYear(y)
  {
    YearLength(IsLeapYear(y))
  }

  /** Days in the months before month `m` of a year that is leap or not (`for m in range(1, M)`). */
  function MonthsBefore(leap: bool, m: int): int
    requires m <= 13
    decreases m
  {
    if m <= 1 then 0 else MonthsBefore(leap, m - 1) + MonthLength(leap, m - 1)
  }

  /** Days of year `y` in the months before month `m`. */
  function MonthDaysBefore(y: int, m: int): int
    requires m <= 13
  {
    MonthsBefore(IsLeapYear(y), m)
  }

  /** The twelve months of a year add up to the year's length. */
  lemma MonthsBeforeFullYear(leap: bool)
    ensures MonthsBefore(leap, 13) == YearLength(leap)
  {
    assert MonthsBefore(leap, 1) == 0;
    assert MonthsBefore(leap, 2) == 31;
    assert MonthsBefore(leap, 3) == 31 + MonthLength(leap, 2);
    assert MonthsBefore(leap, 4) == 62 + MonthLength(leap, 2);
    assert MonthsBefore(leap, 5) == 92 + MonthLength(leap, 2);
    assert MonthsBefore(leap, 6) == 123 + MonthLength(leap, 2);
    assert MonthsBefore(leap, 7) == 153 + MonthLength(leap, 2);
    assert MonthsBefore(leap, 8) == 184 + MonthLength(leap, 2);
    assert MonthsBefore(leap, 9) == 215 + MonthLength(leap, 2);
    assert MonthsBefore(leap, 10) == 245 + MonthLength(leap, 2);
    assert MonthsBefore(leap, 11) == 276 + MonthLength(leap, 2);
    assert MonthsBefore(leap, 12) == 306 + MonthLength(leap, 2);
  }

  lemma MonthDaysBeforeFullYear(y: int)
    ensures MonthDaysBefore(y, 13) == DaysInYear(y)
  {
    MonthsBeforeFullYear(IsLeapYear(y));
  }

  lemma {:induction false} MonthsBeforeMonotone(leap: bool, m: int, n: int)
    requires 1 <= m <= n <= 13
    ensures MonthsBefore(leap, m) <= MonthsBefore(leap, n)
    decreases n - m
  {
    if m < n {
      MonthsBeforeMonotone(leap, m, n - 1);
    }
  }

  lemma MonthsBeforeStep(leap: bool, m: int)
    requires 1 <= m <= 12
    ensures MonthsBefore(leap, m + 1) == MonthsBefore(leap, m) + MonthLength(leap, m)
  {
  }

  /** The first day of a month plus its length is the first day of the month after, across a year end too. */
  lemma NextMonthStart(y: int, m: int)
    requires 1 <= m <= 12
    ensures DayIndex(y, m, 1) + DaysInMonth(y, m) == if m == 12 then DayIndex(y + 1, 1, 1) else DayIndex(y, m + 1, 1)
  {
    var leap := IsLeapYear(y);
    MonthsBeforeStep(leap, m);
    if m == 12 {
      MonthsBeforeFullYear(leap);
      DaysBeforeStep(y);
    }
  }

  /** Every day of an earlier month comes before every day of a later one. */
  lemma MonthOffsetOrdered(leap: bool, a: int, p: int, b: int, q: int)
    requires 1 <= a < b <= 12 && p < MonthLength(leap, a) && 0 <= q
    ensures MonthsBefore(leap, a) + p < MonthsBefore(leap, b) + q
  {
    MonthsBeforeStep(leap, a);
    MonthsBeforeMonotone(leap, a + 1, b);
  }

  /** A day offset inside a month determines the month: distinct months cover disjoint day ranges. */
  lemma MonthOffsetUnique(leap: bool, a: int, p: int, b: int, q: int)
    requires 1 <= a <= 12 && 0 <= p < MonthLength(leap, a)
    requires 1 <= b <= 12 && 0 <= q < MonthLength(leap, b)
    requires MonthsBefore(leap, a) + p == MonthsBefore(leap, b) + q
    ensures a == b && p == q
  {
    if a < b {
      MonthOffsetOrdered(leap, a, p, b, q);
    } else if b < a {
      MonthOffsetOrdered(leap, b, q, a, p);
    }
  }

  /**
   * Signed day number of Jan 1 of year `y`, counted from Jan 1 of year 0:
   * the lengths of years 0..y-1 for y >= 0, minus those of y..-1 for y < 0.
   */
  function DaysBefore(y: int): int
    decreases if y < 0 then -y else y
  {
    if y == 0 then 0
    else if y > 0 then DaysBefore(y - 1) + DaysInYear(y - 1)
    else DaysBefore(y + 1) - DaysInYear(y)
  }

  lemma DaysBeforeStep(y: int)
    ensures DaysBefore(y + 1) == DaysBefore(y) + DaysInYear(y)
  {
  }

  /** Each year is at least 365 days past the previous ones. */
  lemma {:induction false} YearDaysAtLeast(y: int, y0: int)
    requires y0 <= y
    ensures DaysBefore(y) - DaysBefore(y0) >= 365 * (y - y0)
    decreases y - y0
  {
    if y0 < y {
      DaysBeforeStep(y0);
      YearDaysAtLeast(y, y0 + 1);
    }
  }

  /** A day offset inside a year determines the year: distinct years cover disjoint day ranges. */
  lemma YearOffsetUnique(a: int, p: int, b: int, q: int)
    requires 0 <= p < DaysInYear(a) && 0 <= q < DaysInYear(b)
    requires DaysBefore(a) + p == DaysBefore(b) + q
    ensures a == b && p == q
  {
    if a < b {
      DaysBeforeStep(a);
      YearDaysAtLeast(b, a + 1);
    } else if b < a {
      DaysBeforeStep(b);
      YearDaysAtLeast(a, b + 1);
    }
  }

  /** Counting leap years one at a time agrees with the closed-form leap count. */
  lemma {:induction false} DaysBeforeClosedForm(y: int)
    ensures DaysBefore(y) == 365 * y + (y + 3) / 4 - (y + 99) / 100 + (y + 399) / 400
    decreases if y < 0 then -y else y
  {
    if y > 0 {
      DaysBeforeClosedForm(y - 1);
      LeapCountStep(y - 1);
    } else if y < 0 {
      DaysBeforeClosedForm(y + 1);
      LeapCountStep(y);
    }
  }

  /** The calendar repeats every 400 years: the same leap rule, and 146097 days to each cycle. */
  lemma FourHundredYearCycle(y: int)
    ensures IsLeapYear(y + 400) == IsLeapYear(y)
    ensures DaysBefore(y + 400) == DaysBefore(y) + 146097
  {
    assert (y + 400) % 4 == y % 4 && (y + 400) % 100 == y % 100 && (y + 400) % 400 == y % 400;
    assert (y + 403) / 4 == (y + 3) / 4 + 100;
    assert (y + 499) / 100 == (y + 99) / 100 + 4;
    assert (y + 799) / 400 == (y + 399) / 400 + 1;
    DaysBeforeClosedForm(y);
    DaysBeforeClosedForm(y + 400);
  }

  /** Moving the bound of the closed-form leap count past year `y` adds one exactly when `y` is leap. */
  lemma LeapCountStep(y: int)
    ensures ((y + 4) / 4 - (y + 100) / 100 + (y + 400) / 400)
            - ((y + 3) / 4 - (y + 99) / 100 + (y + 399) / 400)
            == (if IsLeapYear(y) then 1 else 0)
  {
    MultipleStep(y, 4);
    MultipleStep(y, 100);
    MultipleStep(y, 400);
    DivisorsOfCenturies(y);
  }

  /** Raising the bound of `(y + n - 1) / n` by one counts `y` exactly when `n` divides it. */
  lemma MultipleStep(y: int, n: int)
    requires n == 4 || n == 100 || n == 400
    ensures (y + n) / n - (y + n - 1) / n == (if y % n == 0 then 1 else 0)
  {
    var q, r := y / n, y % n;
    assert y == n * q + r && 0 <= r < n;
    assert y + n == n * (q + 1) + r;
    assert (y + n) / n == q + 1;
    if r == 0 {
      assert y + n - 1 == n * q + (n - 1);
    } else {
      assert y + n - 1 == n * (q + 1) + (r - 1);
    }
  }

  lemma DivisorsOfCenturies(y: int)
    ensures y % 400 == 0 ==> y % 100 == 0
    ensures y % 100 == 0 ==> y % 4 == 0
  {
    if y % 400 == 0 {
      var k := 4 * (y / 400);
      assert y == 100 * k;
      assert y / 100 == k;
    }
    if y % 100 == 0 {
      var k := 25 * (y / 100);
      assert y == 4 * k;
      assert y / 4 == k;
    }
  }

  /** Signed day number of Y-M-D counted from 0000-01-01 (day 0). */
  function DayIndex(y: int, m: int, d: int): int
    requires 1 <= m <= 12
  {
    DaysBefore(y) + MonthDaysBefore(y, m) + d - 1
  }

  /** The days of a month lie inside its year: 0 <= days before the date within the year < year length. */
  lemma DayOfYearInRange(y: int, m: int, d: int)
    requires 1 <= m <= 12 && 1 <= d <= DaysInMonth(y, m)
    ensures 0 <= MonthDaysBefore(y, m) + d - 1 < DaysInYear(y)
  {
    var leap := IsLeapYear(y);
    MonthsBeforeMonotone(leap, 1, m);
    MonthsBeforeStep(leap, m);
    MonthsBeforeMonotone(leap, m + 1, 13);
    MonthsBeforeFullYear(leap);
  }

  /** Distinct valid dates have distinct day numbers. */
  lemma DayIndexInjective(y1: int, m1: int, d1: int, y2: int, m2: int, d2: int)
    requires 1 <= m1 <= 12 && 1 <= d1 <= DaysInMonth(y1, m1)
    requires 1 <= m2 <= 12 && 1 <= d2 <= DaysInMonth(y2, m2)
    requires DayIndex(y1, m1, d1) == DayIndex(y2, m2, d2)
    ensures y1 == y2 && m1 == m2 && d1 == d2
  {
    DayOfYearInRange(y1, m1, d1);
    DayOfYearInRange(y2, m2, d2);
    YearOffsetUnique(y1, MonthDaysBefore(y1, m1) + d1 - 1, y2, MonthDaysBefore(y2, m2) + d2 - 1);
    MonthOffsetUnique(IsLeapYear(y1), m1, d1 - 1, m2, d2 - 1);
  }

  /** Signed number of seconds from 0000-01-01 00:00:00 that the tuple denotes. */
  function SecondsOf(f: Fields): int
    requires 1 <= f.M <= 12
  {
    DayIndex(f.Y, f.M, f.D) * 86400 + f.h * 3600 + f.mi * 60 + f.s
  }

  /** Every field inside its nominal range; day-of-month calendar-accurate. */
  predicate Canonical(f: Fields)
  {
    && 1 <= f.M <= 12
    && 1 <= f.D <= DaysInMonth(f.Y, f.M)
    && 0 <= f.h < 24
    && 0 <= f.mi < 60
    && 0 <= f.s < 60
  }

  /** Dividing a second count by the unit lengths recovers the day count and h, mi, s. */
  lemma SplitSeconds(days: int, h: int, mi: int, s: int)
    requires 0 <= h < 24 && 0 <= mi < 60 && 0 <= s < 60
    ensures var x := days * 86400 + h * 3600 + mi * 60 + s;
      && x / 86400 == days && x % 86400 == h * 3600 + mi * 60 + s
      && (h * 3600 + mi * 60 + s) / 3600 == h && (h * 3600 + mi * 60 + s) % 3600 == mi * 60 + s
      && (mi * 60 + s) / 60 == mi && (mi * 60 + s) % 60 == s
  {
  }

  /** Two canonical tuples denoting the same second are the same tuple. */
  lemma SecondsOfInjective(a: Fields, b: Fields)
    requires Canonical(a) && Canonical(b) && SecondsOf(a) == SecondsOf(b)
    ensures a == b
  {
    SplitSeconds(DayIndex(a.Y, a.M, a.D), a.h, a.mi, a.s);
    SplitSeconds(DayIndex(b.Y, b.M, b.D), b.h, b.mi, b.s);
    DayIndexInjective(a.Y, a.M, a.D, b.Y, b.M, b.D);
  }
}
