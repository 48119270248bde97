/**
 * The rawtime codec: `convert_input_to_rawtime` (calendar tuple to seconds from
 * 0000-01-01 00:00:00, plus the anchor) and `convert_rawtime_to_date` (seconds
 * back to a tuple by subtracting year lengths, then month lengths).
 */
module Codec {
  import opened Calendar

  /**
   * `days_since_epoch(Y, M, D)` as the encoder computes it: the loop over years
   * `range(0, Y)` counts nothing for a year below 0.
   */
  function EpochDays(y: int, m: int, d: int): int
    requires m <= 13
  {
    (if y > 0 then DaysBefore(y) else 0) + MonthDaysBefore(y, m) + d - 1
  }

  /** What `convert_input_to_rawtime` returns for a tuple and an anchor. */
  function Encode(t: Fields, anchor: int): int
    requires t.M <= 13
  {
    EpochDays(t.Y, t.M, t.D) * 86400 + t.h * 3600 + t.mi * 60 + t.s + anchor
  }

  /** For a year of at least 0 the encoder's count is the calendar's day number. */
  lemma EncodeIsSecondsOf(t: Fields, anchor: int)
    requires 1 <= t.M <= 12 && t.Y >= 0
    ensures Encode(t, anchor) == SecondsOf(t) + anchor
  {
  }

  /** `days_since_epoch`: the days of the full years, then of the full months, then D - 1. */
  method DaysSinceEpoch(y: int, m: int, d: int) returns (days: int)
    requires m <= 13  // `mdays[m - 1]` is read for every m in range(1, M)
    ensures days == EpochDays(y, m, d)
    ensures y >= 0 && 1 <= m <= 12 ==> days == DayIndex(y, m, d)
  {
    days := FullYearsDays(y);
    var monthDays := FullMonthsDays(IsLeapYear(y), m);
    days := days + monthDays;
    days := days + (d - 1);
  }

  /** The year loop of `days_since_epoch`: 366 or 365 for every year in range(0, y). */
  method FullYearsDays(y: int) returns (days: int)
    ensures days == if y > 0 then DaysBefore(y) else 0
  {
    days := 0;
    var yy := 0;
    while yy < y
      invariant 0 <= yy <= (if y > 0 then y else 0)
      invariant days == DaysBefore(yy)
    {
      days := days + (if IsLeapYear(yy) then 366 else 365);
      yy := yy + 1;
    }
  }

  /**
   * The month loop of `days_since_epoch`, given whether the year is leap: for
   * every month in range(1, m), 29 or 28 for February, else the table entry.
   */
  method FullMonthsDays(leap: bool, m: int) returns (days: int)
    requires m <= 13
    ensures days == MonthsBefore(leap, m)
  {
    var mdays := MonthLengths;
    days := 0;
    var mm := 1;
    while mm < m
      invariant 1 <= mm <= (if m > 1 then m else 1)
      invariant days == MonthsBefore(leap, mm)
    {
      MonthLengthIsTable(leap, mm);
      MonthsBeforeStep(leap, mm);
      if mm == 2 {
        days := days + (if leap then 29 else 28);
      } else {
        days := days + mdays[mm - 1];
      }
      mm := mm + 1;
    }
  }

  /** `convert_input_to_rawtime`: whole days to seconds, plus the time of day, plus the anchor. */
  method ConvertInputToRawtime(t: Fields, anchor: int) returns (total: int)
    requires t.M <= 13
    ensures total == Encode(t, anchor)
    ensures 1 <= t.M <= 12 && t.Y >= 0 ==> total == SecondsOf(t) + anchor
  {
    var totalDays := DaysSinceEpoch(t.Y, t.M, t.D);
    total := totalDays * 86400 + t.h * 3600 + t.mi * 60 + t.s;
    total := total + anchor;
  }

  /**
   * The decoder's year loop from year `y` on: subtract year lengths while a
   * whole year fits. Returns the year reached and the days left over.
   */
  function YearSplit(days: int, y: nat): (r: (nat, int))
    ensures y <= r.0
    ensures r.1 < DaysInYear(r.0)
    ensures DaysBefore(r.0) + r.1 == DaysBefore(y) + days
    ensures days >= 0 ==> 0 <= r.1
    decreases if days < 0 then 0 else days
  {
    if days >= DaysInYear(y) then YearSplit(days - DaysInYear(y), y + 1) else (y, days)
  }

  /**
   * The decoder's month loop from month `m` on, in a year that is leap or not.
   * Its precondition, that the days left are fewer than the rest of the year,
   * keeps the month inside 1..12, so the table `mdays` is never read out of range.
   */
  function MonthSplit(days: int, leap: bool, m: int): (r: (int, int))
    requires 1 <= m <= 12
    requires days < YearLength(leap) - MonthsBefore(leap, m)
    ensures m <= r.0 <= 12
    ensures r.1 < MonthLength(leap, r.0)
    ensures MonthsBefore(leap, r.0) + r.1 == MonthsBefore(leap, m) + days
    ensures days >= 0 ==> 0 <= r.1
    decreases 12 - m
  {
    if days >= MonthLength(leap, m) then
      MonthFits(days, leap, m);
      MonthsBeforeStep(leap, m);
      MonthSplit(days - MonthLength(leap, m), leap, m + 1)
    else
      (m, days)
  }

  /**
   * The date `convert_rawtime_to_date` reaches from a whole-day count: year,
   * month and day of month. For a count of at least 0 it is a valid date whose
   * day number is that count.
   */
  function DateOfDay(days: int): (r: (nat, int, int))
    ensures 1 <= r.1 <= 12 && r.2 <= DaysInMonth(r.0, r.1)
    ensures days >= 0 ==> 1 <= r.2 && DayIndex(r.0, r.1, r.2) == days
  {
    var ys := YearSplit(days, 0);
    var ms := MonthSplit(ys.1, IsLeapYear(ys.0), 1);
    (ys.0, ms.0, ms.1 + 1)
  }

  /**
   * The tuple `convert_rawtime_to_date` returns. For every x >= 0 it is
   * canonical and encodes back to x (anchor 0); a negative x passes both
   * loops untouched and leaves year 0, January, and a day of 0 or less.
   */
  function Decode(x: int): (t: Fields)
    ensures t.Y >= 0 && 1 <= t.M <= 12 && t.D <= DaysInMonth(t.Y, t.M)
    ensures 0 <= t.h < 24 && 0 <= t.mi < 60 && 0 <= t.s < 60
    ensures x >= 0 ==> Canonical(t) && Encode(t, 0) == x
    ensures x < 0 ==> t.Y == 0 && t.M == 1 && t.D == x / 86400 + 1 && t.D <= 0
  {
    var date := DateOfDay(x / 86400);
    var rem := x % 86400;
    var rem2 := rem % 3600;
    TimeOfDaySplit(x);
    Fields(date.0, date.1, date.2, rem / 3600, rem2 / 60, rem2 % 60)
  }

  /** Splitting seconds into whole days, hours, minutes and seconds loses nothing. */
  lemma TimeOfDaySplit(x: int)
    ensures var rem := x % 86400;
      && 0 <= rem / 3600 < 24 && 0 <= (rem % 3600) / 60 < 60 && 0 <= (rem % 3600) % 60 < 60
      && x == (x / 86400) * 86400 + (rem / 3600) * 3600 + ((rem % 3600) / 60) * 60 + (rem % 3600) % 60
  {
  }

  /** `convert_rawtime_to_date`: whole days and the remainder, the year loop, the month loop, then h/mi/s. */
  method ConvertRawtimeToDate(seconds: int) returns (t: Fields)
    ensures t == Decode(seconds)
  {
    var days := seconds / 86400;
    var rem := seconds % 86400;
    var y;
    y, days := YearLoop(days);
    var m;
    m, days := MonthLoop(IsLeapYear(y), days);
    var d := days + 1;
    var h := rem / 3600;
    rem := rem % 3600;
    var i := rem / 60;
    var s := rem % 60;
    t := Fields(y, m, d, h, i, s);
  }

  /** The decoder's year loop: subtract 365 or 366 while a whole year fits. */
  method YearLoop(days0: int) returns (y: nat, days: int)
    ensures (y, days) == YearSplit(days0, 0)
  {
    days := days0;
    y := 0;
    while true
      invariant YearSplit(days, y) == YearSplit(days0, 0)
      decreases if days < 0 then 0 else days
    {
      var yearDays := if IsLeapYear(y) then 366 else 365;
      if days >= yearDays {
        days := days - yearDays;
        y := y + 1;
      } else {
        break;
      }
    }
  }

  /**
   * The decoder's month loop, given whether the year is leap: subtract month
   * lengths, read from the table `mdays` with February overridden in a leap
   * year, while a whole month fits.
   */
  method MonthLoop(leap: bool, days0: int) returns (m: int, days: int)
    requires days0 < YearLength(leap)
    ensures (m, days) == MonthSplit(days0, leap, 1)
  {
    var mdays := MonthLengths;
    days := days0;
    m := 1;
    while true
      invariant 1 <= m <= 12
      invariant days < YearLength(leap) - MonthsBefore(leap, m)
      invariant MonthSplit(days, leap, m) == MonthSplit(days0, leap, 1)
      decreases 12 - m
    {
      var dim := if m == 2 && leap then 29 else mdays[m - 1];
      MonthLengthIsTable(leap, m);
      MonthSplitStep(days, leap, m);
      if days >= dim {
        days := days - dim;
        m := m + 1;
      } else {
        break;
      }
    }
  }

  /** A whole month fits in what is left of the year only before December, and what remains still fits in the rest. */
  lemma MonthFits(days: int, leap: bool, m: int)
    requires 1 <= m <= 12
    requires MonthLength(leap, m) <= days < YearLength(leap) - MonthsBefore(leap, m)
    ensures m < 12 && days - MonthLength(leap, m) < YearLength(leap) - MonthsBefore(leap, m + 1)
  {
    MonthsBeforeStep(leap, m);
    if m == 12 {
      MonthsBeforeFullYear(leap);
    }
  }

  /** One pass of the month loop: a whole month fits, and the split goes on from the next month, or it does not and the split ends here. */
  lemma MonthSplitStep(days: int, leap: bool, m: int)
    requires 1 <= m <= 12
    requires days < YearLength(leap) - MonthsBefore(leap, m)
    ensures days >= MonthLength(leap, m) ==>
      && m < 12
      && days - MonthLength(leap, m) < YearLength(leap) - MonthsBefore(leap, m + 1)
      && MonthSplit(days - MonthLength(leap, m), leap, m + 1) == MonthSplit(days, leap, m)
    ensures days < MonthLength(leap, m) ==> MonthSplit(days, leap, m) == (m, days)
  {
    if days >= MonthLength(leap, m) {
      MonthFits(days, leap, m);
    }
  }

  /** The date the two loops stop at is the one `DateOfDay` names. */
  lemma DateOfDayIs(days: int, y: nat, m: int, d: int)
    requires 1 <= m <= 12 && d <= DaysInMonth(y, m)
    requires days >= 0 ==> 1 <= d && DayIndex(y, m, d) == days
    requires days < 0 ==> y == 0 && m == 1 && d == days + 1
    ensures DateOfDay(days) == (y, m, d)
  {
    var r := DateOfDay(days);
    if days >= 0 {
      DayIndexInjective(r.0, r.1, r.2, y, m, d);
    } else {
      assert YearSplit(days, 0) == (0, days);
      assert MonthSplit(days, IsLeapYear(0), 1) == (1, days);
    }
  }

  /** The decoder's date loops invert the day number of every valid date of year >= 0. */
  lemma DateOfDayInverts(y: nat, m: int, d: int)
    requires 1 <= m <= 12 && 1 <= d <= DaysInMonth(y, m)
    ensures DateOfDay(DayIndex(y, m, d)) == (y, m, d)
  {
    YearDaysAtLeast(y, 0);
    DayOfYearInRange(y, m, d);
    DateOfDayIs(DayIndex(y, m, d), y, m, d);
  }

  /** Round trip, encode then decode: every canonical tuple of year >= 0 comes back (anchor 0). */
  lemma DecodeEncode(t: Fields)
    requires Canonical(t) && t.Y >= 0
    ensures Decode(Encode(t, 0)) == t
  {
    var x := Encode(t, 0);
    var days := DayIndex(t.Y, t.M, t.D);
    assert x == days * 86400 + t.h * 3600 + t.mi * 60 + t.s;
    SplitSeconds(days, t.h, t.mi, t.s);
    DateOfDayInverts(t.Y, t.M, t.D);
    assert DateOfDay(x / 86400) == (t.Y, t.M, t.D);
  }

  /** Round trip, decode then encode: every x >= 0 comes back (anchor 0). */
  lemma EncodeDecode(x: int)
    requires x >= 0
    ensures Encode(Decode(x), 0) == x
  {
  }

  /** Two canonical tuples of year >= 0 with the same rawtime are the same tuple. */
  lemma EncodeInjective(t: Fields, u: Fields)
    requires Canonical(t) && t.Y >= 0 && Canonical(u) && u.Y >= 0
    requires Encode(t, 0) == Encode(u, 0)
    ensures t == u
  {
    DecodeEncode(t);
    DecodeEncode(u);
  }

  /** Adding one day of seconds to a date that is not the last of its month gives the next day. */
  lemma AddOneDay(t: Fields)
    requires Canonical(t) && t.Y >= 0 && t.D < DaysInMonth(t.Y, t.M)
    ensures Decode(Encode(t, 0) + 86400) == t.(D := t.D + 1)
  {
    var next := t.(D := t.D + 1);
    assert Encode(next, 0) == Encode(t, 0) + 86400;
    DecodeEncode(next);
  }

  /** `days_since_epoch(2025, 10, 2)`: all days of years 0..2024, then 273 days of January to September, then 1. */
  lemma EpochDaysExample()
    ensures EpochDays(2025, 10, 2) == 739617 + 273 + 1
  {
    DaysBeforeClosedForm(2025);
    assert !IsLeapYear(2025);
    assert MonthsBefore(false, 10) == 273;
  }
}
