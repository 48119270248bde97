/**
 * `normalize_full`: brings a calendar tuple whose fields may be out of range
 * (negative seconds, month 13, day 0, ...) back into range by carrying
 * seconds into minutes, minutes into hours, hours into days, rolling the
 * month into 1..12, walking the day count across month boundaries, and
 * finally clamping year, month and day to at least 1.
 *
 * All fields are whole numbers here, so the fractional-year, fractional-month
 * and fractional-day steps of the source contribute nothing.
 */
module Normalizer {
  import opened Calendar

  /** Seconds of the time-of-day fields and the day field taken together. */
  function DayAndTimeSeconds(f: Fields): int
  {
    f.D * 86400 + f.h * 3600 + f.mi * 60 + f.s
  }

  /**
   * Carry seconds into minutes, minutes into hours, hours into days, each by
   * floor division, leaving every time field in range. Year and month are
   * untouched and the total of day and time seconds is kept.
   */
  function CarryTime(f: Fields): (r: Fields)
    ensures r.Y == f.Y && r.M == f.M
    ensures 0 <= r.h < 24 && 0 <= r.mi < 60 && 0 <= r.s < 60
    ensures DayAndTimeSeconds(r) == DayAndTimeSeconds(f)
  {
    var mi1 := f.mi + f.s / 60;
    var s1 := f.s % 60;
    var h1 := f.h + mi1 / 60;
    var mi2 := mi1 % 60;
    var d1 := f.D + h1 / 24;
    var h2 := h1 % 24;
    Fields(f.Y, f.M, d1, h2, mi2, s1)
  }

  /** Carrying an already in-range time of day changes nothing. */
  lemma CarryTimeInRange(f: Fields)
    requires 0 <= f.h < 24 && 0 <= f.mi < 60 && 0 <= f.s < 60
    ensures CarryTime(f) == f
  {
  }

  /**
   * Step 5: a month of at most 0 is taken as 1; then `divmod(M - 1, 12)`
   * moves whole years of months into the year. The count of months since
   * year 0 is kept.
   */
  function RollMonth(y: int, m: int): (r: (int, int))
    ensures 1 <= r.1 <= 12
    ensures m >= 1 ==> 12 * r.0 + r.1 == 12 * y + m
    ensures m <= 0 ==> r == (y, 1)
  {
    var mInt := if m <= 0 then 1 else m;
    var years := (mInt - 1) / 12;
    var month := (mInt - 1) % 12 + 1;
    (y + years, month)
  }

  /** The month that precedes month `m` of year `y`; its first day plus its length is the first day of `m`. */
  function PrevMonth(y: int, m: int): (r: (int, int))
    requires 1 <= m <= 12
    ensures 1 <= r.1 <= 12
    ensures DayIndex(r.0, r.1, 1) + DaysInMonth(r.0, r.1) == DayIndex(y, m, 1)
  {
    if m - 1 < 1 then
      NextMonthStart(y - 1, 12);
      (y - 1, 12)
    else
      NextMonthStart(y, m - 1);
      (y, m - 1)
  }

  /** The month that follows month `m` of year `y`; it starts right after the last day of `m`. */
  function NextMonth(y: int, m: int): (r: (int, int))
    requires 1 <= m <= 12
    ensures 1 <= r.1 <= 12
    ensures DayIndex(r.0, r.1, 1) == DayIndex(y, m, 1) + DaysInMonth(y, m)
  {
    NextMonthStart(y, m);
    if m + 1 > 12 then (y + 1, 1) else (y, m + 1)
  }

  /**
   * The day-normalisation loop: while the day is below 1, step back a month
   * and add that month's length; while it exceeds the month's length, subtract
   * it and step forward. The result is the valid date `day - 1` days after
   * the first of month `m` of year `y`.
   */
  function DayLoop(y: int, m: int, day: int): (r: (int, int, int))
    requires 1 <= m <= 12
    ensures 1 <= r.1 <= 12 && 1 <= r.2 <= DaysInMonth(r.0, r.1)
    ensures DayIndex(r.0, r.1, r.2) == DayIndex(y, m, 1) + day - 1
    decreases if day < 1 then 1 - day else 0, if day < 1 then 0 else day
  {
    if day < 1 then
      var p := PrevMonth(y, m);
      DayLoop(p.0, p.1, day + DaysInMonth(p.0, p.1))
    else if day > DaysInMonth(y, m) then
      var n := NextMonth(y, m);
      DayLoop(n.0, n.1, day - DaysInMonth(y, m))
    else
      (y, m, day)
  }

  /** A day already inside its month is left where it is. */
  lemma DayLoopValid(y: int, m: int, day: int)
    requires 1 <= m <= 12 && 1 <= day <= DaysInMonth(y, m)
    ensures DayLoop(y, m, day) == (y, m, day)
  {
  }

  /** The day loop's result is the only valid date with its day number. */
  lemma DayLoopUnique(y: int, m: int, day: int, y1: int, m1: int, d1: int)
    requires 1 <= m <= 12
    requires 1 <= m1 <= 12 && 1 <= d1 <= DaysInMonth(y1, m1)
    requires DayIndex(y1, m1, d1) == DayIndex(y, m, 1) + day - 1
    ensures DayLoop(y, m, day) == (y1, m1, d1)
  {
    var r := DayLoop(y, m, day);
    DayIndexInjective(r.0, r.1, r.2, y1, m1, d1);
  }

  /**
   * The second in time the input tuple denotes once its month is rolled into
   * 1..12: day `D` of that month counts from its first day, whatever its sign
   * or size, and the time fields add their seconds.
   */
  function Instant(f: Fields): int
  {
    var ym := RollMonth(f.Y, f.M);
    (DayIndex(ym.0, ym.1, 1) + f.D - 1) * 86400 + f.h * 3600 + f.mi * 60 + f.s
  }

  /**
   * The dictionary `normalize_full` would return without its final clamps:
   * the carries, the month roll, the day loop, the second round of carries
   * and the second day loop. It is canonical and denotes the input's instant.
   */
  function Unclamped(f: Fields): (r: Fields)
    ensures Canonical(r)
    ensures SecondsOf(r) == Instant(f)
  {
    var c := CarryTime(f);
    var ym := RollMonth(c.Y, c.M);
    var d1 := DayLoop(ym.0, ym.1, c.D);
    var c2 := CarryTime(Fields(d1.0, d1.1, d1.2, c.h, c.mi, c.s));
    var d2 := DayLoop(c2.Y, c2.M, c2.D);
    Fields(d2.0, d2.1, d2.2, c2.h, c2.mi, c2.s)
  }

  /** The final clamps: each of year, month and day below 1 becomes 1 on its own; nothing else changes. */
  function Clamp(u: Fields): (r: Fields)
    ensures r.Y >= 1 && r.M >= 1 && r.D >= 1
    ensures u.Y >= 1 ==> r.Y == u.Y
    ensures u.Y < 1 ==> r.Y == 1
    ensures u.M >= 1 ==> r.M == u.M
    ensures u.M < 1 ==> r.M == 1
    ensures u.D >= 1 ==> r.D == u.D
    ensures u.D < 1 ==> r.D == 1
    ensures r.h == u.h && r.mi == u.mi && r.s == u.s
    ensures u.Y >= 1 && u.M >= 1 && u.D >= 1 ==> r == u
  {
    Fields(if u.Y >= 1 then u.Y else 1, if u.M >= 1 then u.M else 1, if u.D >= 1 then u.D else 1, u.h, u.mi, u.s)
  }

  /** What `normalize_full` returns. */
  function Normalize(f: Fields): (r: Fields)
    ensures r.Y >= 1 && 1 <= r.M <= 12 && 1 <= r.D
    ensures 0 <= r.h < 24 && 0 <= r.mi < 60 && 0 <= r.s < 60
  {
    Clamp(Unclamped(f))
  }

  /**
   * Every result is a valid date, except that the year clamp can move
   * 29 February of a leap year at or before year 0 to 29 February of year 1,
   * which is not a leap year.
   */
  lemma NormalizeValid(f: Fields)
    ensures Canonical(Normalize(f)) || (Normalize(f).Y == 1 && Normalize(f).M == 2 && Normalize(f).D == 29)
  {
    var u := Unclamped(f);
    if u.M != 2 {
      MonthLengthIsTable(IsLeapYear(u.Y), u.M);
      MonthLengthIsTable(IsLeapYear(1), u.M);
    }
  }

  /** When the instant lies in year 1 or later the clamps do nothing and the instant is kept. */
  lemma NormalizeKeepsInstant(f: Fields)
    requires Unclamped(f).Y >= 1
    ensures Canonical(Normalize(f)) && SecondsOf(Normalize(f)) == Instant(f)
  {
  }

  /** A canonical tuple denotes its own instant. */
  lemma InstantOfCanonical(f: Fields)
    requires Canonical(f)
    ensures Instant(f) == SecondsOf(f)
  {
  }

  /** A canonical tuple of year 1 or later comes back unchanged. */
  lemma NormalizeCanonical(f: Fields)
    requires Canonical(f) && f.Y >= 1
    ensures Normalize(f) == f
  {
    InstantOfCanonical(f);
    SecondsOfInjective(Unclamped(f), f);
  }

  /** Normalising a valid result again changes nothing. */
  lemma NormalizeIdempotent(f: Fields)
    requires Canonical(Normalize(f))
    ensures Normalize(Normalize(f)) == Normalize(f)
  {
    NormalizeCanonical(Normalize(f));
  }

  /** A month of at most 0 gives the same result as month 1. */
  lemma MonthAtMostZeroIsJanuary(f: Fields)
    requires f.M <= 0
    ensures Normalize(f) == Normalize(f.(M := 1))
  {
    assert CarryTime(f.(M := 1)) == CarryTime(f).(M := 1);
  }

  /** A canonical tuple of year 1 or later with the input's instant is the result. */
  lemma NormalizeExample(f: Fields, g: Fields)
    requires Canonical(g) && g.Y >= 1 && SecondsOf(g) == Instant(f)
    ensures Normalize(f) == g
  {
    SecondsOfInjective(Unclamped(f), g);
  }

  /** 29 February of a common year is 1 March. */
  lemma LeapDayOfCommonYear(y: int)
    requires y >= 1 && !IsLeapYear(y)
    ensures Normalize(Fields(y, 2, 29, 0, 0, 0)) == Fields(y, 3, 1, 0, 0, 0)
  {
    var f, g := Fields(y, 2, 29, 0, 0, 0), Fields(y, 3, 1, 0, 0, 0);
    MonthsBeforeStep(false, 2);
    assert DayIndex(y, 3, 1) == DayIndex(y, 2, 1) + 28;
    assert Instant(f) == SecondsOf(g);
    NormalizeExample(f, g);
  }

  /** Month 13 is January of the next year, and its day 0 is 31 December of the year given. */
  lemma MonthThirteenDayZero(y: int)
    requires y >= 1
    ensures Normalize(Fields(y, 13, 0, 0, 0, 0)) == Fields(y, 12, 31, 0, 0, 0)
  {
    var leap := IsLeapYear(y);
    MonthsBeforeStep(leap, 12);
    MonthsBeforeFullYear(leap);
    DaysBeforeStep(y);
    var f, g := Fields(y, 13, 0, 0, 0, 0), Fields(y, 12, 31, 0, 0, 0);
    assert RollMonth(y, 13) == (y + 1, 1);
    assert DayIndex(y + 1, 1, 1) - 1 == DayIndex(y, 12, 31);
    assert Instant(f) == SecondsOf(g);
    NormalizeExample(f, g);
  }

  /** One second before midnight of 1 January is 23:59:59 of 31 December of the year before. */
  lemma SecondBeforeNewYear(y: int)
    requires y >= 2
    ensures Normalize(Fields(y, 1, 1, 0, 0, -1)) == Fields(y - 1, 12, 31, 23, 59, 59)
  {
    var leap := IsLeapYear(y - 1);
    MonthsBeforeStep(leap, 12);
    MonthsBeforeFullYear(leap);
    DaysBeforeStep(y - 1);
    var f, g := Fields(y, 1, 1, 0, 0, -1), Fields(y - 1, 12, 31, 23, 59, 59);
    assert DayIndex(y, 1, 1) == DayIndex(y - 1, 12, 31) + 1;
    assert Instant(f) == SecondsOf(g);
    NormalizeExample(f, g);
  }

  /** The cases above in the years 2023 and 2024. */
  lemma NormalizeExamples()
    ensures Normalize(Fields(2024, 2, 29, 0, 0, 0)) == Fields(2024, 2, 29, 0, 0, 0)
    ensures Normalize(Fields(2023, 2, 29, 0, 0, 0)) == Fields(2023, 3, 1, 0, 0, 0)
    ensures Normalize(Fields(2024, 13, 0, 0, 0, 0)) == Fields(2024, 12, 31, 0, 0, 0)
    ensures Normalize(Fields(2024, 1, 1, 0, 0, -1)) == Fields(2023, 12, 31, 23, 59, 59)
  {
    assert IsLeapYear(2024) && !IsLeapYear(2023);
    NormalizeCanonical(Fields(2024, 2, 29, 0, 0, 0));
    LeapDayOfCommonYear(2023);
    MonthThirteenDayZero(2024);
    SecondBeforeNewYear(2024);
  }

  /** The year clamp turns 29 February of year 0 into 29 February of year 1, which is no date. */
  lemma ClampLeavesInvalidDate()
    ensures Normalize(Fields(0, 2, 29, 0, 0, 0)) == Fields(1, 2, 29, 0, 0, 0)
    ensures !Canonical(Normalize(Fields(0, 2, 29, 0, 0, 0)))
    ensures Normalize(Normalize(Fields(0, 2, 29, 0, 0, 0))) == Fields(1, 3, 1, 0, 0, 0)
  {
    var f := Fields(0, 2, 29, 0, 0, 0);
    assert IsLeapYear(0) && !IsLeapYear(1);
    InstantOfCanonical(f);
    SecondsOfInjective(Unclamped(f), f);
    LeapDayOfCommonYear(1);
  }

  /** `normalize_full`, step by step, with both day loops. */
  method NormalizeFull(f: Fields) returns (r: Fields)
    ensures r == Normalize(f)
  {
    // carry seconds, minutes, hours
    var c := CarrySteps(f);
    // months
    var Y, M := MonthSteps(c.Y, c.M);
    // the day loop
    var day;
    Y, M, day := NormalizeDay(Y, M, c.D);
    // the second round of carries
    var c2 := CarrySteps(Fields(Y, M, day, c.h, c.mi, c.s));
    // the final day loop
    Y, M, day := NormalizeDay(c2.Y, c2.M, c2.D);
    ghost var u := Fields(Y, M, day, c2.h, c2.mi, c2.s);
    assert u == Unclamped(f);
    r := Fields(if Y >= 1 then Y else 1, if M >= 1 then M else 1, if day >= 1 then day else 1, c2.h, c2.mi, c2.s);
  }

  /** The carries of `normalize_full`: seconds into minutes, minutes into hours, hours into days. */
  method CarrySteps(f: Fields) returns (c: Fields)
    ensures c == CarryTime(f)
  {
    var D, h, mi, s := f.D, f.h, f.mi, f.s;
    mi := mi + s / 60;
    s := s % 60;
    h := h + mi / 60;
    mi := mi % 60;
    D := D + h / 24;
    h := h % 24;
    c := Fields(f.Y, f.M, D, h, mi, s);
  }

  /** The month step of `normalize_full`: a month of at most 0 becomes 1, then `divmod(M - 1, 12)`. */
  method MonthSteps(y: int, m: int) returns (Y: int, M: int)
    ensures (Y, M) == RollMonth(y, m)
  {
    var mInt := m;
    if mInt <= 0 {
      mInt := 1;
    }
    var yearsFromMonths := (mInt - 1) / 12;
    M := (mInt - 1) % 12;
    M := M + 1;
    Y := y + yearsFromMonths;
  }

  /** The day-normalisation `while True` loop of `normalize_full`. */
  method NormalizeDay(y0: int, m0: int, day0: int) returns (y: int, m: int, day: int)
    requires 1 <= m0 <= 12
    ensures (y, m, day) == DayLoop(y0, m0, day0)
  {
    y, m, day := y0, m0, day0;
    while true
      invariant 1 <= m <= 12
      invariant DayLoop(y, m, day) == DayLoop(y0, m0, day0)
      decreases if day < 1 then 1 - day else 0, if day < 1 then 0 else day
    {
      var dim := DaysInMonth(y, m);
      if day < 1 {
        m := m - 1;
        if m < 1 {
          m := 12;
          y := y - 1;
        }
        day := day + DaysInMonth(y, m);
      } else if day > dim {
        day := day - dim;
        m := m + 1;
        if m > 12 {
          m := 1;
          y := y + 1;
        }
      } else {
        break;
      }
    }
  }
}
