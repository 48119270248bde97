# datcon in Dafny

A model of the core of `datcon.py`, a hand-written proleptic-Gregorian calendar engine. It converts between
`rawtime` (seconds counted from 0000-01-01 00:00:00) and a calendar tuple `[Y, M, D, h, mi, s]`, brings
out-of-range tuples back into range, and builds a `datetime` class on top: arithmetic and comparisons on
`rawtime`, and field views.

The model is split into one module per part of the engine:

- `wrappers.dfy`, module `Wrappers`: `Option`, for the operator branches that fall through and return `None`.
- `calendar.dfy`, module `Calendar`:
  - the leap-year rule and the month and year lengths, which the source repeats in several places;
  - the day number of a date, and the seconds of a tuple;
  - the uniqueness facts that the round trips rest on.
- `codec.dfy`, module `Codec`:
  - `convert_input_to_rawtime` with its `days_since_epoch` loops;
  - `convert_rawtime_to_date` with its year and month subtraction loops;
  - both round trips at anchor 0.
  - Each loop is a method proved against a recursive specification function (`YearSplit`, `MonthSplit`,
    `MonthsBefore`, `DaysBefore`).
- `normalizer.dfy`, module `Normalizer`: `normalize_full` as a method that runs the carries, the month roll and
  the two `while True` day loops, proved equal to the function `Normalize`.
  - `Normalize` is specified by the instant it denotes (`Instant`), which the day loop keeps.
  - The final clamps follow the loop.
- `extract.dfy`, module `Extract`: `value_template_extractor`.
  - For a string value it collects the digit runs, built character by character.
  - For a string template it keeps the unit keys found in the lower-cased template.
- `datcon.dfy`, module `Datcon`: the class `DateTime`, with fields `rawtime`, `anchor`, `converter`, `template`,
  `output`, `epochType`, `data` and `source`. Its members are:
  - the construction pipeline: `finalize_full_datetime`, `operand`, the classmethods `datetime` and `stamp`, and
    `anchor_converter`;
  - the `Maths_Support` operators;
  - the `datetime_support` views in converter modes 0 and 2.

All calendar fields and `rawtime` are integers. With integer fields, the fractional-year, fractional-month and
fractional-day steps of the source change nothing.

Some behaviour of the code is easy to miss. The model follows the code as written:

- The branches marked `#RAISE ISSUE` raise nothing.
  - An operator given something that is neither a number nor a datetime falls through and returns `None`
    (datcon.py:30, 40, 83, 101-136).
  - A value list that is longer or shorter than the template passes the length checks of `stamp` and `datetime`
    (datcon.py:381-386, 402-404). Missing fields keep their defaults and extra values are ignored.
  - `anchor_converter` returns `None` for an unsupported anchor (datcon.py:553-555), and the arithmetic on it then
    fails. The model makes that case a precondition.
- The docstring of `convert_rawtime_to_date` says it accounts for the anchor (datcon.py:689). However,
  `finalize_full_datetime` decodes the anchored total (datcon.py:432-438), so `data` is shifted by the anchor.
  `operand` does subtract the anchor (datcon.py:357). See `Datcon.OneDayAnchorShiftsData`.
- The era is set by the constructor, from the sign of its `rawtime` argument (datcon.py:299), and by `operand`,
  from the sign of the new rawtime (datcon.py:372). `finalize_full_datetime` negates `rawtime` for BC but never
  sets the era (datcon.py:433-436). So an instance made by `datetime` or `stamp` keeps the era `AC`.
- Month 13, day 0 of 2024 normalises to 2024-12-31. The month roll gives January 2025, and day 0 then borrows back
  into December 2024 (datcon.py:605-642). See `Normalizer.MonthThirteenDayZero`.

## Model

| member | source | states |
|---|---|---|
| Calendar.LeapYearFormsAgree | datcon.py:161-163 | the views' spelling of the leap-year rule and the encoder's spelling agree for every year |
| Calendar.LeapYearExamples | datcon.py:506-507 | year 0 and 2000 are leap; 1900 and 2023 are not |
| Calendar.MonthLength | datcon.py:570-573 | a month has 28 to 31 days; February has 29 exactly in a leap year and 28 otherwise |
| Calendar.DaysInMonth | datcon.py:570-573 | the same for month m of year y: February has 29 days exactly when y is a leap year |
| Calendar.MonthLengthIsTable | datcon.py:570-573 | February of a leap year has 29 days; every other month reads the table `[31, 28, 31, 30, ...]` at m - 1 |
| Calendar.DaysInMonthFormsAgree | datcon.py:192-201 | the month view's set-based month lengths equal the table-based ones for months 1..12 |
| Calendar.FourHundredYearCycle | datcon.py:575-576 | `days_in_year` repeats every 400 years: the leap rule gives the same answer for y and y + 400, and every 400 consecutive years hold 146097 days |
| Calendar.MonthsBeforeFullYear | datcon.py:522-526 | the twelve months of a year add up to its length |
| Calendar.MonthDaysBeforeFullYear | datcon.py:522-526 | the same for year y: twelve months add up to `days_in_year(y)` |
| Calendar.MonthsBeforeMonotone | datcon.py:522-526 | the days before month m never decrease as m grows |
| Calendar.MonthsBeforeStep | datcon.py:522-526 | the days before month m + 1 are those before m plus the length of m |
| Calendar.NextMonthStart | datcon.py:626-642 | the first day of a month plus its length is the first day of the next month, also across a year end |
| Calendar.MonthOffsetOrdered | datcon.py:709-715 | every day of an earlier month comes before every day of a later one |
| Calendar.MonthOffsetUnique | datcon.py:709-715 | a day count within a year determines the month and the day offset uniquely |
| Calendar.DaysBeforeStep | datcon.py:518-519 | the day number of 1 January of y + 1 is that of y plus the length of year y |
| Calendar.YearDaysAtLeast | datcon.py:518-519 | the years from y0 to y hold at least 365 days each |
| Calendar.YearOffsetUnique | datcon.py:699-705 | a day count determines the year and the day of the year uniquely |
| Calendar.DaysBeforeClosedForm | datcon.py:518-519 | the days before year y >= 0 are `365*y` plus the leap years below y: `(y+3)/4 - (y+99)/100 + (y+399)/400` |
| Calendar.LeapCountStep | datcon.py:506-507 | the closed-form leap count grows by one exactly across a leap year |
| Calendar.MultipleStep | datcon.py:506-507 | `(y + n) / n` grows by one exactly when n divides y |
| Calendar.DivisorsOfCenturies | datcon.py:506-507 | a multiple of 400 is a multiple of 100, and a multiple of 100 is a multiple of 4 |
| Calendar.DayOfYearInRange | datcon.py:522-529 | a valid date's offset within its year lies in `[0, days_in_year)` |
| Calendar.DayIndexInjective | datcon.py:509-529 | two valid dates with the same day count are the same date |
| Calendar.SplitSeconds | datcon.py:717-723 | `days*86400 + h*3600 + mi*60 + s` with an in-range time splits back by `//` and `%` into exactly those parts |
| Calendar.SecondsOfInjective | datcon.py:540-541 | two valid tuples that denote the same second are the same tuple |
| Codec.EncodeIsSecondsOf | datcon.py:540-544 | for a year of at least 0 the encoder gives the tuple's seconds plus the anchor |
| Codec.DaysSinceEpoch | datcon.py:509-529 | `days_since_epoch`: days of years 0..Y-1, plus days of months 1..M-1 of Y, plus D - 1; for Y >= 0 this is the date's day number |
| Codec.FullYearsDays | datcon.py:518-519 | the year loop sums 366 or 365 over `range(0, Y)`, which is nothing for Y <= 0 |
| Codec.FullMonthsDays | datcon.py:522-526 | the month loop sums 29 or 28 for February and the table entry otherwise over `range(1, M)` |
| Codec.ConvertInputToRawtime | datcon.py:499-544 | the result is days * 86400 + h*3600 + mi*60 + s + anchor; for Y >= 0 it is the tuple's seconds plus the anchor |
| Codec.YearSplit | datcon.py:699-705 | subtracting year lengths stops at a year of at least the start year, with fewer days left than that year holds, keeping the total day count; the remainder is non-negative for a non-negative count |
| Codec.MonthSplit | datcon.py:709-715 | subtracting month lengths stops at a month in 1..12, never past December, with fewer days left than that month holds, keeping the count |
| Codec.DateOfDay | datcon.py:695-717 | the date the loops reach has a month in 1..12; for a count of at least 0 it is a valid date whose day number is the count |
| Codec.Decode | datcon.py:687-723 | `convert_rawtime_to_date`: for x >= 0 a valid tuple that encodes back to x; for x < 0, year 0, January and a day of at most 0 |
| Codec.TimeOfDaySplit | datcon.py:718-723 | the hour, minute and second split of the remainder are in range and add back to x |
| Codec.ConvertRawtimeToDate | datcon.py:687-723 | the loops compute `Decode(seconds)` |
| Codec.YearLoop | datcon.py:699-705 | the year loop computes `YearSplit(days, 0)` |
| Codec.MonthLoop | datcon.py:707-715 | the month loop computes `MonthSplit(days, leap, 1)` and never reads `mdays` out of range |
| Codec.MonthFits | datcon.py:709-715 | a whole month fits in what is left of the year only before December |
| Codec.MonthSplitStep | datcon.py:709-715 | one pass of the month loop: it either moves to the next month with the same result or stops here |
| Codec.DateOfDayIs | datcon.py:695-717 | a valid date with day count `days` is what the loops reach; a negative count leaves year 0, January, day `days + 1` |
| Codec.DateOfDayInverts | datcon.py:509-529 | the decoder's loops invert the encoder's day count for every valid date of year >= 0 |
| Codec.DecodeEncode | datcon.py:687-723 | round trip: decoding the encoding (anchor 0) of a valid tuple of year >= 0 gives the tuple back |
| Codec.EncodeDecode | datcon.py:540-544 | round trip: encoding (anchor 0) the decoding of any x >= 0 gives x back |
| Codec.EncodeInjective | datcon.py:540-544 | two valid tuples of year >= 0 with the same rawtime are equal |
| Codec.AddOneDay | datcon.py:687-723 | adding 86400 seconds to a date that is not the last of its month decodes to the next day |
| Codec.EpochDaysExample | datcon.py:509-529 | `days_since_epoch(2025, 10, 2)` is the days of years 0..2024, plus 273, plus 1 |
| Normalizer.CarryTime | datcon.py:586-596 | the carries leave h, mi, s in range, keep Y and M, and keep the total seconds of day and time |
| Normalizer.CarryTimeInRange | datcon.py:586-596 | an in-range time of day passes the carries unchanged |
| Normalizer.RollMonth | datcon.py:605-615 | the month ends in 1..12; for M >= 1 the month count `12*Y + M` is kept; for M <= 0 it becomes January of the same year |
| Normalizer.PrevMonth | datcon.py:629-634 | the month before: its first day plus its length is the first day of the given month |
| Normalizer.NextMonth | datcon.py:635-640 | the month after starts right after the given month ends |
| Normalizer.DayLoop | datcon.py:626-642 | the day loop ends with a valid date that lies `day - 1` days after the first of the starting month |
| Normalizer.DayLoopValid | datcon.py:641-642 | a day already inside its month is left alone |
| Normalizer.DayLoopUnique | datcon.py:626-642 | the loop's result is the only valid date with that day number |
| Normalizer.Unclamped | datcon.py:586-677 | before the clamps, the result is a valid tuple that denotes the same instant as the input |
| Normalizer.Clamp | datcon.py:679-686 | each of Y, M, D below 1 becomes exactly 1 and each at least 1 keeps its value, independently of the others; the time is kept |
| Normalizer.Normalize | datcon.py:556-686 | `normalize_full`: Y >= 1, M in 1..12, D >= 1, and h, mi, s in range |
| Normalizer.NormalizeValid | datcon.py:679-686 | the result is a valid tuple, except that the year clamp can produce 29 February of year 1 |
| Normalizer.NormalizeKeepsInstant | datcon.py:556-686 | when no clamp fires, the result is valid and denotes the same instant as the input |
| Normalizer.InstantOfCanonical | datcon.py:556-686 | a valid tuple denotes the instant its fields say |
| Normalizer.NormalizeCanonical | datcon.py:556-686 | a valid tuple with Y >= 1 comes back unchanged |
| Normalizer.NormalizeIdempotent | datcon.py:556-686 | normalising a valid result again changes nothing |
| Normalizer.MonthAtMostZeroIsJanuary | datcon.py:610-611 | a month of at most 0 is read as January of the same year, not borrowed from the year before |
| Normalizer.NormalizeExample | datcon.py:556-686 | a valid tuple from year 1 on that denotes the input's instant is the result |
| Normalizer.LeapDayOfCommonYear | datcon.py:626-642 | 29 February of a common year becomes 1 March |
| Normalizer.MonthThirteenDayZero | datcon.py:610-642 | month 13, day 0 of year y becomes 31 December of year y |
| Normalizer.SecondBeforeNewYear | datcon.py:653-677 | second -1 of 1 January of year y becomes 23:59:59 on 31 December of y - 1 |
| Normalizer.NormalizeExamples | datcon.py:556-686 | 2024-02-29 stays; 2023-02-29 becomes 2023-03-01; 2024-13-00 becomes 2024-12-31; 2024-01-01 00:00:-1 becomes 2023-12-31 23:59:59 |
| Normalizer.ClampLeavesInvalidDate | datcon.py:679-686 | 29 February of year 0 comes out as 29 February of year 1, which is not a date, and normalising it again gives 1 March |
| Normalizer.NormalizeFull | datcon.py:556-686 | the step-by-step method computes `Normalize(f)` |
| Normalizer.CarrySteps | datcon.py:586-596 | the carry statements compute `CarryTime(f)` |
| Normalizer.MonthSteps | datcon.py:605-615 | the month statements compute `RollMonth(Y, M)` |
| Normalizer.NormalizeDay | datcon.py:626-642 | the `while True` loop computes `DayLoop` and terminates |
| Extract.TakeNums | datcon.py:460-462 | the run is a prefix of the input, all number characters, and stops only at a separator or the end |
| Extract.RunsAreNumbers | datcon.py:459-468 | no collected run is empty, and every run is made of number characters only |
| Extract.NumCharsAppend | datcon.py:459-462 | the number characters of a concatenation are those of each part, in order |
| Extract.NumCharsOfRun | datcon.py:460-462 | a run of number characters is its own number characters |
| Extract.RunsCoverNumChars | datcon.py:459-468 | the runs joined together are exactly the input's number characters: nothing lost, nothing added, order kept |
| Extract.TakeNumsBeforeSeparator | datcon.py:460-466 | a run followed by a separator ends at the separator |
| Extract.TakeNumsOfRun | datcon.py:460-462 | a whole run of number characters is taken entirely |
| Extract.RunsOfRun | datcon.py:468-469 | a nonempty run at the end of the input is one number |
| Extract.RunThenSeparator | datcon.py:463-467 | a run followed by a separator is collected first, then the runs after |
| Extract.RunsSplitAtSeparator | datcon.py:463-467 | a separator splits the input: the runs of `a + [c] + b` are those of a, then those of b |
| Extract.RunsStep | datcon.py:459-467 | one character: a number character extends the pending run; a separator closes it |
| Extract.NumberRunsStep | datcon.py:459-467 | the loop over the value's characters keeps its invariant |
| Extract.RunsOfPending | datcon.py:468-469 | the pending run left at the end is one more number if not empty |
| Extract.NumberRuns | datcon.py:454-471 | the character loop returns exactly the maximal runs `Runs(value)` |
| Extract.LowerLeavesNoCapitals | datcon.py:480 | `lower()` leaves no ASCII capital behind and keeps every character that is not one |
| Extract.LowerIdempotent | datcon.py:480 | lower-casing twice is lower-casing once |
| Extract.Contains | datcon.py:483 | `item in template` holds exactly when the key occurs as a substring |
| Extract.OccursStep | datcon.py:483 | when the key is not a prefix, it occurs exactly when it occurs past the first character |
| Extract.KeysIn | datcon.py:481-486 | a key is kept exactly when it is one of the keys and occurs in the template |
| Extract.KeyRankOfUnitKey | datcon.py:278-288 | each `TIME_UNITS` key's rank is its position |
| Extract.KeysInOrdered | datcon.py:482-485 | the kept keys follow the order of `TIME_UNITS`, whatever order the template names them in |
| Extract.TemplateTokensOrdered | datcon.py:482-485 | for the whole key list, the tokens come in the order `y, m, d, h, mi, s` |
| Extract.AppendHigherRank | datcon.py:482-485 | appending a higher-ranked key keeps the ranks increasing |
| Extract.TemplateTokens | datcon.py:479-486 | the template loop returns the keys found in the lower-cased template |
| Extract.MinutesBringMonths | datcon.py:483 | a template naming minutes always yields the month key too, since "m" is a substring of "mi" |
| Extract.DecimalValue | datcon.py:466 | a run of decimal digits denotes a non-negative whole number |
| Extract.DecimalValueAppend | datcon.py:466 | a digit appended to a run shifts its value one decimal place and adds the digit, so a run denotes its positional decimal number |
| Extract.DecimalValueExamples | datcon.py:466 | the run "2025" denotes 2025 and "007" denotes 7 |
| Extract.ExtractedValue | datcon.py:451-471 | a list of numbers is returned as given; a string gives one number per digit run |
| Extract.RunHasNoDot | datcon.py:459-469 | a run of a string without '.' has no '.' either |
| Extract.NoDotInNumChars | datcon.py:459-462 | the number characters of a string without '.' have no '.' |
| Extract.ConcatContains | datcon.py:459-469 | every character of a run is in the joined runs |
| Extract.ValueTemplateExtractor | datcon.py:445-498 | `value_template_extractor`: the numbers of the value and the keys of the template, through both loops |
| Datcon.AnchorByInstance | datcon.py:545-555 | a datetime given as anchor or operand acts exactly as the plain number of its rawtime |
| Datcon.ReversedTwice | datcon.py:397 | reversing the template twice gives it back, so `[::-1]` loses and adds nothing |
| Datcon.FillFrom | datcon.py:422-429 | the template fill never adds or removes a dictionary key |
| Datcon.Fill | datcon.py:421-429 | the filled dictionary has exactly the six keys `y m d h mi s` |
| Datcon.FillFromKeeps | datcon.py:422-429 | a key that no remaining template position writes keeps its value |
| Datcon.FillFromTakesLast | datcon.py:422-429 | the last position naming a key, within reach of the values, decides it |
| Datcon.FillDefaults | datcon.py:421-429 | keys the template does not reach keep their defaults `y0 m1 d1 h0 mi0 s0`; an `IndexError` leaves the key alone |
| Datcon.FillTakes | datcon.py:424-427 | a key named at position i, and at no later position within reach, gets `value[i]` |
| Datcon.OperandPartsEncode | datcon.py:355-363 | the parts `operand` stores are a valid tuple that encodes back to `abs(rawtime)`; negating the rawtime gives the same parts |
| Datcon.PyMod | datcon.py:79-82 | Python's `%`: the remainder lies between 0 and the divisor, takes the divisor's sign, and `a == b * (a // b) + a % b` |
| Datcon.DateTime.constructor | datcon.py:292-299 | the fields take the given values; the era is AC exactly when rawtime >= 0; `output` is empty |
| Datcon.DateTime.SupportInit | datcon.py:145-148 | `data` and `source` become the two halves of `output`; the converter is reset to 0 |
| Datcon.DateTime.ConvertTo | datcon.py:149-152 | sets the converter to exact conversion and returns the same instance |
| Datcon.DateTime.ObjectOnlyAccountsFor | datcon.py:153-156 | sets the converter to new instances and returns the same instance |
| Datcon.DateTime.FinalizeFullDatetime | datcon.py:417-444 | rawtime is fill, normalise, encode with the anchor, negate for BC; `output` and `data` hold its decoding, without the anchor taken off; the era is unchanged |
| Datcon.DateTime.Operand | datcon.py:335-375 | a new instance with rawtime = base (negated if `reverse`) minus anchor, BC exactly when that is negative, holding the parts of its magnitude |
| Datcon.DateTime.Create | datcon.py:388-405 | the classmethod `datetime`: a new instance whose rawtime is `FinalRawtime` of the extracted values in default or reversed template order; its era stays AC, anchor and source are set, the converter is 0 |
| Datcon.DateTime.Stamp | datcon.py:376-387 | the classmethod `stamp`: the same with the extracted template; a length mismatch passes through; its era stays AC, and anchor and source are set |
| Datcon.DateTime.Add | datcon.py:21-30 | for a number or a datetime, a new instance whose rawtime is the sum, BC exactly when negative, anchor 0, default template, converter 0, and no `data` yet; `None` otherwise |
| Datcon.DateTime.Sub | datcon.py:31-40 | for a number or a datetime, a new instance whose rawtime is the difference, BC exactly when negative, anchor 0, default template, converter 0, and no `data` yet; `None` otherwise |
| Datcon.DateTime.Mod | datcon.py:73-83 | a plain number, not an instance: the remainder of rawtime by the argument with the divisor's sign; `None` for other arguments |
| Datcon.DateTime.Eq | datcon.py:95-101 | defined exactly for numbers and datetimes; `None` otherwise |
| Datcon.DateTime.Gt | datcon.py:102-108 | defined exactly for numbers and datetimes; `None` otherwise |
| Datcon.DateTime.Ge | datcon.py:109-115 | defined exactly for numbers and datetimes; `None` otherwise |
| Datcon.DateTime.Lt | datcon.py:116-122 | defined exactly for numbers and datetimes; `None` otherwise |
| Datcon.DateTime.Le | datcon.py:123-129 | defined exactly for numbers and datetimes; `None` otherwise |
| Datcon.DateTime.Ne | datcon.py:130-136 | defined exactly for numbers and datetimes; `None` otherwise |
| Datcon.DateTime.ComparisonsAgree | datcon.py:95-136 | exactly one of `<`, `==`, `>` holds; `<=` is `<` or `==`, `>=` is `>` or `==`, `!=` is not `==` |
| Datcon.DateTime.ComparisonIsSymmetric | datcon.py:95-136 | `a < b` exactly when `b > a`, and `a == b` exactly when `b == a` |
| Datcon.DateTime.Year | datcon.py:182-186 | mode 0 gives the stored year; mode 2 gives a new instance with the whole state `datetime.datetime([Y])` gives it: its rawtime, decoded `data`, era AC, anchor 0, default template |
| Datcon.DateTime.Month | datcon.py:226-230 | mode 0 gives the stored month; mode 2 gives a new instance with the whole state `datetime.datetime([1, M])` gives it: its rawtime, decoded `data`, era AC, anchor 0, default template |
| Datcon.DateTime.Day | datcon.py:235-240 | mode 0 gives the stored day; mode 2 gives a new instance with the whole state `datetime.datetime([0, 0, D])` gives it: its rawtime, decoded `data`, era AC, anchor 0, default template |
| Datcon.DateTime.Hour | datcon.py:242-247 | mode 0 gives the stored hour; mode 2 gives a new instance with the whole state `datetime.datetime([1, 1, 1, h])` gives it: its rawtime, decoded `data`, era AC, anchor 0, default template |
| Datcon.DateTime.Minute | datcon.py:249-254 | mode 0 gives the stored minute; mode 2 gives a new instance with the whole state `datetime.datetime([1, 1, 1, 0, mi])` gives it: its rawtime, decoded `data`, era AC, anchor 0, default template |
| Datcon.DateTime.Second | datcon.py:256-261 | mode 0 gives the stored second; mode 2 gives a new instance with the whole state `datetime.datetime([1, 1, 1, 0, 0, s])` gives it: its rawtime, decoded `data`, era AC, anchor 0, default template |
| Datcon.DateTime.Time | datcon.py:263-268 | mode 0 gives the slice `data[0:3]`, which is year, month and day; mode 2 gives a new instance with the whole state `datetime.datetime([1, 1, 1, h, mi, s])` gives it: its rawtime, decoded `data`, era AC, anchor 0, default template |
| Datcon.DateTime.Date | datcon.py:270-275 | mode 0 gives the slice `data[3:6]`, which is hour, minute and second; mode 2 gives a new instance with the whole state `datetime.datetime([Y, M, D])` gives it: its rawtime, decoded `data`, era AC, anchor 0, default template |
| Datcon.EraAndParts | datcon.py:358-366 | BC exactly for a negative rawtime, and the decoded parts of its magnitude |
| Datcon.FillDictionary | datcon.py:421-429 | the nested dictionary loop computes `Fill(template, value)` |
| Datcon.FillUnitKeysAt | datcon.py:421-429 | in the default template, position j sets its own key to `value[j]`, or the key keeps its default when the list is shorter |
| Datcon.FillUnitKeys | datcon.py:421-429 | a value list in the default order fills year, month, day, hour, minute, second in turn, with defaults for the rest |
| Datcon.CreatedFromNormalized | datcon.py:431-442 | when the filled values normalise to a valid tuple, that tuple is what the new instance holds |
| Datcon.CreatedCanonical | datcon.py:417-444 | values that fill a valid tuple from year 1 on give back exactly that tuple, at its own seconds |
| Datcon.CreateRoundTrip | datcon.py:388-405 | `datetime.datetime([Y, M, D, h, mi, s])` of a valid tuple from year 1 on holds that tuple, and its rawtime is the tuple's seconds |
| Datcon.NormalizeLowYear | datcon.py:679-686 | a valid tuple of year <= 0 passes normalisation with only its year raised to 1 |
| Datcon.YearViewParts | datcon.py:185 | the year view's new instance is 1 January of that year, or of year 1 when the year is 0 or less |
| Datcon.MonthViewParts | datcon.py:229 | the month view's new instance is the first of that month in year 1 |
| Datcon.DayViewParts | datcon.py:239 | the day view's new instance is that day of January in year 1: month 0 reads as January and year 0 is clamped |
| Datcon.TimeViewParts | datcon.py:246-267 | the hour, minute, second and time views' new instances are that time on 0001-01-01 |
| Datcon.DateViewParts | datcon.py:274 | the date view's new instance is midnight of that date |
| Datcon.ReversedTemplateReadsBackwards | datcon.py:397 | with `template_reverse`, six values are read second first: the same as the reversed list in default order |
| Datcon.AnchorAdds | datcon.py:432-434 | the anchor is added to the stored rawtime; BC negates the anchored total |
| Datcon.OneDayAnchorShiftsData | datcon.py:436-438 | with an anchor of one day, `data` holds the next day, because the anchor is not taken off before decoding |
| Datcon.BCDataIsDegenerate | datcon.py:433-438 | under BC, any instant after the first day decodes to year 0, January and a day of 0 or less |

## Left out

- Floating point. Every field and `rawtime` is an integer, so these are not modelled:
  - the fractional-year, fractional-month and fractional-day carries of `normalize_full` (datcon.py:598-602,
    617-623, 644-651), which change nothing for whole numbers;
  - fractional seconds;
  - `float(...)` conversions, and the float type of mode-0 view results.
- Extract.ValueTemplateExtractor: requires that a string value contains no '.', because `float()` parsing of
  decimal runs is not modelled. Runs are read as whole decimal numbers.
- Extract.ValueTemplateExtractor: requires a nonempty list value. The source reads `value[0]` of a list of
  strings, and an empty list counts as one, so it raises `IndexError`.
- Extract.ValueTemplateExtractor: a list that mixes strings and numbers is not a case of the model's value type.
  The source lets it through unchecked.
- Extract.Lower: only ASCII letters are lower-cased. Unicode case mapping is not modelled.
- Datcon.DateTime.Create: an existing datetime as `input_value` is not modelled. The source cannot iterate it and
  fails.
- Datcon.DateTime.Operand: requires a number or datetime for both base and anchor. Anything else makes the
  source's subtraction fail on `None`.
- Datcon.DateTime.Create and Datcon.DateTime.Stamp: require a number or datetime anchor. `anchor_converter` gives
  `None` otherwise, and encoding then fails.
- Datcon.DateTime.Mod: requires a nonzero divisor. Python raises `ZeroDivisionError` for zero.
- Views: they require `data`, which exists only after `finalize_full_datetime`. An instance from `operand` (and
  so from `+` and `-`) never gets `data`, so its views raise `AttributeError` in the source.
- Converter mode 1 views: not modelled. They compute fractional years, months, days and hours by float division.
- `__mul__`, `__truediv__`, `__floordiv__`, `__pow__`: not modelled. They are float-valued numerics with no
  calendar meaning.
- `current_time`: not modelled, because it reads the system clock.
- `__str__` and `__repr__`: not modelled, because they are presentation only.
- The module-level lines at the end of `datcon.py`: not modelled, because they print.
- `setup.py`: not modelled, because it is packaging only.
- Python mechanics are not modelled:
  - the shared mutable default arguments of the constructor and the classmethods;
  - the class mixins (`Maths_Support`, `datetime_support`), which become one class here;
  - `isinstance` dispatch, which becomes the `Arg` and `Value` datatypes.
- The month view's set-based `days_in_month` raises `ValueError` for a month outside 1..12. Only months 1..12
  reach it, so that branch is not modelled.
