/**
 * The part of JavaScript's `Date` that the adapter uses, on integers.
 *
 * A time value is an integer number of milliseconds since 1970-01-01T00:00Z,
 * as `Date.prototype.getTime` returns it; a day number counts days from
 * 1970-01-01 (day 0, a Thursday). Dates are proleptic Gregorian and in UTC:
 * the host's local time zone is not modelled, so `getFullYear`, `getMonth`,
 * `getDay` and `setHours(0, 0, 0, 0)` are taken in UTC.
 */
module Calendar {
  import opened Wrappers
  import opened Text

  const MsPerDay: int := 86400000
  const MsPerHour: int := 3600000

  // ---------------------------------------------------------------------------
  // Years
  // ---------------------------------------------------------------------------

  predicate IsLeapYear(y: int)
  {
    y % 4 == 0 && (y % 100 != 0 || y % 400 == 0)
  }

  function DaysInYear(y: int): int
  {
    if IsLeapYear(y) then 366 else 365
  }

  /** The number of leap years among 1, 2, ..., y - 1 (shifted consistently for y <= 0). */
  function LeapYearsBefore(y: int): int
  {
    (y - 1) / 4 - (y - 1) / 100 + (y - 1) / 400
  }

  /** The day number of 1 January of year `y`. */
  function JanFirst(y: int): int
  {
    365 * (y - 1970) + LeapYearsBefore(y) - LeapYearsBefore(1970)
  }

  lemma FloorStep4(y: int)
    ensures y / 4 - (y - 1) / 4 == if y % 4 == 0 then 1 else 0
  {
  }

  lemma FloorStep100(y: int)
    ensures y / 100 - (y - 1) / 100 == if y % 100 == 0 then 1 else 0
  {
  }

  lemma FloorStep400(y: int)
    ensures y / 400 - (y - 1) / 400 == if y % 400 == 0 then 1 else 0
  {
  }

  /** Consecutive years are `DaysInYear` apart. */
  lemma JanFirstNext(y: int)
    ensures JanFirst(y + 1) == JanFirst(y) + DaysInYear(y)
  {
    FloorStep4(y);
    FloorStep100(y);
    FloorStep400(y);
  }

  lemma FloorShift(a: int)
    ensures (a + 400) / 4 == a / 4 + 100
    ensures (a + 400) / 100 == a / 100 + 4
    ensures (a + 400) / 400 == a / 400 + 1
  {
  }

  /** The Gregorian calendar repeats every 400 years, which have 146097 days. */
  lemma JanFirstCycle(y: int)
    ensures JanFirst(y + 400) == JanFirst(y) + 146097
  {
    FloorShift(y - 1);
  }

  lemma {:induction false} JanFirstCycles(c: int)
    ensures JanFirst(1970 + 400 * c) == 146097 * c
    decreases if c < 0 then -c else c
  {
    if c > 0 {
      JanFirstCycles(c - 1);
      JanFirstCycle(1970 + 400 * (c - 1));
    } else if c < 0 {
      JanFirstCycles(c + 1);
      JanFirstCycle(1970 + 400 * c);
    }
  }

  lemma {:induction false} JanFirstIncreasing(a: int, b: int)
    requires a < b
    ensures JanFirst(a) < JanFirst(b)
    decreases b - a
  {
    JanFirstNext(a);
    if a + 1 < b {
      JanFirstIncreasing(a + 1, b);
    }
  }

  /** The year that contains day `d`, searching upwards from year `y`. */
  function YearFrom(y: int, d: int): (r: int)
    requires JanFirst(y) <= d
    ensures y <= r && JanFirst(r) <= d < JanFirst(r + 1)
    decreases d - JanFirst(y)
  {
    JanFirstNext(y);
    if d < JanFirst(y + 1) then y else YearFrom(y + 1, d)
  }

  /** The calendar year of day `d` (`getFullYear`): the year whose days include `d`. */
  function YearOf(d: int): (y: int)
    ensures JanFirst(y) <= d < JanFirst(y + 1)
  {
    var c := d / 146097;
    JanFirstCycles(c);
    YearFrom(1970 + 400 * c, d)
  }

  /** Every day lies in exactly one year. */
  lemma YearOfUnique(d: int, y: int)
    requires JanFirst(y) <= d < JanFirst(y + 1)
    ensures YearOf(d) == y
  {
    var r := YearOf(d);
    if r < y {
      if r + 1 < y {
        JanFirstIncreasing(r + 1, y);
      }
    } else if y < r {
      if y + 1 < r {
        JanFirstIncreasing(y + 1, r);
      }
    }
  }

  // ---------------------------------------------------------------------------
  // Months and calendar dates
  // ---------------------------------------------------------------------------

  /** Days of the year before month `m` (1 = January; 13 gives the length of the year). */
  function DaysBeforeMonth(m: int, leap: bool): int
    requires 1 <= m <= 13
  {
    [0, 31, 59, 90, 120, 151, 181, 212, 243, 273, 304, 334, 365][m - 1]
      + (if leap && m > 2 then 1 else 0)
  }

  function DaysInMonth(y: int, m: int): int
    requires 1 <= m <= 12
  {
    DaysBeforeMonth(m + 1, IsLeapYear(y)) - DaysBeforeMonth(m, IsLeapYear(y))
  }

  /** The month that contains day-of-year `doy`, searching upwards from month `m`. */
  function MonthFrom(m: int, doy: int, leap: bool): (r: int)
    requires 1 <= m <= 12 && DaysBeforeMonth(m, leap) <= doy < DaysBeforeMonth(13, leap)
    ensures m <= r <= 12 && DaysBeforeMonth(r, leap) <= doy < DaysBeforeMonth(r + 1, leap)
    decreases 12 - m
  {
    if doy < DaysBeforeMonth(m + 1, leap) then m else MonthFrom(m + 1, doy, leap)
  }

  lemma MonthUnique(doy: int, leap: bool, m: int, r: int)
    requires 1 <= m <= 12 && DaysBeforeMonth(m, leap) <= doy < DaysBeforeMonth(m + 1, leap)
    requires 1 <= r <= 12 && DaysBeforeMonth(r, leap) <= doy < DaysBeforeMonth(r + 1, leap)
    ensures m == r
  {
  }

  datatype Date = Date(year: int, month: int, day: int)

  predicate ValidDate(c: Date)
  {
    1 <= c.month <= 12 && 1 <= c.day <= DaysInMonth(c.year, c.month)
  }

  /** The day number of a calendar date. */
  function DaysFromCivil(c: Date): int
    requires 1 <= c.month <= 12
  {
    JanFirst(c.year) + DaysBeforeMonth(c.month, IsLeapYear(c.year)) + c.day - 1
  }

  /** The calendar date of a day number (`getFullYear`, `getMonth() + 1`, `getDate`). */
  function CivilFromDays(d: int): (c: Date)
    ensures ValidDate(c) && DaysFromCivil(c) == d
    ensures c.year == YearOf(d)
  {
    var y := YearOf(d);
    var leap := IsLeapYear(y);
    JanFirstNext(y);
    var m := MonthFrom(1, d - JanFirst(y), leap);
    Date(y, m, d - JanFirst(y) - DaysBeforeMonth(m, leap) + 1)
  }

  /** Every valid calendar date is the date of its own day number. */
  lemma CivilRoundTrip(c: Date)
    requires ValidDate(c)
    ensures CivilFromDays(DaysFromCivil(c)) == c
  {
    var d := DaysFromCivil(c);
    var leap := IsLeapYear(c.year);
    JanFirstNext(c.year);
    YearOfUnique(d, c.year);
    var r := CivilFromDays(d);
    MonthUnique(d - JanFirst(c.year), leap, c.month, r.month);
  }

  // ---------------------------------------------------------------------------
  // Weekdays and ISO weeks
  // ---------------------------------------------------------------------------

  /** `getDay()`: 0 is Sunday; day 0 (1970-01-01) was a Thursday. */
  function WeekDay(d: int): int
  {
    (d + 4) % 7
  }

  /** `(getDay() + 6) % 7`: days since the Monday that starts the week of `d`. */
  function DaysSinceMonday(d: int): (k: int)
    ensures 0 <= k < 7 && k == (d + 3) % 7
  {
    (WeekDay(d) + 6) % 7
  }

  /** The Monday that starts the week of day `d`. */
  function MondayOf(d: int): int
  {
    d - DaysSinceMonday(d)
  }

  /** `tempDate.setDate(tempDate.getDate() + 3 - ((tempDate.getDay() + 6) % 7))`: the Thursday of the week of `d`. */
  function ThursdayOf(d: int): int
  {
    d + 3 - DaysSinceMonday(d)
  }

  /** The Thursday of the week that contains 4 January of year `y`. */
  function FirstThursday(y: int): int
  {
    ThursdayOf(JanFirst(y) + 3)
  }

  /** The year `new Date(y, 0, 4)` lands in: the `Date` constructor reads a year 0..99 as 1900 + y. */
  function ConstructorYear(y: int): (r: int)
    ensures 0 <= y <= 99 ==> r == 1900 + y
    ensures !(0 <= y <= 99) ==> r == y
  {
    if 0 <= y <= 99 then 1900 + y else y
  }

  /** `Math.round`: the nearest integer, halves rounded up. */
  function Round(x: real): int
  {
    (x + 0.5).Floor
  }

  /**
   * `getISOWeek(date)` as written: move to the Thursday of the week, take the
   * first Thursday of the year `new Date(year, 0, 4)` gives for that Thursday's
   * year, and count weeks between them with the correction term
   * `- 3 + ((firstThursday.getDay() + 6) % 7)`.
   */
  function GetISOWeek(d: int): int
  {
    var t := ThursdayOf(d);
    var f := FirstThursday(ConstructorYear(YearOf(t)));
    1 + Round(((t - f) as real - 3.0 + DaysSinceMonday(f) as real) / 7.0)
  }

  /** The ISO 8601 week-numbering year of day `d`: the year of its week's Thursday. */
  function IsoWeekYear(d: int): int
  {
    YearOf(ThursdayOf(d))
  }

  /** The Monday of ISO week 1 of year `y`, the week that contains 4 January. */
  function WeekOneMonday(y: int): int
  {
    FirstThursday(y) - 3
  }

  lemma ThursdayOfIsThursday(d: int)
    ensures WeekDay(ThursdayOf(d)) == 4 && DaysSinceMonday(ThursdayOf(d)) == 3
    ensures ThursdayOf(d) - 3 <= d <= ThursdayOf(d) + 3
    ensures MondayOf(d) == ThursdayOf(d) - 3
  {
  }

  /**
   * Week 1 of ISO 8601 (week date, section 4.1.4 of ISO 8601:2004): it starts on
   * a Monday, contains 4 January, and its Thursday is the first Thursday of the year.
   */
  lemma WeekOneOfYear(y: int)
    ensures WeekDay(WeekOneMonday(y)) == 1
    ensures WeekOneMonday(y) <= JanFirst(y) + 3 < WeekOneMonday(y) + 7
    ensures JanFirst(y) <= FirstThursday(y) < JanFirst(y) + 7
    ensures WeekDay(FirstThursday(y)) == 4
  {
    ThursdayWindow(JanFirst(y));
  }

  /** The Thursday of the week of day `j + 3` lies in `j .. j + 6` and is preceded by a Monday. */
  lemma ThursdayWindow(j: int)
    ensures WeekDay(ThursdayOf(j + 3) - 3) == 1 && WeekDay(ThursdayOf(j + 3)) == 4
    ensures j <= ThursdayOf(j + 3) < j + 7
  {
    var x := ThursdayOf(j + 3);
    ThursdayOfIsThursday(j + 3);
    assert (x + 4) % 7 == 4;
    assert x % 7 == 0;
    assert (x + 1) % 7 == 1;
  }

  lemma SameWeekDayApart(a: int, b: int)
    requires WeekDay(a) == WeekDay(b)
    ensures (a - b) % 7 == 0
  {
  }

  /**
   * What `getISOWeek` counts, for every day: the Monday of `d` lies
   * `GetISOWeek(d) - 1` weeks after the week-1 Monday of the year that
   * `new Date(year, 0, 4)` gives for the year of the week's Thursday.
   */
  lemma GetISOWeekCounts(d: int)
    ensures MondayOf(d) == WeekOneMonday(ConstructorYear(IsoWeekYear(d))) + 7 * (GetISOWeek(d) - 1)
  {
    var t := ThursdayOf(d);
    var f := FirstThursday(ConstructorYear(YearOf(t)));
    ThursdayOfIsThursday(d);
    WeekOneOfYear(ConstructorYear(YearOf(t)));
    SameWeekDayApart(t, f);
    RoundWholeWeeks(t, f, (t - f) / 7);
  }

  /**
   * `GetISOWeek` is the ISO 8601 week number: the Monday of `d` lies in the
   * week-numbering year `IsoWeekYear(d)` (between its week-1 Monday and the
   * next year's), exactly `GetISOWeek(d) - 1` weeks after its week-1 Monday,
   * and so the week number lies in 1..53. This holds for every
   * week-numbering year outside 0..99, which the `Date` constructor moves.
   */
  lemma GetISOWeekIsIsoWeek(d: int)
    requires !(0 <= IsoWeekYear(d) <= 99)
    ensures 1 <= GetISOWeek(d) <= 53
    ensures MondayOf(d) == WeekOneMonday(IsoWeekYear(d)) + 7 * (GetISOWeek(d) - 1)
    ensures WeekOneMonday(IsoWeekYear(d)) <= MondayOf(d) < WeekOneMonday(IsoWeekYear(d) + 1)
  {
    var t := ThursdayOf(d);
    var y := YearOf(t);
    var f := FirstThursday(y);
    ThursdayOfIsThursday(d);
    WeekOneOfYear(y);
    WeekOneOfYear(y + 1);
    var k := ThursdaysApart(t, f, JanFirst(y + 1));
    assert k <= 52 by {
      JanFirstNext(y);
    }
    RoundWholeWeeks(t, f, k);
    assert GetISOWeek(d) == 1 + k;
  }

  /**
   * For a week-numbering year `y` in 0..99, `getISOWeek` counts from the first
   * Thursday of 1900 + y, eighteen centuries later: the week number is far
   * below 1.
   */
  lemma GetISOWeekTwoDigitYears(d: int)
    requires 0 <= IsoWeekYear(d) <= 99
    ensures GetISOWeek(d) < -90000
  {
    var y := IsoWeekYear(d);
    var t := ThursdayOf(d);
    GetISOWeekCounts(d);
    ThursdayOfIsThursday(d);
    WeekOneOfYear(1900 + y);
    if y + 1 < 100 {
      JanFirstIncreasing(y + 1, 100);
    }
    if 1900 < 1900 + y {
      JanFirstIncreasing(1900, 1900 + y);
    }
    TwoDigitCenturies();
  }

  lemma TwoDigitCenturies()
    ensures JanFirst(1900) - JanFirst(100) == 657436
  {
  }

  /**
   * A Thursday `t` less than a week before the Thursday `f` is not before it:
   * the two lie a whole number `k >= 0` of weeks apart, and `7 * k < next - f`
   * for any `next` after `t`.
   */
  lemma ThursdaysApart(t: int, f: int, next: int) returns (k: int)
    requires WeekDay(t) == 4 && WeekDay(f) == 4 && f - 7 < t < next
    ensures t - f == 7 * k && 0 <= k && 7 * k < next - f
  {
    SameWeekDayApart(t, f);
    k := (t - f) / 7;
  }

  /** The week count of `getISOWeek` for a Thursday `t` that is `k` whole weeks after the Thursday `f`. */
  lemma RoundWholeWeeks(t: int, f: int, k: int)
    requires t - f == 7 * k && DaysSinceMonday(f) == 3
    ensures Round(((t - f) as real - 3.0 + DaysSinceMonday(f) as real) / 7.0) == k
  {
    assert ((t - f) as real - 3.0 + DaysSinceMonday(f) as real) / 7.0 == k as real;
  }

  /** Days in the same Monday-to-Sunday week have the same ISO week and week-numbering year. */
  lemma SameWeekSameIsoWeek(d1: int, d2: int)
    requires MondayOf(d1) == MondayOf(d2)
    ensures ThursdayOf(d1) == ThursdayOf(d2)
    ensures IsoWeekYear(d1) == IsoWeekYear(d2) && GetISOWeek(d1) == GetISOWeek(d2)
  {
    ThursdayOfIsThursday(d1);
    ThursdayOfIsThursday(d2);
  }

  lemma MondayOfIsMonday(d: int)
    ensures WeekDay(MondayOf(d)) == 1 && MondayOf(MondayOf(d)) == MondayOf(d)
  {
  }

  /** A Monday whose Thursday falls in year `y` lies in ISO week `1 + (d - WeekOneMonday(y)) / 7` of `y`. */
  lemma MondayIsoWeek(d: int, y: int)
    requires WeekDay(d) == 1 && JanFirst(y) <= d + 3 < JanFirst(y + 1) && !(0 <= y <= 99)
    ensures IsoWeekYear(d) == y && GetISOWeek(d) == 1 + (d - WeekOneMonday(y)) / 7
  {
    assert ThursdayOf(d) == d + 3;
    YearOfUnique(d + 3, y);
    GetISOWeekIsIsoWeek(d);
  }

  /** A day whose week's Thursday falls in year `y` lies in week `1 + (MondayOf(d) - WeekOneMonday(y)) / 7` of `y`. */
  lemma IsoWeekOf(d: int, y: int)
    requires JanFirst(y) <= ThursdayOf(d) < JanFirst(y + 1) && !(0 <= y <= 99)
    ensures IsoWeekYear(d) == y && GetISOWeek(d) == 1 + (MondayOf(d) - WeekOneMonday(y)) / 7
  {
    var m := MondayOf(d);
    ThursdayOfIsThursday(d);
    MondayOfIsMonday(d);
    SameWeekSameIsoWeek(d, m);
    ThursdayOfIsThursday(m);
    YearOfUnique(m + 3, y);
    GetISOWeekIsIsoWeek(m);
  }

  /** The ISO week-numbering year and week number determine the week. */
  lemma IsoWeekDeterminesWeek(d1: int, d2: int)
    requires IsoWeekYear(d1) == IsoWeekYear(d2) && GetISOWeek(d1) == GetISOWeek(d2)
    ensures MondayOf(d1) == MondayOf(d2)
  {
    GetISOWeekCounts(d1);
    GetISOWeekCounts(d2);
  }

  // ---------------------------------------------------------------------------
  // Date.prototype.toISOString and parsing its output
  // ---------------------------------------------------------------------------

  /** The year as `toISOString` writes it: four digits, or a sign and six digits outside 0..9999. */
  function YearField(y: int): string
  {
    if 0 <= y <= 9999 then Pad(y, 4)
    else (if y < 0 then "-" else "+") + Pad(if y < 0 then -y else y, 6)
  }

  /** `YYYY-MM-DD` of a calendar date. */
  function DateFields(c: Date): string
    requires ValidDate(c)
  {
    YearField(c.year) + "-" + Pad(c.month, 2) + "-" + Pad(c.day, 2)
  }

  /** `YYYY-MM-DD` of day number `d`. */
  function DateText(d: int): string
  {
    DateFields(CivilFromDays(d))
  }

  /** `HH:mm:ss.sss` of a millisecond offset within a day. */
  function TimeText(ms: int): string
    requires 0 <= ms < MsPerDay
  {
    Pad(ms / MsPerHour, 2) + ":" + Pad(ms / 60000 % 60, 2) + ":" + Pad(ms / 1000 % 60, 2) + "." + Pad(ms % 1000, 3)
  }

  /** `new Date(t).toISOString()`: `YYYY-MM-DDTHH:mm:ss.sssZ` in UTC. */
  function ToIsoString(t: int): string
  {
    DateText(t / MsPerDay) + "T" + TimeText(t % MsPerDay) + "Z"
  }

  /** The time value of a date and a time of day, or `None` if they name no real date or time. */
  function TimeValue(c: Date, h: nat, mi: nat, sec: nat, ms: nat): Option<int>
  {
    if ValidDate(c) && h < 24 && mi < 60 && sec < 60 then
      Some(DaysFromCivil(c) * MsPerDay + h * MsPerHour + mi * 60000 + sec * 1000 + ms)
    else
      None
  }

  /**
   * `new Date(s)` for a string in the format `toISOString` produces with a
   * four-digit year (`YYYY-MM-DDTHH:mm:ss.sssZ`): its time value, or `None`
   * (an invalid date) for a string not in that format or naming no real date or time.
   */
  function ParseIso(s: string): Option<int>
  {
    if && |s| == 24
       && s[4] == '-' && s[7] == '-' && s[10] == 'T' && s[13] == ':' && s[16] == ':' && s[19] == '.' && s[23] == 'Z'
       && AllDigits(s[0..4]) && AllDigits(s[5..7]) && AllDigits(s[8..10])
       && AllDigits(s[11..13]) && AllDigits(s[14..16]) && AllDigits(s[17..19]) && AllDigits(s[20..23])
    then
      TimeValue(Date(DigitsValue(s[0..4]), DigitsValue(s[5..7]), DigitsValue(s[8..10])),
                DigitsValue(s[11..13]), DigitsValue(s[14..16]), DigitsValue(s[17..19]), DigitsValue(s[20..23]))
    else
      None
  }

  /** The layout `toISOString` writes its fields in. */
  function IsoLayout(yy: string, mm: string, dd: string, hh: string, nn: string, ss: string, fff: string): string
  {
    yy + "-" + mm + "-" + dd + "T" + hh + ":" + nn + ":" + ss + "." + fff + "Z"
  }

  lemma TimeSplit(ms: int)
    requires 0 <= ms < MsPerDay
    ensures ms / MsPerHour < 24 && ms / 60000 % 60 < 60 && ms / 1000 % 60 < 60 && ms % 1000 < 1000
    ensures ms == ms / MsPerHour * MsPerHour + ms / 60000 % 60 * 60000 + ms / 1000 % 60 * 1000 + ms % 1000
  {
    var h := ms / MsPerHour;
    var r1 := ms % MsPerHour;
    assert ms == h * MsPerHour + r1;
    assert ms / 60000 == h * 60 + r1 / 60000;
    assert ms / 60000 % 60 == r1 / 60000;
    var r2 := r1 % 60000;
    assert ms / 1000 == (h * 60 + r1 / 60000) * 60 + r2 / 1000;
    assert ms / 1000 % 60 == r2 / 1000;
    assert ms % 1000 == r2 % 1000;
  }

  /** Where `IsoLayout` puts its separators and its fields. */
  lemma {:induction false} IsoLayoutShape(yy: string, mm: string, dd: string, hh: string, nn: string, ss: string, fff: string)
    requires |yy| == 4 && |mm| == 2 && |dd| == 2 && |hh| == 2 && |nn| == 2 && |ss| == 2 && |fff| == 3
    ensures var s := IsoLayout(yy, mm, dd, hh, nn, ss, fff);
      && |s| == 24
      && s[4] == '-' && s[7] == '-' && s[10] == 'T' && s[13] == ':' && s[16] == ':' && s[19] == '.' && s[23] == 'Z'
      && s[0..4] == yy && s[5..7] == mm && s[8..10] == dd
      && s[11..13] == hh && s[14..16] == nn && s[17..19] == ss && s[20..23] == fff
  {
    var s := IsoLayout(yy, mm, dd, hh, nn, ss, fff);
    assert s[0..4] == yy;
    assert s[5..7] == mm;
    assert s[8..10] == dd;
    assert s[11..13] == hh;
    assert s[14..16] == nn;
    assert s[17..19] == ss;
    assert s[20..23] == fff;
  }

  /** Parsing a string laid out from digit fields of the right widths reads those fields. */
  lemma {:induction false} ParseIsoFields(yy: string, mm: string, dd: string, hh: string, nn: string, ss: string, fff: string)
    requires |yy| == 4 && |mm| == 2 && |dd| == 2 && |hh| == 2 && |nn| == 2 && |ss| == 2 && |fff| == 3
    requires AllDigits(yy) && AllDigits(mm) && AllDigits(dd) && AllDigits(hh) && AllDigits(nn) && AllDigits(ss)
    requires AllDigits(fff)
    ensures ParseIso(IsoLayout(yy, mm, dd, hh, nn, ss, fff))
         == TimeValue(Date(DigitsValue(yy), DigitsValue(mm), DigitsValue(dd)),
                      DigitsValue(hh), DigitsValue(nn), DigitsValue(ss), DigitsValue(fff))
  {
    IsoLayoutShape(yy, mm, dd, hh, nn, ss, fff);
  }

  /** For a four-digit year, `toISOString` is the layout of the zero-padded fields of `t`. */
  lemma ToIsoStringLayout(t: int)
    requires 0 <= YearOf(t / MsPerDay) <= 9999
    ensures var c, ms := CivilFromDays(t / MsPerDay), t % MsPerDay;
      ToIsoString(t)
        == IsoLayout(Pad(c.year, 4), Pad(c.month, 2), Pad(c.day, 2),
                     Pad(ms / MsPerHour, 2), Pad(ms / 60000 % 60, 2), Pad(ms / 1000 % 60, 2), Pad(ms % 1000, 3))
  {
  }

  /** The fields of `t`, read back, give `t`. */
  lemma TimeValueOfFields(t: int)
    ensures var c, ms := CivilFromDays(t / MsPerDay), t % MsPerDay;
      TimeValue(c, ms / MsPerHour, ms / 60000 % 60, ms / 1000 % 60, ms % 1000) == Some(t)
  {
    var d, ms := t / MsPerDay, t % MsPerDay;
    TimeSplit(ms);
    TimeValueOfDay(CivilFromDays(d), d, ms);
    assert d * MsPerDay + ms == t;
  }

  /** The time value of the date of day `d` at the clock time of offset `ms` is `ms` past the start of day `d`. */
  lemma TimeValueOfDay(c: Date, d: int, ms: int)
    requires ValidDate(c) && DaysFromCivil(c) == d && 0 <= ms < MsPerDay
    ensures TimeValue(c, ms / MsPerHour, ms / 60000 % 60, ms / 1000 % 60, ms % 1000) == Some(d * MsPerDay + ms)
  {
    TimeSplit(ms);
  }

  /** Parsing the zero-padded layout of a real date and time of day gives its time value. */
  lemma ParsePadded(c: Date, h: nat, mi: nat, sec: nat, milli: nat)
    requires ValidDate(c) && 0 <= c.year <= 9999 && h < 24 && mi < 60 && sec < 60 && milli < 1000
    ensures ParseIso(IsoLayout(Pad(c.year, 4), Pad(c.month, 2), Pad(c.day, 2), Pad(h, 2), Pad(mi, 2), Pad(sec, 2), Pad(milli, 3)))
         == TimeValue(c, h, mi, sec, milli)
  {
    assert Pow10(4) == 10000 && Pow10(3) == 1000 && Pow10(2) == 100;
    PadRoundTrip(c.year, 4);
    PadRoundTrip(c.month, 2);
    PadRoundTrip(c.day, 2);
    PadRoundTrip(h, 2);
    PadRoundTrip(mi, 2);
    PadRoundTrip(sec, 2);
    PadRoundTrip(milli, 3);
    ParseIsoFields(Pad(c.year, 4), Pad(c.month, 2), Pad(c.day, 2), Pad(h, 2), Pad(mi, 2), Pad(sec, 2), Pad(milli, 3));
    assert Date(c.year, c.month, c.day) == c;
  }

  /** `new Date(new Date(t).toISOString()).getTime() == t` for every year with four digits. */
  lemma IsoStringRoundTrip(t: int)
    requires 0 <= YearOf(t / MsPerDay) <= 9999
    ensures ParseIso(ToIsoString(t)) == Some(t)
  {
    var c, ms := CivilFromDays(t / MsPerDay), t % MsPerDay;
    TimeSplit(ms);
    ToIsoStringLayout(t);
    ParsePadded(c, ms / MsPerHour, ms / 60000 % 60, ms / 1000 % 60, ms % 1000);
    TimeValueOfFields(t);
  }
}
