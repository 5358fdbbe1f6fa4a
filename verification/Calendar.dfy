/**
 Calendar keys of days (weekKey and monthKey in tools/strategies/rsi_reversal_signal.js). A day is counted from
 1970-01-01; year and month follow the proleptic Gregorian calendar as ECMAScript dates do.
 */
module Calendar {

  function Fourths(y: int): int { (y - 1969) / 4 }
  function Hundredths(y: int): int { (y - 1901) / 100 }
  function FourHundredths(y: int): int { (y - 1601) / 400 }

  /** The day number of January 1st. */
  function DayFromYear(y: int): int {
    365 * (y - 1970) + Fourths(y) - Hundredths(y) + FourHundredths(y)
  }

  predicate Leap(y: int) {
    (y % 4 == 0 && y % 100 != 0) || y % 400 == 0
  }

  lemma YearLength(y: int)
    ensures DayFromYear(y + 1) - DayFromYear(y) == if Leap(y) then 366 else 365
  {
    hide Fourths, Hundredths, FourHundredths;
    EveryFourth(y);
    EveryHundredth(y);
    EveryFourHundredth(y);
  }

  lemma EveryFourth(y: int)
    ensures Fourths(y + 1) - Fourths(y) == if y % 4 == 0 then 1 else 0
  {
  }

  lemma EveryHundredth(y: int)
    ensures Hundredths(y + 1) - Hundredths(y) == if y % 100 == 0 then 1 else 0
    ensures y % 100 == 0 ==> y % 4 == 0
  {
  }

  lemma EveryFourHundredth(y: int)
    ensures FourHundredths(y + 1) - FourHundredths(y) == if y % 400 == 0 then 1 else 0
    ensures y % 400 == 0 ==> y % 100 == 0
  {
  }

  lemma {:induction false} YearsAdvance(a: int, b: int)
    requires a <= b
    ensures DayFromYear(a) + 365 * (b - a) <= DayFromYear(b)
    decreases b - a
  {
    if a < b {
      YearsAdvance(a, b - 1);
      YearLength(b - 1);
    }
  }

  /** The year a day lies in. */
  function YearOf(day: int): (y: int)
    ensures DayFromYear(y) <= day < DayFromYear(y + 1)
  {
    if day >= 0 then FromBelow(day, 1970) else FromAbove(day, 1970)
  }

  function FromBelow(day: int, y: int): (r: int)
    requires DayFromYear(y) <= day
    ensures DayFromYear(r) <= day < DayFromYear(r + 1)
    decreases day - DayFromYear(y)
  {
    YearLength(y);
    if day < DayFromYear(y + 1) then y else FromBelow(day, y + 1)
  }

  function FromAbove(day: int, y: int): (r: int)
    requires day < DayFromYear(y)
    ensures DayFromYear(r) <= day < DayFromYear(r + 1)
    decreases DayFromYear(y) - day
  {
    YearLength(y - 1);
    if DayFromYear(y - 1) <= day then y - 1 else FromAbove(day, y - 1)
  }

  /** The month, 1 to 12, of a day counted from the start of its year. */
  function MonthInYear(dayOfYear: int, leap: int): int {
    if dayOfYear < 31 then 1
    else if dayOfYear < 59 + leap then 2
    else if dayOfYear < 90 + leap then 3
    else if dayOfYear < 120 + leap then 4
    else if dayOfYear < 151 + leap then 5
    else if dayOfYear < 181 + leap then 6
    else if dayOfYear < 212 + leap then 7
    else if dayOfYear < 243 + leap then 8
    else if dayOfYear < 273 + leap then 9
    else if dayOfYear < 304 + leap then 10
    else if dayOfYear < 334 + leap then 11
    else 12
  }

  function MonthOf(day: int): int {
    var y := YearOf(day);
    MonthInYear(day - DayFromYear(y), if Leap(y) then 1 else 0)
  }

  function MonthLength(month: int, leap: int): int {
    if month == 2 then 28 + leap else if month in {4, 6, 9, 11} then 30 else 31
  }

  /** The days of a year before this month. */
  function DaysBefore(month: nat, leap: int): int {
    if month <= 1 then 0 else DaysBefore(month - 1, leap) + MonthLength(month - 1, leap)
  }

  lemma DaysBeforeMonths(leap: int)
    ensures DaysBefore(1, leap) == 0 && DaysBefore(2, leap) == 31 && DaysBefore(3, leap) == 59 + leap
    ensures DaysBefore(4, leap) == 90 + leap && DaysBefore(5, leap) == 120 + leap && DaysBefore(6, leap) == 151 + leap
    ensures DaysBefore(7, leap) == 181 + leap && DaysBefore(8, leap) == 212 + leap && DaysBefore(9, leap) == 243 + leap
    ensures DaysBefore(10, leap) == 273 + leap && DaysBefore(11, leap) == 304 + leap
    ensures DaysBefore(12, leap) == 334 + leap && DaysBefore(13, leap) == 365 + leap
  {
    hide MonthLength;
    NextMonth(1, leap);
    NextMonth(2, leap);
    NextMonth(3, leap);
    NextMonth(4, leap);
    NextMonth(5, leap);
    NextMonth(6, leap);
    NextMonth(7, leap);
    NextMonth(8, leap);
    NextMonth(9, leap);
    NextMonth(10, leap);
    NextMonth(11, leap);
    NextMonth(12, leap);
  }

  lemma NextMonth(month: nat, leap: int)
    requires month >= 1
    ensures DaysBefore(month + 1, leap) == DaysBefore(month, leap)
              + (if month == 2 then 28 + leap else if month in {4, 6, 9, 11} then 30 else 31)
  {
  }

  /** A day lies in a month exactly from the end of the months before it to the end of the month. */
  lemma MonthExactly(dayOfYear: int, leap: int, month: nat)
    requires 0 <= leap <= 1 && 0 <= dayOfYear < 365 + leap && 1 <= month <= 12
    ensures MonthInYear(dayOfYear, leap) == month <==>
            DaysBefore(month, leap) <= dayOfYear < DaysBefore(month + 1, leap)
    ensures DaysBefore(13, leap) == 365 + leap
  {
    hide DaysBefore;
    DaysBeforeMonths(leap);
  }

  /** 0 for Monday to 6 for Sunday; `getUTCDay` counts from Sunday, and day 0 was a Thursday. */
  function IsoDay(day: int): int {
    ((4 + day) % 7 + 6) % 7
  }

  /** The years that `Date.UTC` takes for 1900 to 1999. */
  predicate Early(day: int) {
    0 <= YearOf(day) <= 99
  }

  /** What `Date.UTC` makes of a day's own year, month and date. The year 0 was a leap year, 1900 was not. */
  function UtcDay(day: int): int {
    var y := YearOf(day);
    var dayOfYear := day - DayFromYear(y);
    if Early(day) then DayFromYear(1900 + y) + dayOfYear - (if y == 0 && dayOfYear >= 60 then 1 else 0) else day
  }

  function MondayOf(day: int): int {
    UtcDay(day) - IsoDay(UtcDay(day))
  }

  datatype Timeframe = Weekly | Monthly

  /** A week is keyed by the first ten characters of its Monday's text: outside the years 0 to 9999, where the year
      takes seven characters, these only tell year and month. */
  datatype Key = Week(monday: int) | CutWeek(year: int, month: int) | Month(year: int, month: int)

  function KeyOf(day: int, tf: Timeframe): Key {
    if tf.Monthly? then Month(YearOf(day), MonthOf(day))
    else
      var m := MondayOf(day);
      if 0 <= YearOf(m) <= 9999 then Week(m) else CutWeek(YearOf(m), MonthOf(m))
  }

  predicate EarlierMonth(year: int, month: int, laterYear: int, laterMonth: int) {
    year < laterYear || (year == laterYear && month < laterMonth)
  }

  /** Chronological order of the keys of one timeframe. */
  predicate Before(a: Key, b: Key) {
    || (a.Week? && b.Week? && a.monday < b.monday)
    || (a.CutWeek? && b.Week? && a.year < 0)
    || (a.Week? && b.CutWeek? && b.year > 9999)
    || (a.CutWeek? && b.CutWeek? && EarlierMonth(a.year, a.month, b.year, b.month))
    || (a.Month? && b.Month? && EarlierMonth(a.year, a.month, b.year, b.month))
  }

  /** The Monday of a day, unless its year is an early one, is the one on or before it. */
  lemma MondayOnOrBefore(day: int)
    requires !Early(day)
    ensures MondayOf(day) <= day < MondayOf(day) + 7 && IsoDay(MondayOf(day)) == 0
  {
    hide *;
    OwnMonday(day);
    MondayNear(day);
  }

  lemma OwnMonday(day: int)
    requires !Early(day)
    ensures MondayOf(day) == day - IsoDay(day)
  {
    hide YearOf, DayFromYear, IsoDay, Early;
  }

  lemma MondayNear(day: int)
    ensures var m := day - IsoDay(day); m <= day < m + 7 && IsoDay(m) == 0
  {
  }

  /** Two days share a week key exactly if they share the Monday, or their Mondays lie outside the years 0 to 9999 and
      in one month. */
  lemma SameWeekKeyExactly(a: int, b: int)
    ensures KeyOf(a, Weekly) == KeyOf(b, Weekly) <==>
            || MondayOf(a) == MondayOf(b)
            || (!(0 <= YearOf(MondayOf(a)) <= 9999) && YearOf(MondayOf(a)) == YearOf(MondayOf(b))
                && MonthOf(MondayOf(a)) == MonthOf(MondayOf(b)))
  {
    hide YearOf, MonthOf, MondayOf;
  }

  lemma YearIs(day: int, y: int)
    requires DayFromYear(y) <= day < DayFromYear(y + 1)
    ensures YearOf(day) == y
  {
    hide YearOf, DayFromYear;
    var r := YearOf(day);
    if r < y {
      YearsAdvance(r + 1, y);
    } else if y < r {
      YearsAdvance(y + 1, r);
    }
  }

  /** The first two Mondays of the year 10000 have one key. */
  lemma WeeksMerge()
    ensures MondayOf(2_932_899) == 2_932_899 && MondayOf(2_932_906) == 2_932_906
    ensures KeyOf(2_932_899, Weekly) == KeyOf(2_932_906, Weekly) == CutWeek(10_000, 1)
  {
    hide YearOf;
    YearIs(2_932_899, 10_000);
    YearIs(2_932_906, 10_000);
  }

  /** The first day of the year 50 is keyed in 1949, after the first day of the year 100. */
  lemma EarlyYearsGoBack()
    ensures DayFromYear(50) < DayFromYear(100)
    ensures Before(KeyOf(DayFromYear(100), Weekly), KeyOf(DayFromYear(50), Weekly))
  {
    hide YearOf;
    YearIs(DayFromYear(50), 50);
    YearIs(DayFromYear(100), 100);
    YearIs(MondayOf(DayFromYear(50)), 1949);
    YearIs(MondayOf(DayFromYear(100)), 99);
  }

  lemma YearIsMonotone(a: int, b: int)
    requires a <= b
    ensures YearOf(a) <= YearOf(b)
  {
    if YearOf(b) < YearOf(a) {
      YearsAdvance(YearOf(b) + 1, YearOf(a));
    }
  }

  /** The key of a later day is the same or a later key, early years aside. */
  lemma KeyIsMonotone(a: int, b: int, tf: Timeframe)
    requires a <= b && (tf.Weekly? ==> !Early(a) && !Early(b))
    ensures KeyOf(a, tf) == KeyOf(b, tf) || Before(KeyOf(a, tf), KeyOf(b, tf))
  {
    hide YearOf, MonthOf, MondayOf, Early;
    if tf.Weekly? {
      MondayIsMonotone(a, b);
      MonthsAreMonotone(MondayOf(a), MondayOf(b));
    } else {
      MonthsAreMonotone(a, b);
    }
  }

  lemma MonthsAreMonotone(a: int, b: int)
    requires a <= b
    ensures YearOf(a) <= YearOf(b) && (YearOf(a) == YearOf(b) ==> MonthOf(a) <= MonthOf(b))
  {
    hide YearOf, MonthOf;
    YearIsMonotone(a, b);
    if YearOf(a) == YearOf(b) {
      MonthIsMonotone(a, b);
    }
  }

  lemma MondayIsMonotone(a: int, b: int)
    requires a <= b && !Early(a) && !Early(b)
    ensures MondayOf(a) <= MondayOf(b)
  {
    hide *;
    OwnMonday(a);
    OwnMonday(b);
    MondayIs(a);
    MondayIs(b);
  }

  /** Day 4 was the first Monday. */
  lemma MondayIs(day: int)
    ensures day - IsoDay(day) == 7 * ((day + 3) / 7) - 3
  {
    IsoDayIsPlain(day);
  }

  lemma IsoDayIsPlain(day: int)
    ensures IsoDay(day) == (day + 3) % 7
  {
  }

  /** Within one year a later day lies in the same or a later month. */
  lemma MonthIsMonotone(a: int, b: int)
    requires a <= b && YearOf(a) == YearOf(b)
    ensures MonthOf(a) <= MonthOf(b)
  {
    hide YearOf, DayFromYear, MonthInYear, Leap;
    var y := YearOf(a);
    MonthInYearIsMonotone(a - DayFromYear(y), b - DayFromYear(y), if Leap(y) then 1 else 0);
  }

  lemma MonthInYearIsMonotone(x: int, y: int, leap: int)
    requires x <= y && 0 <= leap <= 1
    ensures MonthInYear(x, leap) <= MonthInYear(y, leap)
  {
  }

  lemma BeforeIsStrictOrder(a: Key, b: Key, c: Key)
    ensures !Before(a, a)
    ensures Before(a, b) && Before(b, c) ==> Before(a, c)
  {
  }
}
