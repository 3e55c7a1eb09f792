/**
 * The proleptic Gregorian calendar as JavaScript's `Date` computes it
 * (ECMAScript DayFromYear / MakeDay / MakeDate), without time zones.
 *
 * A `Date` is kept as its civil decomposition: year, 0-based month, day of
 * month and milliseconds into the day. `TimeOf` gives its epoch milliseconds,
 * and `TimeOfInjective` shows the decomposition is unique, so the two views
 * are interchangeable.
 */
module Calendar {

  const MsPerDay: int := 86_400_000

  predicate IsLeapYear(y: int) { y % 4 == 0 && (y % 100 != 0 || y % 400 == 0) }

  function DaysInYear(y: int): int { if IsLeapYear(y) then 366 else 365 }

  function DaysInMonth(y: int, m: int): (n: int)
    requires 0 <= m < 12
    ensures 28 <= n <= 31
  {
    if m == 1 then (if IsLeapYear(y) then 29 else 28)
    else if m == 3 || m == 5 || m == 8 || m == 10 then 30
    else 31
  }

  /** Days from 1 January of year y to the first day of month m (0-based). */
  function DaysBeforeMonth(y: int, m: int): int
    requires 0 <= m < 12
  {
    [0, 31, 59, 90, 120, 151, 181, 212, 243, 273, 304, 334][m]
      + (if m >= 2 && IsLeapYear(y) then 1 else 0)
  }

  lemma DaysBeforeNextMonth(y: int, m: int)
    requires 0 <= m < 12
    ensures m < 11 ==> DaysBeforeMonth(y, m + 1) == DaysBeforeMonth(y, m) + DaysInMonth(y, m)
    ensures m == 11 ==> DaysBeforeMonth(y, m) + DaysInMonth(y, m) == DaysInYear(y)
  {
  }

  /** ECMAScript DayFromYear: the day number of 1 January of year y, 1970-01-01 being day 0. */
  function DayFromYear(y: int): int
  {
    365 * (y - 1970) + (y - 1969) / 4 - (y - 1901) / 100 + (y - 1601) / 400
  }

  /** Each year holds exactly DaysInYear(y) days: the closed form agrees with the leap-year rule. */
  lemma DayFromNextYear(y: int)
    ensures DayFromYear(y + 1) == DayFromYear(y) + DaysInYear(y)
  {
    FourYearStep(y);
    CenturyStep(y);
    FourCenturyStep(y);
    DivisorChain(y);
  }

  /** A multiple of 400 is a multiple of 100, which is a multiple of 4. */
  lemma DivisorChain(y: int)
    ensures y % 400 == 0 ==> y % 100 == 0
    ensures y % 100 == 0 ==> y % 4 == 0
  {
  }

  /** From year y to y + 1 the count of multiples of 4 passed grows exactly when y is one. */
  lemma FourYearStep(y: int)
    ensures ((y + 1) - 1969) / 4 - (y - 1969) / 4 == if y % 4 == 0 then 1 else 0
  {
  }

  /** The same for multiples of 100. */
  lemma CenturyStep(y: int)
    ensures ((y + 1) - 1901) / 100 - (y - 1901) / 100 == if y % 100 == 0 then 1 else 0
  {
  }

  /** The same for multiples of 400. */
  lemma FourCenturyStep(y: int)
    ensures ((y + 1) - 1601) / 400 - (y - 1601) / 400 == if y % 400 == 0 then 1 else 0
  {
  }

  /** Later years start at least a whole year later. */
  lemma {:induction false} DayFromYearIncreasing(a: int, b: int)
    requires a < b
    ensures DayFromYear(a) + DaysInYear(a) <= DayFromYear(b)
    decreases b - a
  {
    DayFromNextYear(a);
    if a + 1 < b {
      DayFromYearIncreasing(a + 1, b);
    }
  }

  datatype DateTime = DateTime(year: int, month: int, day: int, msOfDay: int)
  {
    predicate Valid()
    {
      0 <= month < 12 && 1 <= day <= DaysInMonth(year, month) && 0 <= msOfDay < MsPerDay
    }
  }

  /** A JavaScript Date, by its civil fields. */
  type Date = d: DateTime | d.Valid() witness DateTime(1970, 0, 1, 0)

  /** The day number of a civil date whose month is in range. */
  function DayNumber(y: int, m: int, d: int): int
    requires 0 <= m < 12
  {
    DayFromYear(y) + DaysBeforeMonth(y, m) + d - 1
  }

  /**
   * ECMAScript MakeDay(year, month, date): the month may be any integer and
   * is carried into the year; the date is counted on from the 1st, so a day
   * past the end of the month rolls into the following month.
   */
  function MakeDay(y: int, m: int, d: int): int
  {
    DayNumber(y + m / 12, m % 12, 1) + d - 1
  }

  /** Epoch milliseconds of a date. */
  function TimeOf(t: Date): int
  {
    DayNumber(t.year, t.month, t.day) * MsPerDay + t.msOfDay
  }

  /** A valid date's day number lies within its year. */
  lemma DayNumberInYear(t: Date)
    ensures DayFromYear(t.year) <= DayNumber(t.year, t.month, t.day) < DayFromYear(t.year) + DaysInYear(t.year)
  {
    DaysBeforeNextMonth(t.year, 11);
  }

  /** Distinct valid dates have distinct day numbers. */
  lemma DayNumberInjective(a: Date, b: Date)
    requires DayNumber(a.year, a.month, a.day) == DayNumber(b.year, b.month, b.day)
    ensures a.year == b.year && a.month == b.month && a.day == b.day
  {
    DayNumberInYear(a);
    DayNumberInYear(b);
    if a.year < b.year {
      DayFromYearIncreasing(a.year, b.year);
    } else if b.year < a.year {
      DayFromYearIncreasing(b.year, a.year);
    }
    assert a.year == b.year;
  }

  /** The civil decomposition of a timestamp is unique. */
  lemma TimeOfInjective(a: Date, b: Date)
    requires TimeOf(a) == TimeOf(b)
    ensures a == b
  {
    DayNumberInjective(a, b);
  }

  /** `d.setMonth(d.getMonth() + n)`: the epoch milliseconds of the result. */
  function AddMonthsTime(t: Date, n: int): int
  {
    MakeDay(t.year, t.month + n, t.day) * MsPerDay + t.msOfDay
  }

  /**
   * The same result as a civil date: the month advances by n with the year
   * carried; a day that the target month lacks rolls over into the next month.
   * With `TimeOfInjective`, this is the one civil date of `AddMonthsTime(t, n)`.
   */
  function AddMonths(t: Date, n: int): (r: Date)
    ensures TimeOf(r) == AddMonthsTime(t, n)
    ensures r.msOfDay == t.msOfDay
  {
    var y := t.year + (t.month + n) / 12;
    var m := (t.month + n) % 12;
    var dim := DaysInMonth(y, m);
    DaysBeforeNextMonth(y, m);
    // December has 31 days, so a rollover never leaves the year.
    if t.day <= dim then DateTime(y, m, t.day, t.msOfDay)
    else DateTime(y, m + 1, t.day - dim, t.msOfDay)
  }

  /** When the day exists in the target month it is kept; month is (month + n) mod 12, the year carried. */
  lemma AddMonthsKeepsDay(t: Date, n: int)
    requires t.day <= DaysInMonth(t.year + (t.month + n) / 12, (t.month + n) % 12)
    ensures AddMonths(t, n) == DateTime(t.year + (t.month + n) / 12, (t.month + n) % 12, t.day, t.msOfDay)
  {
  }

  /** When the target month is too short, the surplus days spill into the following month. */
  lemma AddMonthsRollsOver(t: Date, n: int)
    requires t.day > DaysInMonth(t.year + (t.month + n) / 12, (t.month + n) % 12)
    ensures var r := AddMonths(t, n);
            r.day == t.day - DaysInMonth(t.year + (t.month + n) / 12, (t.month + n) % 12)
            && r.month == (t.month + n + 1) % 12
            && r.year == t.year + (t.month + n + 1) / 12
  {
    var k := t.month + n;
    var y, m := t.year + k / 12, k % 12;
    // December has 31 days, so the target month is not December.
    assert m != 11;
    NextMonthIndex(k);
  }

  /** Stepping a month index that is not December: the month advances and the year stays. */
  lemma NextMonthIndex(k: int)
    requires k % 12 != 11
    ensures (k + 1) % 12 == k % 12 + 1 && (k + 1) / 12 == k / 12
  {
  }

  /** Adding no months gives back the date itself. */
  lemma AddMonthsZero(t: Date)
    ensures AddMonths(t, 0) == t
  {
  }

  /** 31 January 2023 plus one month is 3 March 2023. */
  lemma AddMonthsJanuary31()
    ensures AddMonths(DateTime(2023, 0, 31, 0), 1) == DateTime(2023, 2, 3, 0)
  {
  }

  /** `d.setDate(d.getDate() - k)`: the epoch milliseconds of the result. */
  function SubtractDaysTime(t: Date, k: int): (ms: int)
    ensures ms == TimeOf(t) - k * MsPerDay
  {
    MakeDay(t.year, t.month, t.day - k) * MsPerDay + t.msOfDay
  }
}
