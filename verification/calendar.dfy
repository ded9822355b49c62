/** The proleptic Gregorian calendar of Python's `datetime.date`: years 1 through 9999,
    day numbers ("ordinals") counted from 0001-01-01, and the step to the next day. */
module Calendar {

  /** A date as its three fields; `Valid` says which triples are real dates. */
  datatype Date = Date(year: int, month: int, day: int)

  const MinYear: int := 1
  const MaxYear: int := 9999

  /** The last representable date; adding one day to it overflows. */
  const LastDate: Date := Date(MaxYear, 12, 31)

  /** Ordinal of `LastDate`, Python's `_MAXORDINAL`. */
  const MaxOrdinal: int := 3652059

  predicate IsLeapYear(y: int) {
    y % 4 == 0 && (y % 100 != 0 || y % 400 == 0)
  }

  function DaysInMonth(y: int, m: int): (n: int)
    requires 1 <= m <= 12
    ensures 28 <= n <= 31
    ensures n == 29 <==> m == 2 && IsLeapYear(y)
  {
    if m == 2 then (if IsLeapYear(y) then 29 else 28)
    else if m == 4 || m == 6 || m == 9 || m == 11 then 30
    else 31
  }

  /** A real calendar date within Python's date range. */
  predicate Valid(d: Date) {
    && MinYear <= d.year <= MaxYear
    && 1 <= d.month <= 12
    && 1 <= d.day <= DaysInMonth(d.year, d.month)
  }

  function DaysInYear(y: int): int {
    if IsLeapYear(y) then 366 else 365
  }

  /** Days in the years before year `y`, by the closed form of Python's `_days_before_year`. */
  function DaysBeforeYear(y: int): int
    requires y >= 1
  {
    var p := y - 1;
    p * 365 + p / 4 - p / 100 + p / 400
  }

  /** Days in year `y` before the first of month `m`, as Python's `_days_before_month`. */
  function DaysBeforeMonth(y: int, m: int): int
    requires 1 <= m <= 12
  {
    [0, 31, 59, 90, 120, 151, 181, 212, 243, 273, 304, 334][m - 1]
      + (if m > 2 && IsLeapYear(y) then 1 else 0)
  }

  /** The day number of `d`, Python's `date.toordinal`; 0001-01-01 is day 1. */
  function Ordinal(d: Date): int
    requires Valid(d)
  {
    DaysBeforeYear(d.year) + DaysBeforeMonth(d.year, d.month) + d.day
  }

  /** Strict lexicographic order on (year, month, day). */
  predicate Before(a: Date, b: Date) {
    || a.year < b.year
    || (a.year == b.year && a.month < b.month)
    || (a.year == b.year && a.month == b.month && a.day < b.day)
  }

  /** Each quotient in the closed form grows by one exactly at multiples of its divisor. */
  lemma QuotientSteps(y: int)
    requires y >= 1
    ensures y / 4 - (y - 1) / 4 == (if y % 4 == 0 then 1 else 0)
    ensures y / 100 - (y - 1) / 100 == (if y % 100 == 0 then 1 else 0)
    ensures y / 400 - (y - 1) / 400 == (if y % 400 == 0 then 1 else 0)
  {
  }

  /** Multiples of 400 are multiples of 100, which are multiples of 4. */
  lemma DivisorChain(y: int)
    ensures y % 400 == 0 ==> y % 100 == 0
    ensures y % 100 == 0 ==> y % 4 == 0
  {
  }

  /** The closed form counts exactly the days of year `y` between two year starts. */
  lemma YearStep(y: int)
    requires y >= 1
    ensures DaysBeforeYear(y + 1) == DaysBeforeYear(y) + DaysInYear(y)
  {
    QuotientSteps(y);
    DivisorChain(y);
  }

  /** Month starts are consecutive: month `m` ends where month `m + 1` starts,
      and December ends where the year does. */
  lemma MonthStep(y: int, m: int)
    requires 1 <= m <= 12
    ensures m < 12 ==> DaysBeforeMonth(y, m + 1) == DaysBeforeMonth(y, m) + DaysInMonth(y, m)
    ensures m == 12 ==> DaysBeforeMonth(y, m) + DaysInMonth(y, m) == DaysInYear(y)
  {
  }

  /** Every day of year `a` precedes the start of any later year `b`. */
  lemma {:induction false} YearsIncrease(a: int, b: int)
    requires 1 <= a < b
    ensures DaysBeforeYear(a) + DaysInYear(a) <= DaysBeforeYear(b)
    decreases b - a
  {
    YearStep(a);
    if a + 1 < b {
      YearsIncrease(a + 1, b);
    }
  }

  /** Every day of month `a` precedes the start of any later month `b` of the same year. */
  lemma MonthsIncrease(y: int, a: int, b: int)
    requires 1 <= a < b <= 12
    ensures DaysBeforeMonth(y, a) + DaysInMonth(y, a) <= DaysBeforeMonth(y, b)
  {
  }

  /** A month ends no later than its year. */
  lemma MonthWithinYear(y: int, m: int)
    requires 1 <= m <= 12
    ensures DaysBeforeMonth(y, m) + DaysInMonth(y, m) <= DaysInYear(y)
  {
  }

  /** Ordinals of valid dates lie in the range 1 .. MaxOrdinal, and only the last date takes the top value. */
  lemma OrdinalRange(d: Date)
    requires Valid(d)
    ensures 1 <= Ordinal(d) <= MaxOrdinal
    ensures Ordinal(d) == MaxOrdinal <==> d == LastDate
  {
  }

  /** The ordinal is strictly increasing in calendar order. */
  lemma OrdinalIncreases(a: Date, b: Date)
    requires Valid(a) && Valid(b)
    requires Before(a, b)
    ensures Ordinal(a) < Ordinal(b)
  {
    MonthWithinYear(a.year, a.month);
    if a.year < b.year {
      YearsIncrease(a.year, b.year);
    } else if a.month < b.month {
      MonthsIncrease(a.year, a.month, b.month);
    }
  }

  /** Comparing ordinals is comparing dates: the ordinal is an order isomorphism,
      so two valid dates with the same ordinal are the same date. */
  lemma OrdinalOrder(a: Date, b: Date)
    requires Valid(a) && Valid(b)
    ensures Before(a, b) <==> Ordinal(a) < Ordinal(b)
    ensures a == b <==> Ordinal(a) == Ordinal(b)
  {
    if Before(a, b) {
      OrdinalIncreases(a, b);
    } else if Before(b, a) {
      OrdinalIncreases(b, a);
    } else {
      assert a == b;
    }
  }

  /** The day after `d`, rolling over month and year ends. */
  function NextDay(d: Date): (r: Date)
    requires Valid(d) && d != LastDate
    ensures Valid(r)
    ensures Ordinal(r) == Ordinal(d) + 1
  {
    if d.day < DaysInMonth(d.year, d.month) then
      Date(d.year, d.month, d.day + 1)
    else if d.month < 12 then
      MonthStep(d.year, d.month);
      Date(d.year, d.month + 1, 1)
    else
      MonthStep(d.year, 12);
      YearStep(d.year);
      Date(d.year + 1, 1, 1)
  }

  /** `NextDay(d)` is the earliest date after `d`: nothing lies strictly between them. */
  lemma NextDayIsSuccessor(d: Date, e: Date)
    requires Valid(d) && d != LastDate && Valid(e)
    ensures Before(d, e) <==> (e == NextDay(d) || Before(NextDay(d), e))
  {
  }

  /** Stepping a day reaches February 29 only in leap years, and from February 28
      it reaches February 29 exactly in leap years, March 1 otherwise. */
  lemma LeapDayRollover(d: Date)
    requires Valid(d) && d != LastDate
    ensures NextDay(d).month == 2 && NextDay(d).day == 29 ==> IsLeapYear(NextDay(d).year)
    ensures d.month == 2 && d.day == 28 ==>
      NextDay(d) == (if IsLeapYear(d.year) then Date(d.year, 2, 29) else Date(d.year, 3, 1))
  {
  }

  /** Month and year ends roll over to the first day of the next month or year. */
  lemma EndRollover(d: Date)
    requires Valid(d) && d != LastDate
    ensures NextDay(d).day == 1 <==> d.day == DaysInMonth(d.year, d.month)
    ensures NextDay(d).year == d.year + 1 <==> (d.month == 12 && d.day == 31)
    ensures NextDay(d).year != d.year ==> NextDay(d).month == 1 && NextDay(d).day == 1
  {
  }
}
