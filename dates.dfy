/** Calendar dates as the tracker stores them (a `date` column, no time part),
    their order, their proleptic Gregorian day number and their month. */
module Dates {

  datatype Date = Date(year: int, month: int, day: int)

  /** The (year, month) pair that SQLite's strftime('%Y-%m', date) labels. */
  datatype Month = Month(year: int, month: int)

  predicate IsLeap(y: int) {
    y % 4 == 0 && (y % 100 != 0 || y % 400 == 0)
  }

  function DaysInYear(y: int): int {
    if IsLeap(y) then 366 else 365
  }

  function DaysInMonth(y: int, m: int): (n: int)
    ensures 28 <= n <= 31
  {
    if m == 2 then (if IsLeap(y) then 29 else 28)
    else if m == 4 || m == 6 || m == 9 || m == 11 then 30
    else 31
  }

  /** The dates a parsed 'YYYY-MM-DD' can denote: years 1 to 9999, real days of the month. */
  predicate Valid(d: Date) {
    1 <= d.year <= 9999 && 1 <= d.month <= 12 && 1 <= d.day <= DaysInMonth(d.year, d.month)
  }

  /** Days in the years 1 .. y-1 of the proleptic Gregorian calendar. */
  function DaysBeforeYear(y: int): int {
    var p := y - 1;
    p * 365 + p / 4 - p / 100 + p / 400
  }

  /** Days in the months 1 .. m-1 of year y (0 for a month outside 1 .. 12). */
  function DaysBeforeMonth(y: int, m: int): int {
    if 1 <= m <= 12 then
      [0, 31, 59, 90, 120, 151, 181, 212, 243, 273, 304, 334][m - 1]
      + (if m > 2 && IsLeap(y) then 1 else 0)
    else 0
  }

  /** The day number of a date, 1 for 0001-01-01 (what `date.toordinal()` computes);
      date subtraction is the difference of day numbers. */
  function Ordinal(d: Date): int {
    DaysBeforeYear(d.year) + DaysBeforeMonth(d.year, d.month) + d.day
  }

  /** Strict chronological order: lexicographic on (year, month, day), which is also
      the order of the zero-padded 'YYYY-MM-DD' text SQLite compares. */
  predicate Before(a: Date, b: Date) {
    a.year < b.year || (a.year == b.year && (a.month < b.month || (a.month == b.month && a.day < b.day)))
  }

  predicate AtOrBefore(a: Date, b: Date) {
    !Before(b, a)
  }

  function MonthOf(d: Date): Month {
    Month(d.year, d.month)
  }

  /** A number that orders months chronologically. */
  function MonthRank(m: Month): int {
    m.year * 12 + m.month
  }

  /** Months with a month number in 1 .. 12 and the same rank are the same month. */
  lemma MonthRankInjective(a: Month, b: Month)
    requires 1 <= a.month <= 12 && 1 <= b.month <= 12
    requires MonthRank(a) == MonthRank(b)
    ensures a == b
  {
  }

  lemma YearStep(y: int)
    requires y >= 1
    ensures DaysBeforeYear(y + 1) == DaysBeforeYear(y) + DaysInYear(y)
  {
    var p := y - 1;
    StepPast4(p);
    StepPast100(p);
    StepPast400(p);
    Multiples(y);
    var steps := (if y % 4 == 0 then 1 else 0) - (if y % 100 == 0 then 1 else 0) + (if y % 400 == 0 then 1 else 0);
    assert DaysBeforeYear(y + 1) == DaysBeforeYear(y) + 365 + steps;
  }

  /** A multiple of 400 is a multiple of 100, and a multiple of 100 a multiple of 4. */
  lemma Multiples(y: int)
    ensures y % 400 == 0 ==> y % 100 == 0
    ensures y % 100 == 0 ==> y % 4 == 0
  {
    if y % 400 == 0 {
      Multiple400(y);
    }
    if y % 100 == 0 {
      Multiple100(y);
    }
  }

  lemma Multiple400(y: int)
    requires y % 400 == 0
    ensures y % 100 == 0
  {
    var q := y / 400;
    assert y == 400 * q;
    assert y / 100 == 4 * q;
  }

  lemma Multiple100(y: int)
    requires y % 100 == 0
    ensures y % 4 == 0
  {
    var q := y / 100;
    assert y == 100 * q;
    assert y / 4 == 25 * q;
  }

  /** Counting one number further passes a new multiple of 4, 100 or 400 exactly when it
      lands on one. */
  lemma StepPast4(p: int)
    ensures (p + 1) / 4 == p / 4 + (if (p + 1) % 4 == 0 then 1 else 0)
  {
  }

  lemma StepPast100(p: int)
    ensures (p + 1) / 100 == p / 100 + (if (p + 1) % 100 == 0 then 1 else 0)
  {
  }

  lemma StepPast400(p: int)
    ensures (p + 1) / 400 == p / 400 + (if (p + 1) % 400 == 0 then 1 else 0)
  {
  }

  lemma {:induction false} YearsAfter(y: int, z: int)
    requires 1 <= y < z
    ensures DaysBeforeYear(y) + DaysInYear(y) <= DaysBeforeYear(z)
    decreases z - y
  {
    YearStep(y);
    if y + 1 < z {
      YearsAfter(y + 1, z);
    }
  }

  lemma MonthsAfter(y: int, m: int, n: int)
    requires 1 <= m <= 12 && m < n
    ensures DaysBeforeMonth(y, m) + DaysInMonth(y, m) <= (if n <= 12 then DaysBeforeMonth(y, n) else DaysInYear(y))
  {
  }

  /** On valid dates, the chronological order is the order of day numbers. */
  lemma OrdinalOrder(a: Date, b: Date)
    requires Valid(a) && Valid(b)
    ensures Before(a, b) <==> Ordinal(a) < Ordinal(b)
  {
    if a.year < b.year {
      MonthsAfter(a.year, a.month, 13);
      YearsAfter(a.year, b.year);
    } else if b.year < a.year {
      MonthsAfter(b.year, b.month, 13);
      YearsAfter(b.year, a.year);
    } else if a.month < b.month {
      MonthsAfter(a.year, a.month, b.month);
    } else if b.month < a.month {
      MonthsAfter(b.year, b.month, a.month);
    }
  }

  /** Two valid dates with the same day number are the same date. */
  lemma OrdinalInjective(a: Date, b: Date)
    requires Valid(a) && Valid(b) && Ordinal(a) == Ordinal(b)
    ensures a == b
  {
    OrdinalOrder(a, b);
    OrdinalOrder(b, a);
  }
}
