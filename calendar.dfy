/**
 * The proleptic Gregorian calendar: which (year, month, day) triples are real
 * dates. This is the rule `Date.valid_date?` applies to positive months and days
 * and that `Date.new` enforces when it builds a date.
 */
module Calendar {

  /** A (year, month, day) triple, whether or not it names a real date. */
  datatype CivilDate = CivilDate(year: int, month: int, day: int)

  /** Gregorian leap years: divisible by 4 and not by 100, or divisible by 400. */
  predicate IsLeapYear(y: int) {
    (y % 4 == 0 && y % 100 != 0) || y % 400 == 0
  }

  function DaysInMonth(y: int, m: int): (n: int)
    requires 1 <= m <= 12
    ensures 28 <= n <= 31
    ensures n < 30 <==> m == 2
  {
    if m == 2 then (if IsLeapYear(y) then 29 else 28)
    else if m == 4 || m == 6 || m == 9 || m == 11 then 30
    else 31
  }

  /** True exactly for real calendar dates; the year is unrestricted in range and sign. */
  predicate IsValidDate(y: int, m: int, d: int)
    ensures IsValidDate(y, m, d) ==> 1 <= m <= 12 && 1 <= d <= 31
    ensures 1 <= m <= 12 && 1 <= d <= 28 ==> IsValidDate(y, m, d)
    ensures d == 31 && (m == 2 || m == 4 || m == 6 || m == 9 || m == 11) ==> !IsValidDate(y, m, d)
  {
    1 <= m <= 12 && 1 <= d <= DaysInMonth(y, m)
  }

  /** A real calendar date: what `Date.new` returns. */
  type Date = d: CivilDate | IsValidDate(d.year, d.month, d.day) witness CivilDate(2000, 1, 1)

  lemma LeapDayRule(y: int)
    ensures IsValidDate(y, 2, 29) <==> IsLeapYear(y)
  {
  }

  lemma ThirtyFirstRule(y: int, m: int)
    ensures IsValidDate(y, m, 31) <==> m in {1, 3, 5, 7, 8, 10, 12}
  {
  }

  /** Zero is never a month or a day, so a part that coerced to 0 makes the date invalid. */
  lemma ZeroIsNeitherMonthNorDay(y: int, m: int, d: int)
    ensures !IsValidDate(y, 0, d) && !IsValidDate(y, m, 0)
  {
  }

  /** Number of days in the months of year `y` before month `m` (`m == 13`: the whole year). */
  function DaysBeforeMonth(y: int, m: int): nat
    requires 1 <= m <= 13
  {
    if m == 1 then 0 else DaysBeforeMonth(y, m - 1) + DaysInMonth(y, m - 1)
  }

  function YearLength(y: int): nat {
    DaysBeforeMonth(y, 13)
  }

  lemma YearLengthByLeap(y: int)
    ensures YearLength(y) == if IsLeapYear(y) then 366 else 365
  {
    var feb := DaysInMonth(y, 2);
    assert DaysBeforeMonth(y, 2) == 31;
    assert DaysBeforeMonth(y, 3) == 31 + feb;
    assert DaysBeforeMonth(y, 4) == 62 + feb;
    assert DaysBeforeMonth(y, 5) == 92 + feb;
    assert DaysBeforeMonth(y, 6) == 123 + feb;
    assert DaysBeforeMonth(y, 7) == 153 + feb;
    assert DaysBeforeMonth(y, 8) == 184 + feb;
    assert DaysBeforeMonth(y, 9) == 215 + feb;
    assert DaysBeforeMonth(y, 10) == 245 + feb;
    assert DaysBeforeMonth(y, 11) == 276 + feb;
    assert DaysBeforeMonth(y, 12) == 306 + feb;
  }

  /** A whole month `m` fits before any later month boundary `k`. */
  lemma {:induction false} DaysBeforeGrows(y: int, m: int, k: int)
    requires 1 <= m < k <= 13
    ensures DaysBeforeMonth(y, m) + DaysInMonth(y, m) <= DaysBeforeMonth(y, k)
    decreases k
  {
    if m + 1 < k {
      DaysBeforeGrows(y, m, k - 1);
    }
  }

  /** The position of a date within its year, counting January 1st as day 1. */
  function OrdinalDay(d: Date): (n: int)
    ensures 1 <= n <= YearLength(d.year)
  {
    DaysBeforeGrows(d.year, d.month, 13);
    DaysBeforeMonth(d.year, d.month) + d.day
  }

  /** The `n`-th day of year `y` counted from the first day of month `m`. */
  function DateFrom(y: int, n: int, m: int): (d: Date)
    requires 1 <= m <= 12
    requires 1 <= n <= YearLength(y) - DaysBeforeMonth(y, m)
    ensures d.year == y && m <= d.month
    ensures DaysBeforeMonth(y, d.month) + d.day == DaysBeforeMonth(y, m) + n
    decreases 12 - m
  {
    if n <= DaysInMonth(y, m) then CivilDate(y, m, n)
    else DateFrom(y, n - DaysInMonth(y, m), m + 1)
  }

  /** The `n`-th day of year `y`. */
  function DateOfOrdinal(y: int, n: int): (d: Date)
    requires 1 <= n <= YearLength(y)
    ensures d.year == y && OrdinalDay(d) == n
  {
    DateFrom(y, n, 1)
  }

  /** Two dates of one year at the same position are the same date. */
  lemma OrdinalDayInjective(a: Date, b: Date)
    requires a.year == b.year && OrdinalDay(a) == OrdinalDay(b)
    ensures a == b
  {
    if a.month < b.month {
      DaysBeforeGrows(a.year, a.month, b.month);
    } else if b.month < a.month {
      DaysBeforeGrows(b.year, b.month, a.month);
    }
  }

  /**
   * Every valid date is the `n`-th day of its year for the `n` that OrdinalDay
   * gives; with DateOfOrdinal's contract this makes the valid dates of a year
   * exactly one per day from 1 to YearLength.
   */
  lemma OrdinalRoundTrip(d: Date)
    ensures DateOfOrdinal(d.year, OrdinalDay(d)) == d
  {
    OrdinalDayInjective(DateOfOrdinal(d.year, OrdinalDay(d)), d);
  }
}
