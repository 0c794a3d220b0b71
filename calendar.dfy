/** The proleptic Gregorian calendar that `Date.prototype.toISOString`
    prints, with days numbered from 1970-01-01 (day 0). Two conversions are
    given independently: a closed form from a date to its day number, and a
    walk over years and months from a day number to its date; each is proved
    the inverse of the other. */
module Calendar {

  /** A calendar date: year, month 1 to 12, day of the month from 1. */
  datatype CivilDate = CivilDate(year: int, month: int, day: int)

  /** Every fourth year is a leap year, except centuries not divisible by 400. */
  predicate IsLeap(y: int) {
    (y % 4 == 0 && y % 100 != 0) || y % 400 == 0
  }

  function DaysInYear(y: int): (n: nat)
    ensures n == 365 || n == 366
    ensures n == 366 <==> IsLeap(y)
  {
    if IsLeap(y) then 366 else 365
  }

  /** The length of month `m` of year `y`; February has 29 days in leap years. */
  function DaysInMonth(y: int, m: int): (n: nat)
    requires 1 <= m <= 12
    ensures 28 <= n <= 31
    ensures m == 2 ==> (n == 29 <==> IsLeap(y))
  {
    if m == 2 then (if IsLeap(y) then 29 else 28)
    else if m == 4 || m == 6 || m == 9 || m == 11 then 30
    else 31
  }

  /** A date that exists: its month is 1 to 12 and its day lies in that month. */
  predicate Valid(d: CivilDate) {
    1 <= d.month <= 12 && 1 <= d.day <= DaysInMonth(d.year, d.month)
  }

  /** The days of year `y` before the first of month `m` (13 stands for the
      end of the year), from the table of cumulative month lengths. */
  function DaysBeforeMonth(y: int, m: int): (n: nat)
    requires 1 <= m <= 13
  {
    [0, 31, 59, 90, 120, 151, 181, 212, 243, 273, 304, 334, 365][m - 1]
      + (if m > 2 && IsLeap(y) then 1 else 0)
  }

  /** The table agrees with the month lengths, and the twelve months fill the year. */
  lemma MonthStep(y: int, m: int)
    requires 1 <= m <= 12
    ensures DaysBeforeMonth(y, m + 1) == DaysBeforeMonth(y, m) + DaysInMonth(y, m)
    ensures DaysBeforeMonth(y, 13) == DaysInYear(y)
  {
  }

  /** Later months start later in the year. */
  lemma MonthsIncrease(y: int, a: int, b: int)
    requires 1 <= a < b <= 13
    ensures DaysBeforeMonth(y, a + 1) <= DaysBeforeMonth(y, b)
  {
  }

  /** The leap years among the years 1 to `y - 1` (counted negatively below year 1). */
  function LeapsBefore(y: int): int {
    (y - 1) / 4 - (y - 1) / 100 + (y - 1) / 400
  }

  /** The day number of January 1st of year `y`. */
  function DaysBeforeYear(y: int): int {
    365 * (y - 1970) + LeapsBefore(y) - LeapsBefore(1970)
  }

  /** Consecutive years start `DaysInYear` days apart. */
  lemma YearStep(y: int)
    ensures DaysBeforeYear(y + 1) == DaysBeforeYear(y) + DaysInYear(y)
  {
    FloorStep(y, 4);
    FloorStep(y, 100);
    FloorStep(y, 400);
  }

  /** Moving from `y - 1` to `y` raises the quotient by `k` exactly when `k` divides `y`. */
  lemma FloorStep(y: int, k: int)
    requires k > 0
    ensures y / k - (y - 1) / k == if y % k == 0 then 1 else 0
  {
    var q, r := (y - 1) / k, (y - 1) % k;
    if r == k - 1 {
      assert y == k * (q + 1);
      DivUnique(y, k, q + 1, 0);
    } else {
      DivUnique(y, k, q, r + 1);
    }
  }

  /** Quotient and remainder are the only ones with the remainder in `0..k-1`. */
  lemma DivUnique(x: int, k: int, q: int, r: int)
    requires k > 0 && 0 <= r < k && x == k * q + r
    ensures x / k == q && x % k == r
  {
    var q', r' := x / k, x % k;
    if q' > q {
      assert k * q' >= k * (q + 1) by { MulLeft(k, q + 1, q'); }
    } else if q' < q {
      assert k * q >= k * (q' + 1) by { MulLeft(k, q' + 1, q); }
    }
  }

  lemma MulLeft(k: int, a: int, b: int)
    requires k > 0 && a <= b
    ensures k * a <= k * b
  {
    assert k * b - k * a == k * (b - a);
  }

  /** Later years start later. */
  lemma {:induction false} YearsIncrease(a: int, b: int)
    requires a < b
    ensures DaysBeforeYear(a + 1) <= DaysBeforeYear(b)
    decreases b - a
  {
    if a + 1 < b {
      YearsIncrease(a + 1, b);
      YearStep(a + 1);
    }
  }

  /** The day number of a date: the reference numbering, day 0 being 1970-01-01. */
  function DaysFromCivil(d: CivilDate): int
    requires 1 <= d.month <= 12
  {
    DaysBeforeYear(d.year) + DaysBeforeMonth(d.year, d.month) + d.day - 1
  }

  /** The year holding day `n`, searched upwards from year `y`, with the
      position of `n` in that year. */
  function YearUp(n: int, y: int): (r: (int, int))
    requires DaysBeforeYear(y) <= n
    ensures 0 <= r.1 < DaysInYear(r.0) && DaysBeforeYear(r.0) + r.1 == n
    decreases n - DaysBeforeYear(y)
  {
    YearStep(y);
    if n < DaysBeforeYear(y + 1) then (y, n - DaysBeforeYear(y)) else YearUp(n, y + 1)
  }

  /** The same search downwards, for a day before the start of year `y + 1`. */
  function YearDown(n: int, y: int): (r: (int, int))
    requires n < DaysBeforeYear(y + 1)
    ensures 0 <= r.1 < DaysInYear(r.0) && DaysBeforeYear(r.0) + r.1 == n
    decreases DaysBeforeYear(y + 1) - n
  {
    YearStep(y);
    if DaysBeforeYear(y) <= n then (y, n - DaysBeforeYear(y)) else YearDown(n, y - 1)
  }

  /** The date of the day at position `doy` of year `y`, searched from month `m`. */
  function MonthOf(y: int, doy: int, m: int): (d: CivilDate)
    requires 1 <= m <= 12 && DaysBeforeMonth(y, m) <= doy < DaysInYear(y)
    ensures Valid(d) && d.year == y && DaysBeforeMonth(y, d.month) + d.day - 1 == doy
    decreases 12 - m
  {
    MonthStep(y, m);
    if m == 12 || doy < DaysBeforeMonth(y, m + 1) then CivilDate(y, m, doy - DaysBeforeMonth(y, m) + 1)
    else MonthOf(y, doy, m + 1)
  }

  /** The calendar date of day number `n`: a real date whose day number is `n`. */
  function CivilFromDays(n: int): (d: CivilDate)
    ensures Valid(d) && DaysFromCivil(d) == n
  {
    var r := if n >= 0 then YearUp(n, 1970) else YearDown(n, 1969);
    MonthOf(r.0, r.1, 1)
  }

  /** A date's day number lies within its year. */
  lemma DayInYear(d: CivilDate)
    requires Valid(d)
    ensures DaysBeforeYear(d.year) <= DaysFromCivil(d) < DaysBeforeYear(d.year + 1)
  {
    MonthStep(d.year, d.month);
    MonthsIncrease(d.year, d.month, 13);
    YearStep(d.year);
  }

  /** Different dates have different day numbers. */
  lemma DaysFromCivilInjective(a: CivilDate, b: CivilDate)
    requires Valid(a) && Valid(b) && DaysFromCivil(a) == DaysFromCivil(b)
    ensures a == b
  {
    DayInYear(a);
    DayInYear(b);
    if a.year < b.year {
      YearsIncrease(a.year, b.year);
    } else if b.year < a.year {
      YearsIncrease(b.year, a.year);
    }
    assert a.year == b.year;
    MonthStep(a.year, a.month);
    MonthStep(b.year, b.month);
    if a.month < b.month {
      MonthsIncrease(a.year, a.month, b.month);
    } else if b.month < a.month {
      MonthsIncrease(b.year, b.month, a.month);
    }
  }

  /** Every real date is the date of its own day number. */
  lemma CivilRoundTrip(d: CivilDate)
    requires Valid(d)
    ensures CivilFromDays(DaysFromCivil(d)) == d
  {
    DaysFromCivilInjective(CivilFromDays(DaysFromCivil(d)), d);
  }

  /** The date after `d`: the next day of the month, else the first of the
      next month, else New Year's Day. */
  function NextDay(d: CivilDate): (e: CivilDate)
    requires Valid(d)
    ensures Valid(e)
  {
    if d.day < DaysInMonth(d.year, d.month) then d.(day := d.day + 1)
    else if d.month < 12 then CivilDate(d.year, d.month + 1, 1)
    else CivilDate(d.year + 1, 1, 1)
  }

  /** Consecutive day numbers are consecutive dates. */
  lemma ConsecutiveDays(n: int)
    ensures CivilFromDays(n + 1) == NextDay(CivilFromDays(n))
  {
    var d := CivilFromDays(n);
    var e := NextDay(d);
    MonthStep(d.year, d.month);
    if d.day == DaysInMonth(d.year, d.month) && d.month == 12 {
      YearStep(d.year);
    }
    assert DaysFromCivil(e) == n + 1;
    DaysFromCivilInjective(CivilFromDays(n + 1), e);
  }

  /** Day 0 is January 1st, 1970. */
  lemma Epoch()
    ensures CivilFromDays(0) == CivilDate(1970, 1, 1)
  {
    var d := CivilDate(1970, 1, 1);
    assert DaysBeforeYear(1970) == 0 && DaysBeforeMonth(1970, 1) == 0;
    DaysFromCivilInjective(CivilFromDays(0), d);
  }
}
