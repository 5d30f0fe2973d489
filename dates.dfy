/**
 * System.DateTime, reduced to what the record manager uses: a calendar date, the
 * number of 100-nanosecond ticks since midnight, comparison, the date part
 * (`DateTime.Today`, `.Date`) and `AddYears`.
 */
module Dates {

  datatype DateTime = DateTime(year: int, month: int, day: int, tick: int)

  const TicksPerDay: int := 864_000_000_000

  /** `default(DateTime)`, i.e. `DateTime.MinValue`: midnight, 1 January of year 1. */
  const MinValue: DateTime := DateTime(1, 1, 1, 0)

  predicate IsLeapYear(year: int)
  {
    year % 4 == 0 && (year % 100 != 0 || year % 400 == 0)
  }

  function DaysInMonth(year: int, month: int): (n: int)
    ensures 28 <= n <= 31
  {
    if month == 2 then (if IsLeapYear(year) then 29 else 28)
    else if month == 4 || month == 6 || month == 9 || month == 11 then 30
    else 31
  }

  /** The values System.DateTime can represent. */
  predicate Valid(d: DateTime)
  {
    && 1 <= d.year <= 9999
    && 1 <= d.month <= 12
    && 1 <= d.day <= DaysInMonth(d.year, d.month)
    && 0 <= d.tick < TicksPerDay
  }

  /** `a < b`: DateTime compares by its tick count, which orders dates lexicographically. */
  predicate Before(a: DateTime, b: DateTime)
  {
    || a.year < b.year
    || (a.year == b.year && a.month < b.month)
    || (a.year == b.year && a.month == b.month && a.day < b.day)
    || (a.year == b.year && a.month == b.month && a.day == b.day && a.tick < b.tick)
  }

  /** `Before` is a strict total order. */
  lemma BeforeIsStrictTotalOrder(a: DateTime, b: DateTime, c: DateTime)
    ensures !Before(a, a)
    ensures Before(a, b) && Before(b, c) ==> Before(a, c)
    ensures a == b || Before(a, b) || Before(b, a)
    ensures !(Before(a, b) && Before(b, a))
  {
  }

  /** The date part of `now`: what `DateTime.Today` returns when the clock reads `now`. */
  function Today(now: DateTime): (d: DateTime)
    ensures Valid(now) ==> Valid(d)
    ensures d.tick == 0 && (Valid(now) ==> !Before(now, d))
    ensures forall t | Valid(t) ::
      Before(t, d) <==> Before(t, now) && !(t.year == now.year && t.month == now.month && t.day == now.day)
  {
    DateTime(now.year, now.month, now.day, 0)
  }

  /**
   * `d.AddYears(n)`: the same month, day and time of day `n` years later; 29 February
   * becomes 28 February when the target year is not a leap year.
   */
  function AddYears(d: DateTime, n: int): (r: DateTime)
    ensures r.year == d.year + n && r.month == d.month && r.tick == d.tick
    ensures Valid(d) && 1 <= d.year + n <= 9999 ==> Valid(r)
    ensures Valid(d) ==> r.day == d.day || (d.month == 2 && d.day == 29 && r.day == 28 && !IsLeapYear(d.year + n))
  {
    var y := d.year + n;
    var dd := if d.day > DaysInMonth(y, d.month) then DaysInMonth(y, d.month) else d.day;
    DateTime(y, d.month, dd, d.tick)
  }
}
