/**
 * Calendar dates as the JavaScript `Date` object yields them through
 * `getDate()`, `getMonth() + 1` and `getFullYear()`, and day stepping as
 * `setDate(getDate() + i)` performs it (proleptic Gregorian calendar,
 * rolling over month and year ends).
 */
module Calendar {

  /** A calendar day; `month` is 1-based. */
  datatype Date = Date(day: int, month: int, year: int)

  predicate IsLeapYear(year: int) {
    year % 4 == 0 && (year % 100 != 0 || year % 400 == 0)
  }

  function DaysInMonth(month: int, year: int): (n: int)
    requires 1 <= month <= 12
    ensures 28 <= n <= 31
  {
    if month == 2 then (if IsLeapYear(year) then 29 else 28)
    else if month == 4 || month == 6 || month == 9 || month == 11 then 30
    else 31
  }

  /** A real day of a year the model covers (years before 0 are outside it). */
  predicate ValidDate(d: Date) {
    0 <= d.year && 1 <= d.month <= 12 && 1 <= d.day <= DaysInMonth(d.month, d.year)
  }

  /** Chronological order. */
  predicate Before(a: Date, b: Date) {
    a.year < b.year
    || (a.year == b.year && a.month < b.month)
    || (a.year == b.year && a.month == b.month && a.day < b.day)
  }

  lemma BeforeTransitive(a: Date, b: Date, c: Date)
    requires Before(a, b) && Before(b, c)
    ensures Before(a, c)
  {
  }

  /** The following calendar day. */
  function NextDay(d: Date): (n: Date)
    requires ValidDate(d)
    ensures ValidDate(n) && Before(d, n)
  {
    if d.day < DaysInMonth(d.month, d.year) then Date(d.day + 1, d.month, d.year)
    else if d.month < 12 then Date(1, d.month + 1, d.year)
    else Date(1, 1, d.year + 1)
  }

  /** The day `k` days after `d`. */
  function AddDays(d: Date, k: nat): (r: Date)
    requires ValidDate(d)
    ensures ValidDate(r)
    decreases k
  {
    if k == 0 then d else NextDay(AddDays(d, k - 1))
  }

  /** Later offsets give strictly later days, so distinct offsets give distinct days. */
  lemma {:induction false} AddDaysIncreasing(d: Date, i: nat, j: nat)
    requires ValidDate(d) && i < j
    ensures Before(AddDays(d, i), AddDays(d, j))
    decreases j
  {
    if i < j - 1 {
      AddDaysIncreasing(d, i, j - 1);
      BeforeTransitive(AddDays(d, i), AddDays(d, j - 1), AddDays(d, j));
    }
  }
}
