/** Calendar dates as they index the price, inventory and positioning series. */
module Dates {

  datatype Date = Date(year: int, month: int, day: int)

  /** Gregorian leap year. */
  predicate IsLeapYear(y: int) {
    y % 4 == 0 && (y % 100 != 0 || y % 400 == 0)
  }

  function DaysInMonth(y: int, m: int): int {
    if m == 2 then (if IsLeapYear(y) then 29 else 28)
    else if m == 4 || m == 6 || m == 9 || m == 11 then 30
    else 31
  }

  predicate ValidDate(d: Date) {
    1 <= d.month <= 12 && 1 <= d.day <= DaysInMonth(d.year, d.month)
  }

  /**
   * A number that orders dates chronologically: month and day together take
   * fewer than 416 values, so the year dominates, then the month, then the day.
   */
  function DayKey(d: Date): int {
    d.year * 416 + d.month * 32 + d.day
  }

  /** Comparing keys is comparing dates on the calendar. */
  lemma KeyOrderIsCalendarOrder(a: Date, b: Date)
    requires ValidDate(a) && ValidDate(b)
    ensures DayKey(a) < DayKey(b) <==>
      a.year < b.year
      || (a.year == b.year && a.month < b.month)
      || (a.year == b.year && a.month == b.month && a.day < b.day)
    ensures DayKey(a) == DayKey(b) <==> a == b
  {
  }

  /**
   * The same month and day `n` years earlier, the way a calendar offset of
   * `n` years moves a date: 29 February lands on 28 February when the
   * earlier year is not a leap year.
   */
  function YearsBefore(d: Date, n: nat): (r: Date)
    ensures DayKey(r) <= DayKey(d)
    ensures n == 0 ==> r == d || !ValidDate(d)
    ensures ValidDate(d) ==> ValidDate(r)
    ensures r.year == d.year - n && r.month == d.month
    ensures ValidDate(d) && d.day <= DaysInMonth(r.year, r.month) ==> r.day == d.day
    ensures ValidDate(d) && d.day > DaysInMonth(r.year, r.month) ==> r.day == DaysInMonth(r.year, r.month)
  {
    var y := d.year - n;
    Date(y, d.month, if d.month == 2 && d.day == 29 && !IsLeapYear(y) then 28 else d.day)
  }
}
