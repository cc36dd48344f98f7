/**
 * Calendar dates as the ledger compares them: year, month and day, with the
 * time of day already dropped.
 */
module Dates {

  datatype Date = Date(year: nat, month: nat, day: nat)

  /** `a` falls on an earlier calendar day than `b`. */
  predicate Before(a: Date, b: Date) {
    || a.year < b.year
    || (a.year == b.year && a.month < b.month)
    || (a.year == b.year && a.month == b.month && a.day < b.day)
  }

  /** `a` falls on a later calendar day than `b`. */
  predicate After(a: Date, b: Date) {
    Before(b, a)
  }

  /** `a` is the same day as `b` or an earlier one. */
  predicate OnOrBefore(a: Date, b: Date) {
    !Before(b, a)
  }

  /**
   * The calendar order is a strict total order, and "on or before" is
   * "before or the same day".
   */
  lemma CalendarOrder(a: Date, b: Date, c: Date)
    ensures !Before(a, a)
    ensures Before(a, b) && Before(b, c) ==> Before(a, c)
    ensures a == b || Before(a, b) || Before(b, a)
    ensures OnOrBefore(a, b) <==> Before(a, b) || a == b
    ensures After(a, b) <==> !OnOrBefore(a, b)
  {
  }

  predicate IsLeapYear(y: nat) {
    y % 4 == 0 && (y % 100 != 0 || y % 400 == 0)
  }

  function DaysInMonth(y: nat, m: nat): nat
    requires 1 <= m <= 12
  {
    if m == 2 then (if IsLeapYear(y) then 29 else 28)
    else if m == 4 || m == 6 || m == 9 || m == 11 then 30
    else 31
  }

  /** A day of the proleptic Gregorian calendar. */
  predicate ValidDate(d: Date) {
    1 <= d.month <= 12 && 1 <= d.day <= DaysInMonth(d.year, d.month)
  }
}
