/**
  Calendar days and second-precision instants, compared the way Python's
  `datetime` compares them: field by field, most significant first.
  Parsing of the textual forms ('%Y-%m-%d' and '%Y-%m-%d %H:%M:%S') is not
  part of this model; values arrive already parsed.
*/
module Timestamps {

  datatype Date = Date(year: int, month: int, day: int)

  datatype DateTime = DateTime(year: int, month: int, day: int, hour: int, minute: int, second: int)

  predicate IsLeapYear(year: int) {
    year % 4 == 0 && (year % 100 != 0 || year % 400 == 0)
  }

  function DaysInMonth(year: int, month: int): int
    requires 1 <= month <= 12
  {
    if month == 2 then (if IsLeapYear(year) then 29 else 28)
    else if month in {4, 6, 9, 11} then 30
    else 31
  }

  /** A day the `datetime` type can represent. */
  predicate ValidDate(d: Date) {
    && 1 <= d.year <= 9999
    && 1 <= d.month <= 12
    && 1 <= d.day <= DaysInMonth(d.year, d.month)
  }

  /** An instant the `datetime` type can represent, to the second. */
  predicate ValidDateTime(t: DateTime) {
    && ValidDate(DayOf(t))
    && 0 <= t.hour < 24
    && 0 <= t.minute < 60
    && 0 <= t.second < 60
  }

  /** The calendar day an instant falls on. */
  function DayOf(t: DateTime): Date {
    Date(t.year, t.month, t.day)
  }

  /** A date read with '%Y-%m-%d' becomes the instant 00:00:00 of that day. */
  function Midnight(d: Date): DateTime {
    DateTime(d.year, d.month, d.day, 0, 0, 0)
  }

  /** `a <= b` on instants. */
  predicate NoLater(a: DateTime, b: DateTime) {
    if a.year != b.year then a.year < b.year
    else if a.month != b.month then a.month < b.month
    else if a.day != b.day then a.day < b.day
    else if a.hour != b.hour then a.hour < b.hour
    else if a.minute != b.minute then a.minute < b.minute
    else a.second <= b.second
  }

  /** `a <= b` on calendar days. */
  predicate DateNoLater(a: Date, b: Date) {
    if a.year != b.year then a.year < b.year
    else if a.month != b.month then a.month < b.month
    else a.day <= b.day
  }

  lemma NoLaterTransitive(a: DateTime, b: DateTime, c: DateTime)
    requires NoLater(a, b) && NoLater(b, c)
    ensures NoLater(a, c)
  {
  }

  /** Widening days to midnight keeps their order, in both directions. */
  lemma MidnightMonotonic(a: Date, b: Date)
    ensures NoLater(Midnight(a), Midnight(b)) <==> DateNoLater(a, b)
  {
  }

  /**
    An instant strictly after 00:00:00 on day `d` is later than midnight of `d`:
    an end-date bound excludes the rest of its own day.
  */
  lemma LaterThanMidnight(t: DateTime, d: Date)
    requires ValidDateTime(t) && DayOf(t) == d
    ensures NoLater(t, Midnight(d)) <==> t == Midnight(d)
  {
  }

  /** No instant lies between the midnights of an inverted pair of days. */
  lemma NothingBetweenInvertedDays(t: DateTime, from: Date, until: Date)
    requires !DateNoLater(from, until)
    ensures !(NoLater(Midnight(from), t) && NoLater(t, Midnight(until)))
  {
    if NoLater(Midnight(from), t) && NoLater(t, Midnight(until)) {
      NoLaterTransitive(Midnight(from), t, Midnight(until));
      MidnightMonotonic(from, until);
    }
  }
}
