/**
 * DateTime as a count of whole seconds since 0001-01-01 00:00:00, the
 * value of DateTime.MinValue, in the proleptic Gregorian calendar.
 */
module Dates {

  type Instant = nat

  const MinValue: Instant := 0
  const SecondsPerHour: nat := 3600
  const SecondsPerDay: nat := 86400

  predicate IsLeapYear(y: int)
  {
    y % 4 == 0 && (y % 100 != 0 || y % 400 == 0)
  }

  function DaysInMonth(y: int, m: int): int
    requires 1 <= m <= 12
  {
    if m == 2 then (if IsLeapYear(y) then 29 else 28)
    else if m == 4 || m == 6 || m == 9 || m == 11 then 30
    else 31
  }

  function DaysBeforeMonth(y: int, m: int): nat
    requires 1 <= m <= 12
  {
    var common := [0, 31, 59, 90, 120, 151, 181, 212, 243, 273, 304, 334][m - 1];
    if m > 2 && IsLeapYear(y) then common + 1 else common
  }

  predicate IsValidDate(y: int, m: int, d: int)
  {
    1 <= y <= 9999 && 1 <= m <= 12 && 1 <= d <= DaysInMonth(y, m)
  }

  /** new DateTime(y, m, d, h, mi, s). */
  function DateTimeOf(y: int, m: int, d: int, h: nat, mi: nat, s: nat): Instant
    requires IsValidDate(y, m, d) && h < 24 && mi < 60 && s < 60
  {
    var yb := y - 1;
    var days := 365 * yb + yb / 4 - yb / 100 + yb / 400 + DaysBeforeMonth(y, m) + d - 1;
    days * SecondsPerDay + h * SecondsPerHour + mi * 60 + s
  }

  /** new DateTime(y, m, d): midnight of that day. */
  function DateOf(y: int, m: int, d: int): Instant
    requires IsValidDate(y, m, d)
  {
    DateTimeOf(y, m, d, 0, 0, 0)
  }
}
