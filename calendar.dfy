/** The fields of Python's datetime.datetime and the range checks its
    constructor applies before it accepts them (it raises ValueError otherwise).
    Converting a datetime to an epoch timestamp depends on the local time zone
    and is not modelled here: the modules that need it take it as a parameter. */
module Calendar {

  datatype DateTime = DateTime(year: int, month: int, day: int,
                               hour: int, minute: int, second: int, microsecond: int)

  predicate IsLeapYear(y: int) {
    y % 4 == 0 && (y % 100 != 0 || y % 400 == 0)
  }

  /** The number of days of a month of the Gregorian calendar. */
  function DaysInMonth(y: int, m: int): (d: int)
    requires 1 <= m <= 12
    ensures 28 <= d <= 31
    ensures d == 29 <==> m == 2 && IsLeapYear(y)
  {
    if m == 2 then (if IsLeapYear(y) then 29 else 28)
    else if m == 4 || m == 6 || m == 9 || m == 11 then 30
    else 31
  }

  /** The field ranges datetime(year, month, day, hour, minute, second,
      microsecond) accepts: MINYEAR 1 to MAXYEAR 9999, a real day of the month,
      a time of day below 24:00:00. */
  predicate ValidDateTime(t: DateTime) {
    && 1 <= t.year <= 9999
    && 1 <= t.month <= 12
    && 1 <= t.day <= DaysInMonth(t.year, t.month)
    && 0 <= t.hour <= 23
    && 0 <= t.minute <= 59
    && 0 <= t.second <= 59
    && 0 <= t.microsecond <= 999999
  }
}
