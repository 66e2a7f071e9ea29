/**
  The year of a syslog stamp that carries none, taken from the date of the archive it was found in.
  Dates are those of the Gregorian calendar in one zone of fixed offset; times count nanoseconds.
 */
module YearInference {
  import opened Wrappers

  const DAY := 86_400_000_000_000
  const HALF_YEAR := 183 * DAY

  datatype Date = Date(year: int, month: int, day: int, time: int)

  /** Month, day and time of day as a stamp without a year gives them. */
  datatype Clock = Clock(month: int, day: int, time: int)

  predicate IsLeap(year: int) {
    year % 4 == 0 && (year % 100 != 0 || year % 400 == 0)
  }

  function DaysIn(month: int, year: int): int {
    if month == 2 then if IsLeap(year) then 29 else 28
    else if month == 4 || month == 6 || month == 9 || month == 11 then 30
    else 31
  }

  /** Days from 1 January of year 0 to 1 January of `year`. */
  function DaysBeforeYear(year: int): int {
    365 * year + (year + 3) / 4 - (year + 99) / 100 + (year + 399) / 400
  }

  function DaysBeforeMonth(month: int, year: int): int
    decreases month
  {
    if month <= 1 then 0 else DaysBeforeMonth(month - 1, year) + DaysIn(month - 1, year)
  }

  predicate Valid(date: Date) {
    1 <= date.month <= 12 && 1 <= date.day <= DaysIn(date.month, date.year) && 0 <= date.time < DAY
  }

  function DayNumber(date: Date): int {
    DaysBeforeYear(date.year) + DaysBeforeMonth(date.month, date.year) + date.day - 1
  }

  /** The instant of a date. */
  function At(date: Date): int {
    DayNumber(date) * DAY + date.time
  }

  /** A day past the end of its month moves into the next month. */
  function Normalize(date: Date): Date {
    if date.day > DaysIn(date.month, date.year)
    then Date(date.year, date.month + 1, date.day - DaysIn(date.month, date.year), date.time)
    else date
  }

  function AddYears(date: Date, years: int): Date {
    Normalize(date.(year := date.year + years))
  }

  /** Reads a clock in a given year; a month, day or time out of range is an error. */
  function ReadIn(clock: Clock, year: int): Option<Date> {
    var date := Date(year, clock.month, clock.day, clock.time);
    if Valid(date) then Some(date) else None
  }

  /** `fallback` is the date of the archive, if it has one. */
  function ParseSyslogTimestamp(clock: Clock, fallback: Option<Date>, thisYear: int): Option<Date> {
    var baseYear := if fallback.Some? then fallback.value.year else thisYear;
    match ReadIn(clock, baseYear)
    case None => None
    case Some(date) =>
      if fallback.None? then Some(date)
      else if At(date) - At(fallback.value) > HALF_YEAR then Some(AddYears(date, -1))
      else if At(fallback.value) - At(date) > HALF_YEAR then Some(AddYears(date, 1))
      else Some(date)
  }

  lemma YearLength(year: int)
    ensures DaysBeforeYear(year + 1) == DaysBeforeYear(year) + if IsLeap(year) then 366 else 365
  {
    assert (year + 4) / 4 - (year + 3) / 4 == if year % 4 == 0 then 1 else 0;
    assert (year + 100) / 100 - (year + 99) / 100 == if year % 100 == 0 then 1 else 0;
    assert (year + 400) / 400 - (year + 399) / 400 == if year % 400 == 0 then 1 else 0;
  }

  /** Days before each month: those of a common year, and one more from March on in a leap year. */
  lemma {:induction false} MonthStarts(month: int, year: int)
    requires 1 <= month <= 13
    ensures DaysBeforeMonth(month, year) == CommonDaysBefore(month) + if month > 2 && IsLeap(year) then 1 else 0
  {
    if month > 1 {
      MonthStarts(month - 1, year);
    }
  }

  function CommonDaysBefore(month: int): int {
    match month
    case 2 => 31 case 3 => 59 case 4 => 90 case 5 => 120 case 6 => 151 case 7 => 181
    case 8 => 212 case 9 => 243 case 10 => 273 case 11 => 304 case 12 => 334 case 13 => 365
    case _ => 0
  }

  /** A valid date lies within its year. */
  lemma DayWithinYear(date: Date)
    requires Valid(date)
    ensures 0 <= DayNumber(date) - DaysBeforeYear(date.year) < if IsLeap(date.year) then 366 else 365
  {
    MonthStarts(date.month, date.year);
  }

  /** Moving a valid date by one year moves it by 365 or 366 days and gives a valid date of that year. */
  lemma AddYearsMovesOneYear(date: Date, years: int)
    requires Valid(date) && (years == 1 || years == -1)
    ensures var moved := AddYears(date, years);
            && Valid(moved) && moved.year == date.year + years && moved.time == date.time
            && 365 <= years * (DayNumber(moved) - DayNumber(date)) <= 366
            && ((moved.month == date.month && moved.day == date.day)
                || (date.month == 2 && date.day == 29 && moved.month == 3 && moved.day == 1 && !IsLeap(moved.year)))
  {
    var moved := AddYears(date, years);
    YearLength(if years == 1 then date.year else date.year - 1);
    MonthStarts(date.month, date.year);
    MonthStarts(date.month, date.year + years);
    MonthStarts(moved.month, moved.year);
  }

  /**
    The date found has the clock's month, day and time, or is 1 March for a clock of 29 February;
    it lies within 183 days of the archive date and in the same year or the next or previous one.
    None is found exactly when the clock is no date of the archive's own year.
   */
  lemma InferredDateIsNear(clock: Clock, base: Date, thisYear: int)
    requires Valid(base)
    ensures var r := ParseSyslogTimestamp(clock, Some(base), thisYear);
            && (r.None? <==> !Valid(Date(base.year, clock.month, clock.day, clock.time)))
            && (r.Some? ==>
                  && Valid(r.value) && r.value.time == clock.time
                  && -183 * 86_400_000_000_000 <= At(r.value) - At(base) <= 183 * 86_400_000_000_000
                  && -1 <= r.value.year - base.year <= 1
                  && ((r.value.month == clock.month && r.value.day == clock.day)
                      || (clock.month == 2 && clock.day == 29 && r.value.month == 3 && r.value.day == 1 && !IsLeap(r.value.year))))
  {
    var date := ReadIn(clock, base.year);
    if date.Some? {
      DayWithinYear(date.value);
      DayWithinYear(base);
      if At(date.value) - At(base) > HALF_YEAR {
        AddYearsMovesOneYear(date.value, -1);
      } else if At(base) - At(date.value) > HALF_YEAR {
        AddYearsMovesOneYear(date.value, 1);
      }
    }
  }

  /** The archive's own year is left only for a date that would lie further than 183 days away. */
  lemma OwnYearIsKept(clock: Clock, base: Date, thisYear: int)
    requires Valid(base)
    ensures var own := Date(base.year, clock.month, clock.day, clock.time);
            Valid(own) ==>
              (ParseSyslogTimestamp(clock, Some(base), thisYear) == Some(own) <==>
                 -183 * 86_400_000_000_000 <= At(own) - At(base) <= 183 * 86_400_000_000_000)
  {
    var own := Date(base.year, clock.month, clock.day, clock.time);
    if Valid(own) {
      AddYearsMovesOneYear(own, -1);
      AddYearsMovesOneYear(own, 1);
    }
  }

  /** Of the stamps that real dates have, exactly those of 29 February are lost, and only under an archive of a common year. */
  lemma OnlyLeapDaysAreLost(date: Date, base: Date, thisYear: int)
    requires Valid(date) && Valid(base)
    ensures ParseSyslogTimestamp(Clock(date.month, date.day, date.time), Some(base), thisYear) == None
       <==> date.month == 2 && date.day == 29 && !IsLeap(base.year)
  {
    InferredDateIsNear(Clock(date.month, date.day, date.time), base, thisYear);
  }

  /** Without an archive date the stamp is taken in the year of the clock, if it is a date of that year. */
  lemma WithoutArchiveDate(clock: Clock, thisYear: int, date: Date)
    ensures ParseSyslogTimestamp(clock, None, thisYear) == Some(date) <==>
              && date.year == thisYear && date.month == clock.month && date.day == clock.day && date.time == clock.time
              && 1 <= date.month <= 12 && 1 <= date.day <= DaysIn(date.month, thisYear) && 0 <= date.time < DAY
  {
  }

  /** A clock of 29 February can be lost although that day lies within 183 days of the archive date. */
  lemma LeapDayOfNextYearIsLost(time: int)
    requires 0 <= time < DAY
    ensures var base, leapDay := Date(2023, 12, 1, 0), Date(2024, 2, 29, time);
            && Valid(base) && Valid(leapDay)
            && -183 * DAY <= At(leapDay) - At(base) <= 183 * DAY
            && ParseSyslogTimestamp(Clock(2, 29, time), Some(base), 2024) == None
  {
  }
}
