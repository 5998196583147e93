/**
 * Calendar days as integers: a day is its proleptic Gregorian ordinal, the value of
 * Python's `date.toordinal()` (day 1 is 0001-01-01, a Monday), so that adding `k` to a
 * day is `date + timedelta(days=k)`.
 */
module Calendar {

  /** The names `strftime('%A')` gives; also the day names of the weekend rules. */
  datatype DayName = Monday | Tuesday | Wednesday | Thursday | Friday | Saturday | Sunday

  /** `date.weekday()`: 0 = Monday, 4 = Friday, 5 = Saturday, 6 = Sunday. */
  function Weekday(d: int): (w: int)
    ensures 0 <= w < 7
  {
    (d + 6) % 7
  }

  /** Stepping back `k` days, without leaving the week, lowers the weekday by `k`. */
  lemma PreviousWeekday(d: int, k: int)
    requires 0 <= k <= Weekday(d)
    ensures Weekday(d - k) == Weekday(d) - k
  {
    var q := (d + 6) / 7;
    assert d + 6 == 7 * q + Weekday(d);
    assert d - k + 6 == 7 * q + (Weekday(d) - k);
  }

  /** The position of a day name in the week, with Python's numbering. */
  function WeekdayNumber(n: DayName): (w: int)
    ensures 0 <= w < 7
  {
    match n
    case Monday => 0
    case Tuesday => 1
    case Wednesday => 2
    case Thursday => 3
    case Friday => 4
    case Saturday => 5
    case Sunday => 6
  }

  /** The name of a day, as `date.strftime('%A')` spells it. */
  function DayNameOf(d: int): (n: DayName)
    ensures WeekdayNumber(n) == Weekday(d)
  {
    match Weekday(d)
    case 0 => Monday
    case 1 => Tuesday
    case 2 => Wednesday
    case 3 => Thursday
    case 4 => Friday
    case 5 => Saturday
    case _ => Sunday
  }
}
