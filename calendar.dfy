/** Calendar dates as whole day numbers and the seven weekday names of the doctor schema. */
module Calendar {

  /** A calendar date, counted in days from 1970-01-01; the one key used both to store an
      appointment's date and to look it up. */
  type Day = int

  /** The values `availableDays` may hold. */
  datatype Weekday = Monday | Tuesday | Wednesday | Thursday | Friday | Saturday | Sunday

  /** The weekday of a day number. Day 0, 1970-01-01, was a Thursday. */
  function WeekdayOf(d: Day): (w: Weekday)
    ensures WeekdayIndex(w) == d % 7
  {
    match d % 7
    case 0 => Thursday
    case 1 => Friday
    case 2 => Saturday
    case 3 => Sunday
    case 4 => Monday
    case 5 => Tuesday
    case _ => Wednesday
  }

  /** The long English weekday name (`toLocaleDateString('en-US', { weekday: 'long' })`). */
  function WeekdayName(w: Weekday): string {
    match w
    case Monday => "Monday"
    case Tuesday => "Tuesday"
    case Wednesday => "Wednesday"
    case Thursday => "Thursday"
    case Friday => "Friday"
    case Saturday => "Saturday"
    case Sunday => "Sunday"
  }

  /** The remainder modulo 7 of the day numbers falling on `w`. */
  function WeekdayIndex(w: Weekday): nat {
    match w
    case Thursday => 0
    case Friday => 1
    case Saturday => 2
    case Sunday => 3
    case Monday => 4
    case Tuesday => 5
    case Wednesday => 6
  }

  /** The first day from `d` on that falls on `w`. */
  function NextOn(d: Day, w: Weekday): (e: Day)
    ensures d <= e < d + 7 && WeekdayOf(e) == w
  {
    var i := (WeekdayIndex(w) - d) % 7;
    assert (d + i) % 7 == WeekdayIndex(w);
    d + i
  }

  /** Weekdays repeat every seven days. */
  lemma WeekdayPeriodic(d: Day)
    ensures WeekdayOf(d + 7) == WeekdayOf(d)
  {
    assert (d + 7) % 7 == d % 7;
  }

  /** Seven consecutive days fall on seven different weekdays. */
  lemma WeekdaysDistinct(d: Day, i: int, j: int)
    requires 0 <= i < j < 7
    ensures WeekdayOf(d + i) != WeekdayOf(d + j)
  {
  }

  /** Within the fourteen days from `d`, the days falling on `w` are exactly `NextOn(d, w)` and
      the day a week later. */
  lemma FortnightOn(d: Day, w: Weekday, e: Day)
    requires d <= e < d + 14
    ensures WeekdayOf(e) == w <==> e == NextOn(d, w) || e == NextOn(d, w) + 7
  {
    var n := NextOn(d, w);
    WeekdayPeriodic(n);
    if WeekdayOf(e) == w && e != n && e != n + 7 {
      var j := if e < d + 7 then e - d else e - 7 - d;
      if e >= d + 7 {
        WeekdayPeriodic(e - 7);
      }
      assert WeekdayOf(d + j) == w;
      if j < n - d {
        WeekdaysDistinct(d, j, n - d);
      } else {
        WeekdaysDistinct(d, n - d, j);
      }
    }
  }
}
