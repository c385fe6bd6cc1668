/** The seven day keys shared by the backend's operating hours and the frontend form. */
module Calendar {

  datatype Weekday = Monday | Tuesday | Wednesday | Thursday | Friday | Saturday | Sunday

  /** The days in the order both tiers declare them. */
  const Week: seq<Weekday> := [Monday, Tuesday, Wednesday, Thursday, Friday, Saturday, Sunday]

  /** The key each tier uses for a day ("monday", ...). */
  function DayKey(d: Weekday): string {
    match d
    case Monday => "monday"
    case Tuesday => "tuesday"
    case Wednesday => "wednesday"
    case Thursday => "thursday"
    case Friday => "friday"
    case Saturday => "saturday"
    case Sunday => "sunday"
  }
}
