/**
 * The records the chart works on: the loaded dataset, the variations with
 * their series keys, and the chart points.
 */
module SharedTypes {
  import opened Wrappers

  /** One arm of the experiment; its numeric `id` may be absent. */
  datatype Variation = Variation(id: Option<int>, name: string)

  /** A variation with the key that names its series. */
  datatype EnhancedVariation = EnhancedVariation(id: Option<int>, name: string, stableId: string)

  /** One calendar day: visits and conversions per variation key. */
  datatype DailyData = DailyData(date: string, visits: map<string, real>, conversions: map<string, real>)

  /**
   * A chart point: its category label and one number per series key.  The
   * label is kept apart from the numbers, so no series key can read it.
   */
  datatype Point = Point(date: string, rates: map<string, real>)

  datatype TestData = TestData(variations: seq<Variation>, data: seq<DailyData>)

  /** The value a select widget reports: one string, or a list of them. */
  datatype Selection = Single(value: string) | Many(values: seq<string>)

  /**
   * `new Date(s).getDate()`: the day of the month a date string names, or
   * `None` for an Invalid Date (whose `getDate()` is NaN).  Date parsing is
   * not modelled; the chart functions take it as a parameter.
   */
  type DayOfMonth = string -> Option<nat>

  /** The day-of-month as `${day}` prints it. */
  function DayText(day: Option<nat>): string {
    match day
    case Some(d) => Decimal.NatToDecimal(d)
    case None => "NaN"
  }

  import Decimal
}
