/** The two record types of the analyzer: one sleep observation per reporting
    day, and one cold-bath observation per bath taken. */
module Records {

  datatype Option<+T> = None | Some(value: T)

  /** A calendar date. The correlation only ever compares dates for equality. */
  datatype Date = Date(year: int, month: int, day: int)

  /** One night of sleep as reported by the tracker; durations are in seconds.
      The two optional fields are carried but never read by the correlation. */
  datatype SleepRecord = SleepRecord(
    date: Date,
    totalSleepDuration: real,
    deepSleepDuration: Option<real>,
    restHr: Option<real>)

  /** One cold bath, known only by the day it was taken. */
  datatype ColdBathRecord = ColdBathRecord(date: Date)
}
