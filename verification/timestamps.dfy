/** Already-parsed, timezone-aware instants. Two instants compare by the
    moment they denote (UTC); the calendar date of an instant is taken in its
    own UTC offset, as Python's `datetime.date()` does for an aware value. */
module Timestamps {

  const SecondsPerDay := 86400

  datatype Instant = Instant(utcSeconds: int, offsetSeconds: int) {

    /** The local calendar date, as a day number. Dafny's `/` on a positive
        divisor rounds down, as the proleptic calendar does before the epoch. */
    function Date(): int {
      (utcSeconds + offsetSeconds) / SecondsPerDay
    }

    /** The sort key of the instant: its UTC moment. */
    function Moment(): real {
      utcSeconds as real
    }
  }
}
