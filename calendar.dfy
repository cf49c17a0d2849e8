/** Calendar arithmetic used by the task views: dates are proleptic Gregorian
    day ordinals (0001-01-01 is day 1, as in Python's `date.toordinal()`), and
    timestamps are whole seconds since 1970-01-01T00:00:00 UTC. */
module Calendar {

  /** A calendar date as a day ordinal. */
  type Date = int

  /** A point in time, in seconds since the Unix epoch. */
  type Timestamp = int

  /** `timedelta(days=1)` in seconds. */
  const SecondsPerDay: int := 86400

  /** The ordinal of 1970-01-01, the date of timestamp 0. */
  const UnixEpochOrdinal: int := 719163

  /** The date on which a timestamp falls (`datetime.date()`); floor division,
      so timestamps before the epoch land on earlier days. */
  function DateOf(ts: Timestamp): (d: Date)
    ensures (d - UnixEpochOrdinal) * SecondsPerDay <= ts < (d - UnixEpochOrdinal + 1) * SecondsPerDay
  {
    ts / SecondsPerDay + UnixEpochOrdinal
  }

  /** `date.weekday()`: Monday is 0 and Sunday is 6. Day 1 was a Monday. */
  function Weekday(d: Date): (w: nat)
    ensures w < 7
    ensures (d - 1 - w) % 7 == 0
    ensures d == 1 ==> w == 0
  {
    (d - 1) % 7
  }

  /** `today - timedelta(days=today.weekday())`: the Monday that starts the
      week of `d`. */
  function WeekStart(d: Date): (m: Date)
    ensures m <= d < m + 7
    ensures Weekday(m) == 0
    ensures d - m == Weekday(d)
  {
    var m := d - Weekday(d);
    assert (m - 1) % 7 == 0 by {
      MondayOfWeek(d);
    }
    m
  }

  lemma MondayOfWeek(d: Date)
    ensures (d - (d - 1) % 7 - 1) % 7 == 0
  {
    var q := (d - 1) / 7;
    assert d - 1 == 7 * q + (d - 1) % 7;
    assert d - (d - 1) % 7 - 1 == 7 * q;
  }

}
