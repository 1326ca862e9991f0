/** Local wall-clock timestamps on a fixed-offset clock (no daylight-saving jumps).
    An `Intervention`'s `date_debut`/`date_fin` strings are read back with `new Date(...)`;
    the ISO round trip is the identity on these fields. */
module LocalTime {
  import CivilCalendar

  datatype LocalDateTime = LocalDateTime(date: CivilCalendar.Date, hour: int, minute: int, second: int, millis: int)

  predicate Valid(t: LocalDateTime) {
    && CivilCalendar.Valid(t.date)
    && 0 <= t.hour < 24 && 0 <= t.minute < 60 && 0 <= t.second < 60 && 0 <= t.millis < 1000
  }

  /** A well-formed local timestamp. */
  type Timestamp = t: LocalDateTime | Valid(t) witness LocalDateTime(CivilCalendar.Date(1970, 1, 1), 0, 0, 0, 0)

  const MillisPerHour: int := 3600000
  const MillisPerDay: int := 86400000

  /** Milliseconds elapsed since local midnight. */
  function MillisOfDay(t: LocalDateTime): int {
    t.hour * MillisPerHour + t.minute * 60000 + t.second * 1000 + t.millis
  }

  /** `Date.prototype.getTime()`, up to the clock's fixed offset: milliseconds since local
      midnight of 1970-01-01. */
  function Instant(t: LocalDateTime): int
    requires 1 <= t.date.month <= 12
  {
    CivilCalendar.DayNumber(t.date) * MillisPerDay + MillisOfDay(t)
  }

  /** The instant determines the local fields: comparing `getTime()` values is comparing
      timestamps. */
  lemma InstantInjective(a: LocalDateTime, b: LocalDateTime)
    requires Valid(a) && Valid(b) && Instant(a) == Instant(b)
    ensures a == b
  {
    var da, db := CivilCalendar.DayNumber(a.date), CivilCalendar.DayNumber(b.date);
    assert 0 <= MillisOfDay(a) < MillisPerDay && 0 <= MillisOfDay(b) < MillisPerDay;
    assert da == db;
    CivilCalendar.DayNumberInjective(a.date, b.date);
    assert MillisOfDay(a) == MillisOfDay(b);
    assert a.hour == b.hour;
    assert a.minute == b.minute;
    assert a.second == b.second;
  }

  /** A later day means a later instant, whatever the time of day. */
  lemma InstantFollowsDays(a: LocalDateTime, b: LocalDateTime)
    requires Valid(a) && Valid(b)
    requires CivilCalendar.DayNumber(a.date) < CivilCalendar.DayNumber(b.date)
    ensures Instant(a) < Instant(b)
  {
    var da, db := CivilCalendar.DayNumber(a.date), CivilCalendar.DayNumber(b.date);
    assert da * MillisPerDay + MillisPerDay <= db * MillisPerDay;
  }
}
