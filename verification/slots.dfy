/** Half-day slots: a calendar date with a morning (09:00-12:00) or afternoon (14:00-17:00)
    window, and the classification of an existing timestamp into one of the two halves. */
module Slots {
  import opened Records
  import CivilCalendar
  import LocalTime

  datatype Window = Window(start: LocalTime.Timestamp, end: LocalTime.Timestamp)

  /** The hours `handleDragEnd` gives a dropped slot: anything but AM gets the afternoon. */
  function StartHour(p: Period): int { if p == AM then 9 else 14 }
  function EndHour(p: Period): int { if p == AM then 12 else 17 }

  /** The window a drop on `(d, p)` produces: `setHours(startHour, 0, 0, 0)` and
      `setHours(endHour, 0, 0, 0)` on the target date. */
  function SlotWindow(d: CivilCalendar.Day, p: Period): (w: Window)
    ensures w.start.date == d && w.end.date == d
  {
    Window(LocalTime.LocalDateTime(d, StartHour(p), 0, 0, 0),
           LocalTime.LocalDateTime(d, EndHour(p), 0, 0, 0))
  }

  /** The half of the day a timestamp falls in: AM iff the local hour is before noon. */
  function PeriodOf(t: LocalTime.LocalDateTime): (p: Period)
    ensures p == AM <==> t.hour < 12
  {
    if t.hour < 12 then AM else PM
  }

  /** A slot window is three hours long on its own date, starts at 09:00:00.000 (AM) or
      14:00:00.000 (PM), ends at 12:00 or 17:00, and its start falls back into the same half. */
  lemma SlotWindowShape(d: CivilCalendar.Day, p: Period)
    ensures var w := SlotWindow(d, p);
      && w.start.minute == 0 && w.start.second == 0 && w.start.millis == 0
      && w.end.minute == 0 && w.end.second == 0 && w.end.millis == 0
      && (p == AM ==> w.start.hour == 9 && w.end.hour == 12)
      && (p == PM ==> w.start.hour == 14 && w.end.hour == 17)
      && LocalTime.Instant(w.end) - LocalTime.Instant(w.start) == 3 * LocalTime.MillisPerHour
      && LocalTime.Instant(w.start) < LocalTime.Instant(w.end)
      && PeriodOf(w.start) == p
  {
  }

  /** Two drops produce the same start instant exactly when they target the same slot. */
  lemma SlotStartInjective(d: CivilCalendar.Day, p: Period, d': CivilCalendar.Day, p': Period)
    ensures LocalTime.Instant(SlotWindow(d, p).start) == LocalTime.Instant(SlotWindow(d', p').start)
            <==> d == d' && p == p'
  {
    if LocalTime.Instant(SlotWindow(d, p).start) == LocalTime.Instant(SlotWindow(d', p').start) {
      LocalTime.InstantInjective(SlotWindow(d, p).start, SlotWindow(d', p').start);
    }
  }
}
