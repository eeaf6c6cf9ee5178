/**
 * One day of the week grid (src/components/DayColumn.tsx): its 24 hour slots
 * and the event a click on a slot creates.
 */
module DayColumn {
  import opened Wrappers
  import opened Types
  import opened Clock
  import opened Decimal
  import EventBlock

  const NewEventTitle: string := "New Task"
  const IdPrefix: string := "event-"

  /** `Array.from({ length: 24 }, (_, i) => i)`: the slot hours, in order. */
  function HoursOfDay(): (r: seq<int>)
    ensures |r| == 24
    ensures forall i :: 0 <= i < |r| ==> r[i] == i
  {
    seq(24, i => i)
  }

  /** `` `event-${Date.now()}` ``: the new event's id, built from the clock reading alone. */
  function EventId(now: nat): (r: string)
    ensures |r| > |IdPrefix| && r[..|IdPrefix|] == IdPrefix
    ensures AllDigits(r[|IdPrefix|..]) && DigitsValue(r[|IdPrefix|..]) == now
  {
    var digits := NatToString(now);
    NatToStringRoundTrip(now);
    assert (IdPrefix + digits)[|IdPrefix|..] == digits;
    IdPrefix + digits
  }

  /** Two slot clicks get the same id exactly when the clock read the same value for both. */
  lemma EventIdsCollideOnSameClock(a: nat, b: nat)
    ensures EventId(a) == EventId(b) <==> a == b
  {
    if EventId(a) == EventId(b) {
      assert NatToString(a) == EventId(a)[|IdPrefix|..];
      assert NatToString(b) == EventId(b)[|IdPrefix|..];
      NatToStringInjective(a, b);
    }
  }

  /**
   * `handleTimeSlotClick(hour)` on the column for `date`, with the clock
   * reading `now`: a one-hour "New Task" shift on that day starting at
   * `hour:00:00.000`, with no staff assigned.
   */
  function TimeSlotClick(date: int, hour: int, now: nat): (e: Event)
    requires 0 <= hour < 24
    ensures DayNumber(e.start) == DayNumber(date)
    ensures MinuteOfDay(e.start) == hour * 60 && e.start % MsPerMinute == 0
    ensures e.end == e.start + MsPerHour
    ensures e.id == EventId(now) && e.title == NewEventTitle
    ensures e.category == Shift && e.staffId == None && e.allDay == None
  {
    var startDate := SetHours(date, hour);
    SetHoursOnDay(date, hour);
    SetHoursWholeMinute(date, hour);
    var endDate := SetHours(startDate, hour + 1);
    Event(EventId(now), NewEventTitle, startDate, endDate, None, Shift, None)
  }

  /** The drawn height of the event created by a click on the 23:00 slot, which ends at the next midnight. */
  lemma LastSlotBlockDrawnAtFloor(date: int, now: nat)
    ensures var e := TimeSlotClick(date, 23, now);
      e.Duration() == 60 * MsPerMinute && EventBlock.HeightPx(e) == 30
  {
    var e := TimeSlotClick(date, 23, now);
    AddDaysShifts(e.start, 1);
    assert e.end == e.start + MsPerHour;
    SetHoursOnDay(date, 23);
    assert MsOfDay(e.end) == 0 by {
      Decompose(e.start);
      DayOf(DayNumber(date) + 1, 0);
      assert e.end == (DayNumber(date) + 1) * MsPerDay + 0;
    }
  }

  /** Measured from the start's midnight, every created event is drawn 60 pixels high, the last slot included. */
  lemma CreatedBlockSpansOneHour(date: int, hour: int, now: nat)
    requires 0 <= hour < 24
    ensures EventBlock.SpanHeightPx(TimeSlotClick(date, hour, now)) == 60
  {
    var e := TimeSlotClick(date, hour, now);
    SetHoursOnDay(date, hour);
    Decompose(e.start);
    assert e.end - DayStart(e.start) == (hour * 60 + 60) * MsPerMinute;
  }
}
