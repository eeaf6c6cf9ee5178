/**
 * The week grid (src/components/WeekView.tsx): seven day columns from the
 * Sunday of the current week, each given the events that start on its date,
 * beside a column of hour labels.
 */
module WeekView {
  import opened Types
  import opened Clock
  import opened Decimal
  import Seqs
  import DayColumn

  /** `startOfWeek`: the clock reading moved back to this week's Sunday, time of day kept. */
  function StartOfWeek(now: int): int {
    AddDays(now, -Weekday(now))
  }

  /** This week's Sunday: the same time of day, on the date `getDay()` days back. */
  lemma StartOfWeekIsSunday(now: int)
    ensures Weekday(StartOfWeek(now)) == 0
    ensures DayNumber(StartOfWeek(now)) == DayNumber(now) - Weekday(now)
    ensures DayNumber(now) - 6 <= DayNumber(StartOfWeek(now)) <= DayNumber(now)
    ensures MsOfDay(StartOfWeek(now)) == MsOfDay(now)
  {
    AddDaysShifts(now, -Weekday(now));
    var d := DayNumber(now);
    var q := (d + EpochWeekday) / 7;
    assert d - Weekday(now) + EpochWeekday == q * 7;
  }

  /** `weekDays`: the column instants, one per day from that Sunday. */
  function WeekDays(now: int): (r: seq<int>)
    ensures |r| == 7
  {
    seq(7, i => AddDays(StartOfWeek(now), i))
  }

  /** The columns are the seven consecutive dates Sunday through Saturday of the week holding `now`. */
  lemma WeekDaysAreTheCurrentWeek(now: int)
    ensures forall i :: 0 <= i < 7 ==>
      && DayNumber(WeekDays(now)[i]) == DayNumber(now) - Weekday(now) + i
      && Weekday(WeekDays(now)[i]) == i
    ensures DayNumber(WeekDays(now)[0]) <= DayNumber(now) <= DayNumber(WeekDays(now)[6])
  {
    AddDaysShifts(now, -Weekday(now));
    forall i | 0 <= i < 7
      ensures DayNumber(WeekDays(now)[i]) == DayNumber(now) - Weekday(now) + i
      ensures Weekday(WeekDays(now)[i]) == i
    {
      AddDaysShifts(StartOfWeek(now), i);
      var d := DayNumber(now);
      assert (d + EpochWeekday) % 7 == Weekday(now);
      assert (d - Weekday(now) + i + EpochWeekday) % 7 == i by {
        var q := (d + EpochWeekday) / 7;
        assert d - Weekday(now) + i + EpochWeekday == q * 7 + i;
      }
    }
  }

  /** `eventDate.toDateString() === day.toDateString()`: same local calendar date. */
  predicate SameDate(a: int, b: int) {
    DayNumber(a) == DayNumber(b)
  }

  /** The events passed to the column for `day`: those starting on its date, in list order. */
  function DayEvents(events: seq<Event>, day: int): (r: seq<Event>)
    ensures forall i :: 0 <= i < |r| ==> r[i] in events && SameDate(r[i].start, day)
    ensures forall i :: 0 <= i < |events| && SameDate(events[i].start, day) ==> events[i] in r
  {
    Seqs.Filter(events, (e: Event) => SameDate(e.start, day))
  }

  /** The events of each of the seven columns. */
  function Columns(events: seq<Event>, now: int): (r: seq<seq<Event>>)
    ensures |r| == 7
  {
    seq(7, i requires 0 <= i < 7 => DayEvents(events, WeekDays(now)[i]))
  }

  /** Column `i` holds exactly the listed events that start `i` days after this week's Sunday. */
  lemma ColumnMembership(events: seq<Event>, now: int, i: nat, e: Event)
    requires i < 7
    ensures e in Columns(events, now)[i] <==>
      e in events && DayNumber(e.start) == DayNumber(StartOfWeek(now)) + i
  {
    WeekDaysAreTheCurrentWeek(now);
    var column := Columns(events, now)[i];
    assert column == DayEvents(events, WeekDays(now)[i]);
    if e in events && DayNumber(e.start) == DayNumber(StartOfWeek(now)) + i {
      var k :| 0 <= k < |events| && events[k] == e;
    }
  }

  /** No event is given to two columns. */
  lemma AtMostOneColumn(events: seq<Event>, now: int, e: Event, i: nat, j: nat)
    requires i < 7 && j < 7
    requires e in Columns(events, now)[i] && e in Columns(events, now)[j]
    ensures i == j
  {
    ColumnMembership(events, now, i, e);
    ColumnMembership(events, now, j, e);
  }

  /** An event starting before this week's Sunday or after its Saturday is in no column. */
  lemma OutsideWeekInNoColumn(events: seq<Event>, now: int, e: Event)
    requires DayNumber(e.start) < DayNumber(StartOfWeek(now)) || DayNumber(e.start) > DayNumber(StartOfWeek(now)) + 6
    ensures forall i :: 0 <= i < 7 ==> e !in Columns(events, now)[i]
  {
    forall i | 0 <= i < 7
      ensures e !in Columns(events, now)[i]
    {
      ColumnMembership(events, now, i, e);
    }
  }

  /** A column lists its events in the order of the scheduler's list: filtering distributes over concatenation. */
  lemma ColumnKeepsListOrder(a: seq<Event>, b: seq<Event>, day: int)
    ensures DayEvents(a + b, day) == DayEvents(a, day) + DayEvents(b, day)
  {
    Seqs.FilterAppend(a, b, (e: Event) => SameDate(e.start, day));
  }

  /** `hour.toString().padStart(2, '0') + ":00"` */
  function HourLabel(h: nat): string {
    PadStart(NatToString(h), 2, '0') + ":00"
  }

  /** The time column's labels, one per slot hour, in order. */
  function HourLabels(): (r: seq<string>)
    ensures |r| == 24
    ensures forall i :: 0 <= i < 24 ==> r[i] == HourLabel(i)
  {
    var hours := DayColumn.HoursOfDay();
    seq(24, i requires 0 <= i < 24 => HourLabel(hours[i]))
  }

  /** Every label is two digits naming its hour, followed by ":00". */
  lemma HourLabelReadsBack(h: nat)
    requires h < 100
    ensures var text := HourLabel(h);
      && |text| == 5 && text[2..] == ":00"
      && AllDigits(text[..2]) && DigitsValue(text[..2]) == h
  {
    var digits := NatToString(h);
    NatToStringRoundTrip(h);
    if h >= 10 {
      assert NatToString(h / 10) == [DigitChar(h / 10)];
      assert PadStart(digits, 2, '0') == digits;
    } else {
      assert PadStart(digits, 2, '0') == ['0'] + digits;
      var text := HourLabel(h);
      assert text[..2] == ['0', DigitChar(h)];
      assert text[..2][..1] == ['0'];
      assert text[..2][..1][..0] == [];
    }
  }

  /** Label `i` of the list is two digits reading back as `i`, then ":00". */
  lemma HourLabelAt(i: int)
    requires 0 <= i < 24
    ensures HourLabels()[i][2..] == ":00" && DigitsValue(HourLabels()[i][..2]) == i
  {
    HourLabelReadsBack(i);
  }

  /** The label list reads back as the hours 0 through 23, in order. */
  lemma HourLabelsInOrder()
    ensures forall i :: 0 <= i < 24 ==> HourLabels()[i][2..] == ":00" && DigitsValue(HourLabels()[i][..2]) == i
  {
    forall i | 0 <= i < 24
      ensures HourLabels()[i][2..] == ":00" && DigitsValue(HourLabels()[i][..2]) == i
    {
      HourLabelAt(i);
    }
  }
}
