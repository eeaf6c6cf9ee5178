/**
 * The collection controller (src/components/Scheduler.tsx): the component
 * that owns the event list, applies moves, resizes and additions to it,
 * turns a drag released over an hour slot into a move, and hands every new
 * list to its owner through `onEventChange`.
 */
module Scheduler {
  import opened Wrappers
  import opened Types
  import opened Clock
  import Seqs

  /** The `{ date, hour }` data an hour slot registers with the drag library. */
  datatype SlotData = SlotData(date: Option<int>, hour: Option<int>)

  /** The droppable under the pointer when a drag ends: its id and `over.data.current`. */
  datatype Over = Over(id: string, data: Option<SlotData>)

  /** A proposed `[start, end)` for an event, in milliseconds. */
  datatype Range = Range(start: int, end: int)

  /** `events.find(e => e.id === id)` */
  function FindEvent(events: seq<Event>, id: string): (r: Option<Event>)
    ensures r.None? <==> forall i :: 0 <= i < |events| ==> events[i].id != id
    ensures r.Some? ==> exists i :: 0 <= i < |events| && events[i] == r.value && events[i].id == id &&
                                    forall j :: 0 <= j < i ==> events[j].id != id
  {
    Seqs.Find(events, (e: Event) => e.id == id)
  }

  /**
   * The list update shared by `handleEventMove` and `handleEventResize`:
   * every event carrying `id` gets the new range, every other event and every
   * other field stays as it was, and length and order are kept.
   */
  function ReplaceRange(events: seq<Event>, id: string, start: int, end: int): (r: seq<Event>)
    ensures |r| == |events|
    ensures forall i :: 0 <= i < |events| && events[i].id == id ==>
              r[i] == events[i].(start := start, end := end)
    ensures forall i :: 0 <= i < |events| && events[i].id != id ==> r[i] == events[i]
  {
    if |events| == 0 then []
    else
      var head := if events[0].id == id then events[0].(start := start, end := end) else events[0];
      var rest := ReplaceRange(events[1..], id, start, end);
      assert forall i :: 1 <= i < |events| ==> events[i] == events[1..][i - 1];
      [head] + rest
  }

  /** A move or resize naming an id that no event carries leaves the list as it was. */
  lemma ReplaceUnknownId(events: seq<Event>, id: string, start: int, end: int)
    requires forall i :: 0 <= i < |events| ==> events[i].id != id
    ensures ReplaceRange(events, id, start, end) == events
  {
    var r := ReplaceRange(events, id, start, end);
    assert forall i :: 0 <= i < |r| ==> r[i] == events[i];
  }

  /** A matched event keeps its id, title, staff, type and all-day flag; only its range changes. */
  lemma ReplaceKeepsOtherFields(events: seq<Event>, id: string, start: int, end: int, i: nat)
    requires i < |events|
    ensures var r := ReplaceRange(events, id, start, end);
      && r[i].id == events[i].id && r[i].title == events[i].title
      && r[i].staffId == events[i].staffId && r[i].category == events[i].category
      && r[i].allDay == events[i].allDay
      && (events[i].id == id ==> r[i].start == start && r[i].end == end)
      && (events[i].id != id ==> r[i].start == events[i].start && r[i].end == events[i].end)
  {
  }

  /**
   * The move `handleDragEnd` commits, if any. There is none when nothing is
   * under the pointer, when the droppable is the dragged item itself, when
   * the droppable's data lacks a date or an hour, or when no event carries the
   * dragged id. Otherwise the start is the slot's date at `hour:00:00.000`
   * and the first matching event's duration is kept.
   */
  function DropMove(events: seq<Event>, activeId: string, over: Option<Over>): Option<Range>
  {
    if over.None? || over.value.id == activeId then None
    else
      var data := over.value.data;
      if data.None? || data.value.date.None? || data.value.hour.None? then None
      else
        var newStart := SetHours(data.value.date.value, data.value.hour.value);
        match FindEvent(events, activeId)
        case None => None
        case Some(original) => Some(Range(newStart, newStart + original.Duration()))
  }

  /**
   * A drop commits a move exactly when something other than the dragged item
   * is under the pointer, its data carries both a date and an hour, and some
   * event has the dragged id; the move starts at the slot's hour and lasts as
   * long as the first such event.
   */
  lemma DropMoveSpec(events: seq<Event>, activeId: string, over: Option<Over>)
    ensures DropMove(events, activeId, over).Some? <==>
      && over.Some? && over.value.id != activeId
      && over.value.data.Some? && over.value.data.value.date.Some? && over.value.data.value.hour.Some?
      && exists i :: 0 <= i < |events| && events[i].id == activeId
    ensures var r := DropMove(events, activeId, over);
      r.Some? ==>
        && r.value.start == SetHours(over.value.data.value.date.value, over.value.data.value.hour.value)
        && exists i :: 0 <= i < |events| && events[i].id == activeId &&
             (forall j :: 0 <= j < i ==> events[j].id != activeId) &&
             r.value.end - r.value.start == events[i].Duration()
  {
  }

  /** The list after a drag ends: the committed move applied, or the list unchanged. */
  function ApplyDrop(events: seq<Event>, activeId: string, over: Option<Over>): (r: seq<Event>)
    ensures |r| == |events|
    ensures forall i :: 0 <= i < |events| && events[i].id != activeId ==> r[i] == events[i]
  {
    match DropMove(events, activeId, over)
    case None => events
    case Some(range) => ReplaceRange(events, activeId, range.start, range.end)
  }

  /**
   * A committed drop on an hour slot puts the dragged event on the slot's day
   * at exactly that hour and keeps its duration to the millisecond.
   */
  lemma DropSnapsAndKeepsDuration(events: seq<Event>, activeId: string, over: Option<Over>, k: nat)
    requires k < |events| && events[k].id == activeId
    requires forall j :: 0 <= j < k ==> events[j].id != activeId
    requires DropMove(events, activeId, over).Some?
    requires 0 <= over.value.data.value.hour.value < 24
    ensures var after := ApplyDrop(events, activeId, over);
            var date := over.value.data.value.date.value;
            var hour := over.value.data.value.hour.value;
      && |after| == |events|
      && after[k].Duration() == events[k].Duration()
      && DayNumber(after[k].start) == DayNumber(date)
      && MinuteOfDay(after[k].start) == hour * 60
      && after[k].start % MsPerMinute == 0
  {
    var date := over.value.data.value.date.value;
    var hour := over.value.data.value.hour.value;
    var start := SetHours(date, hour);
    assert FindEvent(events, activeId) == Some(events[k]);
    assert DropMove(events, activeId, over) == Some(Range(start, start + events[k].Duration()));
    var after := ApplyDrop(events, activeId, over);
    assert after[k] == events[k].(start := start, end := start + events[k].Duration());
    SetHoursOnDay(date, hour);
    SetHoursWholeMinute(date, hour);
  }

  /**
   * The scheduler component's state: the authoritative list (`events`), the
   * event shown in the drag overlay (`activeEvent`), and the lists handed to
   * the owner's `onEventChange`, oldest first. `hasOwner` says whether the
   * owner supplied that callback at all.
   */
  class Controller {
    var events: seq<Event>
    var activeEvent: Option<Event>
    var emitted: seq<seq<Event>>
    const hasOwner: bool

    /** What one mutation hands to the owner: the whole new list, or nothing without a callback. */
    function Notice(updated: seq<Event>): seq<seq<Event>> {
      if hasOwner then [updated] else []
    }

    constructor (initial: seq<Event>, hasOwner: bool)
      ensures events == initial && activeEvent == None && emitted == [] && this.hasOwner == hasOwner
    {
      events := initial;
      activeEvent := None;
      emitted := [];
      this.hasOwner := hasOwner;
    }

    /** `setEvents(updated); onEventChange?.(updated)` */
    method Commit(updated: seq<Event>)
      modifies this
      ensures events == updated && emitted == old(emitted) + Notice(updated)
      ensures activeEvent == old(activeEvent)
    {
      events := updated;
      if hasOwner {
        emitted := emitted + [updated];
      }
    }

    /** `handleEventMove` */
    method EventMove(id: string, start: int, end: int)
      modifies this
      ensures events == ReplaceRange(old(events), id, start, end)
      ensures emitted == old(emitted) + Notice(events)
      ensures activeEvent == old(activeEvent)
    {
      Commit(ReplaceRange(events, id, start, end));
    }

    /** `handleEventResize`: the same update as a move, under its own name. */
    method EventResize(id: string, start: int, end: int)
      modifies this
      ensures events == ReplaceRange(old(events), id, start, end)
      ensures emitted == old(emitted) + Notice(events)
      ensures activeEvent == old(activeEvent)
    {
      Commit(ReplaceRange(events, id, start, end));
    }

    /** `handleEventAdd`: the new event goes at the end. */
    method EventAdd(e: Event)
      modifies this
      ensures events == old(events) + [e]
      ensures emitted == old(emitted) + Notice(events)
      ensures activeEvent == old(activeEvent)
    {
      Commit(events + [e]);
    }

    /** `handleDragStart`: the overlay shows the dragged event, or nothing when no event has that id. */
    method DragStart(activeId: string)
      modifies this
      ensures activeEvent == FindEvent(events, activeId)
      ensures events == old(events) && emitted == old(emitted)
    {
      activeEvent := FindEvent(events, activeId);
    }

    /** `handleDragEnd`: always clears the overlay; commits a move only for a valid drop. */
    method DragEnd(activeId: string, over: Option<Over>)
      modifies this
      ensures activeEvent == None
      ensures events == ApplyDrop(old(events), activeId, over)
      ensures emitted == old(emitted) +
        (if DropMove(old(events), activeId, over).Some? then Notice(events) else [])
    {
      activeEvent := None;
      match DropMove(events, activeId, over)
      case None =>
      case Some(range) =>
        EventMove(activeId, range.start, range.end);
    }
  }
}
