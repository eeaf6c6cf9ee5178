/**
 * One event on the grid (src/components/EventBlock.tsx): where it is drawn,
 * and the bottom-resize gesture that turns vertical pointer travel into a
 * longer or shorter event, one pixel per minute.
 */
module EventBlock {
  import opened Wrappers
  import opened Types
  import opened Clock
  import opened Scheduler

  /** A resize is forwarded only when the new duration is strictly longer than this. */
  const ResizeFloorMs: int := 30 * MsPerMinute

  /** The smallest height, in pixels, an event block is drawn with. */
  const MinBlockHeightPx: int := 30

  /** `originalHeight + (deltaY * 60 * 60 * 1000 / 60)`: the duration proposed for `deltaY` pixels of travel. */
  function CandidateDuration(original: int, deltaY: int): (r: int)
    ensures r == original + deltaY * MsPerMinute
  {
    original + deltaY * 60 * 60 * 1000 / 60
  }

  /**
   * What `handleMouseMove` forwards to `onEventResize` for the event as it was
   * when the handle was pressed: its own start and the start plus the
   * candidate duration, or nothing when the candidate is 30 minutes or less.
   */
  function ResizeCommit(origin: Event, deltaY: int): (r: Option<Range>)
    ensures r.Some? <==> origin.Duration() + deltaY * MsPerMinute > ResizeFloorMs
    ensures r.Some? ==> && r.value.start == origin.start
                        && r.value.end == origin.end + deltaY * MsPerMinute
                        && r.value.end - r.value.start > ResizeFloorMs
  {
    var newDuration := CandidateDuration(origin.Duration(), deltaY);
    if newDuration > 30 * 60 * 1000 then Some(Range(origin.start, origin.start + newDuration))
    else None
  }

  /**
   * Applied to the scheduler's list, an accepted resize leaves every event with
   * that id starting where it started and lasting more than 30 minutes.
   */
  lemma ResizeRespectsFloor(events: seq<Event>, origin: Event, deltaY: int)
    ensures match ResizeCommit(origin, deltaY)
      case None => true
      case Some(range) =>
        var after := ReplaceRange(events, origin.id, range.start, range.end);
        forall i :: 0 <= i < |after| && events[i].id == origin.id ==>
          after[i].start == origin.start && after[i].Duration() > ResizeFloorMs
  {
  }

  /** `top` of `getEventStyle`: `(getHours() + getMinutes() / 60) * 60` pixels, the start's minute of the day. */
  function TopPx(e: Event): (r: int)
    ensures 0 <= r < 24 * 60
    ensures r == MsOfDay(e.start) / MsPerMinute
  {
    MinuteOfDay(e.start)
  }

  /** `height` of `getEventStyle`: the end's minute of the day less the start's, at least 30 pixels. */
  function HeightPx(e: Event): (r: int)
    ensures r >= MinBlockHeightPx
    ensures r == if MinuteOfDay(e.end) - MinuteOfDay(e.start) > MinBlockHeightPx
                 then MinuteOfDay(e.end) - MinuteOfDay(e.start) else MinBlockHeightPx
  {
    var duration := MinuteOfDay(e.end) - MinuteOfDay(e.start);
    if duration > MinBlockHeightPx then duration else MinBlockHeightPx
  }

  /** For an event on one day whose ends fall on whole minutes, the height is its length in minutes, floored at 30. */
  lemma HeightIsDurationOnOneDay(e: Event)
    requires DayNumber(e.start) == DayNumber(e.end)
    requires e.start % MsPerMinute == 0 && e.end % MsPerMinute == 0
    ensures HeightPx(e) == if e.Duration() / MsPerMinute > MinBlockHeightPx then e.Duration() / MsPerMinute
                           else MinBlockHeightPx
  {
    Decompose(e.start);
    Decompose(e.end);
    WholeMinuteOfDay(e.start);
    WholeMinuteOfDay(e.end);
    var a := MinuteOfDay(e.start);
    var b := MinuteOfDay(e.end);
    assert e.Duration() == (b - a) * MsPerMinute;
  }

  /**
   * The height measured from the start's midnight, so that an event that ends
   * on a later day is drawn to its real length (floored at 30 pixels).
   */
  function SpanHeightPx(e: Event): (r: int)
    ensures r >= MinBlockHeightPx
  {
    var duration := (e.end - DayStart(e.start)) / MsPerMinute - MinuteOfDay(e.start);
    if duration > MinBlockHeightPx then duration else MinBlockHeightPx
  }

  /**
   * The corrected height of any event that starts on a whole minute is its
   * length in whole minutes, floored at 30 pixels, on whatever day it ends.
   */
  lemma SpanHeightIsDuration(e: Event)
    requires e.start % MsPerMinute == 0
    ensures SpanHeightPx(e) == if e.Duration() / MsPerMinute > MinBlockHeightPx then e.Duration() / MsPerMinute
                               else MinBlockHeightPx
  {
    Decompose(e.start);
    WholeMinuteOfDay(e.start);
    var m := MinuteOfDay(e.start);
    assert e.end - DayStart(e.start) == e.Duration() + m * MsPerMinute;
    assert (e.end - DayStart(e.start)) / MsPerMinute == e.Duration() / MsPerMinute + m;
  }

  /** On a one-day event the spanning height and the drawn height agree. */
  lemma SpanHeightAgreesOnOneDay(e: Event)
    requires DayNumber(e.start) == DayNumber(e.end)
    ensures SpanHeightPx(e) == HeightPx(e)
  {
    Decompose(e.end);
    assert e.end - DayStart(e.start) == MsOfDay(e.end);
  }

  /** One document listener of the resize gesture. */
  datatype Listener = MouseMove | MouseUp

  /** One `onEventResize(id, start, end)` call. */
  datatype ResizeCall = ResizeCall(id: string, range: Range)

  /**
   * The resize gesture of one event block: the `isResizing` flag, the
   * document listeners it attached, the pointer's `clientY` and the event as
   * they were at press (the listeners close over both), and the resize calls
   * it has made, oldest first.
   */
  class ResizeGesture {
    var isResizing: bool
    var listeners: set<Listener>
    var startY: int
    var origin: Event
    var calls: seq<ResizeCall>

    /** Listeners are attached exactly while a resize is in progress, and every call made respects the floor. */
    ghost predicate Valid()
      reads this
    {
      && (isResizing <==> listeners == {MouseMove, MouseUp})
      && (!isResizing <==> listeners == {})
      && forall i :: 0 <= i < |calls| ==> calls[i].range.end - calls[i].range.start > ResizeFloorMs
    }

    constructor (e: Event)
      ensures Valid() && !isResizing && listeners == {} && origin == e && calls == []
    {
      isResizing := false;
      listeners := {};
      startY := 0;
      origin := e;
      calls := [];
    }

    /** `handleResizeStart`: the handle is pressed at `clientY` on the block currently showing `e`. */
    method Press(e: Event, clientY: int)
      requires Valid()
      modifies this
      ensures Valid()
      ensures isResizing && listeners == {MouseMove, MouseUp}
      ensures startY == clientY && origin == e && calls == old(calls)
    {
      isResizing := true;
      startY := clientY;
      origin := e;
      listeners := listeners + {MouseMove, MouseUp};
    }

    /** The pointer moves to `clientY`: with the listener attached, a candidate over the floor is forwarded. */
    method PointerMove(clientY: int)
      requires Valid()
      modifies this`calls
      ensures Valid()
      ensures calls == old(calls) +
        (if MouseMove in listeners && ResizeCommit(origin, clientY - startY).Some?
         then [ResizeCall(origin.id, ResizeCommit(origin, clientY - startY).value)] else [])
    {
      if MouseMove in listeners {
        var deltaY := clientY - startY;
        var newDuration := CandidateDuration(origin.end - origin.start, deltaY);
        if newDuration > 30 * 60 * 1000 {
          var newEnd := origin.start + newDuration;
          calls := calls + [ResizeCall(origin.id, Range(origin.start, newEnd))];
        }
      }
    }

    /** `handleMouseUp`: the flag drops and both listeners are removed. */
    method PointerUp()
      requires Valid()
      modifies this
      ensures Valid()
      ensures !isResizing && listeners == {}
      ensures calls == old(calls) && origin == old(origin) && startY == old(startY)
    {
      if MouseUp in listeners {
        isResizing := false;
        listeners := listeners - {MouseMove, MouseUp};
      }
    }
  }
}
