# Weekly scheduler: event-list and time-range logic

A model, in Dafny, of the logic inside a React weekly calendar for a pharmacy
staff rota. The calendar draws seven day columns of 24 hour slots. It places
events on them by start date. Users create events by clicking a slot, move
them by dragging onto a slot, make them longer or shorter by dragging a
bottom handle, and edit them in a form. The owner of the list is notified
with the whole new list after every change.

Instants are integer milliseconds. A local day is a fixed 24-hour span
(`Clock`): day `d` covers `[d * 86_400_000, (d + 1) * 86_400_000)`, with no
time zone and no daylight-saving change. The JavaScript `Date` calls the
components make (`getHours`, `getMinutes`, `getDay`, `setHours(h, 0, 0, 0)`,
`setDate`, `toDateString`) are functions of that representation.

Modules, one per source file, plus shared helpers:

- `Types`: the `Event` record and the six-value `Category`. The declared
  `SchedulerEvent` interface has no `staffId` or `type`. `src/App.tsx` and
  `EventEditModal.tsx` use both, and `DayColumn.tsx` sets `type`, so both are
  fields. `staffId` and `allDay` are optional.
- `Scheduler`: the collection controller. It is the class `Controller` with
  fields `events`, `activeEvent` and `emitted`. `emitted` holds the lists
  passed to `onEventChange`, oldest first.
- `EventBlock`: the bottom-resize rule and the class `ResizeGesture`. It
  also holds the block geometry.
- `DayColumn`: slot-click creation and the slot hours.
- `WeekView`: the week's dates, bucketing events by date, and hour labels.
- `EditModal`: trimming, validation, field changes and the class `Modal`.
- `ContextMenu`: viewport clamping, rows, the click guard and the class `Menu`.
- `CustomSelect`: the displayed text, placement and the class `Select`.
- `Staff`: the staff directory, lookup by id, and the colour table.
- Helpers: `Seqs` (`find` and `filter`), `Decimal` (`toString` and
  `padStart`), `Clock`, `Wrappers` (`Option`).

The code sets the resize floor at 30 minutes, strict.

## Model

| member | source | states |
|---|---|---|
| `Scheduler.FindEvent` | src/components/Scheduler.tsx:46 | The result is the first event with the id. It is nothing exactly when no event has that id. |
| `Scheduler.ReplaceRange` | src/components/Scheduler.tsx:20-24 | Length and order are kept. Every event with the id gets the new start and end and keeps every other field. Every other event is unchanged. |
| `Scheduler.ReplaceUnknownId` | src/components/Scheduler.tsx:30-34 | A move or resize naming an id that no event has leaves the list equal to before. |
| `Scheduler.ReplaceKeepsOtherFields` | src/components/Scheduler.tsx:30-34 | A matched event keeps its id, title, staff, type and all-day flag. An unmatched event keeps its range. |
| `Scheduler.DropMoveSpec` | src/components/Scheduler.tsx:54-66 | A drop commits a move exactly when five things hold: something is under the pointer, it is not the dragged item, its data has a date, it has an hour, and some event has the dragged id. The new start is the slot's date at `hour:00`. The duration is that of the first matching event. |
| `Scheduler.DropMove` | src/components/Scheduler.tsx:54-66 | The range a drop commits, or none. Its guards, start and duration are stated by `DropMoveSpec`. |
| `Scheduler.ApplyDrop` | src/components/Scheduler.tsx:62-66 | The list after a drag ends has the same length, and events without the dragged id are untouched. The dragged event's new place is stated by `DropSnapsAndKeepsDuration`. |
| `Scheduler.DropSnapsAndKeepsDuration` | src/components/Scheduler.tsx:58-66 | After a committed drop on hour `h`, the first matching event is on the slot's date. Its start is exactly `h:00` on a whole minute, and its duration is unchanged to the millisecond. |
| `Scheduler.Controller.constructor` | src/components/Scheduler.tsx:16-17 | The list starts as the initial events. No event is active, and nothing has been emitted. |
| `Scheduler.Controller.Commit` | src/components/Scheduler.tsx:41-42 | Stores the new list and appends that same whole list to what the owner has received (when a callback exists). The active event is unchanged. |
| `Scheduler.Controller.EventMove` | src/components/Scheduler.tsx:19-27 | The new list is `ReplaceRange` of the old one. That full list is emitted. |
| `Scheduler.Controller.EventResize` | src/components/Scheduler.tsx:29-37 | Same as a move: the range is replaced by id and the full list is emitted. |
| `Scheduler.Controller.EventAdd` | src/components/Scheduler.tsx:39-43 | The new list is the old list with the event appended at the end. That list is emitted. |
| `Scheduler.Controller.DragStart` | src/components/Scheduler.tsx:45-48 | The active event is the first event with the dragged id, or none. The list is unchanged. |
| `Scheduler.Controller.DragEnd` | src/components/Scheduler.tsx:50-70 | The active event is always cleared. The list becomes `ReplaceRange` with the range `DropMove` yields, or stays as it was when there is none. Something is emitted only when a move is committed. |
| `Clock.SetHoursOnDay` | src/components/Scheduler.tsx:59-60 | `setHours(h, 0, 0, 0)` with `0 <= h < 24` stays on the same date. Hours read back as `h`, minutes as 0, and the minute of the day as `60h`. |
| `EventBlock.CandidateDuration` | src/components/EventBlock.tsx:43-47 | The candidate is the original duration plus `deltaY` minutes: one pixel per minute. |
| `EventBlock.ResizeCommit` | src/components/EventBlock.tsx:45-52 | A candidate is forwarded exactly when it is strictly longer than 30 minutes. A forwarded range keeps the original start. Its end is the original end plus `deltaY` minutes, so the length is over 30 minutes. |
| `EventBlock.ResizeRespectsFloor` | src/components/EventBlock.tsx:49-51 | Applied to the list, an accepted resize leaves each event with that id at its start and longer than 30 minutes. |
| `EventBlock.TopPx` | src/components/EventBlock.tsx:25-30 | The top offset is the start's whole minute of the day, in `[0, 1440)`. |
| `EventBlock.HeightPx` | src/components/EventBlock.tsx:25-31 | The height is the end's minute of the day minus the start's when that exceeds 30, and 30 otherwise. |
| `EventBlock.HeightIsDurationOnOneDay` | src/components/EventBlock.tsx:26-31 | For a one-day event on whole minutes, the height is its length in minutes, with a floor of 30. |
| `EventBlock.SpanHeightPx` | src/components/EventBlock.tsx:26-31 | Corrected height, measured from the start's midnight: at least 30. |
| `EventBlock.SpanHeightIsDuration` | src/components/EventBlock.tsx:26-31 | For any event starting on a whole minute, on whatever day it ends, the corrected height is its length in whole minutes when that exceeds 30, and 30 otherwise. |
| `EventBlock.SpanHeightAgreesOnOneDay` | src/components/EventBlock.tsx:26-31 | On a one-day event the corrected height equals the drawn height. |
| `EventBlock.ResizeGesture.constructor` | src/components/EventBlock.tsx:12 | A gesture starts not resizing, with no listeners attached and no calls made. |
| `EventBlock.ResizeGesture.Press` | src/components/EventBlock.tsx:37-62 | Pressing the handle sets `isResizing` and attaches both document listeners. It captures the pointer position and the event as it is now. |
| `EventBlock.ResizeGesture.PointerMove` | src/components/EventBlock.tsx:45-52 | With the listener attached, a move appends one call exactly when `ResizeCommit` accepts. Otherwise nothing is called. Every call ever made is over the 30-minute floor (`Valid`). |
| `EventBlock.ResizeGesture.PointerUp` | src/components/EventBlock.tsx:55-59 | Releasing clears `isResizing` and removes both listeners. Listeners are attached exactly while resizing (`Valid`). |
| `DayColumn.HoursOfDay` | src/components/DayColumn.tsx:43 | There are exactly 24 slots, with hours 0 to 23 in order. |
| `DayColumn.TimeSlotClick` | src/components/DayColumn.tsx:25-40 | The created event starts on the column's date at `h:00` and ends exactly one hour later. Its title is "New Task", its type is shift, it has no staff and no all-day flag, and its id is built from the clock value. |
| `DayColumn.EventId` | src/components/DayColumn.tsx:33 | The id is "event-" followed by decimal digits that read back as the clock value. |
| `DayColumn.EventIdsCollideOnSameClock` | src/components/DayColumn.tsx:33 | Two created ids are equal exactly when the clock values are equal, so uniqueness depends on the clock alone. |
| `DayColumn.LastSlotBlockDrawnAtFloor` | src/components/DayColumn.tsx:29-30 | The event created on the 23:00 slot lasts 60 minutes but is drawn 30 pixels high. |
| `DayColumn.CreatedBlockSpansOneHour` | src/components/DayColumn.tsx:29-30 | With the corrected height, every created event is drawn 60 pixels high, the last slot included. |
| `Decimal.NatToStringRoundTrip` | src/components/DayColumn.tsx:33 | Reading the decimal rendering of a clock value back gives that value. |
| `WeekView.WeekDays` | src/components/WeekView.tsx:24-28 | There are exactly seven column dates. |
| `WeekView.StartOfWeek` | src/components/WeekView.tsx:21-22 | The start of the current week. What it is, is stated by `StartOfWeekIsSunday`. |
| `WeekView.StartOfWeekIsSunday` | src/components/WeekView.tsx:21-22 | It falls on a Sunday, `getDay()` days back (0 to 6), at the same time of day. |
| `WeekView.WeekDaysAreTheCurrentWeek` | src/components/WeekView.tsx:21-28 | Column `i` is `i` days after this week's Sunday and has weekday `i`. The days are consecutive, and today is among them. |
| `WeekView.Columns` | src/components/WeekView.tsx:47-50 | There is one event list per column, seven in all. |
| `WeekView.DayEvents` | src/components/WeekView.tsx:47-50 | A column's events are listed events starting on its date, and every such event is there. Order is stated by `ColumnKeepsListOrder`. |
| `WeekView.ColumnMembership` | src/components/WeekView.tsx:47-50 | An event is in column `i` exactly when it is in the list and starts `i` days after Sunday. |
| `WeekView.AtMostOneColumn` | src/components/WeekView.tsx:47-50 | No event appears in two columns. |
| `WeekView.OutsideWeekInNoColumn` | src/components/WeekView.tsx:24-28 | An event starting before Sunday or after Saturday appears in no column. |
| `WeekView.ColumnKeepsListOrder` | src/components/WeekView.tsx:47-50 | A column's filter distributes over concatenation, so events keep their list order. |
| `WeekView.HourLabels` | src/components/WeekView.tsx:30 | There are 24 hour labels, and label `i` is the label of hour `i`. |
| `WeekView.HourLabel` | src/components/WeekView.tsx:38 | The label for one hour. That it is two digits naming the hour, then ":00", is stated by `HourLabelReadsBack`. |
| `WeekView.HourLabelReadsBack` | src/components/WeekView.tsx:38 | Each label is five characters: two digits that read back as the hour, then ":00". |
| `WeekView.HourLabelsInOrder` | src/components/WeekView.tsx:36-39 | Label `i` reads back as hour `i`, for 0 to 23. |
| `Decimal.PadStart` | src/components/WeekView.tsx:38 | The result has the target length (or the original length when that is longer). It ends with the original string, and everything before is the pad character. |
| `EditModal.TrimBounds` | src/components/EventEditModal.tsx:84 | Everything trimmed off is whitespace. What is kept, if anything, starts and ends with a non-whitespace character. |
| `EditModal.Trim` | src/components/EventEditModal.tsx:108 | The result is a slice of the string with only whitespace before and after it. It is empty exactly when the string is blank. Otherwise it neither starts nor ends with whitespace. |
| `EditModal.TrimIdempotent` | src/components/EventEditModal.tsx:108 | Trimming a trimmed title changes nothing. |
| `EditModal.SetField` | src/components/EventEditModal.tsx:52-55 | The named field takes the new value, and every other field keeps its value. |
| `EditModal.ClearError` | src/components/EventEditModal.tsx:57-63 | Afterwards that field has no error. Other fields' errors are untouched. If no error was set, the map is unchanged, and the keys are never removed. |
| `EditModal.Validate` | src/components/EventEditModal.tsx:81-96 | The error map `validateForm` builds. Its keys and their conditions are stated by `ValidateSpec`. |
| `EditModal.ValidateSpec` | src/components/EventEditModal.tsx:81-96 | There is a title error exactly when the title is blank, and an end error exactly when start >= end. There are no other keys. Validation passes exactly when there are neither. |
| `EditModal.StaffRef` | src/components/EventEditModal.tsx:110 | An empty staff id becomes no assignment. Any other id is kept. |
| `EditModal.BuildUpdated` | src/components/EventEditModal.tsx:106-114 | The replacement keeps the edited event's id. It takes the trimmed form title, the form's type, start, end and all-day flag, and `StaffRef` of the form's staff id. |
| `EditModal.SavedEventIsWellFormed` | src/components/EventEditModal.tsx:102-114 | A form that passes validation saves an event with the same id and a non-empty title that is already trimmed. Its start is before its end, and its staff reference is never empty. |
| `EditModal.FormFrom` | src/components/EventEditModal.tsx:22-29 | The form takes the event's title and type. A missing staff id becomes "", and a missing all-day flag becomes false. |
| `EditModal.Modal.constructor` | src/components/EventEditModal.tsx:22-31 | The form starts from the event, with no errors and no calls. The props of this first render are remembered. |
| `EditModal.Modal.Rerender` | src/components/EventEditModal.tsx:33-46 | The form and errors are reset only when the modal is open and `isOpen` or `event` differs from the previous render. Every field then comes from the event and the errors are emptied. Otherwise the typed values and errors are kept. |
| `EditModal.Modal.Change` | src/components/EventEditModal.tsx:48-79 | Only the named field changes, and only its error is cleared. |
| `EditModal.Modal.ValidateForm` | src/components/EventEditModal.tsx:81-97 | The stored errors are those of `Validate`. The result is true exactly when the title is not blank and start < end. |
| `EditModal.Modal.Submit` | src/components/EventEditModal.tsx:99-118 | An invalid form makes no call. A valid one calls `onSave` with the replacement and then `onClose`. |
| `EditModal.Modal.BackdropClick` | src/components/EventEditModal.tsx:120-124 | A click on the backdrop itself closes. A click inside the dialog does nothing. |
| `ContextMenu.Clamp` | src/components/ContextMenu.tsx:53-62 | An overflowing coordinate becomes `viewport - size - 10`. One that fits is unchanged. The far edge ends up inside the viewport. |
| `ContextMenu.ClampIdempotent` | src/components/ContextMenu.tsx:56-62 | Clamping a clamped position changes nothing. |
| `ContextMenu.ClickEffects` | src/components/ContextMenu.tsx:85-90 | A disabled entry does nothing. An enabled one runs its action, then closes. |
| `ContextMenu.KeyEffects` | src/components/ContextMenu.tsx:29-33 | Escape closes the menu. Other keys do nothing. |
| `ContextMenu.MouseDownEffects` | src/components/ContextMenu.tsx:23-27 | A mousedown outside the menu closes it. One inside does nothing. |
| `ContextMenu.RowsFrom` | src/components/ContextMenu.tsx:80-83 | The rows for the entries from one index on. Where each entry lands is stated by `RowsFromLayout`. |
| `ContextMenu.Rows` | src/components/ContextMenu.tsx:80-83 | The rendered rows, one per entry, each preceded by a divider when its flag is set, as stated by `RowsLayout`. |
| `ContextMenu.RowsFromLayout` | src/components/ContextMenu.tsx:80-83 | Within the rows from one entry on, each later entry sits at its computed offset. |
| `ContextMenu.RowsLayout` | src/components/ContextMenu.tsx:80-83 | Entry `i` is drawn at row `RowOf(i)`, so entries keep list order. The row above it is a divider exactly when its `divider` flag is set. |
| `ContextMenu.Menu.constructor` | src/components/ContextMenu.tsx:75-78 | The menu is first placed at the point it was opened at. |
| `ContextMenu.Menu.AdjustPosition` | src/components/ContextMenu.tsx:44-69 | The inline position is rewritten to the clamped pair only when at least one coordinate moved. Otherwise it is untouched. |
| `ContextMenu.Menu.ClickOption` | src/components/ContextMenu.tsx:85-90 | The effects requested are exactly those of `ClickEffects`. |
| `ContextMenu.Menu.KeyDown` | src/components/ContextMenu.tsx:29-33 | Escape requests a close. |
| `ContextMenu.Menu.MouseDown` | src/components/ContextMenu.tsx:23-27 | A press outside the menu requests a close. |
| `CustomSelect.SelectedOption` | src/components/CustomSelect.tsx:29 | The result is the first option with the current value, or nothing exactly when no option has it. |
| `CustomSelect.DisplayText` | src/components/CustomSelect.tsx:88 | The text is the label of the first option with the value, or the placeholder when none has it. The placeholder defaults to "Select an option". |
| `CustomSelect.DropdownPosition` | src/components/CustomSelect.tsx:59-74 | Opening above puts the list's bottom at the trigger's top. Otherwise its top is at the trigger's bottom. `left` and `width` come from the trigger plus the scroll offset. |
| `CustomSelect.PlacementShowsAtLeastAsMuch` | src/components/CustomSelect.tsx:65-68 | The chosen side never shows less of the list than the other would. Full room below always means opening below. |
| `CustomSelect.Select.constructor` | src/components/CustomSelect.tsx:25-26 | The select starts closed at position (0, 0, 0). |
| `CustomSelect.Select.Toggle` | src/components/CustomSelect.tsx:55-77 | `isOpen` flips. Opening a mounted trigger places the list by `DropdownPosition`. Otherwise the position is kept. |
| `CustomSelect.Select.OptionClick` | src/components/CustomSelect.tsx:79-82 | The chosen value is passed to `onChange` and the list closes. |
| `CustomSelect.Select.KeyDown` | src/components/CustomSelect.tsx:38-42 | While open, Escape closes the list. Other keys leave it as it is. |
| `CustomSelect.OpenAfterPressAsWritten` | src/components/CustomSelect.tsx:32-36 | As written, a press can only close the list. The list stays open only for a press on the trigger, because the portaled options are outside `selectRef`. |
| `CustomSelect.OptionPressClosesList` | src/components/CustomSelect.tsx:93-113 | As written, pressing on an option of an open list closes it, so the option is gone before its click. |
| `CustomSelect.OpenAfterPress` | src/components/CustomSelect.tsx:32-36 | Corrected test: a press can only close the list. |
| `CustomSelect.OnlyOutsidePressCloses` | src/components/CustomSelect.tsx:32-36 | With the correction, an open list stays open exactly when the press is on the trigger or an option. It differs from the code exactly on the options. |
| `CustomSelect.Select.MouseDown` | src/components/CustomSelect.tsx:32-36 | `isOpen` becomes `OpenAfterPressAsWritten` of its old value and the press target, as the code does. An open list closes for any press outside `selectRef`, including a press on one of its own portaled options. |
| `Staff.GetStaffById` | src/data/staff.ts:42-44 | The result is a member with that id. It is nothing exactly when no member has it. |
| `Staff.PharmacyStaffIdsDistinct` | src/data/staff.ts:3-40 | There are six members, with pairwise distinct ids. |
| `Staff.LookupOwnId` | src/data/staff.ts:3-44 | Looking up any listed member's id returns that member. |
| `Staff.DanglingIdIsUnassigned` | src/data/staff.ts:42-44 | An id no member has looks up as nothing, so the event counts as unassigned. |
| `Staff.EventTypeColors` | src/data/staff.ts:46-53 | The table's keys are exactly the six event types. |
| `Staff.EveryCategoryHasColour` | src/data/staff.ts:46-53 | Every event type has a colour. |

## Left out

- React rendering, JSX markup and CSS classes are not modelled. Portals are modelled only where they change behaviour: the select's options are outside `selectRef` (see Findings).
- The drag library's sensors, collision detection, transforms and overlay are not modelled. Only the `over` value it delivers at drag end is.
- `src/components/TimeSlot.tsx` only registers a droppable `{date, hour}`. `src/components/StaffLegend.tsx` only renders the tables. `src/App.tsx` is demo data and logging. None of these is part of this model.
- Time zones, daylight-saving changes and `Date` rollover rules are not modelled. A day is always 24 hours, so `setDate` across month ends is plain day arithmetic.
- The edit form's date strings are not modelled. These are `toISOString().slice(0, 16)` on open and local-time parsing on validate and save. The form holds instants, so the UTC shift and an emptied field parsing to an invalid date are not represented.
- Block geometry uses whole minutes and pixels. Measured rectangles and viewport sizes are integers, so fractional pixels are not represented.
- `EditModal.Trim`: its whitespace set is tab, line feed, vertical tab, form feed, carriage return, space, U+00A0, U+2028, U+2029, U+3000 and U+FEFF. Other Unicode space separators that `String.prototype.trim` also removes are left out.
- `EventBlock.ResizeGesture.Press`: a second press before release keeps one pair of listeners in the model. The code would attach a second pair and leave the first attached.
- `DayColumn.TimeSlotClick` requires the hour to be in 0..23, the only hours the column offers. For other hours `setHours` would roll across days.
- Event colour resolution (staff colour, falling back to the type colour) happens in no modelled file. Only the two tables are modelled.
- The `onTimeTrackingToggle` prop that `DayColumn` passes on is not accepted by `EventBlock`, so it has no behaviour to model. Keyboard nudging, selection, time tracking and top-edge resizing appear in none of these files.
- `EditModal.Modal.Rerender` compares the `event` prop by value. React compares it by reference, so a new object with equal contents would reset the form in the code but not in the model.
- Stale closures are not modelled: each handler sees the state at the moment it runs. The listeners of a resize gesture see the event as it was at press, and the model keeps that.

## Findings

| source | as written | input that shows it | evidently intended | confidence | as-written member | corrected member |
|---|---|---|---|---|---|---|
| src/components/EventBlock.tsx:26-31 | height = end's minute of the day − start's minute of the day, floored at 30 | a click on the 23:00 slot creates 23:00–00:00 (next day); 0 − 1380 < 30 gives 30 px for a 60-minute event | height = the event's length in minutes (60 px here), floored at 30 | medium; not executed | `DayColumn.LastSlotBlockDrawnAtFloor` | `EventBlock.SpanHeightPx` |
| src/components/CustomSelect.tsx:32-36 | an open list closes on any `mousedown` whose target is outside `selectRef`, but the options are portaled into `document.body` (lines 93-113) | open the type select and press on an option: the target is outside `selectRef`, so `isOpen` is cleared and the option unmounts before its `click`, so `onChange` is not called | a press on an option keeps the list open until `handleOptionClick` runs | medium; not executed | `CustomSelect.OptionPressClosesList` | `CustomSelect.OpenAfterPress` |
