/**
 * The scheduler's entities. `SchedulerEvent` as the components use it: the
 * declared interface lacks `staffId` and `type`, but the demo data and the
 * edit form use both and the slot click sets `type`, so both are fields here.
 */
module Types {
  import opened Wrappers

  /** The six event types offered by the edit form and keyed in the colour table. */
  datatype Category = Shift | Break | Consultation | Inventory | Training | Meeting

  /** A scheduled activity; `start` and `end` are instants in milliseconds. */
  datatype Event = Event(
    id: string,
    title: string,
    start: int,
    end: int,
    staffId: Option<string>,
    category: Category,
    allDay: Option<bool>)
  {
    /** `endDate.getTime() - startDate.getTime()` */
    function Duration(): int { end - start }
  }

  /** A staff member from the directory. */
  datatype StaffMember = StaffMember(id: string, name: string, color: string, role: string)
}
