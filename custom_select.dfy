/**
 * The dropdown used by the edit form (src/components/CustomSelect.tsx): the
 * text it shows, where it opens, and how it closes.
 */
module CustomSelect {
  import opened Wrappers
  import Seqs

  /** The `max-height` of the dropdown list, in pixels. */
  const DropdownHeight: int := 200

  /** The text shown when no option has the current value and the caller gives no placeholder. */
  const DefaultPlaceholder: string := "Select an option"

  datatype SelectOption = SelectOption(value: string, text: string)

  /** The trigger's bounding rectangle, in viewport pixels. */
  datatype Rect = Rect(top: int, bottom: int, left: int, width: int)

  /** `dropdownPosition`, in document pixels. */
  datatype Position = Position(top: int, left: int, width: int)

  /** `selectedOption`: the first option whose value is the current value. */
  function SelectedOption(options: seq<SelectOption>, value: string): (r: Option<SelectOption>)
    ensures r.None? <==> forall i :: 0 <= i < |options| ==> options[i].value != value
    ensures r.Some? ==> exists i :: 0 <= i < |options| && options[i] == r.value && r.value.value == value &&
                                    forall j :: 0 <= j < i ==> options[j].value != value
  {
    Seqs.Find(options, (o: SelectOption) => o.value == value)
  }

  /** Option `i` is the first one carrying `value`. */
  predicate FirstWithValue(options: seq<SelectOption>, value: string, i: int) {
    0 <= i < |options| && options[i].value == value && forall j :: 0 <= j < i ==> options[j].value != value
  }

  /** The trigger's text: the selected option's label, or the placeholder when no option has the current value. */
  function DisplayText(options: seq<SelectOption>, value: string, placeholder: string := DefaultPlaceholder): (r: string)
    ensures (forall i :: 0 <= i < |options| ==> options[i].value != value) ==> r == placeholder
    ensures forall i :: FirstWithValue(options, value, i) ==> r == options[i].text
  {
    var selected := SelectedOption(options, value);
    if selected.Some? then
      var k :| 0 <= k < |options| && options[k] == selected.value && selected.value.value == value &&
               forall j :: 0 <= j < k ==> options[j].value != value;
      assert forall i :: FirstWithValue(options, value, i) ==> i == k;
      selected.value.text
    else placeholder
  }

  /** The room between the trigger's bottom and the viewport's, and between the viewport's top and the trigger's. */
  function SpaceBelow(rect: Rect, innerHeight: int): int { innerHeight - rect.bottom }
  function SpaceAbove(rect: Rect): int { rect.top }

  /** The dropdown opens above when there is under 200 pixels below and more room above than below. */
  predicate OpensAbove(rect: Rect, innerHeight: int) {
    SpaceBelow(rect, innerHeight) < DropdownHeight && SpaceAbove(rect) > SpaceBelow(rect, innerHeight)
  }

  /** Where `handleToggle` places the list when it opens: flush below the trigger, or flush above it. */
  function DropdownPosition(rect: Rect, innerHeight: int, scrollX: int, scrollY: int): (p: Position)
    ensures OpensAbove(rect, innerHeight) ==> p.top + DropdownHeight == rect.top + scrollY
    ensures !OpensAbove(rect, innerHeight) ==> p.top == rect.bottom + scrollY
    ensures p.left == rect.left + scrollX && p.width == rect.width
  {
    var top := if OpensAbove(rect, innerHeight) then rect.top + scrollY - DropdownHeight
               else rect.bottom + scrollY;
    Position(top, rect.left + scrollX, rect.width)
  }

  function Min(a: int, b: int): int { if a < b then a else b }

  /** How many of the list's 200 pixels fit in the room on one side. */
  function Visible(space: int): int { Min(DropdownHeight, space) }

  /** The chosen side never shows less of the list than the other side would, and a list with full room below opens below. */
  lemma PlacementShowsAtLeastAsMuch(rect: Rect, innerHeight: int)
    ensures OpensAbove(rect, innerHeight) ==> Visible(SpaceAbove(rect)) >= Visible(SpaceBelow(rect, innerHeight))
    ensures !OpensAbove(rect, innerHeight) ==>
      Visible(SpaceBelow(rect, innerHeight)) >= Visible(SpaceAbove(rect)) || SpaceBelow(rect, innerHeight) >= DropdownHeight
    ensures SpaceBelow(rect, innerHeight) >= DropdownHeight ==> !OpensAbove(rect, innerHeight)
  {
  }

  /**
   * Where a document `mousedown` lands: on the trigger (inside the element
   * `selectRef` points at), on one of the listed options, or anywhere else.
   * The list is rendered through a portal into `document.body`, so an option
   * is not a descendant of `selectRef`.
   */
  datatype Target = Trigger | ListOption(value: string) | Elsewhere

  /** `selectRef.current.contains(target)` as the DOM answers it: only the trigger is inside. */
  predicate InSelectSubtree(t: Target) {
    t.Trigger?
  }

  /**
   * `isOpen` after a document `mousedown`, as written: an open list closes
   * unless the target is inside `selectRef`. The options are rendered only
   * while `isOpen` holds.
   */
  function OpenAfterPressAsWritten(isOpen: bool, t: Target): (r: bool)
    ensures r ==> isOpen
  {
    isOpen && InSelectSubtree(t)
  }

  /**
   * As written, pressing the mouse on an option of an open list already
   * closes it, so the option is no longer rendered when the button is
   * released and its `click` never reaches `handleOptionClick`.
   */
  lemma OptionPressClosesList(v: string)
    ensures !OpenAfterPressAsWritten(true, ListOption(v))
  {
  }

  /** Inside the widget for the purpose of closing: the trigger or the portaled list. */
  predicate InsideWidget(t: Target) {
    t.Trigger? || t.ListOption?
  }

  /** `isOpen` after a document `mousedown`, with the portaled list counted as inside. */
  function OpenAfterPress(isOpen: bool, t: Target): (r: bool)
    ensures r ==> isOpen
  {
    isOpen && InsideWidget(t)
  }

  /**
   * With the portaled list counted as inside, a press on an option keeps an
   * open list open for its click, only a press elsewhere closes it, and this
   * differs from the code exactly on the options.
   */
  lemma OnlyOutsidePressCloses(isOpen: bool, t: Target)
    ensures OpenAfterPress(isOpen, t) <==> isOpen && t != Elsewhere
    ensures isOpen ==> (OpenAfterPress(isOpen, t) != OpenAfterPressAsWritten(isOpen, t) <==> t.ListOption?)
  {
  }

  /** The dropdown's state: `isOpen`, `dropdownPosition`, and the values passed to `onChange`, oldest first. */
  class Select {
    var isOpen: bool
    var position: Position
    var changes: seq<string>

    constructor ()
      ensures !isOpen && position == Position(0, 0, 0) && changes == []
    {
      isOpen := false;
      position := Position(0, 0, 0);
      changes := [];
    }

    /**
     * `handleToggle`: flips `isOpen`; when opening a mounted trigger, first
     * places the list from the trigger's rectangle, the viewport height and
     * the scroll offsets.
     */
    method Toggle(mounted: bool, rect: Rect, innerHeight: int, scrollX: int, scrollY: int)
      modifies this`isOpen, this`position
      ensures isOpen == !old(isOpen)
      ensures !old(isOpen) && mounted ==> position == DropdownPosition(rect, innerHeight, scrollX, scrollY)
      ensures old(isOpen) || !mounted ==> position == old(position)
    {
      if !isOpen && mounted {
        var spaceBelow := innerHeight - rect.bottom;
        var spaceAbove := rect.top;
        var top := rect.bottom + scrollY;
        if spaceBelow < DropdownHeight && spaceAbove > spaceBelow {
          top := rect.top + scrollY - DropdownHeight;
        }
        position := Position(top, rect.left + scrollX, rect.width);
      }
      isOpen := !isOpen;
    }

    /** `handleOptionClick`: the chosen value goes to `onChange` and the list closes. */
    method OptionClick(value: string)
      modifies this`isOpen, this`changes
      ensures !isOpen && changes == old(changes) + [value]
    {
      changes := changes + [value];
      isOpen := false;
    }

    /** A key pressed in the document: while open, Escape closes the list. */
    method KeyDown(key: string)
      modifies this`isOpen
      ensures isOpen == (old(isOpen) && key != "Escape")
    {
      if isOpen && key == "Escape" {
        isOpen := false;
      }
    }

    /**
     * `handleClickOutside`, while the list is open: a press whose target is
     * not inside `selectRef` closes it. The options are portaled out of that
     * element, so a press on one closes the list too (`OptionPressClosesList`).
     */
    method MouseDown(target: Target)
      modifies this`isOpen
      ensures isOpen == OpenAfterPressAsWritten(old(isOpen), target)
    {
      if isOpen && !InSelectSubtree(target) {
        isOpen := false;
      }
    }
  }
}
