/**
 * The event edit form (src/components/EventEditModal.tsx): its field values,
 * its per-field errors, validation on submit and the replacement event it
 * hands to `onSave`.
 */
module EditModal {
  import opened Wrappers
  import opened Types

  /** The characters `String.prototype.trim` removes that the model knows about. */
  const Whitespace: set<char> :=
    {' ', '\t', '\n', '\r', '\U{B}', '\U{C}', '\U{A0}', '\U{FEFF}', '\U{2028}', '\U{2029}', '\U{3000}'}

  predicate IsWhitespace(c: char) {
    c in Whitespace
  }

  /** Every character of `s` is whitespace (the empty string included). */
  predicate Blank(s: string) {
    forall i :: 0 <= i < |s| ==> IsWhitespace(s[i])
  }

  /** The number of whitespace characters `s` starts with. */
  function LeadCount(s: string): (k: nat)
    ensures k <= |s|
    ensures forall i :: 0 <= i < k ==> IsWhitespace(s[i])
    ensures k < |s| ==> !IsWhitespace(s[k])
  {
    if |s| > 0 && IsWhitespace(s[0]) then
      var k := LeadCount(s[1..]);
      assert forall i :: 1 <= i < k + 1 ==> s[i] == s[1..][i - 1];
      1 + k
    else 0
  }

  /** The number of whitespace characters `s` ends with. */
  function TrailCount(s: string): (k: nat)
    ensures k <= |s|
    ensures forall i :: |s| - k <= i < |s| ==> IsWhitespace(s[i])
    ensures k < |s| ==> !IsWhitespace(s[|s| - 1 - k])
  {
    if |s| > 0 && IsWhitespace(s[|s| - 1]) then
      var k := TrailCount(s[..|s| - 1]);
      assert forall i :: |s| - 1 - k <= i < |s| - 1 ==> s[i] == s[..|s| - 1][i];
      1 + k
    else 0
  }

  /**
   * Where `s.trim()` cuts: everything before `lo` and from `hi` on is
   * whitespace, and what is kept, if anything, starts and ends with a
   * character that is not.
   */
  function TrimBounds(s: string): (b: (nat, nat))
    ensures b.0 <= b.1 <= |s|
    ensures forall i :: 0 <= i < b.0 ==> IsWhitespace(s[i])
    ensures forall i :: b.1 <= i < |s| ==> IsWhitespace(s[i])
    ensures b.0 < b.1 ==> !IsWhitespace(s[b.0]) && !IsWhitespace(s[b.1 - 1])
  {
    var lo := LeadCount(s);
    var rest := s[lo..];
    var tail := TrailCount(rest);
    var hi := |s| - tail;
    assert forall i :: hi <= i < |s| ==> s[i] == rest[i - lo];
    assert lo < hi ==> s[lo] == rest[0] && s[hi - 1] == rest[|rest| - 1 - tail];
    (lo, hi)
  }

  /** `s.trim()`: `s` without its leading and trailing whitespace. */
  function Trim(s: string): (r: string)
    ensures |r| <= |s|
    ensures r != [] ==> !IsWhitespace(r[0]) && !IsWhitespace(r[|r| - 1])
    ensures r == [] <==> Blank(s)
    ensures exists lo, hi :: 0 <= lo <= hi <= |s| && r == s[lo..hi]
                          && (forall i :: 0 <= i < lo ==> IsWhitespace(s[i]))
                          && (forall i :: hi <= i < |s| ==> IsWhitespace(s[i]))
  {
    var b := TrimBounds(s);
    assert b.0 < b.1 ==> !Blank(s);
    s[b.0..b.1]
  }

  /** Trimming a trimmed string changes nothing. */
  lemma TrimIdempotent(s: string)
    ensures Trim(Trim(s)) == Trim(s)
  {
    var t := Trim(s);
    if t != [] {
      assert LeadCount(t) == 0;
      assert TrailCount(t) == 0;
    }
  }

  /** The names of the form's fields, which are also the keys of its error map. */
  datatype Field = Title | Type | StaffId | StartDate | EndDate | AllDay

  /** A field's value as the form holds it. */
  datatype Value = Text(s: string) | Kind(c: Category) | Instant(t: int) | Flag(b: bool)

  /**
   * `formData`. The date fields are held as the instants they denote; the
   * `datetime-local` strings they are typed as are not part of this model.
   */
  datatype FormData = FormData(title: string, category: Category, staffId: string,
                               start: int, end: int, allDay: bool)

  /** `formData[name]` */
  function Get(form: FormData, f: Field): Value {
    match f
    case Title => Text(form.title)
    case Type => Kind(form.category)
    case StaffId => Text(form.staffId)
    case StartDate => Instant(form.start)
    case EndDate => Instant(form.end)
    case AllDay => Flag(form.allDay)
  }

  /** The kind of value each field's input delivers. */
  predicate Fits(f: Field, v: Value) {
    match f
    case Title => v.Text?
    case Type => v.Kind?
    case StaffId => v.Text?
    case StartDate => v.Instant?
    case EndDate => v.Instant?
    case AllDay => v.Flag?
  }

  /** `{ ...prev, [name]: value }`: the named field takes the new value, every other field keeps its own. */
  function SetField(form: FormData, f: Field, v: Value): (r: FormData)
    requires Fits(f, v)
    ensures Get(r, f) == v
    ensures forall g :: g != f ==> Get(r, g) == Get(form, g)
  {
    match f
    case Title => form.(title := v.s)
    case Type => form.(category := v.c)
    case StaffId => form.(staffId := v.s)
    case StartDate => form.(start := v.t)
    case EndDate => form.(end := v.t)
    case AllDay => form.(allDay := v.b)
  }

  /** `errors[name]` is truthy: the key is present with a non-empty message. */
  predicate HasError(errors: map<Field, string>, f: Field) {
    f in errors && errors[f] != ""
  }

  /** The error clearing of a change handler: a set error is replaced by the empty message; nothing else moves. */
  function ClearError(errors: map<Field, string>, f: Field): (r: map<Field, string>)
    ensures !HasError(r, f)
    ensures forall g :: g != f ==> (g in r <==> g in errors) && (g in errors ==> r[g] == errors[g])
    ensures !HasError(errors, f) ==> r == errors
    ensures r.Keys == errors.Keys
  {
    if HasError(errors, f) then errors[f := ""] else errors
  }

  const TitleRequired: string := "Title is required"
  const EndBeforeStart: string := "End time must be after start time"

  /** The error map `validateForm` builds for a form. */
  function Validate(form: FormData): map<Field, string> {
    var withTitle := if Trim(form.title) == "" then map[Title := TitleRequired] else map[];
    if form.start >= form.end then withTitle[EndDate := EndBeforeStart] else withTitle
  }

  /**
   * Validation records a title error exactly when the title is blank, an end
   * error exactly when the start is not before the end, nothing else, and
   * passes exactly when neither is recorded.
   */
  lemma ValidateSpec(form: FormData)
    ensures Title in Validate(form) <==> Blank(form.title)
    ensures EndDate in Validate(form) <==> form.start >= form.end
    ensures Validate(form).Keys <= {Title, EndDate}
    ensures forall f :: f in Validate(form) ==> HasError(Validate(form), f)
    ensures |Validate(form)| == 0 <==> !Blank(form.title) && form.start < form.end
  {
    var m := Validate(form);
    if Title in m || EndDate in m {
      assert |m| > 0;
    } else {
      assert m.Keys == {};
    }
  }

  /** `formData.staffId || undefined` */
  function StaffRef(staffId: string): (r: Option<string>)
    ensures r.None? <==> staffId == ""
    ensures r.Some? ==> r.value == staffId
  {
    if staffId == "" then None else Some(staffId)
  }

  /** `updatedEvent`: the edited event with the form's values, id kept and title trimmed. */
  function BuildUpdated(event: Event, form: FormData): (r: Event)
    ensures r.id == event.id
    ensures r.title == Trim(form.title) && r.category == form.category
    ensures r.staffId == StaffRef(form.staffId)
    ensures r.start == form.start && r.end == form.end && r.allDay == Some(form.allDay)
  {
    event.(title := Trim(form.title), category := form.category, staffId := StaffRef(form.staffId),
           start := form.start, end := form.end, allDay := Some(form.allDay))
  }

  /**
   * A form that passes validation saves an event with the same id, a
   * non-empty title without surrounding whitespace, a start before its end,
   * and no empty staff reference.
   */
  lemma SavedEventIsWellFormed(event: Event, form: FormData)
    requires |Validate(form)| == 0
    ensures var r := BuildUpdated(event, form);
      && r.id == event.id
      && r.title != "" && Trim(r.title) == r.title
      && r.start < r.end
      && r.staffId != Some("")
  {
    ValidateSpec(form);
    TrimIdempotent(form.title);
  }

  /** `formData` as the form is (re)initialised from an event. */
  function FormFrom(event: Event): (r: FormData)
    ensures r.title == event.title && r.category == event.category
    ensures r.staffId == (if event.staffId.Some? then event.staffId.value else "")
    ensures r.allDay <==> event.allDay == Some(true)
  {
    FormData(event.title, event.category, event.staffId.GetOr(""), event.start, event.end,
             event.allDay.GetOr(false))
  }

  /** A call the form makes to its owner. */
  datatype Callback = Saved(event: Event) | Closed

  /**
   * The modal's state: the `event` and `isOpen` props of the last render,
   * `formData`, `errors`, and the `onSave`/`onClose` calls it has made,
   * oldest first.
   */
  class Modal {
    var event: Event
    var open: bool
    var form: FormData
    var errors: map<Field, string>
    var calls: seq<Callback>

    /** The first render: state initialised from the event; the reset effect, run on mount, gives the same form. */
    constructor (e: Event, isOpen: bool)
      ensures event == e && open == isOpen && form == FormFrom(e) && errors == map[] && calls == []
    {
      event := e;
      open := isOpen;
      form := FormFrom(e);
      errors := map[];
      calls := [];
    }

    /**
     * A later render with props `e` and `isOpen`. The reset effect runs only
     * when one of its dependencies differs from the previous render, and then
     * resets the fields from the event and empties the errors only if the
     * modal is open; otherwise the form keeps what the user typed.
     */
    method Rerender(e: Event, isOpen: bool)
      modifies this
      ensures event == e && open == isOpen && calls == old(calls)
      ensures isOpen && (!old(open) || e != old(event)) ==> form == FormFrom(e) && errors == map[]
      ensures !(isOpen && (!old(open) || e != old(event))) ==> form == old(form) && errors == old(errors)
    {
      var changed := isOpen != open || e != event;
      event := e;
      open := isOpen;
      if changed && isOpen {
        form := FormFrom(e);
        errors := map[];
      }
    }

    /** `handleInputChange` / `handleSelectChange`: only field `f` changes, and only its error is cleared, if one was set. */
    method Change(f: Field, v: Value)
      requires Fits(f, v)
      modifies this`form, this`errors
      ensures form == SetField(old(form), f, v)
      ensures errors == ClearError(old(errors), f)
    {
      form := SetField(form, f, v);
      if f in errors && errors[f] != "" {
        errors := errors[f := ""];
      }
    }

    /** `validateForm`: fills a fresh error map, stores it, and reports whether it stayed empty. */
    method ValidateForm() returns (ok: bool)
      modifies this`errors
      ensures errors == Validate(form)
      ensures ok <==> !Blank(form.title) && form.start < form.end
    {
      var newErrors: map<Field, string> := map[];
      if Trim(form.title) == "" {
        newErrors := newErrors[Title := TitleRequired];
      }
      if form.start >= form.end {
        newErrors := newErrors[EndDate := EndBeforeStart];
      }
      errors := newErrors;
      ValidateSpec(form);
      ok := |newErrors| == 0;
    }

    /** `handleSubmit`: an invalid form calls nothing; a valid one saves the replacement, then closes. */
    method Submit()
      modifies this`errors, this`calls
      ensures errors == Validate(form)
      ensures |errors| > 0 ==> calls == old(calls)
      ensures |errors| == 0 ==> calls == old(calls) + [Saved(BuildUpdated(event, form)), Closed]
    {
      var ok := ValidateForm();
      ValidateSpec(form);
      if !ok {
        return;
      }
      var updated := BuildUpdated(event, form);
      calls := calls + [Saved(updated)];
      calls := calls + [Closed];
    }

    /** `handleBackdropClick`: a click on the backdrop itself, not on the dialog, closes. */
    method BackdropClick(onBackdrop: bool)
      modifies this`calls
      ensures calls == old(calls) + (if onBackdrop then [Closed] else [])
    {
      if onBackdrop {
        calls := calls + [Closed];
      }
    }
  }
}
