/** The pharmacy staff directory and the event-type colour table (src/data/staff.ts). */
module Staff {
  import opened Wrappers
  import opened Types
  import Seqs

  /** `pharmacyStaff`: the six members, in directory order. */
  const PharmacyStaff: seq<StaffMember> := [
    StaffMember("pharmacist-1", "Dr. Sarah Johnson", "#2563eb", "Head Pharmacist"),
    StaffMember("pharmacist-2", "Dr. Michael Chen", "#dc2626", "Pharmacist"),
    StaffMember("tech-1", "Emily Rodriguez", "#16a34a", "Pharmacy Technician"),
    StaffMember("tech-2", "James Wilson", "#ea580c", "Pharmacy Technician"),
    StaffMember("assistant-1", "Lisa Thompson", "#9333ea", "Pharmacy Assistant"),
    StaffMember("cashier-1", "Robert Kim", "#0891b2", "Cashier")
  ]

  /** No two members of a directory share an id. */
  predicate DistinctIds(table: seq<StaffMember>) {
    forall i, j :: 0 <= i < j < |table| ==> table[i].id != table[j].id
  }

  /** `getStaffById`: the first member of the directory with this id; nothing for an unknown id. */
  function GetStaffById(id: string): (r: Option<StaffMember>)
    ensures r.None? <==> forall i :: 0 <= i < |PharmacyStaff| ==> PharmacyStaff[i].id != id
    ensures r.Some? ==> r.value in PharmacyStaff && r.value.id == id
  {
    Seqs.Find(PharmacyStaff, (s: StaffMember) => s.id == id)
  }

  /** The directory's ids are pairwise distinct, so a lookup is unambiguous. */
  lemma PharmacyStaffIdsDistinct()
    ensures |PharmacyStaff| == 6
    ensures DistinctIds(PharmacyStaff)
  {
  }

  /** Looking up the id of any listed member returns exactly that member. */
  lemma LookupOwnId(k: nat)
    requires k < |PharmacyStaff|
    ensures GetStaffById(PharmacyStaff[k].id) == Some(PharmacyStaff[k])
  {
    var m := PharmacyStaff[k];
    var r := GetStaffById(m.id);
    PharmacyStaffIdsDistinct();
    assert r.Some?;
    var i :| 0 <= i < |PharmacyStaff| && PharmacyStaff[i] == r.value && PharmacyStaff[i].id == m.id &&
             forall j :: 0 <= j < i ==> PharmacyStaff[j].id != m.id;
    assert i == k;
  }

  /** An id that no member carries (a dangling `staffId`) looks up as unassigned. */
  lemma DanglingIdIsUnassigned(id: string)
    requires id !in {"pharmacist-1", "pharmacist-2", "tech-1", "tech-2", "assistant-1", "cashier-1"}
    ensures GetStaffById(id) == None
  {
  }

  /** `getEventTypeColors()`: the fallback colour of each event type. */
  function EventTypeColors(): (m: map<Category, string>)
    ensures m.Keys == {Shift, Break, Consultation, Inventory, Training, Meeting}
    ensures |m| == 6
  {
    var m := map[
      Shift := "#1f2937",
      Break := "#6b7280",
      Consultation := "#059669",
      Inventory := "#d97706",
      Training := "#7c3aed",
      Meeting := "#dc2626"];
    assert m.Keys == {Shift, Break, Consultation, Inventory, Training, Meeting};
    m
  }

  /** Every event type has a colour in the table, so the fallback lookup never misses. */
  lemma EveryCategoryHasColour(c: Category)
    ensures c in EventTypeColors()
  {
    match c
    case Shift =>
    case Break =>
    case Consultation =>
    case Inventory =>
    case Training =>
    case Meeting =>
  }
}
