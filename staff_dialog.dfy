/** The staff dialog of src/app/staff/components/StaffDialog.tsx: the form values, the
    schema, the values the form starts with and is reset to when the dialog opens, and
    the staff member that a valid submit hands to the page. */
module StaffDialog {
  import opened Wrappers
  import opened Records
  import RecordList

  /** An optional number field as the schema sees it: left undefined, or coerced to a
      number (`None` standing for NaN). */
  datatype OptionalNumber = Undefined | Coerced(number: Option<real>)

  /** The form values. `salary` is what the number coercion makes of the field, `None`
      standing for NaN; an optional text field may be undefined (`None`). */
  datatype StaffForm = StaffForm(
    name: string,
    designation: string,
    joiningDate: Option<Date>,
    salary: Option<real>,
    advanceSalary: OptionalNumber,
    contactNo: Option<string>,
    address: Option<string>)

  /** The schema: a name, a designation, a joining date and a non-negative salary; the
      advance may be left undefined but, when given, must be a non-negative number.
      Contact number and address are free. */
  predicate Schema(f: StaffForm) {
    && f.name != "" && f.designation != ""
    && f.joiningDate.Some?
    && f.salary.Some? && f.salary.value >= 0.0
    && (f.advanceSalary.Coerced? ==> f.advanceSalary.number.Some? && f.advanceSalary.number.value >= 0.0)
  }

  /** What the schema guarantees of a stored staff member. */
  predicate SchemaHolds(s: StaffMember) {
    s.name != "" && s.designation != "" && s.salary >= 0.0 && s.advanceSalary >= 0.0
  }

  /** `text || ""` on an optional text. */
  function TextOrEmpty(t: Option<string>): (r: string)
    ensures t.Some? ==> r == t.value
    ensures t.None? ==> r == ""
  {
    t.GetOr("")
  }

  /** The values the form starts with when the dialog mounts: the edited member's values
      (a missing contact number or address shown empty), or blank fields without a
      joining date. */
  function InitialValues(defaults: Option<StaffMember>): (f: StaffForm)
    ensures defaults.Some? ==>
      var s := defaults.value;
      f == StaffForm(s.name, s.designation, Some(s.joiningDate), Some(s.salary), Coerced(Some(s.advanceSalary)),
                     Some(TextOrEmpty(s.contactNo)), Some(TextOrEmpty(s.address)))
    ensures defaults.None? ==> f == StaffForm("", "", None, Some(0.0), Coerced(Some(0.0)), Some(""), Some(""))
  {
    match defaults
    case Some(s) =>
      StaffForm(s.name, s.designation, Some(s.joiningDate), Some(s.salary), Coerced(Some(s.advanceSalary)),
                Some(TextOrEmpty(s.contactNo)), Some(TextOrEmpty(s.address)))
    case None => StaffForm("", "", None, Some(0.0), Coerced(Some(0.0)), Some(""), Some(""))
  }

  /** The reset values of a member being edited: its own fields, contact number and
      address included as they are. */
  function EditValues(s: StaffMember): (f: StaffForm)
    ensures f.name == s.name && f.designation == s.designation && f.joiningDate == Some(s.joiningDate)
    ensures f.salary == Some(s.salary) && f.advanceSalary == Coerced(Some(s.advanceSalary))
    ensures f.contactNo == s.contactNo && f.address == s.address
  {
    StaffForm(s.name, s.designation, Some(s.joiningDate), Some(s.salary), Coerced(Some(s.advanceSalary)),
              s.contactNo, s.address)
  }

  /** The blank form of a new member, joining `today`. */
  function NewValues(today: Date): (f: StaffForm)
    ensures f.name == "" && f.designation == "" && f.joiningDate == Some(today)
    ensures f.salary == Some(0.0) && f.advanceSalary == Coerced(Some(0.0))
    ensures f.contactNo == Some("") && f.address == Some("")
  {
    StaffForm("", "", Some(today), Some(0.0), Coerced(Some(0.0)), Some(""), Some(""))
  }

  /** The open effect: an open dialog that edits a member is reset to that member's
      values, one that adds a member to a blank form dated `today`; in every other case
      the form keeps `current`. */
  function OpenValues(current: StaffForm, isOpen: bool, isEditing: bool,
                      defaults: Option<StaffMember>, today: Date): (f: StaffForm)
    ensures isOpen && isEditing && defaults.Some? ==> f == EditValues(defaults.value)
    ensures isOpen && !isEditing ==> f == NewValues(today)
    ensures !isOpen || (isEditing && defaults.None?) ==> f == current
  {
    if !isOpen then current
    else if isEditing && defaults.Some? then EditValues(defaults.value)
    else if !isEditing then NewValues(today)
    else current
  }

  /** The advance the page receives: `advanceSalary || 0`, so an undefined advance is 0. */
  function SubmittedAdvance(a: OptionalNumber): (r: real)
    requires a.Coerced? ==> a.number.Some?
    ensures a.Undefined? ==> r == 0.0
    ensures a.Coerced? ==> r == a.number.value
  {
    match a
    case Undefined => 0.0
    case Coerced(n) => n.value
  }

  /** The submit handler behind `handleSubmit`: when the values pass the schema, the
      member handed to the page, carrying the edited member's id or else `freshId`, with
      an undefined advance stored as 0; otherwise nothing. Every member it hands over
      satisfies the schema. */
  function Submit(f: StaffForm, editedId: Option<string>, freshId: string): (r: Option<StaffMember>)
    ensures r.Some? <==> Schema(f)
    ensures r.Some? ==> SchemaHolds(r.value)
    ensures r.Some? ==>
      && r.value.id == RecordList.KeptOrFreshId(editedId, freshId)
      && r.value.name == f.name && r.value.designation == f.designation
      && f.joiningDate == Some(r.value.joiningDate)
      && f.salary == Some(r.value.salary)
      && (f.advanceSalary.Undefined? ==> r.value.advanceSalary == 0.0)
      && (f.advanceSalary.Coerced? ==> f.advanceSalary.number == Some(r.value.advanceSalary))
      && r.value.contactNo == f.contactNo && r.value.address == f.address
  {
    if !Schema(f) then None
    else
      Some(StaffMember(RecordList.KeptOrFreshId(editedId, freshId), f.name, f.designation,
                       f.joiningDate.value, f.salary.value, SubmittedAdvance(f.advanceSalary),
                       f.contactNo, f.address))
  }

  /** Opening a valid member for editing and submitting it unchanged hands back the same
      member, optional contact number and address included. */
  lemma EditRoundTrip(s: StaffMember, current: StaffForm, today: Date, freshId: string)
    requires SchemaHolds(s) && s.id != ""
    ensures Submit(OpenValues(current, true, true, Some(s), today), Some(s.id), freshId) == Some(s)
  {
  }

  /** The values the form starts with differ from the reset values only where the member
      has no contact number or address: these start as empty text but are reset to
      undefined. The second clause is what a submit from the start values would store; the
      staff page mounts the dialog only while it is open and the open effect resets the
      form at once, so the app never submits from the start values. */
  lemma InitialDiffersFromReset(s: StaffMember, current: StaffForm, today: Date, freshId: string)
    requires SchemaHolds(s) && s.id != "" && s.contactNo.None?
    ensures InitialValues(Some(s)) != OpenValues(current, true, true, Some(s), today)
    ensures Submit(InitialValues(Some(s)), Some(s.id), freshId).value.contactNo == Some("")
  {
  }

  /** A member added with the advance left undefined is stored with an advance of 0. */
  lemma UndefinedAdvanceIsZero(f: StaffForm, editedId: Option<string>, freshId: string)
    requires Schema(f) && f.advanceSalary.Undefined?
    ensures Submit(f, editedId, freshId).value.advanceSalary == 0.0
  {
  }

  /** The blank form of a new member is rejected until name and designation are filled in. */
  lemma NewFormRejected(today: Date, editedId: Option<string>, freshId: string)
    ensures Submit(NewValues(today), editedId, freshId).None?
    ensures Submit(InitialValues(None), editedId, freshId).None?
  {
  }
}
