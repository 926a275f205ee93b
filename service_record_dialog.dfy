/** The service-record dialog of src/app/services/components/ServiceRecordDialog.tsx: the
    form values, the schema, the values the form starts with and is reset to when the
    dialog opens, and the record that a valid submit hands to the page. */
module ServiceRecordDialog {
  import opened Wrappers
  import opened Records
  import RecordList

  /** The form values. `serviceCount` and `cost` are what the schema's number coercion
      makes of the field: `None` stands for NaN. */
  datatype ServiceForm = ServiceForm(
    date: Option<Date>,
    customerName: string,
    contactNo: string,
    bikeModel: string,
    bikeNo: string,
    serviceDetails: string,
    serviceCount: Option<real>,
    cost: Option<real>)

  /** The schema: every text field present, at least one service, a non-negative cost and
      a date. NaN fails both number checks. */
  predicate Schema(f: ServiceForm) {
    && f.customerName != "" && f.contactNo != "" && f.bikeModel != "" && f.bikeNo != ""
    && f.serviceDetails != ""
    && f.serviceCount.Some? && f.serviceCount.value >= 1.0
    && f.cost.Some? && f.cost.value >= 0.0
    && f.date.Some?
  }

  /** What the schema guarantees of a stored record. */
  predicate SchemaHolds(r: ServiceRecord) {
    && r.customerName != "" && r.contactNo != "" && r.bikeModel != "" && r.bikeNo != ""
    && r.serviceDetails != ""
    && r.serviceCount >= 1.0 && r.cost >= 0.0
  }

  /** `n || fallback` on a number: 0 is falsy and gives way to the fallback. */
  function OrNumber(n: real, fallback: real): (r: real)
    ensures n != 0.0 ==> r == n
    ensures n == 0.0 ==> r == fallback
  {
    if n != 0.0 then n else fallback
  }

  /** The values a record being edited puts in the form: its fields, with a zero service
      count shown as 1. */
  function EditValues(r: ServiceRecord): (f: ServiceForm)
    ensures f.date == Some(r.date)
    ensures f.customerName == r.customerName && f.contactNo == r.contactNo
    ensures f.bikeModel == r.bikeModel && f.bikeNo == r.bikeNo && f.serviceDetails == r.serviceDetails
    ensures f.serviceCount == Some(if r.serviceCount == 0.0 then 1.0 else r.serviceCount)
    ensures f.cost == Some(r.cost)
  {
    ServiceForm(Some(r.date), r.customerName, r.contactNo, r.bikeModel, r.bikeNo, r.serviceDetails,
                Some(OrNumber(r.serviceCount, 1.0)), Some(OrNumber(r.cost, 0.0)))
  }

  /** The blank form of a new record, dated `today`. */
  function NewValues(today: Date): (f: ServiceForm)
    ensures f.date == Some(today) && f.serviceCount == Some(1.0) && f.cost == Some(0.0)
    ensures f.customerName == "" && f.contactNo == "" && f.bikeModel == "" && f.bikeNo == ""
    ensures f.serviceDetails == ""
  {
    ServiceForm(Some(today), "", "", "", "", "", Some(1.0), Some(0.0))
  }

  /** The values the form starts with when the dialog mounts: the edited record's values,
      or blank fields without a date. */
  function InitialValues(defaults: Option<ServiceRecord>): (f: ServiceForm)
    ensures defaults.Some? ==> f == EditValues(defaults.value)
    ensures defaults.None? ==> f == NewValues(0).(date := None)
  {
    match defaults
    case Some(r) => EditValues(r)
    case None => ServiceForm(None, "", "", "", "", "", Some(1.0), Some(0.0))
  }

  /** The open effect: an open dialog that edits a record is reset to that record's values,
      one that creates a record to a blank form dated `today`; in every other case the
      form keeps `current`. */
  function OpenValues(current: ServiceForm, isOpen: bool, isEditing: bool,
                      defaults: Option<ServiceRecord>, today: Date): (f: ServiceForm)
    ensures isOpen && isEditing && defaults.Some? ==> f == EditValues(defaults.value)
    ensures isOpen && !isEditing ==> f == NewValues(today)
    ensures !isOpen || (isEditing && defaults.None?) ==> f == current
  {
    if !isOpen then current
    else if isEditing && defaults.Some? then EditValues(defaults.value)
    else if !isEditing then NewValues(today)
    else current
  }

  /** The submit handler behind `handleSubmit`: when the values pass the schema, the record
      handed to the page, carrying the edited record's id or else `freshId`; otherwise
      nothing. Every record it hands over satisfies the schema. */
  function Submit(f: ServiceForm, editedId: Option<string>, freshId: string): (r: Option<ServiceRecord>)
    ensures r.Some? <==> Schema(f)
    ensures r.Some? ==> SchemaHolds(r.value)
    ensures r.Some? ==>
      && r.value.id == RecordList.KeptOrFreshId(editedId, freshId)
      && f.date == Some(r.value.date)
      && r.value.customerName == f.customerName && r.value.contactNo == f.contactNo
      && r.value.bikeModel == f.bikeModel && r.value.bikeNo == f.bikeNo
      && r.value.serviceDetails == f.serviceDetails
      && f.serviceCount == Some(r.value.serviceCount) && f.cost == Some(r.value.cost)
  {
    if !Schema(f) then None
    else
      Some(ServiceRecord(RecordList.KeptOrFreshId(editedId, freshId), f.date.value, f.customerName,
                         f.contactNo, f.bikeModel, f.bikeNo, f.serviceDetails,
                         f.serviceCount.value, f.cost.value))
  }

  /** Opening a valid record for editing and submitting it unchanged hands back the same
      record: the edit does not alter what it did not touch. */
  lemma EditRoundTrip(r: ServiceRecord, current: ServiceForm, today: Date, freshId: string)
    requires SchemaHolds(r) && r.id != ""
    ensures Submit(OpenValues(current, true, true, Some(r), today), Some(r.id), freshId) == Some(r)
  {
  }

  /** A record whose service count is 0 (not valid) opens with a count of 1, and so can be
      submitted if its other fields are valid. */
  lemma ZeroCountOpensAsOne(r: ServiceRecord, freshId: string)
    requires r.serviceCount == 0.0 && r.cost >= 0.0
    requires r.customerName != "" && r.contactNo != "" && r.bikeModel != "" && r.bikeNo != ""
    requires r.serviceDetails != ""
    ensures !SchemaHolds(r)
    ensures Submit(EditValues(r), Some(r.id), freshId).Some?
    ensures Submit(EditValues(r), Some(r.id), freshId).value.serviceCount == 1.0
  {
  }

  /** The blank form of a new record is rejected until the text fields are filled in. */
  lemma NewFormRejected(today: Date, editedId: Option<string>, freshId: string)
    ensures Submit(NewValues(today), editedId, freshId).None?
  {
  }

  /** When editing, the reset on open gives the values the form already started with. */
  lemma EditOpenMatchesInitial(r: ServiceRecord, current: ServiceForm, today: Date)
    ensures OpenValues(current, true, true, Some(r), today) == InitialValues(Some(r))
  {
  }

  /** A new record starts without a date, which the schema rejects; the open effect then
      dates it `today`. */
  lemma NewInitialNeedsOpen(today: Date)
    ensures InitialValues(None).date.None? && !Schema(InitialValues(None))
    ensures OpenValues(InitialValues(None), true, false, None, today).date == Some(today)
  {
  }
}
