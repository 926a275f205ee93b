/** The expense dialog of src/app/expenses/components/ExpenseDialog.tsx: the form values,
    the schema, the values the form starts with, and the expense that a valid submit hands
    to the page. */
module ExpenseDialog {
  import opened Wrappers
  import opened Records
  import RecordList

  /** The categories the picker offers. */
  const ExpenseCategories: seq<string> :=
    ["Rent", "Utilities", "Supplies", "Salaries", "Marketing", "Maintenance", "Other"]

  /** The smallest amount the schema accepts. */
  const MinAmount: real := 0.01

  /** The form values. A text field that was never set is `None` (undefined); `amount` is
      what the schema's number coercion makes of the field, `None` standing for NaN. */
  datatype ExpenseForm = ExpenseForm(
    date: Option<Date>,
    category: Option<string>,
    description: Option<string>,
    amount: Option<real>)

  /** The schema: a date, a non-empty category and description, and an amount of at least
      0.01. Any non-empty category passes, not only the picker's. */
  predicate Schema(f: ExpenseForm) {
    && f.date.Some?
    && f.category.Some? && f.category.value != ""
    && f.description.Some? && f.description.value != ""
    && f.amount.Some? && f.amount.value >= MinAmount
  }

  /** What the schema guarantees of a stored expense. */
  predicate SchemaHolds(e: Expense) {
    e.category != "" && e.description != "" && e.amount >= MinAmount
  }

  /** The values the form starts with when the dialog mounts, with `now` for a new
      expense: the edited expense's fields, or a blank form dated `now`
      with a zero amount and no category or description. */
  function InitialValues(defaults: Option<Expense>, now: Date): (f: ExpenseForm)
    ensures defaults.Some? ==>
      f == ExpenseForm(Some(defaults.value.date), Some(defaults.value.category),
                       Some(defaults.value.description), Some(defaults.value.amount))
    ensures defaults.None? ==> f == ExpenseForm(Some(now), None, None, Some(0.0))
  {
    match defaults
    case Some(e) => ExpenseForm(Some(e.date), Some(e.category), Some(e.description), Some(e.amount))
    case None => ExpenseForm(Some(now), None, None, Some(0.0))
  }

  /** The submit handler behind `handleSubmit`: when the values pass the schema, the
      expense handed to the page, carrying the edited expense's id or else `freshId`;
      otherwise nothing. Every expense it hands over satisfies the schema. */
  function Submit(f: ExpenseForm, editedId: Option<string>, freshId: string): (r: Option<Expense>)
    ensures r.Some? <==> Schema(f)
    ensures r.Some? ==> SchemaHolds(r.value)
    ensures r.Some? ==>
      && r.value.id == RecordList.KeptOrFreshId(editedId, freshId)
      && f.date == Some(r.value.date)
      && f.category == Some(r.value.category) && f.description == Some(r.value.description)
      && f.amount == Some(r.value.amount)
  {
    if !Schema(f) then None
    else
      Some(Expense(RecordList.KeptOrFreshId(editedId, freshId), f.date.value, f.category.value,
                   f.description.value, f.amount.value))
  }

  /** Opening a valid expense for editing and submitting it unchanged hands back the same
      expense. */
  lemma EditRoundTrip(e: Expense, now: Date, freshId: string)
    requires SchemaHolds(e) && e.id != ""
    ensures Submit(InitialValues(Some(e), now), Some(e.id), freshId) == Some(e)
  {
  }

  /** A new expense cannot be submitted as it opens: it has no category, no description
      and a zero amount. */
  lemma NewFormRejected(now: Date, editedId: Option<string>, freshId: string)
    ensures Submit(InitialValues(None, now), editedId, freshId).None?
  {
  }

  /** Filling in a new form with any non-empty category, a description and an amount of
      at least 0.01 gives a new expense with exactly those values, dated when the dialog
      opened, under the fresh id: the schema does not restrict the category to the
      picker's names, though every picker name passes. */
  lemma NewFormFilledIn(now: Date, category: string, description: string, amount: real, freshId: string)
    requires category != "" && description != "" && amount >= MinAmount
    ensures var f := InitialValues(None, now).(category := Some(category),
                                               description := Some(description), amount := Some(amount));
      Submit(f, None, freshId) == Some(Expense(freshId, now, category, description, amount))
    ensures forall k :: 0 <= k < |ExpenseCategories| ==> ExpenseCategories[k] != ""
  {
  }
}
