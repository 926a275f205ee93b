/** The stock-item dialog of src/app/stock/components/StockItemDialog.tsx: the form values,
    the schema, the values the form starts with, and the item that a valid submit hands
    to the page. */
module StockItemDialog {
  import opened Wrappers
  import opened Records
  import RecordList

  /** The categories the picker offers. */
  const StockCategories: seq<string> := ["Lubricants", "Spare Parts", "Accessories", "Tools", "Apparel", "Other"]

  /** The form values. A text field that was never set is `None` (undefined); the two
      numbers are what the schema's number coercion makes of the field, `None` standing
      for NaN. */
  datatype StockForm = StockForm(
    name: Option<string>,
    category: Option<string>,
    quantityInStock: Option<real>,
    price: Option<real>)

  /** The schema: a name, and a non-negative quantity and price; the category is optional. */
  predicate Schema(f: StockForm) {
    && f.name.Some? && f.name.value != ""
    && f.quantityInStock.Some? && f.quantityInStock.value >= 0.0
    && f.price.Some? && f.price.value >= 0.0
  }

  /** What the schema guarantees of a stored item. */
  predicate SchemaHolds(s: StockItem) {
    s.name != "" && s.quantityInStock >= 0.0 && s.price >= 0.0
  }

  /** The values the form starts with when the dialog mounts: the edited item's fields, or
      no name and no category with zero quantity and price. */
  function InitialValues(defaults: Option<StockItem>): (f: StockForm)
    ensures defaults.Some? ==>
      f == StockForm(Some(defaults.value.name), defaults.value.category,
                     Some(defaults.value.quantityInStock), Some(defaults.value.price))
    ensures defaults.None? ==> f == StockForm(None, None, Some(0.0), Some(0.0))
  {
    match defaults
    case Some(s) => StockForm(Some(s.name), s.category, Some(s.quantityInStock), Some(s.price))
    case None => StockForm(None, None, Some(0.0), Some(0.0))
  }

  /** The submit handler behind `handleSubmit`: when the values pass the schema, the item
      handed to the page, carrying the edited item's id or else `freshId`, its category
      left out when none was chosen; otherwise nothing. Every item it hands over
      satisfies the schema. */
  function Submit(f: StockForm, editedId: Option<string>, freshId: string): (r: Option<StockItem>)
    ensures r.Some? <==> Schema(f)
    ensures r.Some? ==> SchemaHolds(r.value)
    ensures r.Some? ==>
      && r.value.id == RecordList.KeptOrFreshId(editedId, freshId)
      && f.name == Some(r.value.name) && r.value.category == f.category
      && f.quantityInStock == Some(r.value.quantityInStock) && f.price == Some(r.value.price)
  {
    if !Schema(f) then None
    else
      Some(StockItem(RecordList.KeptOrFreshId(editedId, freshId), f.name.value,
                     f.quantityInStock.value, f.price.value, f.category))
  }

  /** Opening a valid item for editing and submitting it unchanged hands back the same
      item, category or none. */
  lemma EditRoundTrip(s: StockItem, freshId: string)
    requires SchemaHolds(s) && s.id != ""
    ensures Submit(InitialValues(Some(s)), Some(s.id), freshId) == Some(s)
  {
  }

  /** A new item cannot be submitted before it is named; once named, it is accepted at
      zero quantity and price with no category or any category at all, not only one of
      the picker's names. */
  lemma NewFormNeedsName(name: string, category: Option<string>, freshId: string)
    requires name != ""
    ensures Submit(InitialValues(None), None, freshId).None?
    ensures Submit(InitialValues(None).(name := Some(name), category := category), None, freshId)
      == Some(StockItem(freshId, name, 0.0, 0.0, category))
  {
  }
}
