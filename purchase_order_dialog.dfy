/** The purchase-order dialog of
    src/app/purchase-orders/components/PurchaseOrderDialog.tsx: the form values, the
    item and order schemas, the values the form is reset to when the dialog opens, the
    watcher that keeps line totals and the order total in step with the items, and the
    order that a valid submit hands to the page. */
module PurchaseOrderDialog {
  import opened Wrappers
  import opened Records
  import opened Strings
  import RecordList

  /** One item row of the form. `quantity` and `unitPrice` are what `Number(...)` makes of
      the number field: `None` stands for NaN, a non-numeric entry. An emptied field holds
      "", which both `Number` and the schema's coercion turn into 0, so it is `Some(0.0)`. */
  datatype ItemForm = ItemForm(
    id: string,
    productName: string,
    quantity: Option<real>,
    unitPrice: Option<real>,
    totalPrice: real)

  /** The form values. `status` is the text of the status field. */
  datatype OrderForm = OrderForm(
    poNumber: string,
    supplier: string,
    orderDate: Option<Date>,
    expectedDeliveryDate: Option<Date>,
    items: seq<ItemForm>,
    status: string,
    notes: string,
    totalAmount: real)

  /** The status names, in the order the picker lists them. */
  const StatusNames: seq<string> := ["Pending", "Ordered", "Shipped", "Received", "Cancelled"]

  function StatusName(status: PoStatus): string {
    match status
    case Pending => "Pending"
    case Ordered => "Ordered"
    case Shipped => "Shipped"
    case Received => "Received"
    case Cancelled => "Cancelled"
  }

  /** The status enum check of the schema: exactly the five names are accepted. */
  function ParseStatus(text: string): (r: Option<PoStatus>)
    ensures r.Some? <==> text in StatusNames
    ensures r.Some? ==> StatusName(r.value) == text
  {
    if text == "Pending" then Some(Pending)
    else if text == "Ordered" then Some(Ordered)
    else if text == "Shipped" then Some(Shipped)
    else if text == "Received" then Some(Received)
    else if text == "Cancelled" then Some(Cancelled)
    else None
  }

  /** Every status survives the trip through its name. */
  lemma StatusRoundTrip(status: PoStatus)
    ensures ParseStatus(StatusName(status)) == Some(status)
  {
  }

  /** The item schema: a product name, a quantity of at least 1, a non-negative unit price
      and a non-negative line total. A NaN number fails. */
  predicate ItemSchema(item: ItemForm) {
    && item.productName != ""
    && item.quantity.Some? && item.quantity.value >= 1.0
    && item.unitPrice.Some? && item.unitPrice.value >= 0.0
    && item.totalPrice >= 0.0
  }

  /** The order schema: PO number and supplier present, an order date, at least one item,
      every item valid, one of the five statuses and a non-negative total. */
  predicate OrderSchema(f: OrderForm) {
    && f.poNumber != ""
    && f.supplier != ""
    && f.orderDate.Some?
    && |f.items| >= 1
    && (forall i :: 0 <= i < |f.items| ==> ItemSchema(f.items[i]))
    && ParseStatus(f.status).Some?
    && f.totalAmount >= 0.0
  }

  /** `Number(v) || 0`: a number counts as itself, NaN counts as 0. */
  function NumberOrZero(v: Option<real>): (r: real)
    ensures v.None? ==> r == 0.0
    ensures v.Some? ==> r == v.value
  {
    match v
    case Some(x) => x
    case None => 0.0
  }

  /** The line total the watcher computes for one item: quantity times unit price. */
  function LineTotal(item: ItemForm): real {
    NumberOrZero(item.quantity) * NumberOrZero(item.unitPrice)
  }

  /** The sum of the line totals computed from quantity and unit price, left to right. */
  function SumLineTotals(items: seq<ItemForm>): real {
    if items == [] then 0.0 else SumLineTotals(items[..|items| - 1]) + LineTotal(items[|items| - 1])
  }

  /** The sum of the `totalPrice` fields, left to right. */
  function SumTotalPrices(items: seq<ItemForm>): real {
    if items == [] then 0.0 else SumTotalPrices(items[..|items| - 1]) + items[|items| - 1].totalPrice
  }

  /** The items with every `totalPrice` set to its line total. */
  function WithLineTotals(items: seq<ItemForm>): seq<ItemForm> {
    seq(|items|, i requires 0 <= i < |items| => items[i].(totalPrice := LineTotal(items[i])))
  }

  /** The derived fields agree with the items: every line total is quantity times unit
      price and the order total is the sum of the line totals. */
  predicate TotalsConsistent(items: seq<ItemForm>, totalAmount: real) {
    && (forall i :: 0 <= i < |items| ==> items[i].totalPrice == LineTotal(items[i]))
    && totalAmount == SumTotalPrices(items)
  }

  /** An item with a non-numeric (NaN) quantity or unit price contributes 0. An emptied
      field is `Some(0.0)` and contributes 0 through the product instead. */
  lemma NonNumericContributesZero(item: ItemForm)
    requires item.quantity.None? || item.unitPrice.None?
    ensures LineTotal(item) == 0.0
  {
  }

  /** After a recompute the form's totals are consistent with its items. */
  lemma {:induction false} RecomputeConsistent(items: seq<ItemForm>)
    ensures TotalsConsistent(WithLineTotals(items), SumLineTotals(items))
  {
    var rows := WithLineTotals(items);
    forall i | 0 <= i < |rows| ensures rows[i].totalPrice == LineTotal(rows[i]) {
      assert rows[i] == items[i].(totalPrice := LineTotal(items[i]));
    }
    SumOfRecomputed(items);
  }

  /** Helper: summing the recomputed `totalPrice` fields gives the sum of the line totals. */
  lemma {:induction false} SumOfRecomputed(items: seq<ItemForm>)
    ensures SumTotalPrices(WithLineTotals(items)) == SumLineTotals(items)
  {
    if items != [] {
      var init := items[..|items| - 1];
      SumOfRecomputed(init);
      assert WithLineTotals(items)[..|items| - 1] == WithLineTotals(init);
    }
  }

  /** Recomputing a second time changes nothing: a line total depends only on quantity
      and unit price. */
  lemma RecomputeIdempotent(items: seq<ItemForm>)
    ensures WithLineTotals(WithLineTotals(items)) == WithLineTotals(items)
  {
    var once := WithLineTotals(items);
    forall i | 0 <= i < |items| ensures WithLineTotals(once)[i] == once[i] {
      assert LineTotal(once[i]) == LineTotal(items[i]);
    }
  }

  /** Whether a watch notification triggers the recompute: only a "change" of a field
      whose name starts with "items". */
  predicate IsItemsChange(name: Option<string>, eventType: Option<string>) {
    name.Some? && StartsWith(name.value, "items") && eventType == Some("change")
  }

  /** The item row appended to a new order that has no items. */
  function BlankItem(id: string): (item: ItemForm)
    ensures item.productName == "" && item.quantity == Some(1.0) && item.unitPrice == Some(0.0)
    ensures item.totalPrice == 0.0 && item.id == id
  {
    ItemForm(id, "", Some(1.0), Some(0.0), 0.0)
  }

  /** How the open-time effect turns a stored item into a form row: a missing id is
      replaced by `newId`, and `totalPrice` is recomputed. */
  function OpenedItem(item: PurchaseOrderItem, newId: string): (row: ItemForm)
    ensures row.id == (if item.id != "" then item.id else newId)
    ensures row.productName == item.productName
    ensures row.quantity == Some(item.quantity) && row.unitPrice == Some(item.unitPrice)
    ensures row.totalPrice == item.quantity * item.unitPrice
  {
    ItemForm(if item.id != "" then item.id else newId, item.productName,
             Some(item.quantity), Some(item.unitPrice), item.quantity * item.unitPrice)
  }

  /** The items of the order being edited, if any. */
  function DefaultItems(defaults: Option<PurchaseOrder>): seq<PurchaseOrderItem> {
    if defaults.Some? then defaults.value.items else []
  }

  /** The values the form is reset to when the dialog opens, with `today` for a new order
      and `newIds` the identifiers generated for rows that lack one. Line totals are
      recomputed, but the order total is copied, not recomputed; a new order without
      items gets one blank row. */
  function OpenValues(defaults: Option<PurchaseOrder>, isEditing: bool, today: Date, newIds: seq<string>): (f: OrderForm)
    requires |newIds| >= |DefaultItems(defaults)| && |newIds| >= 1
    ensures var n := |DefaultItems(defaults)|;
      |f.items| == (if n == 0 && !isEditing then 1 else n)
    ensures forall i :: 0 <= i < |DefaultItems(defaults)| ==>
      f.items[i] == OpenedItem(DefaultItems(defaults)[i], newIds[i])
    ensures |DefaultItems(defaults)| == 0 && !isEditing ==> f.items == [BlankItem(newIds[0])]
    ensures f.totalAmount == (if defaults.Some? then defaults.value.totalAmount else 0.0)
    ensures f.orderDate == Some(if defaults.Some? then defaults.value.orderDate else today)
    ensures f.status == (if defaults.Some? then StatusName(defaults.value.status) else "Pending")
    ensures defaults.None? ==> f.poNumber == "" && f.supplier == "" && f.notes == "" && f.expectedDeliveryDate.None?
    ensures defaults.Some? ==>
      (&& f.poNumber == defaults.value.poNumber && f.supplier == defaults.value.supplier
       && f.expectedDeliveryDate == defaults.value.expectedDeliveryDate
       && f.notes == defaults.value.notes.GetOr(""))
  {
    var stored := DefaultItems(defaults);
    var rows := seq(|stored|, i requires 0 <= i < |stored| => OpenedItem(stored[i], newIds[i]));
    var items := if |rows| == 0 && !isEditing then [BlankItem(newIds[0])] else rows;
    match defaults
    case None =>
      OrderForm("", "", Some(today), None, items, "Pending", "", 0.0)
    case Some(po) =>
      OrderForm(po.poNumber, po.supplier, Some(po.orderDate), po.expectedDeliveryDate, items,
                StatusName(po.status), po.notes.GetOr(""), po.totalAmount)
  }

  /** The sum of quantity times unit price over a stored order's items, left to right. */
  function SumStoredLineValues(items: seq<PurchaseOrderItem>): real {
    if items == [] then 0.0
    else SumStoredLineValues(items[..|items| - 1]) + items[|items| - 1].quantity * items[|items| - 1].unitPrice
  }

  /** On open, every row's line total is consistent. The order total is copied, not
      recomputed: for a stored order the opened totals are consistent exactly when the
      stored total equals the sum of quantity times unit price over the stored items,
      and a new order always opens consistent. */
  lemma {:induction false} OpenTotalNotRecomputed(defaults: Option<PurchaseOrder>, isEditing: bool, today: Date, newIds: seq<string>)
    requires |newIds| >= |DefaultItems(defaults)| && |newIds| >= 1
    ensures var f := OpenValues(defaults, isEditing, today, newIds);
      forall i :: 0 <= i < |f.items| ==> f.items[i].totalPrice == LineTotal(f.items[i])
    ensures var f := OpenValues(defaults, isEditing, today, newIds);
      defaults.Some? ==>
        (TotalsConsistent(f.items, f.totalAmount) <==> defaults.value.totalAmount == SumStoredLineValues(defaults.value.items))
    ensures defaults.None? ==>
      TotalsConsistent(OpenValues(defaults, isEditing, today, newIds).items, OpenValues(defaults, isEditing, today, newIds).totalAmount)
  {
    var f := OpenValues(defaults, isEditing, today, newIds);
    var stored := DefaultItems(defaults);
    forall i | 0 <= i < |f.items| ensures f.items[i].totalPrice == LineTotal(f.items[i]) {
      if i < |stored| {
        assert f.items[i] == OpenedItem(stored[i], newIds[i]);
      }
    }
    if |stored| == 0 && !isEditing {
      assert f.items == [BlankItem(newIds[0])];
      assert f.items[..0] == [];
      assert SumTotalPrices(f.items) == 0.0;
    } else {
      RowsSum(f.items, stored);
    }
  }

  /** Helper: rows whose line totals are the stored items' quantity times unit price sum
      to the stored line values. */
  lemma {:induction false} RowsSum(rows: seq<ItemForm>, stored: seq<PurchaseOrderItem>)
    requires |rows| == |stored|
    requires forall i :: 0 <= i < |rows| ==> rows[i].totalPrice == stored[i].quantity * stored[i].unitPrice
    ensures SumTotalPrices(rows) == SumStoredLineValues(stored)
  {
    if rows != [] {
      var n := |rows| - 1;
      RowsSum(rows[..n], stored[..n]);
    }
  }

  /** A new order opens with consistent totals: one blank row and a zero total. */
  lemma NewOrderOpensConsistent(today: Date, newIds: seq<string>)
    requires |newIds| >= 1
    ensures var f := OpenValues(None, false, today, newIds);
      |f.items| == 1 && TotalsConsistent(f.items, f.totalAmount)
  {
    var f := OpenValues(None, false, today, newIds);
    assert f.items == [BlankItem(newIds[0])];
    assert f.items[..0] == [];
  }

  /** A stored item and the form row it was submitted from agree field by field. */
  predicate ItemSubmitted(row: ItemForm, item: PurchaseOrderItem) {
    && item.id == row.id
    && item.productName == row.productName
    && row.quantity == Some(item.quantity)
    && row.unitPrice == Some(item.unitPrice)
    && item.totalPrice == row.totalPrice
  }

  function SubmittedItem(row: ItemForm): PurchaseOrderItem
    requires row.quantity.Some? && row.unitPrice.Some?
  {
    PurchaseOrderItem(row.id, row.productName, row.quantity.value, row.unitPrice.value, row.totalPrice)
  }

  /** `handleSubmit(handleFormSubmit)`: when the values pass the schema, the order handed to
      the page, carrying the edited order's id or else `freshId`; otherwise nothing. */
  function Submit(f: OrderForm, editedId: Option<string>, freshId: string): (r: Option<PurchaseOrder>)
    ensures r.Some? <==> OrderSchema(f)
    ensures r.Some? ==>
      && r.value.id == RecordList.KeptOrFreshId(editedId, freshId)
      && r.value.poNumber == f.poNumber && r.value.supplier == f.supplier
      && f.orderDate == Some(r.value.orderDate)
      && r.value.expectedDeliveryDate == f.expectedDeliveryDate
      && |r.value.items| == |f.items|
      && (forall i :: 0 <= i < |f.items| ==> ItemSubmitted(f.items[i], r.value.items[i]))
      && StatusName(r.value.status) == f.status
      && r.value.notes == Some(f.notes)
      && r.value.totalAmount == f.totalAmount
  {
    if !OrderSchema(f) then None
    else
      var items := seq(|f.items|, i requires 0 <= i < |f.items| => SubmittedItem(f.items[i]));
      Some(PurchaseOrder(RecordList.KeptOrFreshId(editedId, freshId), f.poNumber, f.supplier,
                         f.orderDate.value, f.expectedDeliveryDate, items,
                         ParseStatus(f.status).value, Some(f.notes), f.totalAmount))
  }

  /** The sum of a stored order's line totals. */
  function SumItemTotals(items: seq<PurchaseOrderItem>): real {
    if items == [] then 0.0 else SumItemTotals(items[..|items| - 1]) + items[|items| - 1].totalPrice
  }

  /** The purchase-order invariant: each line total is quantity times unit price and the
      order total is the sum of the line totals. */
  predicate OrderConsistent(po: PurchaseOrder) {
    && (forall i :: 0 <= i < |po.items| ==> po.items[i].totalPrice == po.items[i].quantity * po.items[i].unitPrice)
    && po.totalAmount == SumItemTotals(po.items)
  }

  /** An order submitted from a form whose totals are consistent is itself consistent; with
      RecomputeConsistent, every order submitted after an item change is. */
  lemma SubmitKeepsConsistency(f: OrderForm, editedId: Option<string>, freshId: string)
    requires OrderSchema(f) && TotalsConsistent(f.items, f.totalAmount)
    ensures Submit(f, editedId, freshId).Some? && OrderConsistent(Submit(f, editedId, freshId).value)
  {
    var r := Submit(f, editedId, freshId);
    var po := r.value;
    assert |po.items| == |f.items|;
    assert forall i :: 0 <= i < |f.items| ==> ItemSubmitted(f.items[i], po.items[i]);
    SubmittedSum(f.items, po.items);
    forall i | 0 <= i < |po.items|
      ensures po.items[i].totalPrice == po.items[i].quantity * po.items[i].unitPrice
    {
      SubmittedLineTotal(f.items[i], po.items[i]);
    }
    assert po.totalAmount == f.totalAmount == SumTotalPrices(f.items);
    assert OrderConsistent(po);
  }

  /** Helper: a row whose line total is consistent yields a consistent stored item. */
  lemma SubmittedLineTotal(row: ItemForm, item: PurchaseOrderItem)
    requires ItemSubmitted(row, item) && row.totalPrice == LineTotal(row)
    ensures item.totalPrice == item.quantity * item.unitPrice
  {
    assert NumberOrZero(row.quantity) == item.quantity;
    assert NumberOrZero(row.unitPrice) == item.unitPrice;
  }

  /** Helper: rows and the items submitted from them have the same sum of line totals. */
  lemma {:induction false} SubmittedSum(rows: seq<ItemForm>, items: seq<PurchaseOrderItem>)
    requires |rows| == |items|
    requires forall i :: 0 <= i < |rows| ==> ItemSubmitted(rows[i], items[i])
    ensures SumTotalPrices(rows) == SumItemTotals(items)
  {
    if rows != [] {
      var n := |rows| - 1;
      SubmittedSum(rows[..n], items[..n]);
      assert ItemSubmitted(rows[n], items[n]);
    }
  }

  /** The live form of the open dialog. */
  class Form {
    var poNumber: string
    var supplier: string
    var orderDate: Option<Date>
    var expectedDeliveryDate: Option<Date>
    var items: seq<ItemForm>
    var status: string
    var notes: string
    var totalAmount: real

    /** The current form values. */
    function Values(): OrderForm
      reads this
    {
      OrderForm(poNumber, supplier, orderDate, expectedDeliveryDate, items, status, notes, totalAmount)
    }

    /** A form reset to `values`. */
    constructor (values: OrderForm)
      ensures Values() == values
    {
      poNumber, supplier := values.poNumber, values.supplier;
      orderDate, expectedDeliveryDate := values.orderDate, values.expectedDeliveryDate;
      items, status, notes := values.items, values.status, values.notes;
      totalAmount := values.totalAmount;
    }

    /** The watch subscription: on a change of an item field, walk the items once, set each
        line total and accumulate the order total, then set the order total. Other
        notifications, and all other fields, are left alone. */
    method OnWatch(name: Option<string>, eventType: Option<string>)
      modifies this`items, this`totalAmount
      ensures IsItemsChange(name, eventType) ==>
        items == WithLineTotals(old(items)) && totalAmount == SumLineTotals(old(items))
      ensures !IsItemsChange(name, eventType) ==>
        items == old(items) && totalAmount == old(totalAmount)
    {
      if name.Some? && StartsWith(name.value, "items") && eventType == Some("change") {
        var snapshot := items;
        var currentTotal := 0.0;
        var index := 0;
        while index < |snapshot|
          invariant 0 <= index <= |snapshot|
          invariant |items| == |snapshot|
          invariant forall k :: 0 <= k < index ==> items[k] == snapshot[k].(totalPrice := LineTotal(snapshot[k]))
          invariant forall k :: index <= k < |snapshot| ==> items[k] == snapshot[k]
          invariant currentTotal == SumLineTotals(snapshot[..index])
        {
          var item := snapshot[index];
          var itemTotal := NumberOrZero(item.quantity) * NumberOrZero(item.unitPrice);
          if items[index].totalPrice != itemTotal {
            items := items[index := items[index].(totalPrice := itemTotal)];
          }
          currentTotal := currentTotal + itemTotal;
          assert snapshot[..index + 1][..index] == snapshot[..index];
          index := index + 1;
        }
        if totalAmount != currentTotal {
          totalAmount := currentTotal;
        }
        assert snapshot[..|snapshot|] == snapshot;
      }
    }
  }
}
