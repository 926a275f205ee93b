/** The purchase-order page of
    src/app/purchase-orders/components/PurchaseOrdersClient.tsx: the list of orders,
    loaded from and saved to local storage, edited through the dialog, with one log
    entry per change. */
module PurchaseOrdersClient {
  import opened Wrappers
  import opened Records
  import RecordList
  import Storage
  import LogContext

  const PurchaseOrdersStorageKey: string := "gearledger_purchase_orders"

  /** An order as `JSON.parse` returns it: its dates are still ISO text. */
  datatype StoredPurchaseOrder = StoredPurchaseOrder(
    id: string,
    poNumber: string,
    supplier: string,
    orderDate: string,
    expectedDeliveryDate: Option<string>,
    items: seq<PurchaseOrderItem>,
    status: PoStatus,
    notes: Option<string>,
    totalAmount: real)

  /** Re-hydrating one parsed order: `toDate` is `new Date(text)`. An absent or empty
      expected delivery date (both falsy) stays absent. */
  function Rehydrate(s: StoredPurchaseOrder, toDate: string -> Date): (po: PurchaseOrder)
    ensures po.id == s.id && po.poNumber == s.poNumber && po.supplier == s.supplier
    ensures po.items == s.items && po.status == s.status && po.notes == s.notes
    ensures po.totalAmount == s.totalAmount
    ensures po.orderDate == toDate(s.orderDate)
    ensures po.expectedDeliveryDate.Some? <==> s.expectedDeliveryDate.Some? && s.expectedDeliveryDate.value != ""
    ensures po.expectedDeliveryDate.Some? ==> po.expectedDeliveryDate.value == toDate(s.expectedDeliveryDate.value)
  {
    var delivery :=
      if s.expectedDeliveryDate.Some? && s.expectedDeliveryDate.value != ""
      then Some(toDate(s.expectedDeliveryDate.value)) else None;
    PurchaseOrder(s.id, s.poNumber, s.supplier, toDate(s.orderDate), delivery,
                  s.items, s.status, s.notes, s.totalAmount)
  }

  /** The list the load effect installs: empty for a missing key or unparsable text,
      otherwise every parsed order re-hydrated, in stored order. */
  function LoadPurchaseOrders(store: Storage.Store, parse: string -> Option<seq<StoredPurchaseOrder>>,
                              toDate: string -> Date): (r: seq<PurchaseOrder>)
    ensures !Storage.IsTruthy(Storage.GetItem(store, PurchaseOrdersStorageKey)) ==> r == []
    ensures (Storage.IsTruthy(Storage.GetItem(store, PurchaseOrdersStorageKey))
             && parse(store[PurchaseOrdersStorageKey]).None?) ==> r == []
    ensures (Storage.IsTruthy(Storage.GetItem(store, PurchaseOrdersStorageKey))
             && parse(store[PurchaseOrdersStorageKey]).Some?) ==>
        var parsed := parse(store[PurchaseOrdersStorageKey]).value;
        |r| == |parsed| && forall i :: 0 <= i < |r| ==> r[i] == Rehydrate(parsed[i], toDate)
  {
    var parsed := Storage.LoadList(store, PurchaseOrdersStorageKey, parse);
    seq(|parsed|, i requires 0 <= i < |parsed| => Rehydrate(parsed[i], toDate))
  }

  /** The log entry data of a create or an update. `details` is the summary text, whose
      number and date formatting is not part of this model. */
  function SubmitLogData(editing: bool, details: string): LogContext.LogEntryData {
    LogContext.LogEntryData(if editing then "Updated Purchase Order" else "Created Purchase Order", details, None)
  }

  /** The page component's state. */
  class Client {
    var purchaseOrders: seq<PurchaseOrder>
    var editingPO: Option<PurchaseOrder>
    var isDialogOpen: bool
    const log: LogContext.LogProvider

    /** A freshly mounted page: no orders, nothing being edited, the dialog closed. */
    constructor (log: LogContext.LogProvider)
      ensures purchaseOrders == [] && editingPO == None && !isDialogOpen && this.log == log
    {
      purchaseOrders, editingPO, isDialogOpen := [], None, false;
      this.log := log;
    }

    /** The load effect. */
    method LoadEffect(store: Storage.Store, parse: string -> Option<seq<StoredPurchaseOrder>>, toDate: string -> Date)
      modifies this`purchaseOrders
      ensures purchaseOrders == LoadPurchaseOrders(store, parse, toDate)
    {
      purchaseOrders := LoadPurchaseOrders(store, parse, toDate);
    }

    /** The save effect: writes the serialized list only when it is non-empty or the key
        already holds text; the store is otherwise returned unchanged. */
    method SaveEffect(store: Storage.Store, serialize: seq<PurchaseOrder> -> string) returns (saved: Storage.Store)
      ensures |purchaseOrders| > 0 || Storage.IsTruthy(Storage.GetItem(store, PurchaseOrdersStorageKey)) ==>
        saved == store[PurchaseOrdersStorageKey := serialize(purchaseOrders)]
      ensures |purchaseOrders| == 0 && !Storage.IsTruthy(Storage.GetItem(store, PurchaseOrdersStorageKey)) ==>
        saved == store
    {
      saved := Storage.SaveList(store, PurchaseOrdersStorageKey, |purchaseOrders|, serialize(purchaseOrders));
    }

    /** `openDialogForEdit`: the dialog opens on `po`. */
    method OpenDialogForEdit(po: PurchaseOrder)
      modifies this`editingPO, this`isDialogOpen
      ensures editingPO == Some(po) && isDialogOpen
    {
      editingPO, isDialogOpen := Some(po), true;
    }

    /** `openDialogForNew`: the dialog opens on a new order. */
    method OpenDialogForNew()
      modifies this`editingPO, this`isDialogOpen
      ensures editingPO == None && isDialogOpen
    {
      editingPO, isDialogOpen := None, true;
    }

    /** The dialog's `onClose`: only the open flag changes. */
    method CloseDialog()
      modifies this`isDialogOpen
      ensures !isDialogOpen
    {
      isDialogOpen := false;
    }

    /** `handleFormSubmit`: while editing, every order with the submitted id is replaced in
        place; otherwise the order is prepended. Either way exactly one entry is logged
        (with `entryId` and `now` for its id and time) and the edit selection is cleared. */
    method HandleFormSubmit(data: PurchaseOrder, entryId: string, now: Date, details: string)
      modifies this`purchaseOrders, this`editingPO, log
      ensures old(editingPO).Some? ==> purchaseOrders == RecordList.ReplaceById(old(purchaseOrders), data, PurchaseOrderId)
      ensures old(editingPO).None? ==> purchaseOrders == [data] + old(purchaseOrders)
      ensures log.logEntries == LogContext.PrependCapped(old(log.logEntries),
        LogContext.NewEntry(SubmitLogData(old(editingPO).Some?, details), entryId, now))
      ensures editingPO == None
    {
      if editingPO.Some? {
        purchaseOrders := RecordList.ReplaceById(purchaseOrders, data, PurchaseOrderId);
      } else {
        purchaseOrders := [data] + purchaseOrders;
      }
      log.AddLogEntry(SubmitLogData(editingPO.Some?, details), entryId, now);
      editingPO := None;
    }

    /** `handleDeletePO`: when `confirmed`, every order with `id` is removed and the others
        keep their order; a log entry is added only if such an order existed. An
        unconfirmed delete changes nothing. */
    method HandleDeletePO(id: string, confirmed: bool, entryId: string, now: Date, details: string)
      modifies this`purchaseOrders, log
      ensures confirmed ==> purchaseOrders == RecordList.RemoveById(old(purchaseOrders), id, PurchaseOrderId)
      ensures !confirmed ==> purchaseOrders == old(purchaseOrders)
      ensures log.logEntries ==
        if confirmed && RecordList.HasId(old(purchaseOrders), id, PurchaseOrderId)
        then LogContext.PrependCapped(old(log.logEntries),
               LogContext.NewEntry(LogContext.LogEntryData("Deleted Purchase Order", details, None), entryId, now))
        else old(log.logEntries)
    {
      var poToDelete := RecordList.FindById(purchaseOrders, id, PurchaseOrderId);
      if confirmed {
        purchaseOrders := RecordList.RemoveById(purchaseOrders, id, PurchaseOrderId);
        if poToDelete.Some? {
          log.AddLogEntry(LogContext.LogEntryData("Deleted Purchase Order", details, None), entryId, now);
        }
      }
    }
  }
}
