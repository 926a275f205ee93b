/** The stock page of src/app/stock/components/StockItemsClient.tsx: the list of
    stock items, seeded from the mock data, edited through the dialog, with one log entry
    per change. */
module StockItemsClient {
  import opened Wrappers
  import opened Records
  import RecordList
  import LogContext
  import MockData

  /** The log entry data of a create or an update. `details` is the summary text, whose
      number and date formatting is not part of this model. */
  function SubmitLogData(editing: bool, details: string): LogContext.LogEntryData {
    LogContext.LogEntryData(if editing then "Updated Stock Item" else "Added Stock Item", details, None)
  }

  /** The page component's state. */
  class Client {
    var items: seq<StockItem>
    var editingItem: Option<StockItem>
    var isDialogOpen: bool
    const log: LogContext.LogProvider

    /** A freshly mounted page: an empty list, nothing being edited, the dialog closed. */
    constructor (log: LogContext.LogProvider)
      ensures items == [] && editingItem == None && !isDialogOpen && this.log == log
    {
      items, editingItem, isDialogOpen := [], None, false;
      this.log := log;
    }

    /** The mount effect: the list is set to the seed data. */
    method LoadMock()
      modifies this`items
      ensures items == MockData.MockStockItems
      ensures items == []
    {
      items := MockData.MockStockItems;
    }

    /** `openDialogForEdit`: the dialog opens on `item`. */
    method OpenDialogForEdit(item: StockItem)
      modifies this`editingItem, this`isDialogOpen
      ensures editingItem == Some(item) && isDialogOpen
    {
      editingItem, isDialogOpen := Some(item), true;
    }

    /** `openDialogForNew`: the dialog opens on a blank form. */
    method OpenDialogForNew()
      modifies this`editingItem, this`isDialogOpen
      ensures editingItem == None && isDialogOpen
    {
      editingItem, isDialogOpen := None, true;
    }

    /** The dialog's `onClose`: only the open flag changes. */
    method CloseDialog()
      modifies this`isDialogOpen
      ensures !isDialogOpen
    {
      isDialogOpen := false;
    }

    /** `handleFormSubmit`: while editing, every record with the submitted id is replaced in
        place; otherwise the record is prepended. Either way exactly one entry is logged
        (with `entryId` and `now` for its id and time) and the edit selection is cleared. */
    method HandleFormSubmit(data: StockItem, entryId: string, now: Date, details: string)
      modifies this`items, this`editingItem, log
      ensures old(editingItem).Some? ==> items == RecordList.ReplaceById(old(items), data, StockItemId)
      ensures old(editingItem).None? ==> items == [data] + old(items)
      ensures log.logEntries == LogContext.PrependCapped(old(log.logEntries),
        LogContext.NewEntry(SubmitLogData(old(editingItem).Some?, details), entryId, now))
      ensures editingItem == None
    {
      if editingItem.Some? {
        items := RecordList.ReplaceById(items, data, StockItemId);
      } else {
        items := [data] + items;
      }
      log.AddLogEntry(SubmitLogData(editingItem.Some?, details), entryId, now);
      editingItem := None;
    }

    /** `handleDeleteItem`: when `confirmed`, every record with `id` is removed and the
        others keep their order; a log entry is added only if such a record existed. An
        unconfirmed delete changes nothing. */
    method HandleDeleteItem(id: string, confirmed: bool, entryId: string, now: Date, details: string)
      modifies this`items, log
      ensures confirmed ==> items == RecordList.RemoveById(old(items), id, StockItemId)
      ensures !confirmed ==> items == old(items)
      ensures log.logEntries ==
        if confirmed && RecordList.HasId(old(items), id, StockItemId)
        then LogContext.PrependCapped(old(log.logEntries),
               LogContext.NewEntry(LogContext.LogEntryData("Deleted Stock Item", details, None), entryId, now))
        else old(log.logEntries)
    {
      var toDelete := RecordList.FindById(items, id, StockItemId);
      if confirmed {
        items := RecordList.RemoveById(items, id, StockItemId);
        if toDelete.Some? {
          log.AddLogEntry(LogContext.LogEntryData("Deleted Stock Item", details, None), entryId, now);
        }
      }
    }
  }
}
