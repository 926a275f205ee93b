/** The service record page of src/app/services/components/ServiceRecordsClient.tsx: the list
    of service records, seeded from the mock data, edited through the dialog, with one log
    entry per change. */
module ServiceRecordsClient {
  import opened Wrappers
  import opened Records
  import RecordList
  import LogContext
  import MockData

  /** The log entry data of a create or an update. `details` is the summary text, whose
      number and date formatting is not part of this model. */
  function SubmitLogData(editing: bool, details: string): LogContext.LogEntryData {
    LogContext.LogEntryData(if editing then "Updated Service Record" else "Added Service Record", details, None)
  }

  /** The page component's state. */
  class Client {
    var records: seq<ServiceRecord>
    var editingRecord: Option<ServiceRecord>
    var isDialogOpen: bool
    const log: LogContext.LogProvider

    /** A freshly mounted page: an empty list, nothing being edited, the dialog closed. */
    constructor (log: LogContext.LogProvider)
      ensures records == [] && editingRecord == None && !isDialogOpen && this.log == log
    {
      records, editingRecord, isDialogOpen := [], None, false;
      this.log := log;
    }

    /** The mount effect: the list is set to the seed data. */
    method LoadMock()
      modifies this`records
      ensures records == MockData.MockServiceRecords
      ensures records == []
    {
      records := MockData.MockServiceRecords;
    }

    /** `openDialogForEdit`: the dialog opens on `record`. */
    method OpenDialogForEdit(record: ServiceRecord)
      modifies this`editingRecord, this`isDialogOpen
      ensures editingRecord == Some(record) && isDialogOpen
    {
      editingRecord, isDialogOpen := Some(record), true;
    }

    /** `openDialogForNew`: the dialog opens on a blank form. */
    method OpenDialogForNew()
      modifies this`editingRecord, this`isDialogOpen
      ensures editingRecord == None && isDialogOpen
    {
      editingRecord, isDialogOpen := None, true;
    }

    /** The dialog's `onClose`: only the open flag changes. */
    method CloseDialog()
      modifies this`isDialogOpen
      ensures !isDialogOpen
    {
      isDialogOpen := false;
    }

    /** `handleAddService`: while editing, every record with the submitted id is replaced in
        place; otherwise the record is prepended. Either way exactly one entry is logged
        (with `entryId` and `now` for its id and time) and the edit selection is cleared. */
    method HandleAddService(data: ServiceRecord, entryId: string, now: Date, details: string)
      modifies this`records, this`editingRecord, log
      ensures old(editingRecord).Some? ==> records == RecordList.ReplaceById(old(records), data, ServiceRecordId)
      ensures old(editingRecord).None? ==> records == [data] + old(records)
      ensures log.logEntries == LogContext.PrependCapped(old(log.logEntries),
        LogContext.NewEntry(SubmitLogData(old(editingRecord).Some?, details), entryId, now))
      ensures editingRecord == None
    {
      if editingRecord.Some? {
        records := RecordList.ReplaceById(records, data, ServiceRecordId);
      } else {
        records := [data] + records;
      }
      log.AddLogEntry(SubmitLogData(editingRecord.Some?, details), entryId, now);
      editingRecord := None;
    }

    /** `handleDeleteService`: when `confirmed`, every record with `id` is removed and the
        others keep their order; a log entry is added only if such a record existed. An
        unconfirmed delete changes nothing. */
    method HandleDeleteService(id: string, confirmed: bool, entryId: string, now: Date, details: string)
      modifies this`records, log
      ensures confirmed ==> records == RecordList.RemoveById(old(records), id, ServiceRecordId)
      ensures !confirmed ==> records == old(records)
      ensures log.logEntries ==
        if confirmed && RecordList.HasId(old(records), id, ServiceRecordId)
        then LogContext.PrependCapped(old(log.logEntries),
               LogContext.NewEntry(LogContext.LogEntryData("Deleted Service Record", details, None), entryId, now))
        else old(log.logEntries)
    {
      var toDelete := RecordList.FindById(records, id, ServiceRecordId);
      if confirmed {
        records := RecordList.RemoveById(records, id, ServiceRecordId);
        if toDelete.Some? {
          log.AddLogEntry(LogContext.LogEntryData("Deleted Service Record", details, None), entryId, now);
        }
      }
    }
  }
}
