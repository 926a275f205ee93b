/** The staff page of src/app/staff/components/StaffClient.tsx: the list of staff
    members, seeded from the mock data, edited through the dialog, with one log entry per
    change. */
module StaffClient {
  import opened Wrappers
  import opened Records
  import RecordList
  import LogContext
  import MockData

  /** The log entry data of a create or an update. `details` is the summary text, whose
      number and date formatting is not part of this model. */
  function SubmitLogData(editing: bool, details: string): LogContext.LogEntryData {
    LogContext.LogEntryData(if editing then "Updated Staff Member" else "Added Staff Member", details, None)
  }

  /** The page component's state. */
  class Client {
    var staffList: seq<StaffMember>
    var editingStaff: Option<StaffMember>
    var isDialogOpen: bool
    const log: LogContext.LogProvider

    /** A freshly mounted page: an empty list, nothing being edited, the dialog closed. */
    constructor (log: LogContext.LogProvider)
      ensures staffList == [] && editingStaff == None && !isDialogOpen && this.log == log
    {
      staffList, editingStaff, isDialogOpen := [], None, false;
      this.log := log;
    }

    /** The mount effect: the list is set to the seed data. */
    method LoadMock()
      modifies this`staffList
      ensures staffList == MockData.MockStaffMembers
      ensures staffList == []
    {
      staffList := MockData.MockStaffMembers;
    }

    /** `openDialogForEdit`: the dialog opens on `staff`. */
    method OpenDialogForEdit(staff: StaffMember)
      modifies this`editingStaff, this`isDialogOpen
      ensures editingStaff == Some(staff) && isDialogOpen
    {
      editingStaff, isDialogOpen := Some(staff), true;
    }

    /** `openDialogForNew`: the dialog opens on a blank form. */
    method OpenDialogForNew()
      modifies this`editingStaff, this`isDialogOpen
      ensures editingStaff == None && isDialogOpen
    {
      editingStaff, isDialogOpen := None, true;
    }

    /** The dialog's `onClose`: only the open flag changes. */
    method CloseDialog()
      modifies this`isDialogOpen
      ensures !isDialogOpen
    {
      isDialogOpen := false;
    }

    /** `handleFormSubmit`: while editing, every record with the submitted id is replaced in
        place; otherwise the record is prepended. Either way exactly one entry is logged
        (with `entryId` and `now` for its id and time) and the edit selection is cleared. */
    method HandleFormSubmit(data: StaffMember, entryId: string, now: Date, details: string)
      modifies this`staffList, this`editingStaff, log
      ensures old(editingStaff).Some? ==> staffList == RecordList.ReplaceById(old(staffList), data, StaffMemberId)
      ensures old(editingStaff).None? ==> staffList == [data] + old(staffList)
      ensures log.logEntries == LogContext.PrependCapped(old(log.logEntries),
        LogContext.NewEntry(SubmitLogData(old(editingStaff).Some?, details), entryId, now))
      ensures editingStaff == None
    {
      if editingStaff.Some? {
        staffList := RecordList.ReplaceById(staffList, data, StaffMemberId);
      } else {
        staffList := [data] + staffList;
      }
      log.AddLogEntry(SubmitLogData(editingStaff.Some?, details), entryId, now);
      editingStaff := None;
    }

    /** `handleDeleteStaff`: when `confirmed`, every record with `id` is removed and the
        others keep their order; a log entry is added only if such a record existed. An
        unconfirmed delete changes nothing. */
    method HandleDeleteStaff(id: string, confirmed: bool, entryId: string, now: Date, details: string)
      modifies this`staffList, log
      ensures confirmed ==> staffList == RecordList.RemoveById(old(staffList), id, StaffMemberId)
      ensures !confirmed ==> staffList == old(staffList)
      ensures log.logEntries ==
        if confirmed && RecordList.HasId(old(staffList), id, StaffMemberId)
        then LogContext.PrependCapped(old(log.logEntries),
               LogContext.NewEntry(LogContext.LogEntryData("Deleted Staff Member", details, None), entryId, now))
        else old(log.logEntries)
    {
      var toDelete := RecordList.FindById(staffList, id, StaffMemberId);
      if confirmed {
        staffList := RecordList.RemoveById(staffList, id, StaffMemberId);
        if toDelete.Some? {
          log.AddLogEntry(LogContext.LogEntryData("Deleted Staff Member", details, None), entryId, now);
        }
      }
    }
  }
}
