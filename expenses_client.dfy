/** The expense page of src/app/expenses/components/ExpensesClient.tsx: the list of
    expenses, loaded from and saved to local storage, edited through the dialog, with one
    log entry per change. */
module ExpensesClient {
  import opened Wrappers
  import opened Records
  import RecordList
  import LogContext
  import Storage

  const ExpensesStorageKey: string := "gearledger_expenses"

  /** An expense as `JSON.parse` returns it: its date is still ISO text. */
  datatype StoredExpense = StoredExpense(id: string, date: string, category: string, description: string, amount: real)

  /** Re-hydrating one parsed expense: `toDate` is `new Date(text)`; every other field is copied. */
  function Rehydrate(s: StoredExpense, toDate: string -> Date): (e: Expense)
    ensures e.date == toDate(s.date)
    ensures e.id == s.id && e.category == s.category && e.description == s.description && e.amount == s.amount
  {
    Expense(s.id, toDate(s.date), s.category, s.description, s.amount)
  }

  /** The list the load effect installs: empty for a missing key or unparsable text,
      otherwise every parsed expense re-hydrated, in stored order. */
  function LoadExpenses(store: Storage.Store, parse: string -> Option<seq<StoredExpense>>,
                        toDate: string -> Date): (r: seq<Expense>)
    ensures !Storage.IsTruthy(Storage.GetItem(store, ExpensesStorageKey)) ==> r == []
    ensures (Storage.IsTruthy(Storage.GetItem(store, ExpensesStorageKey))
             && parse(store[ExpensesStorageKey]).None?) ==> r == []
    ensures (Storage.IsTruthy(Storage.GetItem(store, ExpensesStorageKey))
             && parse(store[ExpensesStorageKey]).Some?) ==>
        var parsed := parse(store[ExpensesStorageKey]).value;
        |r| == |parsed| && forall i :: 0 <= i < |r| ==> r[i] == Rehydrate(parsed[i], toDate)
  {
    var parsed := Storage.LoadList(store, ExpensesStorageKey, parse);
    seq(|parsed|, i requires 0 <= i < |parsed| => Rehydrate(parsed[i], toDate))
  }

  /** The log entry data of a create or an update. `details` is the summary text, whose
      number and date formatting is not part of this model. */
  function SubmitLogData(editing: bool, details: string): LogContext.LogEntryData {
    LogContext.LogEntryData(if editing then "Updated Expense" else "Added Expense", details, None)
  }

  /** The page component's state. */
  class Client {
    var expenses: seq<Expense>
    var editingExpense: Option<Expense>
    var isDialogOpen: bool
    const log: LogContext.LogProvider

    /** A freshly mounted page: an empty list, nothing being edited, the dialog closed. */
    constructor (log: LogContext.LogProvider)
      ensures expenses == [] && editingExpense == None && !isDialogOpen && this.log == log
    {
      expenses, editingExpense, isDialogOpen := [], None, false;
      this.log := log;
    }

    /** The load effect. */
    method LoadEffect(store: Storage.Store, parse: string -> Option<seq<StoredExpense>>, toDate: string -> Date)
      modifies this`expenses
      ensures expenses == LoadExpenses(store, parse, toDate)
    {
      expenses := LoadExpenses(store, parse, toDate);
    }

    /** The save effect: writes the serialized list only when it is non-empty or the key
        already holds text; the store is otherwise returned unchanged. */
    method SaveEffect(store: Storage.Store, serialize: seq<Expense> -> string) returns (saved: Storage.Store)
      ensures |expenses| > 0 || Storage.IsTruthy(Storage.GetItem(store, ExpensesStorageKey)) ==>
        saved == store[ExpensesStorageKey := serialize(expenses)]
      ensures |expenses| == 0 && !Storage.IsTruthy(Storage.GetItem(store, ExpensesStorageKey)) ==>
        saved == store
    {
      saved := Storage.SaveList(store, ExpensesStorageKey, |expenses|, serialize(expenses));
    }

    /** `openDialogForEdit`: the dialog opens on `expense`. */
    method OpenDialogForEdit(expense: Expense)
      modifies this`editingExpense, this`isDialogOpen
      ensures editingExpense == Some(expense) && isDialogOpen
    {
      editingExpense, isDialogOpen := Some(expense), true;
    }

    /** `openDialogForNew`: the dialog opens on a blank form. */
    method OpenDialogForNew()
      modifies this`editingExpense, this`isDialogOpen
      ensures editingExpense == None && isDialogOpen
    {
      editingExpense, isDialogOpen := None, true;
    }

    /** The dialog's `onClose`: only the open flag changes. */
    method CloseDialog()
      modifies this`isDialogOpen
      ensures !isDialogOpen
    {
      isDialogOpen := false;
    }

    /** `handleFormSubmit`: while editing, every record with the submitted id is replaced in
        place; otherwise the record is prepended. Either way exactly one entry is logged
        (with `entryId` and `now` for its id and time) and the edit selection is cleared. */
    method HandleFormSubmit(data: Expense, entryId: string, now: Date, details: string)
      modifies this`expenses, this`editingExpense, log
      ensures old(editingExpense).Some? ==> expenses == RecordList.ReplaceById(old(expenses), data, ExpenseId)
      ensures old(editingExpense).None? ==> expenses == [data] + old(expenses)
      ensures log.logEntries == LogContext.PrependCapped(old(log.logEntries),
        LogContext.NewEntry(SubmitLogData(old(editingExpense).Some?, details), entryId, now))
      ensures editingExpense == None
    {
      if editingExpense.Some? {
        expenses := RecordList.ReplaceById(expenses, data, ExpenseId);
      } else {
        expenses := [data] + expenses;
      }
      log.AddLogEntry(SubmitLogData(editingExpense.Some?, details), entryId, now);
      editingExpense := None;
    }

    /** `handleDeleteExpense`: when `confirmed`, every record with `id` is removed and the
        others keep their order; a log entry is added only if such a record existed. An
        unconfirmed delete changes nothing. */
    method HandleDeleteExpense(id: string, confirmed: bool, entryId: string, now: Date, details: string)
      modifies this`expenses, log
      ensures confirmed ==> expenses == RecordList.RemoveById(old(expenses), id, ExpenseId)
      ensures !confirmed ==> expenses == old(expenses)
      ensures log.logEntries ==
        if confirmed && RecordList.HasId(old(expenses), id, ExpenseId)
        then LogContext.PrependCapped(old(log.logEntries),
               LogContext.NewEntry(LogContext.LogEntryData("Deleted Expense", details, None), entryId, now))
        else old(log.logEntries)
    {
      var toDelete := RecordList.FindById(expenses, id, ExpenseId);
      if confirmed {
        expenses := RecordList.RemoveById(expenses, id, ExpenseId);
        if toDelete.Some? {
          log.AddLogEntry(LogContext.LogEntryData("Deleted Expense", details, None), entryId, now);
        }
      }
    }
  }
}
