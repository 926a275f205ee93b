# GearLedger data layer in Dafny

GearLedger is a browser app for a motorbike workshop. It keeps service records, stock items, expenses, staff members and purchase orders, and keeps a session activity log. This project models the app's data layer and proves properties of the model:

- **Session activity log.** The log provider prepends each new entry and keeps only the newest 50 (`LogContext`).
- **Page stores.** There is one page per record kind. Each page holds its list and the record selected for editing. A create prepends the record. An update replaces it by id. A confirmed delete filters it out by id. Each change adds one log entry, and a delete is logged only when the record existed. The purchase-order and expense pages also load their list from local storage and save it back under a guard (`PurchaseOrdersClient`, `ExpensesClient`, `ServiceRecordsClient`, `StaffClient`, `StockItemsClient`).
- **Shared list rules and storage.** The list operations every page uses are written once, in `RecordList`. The storage load and save are written once, in `Storage`.
- **Dialogs.** These are the forms behind the pages: their validation schemas, the values a form opens with, and the record a valid submit hands back. The id rule is "keep the edited record's id, else use a fresh one" (`PurchaseOrderDialog`, `ServiceRecordDialog`, `ExpenseDialog`, `StaffDialog`, `StockItemDialog`).
- **Purchase-order totals.** The purchase-order form has a watcher loop. It sets each line total to quantity times unit price, and the order total to the sum of the line totals. It is proved against `WithLineTotals` and `SumLineTotals`. An order submitted after that recompute is proved consistent (`OrderConsistent`).
- **Seed data.** The seed data and the stock-value fold are in `MockData`.
- **Sidebar.** The sidebar's active-entry rule is in `SidebarNav`.

Values are modelled as follows:

- Money and quantities are `real`, so the arithmetic is exact.
- A date is an `int` (milliseconds).
- What a number coercion makes of a form field is an `Option<real>`, where `None` stands for NaN.
- Local storage is a `map<string, string>` of raw text; `Storage.GetItem` is `localStorage.getItem`, with `None` for `null`.
- `Strings.StartsWith` is JavaScript's `startsWith`, a character-by-character prefix test; the sidebar and the form watcher use it.
- These are parameters: JSON parsing and printing, `new Date(text)`, fresh UUIDs, the current time, the user's answer to the confirmation prompt, and the text of a log entry's details.

Uniqueness of ids is not checked anywhere in the app, so it is not an invariant of the page classes. Instead, lemmas in `RecordList` show which operations keep ids unique, and what an edit or a delete does when they are unique.

## Model

| member | source | states |
|---|---|---|
| LogContext.NewEntry | src/contexts/LogContext.tsx:30-36 | the entry carries the given id and time and the caller's action and details unchanged; its user is the given one when non-empty, otherwise "Admin" |
| LogContext.PrependCapped | src/contexts/LogContext.tsx:38 | the new entry is first, the length is min(old length + 1, 50), and entry i+1 is old entry i |
| LogContext.PrependCappedBounds | src/contexts/LogContext.tsx:37-38 | the log never exceeds 50 entries; below 50 nothing is dropped; at 50 exactly the oldest is dropped |
| LogContext.PrependCappedKeepsEntries | src/contexts/LogContext.tsx:38 | every entry after the first was already in the log, so existing entries are never modified |
| LogContext.AddAllKeepsNewest | src/contexts/LogContext.tsx:29-39 | adding entries one at a time leaves the newest 50 of all entries, newest first |
| LogContext.LogProvider.constructor | src/contexts/LogContext.tsx:27 | a provider starts with an empty log |
| LogContext.LogProvider.AddLogEntry | src/contexts/LogContext.tsx:29-39 | the log becomes the capped prepend of the new entry and stays within 50 entries |
| LogContext.UseLog | src/contexts/LogContext.tsx:48-54 | the error "useLog must be used within a LogProvider" exactly when there is no provider, otherwise the provider |
| RecordList.KeptOrFreshId | src/app/purchase-orders/components/PurchaseOrderDialog.tsx:148 | a submitted record keeps the edited record's id when it is present and non-empty, otherwise takes the fresh id |
| RecordList.ReplaceById | src/app/purchase-orders/components/PurchaseOrdersClient.tsx:59 | same length; every record with the submitted id becomes the submitted record, every other record is unchanged in its place |
| RecordList.RemoveById | src/app/purchase-orders/components/PurchaseOrdersClient.tsx:91 | no record with the id survives, every surviving record was in the list, and every record with another id survives |
| RecordList.FindById | src/app/purchase-orders/components/PurchaseOrdersClient.tsx:89 | finds a record exactly when some record has the id, and what it finds has that id |
| RecordList.FindByIdFirst | src/app/purchase-orders/components/PurchaseOrdersClient.tsx:89 | the look-up returns the first record with the id |
| RecordList.ReplaceByIdAbsent | src/app/purchase-orders/components/PurchaseOrdersClient.tsx:59 | an edit whose id is absent leaves the list unchanged |
| RecordList.ReplaceByIdUnique | src/app/purchase-orders/components/PurchaseOrdersClient.tsx:59 | with unique ids, an edit replaces exactly the one matching record in place |
| RecordList.ReplaceByIdKeepsIds | src/app/purchase-orders/components/PurchaseOrdersClient.tsx:59 | an edit keeps the sequence of ids, and so keeps ids unique |
| RecordList.ReplaceByIdIdempotent | src/app/purchase-orders/components/PurchaseOrdersClient.tsx:59 | submitting the same edit twice equals submitting it once |
| RecordList.PrependFreshKeepsUnique | src/app/purchase-orders/components/PurchaseOrdersClient.tsx:67 | a create with an unused id keeps ids unique |
| RecordList.RemoveByIdAbsent | src/app/purchase-orders/components/PurchaseOrdersClient.tsx:91 | deleting an absent id leaves the list unchanged |
| RecordList.RemoveByIdConcat | src/app/purchase-orders/components/PurchaseOrdersClient.tsx:91 | a delete keeps the relative order of the kept records (it distributes over concatenation) |
| RecordList.RemoveByIdUnique | src/app/purchase-orders/components/PurchaseOrdersClient.tsx:91 | with unique ids, a delete removes exactly the matching record and keeps the rest in order |
| RecordList.RemoveByIdKeepsUnique | src/app/purchase-orders/components/PurchaseOrdersClient.tsx:91 | a delete keeps ids unique |
| RecordList.PrependThenRemove | src/app/purchase-orders/components/PurchaseOrdersClient.tsx:67-91 | creating a record with an unused id and then deleting it restores the list |
| RecordList.FindAfterReplace | src/app/purchase-orders/components/PurchaseOrdersClient.tsx:59-89 | after editing a present record, looking its id up finds the new version |
| Storage.IsTruthy | src/app/purchase-orders/components/PurchaseOrdersClient.tsx:26 | what `getItem` returned counts as present exactly when the key exists and its text is non-empty, as the `if (stored)` test and the save guard read it |
| Storage.LoadList | src/app/purchase-orders/components/PurchaseOrdersClient.tsx:24-42 | missing or empty text gives the empty list, and so does text that fails to parse; otherwise the parsed list |
| Storage.SaveList | src/app/purchase-orders/components/PurchaseOrdersClient.tsx:44-48 | writes the text exactly when the list is non-empty or the key already holds text, and touches no other key |
| Storage.SaveAfterFirstWrite | src/app/purchase-orders/components/PurchaseOrdersClient.tsx:45-46 | the save right after a non-empty save writes, even of an empty list, so deleting the last record persists the empty list |
| Storage.SaveKeepsStoredText | src/app/purchase-orders/components/PurchaseOrdersClient.tsx:44-48 | a save that writes a non-empty text leaves the key truthy, so the next save writes too; chained, saves keep writing while the serialized texts are non-empty |
| Storage.LoadAfterSave | src/app/purchase-orders/components/PurchaseOrdersClient.tsx:24-48 | a load after a non-empty save parses what was saved |
| PurchaseOrderDialog.ParseStatus | src/app/purchase-orders/components/PurchaseOrderDialog.tsx:49 | the status check accepts exactly the five status names, and maps each to the status of that name |
| PurchaseOrderDialog.StatusRoundTrip | src/app/purchase-orders/components/PurchaseOrderDialog.tsx:49 | every status survives the trip through its name |
| PurchaseOrderDialog.ItemSchema | src/app/purchase-orders/components/PurchaseOrderDialog.tsx:35-41 | an item row passes when its product name is non-empty, its quantity is a number of at least 1, its unit price a number of at least 0, and its line total at least 0; NaN fails |
| PurchaseOrderDialog.OrderSchema | src/app/purchase-orders/components/PurchaseOrderDialog.tsx:43-52 | an order passes when PO number and supplier are non-empty, an order date is set, there is at least one item and every item passes, the status is one of the five names, and the total is at least 0; delivery date and notes are optional |
| PurchaseOrderDialog.IsItemsChange | src/app/purchase-orders/components/PurchaseOrderDialog.tsx:126 | the watcher recomputes only for a "change" notification of a field whose name starts with "items" |
| PurchaseOrderDialog.LineTotal | src/app/purchase-orders/components/PurchaseOrderDialog.tsx:130-132 | a row's line total is quantity times unit price, each taken as 0 when NaN |
| PurchaseOrderDialog.SumLineTotals | src/app/purchase-orders/components/PurchaseOrderDialog.tsx:128-137 | the running total: the sum of the rows' line totals, first to last |
| PurchaseOrderDialog.WithLineTotals | src/app/purchase-orders/components/PurchaseOrderDialog.tsx:129-135 | the rows with every line total set to quantity times unit price and every other field kept |
| PurchaseOrderDialog.NumberOrZero | src/app/purchase-orders/components/PurchaseOrderDialog.tsx:130-131 | NaN counts as 0, a number as itself |
| PurchaseOrderDialog.NonNumericContributesZero | src/app/purchase-orders/components/PurchaseOrderDialog.tsx:130-132 | an item with a non-numeric quantity or unit price has line total 0 |
| PurchaseOrderDialog.RecomputeConsistent | src/app/purchase-orders/components/PurchaseOrderDialog.tsx:124-141 | after the recompute, every line total is quantity times unit price and the order total is the sum of the line totals |
| PurchaseOrderDialog.RecomputeIdempotent | src/app/purchase-orders/components/PurchaseOrderDialog.tsx:129-135 | recomputing line totals a second time changes nothing |
| PurchaseOrderDialog.BlankItem | src/app/purchase-orders/components/PurchaseOrderDialog.tsx:118 | the blank row has no product name, quantity 1, unit price 0 and total 0 |
| PurchaseOrderDialog.OpenedItem | src/app/purchase-orders/components/PurchaseOrderDialog.tsx:100-104 | an opened row keeps its id or gets a new one when it has none, and its line total is recomputed |
| PurchaseOrderDialog.OpenValues | src/app/purchase-orders/components/PurchaseOrderDialog.tsx:98-121 | the open values: stored rows recomputed in order; one blank row for a new order without items; the order total copied; order date defaulted to today; status to Pending |
| PurchaseOrderDialog.OpenTotalNotRecomputed | src/app/purchase-orders/components/PurchaseOrderDialog.tsx:100-119 | on open, every line total is quantity times unit price; for a stored order the order total is consistent exactly when the stored total equals the sum of quantity times unit price over the stored items; a new order always opens consistent |
| PurchaseOrderDialog.NewOrderOpensConsistent | src/app/purchase-orders/components/PurchaseOrderDialog.tsx:117-119 | a new order opens with exactly one row and consistent totals |
| PurchaseOrderDialog.Submit | src/app/purchase-orders/components/PurchaseOrderDialog.tsx:147-151 | an order comes out exactly when the values pass the schema; it carries the kept-or-fresh id and the form's fields |
| PurchaseOrderDialog.SubmitKeepsConsistency | src/app/purchase-orders/components/PurchaseOrderDialog.tsx:124-151 | an order submitted from consistent values satisfies the purchase-order invariant |
| PurchaseOrderDialog.Form.constructor | src/app/purchase-orders/components/PurchaseOrderDialog.tsx:106-115 | a form reset to given values holds exactly those values |
| PurchaseOrderDialog.Form.OnWatch | src/app/purchase-orders/components/PurchaseOrderDialog.tsx:124-141 | on a change under items, every line total is set and the order total becomes their sum; any other notification changes nothing |
| PurchaseOrdersClient.Rehydrate | src/app/purchase-orders/components/PurchaseOrdersClient.tsx:30-34 | dates are parsed back from text; an absent or empty delivery date stays absent; every other field is kept |
| PurchaseOrdersClient.LoadPurchaseOrders | src/app/purchase-orders/components/PurchaseOrdersClient.tsx:24-42 | empty for a missing key or bad text, otherwise every stored order re-hydrated, in order |
| PurchaseOrdersClient.SubmitLogData | src/app/purchase-orders/components/PurchaseOrdersClient.tsx:62-74 | the log entry of a submit: action "Updated Purchase Order" when editing, else "Created Purchase Order", the given details and no user |
| PurchaseOrdersClient.Client.constructor | src/app/purchase-orders/components/PurchaseOrdersClient.tsx:18-20 | no orders, nothing being edited, dialog closed |
| PurchaseOrdersClient.Client.LoadEffect | src/app/purchase-orders/components/PurchaseOrdersClient.tsx:24-42 | the list becomes the loaded orders |
| PurchaseOrdersClient.Client.SaveEffect | src/app/purchase-orders/components/PurchaseOrdersClient.tsx:44-48 | the serialized list is written exactly when it is non-empty or the key already holds text |
| PurchaseOrdersClient.Client.OpenDialogForEdit | src/app/purchase-orders/components/PurchaseOrdersClient.tsx:78-81 | the order is selected for editing and the dialog is open |
| PurchaseOrdersClient.Client.OpenDialogForNew | src/app/purchase-orders/components/PurchaseOrdersClient.tsx:83-86 | nothing is selected and the dialog is open |
| PurchaseOrdersClient.Client.CloseDialog | src/app/purchase-orders/components/PurchaseOrdersClient.tsx:117 | the dialog is closed |
| PurchaseOrdersClient.Client.HandleFormSubmit | src/app/purchase-orders/components/PurchaseOrdersClient.tsx:50-76 | editing replaces by id, otherwise the order is prepended; exactly one Updated/Created entry is logged; the selection is cleared |
| PurchaseOrdersClient.Client.HandleDeletePO | src/app/purchase-orders/components/PurchaseOrdersClient.tsx:88-100 | a confirmed delete removes by id and logs only if the order existed; an unconfirmed delete changes nothing |
| ExpensesClient.Rehydrate | src/app/expenses/components/ExpensesClient.tsx:30 | the date is parsed back from text and every other field is kept |
| ExpensesClient.LoadExpenses | src/app/expenses/components/ExpensesClient.tsx:24-38 | empty for a missing key or bad text, otherwise every stored expense re-hydrated, in order |
| ExpensesClient.SubmitLogData | src/app/expenses/components/ExpensesClient.tsx:53-66 | the log entry of a submit: action "Updated Expense" when editing, else "Added Expense", the given details and no user |
| ExpensesClient.Client.constructor | src/app/expenses/components/ExpensesClient.tsx:18-20 | no expenses, nothing being edited, dialog closed |
| ExpensesClient.Client.LoadEffect | src/app/expenses/components/ExpensesClient.tsx:24-38 | the list becomes the loaded expenses |
| ExpensesClient.Client.SaveEffect | src/app/expenses/components/ExpensesClient.tsx:40-45 | the serialized list is written exactly when it is non-empty or the key already holds text |
| ExpensesClient.Client.OpenDialogForEdit | src/app/expenses/components/ExpensesClient.tsx:70-73 | the expense is selected and the dialog is open |
| ExpensesClient.Client.OpenDialogForNew | src/app/expenses/components/ExpensesClient.tsx:75-78 | nothing is selected and the dialog is open |
| ExpensesClient.Client.CloseDialog | src/app/expenses/components/ExpensesClient.tsx:109 | the dialog is closed |
| ExpensesClient.Client.HandleFormSubmit | src/app/expenses/components/ExpensesClient.tsx:47-68 | editing replaces by id, otherwise the expense is prepended; exactly one Updated/Added entry is logged; the selection is cleared |
| ExpensesClient.Client.HandleDeleteExpense | src/app/expenses/components/ExpensesClient.tsx:80-92 | a confirmed delete removes by id and logs only if the expense existed; an unconfirmed delete changes nothing |
| ServiceRecordsClient.SubmitLogData | src/app/services/components/ServiceRecordsClient.tsx:31-42 | the log entry of a submit: action "Updated Service Record" when editing, else "Added Service Record", the given details and no user |
| ServiceRecordsClient.Client.constructor | src/app/services/components/ServiceRecordsClient.tsx:17-19 | no records, nothing being edited, dialog closed |
| ServiceRecordsClient.Client.LoadMock | src/app/services/components/ServiceRecordsClient.tsx:23-25 | the list becomes the seed records, which are empty |
| ServiceRecordsClient.Client.OpenDialogForEdit | src/app/services/components/ServiceRecordsClient.tsx:46-49 | the record is selected and the dialog is open |
| ServiceRecordsClient.Client.OpenDialogForNew | src/app/services/components/ServiceRecordsClient.tsx:51-54 | nothing is selected and the dialog is open |
| ServiceRecordsClient.Client.CloseDialog | src/app/services/components/ServiceRecordsClient.tsx:85 | the dialog is closed |
| ServiceRecordsClient.Client.HandleAddService | src/app/services/components/ServiceRecordsClient.tsx:27-44 | editing replaces by id, otherwise the record is prepended; exactly one Updated/Added entry is logged; the selection is cleared |
| ServiceRecordsClient.Client.HandleDeleteService | src/app/services/components/ServiceRecordsClient.tsx:56-68 | a confirmed delete removes by id and logs only if the record existed; an unconfirmed delete changes nothing |
| StaffClient.SubmitLogData | src/app/staff/components/StaffClient.tsx:31-42 | the log entry of a submit: action "Updated Staff Member" when editing, else "Added Staff Member", the given details and no user |
| StaffClient.Client.constructor | src/app/staff/components/StaffClient.tsx:17-19 | no staff, nothing being edited, dialog closed |
| StaffClient.Client.LoadMock | src/app/staff/components/StaffClient.tsx:23-25 | the list becomes the seed staff, which is empty |
| StaffClient.Client.OpenDialogForEdit | src/app/staff/components/StaffClient.tsx:46-49 | the member is selected and the dialog is open |
| StaffClient.Client.OpenDialogForNew | src/app/staff/components/StaffClient.tsx:51-54 | nothing is selected and the dialog is open |
| StaffClient.Client.CloseDialog | src/app/staff/components/StaffClient.tsx:85 | the dialog is closed |
| StaffClient.Client.HandleFormSubmit | src/app/staff/components/StaffClient.tsx:27-44 | editing replaces by id, otherwise the member is prepended; exactly one Updated/Added entry is logged; the selection is cleared |
| StaffClient.Client.HandleDeleteStaff | src/app/staff/components/StaffClient.tsx:56-68 | a confirmed delete removes by id and logs only if the member existed; an unconfirmed delete changes nothing |
| StockItemsClient.SubmitLogData | src/app/stock/components/StockItemsClient.tsx:30-41 | the log entry of a submit: action "Updated Stock Item" when editing, else "Added Stock Item", the given details and no user |
| StockItemsClient.Client.constructor | src/app/stock/components/StockItemsClient.tsx:16-18 | no items, nothing being edited, dialog closed |
| StockItemsClient.Client.LoadMock | src/app/stock/components/StockItemsClient.tsx:22-24 | the list becomes the seed stock, which is empty |
| StockItemsClient.Client.OpenDialogForEdit | src/app/stock/components/StockItemsClient.tsx:45-48 | the item is selected and the dialog is open |
| StockItemsClient.Client.OpenDialogForNew | src/app/stock/components/StockItemsClient.tsx:50-53 | nothing is selected and the dialog is open |
| StockItemsClient.Client.CloseDialog | src/app/stock/components/StockItemsClient.tsx:84 | the dialog is closed |
| StockItemsClient.Client.HandleFormSubmit | src/app/stock/components/StockItemsClient.tsx:26-43 | editing replaces by id, otherwise the item is prepended; exactly one Updated/Added entry is logged; the selection is cleared |
| StockItemsClient.Client.HandleDeleteItem | src/app/stock/components/StockItemsClient.tsx:55-67 | a confirmed delete removes by id and logs only if the item existed; an unconfirmed delete changes nothing |
| ServiceRecordDialog.Schema | src/app/services/components/ServiceRecordDialog.tsx:34-43 | a record passes when customer name, contact number, bike model, bike number and service details are non-empty, the service count is a number of at least 1, the cost a number of at least 0, and a date is set; NaN fails |
| ServiceRecordDialog.OrNumber | src/app/services/components/ServiceRecordDialog.tsx:82-83 | a zero number gives way to the fallback, any other number stays |
| ServiceRecordDialog.EditValues | src/app/services/components/ServiceRecordDialog.tsx:79-84 | an edited record opens with its own fields, a zero service count shown as 1 |
| ServiceRecordDialog.NewValues | src/app/services/components/ServiceRecordDialog.tsx:86-95 | a new record opens with empty texts, service count 1, cost 0 and today's date |
| ServiceRecordDialog.InitialValues | src/app/services/components/ServiceRecordDialog.tsx:62-74 | the mount values: the edited record's values, or blank values without a date |
| ServiceRecordDialog.OpenValues | src/app/services/components/ServiceRecordDialog.tsx:76-98 | an open dialog resets to the edited record's values or to the blank new values; otherwise the form is unchanged |
| ServiceRecordDialog.Submit | src/app/services/components/ServiceRecordDialog.tsx:100-104 | a record comes out exactly when the schema accepts the form (texts non-empty, count at least 1, cost at least 0, a date); it carries the kept-or-fresh id and satisfies the schema |
| ServiceRecordDialog.EditRoundTrip | src/app/services/components/ServiceRecordDialog.tsx:79-101 | opening a valid record and submitting it unchanged gives the same record back |
| ServiceRecordDialog.ZeroCountOpensAsOne | src/app/services/components/ServiceRecordDialog.tsx:82 | a record with service count 0 is invalid but opens with count 1 and can be resubmitted |
| ServiceRecordDialog.NewFormRejected | src/app/services/components/ServiceRecordDialog.tsx:34-43 | the blank new form does not pass the schema |
| ServiceRecordDialog.EditOpenMatchesInitial | src/app/services/components/ServiceRecordDialog.tsx:64-84 | when editing, the open reset gives the same values as the mount values |
| ServiceRecordDialog.NewInitialNeedsOpen | src/app/services/components/ServiceRecordDialog.tsx:65-87 | a new record mounts without a date, which fails the schema, and the open reset dates it today |
| ExpenseDialog.Schema | src/app/expenses/components/ExpenseDialog.tsx:20-25 | an expense passes when a date is set, category and description are non-empty, and the amount is a number of at least 0.01; any non-empty category passes |
| ExpenseDialog.InitialValues | src/app/expenses/components/ExpenseDialog.tsx:40-47 | the edited expense's values, or today's date, amount 0 and no category or description |
| ExpenseDialog.Submit | src/app/expenses/components/ExpenseDialog.tsx:49-53 | an expense comes out exactly when the schema accepts the form (a date, non-empty category and description, amount at least 0.01); it carries the kept-or-fresh id and satisfies the schema |
| ExpenseDialog.EditRoundTrip | src/app/expenses/components/ExpenseDialog.tsx:40-53 | opening a valid expense and submitting it unchanged gives the same expense back |
| ExpenseDialog.NewFormRejected | src/app/expenses/components/ExpenseDialog.tsx:20-46 | a new expense cannot be submitted as it opens: no category, no description, amount 0 |
| ExpenseDialog.NewFormFilledIn | src/app/expenses/components/ExpenseDialog.tsx:20-37 | any non-empty category passes, not only the picker's names; the submitted expense has exactly the values entered |
| StaffDialog.Schema | src/app/staff/components/StaffDialog.tsx:19-27 | a member passes when name and designation are non-empty, a joining date is set, the salary is a number of at least 0, and the advance is undefined or a number of at least 0; contact number and address are free |
| StaffDialog.TextOrEmpty | src/app/staff/components/StaffDialog.tsx:48-49 | a missing text shows as empty, a present one as itself |
| StaffDialog.InitialValues | src/app/staff/components/StaffDialog.tsx:40-51 | the edited member's values with missing contact and address shown empty, or blank values without a date |
| StaffDialog.EditValues | src/app/staff/components/StaffDialog.tsx:55-61 | an edited member opens with its own fields, contact and address as they are |
| StaffDialog.NewValues | src/app/staff/components/StaffDialog.tsx:63-71 | a new member opens with empty texts, salary 0, advance 0 and today's date |
| StaffDialog.OpenValues | src/app/staff/components/StaffDialog.tsx:53-74 | an open dialog resets to the edited member's values or to the blank new values; otherwise the form is unchanged |
| StaffDialog.SubmittedAdvance | src/app/staff/components/StaffDialog.tsx:78 | an undefined advance is submitted as 0, a given one as itself |
| StaffDialog.Submit | src/app/staff/components/StaffDialog.tsx:77-81 | a member comes out exactly when the schema accepts the form (name, designation, date, salary at least 0, advance undefined or at least 0); it carries the kept-or-fresh id and satisfies the schema |
| StaffDialog.EditRoundTrip | src/app/staff/components/StaffDialog.tsx:53-81 | opening a valid member and submitting it unchanged gives the same member back |
| StaffDialog.InitialDiffersFromReset | src/app/staff/components/StaffDialog.tsx:48-61 | without a contact number, the mount and reset values differ; a submit from the mount values, which the page never makes (src/app/staff/components/StaffClient.tsx:82-85 mounts the dialog only while open), would store an empty contact number |
| StaffDialog.UndefinedAdvanceIsZero | src/app/staff/components/StaffDialog.tsx:78 | a member submitted with the advance left undefined has advance 0 |
| StaffDialog.NewFormRejected | src/app/staff/components/StaffDialog.tsx:19-71 | the blank new form and the blank mount values do not pass the schema |
| StockItemDialog.Schema | src/app/stock/components/StockItemDialog.tsx:33-38 | an item passes when its name is non-empty and quantity and price are numbers of at least 0; the category is optional |
| StockItemDialog.InitialValues | src/app/stock/components/StockItemDialog.tsx:59-66 | the edited item's values, or no name, no category, quantity 0 and price 0 |
| StockItemDialog.Submit | src/app/stock/components/StockItemDialog.tsx:68-72 | an item comes out exactly when the schema accepts the form (a name, quantity and price at least 0); it carries the kept-or-fresh id and the optional category, and satisfies the schema |
| StockItemDialog.EditRoundTrip | src/app/stock/components/StockItemDialog.tsx:59-72 | opening a valid item and submitting it unchanged gives the same item back |
| StockItemDialog.NewFormNeedsName | src/app/stock/components/StockItemDialog.tsx:33-66 | a new item is rejected until named; once named it passes with any category or none |
| MockData.StockValue | src/lib/mockData.ts:18 | the reduce equals the sum of price times quantity over the items |
| MockData.FoldIsSum | src/lib/mockData.ts:18 | the left fold from any start value adds the sum of the line values to it |
| MockData.StockValueConcat | src/lib/mockData.ts:18 | the value of two lists together is the sum of their values |
| MockData.StockValueNonNegative | src/lib/mockData.ts:18 | stock whose every item passes the stock-item schema has a non-negative value |
| MockData.MockValues | src/lib/mockData.ts:4-23 | every seed list and the chart series are empty, daily sales are 0 and 0, and the stock value is 0 |
| SidebarNav.IsActive | src/components/navigation/SidebarNav.tsx:51 | an entry is active when the path equals its link or, for any link but "/", begins with it |
| SidebarNav.ActiveFlags | src/components/navigation/SidebarNav.tsx:47-51 | one flag per entry, in order, set exactly when that entry is active |
| SidebarNav.RootOnlyAtRoot | src/components/navigation/SidebarNav.tsx:51 | the dashboard entry is active on "/" and nowhere else |
| SidebarNav.ActiveIffPrefix | src/components/navigation/SidebarNav.tsx:51 | another entry is active exactly on paths that begin with its link, pages below it included, and "/stocktake" activates "/stock" |
| SidebarNav.LinksPrefixFree | src/components/navigation/SidebarNav.tsx:28-35 | no two sidebar links other than "/" are prefixes of one another |
| SidebarNav.AtMostOneActive | src/components/navigation/SidebarNav.tsx:28-51 | for every path, at most one entry is active |
| SidebarNav.NoneActiveOnPurchaseOrders | src/components/navigation/SidebarNav.tsx:28-35 | on the purchase-order page no entry is active |

## Left out

- Local storage, `JSON.parse` and `JSON.stringify` are not modelled as code. Storage is a map of raw text; parsing and printing are function parameters; a parse exception is a `None` result.
- The React effect scheduling is left out: which effect runs first on mount, and that the save effect runs after each change of the list. The load and save effects are separate operations.
- `crypto.randomUUID()`, `new Date()` and `window.confirm` are parameters: the fresh id, the current time and the user's answer.
- Toasts, rendering, the dialog and picker widgets, date-picker restrictions, the tables and the chart are UI only.
- The dashboard and reports pages hold no data logic beyond displaying the log.
- The add-row and remove-row buttons of the purchase-order item list are left out. These are field-array operations of the form library. The model therefore cannot show what happens to the order total when a row is removed: the watcher recomputes only on a "change" notification (src/app/purchase-orders/components/PurchaseOrderDialog.tsx:126), so if the removal notifies otherwise, the total stays stale until the next field edit.
- Storage.SaveKeepsStoredText: chained saves keep writing only while each serialized text is non-empty; `JSON.stringify` of a list never gives empty text, but the serializer is a parameter here, so the model does not know that.
- The form library and the schema library are modelled only through their effect on typed values. A form value is a datatype. What the number coercion makes of a field is a number or NaN. `form.reset()` after a submit, and closing the dialog, are UI steps.
- PurchaseOrderDialog.OpenValues: the purchase-order form's mount values are not modelled separately. The dialog is mounted only while open, so the open reset replaces them at once.
- Floating-point rounding and `toFixed` are left out; amounts are exact reals.
- The `date-fns` formatting of labels and log details is left out.
- PurchaseOrdersClient.Client.HandleFormSubmit: the text of the log entry's details is a parameter, not built from the record. The same holds for every other submit and delete handler.
- PurchaseOrdersClient.Client.HandleFormSubmit: copying the dates with `new Date(...)` is the identity on this model's dates. The same holds for the expense page's create.
- LogContext.LogProvider.AddLogEntry: the entry's id and timestamp are parameters rather than a fresh UUID and the clock.
- Page state is not held under a separate class invariant of unique ids, because the app never checks ids. The `RecordList` lemmas state what each operation does to uniqueness.
