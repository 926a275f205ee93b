/** The record shapes of src/types/index.ts.

    Numbers are JavaScript numbers in the source; here they are exact `real`s
    (no floating-point rounding). A `Date` is a calendar timestamp, represented
    by its millisecond count. */
module Records {
  import opened Wrappers

  /** A calendar timestamp (milliseconds since the epoch). */
  type Date = int

  datatype ServiceRecord = ServiceRecord(
    id: string,
    date: Date,
    customerName: string,
    contactNo: string,
    bikeModel: string,
    bikeNo: string,
    serviceDetails: string,
    serviceCount: real,
    cost: real)

  datatype StockItem = StockItem(
    id: string,
    name: string,
    quantityInStock: real,
    price: real,
    category: Option<string>)

  datatype Expense = Expense(
    id: string,
    date: Date,
    category: string,
    description: string,
    amount: real)

  datatype StaffMember = StaffMember(
    id: string,
    name: string,
    designation: string,
    joiningDate: Date,
    salary: real,
    advanceSalary: real,
    contactNo: Option<string>,
    address: Option<string>)

  datatype PurchaseOrderItem = PurchaseOrderItem(
    id: string,
    productName: string,
    quantity: real,
    unitPrice: real,
    totalPrice: real)

  /** The five purchase-order states. */
  datatype PoStatus = Pending | Ordered | Shipped | Received | Cancelled

  datatype PurchaseOrder = PurchaseOrder(
    id: string,
    poNumber: string,
    supplier: string,
    orderDate: Date,
    expectedDeliveryDate: Option<Date>,
    items: seq<PurchaseOrderItem>,
    status: PoStatus,
    notes: Option<string>,
    totalAmount: real)

  // The `id` of each kind of record, as a function value for the shared list operations.

  function ServiceRecordId(r: ServiceRecord): string { r.id }
  function StockItemId(r: StockItem): string { r.id }
  function ExpenseId(r: Expense): string { r.id }
  function StaffMemberId(r: StaffMember): string { r.id }
  function PurchaseOrderId(r: PurchaseOrder): string { r.id }
}
