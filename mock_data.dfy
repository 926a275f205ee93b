/** The seed data of src/lib/mockData.ts: every seed list is empty, the daily sales are
    zero, and the stock value is the sum of price times quantity over the (empty) stock. */
module MockData {
  import opened Records
  import StockItemDialog

  const MockServiceRecords: seq<ServiceRecord> := []
  const MockStockItems: seq<StockItem> := []
  const MockExpenses: seq<Expense> := []
  const MockStaffMembers: seq<StaffMember> := []
  const MockRecentExpenses: seq<Expense> := []

  /** `mockDailySales`. */
  datatype DailySales = DailySales(total: real, count: nat)
  const MockDailySales: DailySales := DailySales(0.0, 0)

  /** One row of `salesDataForChart`. */
  datatype SalesPoint = SalesPoint(date: string, sales: real)
  const SalesDataForChart: seq<SalesPoint> := []

  /** What one stock line is worth. */
  function LineValue(item: StockItem): real {
    item.price * item.quantityInStock
  }

  /** The reference definition of the stock value: the sum of the line values. */
  function TotalValue(items: seq<StockItem>): real {
    if items == [] then 0.0 else LineValue(items[0]) + TotalValue(items[1..])
  }

  /** The `reduce` of the stock value: a left fold that adds the line values, first to
      last, onto the running total `acc`. */
  function StockValueFrom(acc: real, items: seq<StockItem>): real
    decreases |items|
  {
    if items == [] then acc else StockValueFrom(acc + LineValue(items[0]), items[1..])
  }

  /** `mockStockValue` for a stock list: the fold started at 0. */
  function StockValue(items: seq<StockItem>): (v: real)
    ensures v == TotalValue(items)
  {
    FoldIsSum(0.0, items);
    StockValueFrom(0.0, items)
  }

  /** The left fold computes the sum of the line values, added to its start value. */
  lemma {:induction false} FoldIsSum(acc: real, items: seq<StockItem>)
    ensures StockValueFrom(acc, items) == acc + TotalValue(items)
    decreases |items|
  {
    if items != [] {
      FoldIsSum(acc + LineValue(items[0]), items[1..]);
    }
  }

  /** The value of two stock lists together is the sum of their values. */
  lemma {:induction false} StockValueConcat(a: seq<StockItem>, b: seq<StockItem>)
    ensures StockValue(a + b) == StockValue(a) + StockValue(b)
  {
    SumConcat(a, b);
  }

  lemma {:induction false} SumConcat(a: seq<StockItem>, b: seq<StockItem>)
    ensures TotalValue(a + b) == TotalValue(a) + TotalValue(b)
  {
    if a == [] {
      assert a + b == b;
    } else {
      assert (a + b)[1..] == a[1..] + b;
      SumConcat(a[1..], b);
    }
  }

  /** Stock whose every line passes the stock-item schema has a non-negative value. */
  lemma StockValueNonNegative(items: seq<StockItem>)
    requires forall i :: 0 <= i < |items| ==> StockItemDialog.SchemaHolds(items[i])
    ensures StockValue(items) >= 0.0
  {
    SumNonNegative(items);
  }

  lemma {:induction false} SumNonNegative(items: seq<StockItem>)
    requires forall i :: 0 <= i < |items| ==> items[i].price >= 0.0 && items[i].quantityInStock >= 0.0
    ensures TotalValue(items) >= 0.0
  {
    if items != [] {
      SumNonNegative(items[1..]);
    }
  }

  /** The seed values: every seed list and the chart series are empty, the daily sales
      are zero, and so is the stock value. */
  lemma MockValues()
    ensures StockValue(MockStockItems) == 0.0
    ensures MockDailySales.total == 0.0 && MockDailySales.count == 0
    ensures MockServiceRecords == [] && MockStockItems == [] && MockExpenses == []
    ensures MockStaffMembers == [] && MockRecentExpenses == [] && SalesDataForChart == []
  {
  }
}
