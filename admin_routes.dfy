/** The admin routes: the dashboard figures, bulk product operations, and the sales,
    inventory, revenue, top-product and low-stock aggregations, each a function of the
    collections it reads. */
module AdminRoutes {
  import opened JsRuntime
  import opened Http
  import opened Aggregation
  import OM = OrderModel
  import PM = ProductModel

  type ProductId = string

  /** A product document with its `_id`. */
  datatype StoredProduct = StoredProduct(id: ProductId, state: PM.ProductState)

  // ---------------------------------------------------------------------------
  // Dashboard counts
  // ---------------------------------------------------------------------------

  /** `Order.countDocuments({ orderStatus: 'pending' })`. */
  function PendingOrders(orders: seq<OM.OrderState>): (r: nat)
    ensures r <= |orders|
  {
    if orders == [] then 0
    else PendingOrders(orders[..|orders| - 1]) + (if orders[|orders| - 1].orderStatus == OM.Pending then 1 else 0)
  }

  lemma {:induction false} PendingOrdersAppend(a: seq<OM.OrderState>, b: seq<OM.OrderState>)
    ensures PendingOrders(a + b) == PendingOrders(a) + PendingOrders(b)
  {
    if b == [] {
      assert a + b == a;
    } else {
      assert (a + b)[..|a + b| - 1] == a + b[..|b| - 1];
      assert (a + b)[|a + b| - 1] == b[|b| - 1];
      PendingOrdersAppend(a, b[..|b| - 1]);
    }
  }

  /** No order is counted exactly when none is pending, and every order is counted exactly
      when all are. */
  lemma {:induction false} PendingOrdersBounds(orders: seq<OM.OrderState>)
    ensures PendingOrders(orders) == 0 <==> forall i :: 0 <= i < |orders| ==> orders[i].orderStatus != OM.Pending
    ensures PendingOrders(orders) == |orders| <==> forall i :: 0 <= i < |orders| ==> orders[i].orderStatus == OM.Pending
  {
    if orders != [] {
      var init := orders[..|orders| - 1];
      PendingOrdersBounds(init);
      assert forall i :: 0 <= i < |init| ==> init[i] == orders[i];
    }
  }

  // ---------------------------------------------------------------------------
  // Revenue
  // ---------------------------------------------------------------------------

  /** `$match: { createdAt: { $gte: startDate }, orderStatus: 'delivered' }`. */
  predicate CountsForRevenue(o: OM.OrderState, start: OM.Time)
  {
    o.orderStatus == OM.Delivered && o.createdAt >= start
  }

  /** `calculateRevenue`: the sum of `pricing.total` over the matched orders, 0 when none
      match (`result[0]?.total || 0`). */
  function Revenue(orders: seq<OM.OrderState>, start: OM.Time): (r: real)
    ensures (forall i :: 0 <= i < |orders| ==> !CountsForRevenue(orders[i], start)) ==> r == 0.0
  {
    if orders == [] then 0.0
    else
      var o := orders[|orders| - 1];
      Revenue(orders[..|orders| - 1], start) + (if CountsForRevenue(o, start) then o.pricing.total else 0.0)
  }

  predicate NonNegativeTotals(orders: seq<OM.OrderState>)
  {
    forall i :: 0 <= i < |orders| ==> orders[i].pricing.total >= 0.0
  }

  /** Revenue adds up over the collection. */
  lemma {:induction false} RevenueAppend(a: seq<OM.OrderState>, b: seq<OM.OrderState>, start: OM.Time)
    ensures Revenue(a + b, start) == Revenue(a, start) + Revenue(b, start)
  {
    if b == [] {
      assert a + b == a;
    } else {
      assert (a + b)[..|a + b| - 1] == a + b[..|b| - 1];
      assert (a + b)[|a + b| - 1] == b[|b| - 1];
      RevenueAppend(a, b[..|b| - 1], start);
    }
  }

  /** A later start counts fewer orders, so with non-negative totals it never yields more. */
  lemma {:induction false} RevenueLaterStart(orders: seq<OM.OrderState>, early: OM.Time, late: OM.Time)
    requires early <= late && NonNegativeTotals(orders)
    ensures 0.0 <= Revenue(orders, late) <= Revenue(orders, early)
  {
    if orders != [] {
      RevenueLaterStart(orders[..|orders| - 1], early, late);
    }
  }

  /** The three periods of the dashboard, given by their start times (the local midnight of
      today, seven days ago and one month ago). */
  datatype PeriodStarts = PeriodStarts(daily: OM.Time, weekly: OM.Time, monthly: OM.Time)

  datatype RevenueFigures = RevenueFigures(daily: real, weekly: real, monthly: real)

  function RevenueByPeriod(orders: seq<OM.OrderState>, starts: PeriodStarts): (r: RevenueFigures)
    ensures r.daily == Revenue(orders, starts.daily) && r.weekly == Revenue(orders, starts.weekly)
    ensures r.monthly == Revenue(orders, starts.monthly)
  {
    RevenueFigures(Revenue(orders, starts.daily), Revenue(orders, starts.weekly), Revenue(orders, starts.monthly))
  }

  /** Since today's midnight is no earlier than a week ago, which is no earlier than a month
      ago, the daily figure never exceeds the weekly one, nor the weekly the monthly one. */
  lemma RevenuePeriodsNested(orders: seq<OM.OrderState>, starts: PeriodStarts)
    requires starts.monthly <= starts.weekly <= starts.daily && NonNegativeTotals(orders)
    ensures 0.0 <= RevenueByPeriod(orders, starts).daily <= RevenueByPeriod(orders, starts).weekly
    ensures RevenueByPeriod(orders, starts).weekly <= RevenueByPeriod(orders, starts).monthly
  {
    RevenueLaterStart(orders, starts.weekly, starts.daily);
    RevenueLaterStart(orders, starts.monthly, starts.weekly);
  }

  // ---------------------------------------------------------------------------
  // Sales report
  // ---------------------------------------------------------------------------

  /** One row of the sales report: a calendar day, the sum of the totals and the number of
      orders. */
  datatype DaySales = DaySales(date: OM.CalendarDate, totalSales: real, ordersCount: nat)

  /** `$match: { createdAt: { $gte: startDate, $lte: endDate }, orderStatus: 'delivered' }`. */
  predicate InSalesReport(o: OM.OrderState, start: OM.Time, end: OM.Time)
  {
    start <= o.createdAt <= end && o.orderStatus == OM.Delivered
  }

  /** `$sort: { '_id.year': 1, '_id.month': 1, '_id.day': 1 }`. */
  predicate DateBefore(a: OM.CalendarDate, b: OM.CalendarDate)
  {
    a.year < b.year || (a.year == b.year && (a.month < b.month || (a.month == b.month && a.day < b.day)))
  }

  predicate Ascending(report: seq<DaySales>)
  {
    forall i, j :: 0 <= i < j < |report| ==> DateBefore(report[i].date, report[j].date)
  }

  /** The row for `date`, if there is one. */
  function RowFor(report: seq<DaySales>, date: OM.CalendarDate): Option<DaySales>
  {
    if report == [] then None
    else if report[0].date == date then Some(report[0])
    else RowFor(report[1..], date)
  }

  lemma {:induction false} RowForHasDate(report: seq<DaySales>, date: OM.CalendarDate)
    ensures RowFor(report, date).Some? ==> RowFor(report, date).value.date == date
  {
    if report != [] && report[0].date != date {
      RowForHasDate(report[1..], date);
    }
  }

  /** A row with one more order of `total` on its day. */
  function AddToRow(row: Option<DaySales>, date: OM.CalendarDate, total: real): DaySales
  {
    match row
    case None => DaySales(date, total, 1)
    case Some(r) => DaySales(date, r.totalSales + total, r.ordersCount + 1)
  }

  /** `$group` by day, one order at a time, keeping the rows in date order. */
  function AddSale(report: seq<DaySales>, date: OM.CalendarDate, total: real): (r: seq<DaySales>)
  {
    if report == [] then [DaySales(date, total, 1)]
    else if report[0].date == date then [AddToRow(Some(report[0]), date, total)] + report[1..]
    else if DateBefore(date, report[0].date) then [DaySales(date, total, 1)] + report
    else [report[0]] + AddSale(report[1..], date, total)
  }

  /** The first row's date comes before every later date. */
  lemma FirstRowIsEarliest(report: seq<DaySales>, date: OM.CalendarDate)
    requires Ascending(report) && report != [] && DateBefore(date, report[0].date)
    ensures RowFor(report, date).None?
  {
    if |report| > 1 {
      assert Ascending(report[1..]);
      assert DateBefore(report[0].date, report[1].date);
      FirstRowIsEarliest(report[1..], date);
    }
  }

  /** Every row date of `AddSale`'s result is `date` or a row date of the report. */
  lemma {:induction false} AddSaleDates(report: seq<DaySales>, date: OM.CalendarDate, total: real)
    ensures forall i :: 0 <= i < |AddSale(report, date, total)| ==>
              AddSale(report, date, total)[i].date == date ||
              exists k :: 0 <= k < |report| && report[k].date == AddSale(report, date, total)[i].date
  {
    if report != [] && report[0].date != date && !DateBefore(date, report[0].date) {
      AddSaleDates(report[1..], date, total);
      var r := AddSale(report, date, total);
      forall i | 0 <= i < |r|
        ensures r[i].date == date || exists k :: 0 <= k < |report| && report[k].date == r[i].date
      {
        if i > 0 {
          if r[i].date != date {
            var k :| 0 <= k < |report[1..]| && report[1..][k].date == r[i].date;
            assert report[k + 1].date == r[i].date;
          }
        } else {
          assert report[0].date == r[i].date;
        }
      }
    }
  }

  /** Adding an order keeps the rows in date order. */
  lemma {:induction false} AddSaleAscending(report: seq<DaySales>, date: OM.CalendarDate, total: real)
    requires Ascending(report)
    ensures Ascending(AddSale(report, date, total))
  {
    if report != [] && report[0].date != date && !DateBefore(date, report[0].date) {
      assert Ascending(report[1..]);
      AddSaleAscending(report[1..], date, total);
      AddSaleDates(report[1..], date, total);
      var rest := AddSale(report[1..], date, total);
      forall j | 0 <= j < |rest| ensures DateBefore(report[0].date, rest[j].date) {
        if rest[j].date != date {
          var k :| 0 <= k < |report[1..]| && report[1..][k].date == rest[j].date;
          assert report[k + 1] == report[1..][k];
        }
      }
    }
  }

  /** Adding an order to its day changes that day's row, and only that one. */
  lemma {:induction false} AddSaleRows(report: seq<DaySales>, date: OM.CalendarDate, total: real, d: OM.CalendarDate)
    requires Ascending(report)
    ensures RowFor(AddSale(report, date, total), d) ==
              if d == date then Some(AddToRow(RowFor(report, date), date, total)) else RowFor(report, d)
  {
    if report == [] {
    } else if report[0].date == date {
    } else if DateBefore(date, report[0].date) {
      FirstRowIsEarliest(report, date);
    } else {
      assert Ascending(report[1..]);
      AddSaleRows(report[1..], date, total, d);
    }
  }

  /** The sales report: the day rows of the matched orders, which `AddSale` keeps in
      ascending date order as each order is added. */
  function SalesReport(orders: seq<OM.OrderState>, start: OM.Time, end: OM.Time, dateOf: OM.Time -> OM.CalendarDate): (r: seq<DaySales>)
  {
    if orders == [] then []
    else
      var report := SalesReport(orders[..|orders| - 1], start, end, dateOf);
      var o := orders[|orders| - 1];
      if InSalesReport(o, start, end) then AddSale(report, dateOf(o.createdAt), o.pricing.total) else report
  }

  /** The number of matched orders on day `d`. */
  function OrdersOn(orders: seq<OM.OrderState>, start: OM.Time, end: OM.Time, dateOf: OM.Time -> OM.CalendarDate, d: OM.CalendarDate): nat
  {
    if orders == [] then 0
    else
      var o := orders[|orders| - 1];
      OrdersOn(orders[..|orders| - 1], start, end, dateOf, d)
        + (if InSalesReport(o, start, end) && dateOf(o.createdAt) == d then 1 else 0)
  }

  /** The sum of the totals of the matched orders on day `d`. */
  function SalesOn(orders: seq<OM.OrderState>, start: OM.Time, end: OM.Time, dateOf: OM.Time -> OM.CalendarDate, d: OM.CalendarDate): real
  {
    if orders == [] then 0.0
    else
      var o := orders[|orders| - 1];
      SalesOn(orders[..|orders| - 1], start, end, dateOf, d)
        + (if InSalesReport(o, start, end) && dateOf(o.createdAt) == d then o.pricing.total else 0.0)
  }

  /** A day without matched orders adds nothing to the sales. */
  lemma {:induction false} NoOrdersNoSales(orders: seq<OM.OrderState>, start: OM.Time, end: OM.Time,
                                           dateOf: OM.Time -> OM.CalendarDate, d: OM.CalendarDate)
    ensures OrdersOn(orders, start, end, dateOf, d) == 0 ==> SalesOn(orders, start, end, dateOf, d) == 0.0
  {
    if orders != [] {
      NoOrdersNoSales(orders[..|orders| - 1], start, end, dateOf, d);
    }
  }

  /** The report is in ascending date order and has, for every day with matched orders,
      exactly one row holding their count and the sum of their totals; days without matched
      orders have no row. */
  lemma {:induction false} SalesReportCorrect(orders: seq<OM.OrderState>, start: OM.Time, end: OM.Time,
                                              dateOf: OM.Time -> OM.CalendarDate, d: OM.CalendarDate)
    ensures Ascending(SalesReport(orders, start, end, dateOf))
    ensures RowFor(SalesReport(orders, start, end, dateOf), d) ==
              if OrdersOn(orders, start, end, dateOf, d) == 0 then None
              else Some(DaySales(d, SalesOn(orders, start, end, dateOf, d), OrdersOn(orders, start, end, dateOf, d)))
  {
    if orders != [] {
      var init := orders[..|orders| - 1];
      var o := orders[|orders| - 1];
      var report := SalesReport(init, start, end, dateOf);
      SalesReportCorrect(init, start, end, dateOf, d);
      if InSalesReport(o, start, end) {
        var date := dateOf(o.createdAt);
        SalesReportCorrect(init, start, end, dateOf, date);
        NoOrdersNoSales(init, start, end, dateOf, date);
        AddSaleAscending(report, date, o.pricing.total);
        AddSaleRows(report, date, o.pricing.total, d);
      }
    }
  }

  // ---------------------------------------------------------------------------
  // Inventory report
  // ---------------------------------------------------------------------------

  /** `$lt: ['$stock', 10]`. */
  const LowStockThreshold := 10

  /** One `$group` row of the inventory report; `averagePrice` is `priceSum / totalProducts`. */
  datatype CategoryStats = CategoryStats(totalProducts: nat, priceSum: real, totalStock: int, lowStock: nat)

  function AveragePrice(s: CategoryStats): real
    requires s.totalProducts > 0
  {
    s.priceSum / (s.totalProducts as real)
  }

  const NoStats := CategoryStats(0, 0.0, 0, 0)

  function CountProduct(s: CategoryStats, p: PM.ProductState): CategoryStats
  {
    CategoryStats(s.totalProducts + 1, s.priceSum + p.price, s.totalStock + p.stock,
                  s.lowStock + (if p.stock < LowStockThreshold then 1 else 0))
  }

  /** `$group: { _id: '$category', ... }`: one row per category present. */
  function Inventory(products: seq<StoredProduct>): (r: map<string, CategoryStats>)
  {
    if products == [] then map[]
    else
      var report := Inventory(products[..|products| - 1]);
      var p := products[|products| - 1].state;
      var row := if p.category in report then report[p.category] else NoStats;
      report[p.category := CountProduct(row, p)]
  }

  /** The statistics of the products of category `c`, counted one by one. */
  function StatsOf(products: seq<StoredProduct>, c: string): CategoryStats
  {
    if products == [] then NoStats
    else
      var s := StatsOf(products[..|products| - 1], c);
      var p := products[|products| - 1].state;
      if p.category == c then CountProduct(s, p) else s
  }

  /** A category without products has empty statistics. */
  lemma {:induction false} NoProductsNoStats(products: seq<StoredProduct>, c: string)
    ensures StatsOf(products, c).totalProducts == 0 ==> StatsOf(products, c) == NoStats
  {
    if products != [] {
      NoProductsNoStats(products[..|products| - 1], c);
    }
  }

  /** Each category with products has a row with their count, price sum, stock sum and
      number below the threshold; other categories have none. */
  lemma {:induction false} InventoryCorrect(products: seq<StoredProduct>, c: string)
    ensures c in Inventory(products) <==> StatsOf(products, c).totalProducts > 0
    ensures c in Inventory(products) ==> Inventory(products)[c] == StatsOf(products, c)
  {
    if products != [] {
      InventoryCorrect(products[..|products| - 1], c);
      NoProductsNoStats(products[..|products| - 1], c);
    }
  }

  /** A category never has more low-stock products than products. */
  lemma {:induction false} LowStockWithinCategory(products: seq<StoredProduct>, c: string)
    ensures StatsOf(products, c).lowStock <= StatsOf(products, c).totalProducts
  {
    if products != [] {
      LowStockWithinCategory(products[..|products| - 1], c);
    }
  }

  // ---------------------------------------------------------------------------
  // Top products
  // ---------------------------------------------------------------------------

  /** One `$group` row of `getTopProducts`. */
  datatype ProductSales = ProductSales(product: ProductId, totalSold: int, revenue: real)

  /** `$unwind: '$items'`: every item of every order, orders of any status included. */
  function AllItems(orders: seq<OM.OrderState>): seq<OM.OrderItem>
  {
    if orders == [] then [] else AllItems(orders[..|orders| - 1]) + orders[|orders| - 1].items
  }

  function SalesRowFor(groups: seq<ProductSales>, p: ProductId): Option<ProductSales>
  {
    if groups == [] then None
    else if groups[0].product == p then Some(groups[0])
    else SalesRowFor(groups[1..], p)
  }

  function AddItemToRow(row: Option<ProductSales>, item: OM.OrderItem): ProductSales
  {
    var amount := item.price * (item.quantity as real);
    match row
    case None => ProductSales(item.product, item.quantity, amount)
    case Some(r) => ProductSales(item.product, r.totalSold + item.quantity, r.revenue + amount)
  }

  /** Adds one item to its product's row, or opens a row at the end. */
  function Tally(groups: seq<ProductSales>, item: OM.OrderItem): seq<ProductSales>
  {
    if groups == [] then [AddItemToRow(None, item)]
    else if groups[0].product == item.product then [AddItemToRow(Some(groups[0]), item)] + groups[1..]
    else [groups[0]] + Tally(groups[1..], item)
  }

  /** Tallying an item changes the row of its product, and only that one. */
  lemma {:induction false} TallyRows(groups: seq<ProductSales>, item: OM.OrderItem, p: ProductId)
    ensures SalesRowFor(Tally(groups, item), p) ==
              if p == item.product then Some(AddItemToRow(SalesRowFor(groups, p), item)) else SalesRowFor(groups, p)
  {
    if groups != [] && groups[0].product != item.product {
      TallyRows(groups[1..], item, p);
    }
  }

  /** Every product has at most one row. */
  predicate DistinctProducts(groups: seq<ProductSales>)
  {
    forall i, j :: 0 <= i < j < |groups| ==> groups[i].product != groups[j].product
  }

  lemma {:induction false} SalesRowForIn(groups: seq<ProductSales>, p: ProductId)
    ensures SalesRowFor(groups, p).None? <==> forall i :: 0 <= i < |groups| ==> groups[i].product != p
  {
    if groups != [] {
      SalesRowForIn(groups[1..], p);
      if groups[0].product != p {
        assert forall i :: 1 <= i < |groups| ==> groups[i] == groups[1..][i - 1];
      }
    }
  }

  lemma {:induction false} TallyProducts(groups: seq<ProductSales>, item: OM.OrderItem)
    ensures forall i :: 0 <= i < |Tally(groups, item)| ==>
              Tally(groups, item)[i].product == item.product ||
              exists k :: 0 <= k < |groups| && groups[k].product == Tally(groups, item)[i].product
  {
    if groups != [] && groups[0].product != item.product {
      TallyProducts(groups[1..], item);
      var t := Tally(groups, item);
      forall i | 0 <= i < |t|
        ensures t[i].product == item.product || exists k :: 0 <= k < |groups| && groups[k].product == t[i].product
      {
        if i == 0 {
          assert groups[0].product == t[0].product;
        } else if t[i].product != item.product {
          var k :| 0 <= k < |groups[1..]| && groups[1..][k].product == t[i].product;
          assert groups[k + 1].product == t[i].product;
        }
      }
    }
  }

  lemma {:induction false} TallyDistinct(groups: seq<ProductSales>, item: OM.OrderItem)
    requires DistinctProducts(groups)
    ensures DistinctProducts(Tally(groups, item))
  {
    if groups != [] && groups[0].product != item.product {
      TallyDistinct(groups[1..], item);
      TallyProducts(groups[1..], item);
      var rest := Tally(groups[1..], item);
      forall j | 0 <= j < |rest| ensures groups[0].product != rest[j].product {
        if rest[j].product != item.product {
          var k :| 0 <= k < |groups[1..]| && groups[1..][k].product == rest[j].product;
          assert groups[k + 1].product == rest[j].product;
        }
      }
    }
  }

  /** `$group: { _id: '$items.product', totalSold: ..., revenue: ... }`. */
  function GroupItems(items: seq<OM.OrderItem>): seq<ProductSales>
  {
    if items == [] then [] else Tally(GroupItems(items[..|items| - 1]), items[|items| - 1])
  }

  /** The number of items of product `p`. */
  function ItemsOf(items: seq<OM.OrderItem>, p: ProductId): nat
  {
    if items == [] then 0 else ItemsOf(items[..|items| - 1], p) + (if items[|items| - 1].product == p then 1 else 0)
  }

  /** Σ quantity over the items of product `p`. */
  function SoldOf(items: seq<OM.OrderItem>, p: ProductId): int
  {
    if items == [] then 0
    else SoldOf(items[..|items| - 1], p) + (if items[|items| - 1].product == p then items[|items| - 1].quantity else 0)
  }

  /** Σ price × quantity over the items of product `p`. */
  function RevenueOf(items: seq<OM.OrderItem>, p: ProductId): real
  {
    if items == [] then 0.0
    else
      var it := items[|items| - 1];
      RevenueOf(items[..|items| - 1], p) + (if it.product == p then it.price * (it.quantity as real) else 0.0)
  }

  /** A product without items has sold nothing. */
  lemma {:induction false} NoItemsNoSales(items: seq<OM.OrderItem>, p: ProductId)
    ensures ItemsOf(items, p) == 0 ==> SoldOf(items, p) == 0 && RevenueOf(items, p) == 0.0
  {
    if items != [] {
      NoItemsNoSales(items[..|items| - 1], p);
    }
  }

  /** Each product that occurs in the items has exactly one row, holding the sum of its
      quantities and of its amounts; other products have none. */
  lemma {:induction false} GroupItemsCorrect(items: seq<OM.OrderItem>, p: ProductId)
    ensures DistinctProducts(GroupItems(items))
    ensures SalesRowFor(GroupItems(items), p) ==
              if ItemsOf(items, p) == 0 then None else Some(ProductSales(p, SoldOf(items, p), RevenueOf(items, p)))
  {
    if items != [] {
      var init := items[..|items| - 1];
      var item := items[|items| - 1];
      GroupItemsCorrect(init, p);
      GroupItemsCorrect(init, item.product);
      NoItemsNoSales(init, item.product);
      TallyDistinct(GroupItems(init), item);
      TallyRows(GroupItems(init), item, p);
    }
  }

  /** `$sort: { revenue: -1 }`. */
  function NegatedRevenue(s: ProductSales): real
  {
    -s.revenue
  }

  /** `getTopProducts`: rows by descending revenue, the first five, and then only those whose
      product still exists (`$lookup` followed by `$unwind` drops the others). */
  function TopProducts(orders: seq<OM.OrderState>, existing: set<ProductId>): seq<ProductSales>
  {
    var ranked := SortBy(GroupItems(AllItems(orders)), NegatedRevenue);
    Filter(Limit(ranked, 5), (s: ProductSales) => s.product in existing)
  }

  /** At most five rows, by descending revenue, each a row of an existing product; and every
      row left out of the first five earns no more than any row kept. */
  lemma TopProductsCorrect(orders: seq<OM.OrderState>, existing: set<ProductId>)
    ensures |TopProducts(orders, existing)| <= 5
    ensures SortedBy(TopProducts(orders, existing), NegatedRevenue)
    ensures forall i :: 0 <= i < |TopProducts(orders, existing)| ==>
              TopProducts(orders, existing)[i] in GroupItems(AllItems(orders))
              && TopProducts(orders, existing)[i].product in existing
    ensures forall g, i ::
              (g in GroupItems(AllItems(orders)) && g !in Limit(SortBy(GroupItems(AllItems(orders)), NegatedRevenue), 5)
               && 0 <= i < |TopProducts(orders, existing)|) ==> g.revenue <= TopProducts(orders, existing)[i].revenue
  {
    var groups := GroupItems(AllItems(orders));
    var ranked := SortBy(groups, NegatedRevenue);
    var kept := Limit(ranked, 5);
    var keep := (s: ProductSales) => s.product in existing;
    SortByCorrect(groups, NegatedRevenue);
    LimitSorted(ranked, NegatedRevenue, 5);
    FilterSorted(kept, keep, NegatedRevenue);
    var top := Filter(kept, keep);
    forall i | 0 <= i < |top| ensures top[i] in groups && top[i].product in existing {
      SortByMembers(groups, NegatedRevenue, top[i]);
    }
    forall g, i | g in groups && g !in kept && 0 <= i < |top| ensures g.revenue <= top[i].revenue {
      LimitKeepsSmallest(groups, NegatedRevenue, 5, g);
      var k :| 0 <= k < |kept| && kept[k] == top[i];
      assert NegatedRevenue(kept[k]) <= NegatedRevenue(g);
    }
  }

  /** The limit applies before the lookup: when a product among the five best sellers no
      longer exists, fewer than five rows are returned, whatever else was sold. */
  lemma DeletedBestSellerShortensList(orders: seq<OM.OrderState>, existing: set<ProductId>, k: nat)
    requires k < |Limit(SortBy(GroupItems(AllItems(orders)), NegatedRevenue), 5)|
    requires Limit(SortBy(GroupItems(AllItems(orders)), NegatedRevenue), 5)[k].product !in existing
    ensures |TopProducts(orders, existing)| < 5
  {
    var kept := Limit(SortBy(GroupItems(AllItems(orders)), NegatedRevenue), 5);
    var keep := (s: ProductSales) => s.product in existing;
    FilterDropsOne(kept, keep, k);
  }

  lemma {:induction false} FilterDropsOne<T>(s: seq<T>, keep: T -> bool, k: nat)
    requires k < |s| && !keep(s[k])
    ensures |Filter(s, keep)| < |s|
  {
    var init := s[..|s| - 1];
    if k < |s| - 1 {
      assert init[k] == s[k];
      FilterDropsOne(init, keep, k);
    }
  }

  // ---------------------------------------------------------------------------
  // Low-stock list and recent orders
  // ---------------------------------------------------------------------------

  /** `.select('name stock category')`, with the `_id` that is always selected. */
  datatype StockEntry = StockEntry(id: ProductId, name: string, stock: int, category: string)

  function Entry(p: StoredProduct): StockEntry
  {
    StockEntry(p.id, p.state.name, p.state.stock, p.state.category)
  }

  function Entries(products: seq<StoredProduct>): (r: seq<StockEntry>)
    ensures |r| == |products|
    ensures forall i :: 0 <= i < |r| ==> r[i] == Entry(products[i])
  {
    if products == [] then [] else Entries(products[..|products| - 1]) + [Entry(products[|products| - 1])]
  }

  function StockKey(e: StockEntry): real
  {
    e.stock as real
  }

  /** `getLowStockProducts`: products with stock below 10, by ascending stock. */
  function LowStockProducts(products: seq<StoredProduct>): seq<StockEntry>
  {
    SortBy(Filter(Entries(products), (e: StockEntry) => e.stock < LowStockThreshold), StockKey)
  }

  /** The list is in ascending stock order and lists exactly the products below the
      threshold. */
  lemma LowStockProductsCorrect(products: seq<StoredProduct>, e: StockEntry)
    ensures SortedBy(LowStockProducts(products), StockKey)
    ensures e in LowStockProducts(products) <==>
              e.stock < LowStockThreshold && exists i :: 0 <= i < |products| && Entry(products[i]) == e
  {
    var entries := Entries(products);
    var low := Filter(entries, (x: StockEntry) => x.stock < LowStockThreshold);
    SortByCorrect(low, StockKey);
    SortByMembers(low, StockKey, e);
    if e in low {
      var j :| 0 <= j < |low| && low[j] == e;
      var i :| 0 <= i < |entries| && entries[i] == e;
      assert Entry(products[i]) == e;
    }
    if e.stock < LowStockThreshold && exists i :: 0 <= i < |products| && Entry(products[i]) == e {
      var i :| 0 <= i < |products| && Entry(products[i]) == e;
      assert entries[i] == e;
    }
  }

  /** `.sort('-createdAt')`. */
  function NegatedCreatedAt(o: OM.OrderState): real
  {
    -(o.createdAt as real)
  }

  /** `getRecentOrders`: the ten most recent orders, newest first. */
  function RecentOrders(orders: seq<OM.OrderState>): seq<OM.OrderState>
  {
    Limit(SortBy(orders, NegatedCreatedAt), 10)
  }

  /** At most ten orders, newest first, each from the collection, and none left out is newer
      than one kept. */
  lemma RecentOrdersCorrect(orders: seq<OM.OrderState>)
    ensures |RecentOrders(orders)| <= 10
    ensures SortedBy(RecentOrders(orders), NegatedCreatedAt)
    ensures forall i :: 0 <= i < |RecentOrders(orders)| ==> RecentOrders(orders)[i] in orders
    ensures forall o, i :: o in orders && o !in RecentOrders(orders) && 0 <= i < |RecentOrders(orders)| ==>
              o.createdAt <= RecentOrders(orders)[i].createdAt
  {
    var sorted := SortBy(orders, NegatedCreatedAt);
    SortByCorrect(orders, NegatedCreatedAt);
    LimitSorted(sorted, NegatedCreatedAt, 10);
    var recent := Limit(sorted, 10);
    forall i | 0 <= i < |recent| ensures recent[i] in orders {
      SortByMembers(orders, NegatedCreatedAt, recent[i]);
    }
    forall o, i | o in orders && o !in recent && 0 <= i < |recent| ensures o.createdAt <= recent[i].createdAt {
      LimitKeepsSmallest(orders, NegatedCreatedAt, 10, o);
      assert NegatedCreatedAt(recent[i]) <= NegatedCreatedAt(o);
    }
  }

  // ---------------------------------------------------------------------------
  // The dashboard
  // ---------------------------------------------------------------------------

  datatype DashboardStats = DashboardStats(
    totalOrders: nat,
    pendingOrders: nat,
    totalProducts: nat,
    totalUsers: nat,
    revenue: RevenueFigures,
    topProducts: seq<ProductSales>,
    recentOrders: seq<OM.OrderState>,
    lowStockProducts: seq<StockEntry>)

  /** `GET /dashboard`: the statistics, from the two collections, the number of users and
      the three period starts. */
  function Dashboard(orders: seq<OM.OrderState>, products: seq<StoredProduct>, userCount: nat, starts: PeriodStarts): (r: DashboardStats)
    ensures r.pendingOrders <= r.totalOrders == |orders| && r.totalProducts == |products|
    ensures r.totalUsers == userCount
    ensures r.pendingOrders == PendingOrders(orders) && r.revenue == RevenueByPeriod(orders, starts)
    ensures r.topProducts == TopProducts(orders, set i | 0 <= i < |products| :: products[i].id)
    ensures r.recentOrders == RecentOrders(orders) && r.lowStockProducts == LowStockProducts(products)
    ensures |r.topProducts| <= 5 && |r.recentOrders| <= 10
    ensures starts.monthly <= starts.weekly <= starts.daily && NonNegativeTotals(orders) ==>
              0.0 <= r.revenue.daily <= r.revenue.weekly <= r.revenue.monthly
  {
    var existing := set i | 0 <= i < |products| :: products[i].id;
    TopProductsCorrect(orders, existing);
    RecentOrdersCorrect(orders);
    assert starts.monthly <= starts.weekly <= starts.daily && NonNegativeTotals(orders) ==>
             0.0 <= RevenueByPeriod(orders, starts).daily <= RevenueByPeriod(orders, starts).weekly
             <= RevenueByPeriod(orders, starts).monthly by {
      if starts.monthly <= starts.weekly <= starts.daily && NonNegativeTotals(orders) {
        RevenuePeriodsNested(orders, starts);
      }
    }
    DashboardStats(|orders|, PendingOrders(orders), |products|, userCount, RevenueByPeriod(orders, starts),
                   TopProducts(orders, existing), RecentOrders(orders), LowStockProducts(products))
  }

  // ---------------------------------------------------------------------------
  // Bulk operations
  // ---------------------------------------------------------------------------

  /** An element of the request's `products` array: a product document for `update`, an id
      for `delete`. */
  datatype BulkItem = Document(product: StoredProduct) | IdItem(id: ProductId)

  datatype BulkOutcome = BulkOutcome(products: seq<StoredProduct>, response: Response)

  /** The last document in `items` for product `id`, if any: the update that lands last. */
  function LastUpdateFor(items: seq<BulkItem>, id: ProductId): Option<PM.ProductState>
  {
    if items == [] then None
    else
      var last := items[|items| - 1];
      if last.Document? && last.product.id == id then Some(last.product.state)
      else LastUpdateFor(items[..|items| - 1], id)
  }

  function UpdateOne(items: seq<BulkItem>, p: StoredProduct): StoredProduct
  {
    match LastUpdateFor(items, p.id)
    case None => p
    case Some(state) => StoredProduct(p.id, state)
  }

  /** `findByIdAndUpdate` for every document: each stored product that a document names is
      replaced by it; ids that name no product change nothing. */
  function ApplyUpdates(products: seq<StoredProduct>, items: seq<BulkItem>): (r: seq<StoredProduct>)
    ensures |r| == |products|
    ensures forall i :: 0 <= i < |r| ==> r[i] == UpdateOne(items, products[i])
  {
    if products == [] then []
    else ApplyUpdates(products[..|products| - 1], items) + [UpdateOne(items, products[|products| - 1])]
  }

  /** The ids in `items`, for `_id: { $in: products }`. */
  function IdsOf(items: seq<BulkItem>): set<ProductId>
  {
    set i | 0 <= i < |items| && items[i].IdItem? :: items[i].id
  }

  /** `POST /products/bulk`. */
  function Bulk(products: seq<StoredProduct>, operation: string, items: seq<BulkItem>): BulkOutcome
  {
    if operation == "update" then BulkOutcome(ApplyUpdates(products, items), Ok(200))
    else if operation == "delete" then
      BulkOutcome(Filter(products, (p: StoredProduct) => p.id !in IdsOf(items)), Ok(200))
    else BulkOutcome(products, Fail(500, "Invalid bulk operation"))
  }

  /** A delete removes exactly the listed ids and keeps every other product. */
  lemma BulkDeleteExactlyListed(products: seq<StoredProduct>, items: seq<BulkItem>, p: StoredProduct)
    ensures Bulk(products, "delete", items).response == Ok(200)
    ensures p in Bulk(products, "delete", items).products <==> p in products && p.id !in IdsOf(items)
  {
    var keep := (q: StoredProduct) => q.id !in IdsOf(items);
    var r := Filter(products, keep);
    if p in r {
      var i :| 0 <= i < |r| && r[i] == p;
    }
    if p in products && keep(p) {
      var i :| 0 <= i < |products| && products[i] == p;
    }
  }

  /** An update keeps every product in place: a product a document names takes that
      document's fields, every other product is unchanged. */
  lemma BulkUpdateInPlace(products: seq<StoredProduct>, items: seq<BulkItem>, i: nat)
    requires i < |products|
    ensures |Bulk(products, "update", items).products| == |products|
    ensures Bulk(products, "update", items).products[i].id == products[i].id
    ensures (forall k :: 0 <= k < |items| && items[k].Document? ==> items[k].product.id != products[i].id) ==>
              Bulk(products, "update", items).products[i] == products[i]
  {
    NoDocumentNoUpdate(items, products[i].id);
  }

  lemma {:induction false} NoDocumentNoUpdate(items: seq<BulkItem>, id: ProductId)
    ensures (forall k :: 0 <= k < |items| && items[k].Document? ==> items[k].product.id != id) ==>
              LastUpdateFor(items, id).None?
  {
    if items != [] {
      NoDocumentNoUpdate(items[..|items| - 1], id);
    }
  }

  /** Any other operation is refused with 500 and changes nothing. */
  lemma BulkUnknownOperation(products: seq<StoredProduct>, operation: string, items: seq<BulkItem>)
    ensures (operation != "update" && operation != "delete") <==>
              Bulk(products, operation, items) == BulkOutcome(products, Fail(500, "Invalid bulk operation"))
  {
  }
}
