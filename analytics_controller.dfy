/**
  The analytics endpoints (`backend/controller/analytics.js`) as functions
  over the `orders` and `order_items` tables. The SQL aggregations become
  group-by sums over sequences, `DATE(created_at)` becomes the day number of
  a millisecond timestamp, and the request's clock is the parameter `now`.
 */
module AnalyticsController {
  import opened Common
  import opened Text
  import opened Grouping
  import Sorting
  import OrderController

  type Order = OrderController.Order
  type OrderItemRow = OrderController.OrderItemRow

  const DayMs := 86400000
  const TopProductsFailed := "Failed to get top products: "

  // ---------------------------------------------------------------- period and sales data

  /** How many days `getSalesData` looks back for its `period` query value (absent reads as `'30d'`). */
  function LookbackDays(period: Option<string>): (days: nat)
    ensures days == 7 || days == 30 || days == 90 || days == 365
  {
    var p := period.GetOr("30d");
    if p == "7d" then 7
    else if p == "30d" then 30
    else if p == "90d" then 90
    else if p == "1y" then 365
    else 30
  }

  /** `DATE(ts)`: the day number of a millisecond timestamp. */
  function DayOf(at: int): int {
    at / DayMs
  }

  function DayOfOrder(o: Order): int {
    DayOf(o.createdAt)
  }

  /** `created_at >= start AND created_at <= end` */
  function InWindow(start: int, end: int): Order -> bool {
    (o: Order) => start <= o.createdAt <= end
  }

  /** `SUM(total_amount)`: NULL amounts are skipped, and the sum of nothing is NULL. */
  function AmountSum(s: seq<Order>): Option<int> {
    if s == [] then None
    else
      var rest := AmountSum(s[1..]);
      match s[0].totalAmount
      case None => rest
      case Some(a) => Some(a + rest.GetOr(0))
  }

  /** A row of the sales chart: the day, how many orders it had, and their summed total. */
  datatype SalesRow = SalesRow(date: int, orders: nat, revenue: Option<int>)

  /** The days `lo` to `hi`, ascending. */
  function DayRange(lo: int, hi: int): (r: seq<int>)
    ensures |r| == if lo <= hi then hi - lo + 1 else 0
    ensures forall i :: 0 <= i < |r| ==> r[i] == lo + i
    decreases hi - lo
  {
    if lo > hi then [] else [lo] + DayRange(lo + 1, hi)
  }

  function OrdersOn(w: seq<Order>, d: int): seq<Order> {
    Filter(w, KeyIs(DayOfOrder, d))
  }

  /** One row per day of `days` that has an order: `GROUP BY DATE(created_at) ORDER BY date`. */
  function RowsFor(w: seq<Order>, days: seq<int>): seq<SalesRow> {
    if days == [] then []
    else
      var on := OrdersOn(w, days[0]);
      (if on != [] then [SalesRow(days[0], |on|, AmountSum(on))] else []) + RowsFor(w, days[1..])
  }

  function WindowStart(now: int, period: Option<string>): int {
    now - LookbackDays(period) * DayMs
  }

  /** The orders `getSalesData` reads. */
  function SalesWindow(orders: seq<Order>, now: int, period: Option<string>): seq<Order> {
    Filter(orders, InWindow(WindowStart(now, period), now))
  }

  /** `getSalesData` */
  function SalesData(orders: seq<Order>, now: int, period: Option<string>): seq<SalesRow> {
    RowsFor(SalesWindow(orders, now, period), DayRange(DayOf(WindowStart(now, period)), DayOf(now)))
  }

  function RowOrders(rows: seq<SalesRow>): int {
    if rows == [] then 0 else rows[0].orders + RowOrders(rows[1..])
  }

  // ---------------------------------------------------------------- dashboard

  datatype DashboardStats = DashboardStats(
    totalOrders: int,
    totalRevenue: int,
    pendingOrders: int,
    todayOrders: int,
    todayRevenue: int)

  /** `x || 0` on a SQL result that may be NULL. */
  function NullAsZero(x: Option<int>): int {
    x.GetOr(0)
  }

  function IsPending(o: Order): bool {
    o.status == "pending"
  }

  /** `getDashboardStats`; `today` is `CURDATE()` as a day number. */
  function Dashboard(orders: seq<Order>, today: int): (r: DashboardStats)
    ensures r.totalOrders == |orders|
    ensures r.totalRevenue == SumOf(orders, AmountOrZero)
    ensures r.pendingOrders == Count(orders, IsPending)
    ensures r.todayOrders == |OrdersOn(orders, today)|
    ensures r.todayRevenue == SumOf(OrdersOn(orders, today), AmountOrZero)
    ensures 0 <= r.pendingOrders <= r.totalOrders
    ensures 0 <= r.todayOrders <= r.totalOrders
  {
    AmountSumSpec(orders);
    AmountSumSpec(OrdersOn(orders, today));
    var todays := OrdersOn(orders, today);
    DashboardStats(
      |orders|,
      NullAsZero(AmountSum(orders)),
      |Filter(orders, IsPending)|,
      |todays|,
      NullAsZero(AmountSum(todays)))
  }

  function AmountOrZero(o: Order): int {
    o.totalAmount.GetOr(0)
  }

  // ---------------------------------------------------------------- top products and categories

  datatype ProductTotal = ProductTotal(productName: string, totalQuantity: int, totalRevenue: int)
  datatype CategoryTotal = CategoryTotal(productName: string, totalQuantity: int)

  function NameOf(it: OrderItemRow): string {
    it.productName
  }

  function Quantity(it: OrderItemRow): int {
    it.quantity
  }

  function Revenue(it: OrderItemRow): int {
    it.quantity * it.price
  }

  function ItemsNamed(items: seq<OrderItemRow>, name: string): seq<OrderItemRow> {
    Filter(items, KeyIs(NameOf, name))
  }

  function ProductTotalOf(items: seq<OrderItemRow>, name: string): ProductTotal {
    ProductTotal(name, SumOf(ItemsNamed(items, name), Quantity), SumOf(ItemsNamed(items, name), Revenue))
  }

  /** One group per name of `names`, with the two sums. */
  function GroupsFor(items: seq<OrderItemRow>, names: seq<string>): (r: seq<ProductTotal>)
    ensures |r| == |names|
    ensures forall k :: 0 <= k < |names| ==> r[k] == ProductTotalOf(items, names[k])
  {
    if names == [] then [] else [ProductTotalOf(items, names[0])] + GroupsFor(items, names[1..])
  }

  /** `GROUP BY product_name` with the two sums. */
  function ProductGroups(items: seq<OrderItemRow>): seq<ProductTotal> {
    GroupsFor(items, DistinctKeys(items, NameOf))
  }

  function TotalQuantity(gs: seq<ProductTotal>): int {
    if gs == [] then 0 else gs[0].totalQuantity + TotalQuantity(gs[1..])
  }

  function TotalRevenue(gs: seq<ProductTotal>): int {
    if gs == [] then 0 else gs[0].totalRevenue + TotalRevenue(gs[1..])
  }

  /** The sort key of `ORDER BY total_quantity DESC`. */
  function ByQuantityDesc(p: ProductTotal): int {
    -p.totalQuantity
  }

  function CategoryByQuantityDesc(c: CategoryTotal): int {
    -c.totalQuantity
  }

  /** `LIMIT n` */
  function Take<T>(s: seq<T>, n: nat): (r: seq<T>)
    ensures |r| == if n < |s| then n else |s|
    ensures r == s[..|r|]
  {
    if n < |s| then s[..n] else s
  }

  /** `parseInt(limit) || 10`, with an absent `limit` defaulting to 10. */
  function LimitOf(limit: Option<string>): (n: int)
    ensures n != 0
  {
    match limit
    case None => 10
    case Some(s) =>
      match ParseIntOf(s)
      case None => 10
      case Some(v) => if v == 0 then 10 else v
  }

  /** The product groups, largest total quantity first. */
  function Ranked(items: seq<OrderItemRow>): seq<ProductTotal> {
    Sorting.SortBy(ProductGroups(items), ByQuantityDesc)
  }

  /** `getTopProducts`: a negative limit makes `LIMIT` a syntax error, which the handler answers with 500. */
  function TopProducts(items: seq<OrderItemRow>, limit: Option<string>): Reply<seq<ProductTotal>> {
    var n := LimitOf(limit);
    if n < 0 then Failure(500, TopProductsFailed) else Success(200, Take(Ranked(items), n))
  }

  function CategoriesFor(items: seq<OrderItemRow>, names: seq<string>): seq<CategoryTotal> {
    if names == [] then []
    else [CategoryTotal(names[0], SumOf(ItemsNamed(items, names[0]), Quantity))] + CategoriesFor(items, names[1..])
  }

  /** `GROUP BY product_name` with only the quantity sum. */
  function CategoryGroups(items: seq<OrderItemRow>): seq<CategoryTotal> {
    CategoriesFor(items, DistinctKeys(items, NameOf))
  }

  /** `getTopCategories`: the same grouping by product name, always `LIMIT 10`. */
  function TopCategories(items: seq<OrderItemRow>): seq<CategoryTotal> {
    Take(Sorting.SortBy(CategoryGroups(items), CategoryByQuantityDesc), 10)
  }

  function DropRevenue(p: ProductTotal): CategoryTotal {
    CategoryTotal(p.productName, p.totalQuantity)
  }

  function Project(s: seq<ProductTotal>): (r: seq<CategoryTotal>)
    ensures |r| == |s|
    ensures forall i :: 0 <= i < |s| ==> r[i] == DropRevenue(s[i])
  {
    if s == [] then [] else [DropRevenue(s[0])] + Project(s[1..])
  }

  // ---------------------------------------------------------------- order stats

  datatype StatusCount = StatusCount(status: string, count: nat)

  function StatusOf(o: Order): string {
    o.status
  }

  function OrdersWithStatus(orders: seq<Order>, status: string): seq<Order> {
    Filter(orders, KeyIs(StatusOf, status))
  }

  function StatsFor(orders: seq<Order>, statuses: seq<string>): (r: seq<StatusCount>)
    ensures |r| == |statuses|
    ensures forall k :: 0 <= k < |statuses| ==> r[k] == StatusCount(statuses[k], |OrdersWithStatus(orders, statuses[k])|)
  {
    if statuses == [] then []
    else [StatusCount(statuses[0], |OrdersWithStatus(orders, statuses[0])|)] + StatsFor(orders, statuses[1..])
  }

  /** `SELECT status, COUNT(*) FROM orders GROUP BY status` */
  function OrderStats(orders: seq<Order>): seq<StatusCount> {
    StatsFor(orders, DistinctKeys(orders, StatusOf))
  }

  function StatusCounts(rows: seq<StatusCount>): int {
    if rows == [] then 0 else rows[0].count + StatusCounts(rows[1..])
  }

  // ---------------------------------------------------------------- lemmas

  /** The period presets: 7, 30 and 90 days, a year of 365 days, and 30 days for anything else or nothing. */
  lemma PeriodPresets(p: string)
    ensures LookbackDays(None) == 30
    ensures LookbackDays(Some("7d")) == 7 && LookbackDays(Some("30d")) == 30
    ensures LookbackDays(Some("90d")) == 90 && LookbackDays(Some("1y")) == 365
    ensures LookbackDays(Some("1d")) == 30
    ensures p != "7d" && p != "30d" && p != "90d" && p != "1y" ==> LookbackDays(Some(p)) == 30
  {
  }

  lemma DivMonotone(a: int, b: int)
    requires a <= b
    ensures a / DayMs <= b / DayMs
  {
    var qa, qb := a / DayMs, b / DayMs;
    assert a == DayMs * qa + a % DayMs && 0 <= a % DayMs < DayMs;
    assert b == DayMs * qb + b % DayMs && 0 <= b % DayMs < DayMs;
    assert DayMs * qa < DayMs * (qb + 1);
  }

  /** The rows of a list of distinct days count exactly the orders of those days. */
  lemma {:induction false} RowsForCount(w: seq<Order>, days: seq<int>)
    ensures RowOrders(RowsFor(w, days)) == SumByKey(w, days, DayOfOrder, One)
  {
    if days != [] {
      RowsForCount(w, days[1..]);
      var on := OrdersOn(w, days[0]);
      SumOfOnes(on);
      var head := if on != [] then [SalesRow(days[0], |on|, AmountSum(on))] else [];
      RowOrdersConcat(head, RowsFor(w, days[1..]));
    }
  }

  lemma {:induction false} RowOrdersConcat(a: seq<SalesRow>, b: seq<SalesRow>)
    ensures RowOrders(a + b) == RowOrders(a) + RowOrders(b)
  {
    if a == [] {
      assert a + b == b;
    } else {
      assert (a + b)[1..] == a[1..] + b;
      RowOrdersConcat(a[1..], b);
    }
  }

  /** The rows follow the order of `days`, each has at least one order, and each carries its day's count and sum. */
  lemma {:induction false} RowsForShape(w: seq<Order>, days: seq<int>)
    ensures forall i :: 0 <= i < |RowsFor(w, days)| ==>
      RowsFor(w, days)[i].date in days
      && RowsFor(w, days)[i].orders >= 1
      && RowsFor(w, days)[i].orders == |OrdersOn(w, RowsFor(w, days)[i].date)|
      && RowsFor(w, days)[i].revenue == AmountSum(OrdersOn(w, RowsFor(w, days)[i].date))
    ensures (forall a, b :: 0 <= a < b < |days| ==> days[a] < days[b]) ==>
      forall a, b :: 0 <= a < b < |RowsFor(w, days)| ==> RowsFor(w, days)[a].date < RowsFor(w, days)[b].date
  {
    if days != [] {
      RowsForShape(w, days[1..]);
      var rest := RowsFor(w, days[1..]);
      var r := RowsFor(w, days);
      forall i | 0 <= i < |rest| ensures rest[i].date in days {
        assert rest[i].date in days[1..];
      }
      if (forall a, b :: 0 <= a < b < |days| ==> days[a] < days[b]) {
        assert forall a, b :: 0 <= a < b < |days[1..]| ==> days[1..][a] < days[1..][b] by {
          forall a, b | 0 <= a < b < |days[1..]| ensures days[1..][a] < days[1..][b] {
            assert days[1..][a] == days[a + 1] && days[1..][b] == days[b + 1];
          }
        }
        forall i | 0 <= i < |rest| ensures days[0] < rest[i].date {
          var j :| 0 <= j < |days[1..]| && days[1..][j] == rest[i].date;
          assert days[j + 1] == rest[i].date;
        }
      }
    }
  }

  /**
    The sales chart: one row per day of the window that has orders, in
    ascending date order; each row counts and sums that day's orders, and
    the counts add up to the number of orders in the window.
   */
  lemma SalesDataSpec(orders: seq<Order>, now: int, period: Option<string>)
    ensures var rows := SalesData(orders, now, period);
      var w := SalesWindow(orders, now, period);
      (forall a, b :: 0 <= a < b < |rows| ==> rows[a].date < rows[b].date)
      && (forall i :: 0 <= i < |rows| ==>
            DayOf(WindowStart(now, period)) <= rows[i].date <= DayOf(now)
            && rows[i].orders >= 1 && rows[i].orders == |OrdersOn(w, rows[i].date)|
            && rows[i].revenue == AmountSum(OrdersOn(w, rows[i].date)))
      && RowOrders(rows) == |w|
  {
    var start := WindowStart(now, period);
    var w := SalesWindow(orders, now, period);
    var days := DayRange(DayOf(start), DayOf(now));
    RowsForShape(w, days);
    RowsForCount(w, days);
    DivMonotone(start, now);
    forall i | 0 <= i < |w| ensures DayOfOrder(w[i]) in days {
      assert InWindow(start, now)(w[i]);
      DivMonotone(start, w[i].createdAt);
      DivMonotone(w[i].createdAt, now);
      assert days[DayOfOrder(w[i]) - DayOf(start)] == DayOfOrder(w[i]);
    }
    SumsCover(w, days, DayOfOrder, One);
    SumOfOnes(w);
  }

  /** `SUM(total_amount) || 0` is the sum with every NULL amount read as 0, and it is NULL only when every amount is. */
  lemma {:induction false} AmountSumSpec(s: seq<Order>)
    ensures NullAsZero(AmountSum(s)) == SumOf(s, AmountOrZero)
    ensures AmountSum(s).None? <==> forall i :: 0 <= i < |s| ==> s[i].totalAmount.None?
  {
    if s != [] {
      AmountSumSpec(s[1..]);
      assert forall i :: 1 <= i < |s| ==> s[i] == s[1..][i - 1];
    }
  }

  /** Today's revenue plus the revenue of every other day is the total revenue. */
  lemma DashboardRevenue(orders: seq<Order>, today: int)
    ensures Dashboard(orders, today).todayRevenue + SumOf(Filter(orders, KeyIsNot(DayOfOrder, today)), AmountOrZero)
      == Dashboard(orders, today).totalRevenue
  {
    AmountSumSpec(orders);
    AmountSumSpec(OrdersOn(orders, today));
    SumOfFilterSplit(orders, KeyIs(DayOfOrder, today), KeyIsNot(DayOfOrder, today), AmountOrZero);
  }

  /** One order of 500 placed today and one of 300 placed ten days earlier. */
  lemma DashboardExample(today: int, a: Order, b: Order)
    requires DayOfOrder(a) == today && a.totalAmount == Some(500)
    requires DayOfOrder(b) == today - 10 && b.totalAmount == Some(300)
    ensures Dashboard([a, b], today) == DashboardStats(2, 800, Dashboard([a, b], today).pendingOrders, 1, 500)
  {
    var s := [a, b];
    assert s[1..] == [b] && [b][1..] == [];
    assert AmountSum([b]) == Some(300);
    assert AmountSum(s) == Some(800);
    assert OrdersOn(s, today) == [a] by {
      assert !KeyIs(DayOfOrder, today)(b);
      assert OrdersOn([b], today) == [];
    }
    assert AmountSum([a]) == Some(500) by {
      assert [a][1..] == [];
    }
  }

  /** An absent, non-numeric or zero limit becomes 10; any other number is used as it is. */
  lemma LimitFallback(s: string)
    ensures LimitOf(None) == 10
    ensures ParseIntOf(s).None? ==> LimitOf(Some(s)) == 10
    ensures ParseIntOf(s) == Some(0) ==> LimitOf(Some(s)) == 10
    ensures ParseIntOf(s).Some? && ParseIntOf(s).value != 0 ==> LimitOf(Some(s)) == ParseIntOf(s).value
  {
  }

  lemma LimitZeroIsTen()
    ensures LimitOf(Some("0")) == 10
    ensures LimitOf(Some("abc")) == 10
  {
    assert DigitPrefix("0") == "0" by {
      assert DigitPrefix("") == "";
    }
    assert TrimStart("0") == "0";
    assert TrimStart("abc") == "abc";
    assert !IsDigit('a');
  }

  /** No two groups share a product name, and each group holds the sums of its own name's items. */
  lemma ProductGroupsDistinct(items: seq<OrderItemRow>)
    ensures var g := ProductGroups(items);
      (forall i, j :: 0 <= i < j < |g| ==> g[i].productName != g[j].productName)
      && (forall j :: 0 <= j < |g| ==> g[j] == ProductTotalOf(items, g[j].productName))
  {
  }

  /** Every item's product name has a group. */
  lemma GroupOfItem(items: seq<OrderItemRow>, i: nat)
    requires i < |items|
    ensures exists j :: 0 <= j < |ProductGroups(items)| && ProductGroups(items)[j].productName == items[i].productName
  {
    var names := DistinctKeys(items, NameOf);
    assert NameOf(items[i]) in names;
    var j :| 0 <= j < |names| && names[j] == NameOf(items[i]);
    assert ProductGroups(items)[j].productName == names[j];
  }

  /** Every group is named after some item: no group comes from nowhere. */
  lemma ItemOfGroup(items: seq<OrderItemRow>, j: nat)
    requires j < |ProductGroups(items)|
    ensures exists i :: 0 <= i < |items| && items[i].productName == ProductGroups(items)[j].productName
  {
    var names := DistinctKeys(items, NameOf);
    assert names[j] in names;
    var i :| 0 <= i < |items| && NameOf(items[i]) == names[j];
    assert ProductGroups(items)[j].productName == names[j];
  }

  lemma {:induction false} GroupsForTotals(items: seq<OrderItemRow>, names: seq<string>)
    ensures TotalQuantity(GroupsFor(items, names)) == SumByKey(items, names, NameOf, Quantity)
    ensures TotalRevenue(GroupsFor(items, names)) == SumByKey(items, names, NameOf, Revenue)
  {
    if names != [] {
      GroupsForTotals(items, names[1..]);
      assert GroupsFor(items, names)[1..] == GroupsFor(items, names[1..]);
    }
  }

  /** Grouping loses and duplicates nothing: the groups' totals add up to the quantity and revenue of all items. */
  lemma ProductGroupsTotals(items: seq<OrderItemRow>)
    ensures TotalQuantity(ProductGroups(items)) == SumOf(items, Quantity)
    ensures TotalRevenue(ProductGroups(items)) == SumOf(items, Revenue)
  {
    var names := DistinctKeys(items, NameOf);
    GroupsForTotals(items, names);
    SumsCover(items, names, NameOf, Quantity);
    SumsCover(items, names, NameOf, Revenue);
  }

  /**
    `getTopProducts` with a positive limit returns the first `limit` groups
    (all of them when there are fewer) of the groups sorted by total
    quantity, largest first: no group left out sold more than one returned.
   */
  lemma TopProductsSpec(items: seq<OrderItemRow>, limit: Option<string>)
    requires LimitOf(limit) > 0
    ensures TopProducts(items, limit).Success?
    ensures var top := TopProducts(items, limit).body;
      var ranked := Ranked(items);
      top == ranked[..|top|]
      && |top| == (if LimitOf(limit) < |ProductGroups(items)| then LimitOf(limit) else |ProductGroups(items)|)
      && multiset(ranked) == multiset(ProductGroups(items))
      && (forall a, b :: 0 <= a < b < |ranked| ==> ranked[a].totalQuantity >= ranked[b].totalQuantity)
      && (forall i, j :: 0 <= i < |top| <= j < |ranked| ==> top[i].totalQuantity >= ranked[j].totalQuantity)
  {
    var ranked := Ranked(items);
    Sorting.SortBySorted(ProductGroups(items), ByQuantityDesc);
    assert forall a, b :: 0 <= a < b < |ranked| ==> ByQuantityDesc(ranked[a]) <= ByQuantityDesc(ranked[b]);
  }

  lemma {:induction false} ProjectInsert(x: ProductTotal, t: seq<ProductTotal>)
    ensures Project(Sorting.Insert(x, t, ByQuantityDesc)) == Sorting.Insert(DropRevenue(x), Project(t), CategoryByQuantityDesc)
  {
    if t != [] && ByQuantityDesc(x) > ByQuantityDesc(t[0]) {
      ProjectInsert(x, t[1..]);
      assert Project(t)[1..] == Project(t[1..]);
    }
  }

  lemma {:induction false} ProjectSort(s: seq<ProductTotal>)
    ensures Project(Sorting.SortBy(s, ByQuantityDesc)) == Sorting.SortBy(Project(s), CategoryByQuantityDesc)
  {
    if s != [] {
      ProjectSort(s[1..]);
      ProjectInsert(s[0], Sorting.SortBy(s[1..], ByQuantityDesc));
      assert Project(s)[1..] == Project(s[1..]);
    }
  }

  lemma {:induction false} CategoriesForProject(items: seq<OrderItemRow>, names: seq<string>)
    ensures CategoriesFor(items, names) == Project(GroupsFor(items, names))
  {
    if names != [] {
      CategoriesForProject(items, names[1..]);
      assert GroupsFor(items, names)[1..] == GroupsFor(items, names[1..]);
    }
  }

  lemma ProjectTake(s: seq<ProductTotal>, n: nat)
    ensures Project(Take(s, n)) == Take(Project(s), n)
  {
  }

  /**
    `getTopCategories` is the top-products ranking without the revenue
    column and always capped at 10 rows, whatever limit is requested.
   */
  lemma TopCategoriesAreTopTen(items: seq<OrderItemRow>)
    ensures |TopCategories(items)| <= 10
    ensures TopCategories(items) == Project(TopProducts(items, Some("10")).body)
  {
    CategoriesForProject(items, DistinctKeys(items, NameOf));
    ProjectSort(ProductGroups(items));
    ProjectTake(Ranked(items), 10);
    LimitTen();
  }

  lemma LimitTen()
    ensures LimitOf(Some("10")) == 10
  {
    assert IntToString(10) == "10";
    ParseIntOfIntToString(10);
  }

  lemma {:induction false} StatsForSum(orders: seq<Order>, statuses: seq<string>)
    ensures StatusCounts(StatsFor(orders, statuses)) == SumByKey(orders, statuses, StatusOf, One)
  {
    if statuses != [] {
      assert StatsFor(orders, statuses)[1..] == StatsFor(orders, statuses[1..]);
      StatsForSum(orders, statuses[1..]);
      SumOfOnes(OrdersWithStatus(orders, statuses[0]));
    }
  }

  /** Order stats: one row per status that occurs, each status once, every count at least one, no zero-filled rows. */
  lemma OrderStatsRows(orders: seq<Order>)
    ensures var rows := OrderStats(orders);
      (forall i, j :: 0 <= i < j < |rows| ==> rows[i].status != rows[j].status)
      && (forall i :: 0 <= i < |orders| ==> exists j :: 0 <= j < |rows| && rows[j].status == orders[i].status)
      && (forall j :: 0 <= j < |rows| ==> rows[j].count >= 1 && rows[j].count == |OrdersWithStatus(orders, rows[j].status)|)
  {
    var statuses := DistinctKeys(orders, StatusOf);
    var rows := OrderStats(orders);
    forall i | 0 <= i < |orders| ensures exists j :: 0 <= j < |rows| && rows[j].status == orders[i].status {
      assert StatusOf(orders[i]) in statuses;
      var j :| 0 <= j < |statuses| && statuses[j] == StatusOf(orders[i]);
      assert rows[j].status == statuses[j];
    }
    forall j | 0 <= j < |rows| ensures rows[j].count >= 1 {
      assert statuses[j] in statuses;
      var i :| 0 <= i < |orders| && StatusOf(orders[i]) == statuses[j];
      assert KeyIs(StatusOf, statuses[j])(orders[i]);
      assert orders[i] in OrdersWithStatus(orders, statuses[j]);
    }
  }

  /** The status counts add up to the number of orders. */
  lemma OrderStatsSum(orders: seq<Order>)
    ensures StatusCounts(OrderStats(orders)) == |orders|
  {
    var statuses := DistinctKeys(orders, StatusOf);
    StatsForSum(orders, statuses);
    SumsCover(orders, statuses, StatusOf, One);
    SumOfOnes(orders);
  }
}
