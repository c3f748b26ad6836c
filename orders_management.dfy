/**
  The admin order list (`OrdersManagement`): every order the server sends
  is turned into the list's own shape, narrowed to a time window ending now,
  then to a status and a search text, and summarised as a count, a revenue
  and the numbers of pending and delivered orders. Each window button also
  shows how many orders fall in that window.
 */
module OrdersManagement {
  import opened Common
  import opened Text
  import OC = OrderController

  datatype AdminItem = AdminItem(productName: string, quantity: int, price: int, total: int)

  datatype AdminOrder = AdminOrder(
    id: string,
    customerName: string,
    customerEmail: string,
    customerPhone: string,
    items: seq<AdminItem>,
    total: int,
    status: string,
    orderDate: int,
    deliveryAddress: string,
    paymentMethod: string,
    paymentStatus: string)

  /** One line of an order: its total is the quantity times the unit price. */
  function ItemOf(row: OC.OrderItemRow): (r: AdminItem)
    ensures r.productName == row.productName && r.quantity == row.quantity && r.price == row.price
    ensures r.total == row.quantity * row.price
  {
    AdminItem(row.productName, row.quantity, row.price, row.quantity * row.price)
  }

  /**
    The transform of one order: no e-mail (the server has none), the stored
    total or 0, the address as one line, and the payment always "paid".
   */
  function AdminOrderOf(o: OC.OrderWithItems): (r: AdminOrder)
    ensures r.id == o.order.id && r.customerName == o.order.name && r.customerEmail == ""
    ensures r.status == o.order.status && r.orderDate == o.order.createdAt
    ensures r.total == o.order.totalAmount.GetOr(0) && r.paymentStatus == "paid"
    ensures |r.items| == |o.items|
    ensures forall k :: 0 <= k < |o.items| ==> r.items[k] == ItemOf(o.items[k])
  {
    AdminOrder(
      o.order.id, o.order.name, "", o.order.phone,
      Map(o.items, ItemOf),
      o.order.totalAmount.GetOr(0),
      o.order.status,
      o.order.createdAt,
      o.order.streetAddress + ", " + o.order.city + ", " + o.order.postalCode,
      o.order.paymentMethod,
      "paid")
  }

  datatype TimeFilter = LastHour | LastWeek | LastMonth | LastSixMonths | LastYear | AllTime

  const HourMs := 60 * 60 * 1000
  const DayMs := 24 * HourMs

  /** How far back each window reaches, in milliseconds; "All Time" has no bound. A month is 30 days, a year 365. */
  function WindowMs(t: TimeFilter): Option<int> {
    match t
    case LastHour => Some(HourMs)
    case LastWeek => Some(7 * DayMs)
    case LastMonth => Some(30 * DayMs)
    case LastSixMonths => Some(6 * 30 * DayMs)
    case LastYear => Some(365 * DayMs)
    case AllTime => None
  }

  /** `order.orderDate >= now - window` */
  function InWindow(t: TimeFilter, now: int): AdminOrder -> bool {
    (o: AdminOrder) => WindowMs(t).None? || o.orderDate >= now - WindowMs(t).value
  }

  /** `timeFilteredOrders` */
  function TimeFiltered(orders: seq<AdminOrder>, t: TimeFilter, now: int): seq<AdminOrder> {
    Filter(orders, InWindow(t, now))
  }

  /** The order of the window buttons, narrowest first. */
  function Rank(t: TimeFilter): nat {
    match t
    case LastHour => 0
    case LastWeek => 1
    case LastMonth => 2
    case LastSixMonths => 3
    case LastYear => 4
    case AllTime => 5
  }

  /** A wider window admits every order a narrower one does. */
  lemma WindowsNest(narrow: TimeFilter, wide: TimeFilter, now: int)
    requires Rank(narrow) <= Rank(wide)
    ensures forall o :: InWindow(narrow, now)(o) ==> InWindow(wide, now)(o)
  {
  }

  /**
    The orders of a narrower window are, in order, the orders of the wider
    window that fall in the narrower one; so there are never more of them.
   */
  lemma NarrowerWindowWithinWider(orders: seq<AdminOrder>, narrow: TimeFilter, wide: TimeFilter, now: int)
    requires Rank(narrow) <= Rank(wide)
    ensures Filter(TimeFiltered(orders, wide, now), InWindow(narrow, now)) == TimeFiltered(orders, narrow, now)
    ensures IsSubsequence(TimeFiltered(orders, narrow, now), TimeFiltered(orders, wide, now))
    ensures |TimeFiltered(orders, narrow, now)| <= |TimeFiltered(orders, wide, now)|
  {
    WindowsNest(narrow, wide, now);
    FilterOfFilter(orders, InWindow(wide, now), InWindow(narrow, now));
    FilterIsSubsequence(TimeFiltered(orders, wide, now), InWindow(narrow, now));
  }

  /** "All Time" keeps every order. */
  lemma AllTimeKeepsAll(orders: seq<AdminOrder>, now: int)
    ensures TimeFiltered(orders, AllTime, now) == orders
  {
    FilterAll(orders, InWindow(AllTime, now));
  }

  /** `getTimeFilterCount`, which repeats each window's filter and counts it. */
  function TimeFilterCount(orders: seq<AdminOrder>, t: TimeFilter, now: int): nat {
    match t
    case LastHour => |Filter(orders, (o: AdminOrder) => o.orderDate >= now - 60 * 60 * 1000)|
    case LastWeek => |Filter(orders, (o: AdminOrder) => o.orderDate >= now - 7 * 24 * 60 * 60 * 1000)|
    case LastMonth => |Filter(orders, (o: AdminOrder) => o.orderDate >= now - 30 * 24 * 60 * 60 * 1000)|
    case LastSixMonths => |Filter(orders, (o: AdminOrder) => o.orderDate >= now - 6 * 30 * 24 * 60 * 60 * 1000)|
    case LastYear => |Filter(orders, (o: AdminOrder) => o.orderDate >= now - 365 * 24 * 60 * 60 * 1000)|
    case AllTime => |orders|
  }

  /** Each button's badge is the number of orders the list shows once that window is chosen. */
  lemma BadgeMatchesList(orders: seq<AdminOrder>, t: TimeFilter, now: int)
    ensures TimeFilterCount(orders, t, now) == |TimeFiltered(orders, t, now)|
  {
    match t {
      case LastHour => FilterSame(orders, InWindow(t, now), (o: AdminOrder) => o.orderDate >= now - 60 * 60 * 1000);
      case LastWeek => FilterSame(orders, InWindow(t, now), (o: AdminOrder) => o.orderDate >= now - 7 * 24 * 60 * 60 * 1000);
      case LastMonth => FilterSame(orders, InWindow(t, now), (o: AdminOrder) => o.orderDate >= now - 30 * 24 * 60 * 60 * 1000);
      case LastSixMonths => FilterSame(orders, InWindow(t, now), (o: AdminOrder) => o.orderDate >= now - 6 * 30 * 24 * 60 * 60 * 1000);
      case LastYear => FilterSame(orders, InWindow(t, now), (o: AdminOrder) => o.orderDate >= now - 365 * 24 * 60 * 60 * 1000);
      case AllTime => AllTimeKeepsAll(orders, now);
    }
  }

  /** `statusFilter === 'All' || order.status === statusFilter` */
  predicate MatchesStatus(statusFilter: string, o: AdminOrder) {
    statusFilter == "All" || o.status == statusFilter
  }

  /** The search text, ignoring case, in the customer's name, e-mail or the order id. */
  predicate MatchesSearch(query: string, o: AdminOrder) {
    var q := ToLower(query);
    Includes(ToLower(o.customerName), q) || Includes(ToLower(o.customerEmail), q) || Includes(ToLower(o.id), q)
  }

  function Shown(statusFilter: string, query: string): AdminOrder -> bool {
    (o: AdminOrder) => MatchesStatus(statusFilter, o) && MatchesSearch(query, o)
  }

  /** `filteredOrders`: the window's orders that match the status and the search. */
  function FilteredOrders(orders: seq<AdminOrder>, t: TimeFilter, now: int, statusFilter: string, query: string): seq<AdminOrder> {
    Filter(TimeFiltered(orders, t, now), Shown(statusFilter, query))
  }

  /** The list shows, in order, only orders of the window. */
  lemma FilteredWithinWindow(orders: seq<AdminOrder>, t: TimeFilter, now: int, statusFilter: string, query: string)
    ensures IsSubsequence(FilteredOrders(orders, t, now, statusFilter, query), TimeFiltered(orders, t, now))
    ensures forall o :: o in FilteredOrders(orders, t, now, statusFilter, query) ==>
      InWindow(t, now)(o) && MatchesStatus(statusFilter, o) && MatchesSearch(query, o)
  {
    FilterIsSubsequence(TimeFiltered(orders, t, now), Shown(statusFilter, query));
  }

  /** With no search text and "All" statuses the list is the whole window. */
  lemma NoSearchShowsWindow(orders: seq<AdminOrder>, t: TimeFilter, now: int)
    ensures FilteredOrders(orders, t, now, "All", "") == TimeFiltered(orders, t, now)
  {
    forall o: AdminOrder ensures Shown("All", "")(o) {
      IncludesEmpty(ToLower(o.customerName));
    }
    FilterAll(TimeFiltered(orders, t, now), Shown("All", ""));
  }

  /** The e-mail the list searches is always empty, so a non-empty search matches on the name or the id only. */
  lemma EmailNeverMatches(query: string, o: OC.OrderWithItems)
    requires query != ""
    ensures MatchesSearch(query, AdminOrderOf(o)) <==>
      Includes(ToLower(o.order.name), ToLower(query)) || Includes(ToLower(o.order.id), ToLower(query))
  {
    var q := ToLower(query);
    assert ToLower("") == "" && |q| > 0;
    assert forall i :: !OccursAt("", q, i);
  }

  /** The summary card. */
  datatype Summary = Summary(count: nat, revenue: int, pending: nat, delivered: nat)

  function TotalOf(o: AdminOrder): int {
    o.total
  }

  function HasStatus(s: string): AdminOrder -> bool {
    (o: AdminOrder) => o.status == s
  }

  /** The count, the revenue (the sum of the totals, 0 for no orders), and the pending and delivered counts of the list. */
  function SummaryOf(shown: seq<AdminOrder>): (r: Summary)
    ensures r.count == |shown|
    ensures r.revenue == SumOf(shown, TotalOf)
    ensures shown == [] ==> r.revenue == 0
    ensures r.pending == Count(shown, HasStatus("pending")) && r.delivered == Count(shown, HasStatus("delivered"))
    ensures r.pending == 0 <==> forall k :: 0 <= k < |shown| ==> shown[k].status != "pending"
    ensures r.delivered == 0 <==> forall k :: 0 <= k < |shown| ==> shown[k].status != "delivered"
    ensures r.pending + r.delivered <= r.count
  {
    DisjointCounts(shown, HasStatus("pending"), HasStatus("delivered"));
    FilterEmptyIff(shown, HasStatus("pending"));
    FilterEmptyIff(shown, HasStatus("delivered"));
    Summary(|shown|, SumOf(shown, TotalOf), Count(shown, HasStatus("pending")), Count(shown, HasStatus("delivered")))
  }

  /** Elements meeting two exclusive conditions are never more than the list. */
  lemma {:induction false} DisjointCounts<T>(s: seq<T>, p: T -> bool, q: T -> bool)
    requires forall x :: !(p(x) && q(x))
    ensures |Filter(s, p)| + |Filter(s, q)| <= |s|
  {
    if s != [] {
      DisjointCounts(s[1..], p, q);
    }
  }

  lemma {:induction false} SumOfNonNegative<T>(s: seq<T>, f: T -> int)
    requires forall x :: x in s ==> f(x) >= 0
    ensures SumOf(s, f) >= 0
  {
    if s != [] {
      SumOfNonNegative(s[1..], f);
    }
  }

  /** With no negative totals, narrowing the list never raises the revenue shown. */
  lemma RevenueOfNarrowerList(s: seq<AdminOrder>, p: AdminOrder -> bool)
    requires forall o :: o in s ==> o.total >= 0
    ensures 0 <= SummaryOf(Filter(s, p)).revenue <= SummaryOf(s).revenue
  {
    var notP := (o: AdminOrder) => !p(o);
    SumOfFilterSplit(s, p, notP, TotalOf);
    SumOfNonNegative(Filter(s, notP), TotalOf);
    SumOfNonNegative(Filter(s, p), TotalOf);
  }

  /** The list and the detail view of one order. */
  class OrdersScreen {
    var showingDetails: bool
    var selectedOrderId: string

    constructor ()
      ensures !showingDetails && selectedOrderId == ""
    {
      showingDetails := false;
      selectedOrderId := "";
    }

    /** `handleViewOrder` */
    method ViewOrder(id: string)
      modifies this
      ensures showingDetails && selectedOrderId == id
    {
      selectedOrderId := id;
      showingDetails := true;
    }

    /** `handleBackToList` */
    method BackToList()
      modifies this
      ensures !showingDetails && selectedOrderId == ""
    {
      showingDetails := false;
      selectedOrderId := "";
    }
  }
}
