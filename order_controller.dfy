/**
  The order endpoints (`backend/controller/order.js`) over two in-memory
  tables: `orders`, in insertion order, and `order_items`, one row per
  ordered line. An order is created with status `pending`; afterwards only
  its status column changes, and only to one of the six allowed values.
  The item rows are copies of what the client sent: later catalogue changes
  do not reach them, and neither the total nor the item prices are
  recomputed on the server.
 */
module OrderController {
  import opened Common
  import opened Text
  import Catalog
  import Sorting

  /** `ALLOWED_STATUSES` */
  const AllowedStatuses: seq<string> := ["pending", "confirmed", "preparing", "ready", "delivered", "cancelled"]

  const MissingFields := "name, phone, streetAddress, city, postalCode are required"
  const OrderNotFound := "Order not found"
  const InvalidStatus := "Invalid status value"
  const UserIdRequired := "userId is required"
  const NoUserOrders := "No orders found for this user"

  /** One element of the request's `items` array. */
  datatype ItemInput = ItemInput(name: string, size: Option<string>, pieces: Option<int>, quantity: int, price: int)

  /** The body of `POST /order/create`; `items` is `None` when absent or not an array. */
  datatype OrderRequest = OrderRequest(
    name: Option<string>,
    phone: Option<string>,
    streetAddress: Option<string>,
    city: Option<string>,
    postalCode: Option<string>,
    specialInstructions: Option<string>,
    paymentMethod: Option<string>,
    items: Option<seq<ItemInput>>,
    totalAmount: Option<int>,
    userId: Option<string>)

  /** A row of `orders`. */
  datatype Order = Order(
    id: string,
    name: string,
    phone: string,
    streetAddress: string,
    city: string,
    postalCode: string,
    specialInstructions: Option<string>,
    paymentMethod: string,
    status: string,
    totalAmount: Option<int>,
    userId: Option<string>,
    createdAt: int)

  /** A row of `order_items`. */
  datatype OrderItemRow = OrderItemRow(
    orderId: string,
    productName: string,
    size: Option<string>,
    pieces: Option<int>,
    quantity: int,
    price: int)

  /** An order with its item rows attached, as every read endpoint sends it. */
  datatype OrderWithItems = OrderWithItems(order: Order, items: seq<OrderItemRow>)

  /** The five delivery fields are all truthy. */
  predicate HasRequiredFields(req: OrderRequest) {
    Catalog.TruthyText(req.name) && Catalog.TruthyText(req.phone) && Catalog.TruthyText(req.streetAddress)
    && Catalog.TruthyText(req.city) && Catalog.TruthyText(req.postalCode)
  }

  /** `s || null` on an optional text. */
  function OrNull(s: Option<string>): (r: Option<string>)
    ensures r.Some? <==> Catalog.TruthyText(s)
    ensures r.Some? ==> r == s
  {
    if Catalog.TruthyText(s) then s else None
  }

  /** `n || null` on an optional number. */
  function NumberOrNull(n: Option<int>): (r: Option<int>)
    ensures r.Some? <==> Catalog.TruthyNumber(n)
    ensures r.Some? ==> r == n
  {
    if Catalog.TruthyNumber(n) then n else None
  }

  /** The stored payment method: the one sent when it is not blank, otherwise cash on delivery. */
  function PaymentOf(p: Option<string>): (r: string)
    ensures r == "COD" || (p.Some? && r == p.value)
    ensures p.Some? && Trim(p.value) != "" ==> r == p.value
    ensures !(p.Some? && Trim(p.value) != "") ==> r == "COD"
    ensures Trim(r) != ""
  {
    if p.Some? && p.value != "" && Trim(p.value) != "" then p.value
    else
      assert TrimEnd("COD") == "COD";
      assert TrimStart("COD") == "COD";
      "COD"
  }

  /** The row `createOrder` inserts into `orders`. */
  function NewOrder(req: OrderRequest, id: string, now: int): (o: Order)
    requires HasRequiredFields(req)
    ensures o.id == id && o.createdAt == now
    ensures o.status == "pending" && o.status in AllowedStatuses
    ensures o.totalAmount == req.totalAmount
    ensures o.name == req.name.value && o.phone == req.phone.value && o.streetAddress == req.streetAddress.value
      && o.city == req.city.value && o.postalCode == req.postalCode.value
    ensures o.specialInstructions == OrNull(req.specialInstructions) && o.userId == OrNull(req.userId)
    ensures o.paymentMethod == PaymentOf(req.paymentMethod)
    ensures req.paymentMethod.Some? && Trim(req.paymentMethod.value) != "" ==> o.paymentMethod == req.paymentMethod.value
    ensures !(req.paymentMethod.Some? && Trim(req.paymentMethod.value) != "") ==> o.paymentMethod == "COD"
    ensures Trim(o.paymentMethod) != ""
  {
    Order(id, req.name.value, req.phone.value, req.streetAddress.value, req.city.value, req.postalCode.value,
          OrNull(req.specialInstructions), PaymentOf(req.paymentMethod), "pending", req.totalAmount,
          OrNull(req.userId), now)
  }

  /** The `order_items` row written for one element of `items`. */
  function ItemRow(orderId: string, it: ItemInput): OrderItemRow {
    OrderItemRow(orderId, it.name, OrNull(it.size), NumberOrNull(it.pieces), it.quantity, it.price)
  }

  /** The rows written for the request's items: one per element, in order, none when `items` is not an array. */
  function ItemRows(orderId: string, items: Option<seq<ItemInput>>): (r: seq<OrderItemRow>)
    ensures |r| == |items.GetOr([])|
    ensures forall k :: 0 <= k < |r| ==>
      r[k].orderId == orderId && r[k].productName == items.value[k].name
      && r[k].quantity == items.value[k].quantity && r[k].price == items.value[k].price
      && r[k].size == OrNull(items.value[k].size) && r[k].pieces == NumberOrNull(items.value[k].pieces)
  {
    var its := items.GetOr([]);
    seq(|its|, k requires 0 <= k < |its| => ItemRow(orderId, its[k]))
  }

  function IdOfOrder(o: Order): string {
    o.id
  }

  function OfOrder(id: string): OrderItemRow -> bool {
    (row: OrderItemRow) => row.orderId == id
  }

  function HasOrderId(id: string): Order -> bool {
    (o: Order) => o.id == id
  }

  function OtherOrderId(id: string): Order -> bool {
    (o: Order) => o.id != id
  }

  function OfUser(userId: string): Order -> bool {
    (o: Order) => o.userId == Some(userId)
  }

  /** The sort key of `ORDER BY created_at DESC`. */
  function NewestFirst(o: Order): int {
    -o.createdAt
  }

  predicate HasOrder(orders: seq<Order>, id: string) {
    exists k :: 0 <= k < |orders| && orders[k].id == id
  }

  /** `SELECT * FROM orders WHERE id = ?`, first row. */
  function FindOrder(orders: seq<Order>, id: string): (r: Option<Order>)
    ensures r.Some? <==> HasOrder(orders, id)
    ensures r.Some? ==> r.value in orders && r.value.id == id
  {
    match FindIndex(orders, HasOrderId(id))
    case None =>
      assert forall k :: 0 <= k < |orders| ==> !HasOrderId(id)(orders[k]);
      None
    case Some(k) =>
      assert HasOrderId(id)(orders[k]);
      Some(orders[k])
  }

  /** An order with its item rows, as `SELECT * FROM order_items WHERE order_id = ?` attaches them. */
  function WithItems(o: Order, items: seq<OrderItemRow>): OrderWithItems {
    OrderWithItems(o, Filter(items, OfOrder(o.id)))
  }

  /** The status an update stores: the one sent when it is truthy, otherwise the current one. */
  function NextStatus(sent: Option<string>, current: string): string {
    if Catalog.TruthyText(sent) then sent.value else current
  }

  /** Why `updateOrderStatus` refuses: the order is checked before the status. */
  function StatusRejection(orders: seq<Order>, id: string, sent: Option<string>): Option<Reply<Order>> {
    if !HasOrder(orders, id) then Some(Failure(404, OrderNotFound))
    else if Catalog.TruthyText(sent) && sent.value !in AllowedStatuses then Some(Failure(400, InvalidStatus))
    else None
  }

  /** `UPDATE orders SET status = ? WHERE id = ?` */
  function WithStatus(orders: seq<Order>, id: string, status: string): seq<Order> {
    seq(|orders|, k requires 0 <= k < |orders| => if orders[k].id == id then orders[k].(status := status) else orders[k])
  }

  /** The reply of `ordersByUser`: the user's orders, newest first, each with its items. */
  function UserOrders(orders: seq<Order>, items: seq<OrderItemRow>, userId: string): Reply<seq<OrderWithItems>> {
    if userId == "" then Failure(400, UserIdRequired)
    else
      var rows := Sorting.SortBy(Filter(orders, OfUser(userId)), NewestFirst);
      if rows == [] then Failure(404, NoUserOrders)
      else Success(200, AttachItems(rows, items))
  }

  /** `for (const order of rows) order.items = ...` */
  function AttachItems(rows: seq<Order>, items: seq<OrderItemRow>): (r: seq<OrderWithItems>)
    ensures |r| == |rows|
    ensures forall k :: 0 <= k < |rows| ==> r[k] == WithItems(rows[k], items)
  {
    seq(|rows|, k requires 0 <= k < |rows| => WithItems(rows[k], items))
  }

  /** No two orders share an id, and every stored status is one of the allowed six. */
  ghost predicate WellFormed(orders: seq<Order>) {
    (forall a, b :: 0 <= a < b < |orders| ==> orders[a].id != orders[b].id)
    && (forall k :: 0 <= k < |orders| ==> orders[k].status in AllowedStatuses)
  }

  class OrderTables {
    var orders: seq<Order>
    var items: seq<OrderItemRow>

    ghost predicate Valid()
      reads this
    {
      WellFormed(orders)
    }

    constructor ()
      ensures orders == [] && items == [] && Valid()
    {
      orders := [];
      items := [];
    }

    /**
      `createOrder`: without the five delivery fields a 400 and nothing
      stored; otherwise one order row, then one item row per element of
      `items`, and the reply echoes the order with exactly those rows.
      `id` is the fresh ObjectId, `now` the database clock.
     */
    method CreateOrder(req: OrderRequest, id: string, now: int) returns (reply: Reply<OrderWithItems>)
      requires forall k :: 0 <= k < |orders| ==> orders[k].id != id
      requires forall k :: 0 <= k < |items| ==> items[k].orderId != id
      modifies this
      ensures !HasRequiredFields(req) ==>
        reply == Failure(400, MissingFields) && orders == old(orders) && items == old(items)
      ensures HasRequiredFields(req) ==>
        orders == old(orders) + [NewOrder(req, id, now)]
        && items == old(items) + ItemRows(id, req.items)
        && reply == Success(201, OrderWithItems(NewOrder(req, id, now), ItemRows(id, req.items)))
      ensures old(Valid()) ==> Valid()
    {
      if !HasRequiredFields(req) {
        return Failure(400, MissingFields);
      }
      var order := NewOrder(req, id, now);
      orders := orders + [order];
      var its := req.items.GetOr([]);
      ghost var before := items;
      var i := 0;
      while i < |its|
        invariant 0 <= i <= |its|
        invariant items == before + ItemRows(id, req.items)[..i]
        invariant orders == old(orders) + [order]
      {
        assert ItemRows(id, req.items)[..i + 1] == ItemRows(id, req.items)[..i] + [ItemRow(id, its[i])];
        items := items + [ItemRow(id, its[i])];
        i := i + 1;
      }
      assert ItemRows(id, req.items)[..i] == ItemRows(id, req.items);
      FreshOrderItems(before, ItemRows(id, req.items), id);
      reply := Success(201, WithItems(order, items));
    }

    /**
      `updateOrderStatus`: an unknown id is a 404, then a truthy status
      outside the allowed six a 400, both with nothing written; otherwise the
      order's status becomes the one sent, or stays when none is sent.
     */
    method UpdateOrderStatus(id: string, sent: Option<string>) returns (reply: Reply<Order>)
      modifies this
      ensures StatusRejection(old(orders), id, sent).Some? ==>
        reply == StatusRejection(old(orders), id, sent).value && orders == old(orders)
      ensures StatusRejection(old(orders), id, sent).None? ==>
        var current := FindOrder(old(orders), id).value;
        orders == WithStatus(old(orders), id, NextStatus(sent, current.status))
        && reply == Success(200, current.(status := NextStatus(sent, current.status)))
      ensures items == old(items)
      ensures old(Valid()) ==> Valid()
    {
      var found := FindOrder(orders, id);
      var rejection := StatusRejection(orders, id, sent);
      if rejection.Some? {
        return rejection.value;
      }
      var next := NextStatus(sent, found.value.status);
      if Valid() {
        WithStatusKeepsWellFormed(orders, id, next);
      }
      ghost var before := orders;
      orders := WithStatus(orders, id, next);
      WithStatusFind(before, id, next);
      reply := Success(200, FindOrder(orders, id).value);
    }

    /** `deleteOrder`: 404 for an unknown id; otherwise the order row goes and its item rows stay. */
    method DeleteOrder(id: string) returns (reply: Reply<()>)
      modifies this
      ensures !HasOrder(old(orders), id) ==> reply == Failure(404, OrderNotFound) && orders == old(orders)
      ensures HasOrder(old(orders), id) ==> reply == Success(200, ()) && orders == Filter(old(orders), OtherOrderId(id))
      ensures items == old(items)
      ensures old(Valid()) ==> Valid()
    {
      if FindOrder(orders, id).None? {
        return Failure(404, OrderNotFound);
      }
      if Valid() {
        DeleteKeepsWellFormed(orders, id);
      }
      orders := Filter(orders, OtherOrderId(id));
      reply := Success(200, ());
    }

    /** `singleOrder` */
    method SingleOrder(id: string) returns (reply: Reply<OrderWithItems>)
      ensures !HasOrder(orders, id) <==> reply == Failure(404, OrderNotFound)
      ensures HasOrder(orders, id) ==>
        reply.Success? && reply.code == 200 && reply.body.order.id == id && reply.body.order in orders
        && reply.body.items == Filter(items, OfOrder(id))
    {
      var found := FindOrder(orders, id);
      if found.None? {
        return Failure(404, OrderNotFound);
      }
      reply := Success(200, WithItems(found.value, items));
    }

    /** `allOrders`: every order, newest first, and for each one its item rows. */
    method AllOrders() returns (reply: Reply<seq<OrderWithItems>>)
      ensures reply == Success(200, AttachItems(Sorting.SortBy(orders, NewestFirst), items))
    {
      var rows := Sorting.SortBy(orders, NewestFirst);
      var result: seq<OrderWithItems> := [];
      var i := 0;
      while i < |rows|
        invariant 0 <= i <= |rows|
        invariant |result| == i
        invariant forall k :: 0 <= k < i ==> result[k] == WithItems(rows[k], items)
      {
        result := result + [WithItems(rows[i], items)];
        i := i + 1;
      }
      assert result == AttachItems(rows, items);
      reply := Success(200, result);
    }

    /** `ordersByUser`: the user's orders, newest first, and for each one its item rows. */
    method OrdersByUser(userId: string) returns (reply: Reply<seq<OrderWithItems>>)
      ensures reply == UserOrders(orders, items, userId)
    {
      if userId == "" {
        return Failure(400, UserIdRequired);
      }
      var rows := Sorting.SortBy(Filter(orders, OfUser(userId)), NewestFirst);
      if rows == [] {
        return Failure(404, NoUserOrders);
      }
      var result: seq<OrderWithItems> := [];
      var i := 0;
      while i < |rows|
        invariant 0 <= i <= |rows|
        invariant |result| == i
        invariant forall k :: 0 <= k < i ==> result[k] == WithItems(rows[k], items)
      {
        result := result + [WithItems(rows[i], items)];
        i := i + 1;
      }
      assert result == AttachItems(rows, items);
      reply := Success(200, result);
    }
  }

  /** The item rows of a freshly created order are exactly the rows just written. */
  lemma FreshOrderItems(before: seq<OrderItemRow>, added: seq<OrderItemRow>, id: string)
    requires forall k :: 0 <= k < |before| ==> before[k].orderId != id
    requires forall k :: 0 <= k < |added| ==> added[k].orderId == id
    ensures Filter(before + added, OfOrder(id)) == added
  {
    FilterConcat(before, added, OfOrder(id));
    FilterAll(added, OfOrder(id));
    FilterNone(before, OfOrder(id));
  }

  /** After a status update the order is found with the new status and nothing else changed. */
  lemma WithStatusFind(orders: seq<Order>, id: string, status: string)
    requires HasOrder(orders, id)
    ensures FindOrder(WithStatus(orders, id, status), id) == Some(FindOrder(orders, id).value.(status := status))
  {
    var after := WithStatus(orders, id, status);
    var k :| FindIndex(orders, HasOrderId(id)) == Some(k);
    forall j | 0 <= j < k ensures !HasOrderId(id)(after[j]) {
      assert !HasOrderId(id)(orders[j]);
    }
    FindIndexAt(after, HasOrderId(id), k);
  }

  /**
    A status update changes the status column of the order with that id and
    nothing else: the list keeps its length, its ids and every other order.
   */
  lemma WithStatusOnlyStatus(orders: seq<Order>, id: string, status: string)
    ensures |WithStatus(orders, id, status)| == |orders|
    ensures forall k :: 0 <= k < |orders| ==>
      WithStatus(orders, id, status)[k].id == orders[k].id
      && WithStatus(orders, id, status)[k].(status := orders[k].status) == orders[k]
    ensures forall k :: 0 <= k < |orders| && orders[k].id == id ==> WithStatus(orders, id, status)[k].status == status
    ensures forall k :: 0 <= k < |orders| && orders[k].id != id ==> WithStatus(orders, id, status)[k] == orders[k]
  {
  }

  /** Repeating the same status update changes nothing more. */
  lemma WithStatusIdempotent(orders: seq<Order>, id: string, status: string)
    ensures WithStatus(WithStatus(orders, id, status), id, status) == WithStatus(orders, id, status)
  {
  }

  /** An accepted update keeps the ids distinct and every status allowed. */
  lemma WithStatusKeepsWellFormed(orders: seq<Order>, id: string, status: string)
    requires WellFormed(orders)
    requires status in AllowedStatuses || (HasOrder(orders, id) && status == FindOrder(orders, id).value.status)
    ensures WellFormed(WithStatus(orders, id, status))
  {
    var after := WithStatus(orders, id, status);
    if HasOrder(orders, id) {
      var f := FindOrder(orders, id).value;
      var j :| 0 <= j < |orders| && orders[j] == f;
      assert f.status in AllowedStatuses;
    }
    assert status in AllowedStatuses;
    forall a, b | 0 <= a < b < |after| ensures after[a].id != after[b].id {
      assert after[a].id == orders[a].id && after[b].id == orders[b].id;
    }
  }

  lemma DeleteKeepsWellFormed(orders: seq<Order>, id: string)
    requires WellFormed(orders)
    ensures WellFormed(Filter(orders, OtherOrderId(id)))
  {
    assert DistinctBy(orders, IdOfOrder);
    FilterKeepsDistinct(orders, IdOfOrder, OtherOrderId(id));
    var r := Filter(orders, OtherOrderId(id));
    forall k | 0 <= k < |r| ensures r[k].status in AllowedStatuses {
      assert r[k] in orders;
    }
  }

  /** The user's orders, newest first: each of them once, and no other order. */
  lemma UserRows(orders: seq<Order>, userId: string)
    ensures var rows := Sorting.SortBy(Filter(orders, OfUser(userId)), NewestFirst);
      (forall k :: 0 <= k < |rows| ==> rows[k] in orders && rows[k].userId == Some(userId))
      && (forall a, b :: 0 <= a < b < |rows| ==> rows[a].createdAt >= rows[b].createdAt)
      && (forall k :: 0 <= k < |orders| && orders[k].userId == Some(userId) ==> orders[k] in rows)
  {
    var mine := Filter(orders, OfUser(userId));
    var rows := Sorting.SortBy(mine, NewestFirst);
    Sorting.SortBySorted(mine, NewestFirst);
    forall k | 0 <= k < |rows| ensures rows[k] in orders && rows[k].userId == Some(userId) {
      assert rows[k] in multiset(mine);
      assert OfUser(userId)(rows[k]);
    }
    forall a, b | 0 <= a < b < |rows| ensures rows[a].createdAt >= rows[b].createdAt {
      assert NewestFirst(rows[a]) <= NewestFirst(rows[b]);
    }
    forall k | 0 <= k < |orders| && orders[k].userId == Some(userId) ensures orders[k] in rows {
      assert OfUser(userId)(orders[k]);
      assert orders[k] in multiset(mine);
    }
  }

  /** `ordersByUser` answers 404 exactly when the user has no order. */
  lemma UserOrdersNotFound(orders: seq<Order>, items: seq<OrderItemRow>, userId: string)
    requires userId != ""
    ensures UserOrders(orders, items, userId) == Failure(404, NoUserOrders) <==>
      forall k :: 0 <= k < |orders| ==> orders[k].userId != Some(userId)
  {
    UserRows(orders, userId);
  }

  /**
    Otherwise it returns each of the user's orders and no other, newest
    first, each carrying exactly its own item rows.
   */
  lemma UserOrdersFound(orders: seq<Order>, items: seq<OrderItemRow>, userId: string)
    requires UserOrders(orders, items, userId).Success?
    ensures var result := UserOrders(orders, items, userId).body;
      (forall k :: 0 <= k < |result| ==>
         result[k].order.userId == Some(userId) && result[k].order in orders
         && result[k].items == Filter(items, OfOrder(result[k].order.id)))
      && (forall a, b :: 0 <= a < b < |result| ==> result[a].order.createdAt >= result[b].order.createdAt)
      && (forall k :: 0 <= k < |orders| && orders[k].userId == Some(userId) ==>
            exists j :: 0 <= j < |result| && result[j].order == orders[k])
  {
    var rows := Sorting.SortBy(Filter(orders, OfUser(userId)), NewestFirst);
    UserRows(orders, userId);
    var result := AttachItems(rows, items);
    forall k | 0 <= k < |orders| && orders[k].userId == Some(userId)
      ensures exists j :: 0 <= j < |result| && result[j].order == orders[k]
    {
      var j :| 0 <= j < |rows| && rows[j] == orders[k];
      assert result[j].order == orders[k];
    }
  }

  /**
    `allOrders` lists every stored order exactly as often as it is stored,
    newest first, each carrying exactly its own item rows.
   */
  lemma AllOrdersSpec(orders: seq<Order>, items: seq<OrderItemRow>)
    ensures var result := AttachItems(Sorting.SortBy(orders, NewestFirst), items);
      |result| == |orders|
      && multiset(Sorting.SortBy(orders, NewestFirst)) == multiset(orders)
      && (forall k :: 0 <= k < |result| ==>
            result[k].order in orders && result[k].items == Filter(items, OfOrder(result[k].order.id)))
      && (forall a, b :: 0 <= a < b < |result| ==> result[a].order.createdAt >= result[b].order.createdAt)
  {
    var rows := Sorting.SortBy(orders, NewestFirst);
    Sorting.SortBySorted(orders, NewestFirst);
    var result := AttachItems(rows, items);
    forall k | 0 <= k < |result| ensures result[k].order in orders {
      assert rows[k] in multiset(orders);
    }
    forall a, b | 0 <= a < b < |result| ensures result[a].order.createdAt >= result[b].order.createdAt {
      assert NewestFirst(rows[a]) <= NewestFirst(rows[b]);
    }
  }
}
