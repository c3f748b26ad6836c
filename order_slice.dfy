/**
  The client's order store (`orderSlice`): the list of orders last fetched,
  the single order shown on a details page, and the request flags. The
  order records are the JSON objects the order endpoints return; the model
  keeps their `id` and `status` and treats every other field as opaque.
 */
module OrderSlice {
  import opened Common

  /** An order as the client holds it: its id, its status and its other fields. */
  datatype OrderRecord = OrderRecord(id: string, status: string, others: map<string, string>)

  datatype RequestStatus = Idle | Loading | Succeeded | Failed

  /** The `{id, status}` the `updateOrderStatus` thunk resolves with. */
  datatype StatusPatch = StatusPatch(id: string, status: string)

  /** How an async thunk settles: with its payload, or rejected with the service's message. */
  datatype ThunkResult<+T> = Fulfilled(payload: T) | Rejected(error: string)

  /** The `updateOrderStatus` thunk: after the service call succeeds it resolves with the requested id and status, whatever the server replied. */
  function UpdateStatusThunk(id: string, status: string, serviceError: Option<string>): (r: ThunkResult<StatusPatch>)
    ensures serviceError.None? <==> r.Fulfilled?
    ensures r.Fulfilled? ==> r.payload.id == id && r.payload.status == status
    ensures r.Rejected? ==> r.error == serviceError.value
  {
    match serviceError
    case None => Fulfilled(StatusPatch(id, status))
    case Some(e) => Rejected(e)
  }

  function HasId(id: string): OrderRecord -> bool {
    (o: OrderRecord) => o.id == id
  }

  /** `orders` after the fulfilled `updateOrderStatus` reducer. */
  function PatchedOrders(orders: seq<OrderRecord>, id: string, status: string): seq<OrderRecord> {
    match FindIndex(orders, HasId(id))
    case None => orders
    case Some(i) => orders[i := orders[i].(status := status)]
  }

  /** `single` after the fulfilled `updateOrderStatus` reducer. */
  function PatchedSingle(single: Option<OrderRecord>, id: string, status: string): Option<OrderRecord> {
    if single.Some? && single.value.id == id then Some(single.value.(status := status)) else single
  }

  class OrderStore {
    var orders: seq<OrderRecord>
    var single: Option<OrderRecord>
    var loading: bool
    var status: RequestStatus
    var error: Option<string>

    constructor ()
      ensures orders == [] && single == None && !loading && status == Idle && error == None
    {
      orders := [];
      single := None;
      loading := false;
      status := Idle;
      error := None;
    }

    /** `reset` */
    method Reset()
      modifies this
      ensures orders == [] && single == None && !loading && status == Idle && error == None
    {
      orders := [];
      single := None;
      loading := false;
      status := Idle;
      error := None;
    }

    /** The `pending` case every thunk shares. */
    method Pending()
      modifies this
      ensures loading && status == Loading
      ensures orders == old(orders) && single == old(single) && error == old(error)
    {
      loading := true;
      status := Loading;
    }

    /** The `rejected` case every thunk shares: the message is kept, the data is not touched. */
    method RejectedWith(message: string)
      modifies this
      ensures !loading && status == Failed && error == Some(message)
      ensures orders == old(orders) && single == old(single)
    {
      loading := false;
      status := Failed;
      error := Some(message);
    }

    /** The fulfilled `createOrder` and `deleteOrder` cases: only the flags change. */
    method Settled()
      modifies this
      ensures !loading && status == Succeeded
      ensures orders == old(orders) && single == old(single) && error == old(error)
    {
      loading := false;
      status := Succeeded;
    }

    /**
      The fulfilled `getAllOrders` and `getUserOrderById` cases: both
      overwrite the same list, with `result`, or with nothing when the reply
      has no `result`.
     */
    method OrdersFetched(result: Option<seq<OrderRecord>>)
      modifies this
      ensures orders == result.GetOr([])
      ensures !loading && status == Succeeded && single == old(single) && error == old(error)
    {
      loading := false;
      status := Succeeded;
      orders := result.GetOr([]);
    }

    /** The fulfilled `getOrderById` case. */
    method SingleFetched(result: Option<OrderRecord>)
      modifies this
      ensures single == result
      ensures !loading && status == Succeeded && orders == old(orders) && error == old(error)
    {
      loading := false;
      status := Succeeded;
      single := result;
    }

    /** The fulfilled `updateOrderStatus` case. */
    method StatusUpdated(patch: StatusPatch)
      modifies this
      ensures orders == PatchedOrders(old(orders), patch.id, patch.status)
      ensures single == PatchedSingle(old(single), patch.id, patch.status)
      ensures !loading && status == Succeeded && error == old(error)
    {
      loading := false;
      status := Succeeded;
      var index := FindIndex(orders, HasId(patch.id));
      if index.Some? {
        var i := index.value;
        orders := orders[i := orders[i].(status := patch.status)];
      }
      if single.Some? && single.value.id == patch.id {
        single := Some(single.value.(status := patch.status));
      }
    }

    /** Dispatching `updateOrderStatus`: the pending case, then the thunk settles and its case runs. */
    method DispatchUpdateStatus(id: string, newStatus: string, serviceError: Option<string>)
      modifies this
      ensures serviceError.None? ==>
        orders == PatchedOrders(old(orders), id, newStatus)
        && single == PatchedSingle(old(single), id, newStatus)
        && status == Succeeded && error == old(error)
      ensures serviceError.Some? ==>
        orders == old(orders) && single == old(single)
        && status == Failed && error == serviceError
      ensures !loading
    {
      Pending();
      var outcome := UpdateStatusThunk(id, newStatus, serviceError);
      match outcome
      case Fulfilled(patch) => StatusUpdated(patch);
      case Rejected(e) => RejectedWith(e);
    }
  }

  /**
    The reducer replaces only the status of the first order with that id:
    the list keeps its length, every other order, and every other field of
    that order.
   */
  lemma PatchedOrdersFirst(orders: seq<OrderRecord>, id: string, status: string, i: nat)
    requires i < |orders| && orders[i].id == id
    requires forall j :: 0 <= j < i ==> orders[j].id != id
    ensures |PatchedOrders(orders, id, status)| == |orders|
    ensures PatchedOrders(orders, id, status)[i] == orders[i].(status := status)
    ensures forall j :: 0 <= j < |orders| && j != i ==> PatchedOrders(orders, id, status)[j] == orders[j]
  {
    FindIndexAt(orders, HasId(id), i);
  }

  /** An id that is not in the list leaves the list as it was. */
  lemma PatchedOrdersUnknown(orders: seq<OrderRecord>, id: string, status: string)
    requires forall j :: 0 <= j < |orders| ==> orders[j].id != id
    ensures PatchedOrders(orders, id, status) == orders
  {
    FindIndexNone(orders, HasId(id));
  }

  /** The patch keeps the ids of the list, so repeating the same update changes nothing more. */
  lemma PatchedOrdersIdempotent(orders: seq<OrderRecord>, id: string, status: string)
    ensures PatchedOrders(PatchedOrders(orders, id, status), id, status) == PatchedOrders(orders, id, status)
  {
    match FindIndex(orders, HasId(id))
    case None =>
    case Some(i) =>
      var once := PatchedOrders(orders, id, status);
      forall j | 0 <= j < i ensures !HasId(id)(once[j]) {
        assert once[j] == orders[j];
      }
      FindIndexAt(once, HasId(id), i);
  }

  /** `single` changes only when it is loaded and has that id, and then only in its status. */
  lemma PatchedSingleSpec(single: Option<OrderRecord>, id: string, status: string)
    ensures PatchedSingle(single, id, status) != single ==> single.Some? && single.value.id == id
    ensures PatchedSingle(single, id, status).Some? <==> single.Some?
    ensures single.Some? ==>
      PatchedSingle(single, id, status).value.id == single.value.id
      && PatchedSingle(single, id, status).value.others == single.value.others
  {
  }
}
