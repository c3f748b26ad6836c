/**
  The shopping cart kept by the client (`cartSlice`): a list of cart lines,
  one per (product id, size, pieces), plus the derived `total` (sum of price
  times quantity) and `itemCount` (sum of quantities), which every reducer
  that changes the lines recomputes.
 */
module Cart {
  import opened Common

  datatype CartItem = CartItem(
    id: string,
    name: string,
    price: int,
    image: string,
    quantity: int,
    size: Option<string>,
    pieces: Option<int>)

  /** What `addToCart` receives: a cart line whose quantity may be absent. */
  datatype CartPayload = CartPayload(
    id: string,
    name: string,
    price: int,
    image: string,
    quantity: Option<int>,
    size: Option<string>,
    pieces: Option<int>)

  function LineAmount(it: CartItem): int {
    it.price * it.quantity
  }

  function LineQuantity(it: CartItem): int {
    it.quantity
  }

  /** The `total` every reducer recomputes: the sum of price times quantity. */
  function LineTotal(items: seq<CartItem>): int {
    SumOf(items, LineAmount)
  }

  /** The `itemCount` every reducer recomputes: the sum of the quantities. */
  function ItemCountOf(items: seq<CartItem>): int {
    SumOf(items, LineQuantity)
  }

  /** The line `addToCart` builds: the payload with an absent quantity read as 1. */
  function NewLine(p: CartPayload): (r: CartItem)
    ensures r.quantity == p.quantity.GetOr(1)
    ensures r.id == p.id && r.price == p.price && r.size == p.size && r.pieces == p.pieces
  {
    CartItem(p.id, p.name, p.price, p.image, p.quantity.GetOr(1), p.size, p.pieces)
  }

  /** Two lines are merged when id, size and pieces are all equal (also when both lack a size or pieces). */
  predicate SameLine(a: CartItem, b: CartItem) {
    a.id == b.id && a.size == b.size && a.pieces == b.pieces
  }

  function MatchesLine(line: CartItem): CartItem -> bool {
    (it: CartItem) => SameLine(it, line)
  }

  function HasId(id: string): CartItem -> bool {
    (it: CartItem) => it.id == id
  }

  function OtherId(id: string): CartItem -> bool {
    (it: CartItem) => it.id != id
  }

  function AddQuantity(it: CartItem, q: int): CartItem {
    it.(quantity := it.quantity + q)
  }

  /** The lines after `addToCart(p)`. */
  function Added(items: seq<CartItem>, p: CartPayload): seq<CartItem> {
    var line := NewLine(p);
    match FindIndex(items, MatchesLine(line))
    case Some(i) => items[i := AddQuantity(items[i], line.quantity)]
    case None => items + [line]
  }

  /** The lines after `removeFromCart(id)`. */
  function WithoutId(items: seq<CartItem>, id: string): seq<CartItem> {
    Filter(items, OtherId(id))
  }

  /** The lines after `updateQuantity({id, quantity: q})`. */
  function QuantityUpdated(items: seq<CartItem>, id: string, q: int): seq<CartItem> {
    match FindIndex(items, HasId(id))
    case None => items
    case Some(i) => if q <= 0 then WithoutId(items, id) else items[i := items[i].(quantity := q)]
  }

  /** The lines after `incrementQuantity(id)`. */
  function Incremented(items: seq<CartItem>, id: string): seq<CartItem> {
    match FindIndex(items, HasId(id))
    case None => items
    case Some(i) => items[i := AddQuantity(items[i], 1)]
  }

  /** The lines after `decrementQuantity(id)`. */
  function Decremented(items: seq<CartItem>, id: string): seq<CartItem> {
    match FindIndex(items, HasId(id))
    case None => items
    case Some(i) => if items[i].quantity > 1 then items[i := AddQuantity(items[i], -1)] else items
  }

  class CartStore {
    var items: seq<CartItem>
    var total: int
    var itemCount: int

    /** The derived fields agree with the lines. */
    ghost predicate Valid()
      reads this
    {
      total == LineTotal(items) && itemCount == ItemCountOf(items)
    }

    /** The totals are recomputed from the lines. */
    method Recompute()
      modifies this
      ensures items == old(items) && Valid()
    {
      total := LineTotal(items);
      itemCount := ItemCountOf(items);
    }

    /** An empty cart. */
    constructor ()
      ensures items == [] && total == 0 && itemCount == 0 && Valid()
    {
      items := [];
      total := 0;
      itemCount := 0;
    }

    method AddToCart(p: CartPayload)
      modifies this
      ensures items == Added(old(items), p) && Valid()
    {
      var line := NewLine(p);
      var existing := FindIndex(items, MatchesLine(line));
      if existing.Some? {
        var i := existing.value;
        items := items[i := AddQuantity(items[i], line.quantity)];
      } else {
        items := items + [line];
      }
      Recompute();
    }

    method RemoveFromCart(id: string)
      modifies this
      ensures items == WithoutId(old(items), id) && Valid()
    {
      items := Filter(items, OtherId(id));
      Recompute();
    }

    /** An id with no line leaves the whole state, totals included, as it was. */
    method UpdateQuantity(id: string, q: int)
      modifies this
      ensures items == QuantityUpdated(old(items), id, q)
      ensures FindIndex(old(items), HasId(id)).None? ==>
        total == old(total) && itemCount == old(itemCount)
      ensures FindIndex(old(items), HasId(id)).Some? ==> Valid()
    {
      var found := FindIndex(items, HasId(id));
      if found.Some? {
        if q <= 0 {
          items := Filter(items, OtherId(id));
        } else {
          var i := found.value;
          items := items[i := items[i].(quantity := q)];
        }
        Recompute();
      }
    }

    method ClearCart()
      modifies this
      ensures items == [] && total == 0 && itemCount == 0 && Valid()
    {
      items := [];
      total := 0;
      itemCount := 0;
    }

    method IncrementQuantity(id: string)
      modifies this
      ensures items == Incremented(old(items), id)
      ensures FindIndex(old(items), HasId(id)).None? ==>
        total == old(total) && itemCount == old(itemCount)
      ensures FindIndex(old(items), HasId(id)).Some? ==> Valid()
    {
      var found := FindIndex(items, HasId(id));
      if found.Some? {
        var i := found.value;
        items := items[i := AddQuantity(items[i], 1)];
        Recompute();
      }
    }

    method DecrementQuantity(id: string)
      modifies this
      ensures items == Decremented(old(items), id)
      ensures items == old(items) ==> total == old(total) && itemCount == old(itemCount)
      ensures items != old(items) ==> Valid()
    {
      var found := FindIndex(items, HasId(id));
      if found.Some? && items[found.value].quantity > 1 {
        var i := found.value;
        items := items[i := AddQuantity(items[i], -1)];
        Recompute();
      }
    }
  }

  /** Adding a line that matches an existing one on (id, size, pieces) adds to that line's quantity; the list keeps its length and every other line. */
  lemma AddedMerges(items: seq<CartItem>, p: CartPayload, i: nat)
    requires i < |items| && SameLine(items[i], NewLine(p))
    requires forall j :: 0 <= j < i ==> !SameLine(items[j], NewLine(p))
    ensures |Added(items, p)| == |items|
    ensures Added(items, p)[i] == items[i].(quantity := items[i].quantity + p.quantity.GetOr(1))
    ensures forall j :: 0 <= j < |items| && j != i ==> Added(items, p)[j] == items[j]
  {
    FindIndexAt(items, MatchesLine(NewLine(p)), i);
  }

  /** A line that matches no existing one is appended last. */
  lemma AddedAppends(items: seq<CartItem>, p: CartPayload)
    requires forall j :: 0 <= j < |items| ==> !SameLine(items[j], NewLine(p))
    ensures Added(items, p) == items + [NewLine(p)]
  {
    FindIndexNone(items, MatchesLine(NewLine(p)));
  }

  /** `addToCart` raises `itemCount` by the added quantity, whether it merges or appends. */
  lemma AddedItemCount(items: seq<CartItem>, p: CartPayload)
    ensures ItemCountOf(Added(items, p)) == ItemCountOf(items) + p.quantity.GetOr(1)
  {
    var line := NewLine(p);
    match FindIndex(items, MatchesLine(line))
    case Some(i) =>
      SumOfUpdate(items, i, AddQuantity(items[i], line.quantity), LineQuantity);
    case None =>
      SumOfConcat(items, [line], LineQuantity);
  }

  /**
    `addToCart` raises `total` by quantity times a price: the payload's price
    when the line is new, the price already on the line when it merges.
   */
  lemma AddedTotal(items: seq<CartItem>, p: CartPayload)
    ensures var q := p.quantity.GetOr(1);
      match FindIndex(items, MatchesLine(NewLine(p)))
      case Some(i) => LineTotal(Added(items, p)) == LineTotal(items) + items[i].price * q
      case None => LineTotal(Added(items, p)) == LineTotal(items) + p.price * q
  {
    var line := NewLine(p);
    match FindIndex(items, MatchesLine(line))
    case Some(i) =>
      SumOfUpdate(items, i, AddQuantity(items[i], line.quantity), LineAmount);
      assert LineAmount(AddQuantity(items[i], line.quantity))
        == LineAmount(items[i]) + items[i].price * line.quantity;
    case None =>
      SumOfConcat(items, [line], LineAmount);
  }

  /** `removeFromCart` leaves no line with that id (every size and pieces variant goes) and keeps the others in order. */
  lemma WithoutIdRemovesAll(items: seq<CartItem>, id: string)
    ensures forall j :: 0 <= j < |WithoutId(items, id)| ==> WithoutId(items, id)[j].id != id
    ensures forall j :: 0 <= j < |items| && items[j].id != id ==> items[j] in WithoutId(items, id)
    ensures IsSubsequence(WithoutId(items, id), items)
  {
    FilterIsSubsequence(items, OtherId(id));
  }

  /** `removeFromCart` lowers `itemCount` by exactly the quantities of the removed lines. */
  lemma {:induction false} WithoutIdItemCount(items: seq<CartItem>, id: string)
    ensures ItemCountOf(WithoutId(items, id)) + SumOf(Filter(items, HasId(id)), LineQuantity) == ItemCountOf(items)
  {
    SumOfFilterSplit(items, HasId(id), OtherId(id), LineQuantity);
  }

  /** `updateQuantity` with a positive quantity sets the first line with that id and no other. */
  lemma QuantityUpdatedSetsFirst(items: seq<CartItem>, id: string, q: int, i: nat)
    requires i < |items| && items[i].id == id && q > 0
    requires forall j :: 0 <= j < i ==> items[j].id != id
    ensures |QuantityUpdated(items, id, q)| == |items|
    ensures QuantityUpdated(items, id, q)[i] == items[i].(quantity := q)
    ensures forall j :: 0 <= j < |items| && j != i ==> QuantityUpdated(items, id, q)[j] == items[j]
  {
    FindIndexAt(items, HasId(id), i);
  }

  /** `updateQuantity` with a quantity of zero or less removes every line with that id, if there is one. */
  lemma QuantityUpdatedRemoves(items: seq<CartItem>, id: string, q: int)
    requires q <= 0
    ensures QuantityUpdated(items, id, q) == WithoutId(items, id)
  {
    if FindIndex(items, HasId(id)).None? {
      FilterAll(items, OtherId(id));
    }
  }

  /** An id that no line carries leaves the lines unchanged under every reducer keyed by id. */
  lemma UnknownIdNoChange(items: seq<CartItem>, id: string, q: int)
    requires forall j :: 0 <= j < |items| ==> items[j].id != id
    ensures QuantityUpdated(items, id, q) == items
    ensures Incremented(items, id) == items
    ensures Decremented(items, id) == items
    ensures WithoutId(items, id) == items
  {
    FindIndexNone(items, HasId(id));
    FilterAll(items, OtherId(id));
  }

  /** `incrementQuantity` adds one to the first line with that id only, and adds one to `itemCount`. */
  lemma IncrementedFirst(items: seq<CartItem>, id: string, i: nat)
    requires i < |items| && items[i].id == id
    requires forall j :: 0 <= j < i ==> items[j].id != id
    ensures |Incremented(items, id)| == |items|
    ensures Incremented(items, id)[i].quantity == items[i].quantity + 1
    ensures forall j :: 0 <= j < |items| && j != i ==> Incremented(items, id)[j] == items[j]
    ensures ItemCountOf(Incremented(items, id)) == ItemCountOf(items) + 1
  {
    FindIndexAt(items, HasId(id), i);
    SumOfUpdate(items, i, AddQuantity(items[i], 1), LineQuantity);
  }

  /** `decrementQuantity` never takes a quantity below 1: a line at 1 or less is left alone. */
  lemma DecrementedFloor(items: seq<CartItem>, id: string)
    ensures |Decremented(items, id)| == |items|
    ensures forall j :: 0 <= j < |items| ==>
      Decremented(items, id)[j] == items[j]
      || (items[j].quantity > 1 && Decremented(items, id)[j] == items[j].(quantity := items[j].quantity - 1))
    ensures forall j :: 0 <= j < |items| && items[j].quantity >= 1 ==> Decremented(items, id)[j].quantity >= 1
  {
  }

  /**
    `decrementQuantity(id)` lowers the first line with the id by one when its
    quantity is above 1 and otherwise leaves the lines alone; no other line
    changes, and `itemCount` drops by one exactly in the first case.
   */
  lemma DecrementedFirst(items: seq<CartItem>, id: string, i: nat)
    requires i < |items| && items[i].id == id
    requires forall j :: 0 <= j < i ==> items[j].id != id
    ensures |Decremented(items, id)| == |items|
    ensures Decremented(items, id)[i].quantity == (if items[i].quantity > 1 then items[i].quantity - 1 else items[i].quantity)
    ensures Decremented(items, id)[i] == items[i].(quantity := Decremented(items, id)[i].quantity)
    ensures forall j :: 0 <= j < |items| && j != i ==> Decremented(items, id)[j] == items[j]
    ensures ItemCountOf(Decremented(items, id)) == ItemCountOf(items) - (if items[i].quantity > 1 then 1 else 0)
  {
    FindIndexAt(items, HasId(id), i);
    if items[i].quantity > 1 {
      SumOfUpdate(items, i, AddQuantity(items[i], -1), LineQuantity);
    }
  }
}
