/**
  The product dialog (`ProductModal`): a size or a piece count selected
  among the product's variants, a quantity of at least 1, the unit price
  that follows from the selection, and the cart line it adds.

  Choosing a size clears the piece count and the other way round, so at
  most one selector is set; when a product opens, the cheapest size variant
  is preselected, or else the cheapest piece variant.
 */
module ProductModal {
  import opened Common
  import opened Text
  import Sorting
  import Catalog
  import Cart
  import ProductCard

  /** The variant lists the selectors show: `filter(v => v.size)` or `filter(v => v.pieces)`. */
  predicate HasSize(v: Catalog.Variant) {
    Catalog.TruthyText(v.size)
  }

  predicate HasPieces(v: Catalog.Variant) {
    Catalog.TruthyNumber(v.pieces)
  }

  /** The size buttons, cheapest first. */
  function SizeOptions(vs: seq<Catalog.Variant>): seq<Catalog.Variant> {
    Sorting.SortBy(Filter(vs, HasSize), Catalog.PriceOf)
  }

  /** The piece-count buttons, cheapest first. */
  function PiecesOptions(vs: seq<Catalog.Variant>): seq<Catalog.Variant> {
    Sorting.SortBy(Filter(vs, HasPieces), Catalog.PriceOf)
  }

  function SizeIs(size: Option<string>): Catalog.Variant -> bool {
    (v: Catalog.Variant) => v.size == size
  }

  function PiecesIs(pieces: Option<int>): Catalog.Variant -> bool {
    (v: Catalog.Variant) => v.pieces == pieces
  }

  /** `k` is the first variant whose size is `size`. */
  predicate FirstWithSize(vs: seq<Catalog.Variant>, size: Option<string>, k: int) {
    0 <= k < |vs| && vs[k].size == size && forall j :: 0 <= j < k ==> vs[j].size != size
  }

  predicate FirstWithPieces(vs: seq<Catalog.Variant>, pieces: Option<int>, k: int) {
    0 <= k < |vs| && vs[k].pieces == pieces && forall j :: 0 <= j < k ==> vs[j].pieces != pieces
  }

  /**
    `getCurrentPrice`: a selected size looks up the first variant of that
    size, otherwise selected pieces look up the first variant with that
    count; without a selection, or when the lookup finds nothing, the base
    price. A selected size makes the piece selection irrelevant.
   */
  function CurrentPrice(p: Catalog.Product, size: Option<string>, pieces: Option<int>): (r: int)
    ensures Catalog.TruthyText(size) ==>
      (forall k :: FirstWithSize(p.variants, size, k) ==> r == p.variants[k].price)
      && ((forall k :: 0 <= k < |p.variants| ==> p.variants[k].size != size) ==> r == p.price)
    ensures !Catalog.TruthyText(size) && Catalog.TruthyNumber(pieces) ==>
      (forall k :: FirstWithPieces(p.variants, pieces, k) ==> r == p.variants[k].price)
      && ((forall k :: 0 <= k < |p.variants| ==> p.variants[k].pieces != pieces) ==> r == p.price)
    ensures !Catalog.TruthyText(size) && !Catalog.TruthyNumber(pieces) ==> r == p.price
  {
    var found :=
      if Catalog.TruthyText(size) then FindIndex(p.variants, SizeIs(size))
      else if Catalog.TruthyNumber(pieces) then FindIndex(p.variants, PiecesIs(pieces))
      else None;
    if found.Some? then p.variants[found.value].price else p.price
  }

  /** The selection the effect makes when a product opens. */
  datatype Selection = Selection(size: Option<string>, pieces: Option<int>)

  /**
    A size when some variant has one, else a piece count when some variant
    has one, else nothing (which of them is the cheapest is
    `DefaultIsCheapestSize` and `DefaultIsCheapestPieces`).
   */
  function DefaultSelection(vs: seq<Catalog.Variant>): (r: Selection)
    ensures r.size.None? || r.pieces.None?
    ensures (exists k :: 0 <= k < |vs| && HasSize(vs[k])) ==> Catalog.TruthyText(r.size) && r.pieces.None?
    ensures (forall k :: 0 <= k < |vs| ==> !HasSize(vs[k])) && (exists k :: 0 <= k < |vs| && HasPieces(vs[k])) ==>
      r.size.None? && Catalog.TruthyNumber(r.pieces)
    ensures (forall k :: 0 <= k < |vs| ==> !HasSize(vs[k]) && !HasPieces(vs[k])) ==> r == Selection(None, None)
  {
    var sizes := SizeOptions(vs);
    var pieces := PiecesOptions(vs);
    OptionsAreFiltered(vs);
    if |sizes| > 0 then Selection(sizes[0].size, None)
    else if |pieces| > 0 then Selection(None, pieces[0].pieces)
    else Selection(None, None)
  }

  /** The buttons are exactly the variants of their kind: there is one exactly when such a variant exists, and each is of its kind. */
  lemma OptionsAreFiltered(vs: seq<Catalog.Variant>)
    ensures |SizeOptions(vs)| > 0 <==> exists k :: 0 <= k < |vs| && HasSize(vs[k])
    ensures |PiecesOptions(vs)| > 0 <==> exists k :: 0 <= k < |vs| && HasPieces(vs[k])
    ensures forall i :: 0 <= i < |SizeOptions(vs)| ==> HasSize(SizeOptions(vs)[i])
    ensures forall i :: 0 <= i < |PiecesOptions(vs)| ==> HasPieces(PiecesOptions(vs)[i])
  {
    SortedFilterKeeps(vs, HasSize);
    SortedFilterKeeps(vs, HasPieces);
  }

  /** The sorted filter is non-empty exactly when some element passes, and holds only passing elements. */
  lemma SortedFilterKeeps(vs: seq<Catalog.Variant>, keep: Catalog.Variant -> bool)
    ensures |Sorting.SortBy(Filter(vs, keep), Catalog.PriceOf)| > 0 <==> exists k :: 0 <= k < |vs| && keep(vs[k])
    ensures forall i :: 0 <= i < |Sorting.SortBy(Filter(vs, keep), Catalog.PriceOf)| ==> keep(Sorting.SortBy(Filter(vs, keep), Catalog.PriceOf)[i])
  {
    var fs := Filter(vs, keep);
    var sorted := Sorting.SortBy(fs, Catalog.PriceOf);
    forall i | 0 <= i < |sorted| ensures keep(sorted[i]) {
      assert sorted[i] in multiset(fs);
    }
    if exists k :: 0 <= k < |vs| && keep(vs[k]) {
      var k :| 0 <= k < |vs| && keep(vs[k]);
      assert vs[k] in fs;
    }
  }

  /** The cart line `handleAddToCart` dispatches: `selectedSize || undefined`, `selectedPieces || undefined`. */
  function ModalPayload(p: Catalog.Product, quantity: int, size: Option<string>, pieces: Option<int>): (r: Cart.CartPayload)
    ensures r.id == p.id && r.price == CurrentPrice(p, size, pieces) && r.quantity == Some(quantity)
    ensures r.size == (if Catalog.TruthyText(size) then size else None)
    ensures r.pieces == (if Catalog.TruthyNumber(pieces) then pieces else None)
  {
    Cart.CartPayload(p.id, p.name, CurrentPrice(p, size, pieces), p.imageUrl.GetOr(""), Some(quantity),
      if Catalog.TruthyText(size) then size else None,
      if Catalog.TruthyNumber(pieces) then pieces else None)
  }

  /** `getCurrentPriceDisplay`: `₨` and the price times the quantity. */
  function TotalText(price: int, quantity: int): string {
    "₨" + IntToString(price * quantity)
  }

  class ModalState {
    var quantity: int
    var selectedSize: Option<string>
    var selectedPieces: Option<int>

    /** The quantity is at least 1 and at most one selector is set. */
    ghost predicate Valid()
      reads this
    {
      quantity >= 1 && (selectedSize.None? || selectedPieces.None?)
    }

    constructor ()
      ensures quantity == 1 && selectedSize.None? && selectedPieces.None? && Valid()
    {
      quantity := 1;
      selectedSize := None;
      selectedPieces := None;
    }

    /** The effect on a product change: the default selection and quantity 1; no product changes nothing. */
    method OnProductChange(p: Option<Catalog.Product>)
      modifies this
      ensures p.None? ==> quantity == old(quantity) && selectedSize == old(selectedSize) && selectedPieces == old(selectedPieces)
      ensures p.Some? ==>
        Selection(selectedSize, selectedPieces) == DefaultSelection(p.value.variants) && quantity == 1
      ensures old(Valid()) ==> Valid()
    {
      if p.None? {
        return;
      }
      var sel := DefaultSelection(p.value.variants);
      selectedSize := sel.size;
      selectedPieces := sel.pieces;
      quantity := 1;
    }

    /** A size button: that size, and no piece count. */
    method PickSize(v: Catalog.Variant)
      requires HasSize(v)
      modifies this
      ensures selectedSize == v.size && selectedPieces.None? && quantity == old(quantity)
      ensures old(Valid()) ==> Valid()
    {
      selectedSize := v.size;
      selectedPieces := None;
    }

    /** A piece-count button: that count, and no size. */
    method PickPieces(v: Catalog.Variant)
      requires HasPieces(v)
      modifies this
      ensures selectedPieces == v.pieces && selectedSize.None? && quantity == old(quantity)
      ensures old(Valid()) ==> Valid()
    {
      selectedPieces := v.pieces;
      selectedSize := None;
    }

    /** `handleQuantityChange`: a new quantity below 1 is ignored. */
    method ChangeQuantity(n: int)
      modifies this
      ensures quantity == (if n >= 1 then n else old(quantity))
      ensures selectedSize == old(selectedSize) && selectedPieces == old(selectedPieces)
      ensures old(Valid()) ==> Valid()
    {
      if n >= 1 {
        quantity := n;
      }
    }

    /** `handleAddToCart`: one cart line at the current unit price, with the chosen quantity and selector. */
    method AddToCart(p: Catalog.Product, cart: Cart.CartStore)
      modifies cart
      ensures cart.items == Cart.Added(old(cart.items), ModalPayload(p, quantity, selectedSize, selectedPieces))
      ensures cart.Valid()
    {
      cart.AddToCart(ModalPayload(p, quantity, selectedSize, selectedPieces));
    }
  }

  /**
    The cheapest size variant is preselected, and when no two variants
    share a size label the unit price shown is then the lowest size-variant
    price.
   */
  lemma DefaultIsCheapestSize(p: Catalog.Product)
    requires exists k :: 0 <= k < |p.variants| && HasSize(p.variants[k])
    requires forall i, j :: 0 <= i < j < |p.variants| && HasSize(p.variants[i]) ==> p.variants[i].size != p.variants[j].size
    ensures var sel := DefaultSelection(p.variants);
      Catalog.TruthyText(sel.size) && sel.pieces.None?
      && (exists k :: 0 <= k < |p.variants| && HasSize(p.variants[k]) && p.variants[k].price == CurrentPrice(p, sel.size, sel.pieces))
      && (forall k :: 0 <= k < |p.variants| && HasSize(p.variants[k]) ==> CurrentPrice(p, sel.size, sel.pieces) <= p.variants[k].price)
  {
    var vs := p.variants;
    var best := CheapestOption(vs, HasSize);
    PriceOfDistinctSize(p, best);
  }

  /** With distinct sizes, a sized variant's size prices the dialog at that variant's price. */
  lemma PriceOfDistinctSize(p: Catalog.Product, v: Catalog.Variant)
    requires v in p.variants && HasSize(v)
    requires forall i, j :: 0 <= i < j < |p.variants| && HasSize(p.variants[i]) ==> p.variants[i].size != p.variants[j].size
    ensures CurrentPrice(p, v.size, None) == v.price
  {
    var vs := p.variants;
    var k :| 0 <= k < |vs| && vs[k] == v;
    var j := FindIndex(vs, SizeIs(v.size)).value;
    SameSizeSameVariant(vs, j, k);
  }

  /**
    A product without sized variants opens on its cheapest piece count: the
    preselected count's price, which the dialog shows, is some piece
    variant's price and no piece variant is cheaper; labels are assumed
    distinct, as the buttons need them to be.
   */
  lemma DefaultIsCheapestPieces(p: Catalog.Product)
    requires forall k :: 0 <= k < |p.variants| ==> !HasSize(p.variants[k])
    requires exists k :: 0 <= k < |p.variants| && HasPieces(p.variants[k])
    requires forall i, j :: 0 <= i < j < |p.variants| && HasPieces(p.variants[i]) ==> p.variants[i].pieces != p.variants[j].pieces
    ensures var sel := DefaultSelection(p.variants);
      sel.size.None? && Catalog.TruthyNumber(sel.pieces)
      && (exists k :: 0 <= k < |p.variants| && HasPieces(p.variants[k]) && p.variants[k].price == CurrentPrice(p, sel.size, sel.pieces))
      && (forall k :: 0 <= k < |p.variants| && HasPieces(p.variants[k]) ==> CurrentPrice(p, sel.size, sel.pieces) <= p.variants[k].price)
  {
    var vs := p.variants;
    var best := CheapestOption(vs, HasPieces);
    PiecesDefault(vs);
    PriceOfDistinctPieces(p, best);
  }

  /** Without sized variants the default is the first piece-count button's count. */
  lemma PiecesDefault(vs: seq<Catalog.Variant>)
    requires forall k :: 0 <= k < |vs| ==> !HasSize(vs[k])
    requires |PiecesOptions(vs)| > 0
    ensures DefaultSelection(vs) == Selection(None, PiecesOptions(vs)[0].pieces)
  {
    FilterNone(vs, HasSize);
    assert SizeOptions(vs) == [];
  }

  /** With distinct piece counts and no size selected, a piece variant's count prices the dialog at that variant's price. */
  lemma PriceOfDistinctPieces(p: Catalog.Product, v: Catalog.Variant)
    requires v in p.variants && HasPieces(v)
    requires forall i, j :: 0 <= i < j < |p.variants| && HasPieces(p.variants[i]) ==> p.variants[i].pieces != p.variants[j].pieces
    ensures CurrentPrice(p, None, v.pieces) == v.price
  {
    var vs := p.variants;
    var k :| 0 <= k < |vs| && vs[k] == v;
    var j := FindIndex(vs, PiecesIs(v.pieces)).value;
    SamePiecesSameVariant(vs, j, k);
  }

  /** The first button of a kind is a variant of that kind that no variant of the kind undercuts. */
  lemma CheapestOption(vs: seq<Catalog.Variant>, keep: Catalog.Variant -> bool) returns (best: Catalog.Variant)
    requires exists k :: 0 <= k < |vs| && keep(vs[k])
    ensures |Sorting.SortBy(Filter(vs, keep), Catalog.PriceOf)| > 0 && Sorting.SortBy(Filter(vs, keep), Catalog.PriceOf)[0] == best
    ensures best in vs && keep(best)
    ensures forall i :: 0 <= i < |vs| && keep(vs[i]) ==> best.price <= vs[i].price
  {
    var f := Filter(vs, keep);
    var k0 :| 0 <= k0 < |vs| && keep(vs[k0]);
    assert vs[k0] in f;
    Sorting.SortByHead(f, Catalog.PriceOf);
    var m := Sorting.FirstMinIndex(f, Catalog.PriceOf);
    best := f[m];
    forall i | 0 <= i < |vs| && keep(vs[i]) ensures best.price <= vs[i].price {
      assert vs[i] in f;
    }
  }

  lemma SamePiecesSameVariant(vs: seq<Catalog.Variant>, j: nat, k: nat)
    requires j < |vs| && k < |vs| && HasPieces(vs[k]) && vs[j].pieces == vs[k].pieces
    requires forall a, b :: 0 <= a < b < |vs| && HasPieces(vs[a]) ==> vs[a].pieces != vs[b].pieces
    ensures j == k
  {
    assert !(j < k) && !(k < j);
  }

  lemma SameSizeSameVariant(vs: seq<Catalog.Variant>, j: nat, k: nat)
    requires j < |vs| && k < |vs| && HasSize(vs[k]) && vs[j].size == vs[k].size
    requires forall a, b :: 0 <= a < b < |vs| && HasSize(vs[a]) ==> vs[a].size != vs[b].size
    ensures j == k
  {
    assert !(j < k) && !(k < j);
  }

  /** The price line reads back as the unit price times the quantity. */
  lemma TotalTextReadsBack(price: int, quantity: int)
    ensures TotalText(price, quantity)[0] == '₨'
    ensures NumberOf(TotalText(price, quantity)[1..]) == Some(price * quantity)
  {
    assert TotalText(price, quantity)[1..] == IntToString(price * quantity);
    NumberOfIntToString(price * quantity);
  }

  /** A quick add of a product and a dialog add with nothing selected land on the same cart line. */
  lemma NoSelectionSameLine(p: Catalog.Product, quantity: int)
    ensures Cart.SameLine(Cart.NewLine(ModalPayload(p, quantity, None, None)),
                          Cart.NewLine(ProductCard.QuickAddPayload(p)))
    ensures ModalPayload(p, quantity, None, None).price == p.price
  {
  }
}
