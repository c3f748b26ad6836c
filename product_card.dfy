/**
  The menu card of one product (`ProductCard`): the price it shows (the
  base price, the only variant's price, or the cheapest to dearest variant
  range), whether the product is a favourite, the heart button that toggles
  it, the category label, and the quick add-to-cart button.
 */
module ProductCard {
  import opened Common
  import opened Text
  import Catalog
  import Cart
  import Favorites
  import CategoryController

  /** What `getDisplayPrice` shows: one price, or `₨min - ₨max`. */
  datatype PriceLabel = Single(price: int) | Range(lo: int, hi: int)

  const UnknownCategory := "Unknown Category"

  /** `variants.map(v => v.price)` */
  function Prices(vs: seq<Catalog.Variant>): (r: seq<int>)
    ensures |r| == |vs|
    ensures forall i :: 0 <= i < |vs| ==> r[i] == vs[i].price
  {
    seq(|vs|, i requires 0 <= i < |vs| => vs[i].price)
  }

  /**
    `getDisplayPrice`: no variants shows the base price, one variant shows
    its own price (whatever the base price is), several show the range from
    the cheapest to the dearest, both of them prices of actual variants.
   */
  function DisplayPrice(base: int, vs: seq<Catalog.Variant>): (r: PriceLabel)
    ensures |vs| == 0 ==> r == Single(base)
    ensures |vs| == 1 ==> r == Single(vs[0].price)
    ensures |vs| > 1 ==>
      r.Range? && r.lo <= r.hi
      && (exists i :: 0 <= i < |vs| && vs[i].price == r.lo)
      && (exists j :: 0 <= j < |vs| && vs[j].price == r.hi)
      && (forall k :: 0 <= k < |vs| ==> r.lo <= vs[k].price <= r.hi)
  {
    if |vs| == 0 then Single(base)
    else if |vs| == 1 then Single(vs[0].price)
    else
      var ps := Prices(vs);
      var lo := MinOf(ps);
      var hi := MaxOf(ps);
      assert ps[0] in ps;
      assert forall k :: 0 <= k < |vs| ==> ps[k] in ps;
      Range(lo, hi)
  }

  /** The text of a label: `₨450` or `₨300 - ₨900`. */
  function PriceText(l: PriceLabel): string {
    match l
    case Single(p) => "₨" + IntToString(p)
    case Range(lo, hi) => "₨" + IntToString(lo) + " - ₨" + IntToString(hi)
  }

  /** `favorites.some(fav => fav.id === product.id)` */
  function IsFavorite(favs: seq<Favorites.FavoriteItem>, id: string): (r: bool)
    ensures r <==> Favorites.Contains(favs, id)
  {
    var k := FindIndex(favs, Favorites.HasId(id));
    assert k.Some? ==> favs[k.value].id == id;
    assert k.None? ==> forall j :: 0 <= j < |favs| ==> !Favorites.HasId(id)(favs[j]);
    k.Some?
  }

  /** `getCategoryName`: the name of the first category with the id, or 'Unknown Category' when there is none or its name is empty. */
  function CategoryName(cats: seq<CategoryController.Category>, id: string): (r: string)
    ensures (forall k :: 0 <= k < |cats| ==> cats[k].id != id) ==> r == UnknownCategory
    ensures forall k :: 0 <= k < |cats| && cats[k].id == id && (forall j :: 0 <= j < k ==> cats[j].id != id) ==>
      r == (if cats[k].name != "" then cats[k].name else UnknownCategory)
    ensures r != UnknownCategory ==>
      exists k :: 0 <= k < |cats| && cats[k].id == id && cats[k].name == r
        && forall j :: 0 <= j < k ==> cats[j].id != id
  {
    match FindIndex(cats, CategoryController.HasId(id))
    case None => UnknownCategory
    case Some(k) => if cats[k].name != "" then cats[k].name else UnknownCategory
  }

  /** The entry the heart button adds: the product's fields, its category's name and its variants. */
  function FavoriteFrom(p: Catalog.Product, cats: seq<CategoryController.Category>): Favorites.FavoriteItem {
    Favorites.FavoriteItem(p.id, p.name, p.price, p.imageUrl.GetOr(""), CategoryName(cats, p.categoryId), p.description.GetOr(""), Some(p.variants))
  }

  /**
    The quick add button dispatches the product object itself: it has no
    `quantity`, `size` or `pieces`, and its picture is under `imageUrl`,
    not the `image` a cart line reads.
   */
  function QuickAddPayload(p: Catalog.Product): (r: Cart.CartPayload)
    ensures r.id == p.id && r.price == p.price
    ensures r.quantity.None? && r.size.None? && r.pieces.None?
  {
    Cart.CartPayload(p.id, p.name, p.price, "", None, None, None)
  }

  /**
    `handleFavorite`: removes the product when it is a favourite, adds its
    entry otherwise; either way membership flips.
   */
  method HandleFavorite(store: Favorites.FavoritesStore, p: Catalog.Product, cats: seq<CategoryController.Category>)
    modifies store
    ensures IsFavorite(old(store.items), p.id) ==> store.items == Favorites.FavRemoved(old(store.items), p.id)
    ensures !IsFavorite(old(store.items), p.id) ==> store.items == Favorites.FavAdded(old(store.items), FavoriteFrom(p, cats))
    ensures Favorites.Contains(store.items, p.id) <==> !Favorites.Contains(old(store.items), p.id)
    ensures old(store.Valid()) ==> store.Valid()
  {
    if IsFavorite(store.items, p.id) {
      Favorites.FavRemovedSpec(store.items, p.id);
      store.RemoveFromFavorites(p.id);
    } else {
      Favorites.FavAddedContains(store.items, FavoriteFrom(p, cats));
      store.AddToFavorites(FavoriteFrom(p, cats));
    }
  }

  /** The quick add button: the cart gains the product at its base price, one more of it. */
  method QuickAdd(cart: Cart.CartStore, p: Catalog.Product)
    modifies cart
    ensures cart.items == Cart.Added(old(cart.items), QuickAddPayload(p)) && cart.Valid()
  {
    cart.AddToCart(QuickAddPayload(p));
  }

  /** Two clicks on the heart of a product that is not a favourite leave the list as it was. */
  lemma ToggleTwiceRestores(items: seq<Favorites.FavoriteItem>, p: Catalog.Product, cats: seq<CategoryController.Category>)
    requires !Favorites.Contains(items, p.id)
    ensures Favorites.FavRemoved(Favorites.FavAdded(items, FavoriteFrom(p, cats)), p.id) == items
  {
    var f := FavoriteFrom(p, cats);
    FilterConcat(items, [f], Favorites.OtherId(p.id));
    FilterAll(items, Favorites.OtherId(p.id));
    assert Filter([f], Favorites.OtherId(p.id)) == [];
  }

  /** A quick add raises the item count by one and the total by one unit price: the base price for a new line. */
  lemma QuickAddTotals(items: seq<Cart.CartItem>, p: Catalog.Product)
    ensures Cart.ItemCountOf(Cart.Added(items, QuickAddPayload(p))) == Cart.ItemCountOf(items) + 1
    ensures (forall j :: 0 <= j < |items| ==> !Cart.SameLine(items[j], Cart.NewLine(QuickAddPayload(p)))) ==>
      Cart.LineTotal(Cart.Added(items, QuickAddPayload(p))) == Cart.LineTotal(items) + p.price
  {
    Cart.AddedItemCount(items, QuickAddPayload(p));
    Cart.AddedTotal(items, QuickAddPayload(p));
    if forall j :: 0 <= j < |items| ==> !Cart.SameLine(items[j], Cart.NewLine(QuickAddPayload(p))) {
      FindIndexNone(items, Cart.MatchesLine(Cart.NewLine(QuickAddPayload(p))));
    }
  }
}
