/**
  The favourites screen (`pages/Favorites`): each entry shows its price the
  way a menu card does, the trash button removes the entry by product id,
  and "Add to Cart" adds nothing itself: it opens the product dialog for
  that entry, where the customer picks a variant and a quantity.
 */
module FavoritesPage {
  import opened Common
  import Favorites
  import ProductCard

  /** `getDisplayPrice` for an entry, whose variants may be absent. */
  function DisplayPrice(f: Favorites.FavoriteItem): (r: ProductCard.PriceLabel)
    ensures f.variants.None? || f.variants.value == [] ==> r == ProductCard.Single(f.price)
    ensures f.variants.Some? && |f.variants.value| == 1 ==> r == ProductCard.Single(f.variants.value[0].price)
    ensures f.variants.Some? && |f.variants.value| > 1 ==>
      var vs := f.variants.value;
      r.Range? && r.lo <= r.hi
      && (exists i :: 0 <= i < |vs| && vs[i].price == r.lo)
      && (exists j :: 0 <= j < |vs| && vs[j].price == r.hi)
      && (forall k :: 0 <= k < |vs| ==> r.lo <= vs[k].price <= r.hi)
  {
    ProductCard.DisplayPrice(f.price, f.variants.GetOr([]))
  }

  class FavoritesScreen {
    var selected: Option<Favorites.FavoriteItem>
    var modalOpen: bool

    constructor ()
      ensures selected.None? && !modalOpen
    {
      selected := None;
      modalOpen := false;
    }

    /** `handleRemoveFromFavorites`: the entry with that product id goes, the rest stay in order. */
    method RemoveFavorite(store: Favorites.FavoritesStore, id: string)
      modifies store
      ensures store.items == Favorites.FavRemoved(old(store.items), id) && store.count == |store.items|
      ensures !Favorites.Contains(store.items, id)
      ensures old(store.Valid()) ==> store.Valid()
    {
      Favorites.FavRemovedSpec(store.items, id);
      store.RemoveFromFavorites(id);
    }

    /** `handleAddToCart`: only selects the entry and opens the dialog; no store changes. */
    method AddToCart(f: Favorites.FavoriteItem)
      modifies this
      ensures selected == Some(f) && modalOpen
    {
      selected := Some(f);
      modalOpen := true;
    }
  }
}
