/**
  The favourites list kept by the client (`favoritesSlice`): at most one
  entry per product id, plus a `count` field that mirrors the list length.
 */
module Favorites {
  import opened Common
  import Catalog

  datatype FavoriteItem = FavoriteItem(
    id: string,
    name: string,
    price: int,
    imageUrl: string,
    category: string,
    description: string,
    variants: Option<seq<Catalog.Variant>>)

  function IdOf(f: FavoriteItem): string {
    f.id
  }

  function HasId(id: string): FavoriteItem -> bool {
    (f: FavoriteItem) => f.id == id
  }

  function OtherId(id: string): FavoriteItem -> bool {
    (f: FavoriteItem) => f.id != id
  }

  /** `items.find(item => item.id === id)` found something. */
  predicate Contains(items: seq<FavoriteItem>, id: string) {
    exists j :: 0 <= j < |items| && items[j].id == id
  }

  /** The list after `addToFavorites(f)`. */
  function FavAdded(items: seq<FavoriteItem>, f: FavoriteItem): seq<FavoriteItem> {
    if Contains(items, f.id) then items else items + [f]
  }

  /** The list after `removeFromFavorites(id)`. */
  function FavRemoved(items: seq<FavoriteItem>, id: string): seq<FavoriteItem> {
    Filter(items, OtherId(id))
  }

  class FavoritesStore {
    var items: seq<FavoriteItem>
    var count: int

    /** `count` is the length, and no product appears twice. */
    ghost predicate Valid()
      reads this
    {
      count == |items| && DistinctBy(items, IdOf)
    }

    constructor ()
      ensures items == [] && count == 0 && Valid()
    {
      items := [];
      count := 0;
    }

    /** A product already in the list changes nothing; a new one goes last and `count` follows the length. */
    method AddToFavorites(f: FavoriteItem)
      modifies this
      ensures items == FavAdded(old(items), f)
      ensures Contains(old(items), f.id) ==> count == old(count)
      ensures !Contains(old(items), f.id) ==> count == |items|
      ensures old(Valid()) ==> Valid()
    {
      var existing := FindIndex(items, HasId(f.id));
      if existing.None? {
        assert !Contains(items, f.id) by {
          forall j | 0 <= j < |items| ensures items[j].id != f.id {
            assert !HasId(f.id)(items[j]);
          }
        }
        if DistinctBy(items, IdOf) {
          AddedKeepsDistinct(items, f);
        }
        items := items + [f];
        count := |items|;
      } else {
        assert HasId(f.id)(items[existing.value]);
      }
    }

    method RemoveFromFavorites(id: string)
      modifies this
      ensures items == FavRemoved(old(items), id) && count == |items|
      ensures old(Valid()) ==> Valid()
    {
      if DistinctBy(items, IdOf) {
        FilterKeepsDistinct(items, IdOf, OtherId(id));
      }
      items := Filter(items, OtherId(id));
      count := |items|;
    }

    method ClearFavorites()
      modifies this
      ensures items == [] && count == 0 && Valid()
    {
      items := [];
      count := 0;
    }
  }

  /** Adding a product that is already a favourite a second time changes nothing. */
  lemma FavAddedIdempotent(items: seq<FavoriteItem>, f: FavoriteItem)
    ensures FavAdded(FavAdded(items, f), f) == FavAdded(items, f)
  {
    if !Contains(items, f.id) {
      var r := items + [f];
      assert r[|items|].id == f.id;
    }
  }

  /** Adding never creates a second entry for an id. */
  lemma AddedKeepsDistinct(items: seq<FavoriteItem>, f: FavoriteItem)
    requires DistinctBy(items, IdOf)
    ensures DistinctBy(FavAdded(items, f), IdOf)
  {
    if !Contains(items, f.id) {
      var r := items + [f];
      forall i, j | 0 <= i < j < |r| ensures IdOf(r[i]) != IdOf(r[j]) {
        if j == |items| {
          assert r[i] == items[i];
        } else {
          assert r[i] == items[i] && r[j] == items[j];
        }
      }
    }
  }

  /** Removing by id leaves no entry with that id, keeps every other entry, in order, and keeps ids distinct. */
  lemma FavRemovedSpec(items: seq<FavoriteItem>, id: string)
    ensures !Contains(FavRemoved(items, id), id)
    ensures forall j :: 0 <= j < |items| && items[j].id != id ==> items[j] in FavRemoved(items, id)
    ensures IsSubsequence(FavRemoved(items, id), items)
    ensures DistinctBy(items, IdOf) ==> DistinctBy(FavRemoved(items, id), IdOf)
  {
    FilterIsSubsequence(items, OtherId(id));
    var r := FavRemoved(items, id);
    forall j | 0 <= j < |r| ensures r[j].id != id {
      assert OtherId(id)(r[j]);
    }
    if DistinctBy(items, IdOf) {
      FilterKeepsDistinct(items, IdOf, OtherId(id));
    }
  }

  /** After adding, the product is a favourite, and the number of entries grows by one exactly when it was not one before. */
  lemma FavAddedContains(items: seq<FavoriteItem>, f: FavoriteItem)
    ensures Contains(FavAdded(items, f), f.id)
    ensures |FavAdded(items, f)| == if Contains(items, f.id) then |items| else |items| + 1
  {
    if !Contains(items, f.id) {
      assert FavAdded(items, f)[|items|] == f;
    }
  }
}
