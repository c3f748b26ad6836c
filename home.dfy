/**
  The menu page (`Home`): a search over name, description and category
  name, a category filter, the featured dishes and the other dishes of the
  chosen category, and the dialog a card click opens. Typing a search
  switches the category back to "All".
 */
module Home {
  import opened Common
  import opened Text
  import Catalog
  import CategoryController

  const AllCategories := "All"

  /** `selectedCategory.value === 'All' || product.categoryId === selectedCategory.value` */
  function InCategory(category: string): Catalog.Product -> bool {
    (p: Catalog.Product) => category == AllCategories || p.categoryId == category
  }

  /** The search text in the name of the product's category, ignoring case; false when the category is unknown. */
  predicate CategoryNameMatches(p: Catalog.Product, cats: seq<CategoryController.Category>, query: string) {
    match FindIndex(cats, CategoryController.HasId(p.categoryId))
    case None => false
    case Some(k) => Includes(ToLower(cats[k].name), ToLower(query))
  }

  /** The search as intended: name, description (none counts as empty) or category name, ignoring case. */
  predicate MatchesSearch(p: Catalog.Product, cats: seq<CategoryController.Category>, query: string) {
    var q := ToLower(query);
    Includes(ToLower(p.name), q) || Includes(ToLower(p.description.GetOr("")), q) || CategoryNameMatches(p, cats, query)
  }

  function Shown(cats: seq<CategoryController.Category>, category: string, query: string): Catalog.Product -> bool {
    (p: Catalog.Product) => InCategory(category)(p) && MatchesSearch(p, cats, query)
  }

  /** `filteredProducts`, as intended. */
  function FilteredProducts(products: seq<Catalog.Product>, cats: seq<CategoryController.Category>, category: string, query: string): seq<Catalog.Product> {
    Filter(products, Shown(cats, category, query))
  }

  /** A search test that either answers or throws. */
  datatype Outcome = Answer(value: bool) | Throws

  /**
    The search test as written: `product.description.toLowerCase()` runs
    whenever the name does not match, and throws a TypeError on a product
    stored without a description.
   */
  function MatchesSearchAsWritten(p: Catalog.Product, cats: seq<CategoryController.Category>, query: string): (r: Outcome)
    ensures r.Throws? <==> p.description.None? && !Includes(ToLower(p.name), ToLower(query))
    ensures r.Answer? ==> r.value == MatchesSearch(p, cats, query)
  {
    var q := ToLower(query);
    if Includes(ToLower(p.name), q) then Answer(true)
    else if p.description.None? then Throws
    else Answer(Includes(ToLower(p.description.value), q) || CategoryNameMatches(p, cats, query))
  }

  /**
    `filteredProducts` as written: the `filter` stops at the first product
    whose test throws, and the page fails to render; otherwise it agrees
    with the intended list.
   */
  function FilteredAsWritten(products: seq<Catalog.Product>, cats: seq<CategoryController.Category>, category: string, query: string): (r: Option<seq<Catalog.Product>>)
    ensures r.None? <==> exists k :: 0 <= k < |products| && MatchesSearchAsWritten(products[k], cats, query).Throws?
    ensures r.Some? ==> r.value == FilteredProducts(products, cats, category, query)
  {
    if products == [] then Some([])
    else
      var p := products[0];
      var rest := FilteredAsWritten(products[1..], cats, category, query);
      assert forall k :: 0 < k < |products| ==> products[k] == products[1..][k - 1];
      assert forall k :: 0 <= k < |products[1..]| ==> products[1..][k] == products[k + 1];
      match MatchesSearchAsWritten(p, cats, query)
      case Throws => None
      case Answer(b) =>
        if rest.None? then None
        else Some((if InCategory(category)(p) && b then [p] else []) + rest.value)
  }

  /** A product without a description whose name misses the search text makes the written page throw; the intended list just leaves it out. */
  lemma MissingDescriptionThrows()
    ensures var p := Catalog.Product("p1", "a", None, "c1", 100, false, None, 0, []);
      FilteredAsWritten([p], [], AllCategories, "b").None?
      && FilteredProducts([p], [], AllCategories, "b") == []
  {
    var p := Catalog.Product("p1", "a", None, "c1", 100, false, None, 0, []);
    assert ToLower("a") == "a" && ToLower("b") == "b" && ToLower("") == "";
    assert !Includes("a", "b") by {
      assert "a"[0..1] == "a";
      assert forall i :: !OccursAt("a", "b", i);
    }
    assert !Includes("", "b") by {
      assert forall i :: !OccursAt("", "b", i);
    }
    assert FilteredAsWritten([p], [], AllCategories, "b").None? by {
      assert MatchesSearchAsWritten([p][0], [], "b").Throws?;
    }
    assert !CategoryNameMatches(p, [], "b");
    assert !MatchesSearch(p, [], "b") by {
      assert ToLower(p.name) == "a" && ToLower(p.description.GetOr("")) == "";
    }
    assert !Shown([], AllCategories, "b")(p);
  }

  /** With every description present, the written list and the intended one agree. */
  lemma DescribedProductsAgree(products: seq<Catalog.Product>, cats: seq<CategoryController.Category>, category: string, query: string)
    requires forall k :: 0 <= k < |products| ==> products[k].description.Some?
    ensures FilteredAsWritten(products, cats, category, query) == Some(FilteredProducts(products, cats, category, query))
  {
  }

  /** With no search text every product of the category is listed, and the written page does not throw. */
  lemma EmptySearchListsCategory(products: seq<Catalog.Product>, cats: seq<CategoryController.Category>, category: string)
    ensures FilteredProducts(products, cats, category, "") == Filter(products, InCategory(category))
    ensures FilteredAsWritten(products, cats, category, "").Some?
  {
    forall p: Catalog.Product ensures Includes(ToLower(p.name), ToLower("")) {
      IncludesEmpty(ToLower(p.name));
    }
    FilterSame(products, Shown(cats, category, ""), InCategory(category));
  }

  /** `product.isFeatured` and its negation. */
  function IsFeatured(p: Catalog.Product): bool {
    p.isFeatured
  }

  function NotFeatured(p: Catalog.Product): bool {
    !p.isFeatured
  }

  /** The featured and the other dishes split the menu: every product is in exactly one of the two lists. */
  lemma FeaturedSplit(products: seq<Catalog.Product>)
    ensures |Filter(products, IsFeatured)| + |Filter(products, NotFeatured)| == |products|
    ensures multiset(Filter(products, IsFeatured)) + multiset(Filter(products, NotFeatured)) == multiset(products)
  {
    FilterPartition(products, IsFeatured, NotFeatured);
  }

  /** `filteredNonFeatured`: the other dishes of the chosen category; the search does not narrow it. */
  function FilteredNonFeatured(products: seq<Catalog.Product>, category: string): seq<Catalog.Product> {
    Filter(Filter(products, NotFeatured), InCategory(category))
  }

  function NotFeaturedIn(category: string): Catalog.Product -> bool {
    (p: Catalog.Product) => NotFeatured(p) && InCategory(category)(p)
  }

  /** The other dishes of a category are, in menu order, the products that are neither featured nor of another category. */
  lemma FilteredNonFeaturedSpec(products: seq<Catalog.Product>, category: string)
    ensures FilteredNonFeatured(products, category) == Filter(products, NotFeaturedIn(category))
    ensures FilteredNonFeatured(products, "All") == Filter(products, NotFeatured)
  {
    FilterOfFilter(products, NotFeatured, NotFeaturedIn(category));
    FilterSame(Filter(products, NotFeatured), InCategory(category), NotFeaturedIn(category));
    FilterAll(Filter(products, NotFeatured), InCategory("All"));
  }

  /** The page's state. */
  class HomeScreen {
    var category: string
    var query: string
    var selected: Option<Catalog.Product>
    var modalOpen: bool

    constructor ()
      ensures category == AllCategories && query == "" && selected.None? && !modalOpen
    {
      category := AllCategories;
      query := "";
      selected := None;
      modalOpen := false;
    }

    /** `handleSearch`: a non-empty search text switches the category to "All". */
    method HandleSearch(q: string)
      modifies this
      ensures query == q
      ensures category == (if q != "" then AllCategories else old(category))
      ensures selected == old(selected) && modalOpen == old(modalOpen)
    {
      query := q;
      if q != "" && category != AllCategories {
        category := AllCategories;
      }
    }

    /** The category filter's choice. */
    method SelectCategory(value: string)
      modifies this
      ensures category == value && query == old(query) && selected == old(selected) && modalOpen == old(modalOpen)
    {
      category := value;
    }

    /** `handleProductClick`: the dialog opens on that product. */
    method HandleProductClick(p: Catalog.Product)
      modifies this
      ensures selected == Some(p) && modalOpen && category == old(category) && query == old(query)
    {
      selected := Some(p);
      modalOpen := true;
    }
  }

  function Searched(cats: seq<CategoryController.Category>, query: string): Catalog.Product -> bool {
    (p: Catalog.Product) => MatchesSearch(p, cats, query)
  }

  /** Once a search text is typed, the results are drawn from every category. */
  lemma SearchSpansCategories(products: seq<Catalog.Product>, cats: seq<CategoryController.Category>, query: string)
    ensures FilteredProducts(products, cats, AllCategories, query) == Filter(products, Searched(cats, query))
  {
    forall p: Catalog.Product ensures Shown(cats, AllCategories, query)(p) == Searched(cats, query)(p) {
      assert InCategory(AllCategories)(p);
    }
    FilterSame(products, Shown(cats, AllCategories, query), Searched(cats, query));
  }
}
