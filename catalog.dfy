/**
  The product shape the catalogue endpoints send (`allProducts`,
  `singleProduct`) and every client screen reads: a product with its base
  price and an ordered list of priced variants. A variant is keyed by a size
  label or a piece count; the column that does not apply is null.
 */
module Catalog {
  import opened Common

  datatype Variant = Variant(id: string, size: Option<string>, pieces: Option<int>, price: int)

  datatype Product = Product(
    id: string,
    name: string,
    description: Option<string>,
    categoryId: string,
    price: int,
    isFeatured: bool,
    imageUrl: Option<string>,
    createdAt: int,
    variants: seq<Variant>)

  /** JavaScript truthiness of an optional string: present and not empty. */
  predicate TruthyText(s: Option<string>) {
    s.Some? && s.value != ""
  }

  /** JavaScript truthiness of an optional number: present and not zero. */
  predicate TruthyNumber(n: Option<int>) {
    n.Some? && n.value != 0
  }

  function PriceOf(v: Variant): int {
    v.price
  }
}
