/**
  The product endpoints (`backend/controller/product.js`) over two in-memory
  tables: `products`, keyed by id, and `product_variants`, a list of rows
  that point at their product.

  Requests arrive as multipart form fields, so every scalar is text or
  absent; `variants` is JSON text (or an already parsed array) whose parse
  result is part of the request. Ids from `ObjectId()`, the clock and the
  uploaded image's URL are parameters.
 */
module ProductController {
  import opened Common
  import opened Text
  import Catalog

  datatype VariantMode = SizeMode | PiecesMode

  /** `variantMode === 'size'` / `variantMode === 'pieces'`; anything else is no mode. */
  function ModeOf(m: Option<string>): (r: Option<VariantMode>)
    ensures r == Some(SizeMode) <==> m == Some("size")
    ensures r == Some(PiecesMode) <==> m == Some("pieces")
  {
    if m == Some("size") then Some(SizeMode)
    else if m == Some("pieces") then Some(PiecesMode)
    else None
  }

  /** The `variants` field: absent or empty (falsy), or sent, with `None` for text that is not valid JSON. */
  datatype VariantsField<+V> = Omitted | Sent(parsed: Option<seq<V>>)

  /** `parsedVariants`: `[]` unless the field is sent; `None` is the "Invalid variants JSON" case. */
  function ParsedVariants<V>(f: VariantsField<V>): Option<seq<V>> {
    match f
    case Omitted => Some([])
    case Sent(p) => p
  }

  /** One element of `variants` on create: what the add form sends, `{value, price}` as text. */
  datatype VariantInput = VariantInput(value: Option<string>, price: Option<string>)

  datatype CreateRequest = CreateRequest(
    name: Option<string>,
    description: Option<string>,
    categoryId: Option<string>,
    price: Option<string>,
    isFeatured: Option<string>,
    variants: VariantsField<VariantInput>,
    variantMode: Option<string>)

  /** A row of the `products` table. `isFeatured` is the stored number; readers treat any non-zero as featured. */
  datatype ProductRow = ProductRow(
    id: string,
    name: string,
    description: Option<string>,
    categoryId: string,
    price: int,
    isFeatured: int,
    imageUrl: Option<string>,
    createdAt: int)

  /** A row of the `product_variants` table. */
  datatype VariantRow = VariantRow(id: string, productId: string, size: Option<string>, pieces: Option<int>, price: int)

  /** The body of the 201 reply of `createProduct`: the stored fields, the mode, and the variants exactly as sent. */
  datatype CreatedProduct = CreatedProduct(
    id: string,
    name: string,
    description: Option<string>,
    categoryId: string,
    price: int,
    isFeatured: bool,
    imageUrl: Option<string>,
    variantMode: Option<string>,
    variants: seq<VariantInput>)

  // ---------------------------------------------------------------- isFeatured

  /** `String(isFeatured).toLowerCase() === 'true' || String(isFeatured) === '1'`, for a field that is present. */
  predicate SaysFeatured(x: string) {
    ToLower(x) == "true" || x == "1"
  }

  /** The `is_featured` value `createProduct` stores: 1 or 0. */
  function FeaturedOnCreate(x: Option<string>): (r: int)
    ensures r == 0 || r == 1
    ensures r == 1 <==> x.Some? && SaysFeatured(x.value)
  {
    if x.Some? && SaysFeatured(x.value) then 1 else 0
  }

  /** The `is_featured` value `updateProduct` stores: `Number(isFeatured)`, or the stored flag when that is NaN. */
  function FeaturedOnUpdate(x: Option<string>, stored: int): (r: int)
    ensures x.None? ==> r == stored
    ensures x.Some? && NumberOf(x.value).Some? ==> r == NumberOf(x.value).value
    ensures x.Some? && NumberOf(x.value).None? ==> r == stored
  {
    if x.Some? && NumberOf(x.value).Some? then NumberOf(x.value).value else stored
  }

  lemma FeaturedOnCreateAnyCase()
    ensures FeaturedOnCreate(Some("true")) == 1
    ensures FeaturedOnCreate(Some("TRUE")) == 1 && FeaturedOnCreate(Some("True")) == 1
    ensures FeaturedOnCreate(Some("1")) == 1
    ensures FeaturedOnCreate(Some("yes")) == 0 && FeaturedOnCreate(Some("false")) == 0 && FeaturedOnCreate(None) == 0
  {
    assert ToLower("true") == "true";
    assert ToLower("TRUE") == "true";
    assert ToLower("True") == "true";
    assert ToLower("1") == "1";
    assert ToLower("yes") == "yes";
    assert ToLower("false") == "false";
  }

  // ---------------------------------------------------------------- base price

  /** `Number(v?.price)`: `None` is NaN. An absent price is NaN; the empty text is 0. */
  function VariantPrice(v: VariantInput): Option<int> {
    match v.price
    case None => None
    case Some(s) => NumberOf(s)
  }

  /** `parsedVariants.map(v => Number(v?.price)).filter(n => !Number.isNaN(n))` */
  function NumericPrices(vs: seq<VariantInput>): (r: seq<int>)
    ensures |r| <= |vs|
  {
    if vs == [] then []
    else
      match VariantPrice(vs[0])
      case None => NumericPrices(vs[1..])
      case Some(n) => [n] + NumericPrices(vs[1..])
  }

  /** The numeric prices are exactly the prices of the variants that are numbers. */
  lemma NumericPricesSpec(vs: seq<VariantInput>)
    ensures forall x :: x in NumericPrices(vs) ==> exists j :: 0 <= j < |vs| && VariantPrice(vs[j]) == Some(x)
    ensures forall j :: 0 <= j < |vs| && VariantPrice(vs[j]).Some? ==> VariantPrice(vs[j]).value in NumericPrices(vs)
    ensures NumericPrices(vs) == [] <==> forall j :: 0 <= j < |vs| ==> VariantPrice(vs[j]).None?
  {
    NumericPricesSound(vs);
    NumericPricesComplete(vs);
    if NumericPrices(vs) != [] {
      assert NumericPrices(vs)[0] in NumericPrices(vs);
    }
  }

  /** Every numeric price is the price of some variant. */
  lemma {:induction false} NumericPricesSound(vs: seq<VariantInput>)
    ensures forall x :: x in NumericPrices(vs) ==> exists j :: 0 <= j < |vs| && VariantPrice(vs[j]) == Some(x)
  {
    if vs != [] {
      NumericPricesSound(vs[1..]);
      var rest := NumericPrices(vs[1..]);
      forall x | x in rest ensures exists j :: 0 <= j < |vs| && VariantPrice(vs[j]) == Some(x) {
        var j :| 0 <= j < |vs[1..]| && VariantPrice(vs[1..][j]) == Some(x);
        assert VariantPrice(vs[j + 1]) == Some(x);
      }
    }
  }

  /** Every variant price that is a number is among the numeric prices. */
  lemma {:induction false} NumericPricesComplete(vs: seq<VariantInput>)
    ensures forall j :: 0 <= j < |vs| && VariantPrice(vs[j]).Some? ==> VariantPrice(vs[j]).value in NumericPrices(vs)
  {
    if vs != [] {
      NumericPricesComplete(vs[1..]);
      var rest := NumericPrices(vs[1..]);
      forall j | 1 <= j < |vs| && VariantPrice(vs[j]).Some? ensures VariantPrice(vs[j]).value in rest {
        assert vs[j] == vs[1..][j - 1];
      }
    }
  }

  /** A price the request states: present, not the empty text, and a number. */
  predicate ExplicitPrice(price: Option<string>) {
    price.Some? && price.value != "" && NumberOf(price.value).Some?
  }

  /** A JavaScript number that may be `Infinity`, which `Math.min()` of no arguments gives. */
  datatype PriceValue = Finite(n: int) | PosInfinity

  /**
    The base price as `createProduct` computes it: `Math.min` over the
    numeric variant prices, which is `Infinity` when variants were sent but
    none of their prices is a number; `typeof Infinity === 'number'`, so that
    value is what is stored.
   */
  function BasePriceAsWritten(price: Option<string>, vs: seq<VariantInput>): PriceValue {
    if ExplicitPrice(price) then Finite(NumberOf(price.value).value)
    else if vs == [] then Finite(0)
    else
      var ns := NumericPrices(vs);
      if ns == [] then PosInfinity else Finite(MinOf(ns))
  }

  /** The base price as intended: the explicit price, else the cheapest numeric variant price, else 0. */
  function BasePrice(price: Option<string>, vs: seq<VariantInput>): int {
    if ExplicitPrice(price) then NumberOf(price.value).value
    else
      var ns := NumericPrices(vs);
      if ns == [] then 0 else MinOf(ns)
  }

  /** The base-price rule: an explicit price wins; otherwise the cheapest numeric variant price; otherwise 0. */
  lemma BasePriceRule(price: Option<string>, vs: seq<VariantInput>)
    ensures ExplicitPrice(price) ==> BasePrice(price, vs) == NumberOf(price.value).value
    ensures !ExplicitPrice(price) && (exists j :: 0 <= j < |vs| && VariantPrice(vs[j]).Some?) ==>
      (exists j :: 0 <= j < |vs| && VariantPrice(vs[j]) == Some(BasePrice(price, vs)))
      && (forall j :: 0 <= j < |vs| && VariantPrice(vs[j]).Some? ==> BasePrice(price, vs) <= VariantPrice(vs[j]).value)
    ensures !ExplicitPrice(price) && (forall j :: 0 <= j < |vs| ==> VariantPrice(vs[j]).None?) ==> BasePrice(price, vs) == 0
  {
    NumericPricesSpec(vs);
  }

  /** The written computation gives `Infinity` exactly when no price is stated, variants were sent, and none of their prices is a number. */
  lemma BasePriceInfinite(price: Option<string>, vs: seq<VariantInput>)
    ensures BasePriceAsWritten(price, vs) == PosInfinity <==>
      !ExplicitPrice(price) && vs != [] && forall j :: 0 <= j < |vs| ==> VariantPrice(vs[j]).None?
    ensures BasePriceAsWritten(price, vs) != PosInfinity ==> BasePriceAsWritten(price, vs) == Finite(BasePrice(price, vs))
  {
    NumericPricesSpec(vs);
  }

  /** One variant sent without a numeric price, and no base price: the written computation stores `Infinity`, the intended one 0. */
  lemma BasePriceInfiniteExample()
    ensures BasePriceAsWritten(None, [VariantInput(Some("Large"), Some("abc"))]) == PosInfinity
    ensures BasePrice(None, [VariantInput(Some("Large"), Some("abc"))]) == 0
  {
    var vs := [VariantInput(Some("Large"), Some("abc"))];
    assert NumberOf("abc") == None by {
      assert Trim("abc") == "abc" by {
        assert TrimStart("abc") == "abc";
      }
      assert !IsDigit('a');
    }
    assert NumericPrices(vs) == [];
  }

  // ---------------------------------------------------------------- variant columns on create

  /** `size`: the value in size mode (`v?.value || null`), else null. */
  function SizeColumn(mode: VariantMode, v: VariantInput): Option<string> {
    if mode == SizeMode && Catalog.TruthyText(v.value) then v.value else None
  }

  /**
    `pieces`: `Number(v.value)` in pieces mode when the value is truthy, else
    null. A value that is not a number would be NaN; it is `None` here.
   */
  function PiecesColumn(mode: VariantMode, v: VariantInput): Option<int> {
    if mode == PiecesMode && Catalog.TruthyText(v.value) then NumberOf(v.value.value) else None
  }

  function VariantRowFor(id: string, productId: string, mode: VariantMode, v: VariantInput): VariantRow
    requires VariantPrice(v).Some?
  {
    VariantRow(id, productId, SizeColumn(mode, v), PiecesColumn(mode, v), VariantPrice(v).value)
  }

  /** The variant rows the insert loop of `createProduct` writes: one per variant, stopping at the first price that is not a number. */
  function StoredVariants(ids: seq<string>, productId: string, mode: VariantMode, vs: seq<VariantInput>): seq<VariantRow>
    requires |ids| == |vs|
  {
    if vs == [] || VariantPrice(vs[0]).None? then []
    else [VariantRowFor(ids[0], productId, mode, vs[0])] + StoredVariants(ids[1..], productId, mode, vs[1..])
  }

  predicate AllPricesNumeric(vs: seq<VariantInput>) {
    forall j :: 0 <= j < |vs| ==> VariantPrice(vs[j]).Some?
  }

  /** The stored rows are, in order, the rows of the variants before the first non-numeric price; all of them when every price is a number. */
  lemma {:induction false} StoredVariantsSpec(ids: seq<string>, productId: string, mode: VariantMode, vs: seq<VariantInput>)
    requires |ids| == |vs|
    ensures var r := StoredVariants(ids, productId, mode, vs);
      |r| <= |vs|
      && (forall k :: 0 <= k < |r| ==> VariantPrice(vs[k]).Some? && r[k] == VariantRowFor(ids[k], productId, mode, vs[k]))
      && (|r| < |vs| ==> VariantPrice(vs[|r|]).None?)
      && (|r| == |vs| <==> AllPricesNumeric(vs))
  {
    if vs != [] && VariantPrice(vs[0]).Some? {
      StoredVariantsSpec(ids[1..], productId, mode, vs[1..]);
      var r := StoredVariants(ids, productId, mode, vs);
      var rest := StoredVariants(ids[1..], productId, mode, vs[1..]);
      assert r == [VariantRowFor(ids[0], productId, mode, vs[0])] + rest;
      forall k | 0 <= k < |r| ensures VariantPrice(vs[k]).Some? && r[k] == VariantRowFor(ids[k], productId, mode, vs[k]) {
        if k > 0 {
          assert r[k] == rest[k - 1] && vs[k] == vs[1..][k - 1] && ids[k] == ids[1..][k - 1];
        }
      }
      if AllPricesNumeric(vs) {
        assert AllPricesNumeric(vs[1..]) by {
          forall j | 0 <= j < |vs[1..]| ensures VariantPrice(vs[1..][j]).Some? {
            assert vs[1..][j] == vs[j + 1];
          }
        }
      }
      if |r| == |vs| {
        forall j | 0 <= j < |vs| ensures VariantPrice(vs[j]).Some? {
          if j > 0 {
            assert vs[j] == vs[1..][j - 1];
          }
        }
      }
    }
  }

  /** Size mode fills only `size`, pieces mode only `pieces`; the other column is always null. */
  lemma {:induction false} StoredVariantsColumns(ids: seq<string>, productId: string, mode: VariantMode, vs: seq<VariantInput>)
    requires |ids| == |vs|
    ensures forall r :: r in StoredVariants(ids, productId, mode, vs) ==>
      r.productId == productId
      && (mode == SizeMode ==> r.pieces.None?)
      && (mode == PiecesMode ==> r.size.None?)
  {
    if vs != [] && VariantPrice(vs[0]).Some? {
      StoredVariantsColumns(ids[1..], productId, mode, vs[1..]);
    }
  }

  /** Splitting the insert loop after `i` variants whose prices are all numbers. */
  lemma {:induction false} StoredVariantsSplit(ids: seq<string>, productId: string, mode: VariantMode, vs: seq<VariantInput>, i: nat)
    requires |ids| == |vs| && i <= |vs|
    requires forall j :: 0 <= j < i ==> VariantPrice(vs[j]).Some?
    ensures StoredVariants(ids, productId, mode, vs)
      == StoredVariants(ids[..i], productId, mode, vs[..i]) + StoredVariants(ids[i..], productId, mode, vs[i..])
  {
    if i > 0 {
      StoredVariantsSplit(ids[1..], productId, mode, vs[1..], i - 1);
      assert ids[1..][..i - 1] == ids[..i][1..] && vs[1..][..i - 1] == vs[..i][1..];
      assert ids[1..][i - 1..] == ids[i..] && vs[1..][i - 1..] == vs[i..];
      assert vs[..i][0] == vs[0];
    } else {
      assert ids[0..] == ids && vs[0..] == vs;
    }
  }

  /** One more variant with a numeric price adds its row at the end. */
  lemma StoredVariantsSnoc(ids: seq<string>, productId: string, mode: VariantMode, vs: seq<VariantInput>, i: nat)
    requires |ids| == |vs| && i < |vs|
    requires forall j :: 0 <= j <= i ==> VariantPrice(vs[j]).Some?
    ensures StoredVariants(ids[..i + 1], productId, mode, vs[..i + 1])
      == StoredVariants(ids[..i], productId, mode, vs[..i]) + [VariantRowFor(ids[i], productId, mode, vs[i])]
  {
    var a, b := ids[..i + 1], vs[..i + 1];
    StoredVariantsSplit(a, productId, mode, b, i);
    assert a[..i] == ids[..i] && b[..i] == vs[..i];
    assert a[i..] == [ids[i]] && b[i..] == [vs[i]];
  }

  // ---------------------------------------------------------------- createProduct

  /** What `createProduct` does: the reply, the product row it inserts if any, and the variant rows it inserts. */
  datatype CreatePlan = CreatePlan(reply: Reply<CreatedProduct>, row: Option<ProductRow>, variantRows: seq<VariantRow>)

  function NewProductRow(req: CreateRequest, productId: string, vs: seq<VariantInput>, imageUrl: Option<string>, now: int): ProductRow
    requires Catalog.TruthyText(req.name) && Catalog.TruthyText(req.categoryId)
  {
    ProductRow(
      productId,
      req.name.value,
      if Catalog.TruthyText(req.description) then req.description else None,
      req.categoryId.value,
      BasePrice(req.price, vs),
      FeaturedOnCreate(req.isFeatured),
      imageUrl,
      now)
  }

  function CreatedBody(req: CreateRequest, row: ProductRow, vs: seq<VariantInput>): CreatedProduct {
    CreatedProduct(
      row.id, row.name, req.description, row.categoryId, row.price, row.isFeatured != 0, row.imageUrl,
      if Catalog.TruthyText(req.variantMode) then req.variantMode else None,
      vs)
  }

  const NameAndCategoryRequired := "name and category are required"
  const InvalidVariantsJson := "Invalid variants JSON"
  const BadVariantMode := "variantMode must be \"size\" or \"pieces\""
  const VariantPriceNotNumber := "Variant price must be a number"

  function PlanCreate(req: CreateRequest, productId: string, variantIds: seq<string>, imageUrl: Option<string>, now: int): CreatePlan
    requires |variantIds| == |ParsedVariants(req.variants).GetOr([])|
  {
    if !Catalog.TruthyText(req.name) || !Catalog.TruthyText(req.categoryId) then
      CreatePlan(Failure(400, NameAndCategoryRequired), None, [])
    else match ParsedVariants(req.variants)
      case None => CreatePlan(Failure(400, InvalidVariantsJson), None, [])
      case Some(vs) =>
        var row := NewProductRow(req, productId, vs, imageUrl, now);
        var created := Success(201, CreatedBody(req, row, vs));
        if vs == [] then CreatePlan(created, Some(row), [])
        else match ModeOf(req.variantMode)
          case None => CreatePlan(Failure(400, BadVariantMode), Some(row), [])
          case Some(mode) =>
            var stored := StoredVariants(variantIds, productId, mode, vs);
            if AllPricesNumeric(vs) then CreatePlan(created, Some(row), stored)
            else CreatePlan(Failure(400, VariantPriceNotNumber), Some(row), stored)
  }

  /** A missing name or category is rejected with 400 before anything is written; so is variants text that is not JSON. */
  lemma CreateRejectsEarly(req: CreateRequest, productId: string, variantIds: seq<string>, imageUrl: Option<string>, now: int)
    requires |variantIds| == |ParsedVariants(req.variants).GetOr([])|
    requires !Catalog.TruthyText(req.name) || !Catalog.TruthyText(req.categoryId) || ParsedVariants(req.variants).None?
    ensures var plan := PlanCreate(req, productId, variantIds, imageUrl, now);
      plan.reply.Failure? && plan.reply.code == 400 && plan.row.None? && plan.variantRows == []
  {
  }

  /**
    The variant checks run after the product row is written: with variants
    but no valid mode, or with a non-numeric variant price, the reply is 400
    and the product row (with the variants before the bad price) stays.
   */
  lemma CreateChecksAfterInsert(req: CreateRequest, productId: string, variantIds: seq<string>, imageUrl: Option<string>, now: int)
    requires Catalog.TruthyText(req.name) && Catalog.TruthyText(req.categoryId)
    requires ParsedVariants(req.variants).Some? && ParsedVariants(req.variants).value != []
    requires |variantIds| == |ParsedVariants(req.variants).value|
    requires ModeOf(req.variantMode).None? || !AllPricesNumeric(ParsedVariants(req.variants).value)
    ensures var plan := PlanCreate(req, productId, variantIds, imageUrl, now);
      plan.reply.Failure? && plan.reply.code == 400 && plan.row.Some? && plan.row.value.id == productId
      && |plan.variantRows| < |ParsedVariants(req.variants).value|
  {
    var vs := ParsedVariants(req.variants).value;
    if ModeOf(req.variantMode).Some? {
      StoredVariantsSpec(variantIds, productId, ModeOf(req.variantMode).value, vs);
    }
  }

  /** A successful create stores one variant row per variant sent, each with the variant's numeric price and the column its mode names. */
  lemma CreateStoresEveryVariant(req: CreateRequest, productId: string, variantIds: seq<string>, imageUrl: Option<string>, now: int)
    requires |variantIds| == |ParsedVariants(req.variants).GetOr([])|
    requires PlanCreate(req, productId, variantIds, imageUrl, now).reply.Success?
    ensures var plan := PlanCreate(req, productId, variantIds, imageUrl, now);
      var vs := ParsedVariants(req.variants).value;
      plan.reply.code == 201 && plan.row.Some? && |plan.variantRows| == |vs|
      && (forall k :: 0 <= k < |vs| ==>
            plan.variantRows[k].id == variantIds[k] && plan.variantRows[k].productId == productId
            && Some(plan.variantRows[k].price) == VariantPrice(vs[k]))
      && (forall k :: 0 <= k < |vs| && req.variantMode == Some("size") ==>
            plan.variantRows[k].pieces.None? && plan.variantRows[k].size == SizeColumn(SizeMode, vs[k]))
      && (forall k :: 0 <= k < |vs| && req.variantMode == Some("pieces") ==>
            plan.variantRows[k].size.None? && plan.variantRows[k].pieces == PiecesColumn(PiecesMode, vs[k]))
  {
    var vs := ParsedVariants(req.variants).value;
    if vs != [] {
      StoredVariantsSpec(variantIds, productId, ModeOf(req.variantMode).value, vs);
    }
  }

  // ---------------------------------------------------------------- updateProduct

  /** One element of `variants` on update: the edit form sends `{size, price}` or `{pieces, price}`, the add form's shape `{value, price}` is read too. */
  datatype UpdateVariantInput = UpdateVariantInput(size: Option<string>, value: Option<string>, pieces: Option<int>, price: Option<int>)

  datatype UpdateRequest = UpdateRequest(
    name: Option<string>,
    description: Option<string>,
    price: Option<int>,
    categoryId: Option<string>,
    isFeatured: Option<string>,
    variants: VariantsField<UpdateVariantInput>)

  /** The row `updateProduct` writes: every field the request leaves out keeps its stored value. */
  function MergedRow(existing: ProductRow, req: UpdateRequest, newImage: Option<string>): (r: ProductRow)
    ensures r.id == existing.id && r.createdAt == existing.createdAt
    ensures r.name == req.name.GetOr(existing.name)
    ensures r.description == (if req.description.Some? then req.description else existing.description)
    ensures r.price == req.price.GetOr(existing.price)
    ensures r.categoryId == req.categoryId.GetOr(existing.categoryId)
    ensures r.isFeatured == FeaturedOnUpdate(req.isFeatured, existing.isFeatured)
    ensures r.imageUrl == (if newImage.Some? then newImage else existing.imageUrl)
  {
    existing.(
      name := req.name.GetOr(existing.name),
      description := if req.description.Some? then req.description else existing.description,
      price := req.price.GetOr(existing.price),
      categoryId := req.categoryId.GetOr(existing.categoryId),
      isFeatured := FeaturedOnUpdate(req.isFeatured, existing.isFeatured),
      imageUrl := if newImage.Some? then newImage else existing.imageUrl)
  }

  /** The row `updateProduct` inserts for one sent variant: `size ?? value ?? null`, `pieces ?? null`, `Number(price) || 0`. */
  function ReplacementRow(id: string, productId: string, v: UpdateVariantInput): (r: VariantRow)
    ensures r.id == id && r.productId == productId
    ensures v.size.Some? ==> r.size == v.size
    ensures v.size.None? ==> r.size == v.value
    ensures r.pieces == v.pieces
    ensures v.price.Some? ==> r.price == v.price.value
    ensures v.price.None? ==> r.price == 0
  {
    VariantRow(id, productId, if v.size.Some? then v.size else v.value, v.pieces, v.price.GetOr(0))
  }

  function ReplacementRows(ids: seq<string>, productId: string, vs: seq<UpdateVariantInput>): (r: seq<VariantRow>)
    requires |ids| == |vs|
    ensures |r| == |vs|
    ensures forall k :: 0 <= k < |vs| ==> r[k] == ReplacementRow(ids[k], productId, vs[k])
  {
    seq(|vs|, k requires 0 <= k < |vs| => ReplacementRow(ids[k], productId, vs[k]))
  }

  /** The body of the 200 reply of `updateProduct`: the row as stored and the product's variants as stored. */
  datatype UpdatedProduct = UpdatedProduct(product: ProductRow, variants: seq<VariantRow>)

  /**
    The outcome `updateProduct` chooses before it writes, as written: after
    the variants parse, an unknown id reaches `db.rollback()`, which a MySQL
    pool from `mysql2/promise` does not have; the TypeError lands in the
    handler's `catch` and the reply is 500, not the 404 the next line sends.
   */
  function UpdateRejectionAsWritten(req: UpdateRequest, known: bool): Option<Reply<UpdatedProduct>> {
    if ParsedVariants(req.variants).None? then Some(Failure(400, InvalidVariantsJson))
    else if !known then Some(Failure(500, "server error"))
    else None
  }

  /** The outcome `updateProduct` chooses before it writes, as intended: an unknown id is a 404. */
  function UpdateRejection(req: UpdateRequest, known: bool): Option<Reply<UpdatedProduct>> {
    if ParsedVariants(req.variants).None? then Some(Failure(400, InvalidVariantsJson))
    else if !known then Some(Failure(404, "Product not found"))
    else None
  }

  /** Both versions reject bad variants JSON first; they differ only on an unknown id, where the written code answers 500. */
  lemma UpdateRejectionDiffers(req: UpdateRequest, known: bool)
    ensures UpdateRejection(req, known).None? <==> UpdateRejectionAsWritten(req, known).None?
    ensures UpdateRejection(req, known).None? <==> ParsedVariants(req.variants).Some? && known
    ensures ParsedVariants(req.variants).Some? && !known ==>
      UpdateRejection(req, known) == Some(Failure(404, "Product not found"))
      && UpdateRejectionAsWritten(req, known) == Some(Failure(500, "server error"))
    ensures ParsedVariants(req.variants).None? ==>
      UpdateRejection(req, known) == UpdateRejectionAsWritten(req, known)
  {
  }

  // ---------------------------------------------------------------- grouping joined rows

  /** The variant columns of a `products LEFT JOIN product_variants` row; absent when the product has no variant. */
  datatype VariantCols = VariantCols(id: string, size: Option<string>, pieces: Option<int>, price: int)

  datatype JoinRow = JoinRow(product: ProductRow, variant: Option<VariantCols>)

  /** `if (row.variantId)` */
  predicate HasVariant(row: JoinRow) {
    row.variant.Some? && row.variant.value.id != ""
  }

  function VariantOf(row: JoinRow): Catalog.Variant
    requires row.variant.Some?
  {
    var v := row.variant.value;
    Catalog.Variant(v.id, v.size, v.pieces, v.price)
  }

  /** The variant the row contributes: none, or the one it carries. */
  function Extra(row: JoinRow): seq<Catalog.Variant> {
    if HasVariant(row) then [VariantOf(row)] else []
  }

  /** The product object built from the first row of a product, with no variants yet. */
  function ProductOf(p: ProductRow): Catalog.Product {
    Catalog.Product(p.id, p.name, p.description, p.categoryId, p.price, p.isFeatured != 0, p.imageUrl, p.createdAt, [])
  }

  function ProductHasId(id: string): Catalog.Product -> bool {
    (p: Catalog.Product) => p.id == id
  }

  /** One step of the `forEach`: create the product on its first row, then push the row's variant if it has one. */
  function GroupStep(acc: seq<Catalog.Product>, row: JoinRow): seq<Catalog.Product> {
    var extra := Extra(row);
    match FindIndex(acc, ProductHasId(row.product.id))
    case Some(k) => acc[k := acc[k].(variants := acc[k].variants + extra)]
    case None => acc + [ProductOf(row.product).(variants := extra)]
  }

  /** `Object.values(productsMap)` after the `forEach` over `rows`. */
  function Grouped(rows: seq<JoinRow>): seq<Catalog.Product> {
    if rows == [] then [] else GroupStep(Grouped(rows[..|rows| - 1]), rows[|rows| - 1])
  }

  /** The variants of product `id` in `rows`, in row order, skipping rows without a variant. */
  function VariantsFor(rows: seq<JoinRow>, id: string): seq<Catalog.Variant> {
    if rows == [] then []
    else
      var last := rows[|rows| - 1];
      VariantsFor(rows[..|rows| - 1], id) + (if last.product.id == id then Extra(last) else [])
  }

  predicate HasRowFor(rows: seq<JoinRow>, id: string) {
    exists j :: 0 <= j < |rows| && rows[j].product.id == id
  }

  /** The product row of the first joined row for `id`. */
  function FirstRowFor(rows: seq<JoinRow>, id: string): ProductRow
    requires HasRowFor(rows, id)
  {
    if rows[0].product.id == id then rows[0].product
    else
      assert HasRowFor(rows[1..], id) by {
        var j :| 0 <= j < |rows| && rows[j].product.id == id;
        assert rows[1..][j - 1] == rows[j];
      }
      FirstRowFor(rows[1..], id)
  }

  predicate HasProduct(out: seq<Catalog.Product>, id: string) {
    exists k :: 0 <= k < |out| && out[k].id == id
  }

  predicate DistinctIds(out: seq<Catalog.Product>) {
    forall a, b :: 0 <= a < b < |out| ==> out[a].id != out[b].id
  }

  ghost predicate SameIds(rows: seq<JoinRow>, out: seq<Catalog.Product>) {
    forall id :: HasRowFor(rows, id) <==> HasProduct(out, id)
  }

  ghost predicate VariantsMatch(rows: seq<JoinRow>, out: seq<Catalog.Product>) {
    forall k :: 0 <= k < |out| ==> out[k].variants == VariantsFor(rows, out[k].id)
  }

  ghost predicate FieldsMatch(rows: seq<JoinRow>, out: seq<Catalog.Product>) {
    forall k :: 0 <= k < |out| ==>
      HasRowFor(rows, out[k].id) && out[k].(variants := []) == ProductOf(FirstRowFor(rows, out[k].id))
  }

  /** What the grouping promises about its output for the rows seen so far. */
  ghost predicate GroupedInvariant(rows: seq<JoinRow>, out: seq<Catalog.Product>) {
    DistinctIds(out) && SameIds(rows, out) && VariantsMatch(rows, out) && FieldsMatch(rows, out)
  }

  lemma HasRowForSnoc(rows: seq<JoinRow>, row: JoinRow, x: string)
    ensures HasRowFor(rows + [row], x) <==> HasRowFor(rows, x) || row.product.id == x
  {
    var all := rows + [row];
    if HasRowFor(rows, x) {
      var j :| 0 <= j < |rows| && rows[j].product.id == x;
      assert all[j] == rows[j];
    }
    if row.product.id == x {
      assert all[|rows|] == row;
    }
    if HasRowFor(all, x) && row.product.id != x {
      var j :| 0 <= j < |all| && all[j].product.id == x;
      assert j < |rows| && all[j] == rows[j];
    }
  }

  lemma VariantsForSnoc(rows: seq<JoinRow>, row: JoinRow, x: string)
    ensures VariantsFor(rows + [row], x) == VariantsFor(rows, x) + (if row.product.id == x then Extra(row) else [])
  {
    var all := rows + [row];
    assert all[..|all| - 1] == rows && all[|all| - 1] == row;
  }

  lemma FirstRowForSnoc(rows: seq<JoinRow>, row: JoinRow, id: string)
    requires HasRowFor(rows, id)
    ensures HasRowFor(rows + [row], id) && FirstRowFor(rows + [row], id) == FirstRowFor(rows, id)
  {
    HasRowForSnoc(rows, row, id);
    if rows[0].product.id != id {
      assert (rows + [row])[1..] == rows[1..] + [row];
      var j :| 0 <= j < |rows| && rows[j].product.id == id;
      assert rows[1..][j - 1] == rows[j];
      FirstRowForSnoc(rows[1..], row, id);
    }
  }

  lemma FirstRowForLast(rows: seq<JoinRow>, row: JoinRow)
    requires !HasRowFor(rows, row.product.id)
    ensures HasRowFor(rows + [row], row.product.id) && FirstRowFor(rows + [row], row.product.id) == row.product
  {
    var all := rows + [row];
    HasRowForSnoc(rows, row, row.product.id);
    if rows != [] {
      assert all[0] == rows[0];
      assert all[1..] == rows[1..] + [row];
      forall j | 0 <= j < |rows[1..]| ensures rows[1..][j].product.id != row.product.id {
        assert rows[1..][j] == rows[j + 1];
      }
      FirstRowForLast(rows[1..], row);
    }
  }

  lemma {:induction false} VariantsForAbsent(rows: seq<JoinRow>, id: string)
    requires !HasRowFor(rows, id)
    ensures VariantsFor(rows, id) == []
  {
    if rows != [] {
      var init := rows[..|rows| - 1];
      forall j | 0 <= j < |init| ensures init[j].product.id != id {
        assert init[j] == rows[j];
      }
      assert rows[|rows| - 1].product.id != id;
      VariantsForAbsent(init, id);
    }
  }

  /** One step of the grouping changes only the entry of the row's product, or appends it. */
  lemma GroupStepShape(out: seq<Catalog.Product>, row: JoinRow)
    requires DistinctIds(out)
    ensures var next := GroupStep(out, row);
      var id := row.product.id;
      |out| <= |next|
      && (forall j :: 0 <= j < |out| ==>
            next[j].id == out[j].id && next[j].(variants := []) == out[j].(variants := [])
            && next[j].variants == out[j].variants + (if out[j].id == id then Extra(row) else []))
      && (HasProduct(out, id) ==> |next| == |out|)
      && (!HasProduct(out, id) ==> |next| == |out| + 1 && next[|out|] == ProductOf(row.product).(variants := Extra(row)))
  {
    var id := row.product.id;
    match FindIndex(out, ProductHasId(id))
    case Some(k) =>
      assert out[k].id == id;
      forall j | 0 <= j < |out| && j != k ensures out[j].id != id {
        if j < k {
          assert out[j].id != out[k].id;
        } else {
          assert out[k].id != out[j].id;
        }
      }
    case None =>
      forall j | 0 <= j < |out| ensures out[j].id != id {
        assert !ProductHasId(id)(out[j]);
      }
  }

  lemma StepKeepsDistinct(out: seq<Catalog.Product>, row: JoinRow)
    requires DistinctIds(out)
    ensures DistinctIds(GroupStep(out, row))
  {
    GroupStepShape(out, row);
    var next := GroupStep(out, row);
    forall a, b | 0 <= a < b < |next| ensures next[a].id != next[b].id {
      if b < |out| {
        assert next[a].id == out[a].id && next[b].id == out[b].id;
      } else {
        assert next[a].id == out[a].id;
      }
    }
  }

  lemma StepKeepsIds(rows: seq<JoinRow>, row: JoinRow, out: seq<Catalog.Product>)
    requires DistinctIds(out) && SameIds(rows, out)
    ensures SameIds(rows + [row], GroupStep(out, row))
  {
    GroupStepShape(out, row);
    var next := GroupStep(out, row);
    forall x ensures HasRowFor(rows + [row], x) <==> HasProduct(next, x) {
      HasRowForSnoc(rows, row, x);
      if HasProduct(out, x) {
        var k :| 0 <= k < |out| && out[k].id == x;
        assert next[k].id == x;
      }
      if HasProduct(next, x) {
        var k :| 0 <= k < |next| && next[k].id == x;
        if k < |out| {
          assert out[k].id == x;
        }
      }
      if x == row.product.id && !HasProduct(out, x) {
        assert next[|out|].id == x;
      }
    }
  }

  lemma StepKeepsVariants(rows: seq<JoinRow>, row: JoinRow, out: seq<Catalog.Product>)
    requires DistinctIds(out) && SameIds(rows, out) && VariantsMatch(rows, out)
    ensures VariantsMatch(rows + [row], GroupStep(out, row))
  {
    GroupStepShape(out, row);
    var next := GroupStep(out, row);
    forall k | 0 <= k < |next| ensures next[k].variants == VariantsFor(rows + [row], next[k].id) {
      VariantsForSnoc(rows, row, next[k].id);
      if k == |out| {
        VariantsForAbsent(rows, row.product.id);
      }
    }
  }

  lemma StepKeepsFields(rows: seq<JoinRow>, row: JoinRow, out: seq<Catalog.Product>)
    requires DistinctIds(out) && SameIds(rows, out) && FieldsMatch(rows, out)
    ensures FieldsMatch(rows + [row], GroupStep(out, row))
  {
    GroupStepShape(out, row);
    var next := GroupStep(out, row);
    forall k | 0 <= k < |next|
      ensures HasRowFor(rows + [row], next[k].id) && next[k].(variants := []) == ProductOf(FirstRowFor(rows + [row], next[k].id))
    {
      if k < |out| {
        FirstRowForSnoc(rows, row, out[k].id);
      } else {
        FirstRowForLast(rows, row);
      }
    }
  }

  /** `allProducts` yields exactly one product per product id in the rows, carrying that product's variants in row order and the fields of its first row. */
  lemma {:induction false} GroupedSpec(rows: seq<JoinRow>)
    ensures GroupedInvariant(rows, Grouped(rows))
  {
    if rows != [] {
      var init := rows[..|rows| - 1];
      var row := rows[|rows| - 1];
      assert rows == init + [row];
      GroupedSpec(init);
      var out := Grouped(init);
      StepKeepsDistinct(out, row);
      StepKeepsIds(init, row, out);
      StepKeepsVariants(init, row, out);
      StepKeepsFields(init, row, out);
    }
  }

  /** `singleProduct`: 404 without rows; otherwise the product of the first row with the variants of every row that has one. */
  function SingleProduct(rows: seq<JoinRow>): (r: Reply<Catalog.Product>)
    ensures r.Failure? <==> rows == []
  {
    if rows == [] then Failure(404, "Product not found")
    else Success(200, ProductOf(rows[0].product).(variants := VariantsOfRows(rows)))
  }

  /** The variants of every row that has one, in row order. */
  function VariantsOfRows(rows: seq<JoinRow>): seq<Catalog.Variant> {
    if rows == [] then []
    else
      var last := rows[|rows| - 1];
      VariantsOfRows(rows[..|rows| - 1]) + Extra(last)
  }

  lemma {:induction false} VariantsOfOneProduct(rows: seq<JoinRow>, id: string)
    requires forall j :: 0 <= j < |rows| ==> rows[j].product.id == id
    ensures VariantsOfRows(rows) == VariantsFor(rows, id)
  {
    if rows != [] {
      VariantsOfOneProduct(rows[..|rows| - 1], id);
    }
  }

  lemma DistinctFirstTwo(out: seq<Catalog.Product>)
    requires DistinctIds(out)
    ensures |out| >= 2 ==> out[0].id != out[1].id
  {
  }

  /** On the rows of one product, `singleProduct` and `allProducts` build the same product. */
  lemma SingleAgreesWithAll(rows: seq<JoinRow>)
    requires rows != []
    requires forall j :: 0 <= j < |rows| ==> rows[j].product == rows[0].product
    ensures |Grouped(rows)| == 1
    ensures SingleProduct(rows) == Success(200, Grouped(rows)[0])
  {
    var id := rows[0].product.id;
    GroupedSpec(rows);
    var out := Grouped(rows);
    assert HasRowFor(rows, id);
    assert HasProduct(out, id);
    forall k | 0 <= k < |out| ensures out[k].id == id {
      assert HasRowFor(rows, out[k].id);
    }
    DistinctFirstTwo(out);
    assert |out| == 1;
    VariantsOfOneProduct(rows, id);
    assert FirstRowFor(rows, id) == rows[0].product;
    assert out[0] == out[0].(variants := []).(variants := out[0].variants);
  }

  // ---------------------------------------------------------------- the tables

  function OtherProduct(id: string): VariantRow -> bool {
    (v: VariantRow) => v.productId != id
  }

  function OfProduct(id: string): VariantRow -> bool {
    (v: VariantRow) => v.productId == id
  }

  datatype ProductTotals = ProductTotals(totalProducts: nat, totalFeatured: nat, totalVariants: nat)

  class ProductStore {
    var products: map<string, ProductRow>
    var variants: seq<VariantRow>

    constructor ()
      ensures products == map[] && variants == []
    {
      products := map[];
      variants := [];
    }

    method CreateProduct(req: CreateRequest, productId: string, variantIds: seq<string>, imageUrl: Option<string>, now: int)
      returns (reply: Reply<CreatedProduct>)
      requires productId !in products
      requires |variantIds| == |ParsedVariants(req.variants).GetOr([])|
      modifies this
      ensures var plan := PlanCreate(req, productId, variantIds, imageUrl, now);
        reply == plan.reply
        && products == (if plan.row.Some? then old(products)[productId := plan.row.value] else old(products))
        && variants == old(variants) + plan.variantRows
    {
      if !Catalog.TruthyText(req.name) || !Catalog.TruthyText(req.categoryId) {
        return Failure(400, NameAndCategoryRequired);
      }
      var parsed := ParsedVariants(req.variants);
      if parsed.None? {
        return Failure(400, InvalidVariantsJson);
      }
      var vs := parsed.value;
      var row := NewProductRow(req, productId, vs, imageUrl, now);
      products := products[productId := row];
      if |vs| > 0 {
        var mode := ModeOf(req.variantMode);
        if mode.None? {
          return Failure(400, BadVariantMode);
        }
        var i := 0;
        while i < |vs|
          invariant 0 <= i <= |vs|
          invariant forall j :: 0 <= j < i ==> VariantPrice(vs[j]).Some?
          invariant variants == old(variants) + StoredVariants(variantIds[..i], productId, mode.value, vs[..i])
          invariant products == old(products)[productId := row]
        {
          if VariantPrice(vs[i]).None? {
            StoredVariantsSplit(variantIds, productId, mode.value, vs, i);
            assert !AllPricesNumeric(vs);
            return Failure(400, VariantPriceNotNumber);
          }
          StoredVariantsSnoc(variantIds, productId, mode.value, vs, i);
          variants := variants + [VariantRowFor(variantIds[i], productId, mode.value, vs[i])];
          i := i + 1;
        }
        assert variantIds[..i] == variantIds && vs[..i] == vs;
      }
      reply := Success(201, CreatedBody(req, row, vs));
    }

    /**
      `updateProduct`: bad variants JSON is a 400 and an unknown id a 404,
      both with nothing written; otherwise the row is merged, every variant
      of the product is deleted, and one row per sent variant is inserted.
     */
    method UpdateProduct(id: string, req: UpdateRequest, variantIds: seq<string>, newImage: Option<string>)
      returns (reply: Reply<UpdatedProduct>)
      requires |variantIds| == |ParsedVariants(req.variants).GetOr([])|
      modifies this
      ensures UpdateRejection(req, id in old(products)).Some? ==>
        reply == UpdateRejection(req, id in old(products)).value
        && products == old(products) && variants == old(variants)
      ensures UpdateRejection(req, id in old(products)).None? ==>
        var sent := ReplacementRows(variantIds, id, ParsedVariants(req.variants).value);
        var row := MergedRow(old(products)[id], req, newImage);
        products == old(products)[id := row]
        && variants == Filter(old(variants), OtherProduct(id)) + sent
        && reply == Success(200, UpdatedProduct(row, sent))
    {
      var rejection := UpdateRejection(req, id in products);
      if rejection.Some? {
        return rejection.value;
      }
      var vs := ParsedVariants(req.variants).value;
      var row := MergedRow(products[id], req, newImage);
      products := products[id := row];
      variants := Filter(variants, OtherProduct(id));
      ghost var kept := variants;
      var i := 0;
      while i < |vs|
        invariant 0 <= i <= |vs|
        invariant |variants| == |kept| + i
        invariant variants[..|kept|] == kept
        invariant products == old(products)[id := row]
        invariant forall k :: 0 <= k < i ==> variants[|kept| + k] == ReplacementRow(variantIds[k], id, vs[k])
      {
        variants := variants + [ReplacementRow(variantIds[i], id, vs[i])];
        i := i + 1;
      }
      var sent := ReplacementRows(variantIds, id, vs);
      assert variants == kept + sent;
      reply := Success(200, UpdatedProduct(row, sent));
    }

    /** `deleteProduct`: 404 for an unknown id; otherwise the product and all its variants go. */
    method DeleteProduct(id: string) returns (reply: Reply<()>)
      modifies this
      ensures id !in old(products) ==>
        reply == Failure(404, "Product not found") && products == old(products) && variants == old(variants)
      ensures id in old(products) ==>
        reply == Success(200, ()) && products == old(products) - {id}
        && variants == Filter(old(variants), OtherProduct(id))
    {
      if id !in products {
        return Failure(404, "Product not found");
      }
      variants := Filter(variants, OtherProduct(id));
      products := products - {id};
      reply := Success(200, ());
    }

    /** `getTotalProducts` */
    function Totals(): (r: ProductTotals)
      reads this
      ensures r.totalFeatured <= r.totalProducts
      ensures r.totalFeatured == |set id | id in products && products[id].isFeatured == 1|
      ensures r.totalProducts == |products|
      ensures r.totalVariants == |variants|
    {
      var featured := set id | id in products && products[id].isFeatured == 1;
      assert featured <= products.Keys;
      SubsetCardinality(featured, products.Keys);
      ProductTotals(|products|, |featured|, |variants|)
    }
  }

  lemma SubsetCardinality<K>(a: set<K>, b: set<K>)
    requires a <= b
    ensures |a| <= |b|
  {
    if a != {} {
      var x :| x in a;
      SubsetCardinality(a - {x}, b - {x});
    }
  }

  /** After the delete-and-reinsert, the product's variants are exactly the rows just sent, in order. */
  lemma ReplacedVariantsOfProduct(kept: seq<VariantRow>, added: seq<VariantRow>, id: string)
    requires forall k :: 0 <= k < |kept| ==> kept[k].productId != id
    requires forall k :: 0 <= k < |added| ==> added[k].productId == id
    ensures Filter(kept + added, OfProduct(id)) == added
  {
    FilterConcat(kept, added, OfProduct(id));
    FilterAll(added, OfProduct(id));
    FilterNone(kept, OfProduct(id));
  }

  /** `updateProduct` leaves the product with exactly the sent variants (none when none are sent), each price defaulting to 0. */
  lemma UpdateReplacesVariants(old_: seq<VariantRow>, ids: seq<string>, id: string, vs: seq<UpdateVariantInput>)
    requires |ids| == |vs|
    ensures var after := Filter(old_, OtherProduct(id)) + ReplacementRows(ids, id, vs);
      Filter(after, OfProduct(id)) == ReplacementRows(ids, id, vs)
      && (vs == [] ==> Filter(after, OfProduct(id)) == [])
      && (forall k :: 0 <= k < |vs| && vs[k].price.None? ==> Filter(after, OfProduct(id))[k].price == 0)
  {
    var kept := Filter(old_, OtherProduct(id));
    forall k | 0 <= k < |kept| ensures kept[k].productId != id {
      assert OtherProduct(id)(kept[k]);
    }
    ReplacedVariantsOfProduct(kept, ReplacementRows(ids, id, vs), id);
  }

  /** Deleting a product leaves no variant of it and keeps every other variant row, in order. */
  lemma DeleteRemovesVariants(vs: seq<VariantRow>, id: string)
    ensures forall k :: 0 <= k < |Filter(vs, OtherProduct(id))| ==> Filter(vs, OtherProduct(id))[k].productId != id
    ensures IsSubsequence(Filter(vs, OtherProduct(id)), vs)
    ensures forall k :: 0 <= k < |vs| && vs[k].productId != id ==> vs[k] in Filter(vs, OtherProduct(id))
  {
    FilterIsSubsequence(vs, OtherProduct(id));
    var r := Filter(vs, OtherProduct(id));
    forall k | 0 <= k < |r| ensures r[k].productId != id {
      assert OtherProduct(id)(r[k]);
    }
  }
}
