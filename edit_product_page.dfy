/**
  The admin form that edits a product (`EditProductPage`). Opening a product
  fills the form from it: the price as text, the mode taken from the first
  variant (a size label means size mode, otherwise pieces mode), and one row
  per variant, cheapest first. The browser blocks the submit while the
  name, the price or the description is empty; `handleSubmit` then requires
  a category and sends the fields to `updateProduct`. The variants go only
  when there is at least one row and a mode, so a form without rows clears
  the product's variants on the server.
 */
module EditProductPage {
  import opened Common
  import opened Text
  import Sorting
  import Catalog
  import opened VariantDrafts
  import PC = ProductController

  datatype EditForm = EditForm(
    name: string,
    description: Option<string>,
    price: string,
    categoryId: string,
    featured: bool,
    mode: Option<PC.VariantMode>,
    variants: seq<Draft>,
    hasImage: bool)

  const FieldsRequired := "Name, price, and category are required"

  datatype EditOutcome = Refused(message: string) | Submitted(request: PC.UpdateRequest)

  /** `product.variants[0].size ? "size" : "pieces"`, and no mode for a product without variants. */
  function ModeFor(vs: seq<Catalog.Variant>): (r: Option<PC.VariantMode>)
    ensures r.None? <==> vs == []
    ensures r == Some(PC.SizeMode) <==> vs != [] && Catalog.TruthyText(vs[0].size)
  {
    if vs == [] then None
    else if Catalog.TruthyText(vs[0].size) then Some(PC.SizeMode)
    else Some(PC.PiecesMode)
  }

  /** A row loaded in size mode: `{ value: v.size, price: v.price.toString() }`. */
  function SizeDraft(v: Catalog.Variant): Draft {
    Draft(v.size, IntToString(v.price))
  }

  /** A row loaded in pieces mode: `{ value: v.pieces?.toString(), price: v.price.toString() }`. */
  function PiecesDraft(v: Catalog.Variant): Draft {
    Draft(if v.pieces.Some? then Some(IntToString(v.pieces.value)) else None, IntToString(v.price))
  }

  function Loader(mode: PC.VariantMode): Catalog.Variant -> Draft {
    if mode == PC.SizeMode then SizeDraft else PiecesDraft
  }

  /** The sort key of a row, `parseFloat(price)`, for prices that are integers. */
  function DraftKey(d: Draft): int {
    ParseIntOf(d.price).GetOr(0)
  }

  /** The rows the effect loads: every variant in the mode's shape, sorted by price ascending. */
  function LoadedDrafts(vs: seq<Catalog.Variant>): (r: seq<Draft>)
    ensures |r| == |vs|
  {
    match ModeFor(vs)
    case None => []
    case Some(mode) => Sorting.SortBy(Map(vs, Loader(mode)), DraftKey)
  }

  /** The effect on `product`: the form shows the product, its variants as rows, and no new image. */
  function InitForm(p: Catalog.Product): EditForm {
    EditForm(p.name, p.description, IntToString(p.price), p.categoryId, p.isFeatured,
      ModeFor(p.variants), LoadedDrafts(p.variants), false)
  }

  /** One sent variant: `{ size: v.value, price: parseFloat(v.price) }` or `{ pieces: parseInt(v.value, 10), price: … }`. */
  function SendDraft(mode: PC.VariantMode, d: Draft): (r: PC.UpdateVariantInput)
    ensures r.value.None? && r.price == ParseIntOf(d.price)
    ensures mode == PC.SizeMode ==> r.size == d.value && r.pieces.None?
    ensures mode == PC.PiecesMode ==> r.size.None? && r.pieces == (if d.value.Some? then ParseIntOf(d.value.value) else None)
  {
    if mode == PC.SizeMode then PC.UpdateVariantInput(d.value, None, None, ParseIntOf(d.price))
    else PC.UpdateVariantInput(None, None, if d.value.Some? then ParseIntOf(d.value.value) else None, ParseIntOf(d.price))
  }

  function Sender(mode: PC.VariantMode): Draft -> PC.UpdateVariantInput {
    d => SendDraft(mode, d)
  }

  /** The `variants` field: sent only with at least one row and a mode. */
  function VariantsSent(f: EditForm): (r: PC.VariantsField<PC.UpdateVariantInput>)
    ensures r.Omitted? <==> f.variants == [] || f.mode.None?
    ensures r.Sent? ==> r.parsed == Some(Map(f.variants, Sender(f.mode.value)))
  {
    if f.variants != [] && f.mode.Some? then PC.Sent(Some(Map(f.variants, Sender(f.mode.value))))
    else PC.Omitted
  }

  /** `FormData.append('description', null)` sends the text "null". */
  function DescriptionText(d: Option<string>): string {
    d.GetOr("null")
  }

  /**
    `handleSubmit`: the description always goes as text, which would be
    "null" for a form without one. The price text goes to the server as is;
    here it is the number it spells.
   */
  function EditSubmit(f: EditForm): (r: EditOutcome)
    ensures r.Refused? <==> f.name == "" || f.price == "" || f.categoryId == ""
    ensures r.Refused? ==> r.message == FieldsRequired
    ensures r.Submitted? ==>
      r.request.name == Some(f.name) && r.request.description == Some(DescriptionText(f.description))
      && r.request.price == NumberOf(f.price) && r.request.categoryId == Some(f.categoryId)
      && r.request.isFeatured == Some(if f.featured then "1" else "0")
      && r.request.variants == VariantsSent(f)
  {
    if f.name == "" || f.price == "" || f.categoryId == "" then Refused(FieldsRequired)
    else Submitted(PC.UpdateRequest(Some(f.name), Some(DescriptionText(f.description)), NumberOf(f.price),
      Some(f.categoryId), Some(if f.featured then "1" else "0"), VariantsSent(f)))
  }

  /** A description the `required` textarea accepts; one that is `null` shows as an empty box. */
  predicate Filled(d: Option<string>) {
    d.Some? && d.value != ""
  }

  /** The browser's check before it fires `submit`: name, price and description are `required`. */
  predicate BrowserAccepts(f: EditForm) {
    f.name != "" && f.price != "" && Filled(f.description)
  }

  /**
    Pressing "Update Product": blocked by the browser while a required field
    is empty, and otherwise `handleSubmit`. Behind the browser's check only a
    missing category is refused, and the description sent is the one typed,
    never the text "null".
   */
  function SubmitForm(f: EditForm): (r: Submission<EditOutcome>)
    ensures r.Blocked? <==> !BrowserAccepts(f)
    ensures r.Handled? ==> r.outcome == EditSubmit(f)
    ensures r.Handled? ==> (r.outcome.Refused? <==> f.categoryId == "")
    ensures r.Handled? && r.outcome.Submitted? ==> r.outcome.request.description == f.description
  {
    if BrowserAccepts(f) then Handled(EditSubmit(f)) else Blocked
  }

  /** The form's state and its handlers. */
  class EditProductForm {
    var form: EditForm

    constructor (p: Catalog.Product)
      ensures form == InitForm(p) && Valid()
    {
      form := InitForm(p);
    }

    /** The effect that runs whenever the product changes. */
    method OnProductChange(p: Catalog.Product)
      modifies this
      ensures form == InitForm(p) && Valid()
    {
      form := InitForm(p);
    }

    /**
      The rows and their buttons render only once a mode is chosen, and the
      selector offers no way back to none: without a mode there are no rows.
     */
    ghost predicate Valid()
      reads this
    {
      form.mode.None? ==> form.variants == []
    }

    /** The mode selector: size or pieces; the rows stay as they are. */
    method SetMode(m: PC.VariantMode)
      modifies this
      ensures form == old(form).(mode := Some(m))
      ensures Valid()
    {
      form := form.(mode := Some(m));
    }

    /** `addVariant` */
    method AddVariant()
      requires form.mode.Some?
      modifies this
      ensures form == old(form).(variants := Appended(old(form).variants))
      ensures Valid()
    {
      form := form.(variants := Appended(form.variants));
    }

    /** `updateVariant` */
    method UpdateVariant(index: int, field: Field, text: string)
      requires form.mode.Some? && 0 <= index < |form.variants|
      modifies this
      ensures form == old(form).(variants := UpdatedAt(old(form).variants, index, field, text))
      ensures Valid()
    {
      form := form.(variants := UpdatedAt(form.variants, index, field, text));
    }

    /** `removeVariant` */
    method RemoveVariant(index: int)
      requires form.mode.Some?
      modifies this
      ensures form == old(form).(variants := RemovedAt(old(form).variants, index))
      ensures Valid()
    {
      form := form.(variants := RemovedAt(form.variants, index));
    }
  }

  /** A loaded row's sort key is its variant's price. */
  lemma LoaderKeepsPrice(mode: PC.VariantMode)
    ensures forall v :: DraftKey(Loader(mode)(v)) == Catalog.PriceOf(v)
  {
    forall v: Catalog.Variant ensures DraftKey(Loader(mode)(v)) == Catalog.PriceOf(v) {
      ParseIntOfIntToString(v.price);
    }
  }

  /**
    The loaded rows are the product's variants sorted by price, each put in
    the mode's shape; the rows are in ascending price order.
   */
  lemma LoadedDraftsSorted(vs: seq<Catalog.Variant>)
    requires vs != []
    ensures LoadedDrafts(vs) == Map(Sorting.SortBy(vs, Catalog.PriceOf), Loader(ModeFor(vs).value))
    ensures Sorting.SortedBy(LoadedDrafts(vs), DraftKey)
  {
    var mode := ModeFor(vs).value;
    LoaderKeepsPrice(mode);
    Sorting.SortByMap(vs, Catalog.PriceOf, Loader(mode), DraftKey);
    Sorting.SortBySorted(Map(vs, Loader(mode)), DraftKey);
  }

  /** The opened form shows the product: its price reads back, and there is a mode exactly when there are variants. */
  lemma InitFormShowsProduct(p: Catalog.Product)
    ensures var f := InitForm(p);
      f.name == p.name && f.categoryId == p.categoryId && f.description == p.description
      && NumberOf(f.price) == Some(p.price) && f.price != ""
      && f.featured == p.isFeatured && !f.hasImage
      && (f.mode.None? <==> p.variants == []) && |f.variants| == |p.variants|
  {
    NumberOfIntToString(p.price);
  }

  /** How a product row reads on the client, and the row the form was opened from. */
  predicate Shows(p: Catalog.Product, row: PC.ProductRow) {
    p.id == row.id && p.name == row.name && p.description == row.description && p.categoryId == row.categoryId
    && p.price == row.price && p.isFeatured == (row.isFeatured != 0)
  }

  lemma FeaturedText()
    ensures NumberOf("1") == Some(1) && NumberOf("0") == Some(0)
  {
    assert IntToString(1) == "1" && IntToString(0) == "0";
    NumberOfIntToString(1);
    NumberOfIntToString(0);
  }

  /**
    Opening a product and saving without a change: for a product with a
    description the row is written back as it was, except that a non-zero
    featured flag is stored as 1; for one without, the browser blocks the
    save until a description is typed.
   */
  lemma UnchangedEditKeepsProduct(row: PC.ProductRow, p: Catalog.Product)
    requires Shows(p, row) && p.name != "" && p.categoryId != ""
    ensures SubmitForm(InitForm(p)).Blocked? <==> !Filled(p.description)
    ensures Filled(p.description) ==>
      SubmitForm(InitForm(p)).Handled? && SubmitForm(InitForm(p)).outcome.Submitted?
      && PC.MergedRow(row, SubmitForm(InitForm(p)).outcome.request, None)
         == row.(isFeatured := if row.isFeatured != 0 then 1 else 0)
  {
    InitFormShowsProduct(p);
    FeaturedText();
  }

  /**
    Saving a product with variants without a change (possible once it has a
    description) runs `handleSubmit`, which replaces them with the
    same variants sorted by price: in size mode each keeps its size and loses
    its piece count, in pieces mode each keeps its piece count and loses its
    size, and every price is kept.
   */
  lemma UnchangedEditKeepsVariants(p: Catalog.Product, ids: seq<string>)
    requires p.name != "" && p.categoryId != "" && p.variants != []
    requires |ids| == |p.variants|
    ensures SubmitForm(InitForm(p)).Handled? <==> Filled(p.description)
    ensures var out := EditSubmit(InitForm(p));
      out.Submitted? && out.request.variants.Sent? && out.request.variants.parsed.Some?
      && |out.request.variants.parsed.value| == |p.variants|
    ensures var sent := EditSubmit(InitForm(p)).request.variants.parsed.value;
      var sorted := Sorting.SortBy(p.variants, Catalog.PriceOf);
      var rows := PC.ReplacementRows(ids, p.id, sent);
      forall k :: 0 <= k < |rows| ==>
        rows[k].id == ids[k] && rows[k].productId == p.id && rows[k].price == sorted[k].price
        && (Catalog.TruthyText(p.variants[0].size) ==> rows[k].size == sorted[k].size && rows[k].pieces.None?)
        && (!Catalog.TruthyText(p.variants[0].size) ==> rows[k].size.None? && rows[k].pieces == sorted[k].pieces)
  {
    var f := InitForm(p);
    InitFormShowsProduct(p);
    LoadedDraftsSorted(p.variants);
    var mode := ModeFor(p.variants).value;
    var sorted := Sorting.SortBy(p.variants, Catalog.PriceOf);
    var sent := Map(f.variants, Sender(mode));
    var rows := PC.ReplacementRows(ids, p.id, sent);
    forall k | 0 <= k < |rows|
      ensures rows[k].price == sorted[k].price
      ensures mode == PC.SizeMode ==> rows[k].size == sorted[k].size && rows[k].pieces.None?
      ensures mode == PC.PiecesMode ==> rows[k].size.None? && rows[k].pieces == sorted[k].pieces
    {
      var v := sorted[k];
      assert f.variants[k] == Loader(mode)(v);
      ParseIntOfIntToString(v.price);
      if v.pieces.Some? {
        ParseIntOfIntToString(v.pieces.value);
      }
    }
  }
}
