/**
  The admin form that creates a product (`AddProductPage`): the fields as
  typed, an optional variant mode with its variant rows, and the image. The
  browser blocks the submit while the name, the description or, without a
  mode, the price is empty; `handleSubmit` then checks, in order, name and
  category, a price or a mode, at least one variant when a mode is chosen,
  and an image; a form that passes is sent to `createProduct` as multipart
  fields, all of them text.
 */
module AddProductPage {
  import opened Common
  import opened Text
  import Catalog
  import opened VariantDrafts
  import PC = ProductController

  datatype AddForm = AddForm(
    name: string,
    description: string,
    categoryId: string,
    price: string,
    featured: bool,
    mode: Option<PC.VariantMode>,
    variants: seq<Draft>,
    hasImage: bool)

  /** The form as it first renders: every text empty, not featured, no mode, no rows, no image. */
  const EmptyForm := AddForm("", "", "", "", false, None, [], false)

  const NameAndCategoryRequired := "Name and category are required"
  const PriceOrVariantRequired := "Either base price or at least one variant is required"
  const VariantRequired := "At least one variant is required when variant mode is selected"
  const ImageRequired := "Product image is required"

  datatype AddOutcome = Refused(message: string) | Submitted(request: PC.CreateRequest)

  /** `variantMode || ''` */
  function ModeText(m: Option<PC.VariantMode>): (r: string)
    ensures PC.ModeOf(Some(r)) == m
  {
    match m
    case None => assert |"size"| != 0 && |"pieces"| != 0; ""
    case Some(mode) => if mode.SizeMode? then "size" else "pieces"
  }

  /** One row of `JSON.stringify(variants)`: `{value, price}`, both text. */
  function DraftInput(d: Draft): PC.VariantInput {
    PC.VariantInput(d.value, Some(d.price))
  }

  /** The fields `handleSubmit` appends, each as text; the variants always go, as JSON. */
  function RequestOf(f: AddForm): (r: PC.CreateRequest)
    ensures r.name == Some(f.name) && r.categoryId == Some(f.categoryId) && r.price == Some(f.price)
    ensures r.description == Some(f.description)
    ensures r.isFeatured == Some(if f.featured then "true" else "false")
    ensures PC.ModeOf(r.variantMode) == f.mode
    ensures PC.ParsedVariants(r.variants) == Some(Map(f.variants, DraftInput))
  {
    PC.CreateRequest(
      Some(f.name), Some(f.description), Some(f.categoryId), Some(f.price),
      Some(if f.featured then "true" else "false"),
      PC.Sent(Some(Map(f.variants, DraftInput))),
      Some(ModeText(f.mode)))
  }

  /**
    `handleSubmit`: the first failed check is the message shown and nothing
    is sent; a form that passes all four is sent as `RequestOf`.
   */
  function AddSubmit(f: AddForm): (r: AddOutcome)
    ensures r.Submitted? <==>
      f.name != "" && f.categoryId != "" && (f.mode.Some? || f.price != "")
      && (f.mode.None? || f.variants != []) && f.hasImage
    ensures (f.name == "" || f.categoryId == "") ==> r == Refused(NameAndCategoryRequired)
    ensures f.name != "" && f.categoryId != "" && f.mode.None? && f.price == "" ==> r == Refused(PriceOrVariantRequired)
    ensures f.name != "" && f.categoryId != "" && f.mode.Some? && f.variants == [] ==> r == Refused(VariantRequired)
    ensures r.Submitted? ==> r.request == RequestOf(f)
    ensures (r.Refused? && !f.hasImage && f.name != "" && f.categoryId != ""
      && (f.mode.Some? || f.price != "") && (f.mode.None? || f.variants != [])) ==> r.message == ImageRequired
  {
    if f.name == "" || f.categoryId == "" then Refused(NameAndCategoryRequired)
    else if f.mode.None? && f.price == "" then Refused(PriceOrVariantRequired)
    else if f.mode.Some? && f.variants == [] then Refused(VariantRequired)
    else if !f.hasImage then Refused(ImageRequired)
    else Submitted(RequestOf(f))
  }

  /**
    The browser's own check before it fires `submit`: the name and the
    description are `required`, and so is the base price while no mode is
    chosen (`required={!variantMode}`).
   */
  predicate BrowserAccepts(f: AddForm) {
    f.name != "" && f.description != "" && (f.mode.Some? || f.price != "")
  }

  /**
    Pressing "Add Product": blocked by the browser while a required field is
    empty, and otherwise `handleSubmit`. Behind the browser's check the
    price message can no longer be shown, and the name-and-category message
    means the category is missing.
   */
  function SubmitForm(f: AddForm): (r: Submission<AddOutcome>)
    ensures r.Blocked? <==> !BrowserAccepts(f)
    ensures r.Handled? ==> r.outcome == AddSubmit(f)
    ensures r.Handled? ==> r.outcome != Refused(PriceOrVariantRequired)
    ensures r.Handled? && r.outcome == Refused(NameAndCategoryRequired) ==> f.categoryId == ""
    ensures r == Handled(Submitted(RequestOf(f))) <==>
      BrowserAccepts(f) && f.categoryId != "" && (f.mode.None? || f.variants != []) && f.hasImage
    ensures r.Handled? && r.outcome.Submitted? ==> r.outcome.request.description == Some(f.description) && f.description != ""
  {
    if BrowserAccepts(f) then Handled(AddSubmit(f)) else Blocked
  }

  /** The form's state and the three handlers on its variant rows. */
  class AddProductForm {
    var form: AddForm

    constructor ()
      ensures form == EmptyForm && Valid()
    {
      form := EmptyForm;
    }

    /**
      The rows and their buttons render only once a mode is chosen, and the
      selector offers no way back to none: without a mode there are no rows.
     */
    ghost predicate Valid()
      reads this
    {
      form.mode.None? ==> form.variants == []
    }

    /** The mode selector: size or pieces; the rows stay as they are. */
    method SetMode(m: PC.VariantMode)
      modifies this
      ensures form == old(form).(mode := Some(m))
      ensures Valid()
    {
      form := form.(mode := Some(m));
    }

    /** `addVariant` */
    method AddVariant()
      requires form.mode.Some?
      modifies this
      ensures form == old(form).(variants := Appended(old(form).variants))
      ensures Valid()
    {
      form := form.(variants := Appended(form.variants));
    }

    /** `updateVariant` */
    method UpdateVariant(index: int, field: Field, text: string)
      requires form.mode.Some? && 0 <= index < |form.variants|
      modifies this
      ensures form == old(form).(variants := UpdatedAt(old(form).variants, index, field, text))
      ensures Valid()
    {
      form := form.(variants := UpdatedAt(form.variants, index, field, text));
    }

    /** `removeVariant` */
    method RemoveVariant(index: int)
      requires form.mode.Some?
      modifies this
      ensures form == old(form).(variants := RemovedAt(old(form).variants, index))
      ensures Valid()
    {
      form := form.(variants := RemovedAt(form.variants, index));
    }
  }

  /**
    A form that passes, with a mode and a number typed in every price, is
    created: the product row holds the name, the category and the switch's
    setting, and there is one variant row per form row at its typed price.
   */
  lemma SubmittedFormIsCreated(f: AddForm, productId: string, ids: seq<string>, imageUrl: Option<string>, now: int)
    requires AddSubmit(f).Submitted? && f.mode.Some?
    requires forall j :: 0 <= j < |f.variants| ==> NumberOf(f.variants[j].price).Some?
    requires |ids| == |f.variants|
    ensures var plan := PC.PlanCreate(RequestOf(f), productId, ids, imageUrl, now);
      plan.reply.Success? && plan.reply.code == 201 && plan.row.Some?
      && plan.row.value.name == f.name && plan.row.value.categoryId == f.categoryId
      && plan.row.value.isFeatured == (if f.featured then 1 else 0)
      && |plan.variantRows| == |f.variants|
      && (forall k :: 0 <= k < |f.variants| ==> Some(plan.variantRows[k].price) == NumberOf(f.variants[k].price))
  {
    var req := RequestOf(f);
    var vs := Map(f.variants, DraftInput);
    assert PC.AllPricesNumeric(vs) by {
      forall j | 0 <= j < |vs| ensures PC.VariantPrice(vs[j]).Some? {
        assert vs[j] == DraftInput(f.variants[j]);
      }
    }
    PC.FeaturedOnCreateAnyCase();
    PC.CreateStoresEveryVariant(req, productId, ids, imageUrl, now);
  }

  /**
    A form sent without a mode has no rows (the form's `Valid`): the product
    is created with no variant rows, at the price typed, or at 0 when that
    text is not a number.
   */
  lemma NoModeCreatesPlainProduct(f: AddForm, productId: string, imageUrl: Option<string>, now: int)
    requires AddSubmit(f).Submitted? && f.mode.None? && f.variants == []
    ensures var plan := PC.PlanCreate(RequestOf(f), productId, [], imageUrl, now);
      plan.reply.Success? && plan.reply.code == 201 && plan.row.Some? && plan.variantRows == []
      && plan.row.value.price == NumberOf(f.price).GetOr(0)
  {
  }

  /**
    A form sent with an empty price has a mode and variant rows, and the
    product is stored at the cheapest price typed as a number in a row, or
    at 0 when no row has one.
   */
  lemma EmptyPriceTakesCheapestVariant(f: AddForm, productId: string, ids: seq<string>, imageUrl: Option<string>, now: int)
    requires AddSubmit(f).Submitted? && f.price == ""
    requires |ids| == |f.variants|
    ensures f.mode.Some? && f.variants != []
    ensures var plan := PC.PlanCreate(RequestOf(f), productId, ids, imageUrl, now);
      var ds := f.variants;
      plan.row.Some?
      && ((exists j :: 0 <= j < |ds| && NumberOf(ds[j].price).Some?) ==>
            (exists j :: 0 <= j < |ds| && NumberOf(ds[j].price) == Some(plan.row.value.price))
            && (forall j :: 0 <= j < |ds| && NumberOf(ds[j].price).Some? ==> plan.row.value.price <= NumberOf(ds[j].price).value))
      && ((forall j :: 0 <= j < |ds| ==> NumberOf(ds[j].price).None?) ==> plan.row.value.price == 0)
  {
    var req := RequestOf(f);
    var ds := f.variants;
    var vs := Map(ds, DraftInput);
    assert forall j :: 0 <= j < |ds| ==> PC.VariantPrice(vs[j]) == NumberOf(ds[j].price);
    PC.BasePriceRule(req.price, vs);
    var plan := PC.PlanCreate(req, productId, ids, imageUrl, now);
    assert plan.row.value.price == PC.BasePrice(req.price, vs);
  }
}
