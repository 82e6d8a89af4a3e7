/** The create/edit form: its fields, the validation of its three inputs,
    the prefill from the product being edited, and the submission that sends
    a POST (create) or a PUT (edit) and returns to the list on success. */
module CreatePage {
  import opened JsValues
  import opened Text
  import opened Catalog

  /** The form's inputs, all held as text. */
  datatype FormData = FormData(name: string, price: string, image: string)

  const EmptyForm := FormData("", "", "")

  /** One optional message per field; a cleared message is the empty string. */
  datatype FormErrors = FormErrors(name: Option<string>, price: Option<string>, image: Option<string>)

  const NoErrors := FormErrors(None, None, None)

  datatype Field = NameField | PriceField | ImageField

  /** The view the parent page shows. */
  datatype View = HomeView | CreateView

  datatype HttpMethod = Post | Put

  /** The request a submission sends: method, URL and JSON payload. */
  datatype SaveRequest = SaveRequest(verb: HttpMethod, url: string, payload: NewProduct)

  const NameRequired := "Product name is required"
  const PriceRequired := "Price is required"
  const PriceNotPositive := "Price must be a positive number"
  const ImageRequired := "Image URL is required"
  const SaveFailed := "Failed to save product"
  const AlertPrefix := "Error saving product: "
  const ProductsUrl := "/api/products"

  /** `Number(price)` is a number greater than zero. */
  predicate PricePositive(price: string)
  {
    var n := ParseNumber(price);
    n.Finite? && n.value > 0.0
  }

  /** The errors `validate` records. The name and image are missing when they
      are all whitespace; the price is missing when it is empty and otherwise
      wrong unless it reads as a positive number, so any price that reads as
      positive (which the empty string does not) draws no message. */
  function ErrorsFor(f: FormData): (e: FormErrors)
    ensures e.name.Some? <==> Blank(f.name)
    ensures e.image.Some? <==> Blank(f.image)
    ensures e.name.Some? ==> e.name.value == NameRequired
    ensures e.image.Some? ==> e.image.value == ImageRequired
    ensures e.price == Some(PriceRequired) <==> f.price == ""
    ensures e.price == Some(PriceNotPositive) <==> f.price != "" && !PricePositive(f.price)
    ensures e.price.None? <==> PricePositive(f.price)
  {
    TrimEmptyIffBlank(f.name);
    TrimEmptyIffBlank(f.image);
    var n := ParseNumber(f.price);
    FormErrors(
      if Trim(f.name) == "" then Some(NameRequired) else None,
      if !Truthy(Str(f.price)) then Some(PriceRequired)
      else if n.NaN? || n.value <= 0.0 then Some(PriceNotPositive)
      else None,
      if Trim(f.image) == "" then Some(ImageRequired) else None)
  }

  /** `validate()`'s result, `Object.keys(newErrors).length === 0`: true
      exactly when the name and the image hold a non-whitespace character and
      the price reads as a positive number. */
  predicate IsValid(f: FormData): (ok: bool)
    ensures ok <==> !Blank(f.name) && !Blank(f.image) && PricePositive(f.price)
  {
    ErrorsFor(f) == NoErrors
  }

  /** The request `handleSubmit` sends: a PUT to the product's own URL when a
      product is being edited, a POST to the collection otherwise; the payload
      carries the name and image as typed and `Number(price)`. */
  function SaveRequestFor(f: FormData, editing: Option<Product>): (r: SaveRequest)
    ensures r.verb == Put <==> editing.Some?
    ensures editing.None? ==> r.url == ProductsUrl
    ensures editing.Some? ==>
              |r.url| > |ProductsUrl| && r.url[..|ProductsUrl|] == ProductsUrl &&
              r.url[|ProductsUrl|] == '/' && r.url[|ProductsUrl| + 1..] == editing.value.id
    ensures r.payload == NewProduct(f.name, ToNumber(Str(f.price)), f.image)
  {
    var url := if editing.Some? then ProductsUrl + "/" + editing.value.id else ProductsUrl;
    SaveRequest(if editing.Some? then Put else Post, url, NewProduct(f.name, ToNumber(Str(f.price)), f.image))
  }

  /** The form the edit effect fills in from a product: `name || ''`,
      `String(price) || ''` and `image || ''`. */
  function PrefillForm(p: Product): (f: FormData)
    ensures f.name == p.name
    ensures f.image == if p.image.Some? then p.image.value else ""
    ensures f.price == ToText(p.price)
  {
    var price := ToText(p.price);
    FormData(if p.name != "" then p.name else "",
             if price != "" then price else "",
             if p.image.Some? && p.image.value != "" then p.image.value else "")
  }

  /** Editing a product whose price is a whole number and saving it without
      touching the price sends that same price back, and a positive one
      passes validation. */
  lemma PrefillKeepsWholePrice(p: Product, n: int)
    requires p.price == Num(Finite(n as real))
    ensures SaveRequestFor(PrefillForm(p), Some(p)).payload.price == Finite(n as real)
    ensures n > 0 ==> ErrorsFor(PrefillForm(p)).price.None?
    ensures n <= 0 ==> ErrorsFor(PrefillForm(p)).price == Some(PriceNotPositive)
  {
    var f := PrefillForm(p);
    assert f.price == NumberToString(Finite(n as real));
    WholeNumberRoundTrip(n);
    PriceErrorsOfNumber(f, n as real);
  }

  /** A non-empty price text that reads as the number `x` draws no price
      message when `x` is positive and 'Price must be a positive number'
      otherwise. */
  lemma PriceErrorsOfNumber(f: FormData, x: real)
    requires f.price != "" && ParseNumber(f.price) == Finite(x)
    ensures x > 0.0 ==> ErrorsFor(f).price.None?
    ensures x <= 0.0 ==> ErrorsFor(f).price == Some(PriceNotPositive)
  {
  }

  /** A product without a price is prefilled with the text `undefined`,
      which the form rejects as not a positive number. */
  lemma PrefillMissingPrice(p: Product)
    requires p.price == Undefined
    ensures PrefillForm(p).price == "undefined"
    ensures ErrorsFor(PrefillForm(p)).price == Some(PriceNotPositive)
  {
    var t := "undefined";
    assert !IsSpace(t[0]) && !IsSpace(t[|t| - 1]);
    TrimUnpadded(t);
    assert LeadingDigits(t) == 0;
  }

  function FieldOf(f: FormData, k: Field): string
  {
    match k
    case NameField => f.name
    case PriceField => f.price
    case ImageField => f.image
  }

  /** The form with one field set to a new value. */
  function WithField(f: FormData, k: Field, v: string): (g: FormData)
    ensures FieldOf(g, k) == v
    ensures forall j :: j != k ==> FieldOf(g, j) == FieldOf(f, j)
  {
    match k
    case NameField => f.(name := v)
    case PriceField => f.(price := v)
    case ImageField => f.(image := v)
  }

  function ErrorOf(e: FormErrors, k: Field): Option<string>
  {
    match k
    case NameField => e.name
    case PriceField => e.price
    case ImageField => e.image
  }

  /** `errors[name]` is truthy: a message is shown for the field. */
  predicate Shown(e: FormErrors, k: Field)
  {
    ErrorOf(e, k).Some? && Truthy(Str(ErrorOf(e, k).value))
  }

  /** The errors after typing into field `k`: a shown message for `k` is
      cleared to `''`; every other field keeps its message. */
  function ErrorsAfterChange(e: FormErrors, k: Field): (r: FormErrors)
    ensures !Shown(r, k)
    ensures Shown(e, k) ==> ErrorOf(r, k) == Some("")
    ensures !Shown(e, k) ==> ErrorOf(r, k) == ErrorOf(e, k)
    ensures forall j :: j != k ==> ErrorOf(r, j) == ErrorOf(e, j)
    ensures forall j :: Shown(r, j) ==> j != k && Shown(e, j)
  {
    if !Shown(e, k) then e
    else match k
      case NameField => e.(name := Some(""))
      case PriceField => e.(price := Some(""))
      case ImageField => e.(image := Some(""))
  }

  /** The save request settled with `response.ok`. */
  predicate Saved(outcome: Call<bool>)
  {
    outcome.Returned? && outcome.value
  }

  /** The form component's state, with the two pieces it shares with its
      parent: the product being edited and the current view. */
  class Form {
    var formData: FormData
    var errors: FormErrors
    var submitting: bool
    var editingProduct: Option<Product>
    var view: View

    /** Mounting the form, including the first run of the edit effect. */
    constructor(editing: Option<Product>)
      ensures formData == if editing.Some? then PrefillForm(editing.value) else EmptyForm
      ensures errors == NoErrors && !submitting && editingProduct == editing && view == CreateView
    {
      formData := if editing.Some? then PrefillForm(editing.value) else EmptyForm;
      errors, submitting, editingProduct, view := NoErrors, false, editing, CreateView;
    }

    /** The edit effect when the parent passes a different product: a product
        refills the form; `null` leaves the typed values alone. */
    method EditingChanged(editing: Option<Product>)
      modifies this`editingProduct, this`formData
      ensures editingProduct == editing
      ensures formData == if editing.Some? then PrefillForm(editing.value) else old(formData)
    {
      editingProduct := editing;
      if editing.Some? {
        formData := PrefillForm(editing.value);
      }
    }

    /** `handleChange` for the input named by `k`. */
    method HandleChange(k: Field, v: string)
      modifies this`formData, this`errors
      ensures formData == WithField(old(formData), k, v)
      ensures errors == ErrorsAfterChange(old(errors), k)
    {
      formData := WithField(formData, k, v);
      if Shown(errors, k) {
        errors := ErrorsAfterChange(errors, k);
      }
    }

    /** `validate()`: records the errors of the current form and reports
        whether there are none. */
    method Validate() returns (ok: bool)
      modifies this`errors
      ensures errors == ErrorsFor(formData)
      ensures ok == IsValid(formData)
    {
      errors := ErrorsFor(formData);
      ok := errors == NoErrors;
    }

    /** The part of `handleSubmit` before the request is awaited: an invalid
        form sends nothing; a valid one marks the form as submitting and
        yields the request. */
    method BeginSubmit() returns (request: Option<SaveRequest>)
      modifies this`errors, this`submitting
      ensures errors == ErrorsFor(formData)
      ensures request.Some? <==> IsValid(formData)
      ensures request.Some? ==> request.value == SaveRequestFor(formData, editingProduct) && submitting
      ensures request.None? ==> submitting == old(submitting)
    {
      var ok := Validate();
      if !ok {
        return None;
      }
      submitting := true;
      request := Some(SaveRequestFor(formData, editingProduct));
    }

    /** The part of `handleSubmit` after the request settles. `outcome` is
        `response.ok`, or the message of what the request threw; a failure
        yields the alert text and leaves the form as it was. */
    method FinishSubmit(outcome: Call<bool>) returns (alert: Option<string>)
      modifies this`formData, this`submitting, this`editingProduct, this`view
      ensures !submitting
      ensures Saved(outcome) ==>
                alert.None? && formData == EmptyForm && editingProduct.None? && view == HomeView
      ensures !Saved(outcome) ==>
                formData == old(formData) && editingProduct == old(editingProduct) && view == old(view)
      ensures outcome.Returned? && !outcome.value ==> alert == Some(AlertPrefix + SaveFailed)
      ensures outcome.Threw? ==> alert == Some(AlertPrefix + outcome.message)
    {
      match outcome {
        case Threw(message) =>
          alert := Some(AlertPrefix + message);
        case Returned(ok) =>
          if !ok {
            alert := Some(AlertPrefix + SaveFailed);
          } else {
            formData := EmptyForm;
            editingProduct := None;
            view := HomeView;
            alert := None;
          }
      }
      submitting := false;
    }

    /** `handleSubmit()`: validation, then the request and its outcome. */
    method HandleSubmit(outcome: Call<bool>) returns (request: Option<SaveRequest>, alert: Option<string>)
      modifies this`formData, this`errors, this`submitting, this`editingProduct, this`view
      ensures errors == ErrorsFor(old(formData))
      ensures request.Some? <==> IsValid(old(formData))
      ensures request.None? ==>
                alert.None? && formData == old(formData) && submitting == old(submitting) &&
                editingProduct == old(editingProduct) && view == old(view)
      ensures request.Some? ==> request.value == SaveRequestFor(old(formData), old(editingProduct)) && !submitting
      ensures request.Some? && Saved(outcome) ==>
                alert.None? && formData == EmptyForm && editingProduct.None? && view == HomeView
      ensures request.Some? && !Saved(outcome) ==>
                alert.Some? && formData == old(formData) && editingProduct == old(editingProduct) && view == old(view)
    {
      ghost var form := formData;
      request := BeginSubmit();
      assert errors == ErrorsFor(form);
      if request.None? {
        return request, None;
      }
      alert := FinishSubmit(outcome);
    }

    /** `handleCancel()`: clears the form, stops editing and returns to the list. */
    method HandleCancel()
      modifies this`formData, this`editingProduct, this`view
      ensures formData == EmptyForm && editingProduct.None? && view == HomeView
    {
      formData := EmptyForm;
      editingProduct := None;
      view := HomeView;
    }
  }
}
