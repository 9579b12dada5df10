/** The admin's add/edit product form (src/pages/admin/ProductForm.tsx):
    filling the form from the product being edited, the admin-only redirect,
    field validation, the add-versus-update dispatch on submit, and the
    clearing of a field's error when it is edited. */
module ProductFormPage {
  import opened Types
  import opened Catalog
  import Routes
  import Persistence

  const ProductsPath := "/admin/products"

  datatype Field = Title | Price | Description | Category | Image | Stock

  /** The form's text inputs, as typed. */
  datatype FormData = FormData(title: string, price: string, description: string, category: string, image: string, stock: string)

  const EmptyForm := FormData("", "", "", "Electronics", "", "")

  /** A value of the error map: the message `validateForm` records for a
      field, or the empty text `handleInputChange` puts in its place. */
  datatype ErrorText = Message(field: Field) | Cleared

  /** The text shown for an entry. */
  function Text(e: ErrorText): string
  {
    match e
    case Cleared => ""
    case Message(f) => MessageText(f)
  }

  function MessageText(f: Field): string
  {
    match f
    case Title => "Title is required"
    case Price => "Price must be a positive number"
    case Description => "Description is required"
    case Category => "Category is required"
    case Image => "Valid image URL is required"
    case Stock => "Stock must be a non-negative number"
  }

  function Get(form: FormData, f: Field): string
  {
    match f
    case Title => form.title
    case Price => form.price
    case Description => form.description
    case Category => form.category
    case Image => form.image
    case Stock => form.stock
  }

  /** `setFormData(prev => ({ ...prev, [name]: value }))` */
  function WithField(form: FormData, f: Field, value: string): (r: FormData)
    ensures Get(r, f) == value
    ensures forall g :: g != f ==> Get(r, g) == Get(form, g)
  {
    match f
    case Title => form.(title := value)
    case Price => form.(price := value)
    case Description => form.(description := value)
    case Category => form.(category := value)
    case Image => form.(image := value)
    case Stock => form.(stock := value)
  }

  /** ECMAScript line terminators. */
  predicate IsLineTerminator(c: char)
  {
    c == '\n' || c == '\r' || c == '\U{2028}' || c == '\U{2029}'
  }

  /** What `String.prototype.trim` removes: ECMAScript white space and line terminators. */
  predicate IsJsSpace(c: char)
  {
    || c == '\t' || c == '\U{000B}' || c == '\U{000C}' || c == ' ' || c == '\U{00A0}'
    || c == '\U{FEFF}' || c == '\U{1680}' || ('\U{2000}' <= c <= '\U{200A}')
    || c == '\U{202F}' || c == '\U{205F}' || c == '\U{3000}'
    || IsLineTerminator(c)
  }

  function TrimStart(s: string): (r: string)
    ensures r != [] ==> !IsJsSpace(r[0])
  {
    if s != [] && IsJsSpace(s[0]) then TrimStart(s[1..]) else s
  }

  function TrimEnd(s: string): (r: string)
    ensures s != [] && !IsJsSpace(s[0]) ==> r != []
  {
    if s != [] && IsJsSpace(s[|s| - 1]) then TrimEnd(s[..|s| - 1]) else s
  }

  /** `s.trim()` */
  function Trim(s: string): string
  {
    TrimEnd(TrimStart(s))
  }

  /** `!s.trim()`: the input is empty once trimmed. */
  predicate Blank(s: string)
  {
    Trim(s) == ""
  }

  /** `/^https?:\/\/.+/`: the scheme, then at least one character that is not a line terminator. */
  predicate IsHttpUrl(s: string)
  {
    SchemeThenChar(s, "http://") || SchemeThenChar(s, "https://")
  }

  predicate SchemeThenChar(s: string, scheme: string)
  {
    |s| > |scheme| && s[..|scheme|] == scheme && !IsLineTerminator(s[|scheme|])
  }

  /** The condition under which `validateForm` records an error for `f`.
      `number` is `Number(...)`, with `None` for `NaN`. */
  predicate Invalid(form: FormData, f: Field, number: string -> Option<real>)
  {
    match f
    case Title => Blank(form.title)
    case Price => Blank(form.price) || number(form.price).None? || number(form.price).value <= 0.0
    case Description => Blank(form.description)
    case Category => form.category == ""
    case Image => Blank(form.image) || !IsHttpUrl(form.image)
    case Stock => Blank(form.stock) || number(form.stock).None? || number(form.stock).value < 0.0
  }

  /** No field is invalid. */
  predicate FormValid(form: FormData, number: string -> Option<real>)
  {
    && !Invalid(form, Title, number) && !Invalid(form, Price, number)
    && !Invalid(form, Description, number) && !Invalid(form, Category, number)
    && !Invalid(form, Image, number) && !Invalid(form, Stock, number)
  }

  /** `createdBy: user?.id || ''` */
  function CreatorId(user: Option<User>): string
  {
    if user.Some? then user.value.id else ""
  }

  /** `productData`: the typed values the form submits; `parseFloat` and
      `parseInt` are the conversions the source applies. */
  function SubmittedDraft(form: FormData, user: Option<User>, parseFloat: string -> real, parseInt: string -> int): Draft
  {
    Draft(form.title, parseFloat(form.price), form.description, form.category, form.image, parseInt(form.stock), CreatorId(user))
  }

  /** The same data passed to `updateProduct`: every draft field, and neither `id` nor `createdAt`. */
  function PatchOf(d: Draft): (f: Patch)
    ensures f.id.None? && f.createdAt.None?
  {
    Patch(None, Some(d.title), Some(d.price), Some(d.description), Some(d.category), Some(d.image), Some(d.stock), Some(d.createdBy), None)
  }

  /** `products.find(p => p.id === id)`, as the index of the first product with the id. */
  function FindProduct(ps: seq<Product>, id: string): (r: Option<nat>)
    ensures r.Some? ==> r.value < |ps| && ps[r.value].id == id
    ensures r.Some? ==> forall j :: 0 <= j < r.value ==> ps[j].id != id
    ensures r.None? ==> !HasId(ps, id)
  {
    if ps == [] then None
    else if ps[0].id == id then Some(0)
    else match FindProduct(ps[1..], id)
      case None => None
      case Some(i) => Some(i + 1)
  }

  /** The form filled from a stored product; `priceText` and `stockText`
      are the `toString` conversions the source applies. */
  function FormOf(p: Product, priceText: real -> string, stockText: int -> string): FormData
  {
    FormData(p.title, priceText(p.price), p.description, p.category, p.image, stockText(p.stock))
  }

  /** The page's role check: where a visitor who is not an admin is sent,
      or `None` when the page stays. */
  function AdminRedirect(user: Option<User>): (r: Option<string>)
    ensures r == None <==> Routes.Guard(user, Some(Admin)) == Routes.Render
    ensures r.Some? ==> r.value == Routes.HomePath
  {
    if user.None? || user.value.role != Admin then Some(Routes.HomePath) else None
  }

  // ---------------------------------------------------------------------
  // Properties of the validators

  lemma {:induction false} TrimStartEmptyIffAllSpace(s: string)
    ensures TrimStart(s) == "" <==> forall i :: 0 <= i < |s| ==> IsJsSpace(s[i])
  {
    if s != [] && IsJsSpace(s[0]) {
      TrimStartEmptyIffAllSpace(s[1..]);
      assert forall i :: 1 <= i < |s| ==> s[i] == s[1..][i - 1];
    }
  }

  /** A text is blank exactly when every character is white space or a line terminator. */
  lemma BlankIffAllSpace(s: string)
    ensures Blank(s) <==> forall i :: 0 <= i < |s| ==> IsJsSpace(s[i])
  {
    TrimStartEmptyIffAllSpace(s);
  }

  /** An image error is recorded exactly when the text is not an http(s) URL:
      such a URL is never blank. */
  lemma ImageErrorIffNotUrl(form: FormData, number: string -> Option<real>)
    ensures Invalid(form, Image, number) <==> !IsHttpUrl(form.image)
  {
    if IsHttpUrl(form.image) {
      assert form.image[0] == 'h';
      BlankIffAllSpace(form.image);
    }
  }

  /** Sample inputs for the URL test. */
  lemma UrlExamples()
    ensures IsHttpUrl("https://example.com/shoe.png") && IsHttpUrl("http://x")
    ensures !IsHttpUrl("http://") && !IsHttpUrl("https://") && !IsHttpUrl("ftp://x")
    ensures !IsHttpUrl("http://\nx") && !IsHttpUrl(" http://x")
  {
    assert "https://"[..7][4] != "http://"[4];
    assert "http://x"[..7] == "http://";
    assert "https://example.com/shoe.png"[..8] == "https://";
  }

  /** Submitting an edit rewrites the draft fields of the matching record
      and keeps its `id` and `createdAt`. */
  lemma EditKeepsIdentity(p: Product, d: Draft)
    ensures Merge(p, PatchOf(d)).id == p.id
    ensures Merge(p, PatchOf(d)).createdAt == p.createdAt
    ensures DraftOf(Merge(p, PatchOf(d))) == d
  {
  }

  /** The body of `validateForm` up to `setErrors`: one error entry for
      each invalid field, added field by field. */
  method CollectErrors(form: FormData, number: string -> Option<real>) returns (newErrors: map<Field, ErrorText>)
    ensures forall f :: f in newErrors <==> Invalid(form, f, number)
    ensures forall f :: f in newErrors ==> newErrors[f] == Message(f)
  {
    newErrors := map[];
    if Invalid(form, Title, number) {
      newErrors := newErrors[Title := Message(Title)];
    }
    if Invalid(form, Price, number) {
      newErrors := newErrors[Price := Message(Price)];
    }
    if Invalid(form, Description, number) {
      newErrors := newErrors[Description := Message(Description)];
    }
    if Invalid(form, Category, number) {
      newErrors := newErrors[Category := Message(Category)];
    }
    if Invalid(form, Image, number) {
      newErrors := newErrors[Image := Message(Image)];
    }
    if Invalid(form, Stock, number) {
      newErrors := newErrors[Stock := Message(Stock)];
    }
    forall g ensures g in newErrors <==> Invalid(form, g, number) {
      match g
      case Title =>
      case Price =>
      case Description =>
      case Category =>
      case Image =>
      case Stock =>
    }
  }

  /** `Object.keys(newErrors).length === 0` exactly when the form is valid. */
  lemma NoErrorsIffValid(errors: map<Field, ErrorText>, form: FormData, number: string -> Option<real>)
    requires forall f :: f in errors <==> Invalid(form, f, number)
    ensures |errors| == 0 <==> FormValid(form, number)
  {
    if |errors| == 0 {
      assert errors.Keys == {};
    }
    if FormValid(form, number) {
      forall f ensures f !in errors {
        match f
        case Title =>
        case Price =>
        case Description =>
        case Category =>
        case Image =>
        case Stock =>
      }
      assert errors.Keys == {};
    }
  }

  /** Opening a product for editing and submitting it unchanged rewrites
      nothing but `createdBy`, which becomes the editor's id, provided the
      number conversions read back the text they wrote. */
  lemma UnchangedEditOnlyRestamps(p: Product, user: Option<User>, priceText: real -> string, stockText: int -> string,
                                  parseFloat: string -> real, parseInt: string -> int)
    requires parseFloat(priceText(p.price)) == p.price && parseInt(stockText(p.stock)) == p.stock
    ensures Merge(p, PatchOf(SubmittedDraft(FormOf(p, priceText, stockText), user, parseFloat, parseInt)))
         == p.(createdBy := CreatorId(user))
  {
  }

  /** The form page's own state. `routeId` is the `:id` route parameter. */
  class ProductForm {
    const routeId: Option<string>
    var form: FormData
    var errors: map<Field, ErrorText>

    constructor (routeId: Option<string>)
      ensures this.routeId == routeId && form == EmptyForm && errors == map[]
    {
      this.routeId := routeId;
      form := EmptyForm;
      errors := map[];
    }

    /** The effect that runs when the route or the catalog changes: on the
        edit route, fill the form from the first product with the routed id,
        or leave for the product list when there is none. */
    method PrefillFromCatalog(products: seq<Product>, priceText: real -> string, stockText: int -> string)
      returns (navigateTo: Option<string>)
      modifies this
      ensures errors == old(errors)
      ensures routeId.None? ==> form == old(form) && navigateTo == None
      ensures routeId.Some? && FindProduct(products, routeId.value).Some? ==>
        && form == FormOf(products[FindProduct(products, routeId.value).value], priceText, stockText)
        && navigateTo == None
      ensures routeId.Some? && FindProduct(products, routeId.value).None? ==>
        form == old(form) && navigateTo == Some(ProductsPath)
    {
      navigateTo := None;
      if routeId.Some? {
        var found := FindProduct(products, routeId.value);
        if found.Some? {
          form := FormOf(products[found.value], priceText, stockText);
        } else {
          navigateTo := Some(ProductsPath);
        }
      }
    }

    /** `validateForm`: collect the errors, replace the error map with
        them, and report whether there were none. */
    method ValidateForm(number: string -> Option<real>) returns (ok: bool)
      modifies this
      ensures form == old(form)
      ensures forall f :: f in errors <==> Invalid(form, f, number)
      ensures forall f :: f in errors ==> errors[f] == Message(f)
      ensures ok <==> FormValid(form, number)
    {
      var newErrors := CollectErrors(form, number);
      errors := newErrors;
      ok := |newErrors| == 0;
      NoErrorsIffValid(newErrors, form, number);
    }

    /** `handleSubmit`: validate; on failure stop there; otherwise update the
        record named by the route, or add a new one, and go to the product list. */
    method HandleSubmit(store: ProductStore, user: Option<User>, number: string -> Option<real>,
                        parseFloat: string -> real, parseInt: string -> int, freshId: string, now: int)
      returns (navigateTo: Option<string>)
      modifies this, store, store.storage
      ensures form == old(form)
      ensures forall f :: f in errors <==> Invalid(form, f, number)
      ensures forall f :: f in errors ==> errors[f] == Message(f)
      ensures store.error == old(store.error) && store.isLoading == old(store.isLoading)
      ensures !FormValid(form, number) ==>
        && navigateTo == None
        && store.products == old(store.products)
        && store.storage.entries == old(store.storage.entries)
      ensures FormValid(form, number) ==> navigateTo == Some(ProductsPath) && store.Mirrored()
      ensures FormValid(form, number) ==>
        store.storage.entries == old(store.storage.entries)[ProductsKey := Persistence.ProductList(store.products)]
      ensures FormValid(form, number) && routeId.Some? ==>
        store.products == Updated(old(store.products), routeId.value, PatchOf(SubmittedDraft(form, user, parseFloat, parseInt)))
      ensures FormValid(form, number) && routeId.None? ==>
        store.products == old(store.products) + [NewProduct(SubmittedDraft(form, user, parseFloat, parseInt), freshId, now)]
    {
      var ok := ValidateForm(number);
      if !ok {
        return None;
      }
      var data := SubmittedDraft(form, user, parseFloat, parseInt);
      if routeId.Some? {
        store.UpdateProduct(routeId.value, PatchOf(data));
      } else {
        var _ := store.AddProduct(data, freshId, now);
      }
      navigateTo := Some(ProductsPath);
    }

    /** `handleInputChange`: store the new text; if the field had a non-empty
        error, set that entry to the empty text. Other entries are untouched. */
    method HandleInputChange(f: Field, value: string)
      modifies this
      ensures form == WithField(old(form), f, value)
      ensures f in old(errors) && Text(old(errors)[f]) != "" ==> errors == old(errors)[f := Cleared]
      ensures !(f in old(errors) && Text(old(errors)[f]) != "") ==> errors == old(errors)
      ensures forall g :: g != f ==> (g in errors <==> g in old(errors))
      ensures forall g :: g != f && g in errors ==> errors[g] == old(errors)[g]
    {
      form := WithField(form, f, value);
      if f in errors && Text(errors[f]) != "" {
        errors := errors[f := Cleared];
      }
    }
  }
}
