/** The product management screen (frontend/src/pages/admin/ProductsManagement.tsx):
    how a backend product row becomes the screen's view-model, how the form
    becomes the backend payload, the client-side search, and the add / edit /
    delete handlers that patch the in-memory list after the server answers. */
module ProductsManagement {
  import opened Wrappers
  import opened Text
  import Lists
  import opened ApiClient
  import opened Screen

  /* ---------------------------------------------------------------------- */
  /* Shapes                                                                  */
  /* ---------------------------------------------------------------------- */

  /** One entry of the `color` JSON array as the backend may return it. */
  datatype ColorEntry =
    | NullColor
    | TextColor(text: string)
    | NumberColor(number: int)
    | ObjectColor(name: Option<string>, hex: Option<string>)

  /** The `color` field: an array, or some other JSON value. */
  datatype ColorField = ColorArray(entries: seq<ColorEntry>) | NotAnArray

  /** A colour variant on screen and in the payload. */
  datatype Color = Color(name: string, hex: string)

  /** A product row as the backend returns it (`ApiProduct`). The price is a
      floating-point number that is only carried along. */
  datatype ApiProduct = ApiProduct(
    id: int, name: string, price: real, image: string, category: string,
    color: ColorField, size: string, description: string, model: string,
    collectionId: int)

  /** A collection as this screen loads it: only id and name are read. */
  datatype ApiCollection = ApiCollection(id: int, name: string)

  /** The screen's view-model of a product (`Product`). */
  datatype Product = Product(
    id: string, name: string, price: real, image: string, category: string,
    colors: seq<Color>, sizes: seq<string>, description: string,
    collection: Option<string>, collectionId: Option<int>, model: Option<string>)

  /** What the product form dialog hands to the handlers
      (`AdminProductFormData`). */
  datatype ProductForm = ProductForm(
    id: Option<string>, name: string, price: real, image: string, category: string,
    colors: seq<Color>, sizes: seq<string>, description: string,
    collectionId: Option<int>, model: Option<string>)

  /** The JSON body of a product create or update. */
  datatype ProductPayload = ProductPayload(
    name: string, price: real, color: seq<Color>, category: string, size: string,
    description: string, image: string, model: string, collectionId: Option<int>)

  /* ---------------------------------------------------------------------- */
  /* Colours                                                                 */
  /* ---------------------------------------------------------------------- */

  const DefaultHex := "#000000"

  /** What `String(c)` gives for a plain object. */
  const ObjectText := "[object Object]"

  /** `Cor <i+1>`: the name given to the entry at index `i` when it has none. */
  function DefaultColorName(i: nat): string
  {
    "Cor " + NatToString(i + 1)
  }

  /** `{ name: c?.name ?? "Cor i+1", hex: c?.hex ?? String(c ?? "#000000") }`. */
  function ColorOf(c: ColorEntry, i: nat): Color
  {
    var name := if c.ObjectColor? && c.name.Some? then c.name.value else DefaultColorName(i);
    var hex := match c
      case ObjectColor(_, h) => h.GetOr(ObjectText)
      case NullColor => DefaultHex
      case TextColor(t) => t
      case NumberColor(n) => IntToString(n);
    Color(name, hex)
  }

  /** An entry that carries its own name. */
  predicate Named(c: ColorEntry)
  {
    c.ObjectColor? && c.name.Some?
  }

  /** The colour list of the view-model: empty unless the field is an array,
      else one colour per entry, in order. An entry keeps its own name and
      hex when it has them; a missing name becomes `Cor <position>`; a null
      entry is black, a string entry is its own hex, and an object without a
      hex gets the object's string form. */
  function MapColors(field: ColorField): (colors: seq<Color>)
    ensures field.NotAnArray? ==> colors == []
    ensures field.ColorArray? ==> |colors| == |field.entries|
    ensures field.ColorArray? ==> forall i :: 0 <= i < |colors| ==>
              colors[i].name == if Named(field.entries[i]) then field.entries[i].name.value else DefaultColorName(i)
    ensures field.ColorArray? ==> forall i :: 0 <= i < |colors| ==>
              colors[i].hex == match field.entries[i]
                case ObjectColor(_, h) => if h.Some? then h.value else ObjectText
                case NullColor => DefaultHex
                case TextColor(t) => t
                case NumberColor(n) => IntToString(n)
  {
    match field
    case NotAnArray => []
    case ColorArray(es) => seq(|es|, i requires 0 <= i < |es| => ColorOf(es[i], i))
  }

  /** Two entries without a name of their own never end up sharing one. */
  lemma MapColorsUnnamedDistinct(field: ColorField, i: nat, j: nat)
    requires field.ColorArray? && i < j < |field.entries|
    requires !Named(field.entries[i]) && !Named(field.entries[j])
    ensures MapColors(field)[i].name != MapColors(field)[j].name
  {
    DefaultColorNamesDistinct(i, j);
  }

  /** Default names never collide. */
  lemma DefaultColorNamesDistinct(i: nat, j: nat)
    requires i != j
    ensures DefaultColorName(i) != DefaultColorName(j)
  {
    var prefix := "Cor ";
    assert DefaultColorName(i)[|prefix|..] == NatToString(i + 1);
    assert DefaultColorName(j)[|prefix|..] == NatToString(j + 1);
  }

  /* ---------------------------------------------------------------------- */
  /* Sizes                                                                   */
  /* ---------------------------------------------------------------------- */

  /** The single size shown for a product whose `size` field is empty. */
  const SinglePlaceholder := "Único"

  /** A size list that survives a trip through the comma-joined `size`
      field: every size non-empty, comma-free and without surrounding
      whitespace. */
  predicate CleanSizes(sizes: seq<string>)
  {
    forall i :: 0 <= i < |sizes| ==> sizes[i] != "" && IsTrimmed(sizes[i]) && ',' !in sizes[i]
  }

  /** The `sizes` of the view-model: an empty field gives the placeholder;
      otherwise the comma-separated pieces, trimmed, empty ones dropped, in
      order — so a field holding only commas and blanks gives no size at all. */
  function ParseSizes(size: string): (sizes: seq<string>)
    ensures size == "" ==> sizes == [SinglePlaceholder]
    ensures size != "" ==> CleanSizes(sizes)
  {
    if size == "" then [SinglePlaceholder] else SplitTrimmed(size, ',')
  }

  /** A non-empty `size` field lists exactly the non-empty trims of its
      comma-separated pieces. */
  lemma ParseSizesMembers(size: string, w: string)
    requires size != ""
    ensures w in ParseSizes(size) <==> w != "" && exists i :: 0 <= i < |Split(size, ',')| && Trim(Split(size, ',')[i]) == w
  {
    SplitTrimmedMembers(size, ',', w);
  }

  /** A non-empty `size` field lists the non-empty trimmed pieces in the
      order they were typed, repetitions included. */
  lemma ParseSizesInOrder(size: string)
    requires size != ""
    ensures ParseSizes(size) == Lists.Filter(TrimEach(Split(size, ',')), NotEmpty)
  {
    SplitTrimmedIsFilter(size, ',');
  }

  /** `sizes.join(",")`, the `size` field of the payload, for any list of
      sizes. No size is lost or merged: when no size holds a comma, the
      commas of the field are exactly the ones between its sizes; and the
      field is empty only for no size or one empty size. */
  function SerializeSizes(sizes: seq<string>): (size: string)
    ensures size == "" <==> sizes == [] || sizes == [""]
    ensures sizes != [] && SepFree(sizes, ',') ==> Split(size, ',') == sizes
  {
    var size := Join(sizes, ',');
    assert sizes != [] && SepFree(sizes, ',') ==> Split(size, ',') == sizes by {
      if sizes != [] && SepFree(sizes, ',') {
        SplitJoin(sizes, ',');
      }
    }
    assert |sizes| > 1 ==> |size| > |sizes[0]|;
    size
  }

  /** Round trip: serialising a clean size list and parsing it back gives the
      list again; the empty list comes back as the placeholder. */
  lemma SizesRoundTrip(sizes: seq<string>)
    requires CleanSizes(sizes)
    ensures ParseSizes(SerializeSizes(sizes)) == if sizes == [] then [SinglePlaceholder] else sizes
  {
    if sizes != [] {
      JoinNonEmpty(sizes, ',');
      SplitTrimmedJoin(sizes, ',');
    }
  }

  /** Two worked cases: "M, L, XL" lists three sizes, in order, without
      the blanks; " , " holds only blanks and so lists no size at all, as the
      placeholder is reserved for an empty field. */
  lemma ParseSizesExamples()
    ensures ParseSizes("M, L, XL") == ["M", "L", "XL"]
    ensures ParseSizes(" , ") == []
  {
    SplitTrimmedSpacedList();
    SplitTrimmedOnlyBlanks();
  }

  /* ---------------------------------------------------------------------- */
  /* Row to view-model                                                       */
  /* ---------------------------------------------------------------------- */

  /** `cols.find(c => c.id === id)?.name`: the name of the first collection
      carrying the id, or nothing when none does. */
  function FindCollectionName(cols: seq<ApiCollection>, id: int): (name: Option<string>)
    ensures name.None? <==> forall i :: 0 <= i < |cols| ==> cols[i].id != id
    ensures name.Some? ==> exists i :: 0 <= i < |cols| && cols[i].id == id && cols[i].name == name.value &&
                                       forall j :: 0 <= j < i ==> cols[j].id != id
  {
    if |cols| == 0 then None
    else if cols[0].id == id then Some(cols[0].name)
    else
      var name := FindCollectionName(cols[1..], id);
      assert forall i :: 1 <= i < |cols| ==> cols[i] == cols[1..][i - 1];
      assert name.Some? ==> exists i :: 0 <= i < |cols| && cols[i].id == id && cols[i].name == name.value &&
                                        forall j :: 0 <= j < i ==> cols[j].id != id by {
        if name.Some? {
          var k :| 0 <= k < |cols[1..]| && cols[1..][k].id == id && cols[1..][k].name == name.value &&
                   forall j :: 0 <= j < k ==> cols[1..][j].id != id;
          assert cols[k + 1].id == id && forall j :: 0 <= j < k + 1 ==> cols[j].id != id;
        }
      }
      name
  }

  /** The row-to-view-model mapping used after the initial fetch and after an
      edit: the id rendered in decimal (and so parsed back to the row id),
      the colours and sizes normalised, the collection's name looked up, and
      every other field copied. */
  function MapApiProduct(row: ApiProduct, cols: seq<ApiCollection>): (p: Product)
    ensures p.id == IntToString(row.id) && ParseInt(p.id) == Some(row.id)
    ensures p.name == row.name && p.price == row.price && p.image == row.image
    ensures p.category == row.category && p.description == row.description
    ensures p.collectionId == Some(row.collectionId) && p.model == Some(row.model)
    ensures p.colors == MapColors(row.color) && p.sizes == ParseSizes(row.size)
    ensures p.collection == FindCollectionName(cols, row.collectionId)
    ensures p.collection.Some? <==> exists i :: 0 <= i < |cols| && cols[i].id == row.collectionId
  {
    ParseIntToString(row.id);
    Product(IntToString(row.id), row.name, row.price, row.image, row.category,
            MapColors(row.color), ParseSizes(row.size), row.description,
            FindCollectionName(cols, row.collectionId), Some(row.collectionId), Some(row.model))
  }

  /* ---------------------------------------------------------------------- */
  /* Search                                                                  */
  /* ---------------------------------------------------------------------- */

  /** The search term occurs, ignoring case, in the name or the category. */
  predicate Matches(p: Product, term: string)
  {
    Contains(Lower(p.name), Lower(term)) || Contains(Lower(p.category), Lower(term))
  }

  /** `filteredProducts`: in their order, exactly the products whose
      lower-cased name or category contains the lower-cased term. */
  function FilterProducts(products: seq<Product>, term: string): (shown: seq<Product>)
    ensures Lists.IsSubsequence(shown, products)
    ensures forall i :: 0 <= i < |shown| ==> Matches(shown[i], term)
    ensures forall p | p in products && Matches(p, term) :: multiset(shown)[p] == multiset(products)[p]
    ensures multiset(shown) <= multiset(products)
  {
    var keep := (p: Product) => Matches(p, term);
    Lists.FilterMultiset(products, keep);
    Lists.Filter(products, keep)
  }

  /** An empty search term shows every product. */
  lemma FilterProductsEmptyTerm(products: seq<Product>)
    ensures FilterProducts(products, "") == products
  {
    forall i | 0 <= i < |products|
      ensures Matches(products[i], "")
    {
      ContainsEmpty(Lower(products[i].name));
    }
    Lists.FilterKeepsAll(products, p => Matches(p, ""));
  }

  /** The search ignores the case of the term. */
  lemma FilterProductsIgnoresCase(products: seq<Product>, term: string)
    ensures FilterProducts(products, Lower(term)) == FilterProducts(products, term)
  {
    LowerIdempotent(term);
    Lists.FilterAgreeing(products, p => Matches(p, Lower(term)), p => Matches(p, term));
  }

  /* ---------------------------------------------------------------------- */
  /* Payload                                                                 */
  /* ---------------------------------------------------------------------- */

  const ManualModel := "manual"

  /** `toBackendPayload`: `colors` becomes `color`, `collectionId` becomes
      `collection_id`, the sizes are comma-joined, and an empty or missing
      model becomes "manual". */
  function ToBackendPayload(form: ProductForm): (payload: ProductPayload)
    ensures payload.name == form.name && payload.price == form.price && payload.category == form.category
    ensures payload.description == form.description && payload.image == form.image
    ensures payload.color == form.colors && payload.collectionId == form.collectionId
    ensures payload.size == SerializeSizes(form.sizes)
    ensures payload.model != ""
    ensures payload.model == if Truthy(form.model) then form.model.value else ManualModel
    ensures CleanSizes(form.sizes) ==>
              ParseSizes(payload.size) == if form.sizes == [] then [SinglePlaceholder] else form.sizes
  {
    assert CleanSizes(form.sizes) ==>
             ParseSizes(SerializeSizes(form.sizes)) == if form.sizes == [] then [SinglePlaceholder] else form.sizes by {
      if CleanSizes(form.sizes) { SizesRoundTrip(form.sizes); }
    }
    ProductPayload(form.name, form.price, form.colors, form.category, SerializeSizes(form.sizes),
                   form.description, form.image, if Truthy(form.model) then form.model.value else ManualModel,
                   form.collectionId)
  }

  /** The row the backend stores for a payload, under the id it assigns:
      each colour becomes an object with its name and hex. */
  function StoredRow(payload: ProductPayload, id: int): ApiProduct
    requires payload.collectionId.Some?
  {
    ApiProduct(id, payload.name, payload.price, payload.image, payload.category,
               ColorArray(seq(|payload.color|, i requires 0 <= i < |payload.color| =>
                 ObjectColor(Some(payload.color[i].name), Some(payload.color[i].hex)))),
               payload.size, payload.description, payload.model, payload.collectionId.value)
  }

  /** The colour array stored for a list of colours maps back to it. */
  lemma MapColorsOfStored(colors: seq<Color>)
    ensures MapColors(ColorArray(seq(|colors|, i requires 0 <= i < |colors| =>
              ObjectColor(Some(colors[i].name), Some(colors[i].hex))))) == colors
  {
    var es := seq(|colors|, i requires 0 <= i < |colors| => ObjectColor(Some(colors[i].name), Some(colors[i].hex)));
    var back := MapColors(ColorArray(es));
    forall i | 0 <= i < |colors|
      ensures back[i] == colors[i]
    {
      assert ColorOf(es[i], i) == colors[i];
    }
  }

  /** Form to payload to stored row to view-model gives back the form's
      fields: colours, clean sizes (or the placeholder), the collection id,
      and the model, which is "manual" when the form left it empty. */
  lemma FormRoundTrip(form: ProductForm, id: int, cols: seq<ApiCollection>)
    requires form.collectionId.Some?
    requires CleanSizes(form.sizes)
    ensures var p := MapApiProduct(StoredRow(ToBackendPayload(form), id), cols);
            && p.name == form.name && p.price == form.price && p.category == form.category
            && p.colors == form.colors
            && p.sizes == (if form.sizes == [] then [SinglePlaceholder] else form.sizes)
            && p.collectionId == form.collectionId
            && p.model == Some(if Truthy(form.model) then form.model.value else ManualModel)
  {
    MapColorsOfStored(form.colors);
  }

  /* ---------------------------------------------------------------------- */
  /* Handlers                                                                */
  /* ---------------------------------------------------------------------- */

  const SelectCollectionMessage := "Selecione uma coleção"
  const InvalidEditMessage := "Dados inválidos para edição."
  const AddedMessage := "Produto adicionado com sucesso!"
  const UpdatedMessage := "Produto atualizado com sucesso!"
  const RemovedMessage := "Produto removido com sucesso!"

  /** The message of the `ReferenceError` raised by calling the undefined
      `mapApiProduct`. */
  const UndefinedMapperMessage := "mapApiProduct is not defined"

  /** A numeric collection id is truthy when present and not zero. */
  predicate CollectionIdTruthy(id: Option<int>)
  {
    id.Some? && id.value != 0
  }

  /** `handleAddProduct` as written: after the guard and a successful POST it
      calls `mapApiProduct`, which is defined nowhere, so the `ReferenceError`
      lands in the `catch`; the created product never reaches the list and an
      error toast is shown. */
  function AddProductAsWritten(items: seq<Product>, cols: seq<ApiCollection>, form: ProductForm,
                               response: Outcome<ApiProduct>): (h: Handled<Product, ProductPayload>)
    ensures h.items == items
    ensures !CollectionIdTruthy(form.collectionId) ==> h.sent.None?
    ensures CollectionIdTruthy(form.collectionId) ==> h.sent == Some(CreateCall(Products, ToBackendPayload(form)))
    ensures h.notice.Some? && h.notice.value.Failure?
  {
    if !CollectionIdTruthy(form.collectionId) then
      Handled(items, None, Some(Failure(SelectCollectionMessage)))
    else
      var call := CreateCall(Products, ToBackendPayload(form));
      match response
      case Rejected(e) => Handled(items, Some(call), Some(Failure(e.message)))
      case Resolved(_) => Handled(items, Some(call), Some(Failure(UndefinedMapperMessage)))
  }

  /** `handleAddProduct` as intended: no collection chosen means no request
      and an error toast; otherwise the payload is POSTed to /products and a
      successful answer, mapped like every other row, is appended at the end
      of the list with nothing else changed. */
  function AddProduct(items: seq<Product>, cols: seq<ApiCollection>, form: ProductForm,
                      response: Outcome<ApiProduct>): (h: Handled<Product, ProductPayload>)
    ensures !CollectionIdTruthy(form.collectionId) ==>
              h == Handled(items, None, Some(Failure(SelectCollectionMessage)))
    ensures CollectionIdTruthy(form.collectionId) ==> h.sent == Some(CreateCall(Products, ToBackendPayload(form)))
    ensures CollectionIdTruthy(form.collectionId) && response.Resolved? ==>
              |h.items| == |items| + 1 && h.items[..|items|] == items &&
              h.items[|items|] == MapApiProduct(response.value, cols) &&
              h.notice == Some(Success(AddedMessage))
    ensures response.Rejected? ==> h.items == items && h.notice.Some? && h.notice.value.Failure?
  {
    if !CollectionIdTruthy(form.collectionId) then
      Handled(items, None, Some(Failure(SelectCollectionMessage)))
    else
      var call := CreateCall(Products, ToBackendPayload(form));
      match response
      case Rejected(e) => Handled(items, Some(call), Some(Failure(e.message)))
      case Resolved(created) =>
        var items' := items + [MapApiProduct(created, cols)];
        assert items'[..|items|] == items;
        Handled(items', Some(call), Some(Success(AddedMessage)))
  }

  /** The discrepancy: for any guarded-through form and any successful
      create, the handler as written leaves the list as it was, while the
      intended one grows it by the created product. */
  lemma AddProductAsWrittenLosesCreatedProduct(items: seq<Product>, cols: seq<ApiCollection>,
                                               form: ProductForm, created: ApiProduct)
    requires CollectionIdTruthy(form.collectionId)
    ensures AddProductAsWritten(items, cols, form, Resolved(created)).items == items
    ensures AddProductAsWritten(items, cols, form, Resolved(created)).sent.Some?
    ensures MapApiProduct(created, cols) in AddProduct(items, cols, form, Resolved(created)).items
    ensures AddProduct(items, cols, form, Resolved(created)).items != AddProductAsWritten(items, cols, form, Resolved(created)).items
  {
    var h := AddProduct(items, cols, form, Resolved(created));
    assert h.items[|items|] == MapApiProduct(created, cols);
  }

  /** `handleEditProduct`: a missing or empty id, or a falsy collection id,
      stops it with no request. Otherwise the payload is PATCHed to
      /products/<id>; on success every listed product whose id equals the
      saved product's mapped id is replaced by it, and the length and all
      other products stay as they were. */
  function EditProduct(items: seq<Product>, cols: seq<ApiCollection>, form: ProductForm,
                       response: Outcome<ApiProduct>): (h: Handled<Product, ProductPayload>)
    ensures !Truthy(form.id) || !CollectionIdTruthy(form.collectionId) ==>
              h == Handled(items, None, Some(Failure(InvalidEditMessage)))
    ensures Truthy(form.id) && CollectionIdTruthy(form.collectionId) ==>
              h.sent == Some(UpdateCall(Products, form.id.value, ToBackendPayload(form)))
    ensures |h.items| == |items|
    ensures Truthy(form.id) && CollectionIdTruthy(form.collectionId) && response.Resolved? ==>
              forall i :: 0 <= i < |items| ==>
              h.items[i] == if items[i].id == MapApiProduct(response.value, cols).id
                            then MapApiProduct(response.value, cols) else items[i]
    ensures response.Rejected? ==> h.items == items
  {
    if !Truthy(form.id) || !CollectionIdTruthy(form.collectionId) then
      Handled(items, None, Some(Failure(InvalidEditMessage)))
    else
      var call := UpdateCall(Products, form.id.value, ToBackendPayload(form));
      match response
      case Rejected(e) => Handled(items, Some(call), Some(Failure(e.message)))
      case Resolved(saved) =>
        var mapped := MapApiProduct(saved, cols);
        Lists.ReplaceWhereEffect(items, (p: Product) => p.id == mapped.id, mapped);
        Handled(Lists.ReplaceWhere(items, (p: Product) => p.id == mapped.id, mapped), Some(call), Some(Success(UpdatedMessage)))
  }

  /** `handleDeleteProduct`: with no product pending deletion nothing
      happens. Otherwise DELETE /products/<id>; on success every product with
      that id leaves the list and the others stay, in order. */
  function DeleteProduct(items: seq<Product>, pending: Option<Product>,
                         response: Outcome<()>): (h: Handled<Product, ProductPayload>)
    ensures pending.None? ==> h == Handled(items, None, None)
    ensures pending.Some? ==> h.sent == Some(Bodiless(RemoveCall(Products, pending.value.id)))
    ensures pending.Some? && response.Resolved? ==>
              && (forall i :: 0 <= i < |h.items| ==> h.items[i].id != pending.value.id)
              && Lists.IsSubsequence(h.items, items)
              && (forall p | p in items && p.id != pending.value.id :: multiset(h.items)[p] == multiset(items)[p])
    ensures response.Rejected? ==> h.items == items
  {
    if pending.None? then Handled(items, None, None)
    else
      var id := pending.value.id;
      var call := Bodiless(RemoveCall(Products, id));
      match response
      case Rejected(e) => Handled(items, Some(call), Some(Failure(e.message)))
      case Resolved(_) =>
        var keep := (p: Product) => p.id != id;
        Lists.FilterMultiset(items, keep);
        Handled(Lists.Filter(items, keep), Some(call), Some(Success(RemovedMessage)))
  }

  /* ---------------------------------------------------------------------- */
  /* Initial load                                                            */
  /* ---------------------------------------------------------------------- */

  /** The screen's state: loaded collections and products, the loading flag
      and the error banner. */
  datatype ProductsScreen = ProductsScreen(collections: seq<ApiCollection>, products: seq<Product>,
                                           loading: bool, error: Option<string>)

  /** On mount: loading, nothing listed, no error. */
  const Mounted := ProductsScreen([], [], true, None)

  /** The mount-time fetch: both lists are requested, a failing request
      counts as an empty list, every row is mapped against the collections,
      and the screen ends with loading off and no error. */
  function LoadProducts(collectionsResponse: Outcome<seq<ApiCollection>>,
                        productsResponse: Outcome<seq<ApiProduct>>): (s: ProductsScreen)
    ensures !s.loading && s.error.None?
    ensures s.collections == if collectionsResponse.Resolved? then collectionsResponse.value else []
    ensures productsResponse.Rejected? ==> s.products == []
    ensures productsResponse.Resolved? ==>
              |s.products| == |productsResponse.value| &&
              forall i :: 0 <= i < |s.products| ==> s.products[i] == MapApiProduct(productsResponse.value[i], s.collections)
    ensures collectionsResponse.Rejected? ==> forall i :: 0 <= i < |s.products| ==> s.products[i].collection.None?
  {
    var cols := if collectionsResponse.Resolved? then collectionsResponse.value else [];
    var rows := if productsResponse.Resolved? then productsResponse.value else [];
    var products := seq(|rows|, i requires 0 <= i < |rows| => MapApiProduct(rows[i], cols));
    ProductsScreen(cols, products, false, None)
  }

  /** A product saved from the form and listed by a later load shows what
      was typed: the row id, the name, price, category, colours and sizes,
      and the chosen collection. */
  lemma LoadShowsSavedForm(form: ProductForm, id: int, cols: seq<ApiCollection>, rows: seq<ApiProduct>, i: int)
    requires form.collectionId.Some?
    requires CleanSizes(form.sizes)
    requires 0 <= i < |rows| && rows[i] == StoredRow(ToBackendPayload(form), id)
    ensures var p := LoadProducts(Resolved(cols), Resolved(rows)).products[i];
            && ParseInt(p.id) == Some(id)
            && p.name == form.name && p.price == form.price && p.category == form.category
            && p.colors == form.colors
            && p.sizes == (if form.sizes == [] then [SinglePlaceholder] else form.sizes)
            && p.collectionId == form.collectionId
            && p.collection == FindCollectionName(cols, form.collectionId.value)
  {
    FormRoundTrip(form, id, cols);
  }
}
