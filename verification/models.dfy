/** The backend's stored records (backend/api/models/collection.py,
    backend/api/models/product.py) and the database they live in, with the
    constraints the tables declare: primary keys, the unique collection name,
    NOT NULL columns, the product-to-collection foreign key, and the cascades
    that follow a deleted collection down to its products and a deleted
    product down to its interactions. A table is a map from primary key to
    row. */
module Models {
  import opened Wrappers

  /** A `collections` row. */
  datatype Collection = Collection(id: int, name: string, quantity: int)

  /** One entry of a product's JSON `color` column as the admin screen
      writes it. */
  datatype ColorItem = ColorItem(name: string, hex: string)

  /** A `products` row. The price is a floating-point column that is only
      carried along. `color` is a JSON column: `None` is the JSON value
      `null`, which the NOT NULL constraint does not refuse. */
  datatype Product = Product(
    id: int, name: string, price: real, color: Option<seq<ColorItem>>, category: string,
    size: string, description: string, image: string, model: string,
    disponible: bool, collectionId: int)

  /** An `interactions` row, reduced to the product it points at (the
      interaction table is not part of this model otherwise). */
  datatype Interaction = Interaction(id: int, productId: int)

  datatype Db = Db(collections: map<int, Collection>, products: map<int, Product>,
                   interactions: map<int, Interaction>)

  const EmptyDb := Db(map[], map[], map[])

  /** No other collection than the one under `except` is called `name`. */
  predicate NameFree(collections: map<int, Collection>, name: string, except: Option<int>)
  {
    forall k | k in collections && Some(k) != except :: collections[k].name != name
  }

  /** What the schema guarantees of a database at rest: every row sits under
      its own primary key, collection names are unique, and every foreign
      key points at an existing row. */
  predicate Valid(db: Db)
  {
    && (forall k | k in db.collections :: db.collections[k].id == k)
    && (forall k | k in db.products :: db.products[k].id == k)
    && (forall k | k in db.interactions :: db.interactions[k].id == k)
    && (forall a, b | a in db.collections && b in db.collections && a != b ::
          db.collections[a].name != db.collections[b].name)
    && (forall k | k in db.products :: db.products[k].collectionId in db.collections)
    && (forall k | k in db.interactions :: db.interactions[k].productId in db.products)
  }

  lemma EmptyDbValid()
    ensures Valid(EmptyDb)
  {
  }

  /* ---------------------------------------------------------------------- */
  /* Products                                                                */
  /* ---------------------------------------------------------------------- */

  /** A product as submitted for insertion. For an ordinary column `None`
      is a value left null or missing: the ORM leaves both out of the INSERT,
      so the column default, if any, applies. The JSON `color` column tells
      them apart, since it stores an explicit `None` as JSON `null`. */
  datatype ProductDraft = ProductDraft(
    name: Option<string>, price: Option<real>, color: Field<seq<ColorItem>>,
    category: Option<string>, size: Option<string>, description: Option<string>,
    image: Option<string>, model: Option<string>, disponible: Option<bool>,
    collectionId: Option<int>)

  /** What an insertion does to the database, or the constraint it breaks. */
  datatype Write<T> = Committed(db: Db, value: T) | IntegrityError

  /** Every NOT NULL column without a default is given. */
  predicate RequiredGiven(d: ProductDraft)
  {
    d.name.Some? && d.price.Some? && d.category.Some? && d.size.Some? && d.description.Some? &&
    d.image.Some? && d.model.Some? && d.collectionId.Some?
  }

  /** The stored colour list: the default empty list when the field is
      missing, JSON `null` when it is `null`, else the list given. */
  function StoredColor(f: Field<seq<ColorItem>>): (c: Option<seq<ColorItem>>)
    ensures f.Unset? ==> c == Some([])
    ensures f.Null? ==> c.None?
    ensures f.Value? ==> c == Some(f.value)
  {
    match f
    case Unset => Some([])
    case Null => None
    case Value(v) => Some(v)
  }

  /** Inserting a product under a fresh id: a missing required column or a
      collection id that names no collection is refused and nothing changes;
      otherwise the row is added with every given column as given, `color`
      stored as `StoredColor` says and `disponible` defaulting to true, and
      nothing else changes. */
  function InsertProduct(db: Db, d: ProductDraft, freshId: int): (w: Write<Product>)
    requires freshId !in db.products
    ensures w.Committed? <==> RequiredGiven(d) && d.collectionId.value in db.collections
    ensures w.Committed? ==>
              && w.db == db.(products := db.products[freshId := w.value])
              && w.value.id == freshId && w.value.name == d.name.value && w.value.price == d.price.value
              && w.value.category == d.category.value && w.value.size == d.size.value
              && w.value.description == d.description.value && w.value.image == d.image.value
              && w.value.collectionId == d.collectionId.value && w.value.model == d.model.value
              && w.value.color == StoredColor(d.color) && w.value.disponible == d.disponible.GetOr(true)
    ensures w.Committed? && Valid(db) ==> Valid(w.db)
  {
    if !RequiredGiven(d) || d.collectionId.value !in db.collections then IntegrityError
    else
      var p := Product(freshId, d.name.value, d.price.value, StoredColor(d.color), d.category.value,
                       d.size.value, d.description.value, d.image.value, d.model.value,
                       d.disponible.GetOr(true), d.collectionId.value);
      Committed(db.(products := db.products[freshId := p]), p)
  }

  /** A draft that leaves out the two defaulted columns gets an empty colour
      list and is available. */
  lemma InsertProductDefaults(db: Db, d: ProductDraft, freshId: int)
    requires freshId !in db.products
    requires RequiredGiven(d) && d.collectionId.value in db.collections
    requires d.color.Unset? && d.disponible.None?
    ensures InsertProduct(db, d, freshId).value.color == Some([])
    ensures InsertProduct(db, d, freshId).value.disponible
  {
  }

  /** The two defaulted columns differ on an explicit `null`: the colour
      list is stored as JSON `null`, while availability still takes its
      default. The row is committed either way. */
  lemma InsertProductExplicitNulls(db: Db, d: ProductDraft, freshId: int)
    requires freshId !in db.products
    requires RequiredGiven(d) && d.collectionId.value in db.collections
    requires d.color.Null? && d.disponible.None?
    ensures InsertProduct(db, d, freshId).Committed?
    ensures InsertProduct(db, d, freshId).value.color.None?
    ensures InsertProduct(db, d, freshId).value.disponible
  {
  }

  /** Deleting a product, with the interaction rows that point at it. */
  function DeleteProduct(db: Db, id: int): (r: Db)
    ensures id !in r.products
    ensures forall k :: k in r.products <==> k in db.products && k != id
    ensures forall k | k in r.products :: r.products[k] == db.products[k]
    ensures forall k :: k in r.interactions <==> k in db.interactions && db.interactions[k].productId != id
    ensures forall k | k in r.interactions :: r.interactions[k] == db.interactions[k]
    ensures r.collections == db.collections
    ensures Valid(db) ==> Valid(r)
  {
    Db(db.collections,
       map k | k in db.products && k != id :: db.products[k],
       map k | k in db.interactions && db.interactions[k].productId != id :: db.interactions[k])
  }

  /* ---------------------------------------------------------------------- */
  /* Collections                                                             */
  /* ---------------------------------------------------------------------- */

  /** Deleting a collection with the cascade the two tables declare: its
      products go with it, and so do those products' interactions. Every
      other row stays as it was. */
  function DeleteCollectionCascade(db: Db, id: int): (r: Db)
    ensures id !in r.collections
    ensures forall k :: k in r.collections <==> k in db.collections && k != id
    ensures forall k | k in r.collections :: r.collections[k] == db.collections[k]
    ensures forall k :: k in r.products <==> k in db.products && db.products[k].collectionId != id
    ensures forall k | k in r.products :: r.products[k] == db.products[k]
    ensures forall k :: k in r.interactions <==>
              k in db.interactions && db.interactions[k].productId in db.products &&
              db.products[db.interactions[k].productId].collectionId != id
    ensures forall k | k in r.interactions :: r.interactions[k] == db.interactions[k]
    ensures Valid(db) ==> Valid(r)
  {
    var products := map k | k in db.products && db.products[k].collectionId != id :: db.products[k];
    Db(map k | k in db.collections && k != id :: db.collections[k],
       products,
       map k | k in db.interactions && db.interactions[k].productId in products :: db.interactions[k])
  }
}
