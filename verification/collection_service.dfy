/** The collection service (backend/api/services/collection.py): create, get,
    the products of a collection, delete and partial update, as functions from
    a database to a database. The session, `commit` and `refresh` are not
    modelled: a committed write is the database after it. The id the database
    assigns on insertion is a parameter, required to be fresh. A constraint
    the database refuses (a NOT NULL column set to null, a duplicate name)
    is the `IntegrityError` outcome, with nothing written; the service does
    not catch it. */
module CollectionService {
  import opened Wrappers
  import opened Models
  import opened Schemas

  /** `create_collection`: one new row under the fresh id, with the body's
      name and quantity. A `null` quantity is left out of the INSERT by the
      ORM, so the column default 0 applies. The insert is refused exactly
      when the name is already taken; otherwise exactly that row is added
      and nothing else changes. */
  function CreateCollection(db: Db, data: CollectionCreate, freshId: int): (w: Write<Collection>)
    requires freshId !in db.collections
    ensures w.Committed? <==> NameFree(db.collections, data.name, None)
    ensures w.Committed? ==>
              && w.value == Collection(freshId, data.name, data.quantity.GetOr(DefaultQuantity))
              && w.db == db.(collections := db.collections[freshId := w.value])
    ensures w.Committed? && Valid(db) ==> Valid(w.db)
  {
    if !NameFree(db.collections, data.name, None) then IntegrityError
    else
      var c := Collection(freshId, data.name, data.quantity.GetOr(DefaultQuantity));
      Committed(db.(collections := db.collections[freshId := c]), c)
  }

  /** `get_collection_by_id`: the row under the id, or `None`. */
  function GetCollectionById(db: Db, id: int): (r: Option<Collection>)
    ensures r.Some? <==> id in db.collections
    ensures r.Some? ==> r.value == db.collections[id]
  {
    if id in db.collections then Some(db.collections[id]) else None
  }

  /** `get_collection_products`: `None` when the collection does not exist;
      otherwise exactly the products whose collection id is this one, keyed
      by their own id — possibly none. */
  function GetCollectionProducts(db: Db, id: int): (r: Option<map<int, Product>>)
    ensures r.None? <==> id !in db.collections
    ensures r.Some? ==> forall k :: k in r.value <==> k in db.products && db.products[k].collectionId == id
    ensures r.Some? ==> forall k | k in r.value :: r.value[k] == db.products[k]
  {
    if GetCollectionById(db, id).None? then None
    else Some(map k | k in db.products && db.products[k].collectionId == id :: db.products[k])
  }

  /** `delete_collection`: `None` and no change when the id is unknown;
      otherwise the removed row, with the cascade to its products and their
      interactions applied. */
  function DeleteCollection(db: Db, id: int): (r: Option<(Db, Collection)>)
    ensures r.None? <==> id !in db.collections
    ensures r.Some? ==> r.value.1 == db.collections[id] && r.value.0 == DeleteCollectionCascade(db, id)
  {
    match GetCollectionById(db, id)
    case None => None
    case Some(c) => Some((DeleteCollectionCascade(db, id), c))
  }

  /** The row a set of updates gives, or `None` when a field is set to
      `null`, which the NOT NULL columns refuse. An unset field keeps the
      stored value. */
  function Apply(c: Collection, u: CollectionUpdate): (r: Option<Collection>)
    ensures r.None? <==> u.name.Null? || u.quantity.Null?
    ensures r.Some? ==> r.value.id == c.id
    ensures r.Some? ==> r.value.name == (if u.name.Value? then u.name.value else c.name)
    ensures r.Some? ==> r.value.quantity == (if u.quantity.Value? then u.quantity.value else c.quantity)
  {
    if u.name.Null? || u.quantity.Null? then None
    else
      Some(Collection(c.id,
                      if u.name.Value? then u.name.value else c.name,
                      if u.quantity.Value? then u.quantity.value else c.quantity))
  }

  /** `update_collection`: `None` and no change when the id is unknown.
      Otherwise only the fields the body set are written; a field set to
      `null`, or a name another collection already has, is refused with
      nothing written. A committed update changes that one row and nothing
      else. */
  function UpdateCollection(db: Db, id: int, u: CollectionUpdate): (r: Option<Write<Collection>>)
    ensures r.None? <==> id !in db.collections
    ensures r.Some? ==>
              (r.value.Committed? <==>
                 !u.name.Null? && !u.quantity.Null? &&
                 (u.name.Value? ==> NameFree(db.collections, u.name.value, Some(id))))
    ensures r.Some? && r.value.Committed? ==>
              && r.value.value.id == db.collections[id].id
              && r.value.value.name == (if u.name.Value? then u.name.value else db.collections[id].name)
              && r.value.value.quantity == (if u.quantity.Value? then u.quantity.value else db.collections[id].quantity)
              && r.value.db == db.(collections := db.collections[id := r.value.value])
  {
    match GetCollectionById(db, id)
    case None => None
    case Some(c) =>
      match Apply(c, u)
      case None => Some(IntegrityError)
      case Some(c') =>
        if u.name.Value? && !NameFree(db.collections, u.name.value, Some(id)) then Some(IntegrityError)
        else Some(Committed(db.(collections := db.collections[id := c']), c'))
  }

  /* ---------------------------------------------------------------------- */
  /* Properties across operations                                            */
  /* ---------------------------------------------------------------------- */

  /** An update that sets no field writes the row back unchanged: the
      database after it is the database before it. */
  lemma EmptyUpdateIsNoOp(db: Db, id: int)
    requires id in db.collections
    ensures UpdateCollection(db, id, EmptyUpdate) == Some(Committed(db, db.collections[id]))
  {
    var c := db.collections[id];
    assert Apply(c, EmptyUpdate) == Some(c);
    assert db.collections[id := c] == db.collections;
  }

  /** A committed update keeps the database valid: the row stays under its
      key, names stay unique and no foreign key is touched. */
  lemma UpdatePreservesValid(db: Db, id: int, u: CollectionUpdate)
    requires Valid(db)
    requires UpdateCollection(db, id, u).Some? && UpdateCollection(db, id, u).value.Committed?
    ensures Valid(UpdateCollection(db, id, u).value.db)
  {
    var c' := UpdateCollection(db, id, u).value.value;
    var db' := UpdateCollection(db, id, u).value.db;
    assert c'.id == id;
    forall a, b | a in db'.collections && b in db'.collections && a != b
      ensures db'.collections[a].name != db'.collections[b].name
    {
      if a == id {
        assert c'.name == db.collections[id].name || NameFree(db.collections, c'.name, Some(id));
      } else if b == id {
        assert c'.name == db.collections[id].name || NameFree(db.collections, c'.name, Some(id));
      }
    }
  }

  /** Reading back after a committed create gives the created row. */
  lemma GetAfterCreate(db: Db, data: CollectionCreate, freshId: int)
    requires freshId !in db.collections
    requires CreateCollection(db, data, freshId).Committed?
    ensures GetCollectionById(CreateCollection(db, data, freshId).db, freshId) ==
              Some(Collection(freshId, data.name, data.quantity.GetOr(DefaultQuantity)))
  {
  }

  /** After a delete the collection is gone, and so are its products: asking
      for them answers `None`, not an empty list. */
  lemma GetAfterDelete(db: Db, id: int)
    requires DeleteCollection(db, id).Some?
    ensures GetCollectionById(DeleteCollection(db, id).value.0, id).None?
    ensures GetCollectionProducts(DeleteCollection(db, id).value.0, id).None?
    ensures forall k | k in DeleteCollection(db, id).value.0.products ::
              DeleteCollection(db, id).value.0.products[k].collectionId != id
  {
  }

  /** A collection created through the service starts with no products. */
  lemma CreatedCollectionIsEmpty(db: Db, data: CollectionCreate, freshId: int)
    requires Valid(db)
    requires freshId !in db.collections
    requires CreateCollection(db, data, freshId).Committed?
    ensures GetCollectionProducts(CreateCollection(db, data, freshId).db, freshId) == Some(map[])
  {
    var db' := CreateCollection(db, data, freshId).db;
    var r := GetCollectionProducts(db', freshId);
    assert db'.products == db.products;
    forall k | k in db.products
      ensures db.products[k].collectionId != freshId
    {
      assert db.products[k].collectionId in db.collections;
    }
    assert r.value.Keys == {};
  }

  /** Updating then reading gives the updated row; the other collections
      read as before. */
  lemma GetAfterUpdate(db: Db, id: int, u: CollectionUpdate, other: int)
    requires UpdateCollection(db, id, u).Some? && UpdateCollection(db, id, u).value.Committed?
    requires other != id
    ensures GetCollectionById(UpdateCollection(db, id, u).value.db, id) == Some(UpdateCollection(db, id, u).value.value)
    ensures GetCollectionById(UpdateCollection(db, id, u).value.db, other) == GetCollectionById(db, other)
  {
  }
}
