/** The collection endpoints (backend/api/routers/collection.py): how each
    service answer becomes an HTTP response. A body that fails validation is
    refused with 422 before the service runs; a constraint the database
    refuses escapes the handler and becomes a 500. */
module CollectionRouter {
  import opened Wrappers
  import opened Models
  import opened Schemas
  import opened CollectionService

  /** An HTTP response: 200 with a body, 404 with a detail, 422, or 500. */
  datatype Response<T> = Ok(body: T) | NotFound(detail: string) | Unprocessable | ServerError

  /** A response and the database the request leaves behind. */
  datatype Reply<T> = Reply(db: Db, response: Response<T>)

  /* The details of the 404 responses, as each endpoint spells them. */
  const ReadMissing := "prodcuct not found"
  const ProductsMissing := "product not found"
  const UpdateMissing := "Collection not found"
  const DeleteMissing := "collection not found"

  /** `POST /collections`: validation, then `create_collection`; the answer
      is the created row, which is then readable under the fresh id. */
  function Create(db: Db, name: Field<string>, quantity: Field<int>, freshId: int): (r: Reply<CollectionOut>)
    requires freshId !in db.collections
    ensures !name.Value? ==> r == Reply(db, Unprocessable)
    ensures r.response.ServerError? ==> r.db == db
    ensures r.response.Ok? ==>
              && r.response.body.id == freshId && r.response.body.name == name.value
              && GetCollectionById(r.db, freshId).Some?
              && ToOut(GetCollectionById(r.db, freshId).value) == r.response.body
    ensures r.response.Ok? && !quantity.Value? ==> r.response.body.quantity == Some(DefaultQuantity)
    ensures r.response.Ok? && quantity.Value? ==> r.response.body.quantity == Some(quantity.value)
    ensures name.Value? ==> (r.response.Ok? <==> NameFree(db.collections, name.value, None))
    ensures !r.response.NotFound?
  {
    match ParseCollectionCreate(name, quantity)
    case None => Reply(db, Unprocessable)
    case Some(data) =>
      match CreateCollection(db, data, freshId)
      case IntegrityError => Reply(db, ServerError)
      case Committed(db', c) => Reply(db', Ok(ToOut(c)))
  }

  /** `GET /collections/{id}`: 404 exactly when the service finds nothing. */
  function Read(db: Db, id: int): (r: Response<CollectionOut>)
    ensures r.NotFound? <==> id !in db.collections
    ensures r.NotFound? ==> r.detail == ReadMissing
    ensures r.Ok? ==> r.body == ToOut(db.collections[id])
    ensures r.Ok? || r.NotFound?
  {
    match GetCollectionById(db, id)
    case None => NotFound(ReadMissing)
    case Some(c) => Ok(ToOut(c))
  }

  /** `GET /collections/{id}/products`: 404 both when the collection does
      not exist and when it has no product, since an empty list is falsy;
      otherwise its products. */
  function ReadProducts(db: Db, id: int): (r: Response<map<int, Product>>)
    ensures r.NotFound? <==>
              id !in db.collections || forall k | k in db.products :: db.products[k].collectionId != id
    ensures r.NotFound? ==> r.detail == ProductsMissing
    ensures r.Ok? ==> r.body != map[] && r.body == GetCollectionProducts(db, id).value
    ensures r.Ok? || r.NotFound?
  {
    match GetCollectionProducts(db, id)
    case None => NotFound(ProductsMissing)
    case Some(ps) =>
      if ps == map[] then
        NotFound(ProductsMissing)
      else
        assert exists k :: k in ps by {
          if forall k :: k !in ps {
            // `ps` would be the empty map
          }
        }
        Ok(ps)
  }

  /** An existing but empty collection reads as missing on this endpoint. */
  lemma EmptyCollectionReadsAsMissing(db: Db, data: CollectionCreate, freshId: int)
    requires Valid(db)
    requires freshId !in db.collections
    requires CreateCollection(db, data, freshId).Committed?
    ensures Read(CreateCollection(db, data, freshId).db, freshId).Ok?
    ensures ReadProducts(CreateCollection(db, data, freshId).db, freshId) == NotFound(ProductsMissing)
  {
    CreatedCollectionIsEmpty(db, data, freshId);
  }

  /** `PATCH /collections/{id}`: 404 when the service finds nothing, 500
      when the database refuses the write (a `null` field, or a new name
      already taken), else the updated row with the fields the body sent. */
  function Update(db: Db, id: int, u: CollectionUpdate): (r: Reply<CollectionOut>)
    ensures r.response.NotFound? <==> id !in db.collections
    ensures r.response.NotFound? ==> r.response.detail == UpdateMissing
    ensures id in db.collections ==>
              (r.response.Ok? <==>
                 !u.name.Null? && !u.quantity.Null? &&
                 (u.name.Value? ==> NameFree(db.collections, u.name.value, Some(id))))
    ensures r.response.Ok? ==>
              && r.response.body.id == db.collections[id].id
              && r.response.body.name == (if u.name.Value? then u.name.value else db.collections[id].name)
              && r.response.body.quantity == Some(if u.quantity.Value? then u.quantity.value else db.collections[id].quantity)
    ensures !r.response.Ok? ==> r.db == db
    ensures r.response.Ok? ==>
              && id in r.db.collections
              && r.db == db.(collections := db.collections[id := r.db.collections[id]])
              && r.db.collections[id].id == db.collections[id].id
              && r.response.body == ToOut(r.db.collections[id])
    ensures !r.response.Unprocessable?
  {
    match UpdateCollection(db, id, u)
    case None => Reply(db, NotFound(UpdateMissing))
    case Some(IntegrityError) => Reply(db, ServerError)
    case Some(Committed(db', c)) =>
      Reply(db', Ok(ToOut(c)))
  }

  /** `DELETE /collections/{id}`: 404 when the service finds nothing;
      otherwise a `null` body, and the collection with everything that
      cascades from it is gone. */
  function Remove(db: Db, id: int): (r: Reply<()>)
    ensures r.response.NotFound? <==> id !in db.collections
    ensures r.response.NotFound? ==> r.response.detail == DeleteMissing && r.db == db
    ensures r.response.Ok? ==> r.db == DeleteCollectionCascade(db, id) && Read(r.db, id).NotFound?
    ensures r.response.Ok? || r.response.NotFound?
  {
    match DeleteCollection(db, id)
    case None => Reply(db, NotFound(DeleteMissing))
    case Some((db', _)) => Reply(db', Ok(()))
  }

  /** Deleting twice: the second request finds nothing. */
  lemma RemoveTwice(db: Db, id: int)
    requires id in db.collections
    ensures Remove(db, id).response.Ok?
    ensures Remove(Remove(db, id).db, id).response == NotFound(DeleteMissing)
  {
  }
}
