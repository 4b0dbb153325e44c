/** The request and response bodies of the collection endpoints
    (backend/api/schemas/collection.py) and how a JSON body is validated into
    them. A JSON field may be missing, explicitly `null`, or carry a value;
    the three are kept apart because a partial update treats a missing field
    and a `null` one differently. */
module Schemas {
  import opened Wrappers
  import Models

  /** `CollectionCreate`: a name and a quantity that may be `None`; no id. */
  datatype CollectionCreate = CollectionCreate(name: string, quantity: Option<int>)

  /** The quantity a create body gets when it leaves the field out. */
  const DefaultQuantity := 0

  /** Validation of a create body: the name is required and may not be
      `null` (the request is refused, with status 422, otherwise); a missing
      quantity defaults to 0, an explicit `null` stays `None`. */
  function ParseCollectionCreate(name: Field<string>, quantity: Field<int>): (r: Option<CollectionCreate>)
    ensures r.Some? <==> name.Value?
    ensures r.Some? ==> r.value.name == name.value
    ensures r.Some? ==> r.value.quantity == match quantity
                                            case Unset => Some(DefaultQuantity)
                                            case Null => None
                                            case Value(q) => Some(q)
  {
    if !name.Value? then None
    else
      var q := match quantity
        case Unset => Some(DefaultQuantity)
        case Null => None
        case Value(q) => Some(q);
      Some(CollectionCreate(name.value, q))
  }

  /** `CollectionUpdate`: both fields optional, each kept as sent. */
  datatype CollectionUpdate = CollectionUpdate(name: Field<string>, quantity: Field<int>)

  /** The update carrying no field at all. */
  const EmptyUpdate := CollectionUpdate(Unset, Unset)

  /** `model_dump(exclude_unset=True)`: the names of the fields the body
      actually sent, `null` ones included. */
  function SetFields(u: CollectionUpdate): (names: set<string>)
    ensures "name" in names <==> !u.name.Unset?
    ensures "quantity" in names <==> !u.quantity.Unset?
    ensures names <= {"name", "quantity"}
    ensures names == {} <==> u == EmptyUpdate
  {
    (if u.name.Unset? then {} else {"name"}) + (if u.quantity.Unset? then {} else {"quantity"})
  }

  /** The response body `Collection`: the base fields plus the integer id. */
  datatype CollectionOut = CollectionOut(id: int, name: string, quantity: Option<int>)

  /** Serialising a stored collection: every field carried over, so the
      stored row is recovered from the body. */
  function ToOut(c: Models.Collection): (out: CollectionOut)
    ensures out.id == c.id && out.name == c.name && out.quantity == Some(c.quantity)
  {
    CollectionOut(c.id, c.name, Some(c.quantity))
  }

  /** Different stored rows give different response bodies. */
  lemma ToOutInjective(a: Models.Collection, b: Models.Collection)
    requires ToOut(a) == ToOut(b)
    ensures a == b
  {
  }
}
