/** The collection management screen (frontend/src/pages/admin/CollectionsManagement.tsx):
    the row-to-view-model mapping, the mount-time load, the search by name,
    and the add / edit / delete handlers that keep the in-memory list in step
    with the server. */
module CollectionsManagement {
  import opened Wrappers
  import opened Text
  import Lists
  import opened ApiClient
  import opened Screen
  import opened CollectionForm

  /** A collection as the backend returns it. */
  datatype ApiCollection = ApiCollection(id: int, name: string, quantity: int)

  /** The screen's view-model of a collection. */
  datatype Collection = Collection(id: string, name: string, quantity: int)

  /** The JSON bodies this screen sends: the create payload carries only the
      name, while an edit sends the whole form, id and quantity included. */
  datatype CollectionBody = NameOnly(name: string) | WholeForm(form: FormData)

  const AddedMessage := "Coleção adicionada com sucesso!"
  const UpdatedMessage := "Coleção atualizada com sucesso!"
  const RemovedMessage := "Coleção removida com sucesso!"
  const InvalidEditMessage := "Dados inválidos para edição."

  /** `mapApiCollection`: the id in decimal, which parses back to the row's
      id, and the name and quantity as they are. */
  function MapApiCollection(row: ApiCollection): (c: Collection)
    ensures c.id == IntToString(row.id) && ParseInt(c.id) == Some(row.id)
    ensures c.name == row.name && c.quantity == row.quantity
  {
    ParseIntToString(row.id);
    Collection(IntToString(row.id), row.name, row.quantity)
  }

  /** Mapping keeps rows apart: different rows give different view-models,
      and rows with different ids give different view-model ids. */
  lemma MapApiCollectionInjective(a: ApiCollection, b: ApiCollection)
    ensures a != b ==> MapApiCollection(a) != MapApiCollection(b)
    ensures a.id != b.id ==> MapApiCollection(a).id != MapApiCollection(b).id
  {
    if MapApiCollection(a).id == MapApiCollection(b).id {
      assert Some(a.id) == ParseInt(MapApiCollection(a).id) == ParseInt(MapApiCollection(b).id) == Some(b.id);
    }
  }

  /** The screen's state: the listed collections, the loading flag and the
      error banner. */
  datatype CollectionsScreen = CollectionsScreen(collections: seq<Collection>, loading: bool, error: Option<string>)

  /** The mount-time load. The list request's own failure is caught on the
      spot and turned into an empty list, so the error banner is never set:
      the screen ends with every row mapped, in order, or with nothing. */
  function LoadCollections(response: Outcome<seq<ApiCollection>>): (s: CollectionsScreen)
    ensures !s.loading && s.error.None?
    ensures response.Rejected? ==> s.collections == []
    ensures response.Resolved? ==> |s.collections| == |response.value|
    ensures response.Resolved? ==>
              forall i :: 0 <= i < |s.collections| ==> s.collections[i] == MapApiCollection(response.value[i])
  {
    var rows := if response.Resolved? then response.value else [];
    CollectionsScreen(seq(|rows|, i requires 0 <= i < |rows| => MapApiCollection(rows[i])), false, None)
  }

  /** The search term occurs, ignoring case, in the name. */
  predicate NameMatches(c: Collection, term: string)
  {
    Contains(Lower(c.name), Lower(term))
  }

  /** `filteredCollections`: in their order, exactly the collections whose
      lower-cased name contains the lower-cased term. */
  function FilterCollections(cols: seq<Collection>, term: string): (shown: seq<Collection>)
    ensures Lists.IsSubsequence(shown, cols)
    ensures forall i :: 0 <= i < |shown| ==> NameMatches(shown[i], term)
    ensures forall c | c in cols && NameMatches(c, term) :: multiset(shown)[c] == multiset(cols)[c]
    ensures multiset(shown) <= multiset(cols)
  {
    var keep := (c: Collection) => NameMatches(c, term);
    Lists.FilterMultiset(cols, keep);
    Lists.Filter(cols, keep)
  }

  /** An empty search term shows every collection. */
  lemma FilterCollectionsEmptyTerm(cols: seq<Collection>)
    ensures FilterCollections(cols, "") == cols
  {
    forall i | 0 <= i < |cols|
      ensures NameMatches(cols[i], "")
    {
      ContainsEmpty(Lower(cols[i].name));
    }
    Lists.FilterKeepsAll(cols, c => NameMatches(c, ""));
  }

  /** `toBackendPayload`: only the name is sent on create. */
  function CreatePayload(form: FormData): (body: CollectionBody)
    ensures body.NameOnly? && body.name == form.name
  {
    NameOnly(form.name)
  }

  /** The create payload ignores the quantity typed in the form (and any
      id): forms with the same name send the same body. */
  lemma CreatePayloadIgnoresQuantity(a: FormData, b: FormData)
    requires a.name == b.name
    ensures CreatePayload(a) == CreatePayload(b)
  {
  }

  /** `handleAddCollection`: POST of the name to /collections; a created
      collection is mapped and appended at the end, anything else leaves the
      list alone and shows the error. */
  function AddCollection(items: seq<Collection>, form: FormData,
                         response: Outcome<ApiCollection>): (h: Handled<Collection, CollectionBody>)
    ensures h.sent == Some(CreateCall(Collections, NameOnly(form.name)))
    ensures response.Resolved? ==>
              |h.items| == |items| + 1 && h.items[..|items|] == items &&
              h.items[|items|] == MapApiCollection(response.value) &&
              h.notice == Some(Success(AddedMessage))
    ensures response.Rejected? ==> h.items == items && h.notice == Some(Failure(response.error.message))
  {
    var call := CreateCall(Collections, CreatePayload(form));
    match response
    case Rejected(e) => Handled(items, Some(call), Some(Failure(e.message)))
    case Resolved(created) =>
      var items' := items + [MapApiCollection(created)];
      assert items'[..|items|] == items;
      Handled(items', Some(call), Some(Success(AddedMessage)))
  }

  /** `handleEditCollection`: a missing or empty id stops it with no
      request. Otherwise the whole form is PATCHed to /collections/<id>; on
      success every listed collection whose id equals the saved one's mapped
      id is replaced by it, and the others stay where they were. */
  function EditCollection(items: seq<Collection>, form: FormData,
                          response: Outcome<ApiCollection>): (h: Handled<Collection, CollectionBody>)
    ensures !Truthy(form.id) ==> h == Handled(items, None, Some(Failure(InvalidEditMessage)))
    ensures Truthy(form.id) ==> h.sent == Some(UpdateCall(Collections, form.id.value, WholeForm(form)))
    ensures |h.items| == |items|
    ensures Truthy(form.id) && response.Resolved? ==>
              forall i :: 0 <= i < |items| ==>
                h.items[i] == if items[i].id == MapApiCollection(response.value).id
                              then MapApiCollection(response.value) else items[i]
    ensures response.Rejected? ==> h.items == items
  {
    if !Truthy(form.id) then Handled(items, None, Some(Failure(InvalidEditMessage)))
    else
      var call := UpdateCall(Collections, form.id.value, WholeForm(form));
      match response
      case Rejected(e) => Handled(items, Some(call), Some(Failure(e.message)))
      case Resolved(saved) =>
        var mapped := MapApiCollection(saved);
        Lists.ReplaceWhereEffect(items, (c: Collection) => c.id == mapped.id, mapped);
        Handled(Lists.ReplaceWhere(items, (c: Collection) => c.id == mapped.id, mapped), Some(call),
                Some(Success(UpdatedMessage)))
  }

  /** Saving the same answer twice leaves the list as saving it once. */
  lemma EditCollectionIdempotent(items: seq<Collection>, form: FormData, saved: ApiCollection)
    requires Truthy(form.id)
    ensures var once := EditCollection(items, form, Resolved(saved)).items;
            EditCollection(once, form, Resolved(saved)).items == once
  {
    var once := EditCollection(items, form, Resolved(saved)).items;
    var twice := EditCollection(once, form, Resolved(saved)).items;
    assert |twice| == |once|;
    forall i | 0 <= i < |once|
      ensures twice[i] == once[i]
    {
    }
  }

  /** `handleDeleteCollection`: with no collection pending deletion nothing
      happens. Otherwise DELETE /collections/<id>; on success every
      collection with that id leaves the list and the others stay, in order. */
  function DeleteCollection(items: seq<Collection>, pending: Option<Collection>,
                            response: Outcome<()>): (h: Handled<Collection, CollectionBody>)
    ensures pending.None? ==> h == Handled(items, None, None)
    ensures pending.Some? ==> h.sent == Some(Bodiless(RemoveCall(Collections, pending.value.id)))
    ensures pending.Some? && response.Resolved? ==>
              && (forall i :: 0 <= i < |h.items| ==> h.items[i].id != pending.value.id)
              && Lists.IsSubsequence(h.items, items)
              && (forall c | c in items && c.id != pending.value.id :: multiset(h.items)[c] == multiset(items)[c])
    ensures response.Rejected? ==> h.items == items
  {
    if pending.None? then Handled(items, None, None)
    else
      var id := pending.value.id;
      var call := Bodiless(RemoveCall(Collections, id));
      match response
      case Rejected(e) => Handled(items, Some(call), Some(Failure(e.message)))
      case Resolved(_) =>
        var keep := (c: Collection) => c.id != id;
        Lists.FilterMultiset(items, keep);
        Handled(Lists.Filter(items, keep), Some(call), Some(Success(RemovedMessage)))
  }

  /** Adding a collection under an id not yet listed and then deleting it
      gives the original list back. */
  lemma AddThenDelete(items: seq<Collection>, form: FormData, created: ApiCollection)
    requires forall i :: 0 <= i < |items| ==> items[i].id != MapApiCollection(created).id
    ensures var added := AddCollection(items, form, Resolved(created)).items;
            DeleteCollection(added, Some(MapApiCollection(created)), Resolved(())).items == items
  {
    var c := MapApiCollection(created);
    var added := items + [c];
    assert AddCollection(items, form, Resolved(created)).items == added;
    Lists.FilterKeepsAll(items, (x: Collection) => x.id != c.id);
    Lists.FilterAppendDropped(items, c, (x: Collection) => x.id != c.id);
  }
}
