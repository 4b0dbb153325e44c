/** The collection form dialog (frontend/src/components/admin/CollectionFromDialog.tsx):
    how its two text fields are seeded from the collection being edited, and
    what a submit hands back to the screen. */
module CollectionForm {
  import opened Wrappers
  import opened Text

  /** `AdminCollectionFormData`. The quantity is a JavaScript number, which
      after `parseInt` may be `NaN`: `None` stands for `NaN`. */
  datatype FormData = FormData(id: Option<string>, name: string, quantity: Option<int>)

  /** The dialog's own state: the two input fields, as text. */
  datatype Fields = Fields(name: string, quantity: string)

  /** The fields of a dialog opened to create a collection. */
  const Blank := Fields("", "")

  const RequiredMessage := "Preencha o campo obrigatório"

  /** `quantity.toString()`: the decimal text of the number, or "NaN". */
  function QuantityText(q: Option<int>): (t: string)
    ensures t != ""
    ensures ParseInt(t) == q
  {
    match q
    case Some(n) =>
      ParseIntToString(n);
      IntToString(n)
    case None =>
      ParseIntNotANumber("NaN");
      "NaN"
  }

  /** The effect run when the dialog opens or its collection changes: an
      edited collection's name and quantity text, or blank fields. */
  function Seed(collection: Option<FormData>): (f: Fields)
    ensures collection.None? ==> f == Blank
    ensures collection.Some? ==> f.name == collection.value.name && f.quantity != ""
    ensures collection.Some? ==> ParseInt(f.quantity) == collection.value.quantity
  {
    match collection
    case None => Blank
    case Some(c) => Fields(c.name, QuantityText(c.quantity))
  }

  /** What a submit does: refused with a toast, or data handed to the screen. */
  datatype SubmitResult = Refused(message: string) | Submitted(data: FormData)

  /** `handleSubmit`: refused exactly when either field is empty; otherwise
      the screen gets the edited collection's id (none for a new one), the
      name as typed and the quantity as `parseInt` reads it. */
  function Submit(collection: Option<FormData>, fields: Fields): (r: SubmitResult)
    ensures r.Refused? <==> fields.name == "" || fields.quantity == ""
    ensures r.Refused? ==> r.message == RequiredMessage
    ensures r.Submitted? ==> r.data.id == (if collection.Some? then collection.value.id else None)
    ensures r.Submitted? ==> r.data.name == fields.name && r.data.name != ""
    ensures r.Submitted? && AllDigits(fields.quantity) ==> r.data.quantity == Some(DecimalValue(fields.quantity))
    ensures r.Submitted? ==> r.data.quantity == ParseInt(fields.quantity)
  {
    if fields.name == "" || fields.quantity == "" then Refused(RequiredMessage)
    else
      Submitted(FormData(if collection.Some? then collection.value.id else None,
                         fields.name, ParseInt(fields.quantity)))
  }

  /** Opening the dialog on a collection with a name and submitting it
      untouched hands back that very collection, whatever its quantity —
      `NaN` included. */
  lemma SeedThenSubmit(c: FormData)
    requires c.name != ""
    ensures Submit(Some(c), Seed(Some(c))) == Submitted(c)
  {
  }

  /** A dialog opened for a new collection cannot be submitted untouched. */
  lemma BlankIsRefused()
    ensures Submit(None, Seed(None)) == Refused(RequiredMessage)
  {
  }
}
