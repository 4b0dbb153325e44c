# Admin console of the recommendation-system store, in Dafny

This project models the admin console of a small e-commerce catalogue and the backend
endpoints it relies on. On the frontend side there are four parts: the REST client
wrapper, the products screen, the collections screen with its form dialog, and the
dashboard. On the backend side there are the collection tables and schemas, the
collection service and router, the statistics service, and the cross-origin settings.

Everything is written as pure functions over immutable values:

- A screen handler takes the list it shows, the form it was given and the outcome of
  its one API request. It returns the new list, the request it sent and the toast it
  showed.
- A backend operation takes a database, a map from primary key to row per table, and
  returns the database after it.
- What the network, the database or the clock would supply is a parameter: a request
  outcome, or the fresh id the database assigns.

Modules, one per source file or component:

| module | file | models |
|---|---|---|
| `Wrappers` | wrappers.dfy | `Option` |
| `Text` | text.dfy | JavaScript/Python string behaviour the core relies on: `split`, `trim`/`strip`, `toLowerCase`, `includes`, `String(n)`, `parseInt` |
| `Lists` | lists.dfy | `filter` and the replace-by-predicate `map` the screens use |
| `ApiClient` | api_client.dfy | frontend/src/lib/api.ts |
| `Screen` | screen.dfy | what a handler leaves behind: list, request sent, toast |
| `ProductsManagement` | products_management.dfy | frontend/src/pages/admin/ProductsManagement.tsx |
| `CollectionForm` | collection_form.dfy | frontend/src/components/admin/CollectionFromDialog.tsx |
| `CollectionsManagement` | collections_management.dfy | frontend/src/pages/admin/CollectionsManagement.tsx |
| `AdminDashboard` | admin_dashboard.dfy | frontend/src/pages/admin/AdminDashboard.tsx |
| `Models` | models.dfy | backend/api/models/collection.py, backend/api/models/product.py |
| `Schemas` | schemas.dfy | backend/api/schemas/collection.py |
| `CollectionService` | collection_service.dfy | backend/api/services/collection.py |
| `CollectionRouter` | collection_router.dfy | backend/api/routers/collection.py |
| `Stats` | stats.dfy | backend/api/services/stats.py, with the shapes of backend/api/schemas/stats.py |
| `Cors` | cors.dfy | the `FRONTEND_ORIGIN` handling of backend/api/main.py |

Where the code and its documentation disagree, the model follows the code:

- A `quantity` sent explicitly as `null` on create is accepted by the schema. The ORM
  leaves a `None` attribute out of the INSERT when the column has a default, so the
  row is stored with quantity 0, as if the field were missing. On update, the same
  `null` is written as SQL `NULL`, and the NOT NULL column refuses it.
- `GET /collections/{id}/products` answers 404 for an existing collection with no
  products, because an empty list is falsy. It does not answer 200 with an empty list.
- The collection form accepts any quantity text that is non-empty. `parseInt` of a
  non-numeric text gives `NaN`, which the model writes as `None`.
- The collections screen sends only the name on create, so the quantity typed in the
  dialog is dropped. On edit it sends the whole form.

## Model

| member | source | states |
|---|---|---|
| `Text.Split` | frontend/src/pages/admin/ProductsManagement.tsx:80-82 | `split(",")` always yields at least one piece; no piece holds the separator; joining the pieces with it gives the input back |
| `Text.SplitJoin` | frontend/src/pages/admin/ProductsManagement.tsx:80-82 | splitting a join of separator-free parts gives the parts back |
| `Text.Trim` | frontend/src/pages/admin/ProductsManagement.tsx:83 | `trim()` leaves no whitespace at either end and never lengthens |
| `Text.TrimSplitsOffSpace` | frontend/src/pages/admin/ProductsManagement.tsx:83 | `trim()` only removes whitespace: the input is some whitespace, then the trimmed text, then some whitespace |
| `Text.TrimKeepsChars` | frontend/src/pages/admin/ProductsManagement.tsx:83 | every character of the trimmed text occurs in the input |
| `Text.TrimPadded` | frontend/src/pages/admin/ProductsManagement.tsx:83 | trimming whitespace-padded clean text gives that text back |
| `Text.TrimOfTrimmed` | frontend/src/pages/admin/ProductsManagement.tsx:83 | trimming is the identity on text with clean ends |
| `Text.TrimAndDropEmptyMembers` | frontend/src/pages/admin/ProductsManagement.tsx:83-84 | after `.map(trim).filter(Boolean)`, a string is present exactly when it is non-empty and the trim of some piece |
| `Text.TrimAndDropEmptyIsFilter` | frontend/src/pages/admin/ProductsManagement.tsx:83-84 | `.map(trim).filter(Boolean)` is the trimmed pieces, in order and with their repeats, with the empty ones removed |
| `Text.SplitTrimmedIsFilter` | backend/api/main.py:41 | the split-trim-drop pipeline is the trimmed split pieces with the empty ones removed: an order-preserving subsequence that keeps each non-empty piece as often as it occurs |
| `Text.SplitTrimmed` | backend/api/main.py:41 | every piece of the split-trim-drop pipeline is non-empty, trimmed and free of the separator |
| `Text.SplitTrimmedMembers` | backend/api/main.py:41 | a string is a piece of the pipeline exactly when it is non-empty and the trim of some split piece |
| `Text.SplitTrimmedJoin` | frontend/src/pages/admin/ProductsManagement.tsx:80-85 | joining clean parts and running the pipeline gives the parts back |
| `Text.SplitTrimmedSpaced` | frontend/src/pages/admin/ProductsManagement.tsx:80-85 | three clean parts joined by a separator and a blank come back without the blanks |
| `Text.SplitTrimmedSpacedList` | frontend/src/pages/admin/ProductsManagement.tsx:80-85 | `"M, L, XL"` gives `["M", "L", "XL"]` |
| `Text.SplitTrimmedOnlyBlanks` | frontend/src/pages/admin/ProductsManagement.tsx:80-85 | `" , "` gives no piece at all |
| `Text.Lower` | frontend/src/pages/admin/ProductsManagement.tsx:107 | `toLowerCase()` keeps the length and lowers each character on its own |
| `Text.LowerIdempotent` | frontend/src/pages/admin/ProductsManagement.tsx:107 | lowered text has no upper-case letter, and lowering it again changes nothing |
| `Text.Contains` | frontend/src/pages/admin/ProductsManagement.tsx:107 | a needle is only included in a text at least as long |
| `Text.ContainsIff` | frontend/src/pages/admin/ProductsManagement.tsx:107 | `includes` holds exactly when the needle occurs at some position |
| `Text.ContainsEmpty` | frontend/src/pages/admin/CollectionsManagement.tsx:65 | the empty term is included in every text |
| `Text.NatToString` | frontend/src/pages/admin/ProductsManagement.tsx:76 | `String(n)` of a natural number is digits only, with no leading zero, and its decimal value is `n` |
| `Text.IntToString` | frontend/src/pages/admin/ProductsManagement.tsx:69 | `String(n)` of an integer is the digits of its magnitude, with `-` in front when negative |
| `Text.NatToStringInjective` | frontend/src/pages/admin/ProductsManagement.tsx:76 | different numbers give different decimal strings |
| `Text.ParseInt` | frontend/src/components/admin/CollectionFromDialog.tsx:52 | `parseInt` of a plain digit string is its decimal value |
| `Text.ParseIntNotANumber` | frontend/src/components/admin/CollectionFromDialog.tsx:52 | `parseInt` of text starting with a character other than a blank, a sign or a digit is `NaN` |
| `Text.ParseIntToString` | frontend/src/components/admin/CollectionFromDialog.tsx:31-52 | `parseInt(String(n))` is `n` for every integer |
| `Lists.Filter` | frontend/src/pages/admin/ProductsManagement.tsx:184 | `filter` keeps an order-preserving subsequence of accepted elements |
| `Lists.FilterMultiset` | frontend/src/pages/admin/ProductsManagement.tsx:184 | `filter` drops nothing accepted: each accepted value occurs as often as before, and nothing new appears |
| `Lists.FilterKeepsAll` | frontend/src/pages/admin/CollectionsManagement.tsx:65 | when every element is accepted, `filter` is the identity |
| `Lists.FilterIdempotent` | frontend/src/pages/admin/CollectionsManagement.tsx:65 | filtering twice with one predicate is filtering once |
| `Lists.FilterAgreeing` | frontend/src/pages/admin/ProductsManagement.tsx:105-108 | two predicates that agree on the elements filter alike |
| `Lists.FilterAppendDropped` | frontend/src/pages/admin/CollectionsManagement.tsx:108 | a rejected element appended at the end disappears again |
| `Lists.ReplaceWhere` | frontend/src/pages/admin/ProductsManagement.tsx:169 | `map(p => match ? y : p)` keeps the length |
| `Lists.ReplaceWhereEffect` | frontend/src/pages/admin/ProductsManagement.tsx:169 | matching elements become `y`, the others stay in place, and nothing else appears |
| `Lists.ReplaceWhereNoMatch` | frontend/src/pages/admin/CollectionsManagement.tsx:93 | without a match the list is unchanged |
| `Lists.ReplaceWhereIdempotent` | frontend/src/pages/admin/CollectionsManagement.tsx:93 | replacing with a value that itself matches is idempotent |
| `ApiClient.BaseUrl` | frontend/src/lib/api.ts:3 | the base URL is the setting when non-empty, else `http://localhost:3000`; never empty |
| `ApiClient.BaseUrlResolvesOnce` | frontend/src/lib/api.ts:3 | an empty setting is the same as none; setting the resolved URL resolves to it again |
| `ApiClient.SetAuthToken` | frontend/src/lib/api.ts:13-22 | after `setAuthToken(t)`, `getAuthToken()` is `t`, and the header agrees with it |
| `ApiClient.GetAuthToken` | frontend/src/lib/api.ts:22 | in a consistent state the token returned is the one the `Authorization` header carries, and a header exists exactly when the token is truthy |
| `ApiClient.BearerToken` | frontend/src/lib/api.ts:16 | when a header yields a token, the header is `Bearer ` followed by that token |
| `ApiClient.BearerOfPrefix` | frontend/src/lib/api.ts:16 | a `Bearer <token>` header gives back its token |
| `ApiClient.SetAuthTokenHeader` | frontend/src/lib/api.ts:13-20 | a header exists exactly when the token is truthy; it is `Bearer <token>` and gives the token back; an empty-string token is stored with no header |
| `ApiClient.GetSessionIdFromToken` | frontend/src/lib/api.ts:24-33 | without a truthy token the session id is `null`; otherwise it is only what decoding yields |
| `ApiClient.FirstTruthy` | frontend/src/lib/api.ts:38-39 | an `a \|\| b \|\| … \|\| fallback` chain gives the first truthy candidate, or the fallback when there is none |
| `ApiClient.NormalizeError` | frontend/src/lib/api.ts:35-43 | the rejection message is never empty; it is one of the candidates or the fixed fallback; the status is the response's |
| `ApiClient.NormalizeErrorPrecedence` | frontend/src/lib/api.ts:38-39 | server message first, then status text, then the error's own message (also when a response exists with both of its messages falsy), then `"Erro ao chamar a API"` |
| `ApiClient.ItemPath` | frontend/src/lib/api.ts:62 | the item path is the collection path, a slash and the id |
| `ApiClient.ItemPathInjective` | frontend/src/lib/api.ts:79-85 | different ids give different item paths |
| `ApiClient.ListCall` | frontend/src/lib/api.ts:63 | `list()` is a GET on `/<resource>`, sent without a body |
| `ApiClient.CreateCall` | frontend/src/lib/api.ts:61 | `create(data)` POSTs the data to `/<resource>` |
| `ApiClient.GetCall` | frontend/src/lib/api.ts:62 | `get(id)` is a GET on `/<resource>/<id>` |
| `ApiClient.UpdateCall` | frontend/src/lib/api.ts:64 | `update(id, data)` PATCHes the data to `/<resource>/<id>` |
| `ApiClient.RemoveCall` | frontend/src/lib/api.ts:65 | `remove(id)` is a DELETE on `/<resource>/<id>` |
| `ApiClient.RecommendationParams` | frontend/src/lib/api.ts:96-99 | `product_id` is sent exactly when the id is truthy, and carries it |
| `ApiClient.RecommendationsCall` | frontend/src/lib/api.ts:95-100 | the recommendations call is a GET on `/recommendations` with no body; its query string holds one `product_id` parameter carrying the id exactly when the id is truthy, and nothing otherwise |
| `ApiClient.QueryValue` | frontend/src/lib/api.ts:98 | the value a query string gives a name is that of its first parameter of that name, and absent exactly when no parameter has it |
| `ApiClient.RecommendationsQueryRoundTrip` | frontend/src/lib/api.ts:96-99 | reading `product_id` back from the query string gives the id when truthy, and nothing otherwise |
| `ApiClient.FalsyIdIsNoId` | frontend/src/lib/api.ts:98 | a falsy id sends the same request as no id at all |
| `ProductsManagement.MapColors` | frontend/src/pages/admin/ProductsManagement.tsx:74-79 | a non-array colour field gives no colour; otherwise one colour per entry, in order. A missing name becomes `Cor <i+1>`; the hex is the own hex, `#000000` for null, the text itself, or the value's string form |
| `ProductsManagement.MapColorsUnnamedDistinct` | frontend/src/pages/admin/ProductsManagement.tsx:76 | two unnamed entries never get the same default name |
| `ProductsManagement.ParseSizes` | frontend/src/pages/admin/ProductsManagement.tsx:80-85 | an empty size field gives `["Único"]`; any other gives clean sizes |
| `ProductsManagement.ParseSizesInOrder` | frontend/src/pages/admin/ProductsManagement.tsx:80-85 | a non-empty size field gives its trimmed comma-separated pieces, in order and with repeats, with the empty ones removed |
| `ProductsManagement.ParseSizesMembers` | frontend/src/pages/admin/ProductsManagement.tsx:80-85 | a size is listed exactly when it is the non-empty trim of a comma-separated piece |
| `ProductsManagement.SerializeSizes` | frontend/src/pages/admin/ProductsManagement.tsx:115 | for any list, the joined field is empty exactly when there is no size or one empty size; when no size holds a comma, splitting the field at its commas gives the list back, padded or empty sizes included |
| `ProductsManagement.SizesRoundTrip` | frontend/src/pages/admin/ProductsManagement.tsx:110-120 | joining clean sizes with commas and parsing them back gives the sizes, or the placeholder for none |
| `ProductsManagement.ParseSizesExamples` | frontend/src/pages/admin/ProductsManagement.tsx:80-85 | `"M, L, XL"` lists three sizes; `" , "` lists none, not the placeholder |
| `ProductsManagement.FindCollectionName` | frontend/src/pages/admin/ProductsManagement.tsx:67 | `find(...)?.name` is the name of the first collection with the id, and absent exactly when none has it |
| `ProductsManagement.MapApiProduct` | frontend/src/pages/admin/ProductsManagement.tsx:66-91 | the view id is `String(row.id)` and parses back to it; the collection name is that of the first collection with the row's collection id, absent exactly when none has it; the other fields are copied; colours and sizes are normalised |
| `ProductsManagement.FilterProducts` | frontend/src/pages/admin/ProductsManagement.tsx:105-108 | the shown products are, in order, exactly those whose lower-cased name or category contains the lower-cased term |
| `ProductsManagement.FilterProductsEmptyTerm` | frontend/src/pages/admin/ProductsManagement.tsx:105-108 | an empty search shows every product |
| `ProductsManagement.FilterProductsIgnoresCase` | frontend/src/pages/admin/ProductsManagement.tsx:105-108 | lower-casing the term does not change the result |
| `ProductsManagement.ToBackendPayload` | frontend/src/pages/admin/ProductsManagement.tsx:110-120 | fields are renamed; the `size` field is the comma join of the sizes; an empty or missing model becomes `"manual"`; clean sizes survive the join and the parse back |
| `ProductsManagement.MapColorsOfStored` | frontend/src/pages/admin/ProductsManagement.tsx:74-79 | colours stored as name/hex objects map back to themselves |
| `ProductsManagement.FormRoundTrip` | frontend/src/pages/admin/ProductsManagement.tsx:110-120 | form to payload to stored row to view-model gives back the form's name, price, category, colours, sizes and collection id, with the model defaulted |
| `ProductsManagement.AddProductAsWritten` | frontend/src/pages/admin/ProductsManagement.tsx:122-137 | as written: the list never changes, and every path ends in an error toast |
| `ProductsManagement.AddProduct` | frontend/src/pages/admin/ProductsManagement.tsx:122-137 | a falsy collection id sends nothing; otherwise POST /products, and on success the mapped product is appended with nothing else changed |
| `ProductsManagement.AddProductAsWrittenLosesCreatedProduct` | frontend/src/pages/admin/ProductsManagement.tsx:127-130 | for every successful create, the as-written list differs from the intended one, which holds the created product |
| `ProductsManagement.EditProduct` | frontend/src/pages/admin/ProductsManagement.tsx:139-178 | no id or collection sends nothing; otherwise PATCH /products/<id>, and on success products with the saved id are replaced while the others and the length stay |
| `ProductsManagement.DeleteProduct` | frontend/src/pages/admin/ProductsManagement.tsx:180-193 | nothing pending sends nothing; on success every product with the id leaves and the others stay, in order; on failure the list is kept |
| `ProductsManagement.LoadProducts` | frontend/src/pages/admin/ProductsManagement.tsx:59-103 | a failed product request gives no products; otherwise product i is row i mapped against the loaded collections (none when their request failed); loading ends with no error |
| `ProductsManagement.LoadShowsSavedForm` | frontend/src/pages/admin/ProductsManagement.tsx:59-120 | a product saved from a form and loaded back shows the form's name, price, category, colours, sizes and collection id, under its id and with its collection's name |
| `CollectionForm.QuantityText` | frontend/src/components/admin/CollectionFromDialog.tsx:31 | `quantity.toString()` is never empty and `parseInt` reads it back |
| `CollectionForm.Seed` | frontend/src/components/admin/CollectionFromDialog.tsx:27-39 | editing seeds the name and the quantity text; creating starts blank |
| `CollectionForm.Submit` | frontend/src/components/admin/CollectionFromDialog.tsx:41-56 | refused with `"Preencha o campo obrigatório"` exactly when a field is empty; otherwise the id comes from the edited collection and the quantity is `parseInt` of the text |
| `CollectionForm.SeedThenSubmit` | frontend/src/components/admin/CollectionFromDialog.tsx:27-56 | submitting an untouched edit form of a named collection gives that collection back |
| `CollectionForm.BlankIsRefused` | frontend/src/components/admin/CollectionFromDialog.tsx:33-47 | submitting an untouched create form is refused |
| `CollectionsManagement.MapApiCollection` | frontend/src/pages/admin/CollectionsManagement.tsx:32-38 | the view id is `String(row.id)` and parses back to it; name and quantity are copied |
| `CollectionsManagement.MapApiCollectionInjective` | frontend/src/pages/admin/CollectionsManagement.tsx:32-38 | different rows, and different ids, stay different after mapping |
| `CollectionsManagement.LoadCollections` | frontend/src/pages/admin/CollectionsManagement.tsx:40-63 | a failed request gives an empty list; each row is mapped in order; loading ends with no error |
| `CollectionsManagement.FilterCollections` | frontend/src/pages/admin/CollectionsManagement.tsx:65 | the shown collections are, in order, exactly those whose lower-cased name contains the lower-cased term |
| `CollectionsManagement.FilterCollectionsEmptyTerm` | frontend/src/pages/admin/CollectionsManagement.tsx:65 | an empty search shows every collection |
| `CollectionsManagement.CreatePayload` | frontend/src/pages/admin/CollectionsManagement.tsx:67-69 | the create body carries the name only |
| `CollectionsManagement.CreatePayloadIgnoresQuantity` | frontend/src/pages/admin/CollectionsManagement.tsx:67-69 | forms that differ only in quantity send the same body |
| `CollectionsManagement.AddCollection` | frontend/src/pages/admin/CollectionsManagement.tsx:71-82 | POST of the name; on success the mapped collection is appended; on failure the list is kept and the error shown |
| `CollectionsManagement.EditCollection` | frontend/src/pages/admin/CollectionsManagement.tsx:85-102 | no id sends nothing; otherwise the whole form is PATCHed, and on success collections with the saved id are replaced while the others stay |
| `CollectionsManagement.EditCollectionIdempotent` | frontend/src/pages/admin/CollectionsManagement.tsx:85-102 | applying the same saved answer twice is applying it once |
| `CollectionsManagement.DeleteCollection` | frontend/src/pages/admin/CollectionsManagement.tsx:104-117 | nothing pending sends nothing; on success every collection with the id leaves and the others stay, in order |
| `CollectionsManagement.AddThenDelete` | frontend/src/pages/admin/CollectionsManagement.tsx:71-117 | adding a collection under a new id and then deleting it restores the list |
| `AdminDashboard.FromCall` | frontend/src/pages/admin/AdminDashboard.tsx:22-30 | a resolved request yields the statistics; a rejected one throws the interceptor's `Error` with its message |
| `AdminDashboard.CaughtMessage` | frontend/src/pages/admin/AdminDashboard.tsx:28 | an `Error`'s own message, or `"Erro ao carregar dados do servidor!"` for any other thrown value |
| `AdminDashboard.BeginFetch` | frontend/src/pages/admin/AdminDashboard.tsx:19-20 | the fetch turns loading on and changes nothing else |
| `AdminDashboard.EndFetch` | frontend/src/pages/admin/AdminDashboard.tsx:22-33 | success stores the statistics and clears the error; failure sets the message and keeps the statistics; loading ends in both cases |
| `AdminDashboard.Fetch` | frontend/src/pages/admin/AdminDashboard.tsx:19-37 | after the effect there is no error exactly when it succeeded, and statistics are present when it succeeded or were present before |
| `AdminDashboard.Banner` | frontend/src/pages/admin/AdminDashboard.tsx:63 | the banner shows exactly when the error is truthy, with its text |
| `AdminDashboard.FailedRequestShowsBanner` | frontend/src/pages/admin/AdminDashboard.tsx:22-33 | a failed API request always shows the banner with the interceptor's message |
| `AdminDashboard.SuccessClearsBanner` | frontend/src/pages/admin/AdminDashboard.tsx:22-26 | a successful fetch hides the banner and stores the statistics |
| `AdminDashboard.Cards` | frontend/src/pages/admin/AdminDashboard.tsx:40-44 | three cards in the order products, categories, collections; they have values exactly when statistics are loaded, taken from the matching fields |
| `AdminDashboard.CategoryRows` | frontend/src/pages/admin/AdminDashboard.tsx:47 | the per-category list is empty without statistics, else the loaded one |
| `AdminDashboard.TotalProducts` | frontend/src/pages/admin/AdminDashboard.tsx:48 | the total is 0 without statistics, else the products count |
| `AdminDashboard.QuantityLabel` | frontend/src/pages/admin/AdminDashboard.tsx:103 | `"item"` exactly when the quantity is 1, else `"itens"` |
| `AdminDashboard.DashboardOfStats` | frontend/src/pages/admin/AdminDashboard.tsx:40-48 | on backend statistics the cards show the product, category and collection counts; the listed quantities add up to the total; each bar's quantity lies between 1 and the total |
| `AdminDashboard.NoBarsBeforeLoad` | frontend/src/pages/admin/AdminDashboard.tsx:47-48 | before loading there are no bars, the total is 0 and the cards are empty |
| `Models.EmptyDbValid` | backend/api/models/collection.py:6-11 | the empty database meets every table constraint |
| `Models.StoredColor` | backend/api/models/product.py:12 | a colour field left unset is stored as `[]`; an explicit `null` is stored as JSON `null`; a list is stored as sent |
| `Models.InsertProduct` | backend/api/models/product.py:9-23 | an insert commits exactly when every required column is given and the collection exists. The committed row holds the given name, price, category, size, description, image, model and collection id; `color` as stored above; `disponible` as given, or true when missing or `null`. Nothing else changes, and validity is kept |
| `Models.InsertProductDefaults` | backend/api/models/product.py:12-18 | a product inserted without colour or availability has no colours and is available |
| `Models.InsertProductExplicitNulls` | backend/api/models/product.py:12-18 | an explicit `null` colour and availability still commit: the colour is JSON `null` and the product is available |
| `Models.DeleteProduct` | backend/api/models/product.py:29-31 | deleting a product removes exactly it and its interactions, leaves the other rows as they were, and keeps validity |
| `Models.DeleteCollectionCascade` | backend/api/models/collection.py:13-18 | deleting a collection removes exactly it, its products and their interactions, leaves the other rows as they were, and keeps validity |
| `Schemas.ParseCollectionCreate` | backend/api/schemas/collection.py:7-15 | a create body validates exactly when the name is given; a missing quantity becomes 0; an explicit `null` stays `None` |
| `Schemas.SetFields` | backend/api/schemas/collection.py:18-22 | `exclude_unset` names exactly the fields the body sent, `null` ones included; none exactly for the empty update |
| `Schemas.ToOut` | backend/api/schemas/collection.py:25-31 | the response body carries the stored id, name and quantity |
| `Schemas.ToOutInjective` | backend/api/schemas/collection.py:25-31 | different stored rows give different response bodies |
| `CollectionService.CreateCollection` | backend/api/services/collection.py:8-16 | commits exactly when the name is unused; adds exactly that row under the fresh id, with the quantity sent or 0 when it is missing or `null`; keeps validity |
| `CollectionService.GetCollectionById` | backend/api/services/collection.py:26-30 | the row under the id, or `None` exactly when there is none |
| `CollectionService.GetCollectionProducts` | backend/api/services/collection.py:33-47 | `None` exactly when the collection is missing; otherwise exactly the products pointing at it |
| `CollectionService.DeleteCollection` | backend/api/services/collection.py:50-60 | `None` exactly when the id is unknown; otherwise the removed row and the database after the cascade |
| `CollectionService.Apply` | backend/api/services/collection.py:69-71 | only the fields sent are written; a `null` field is refused; the id never changes |
| `CollectionService.UpdateCollection` | backend/api/services/collection.py:63-76 | `None` exactly when the id is unknown; commits exactly when no field is `null` and a new name is unused; changes only that row |
| `CollectionService.EmptyUpdateIsNoOp` | backend/api/services/collection.py:69-76 | on any database, valid or not, an update that sends no field leaves it as it was |
| `CollectionService.UpdatePreservesValid` | backend/api/services/collection.py:63-76 | a committed update keeps keys, unique names and foreign keys valid |
| `CollectionService.GetAfterCreate` | backend/api/services/collection.py:8-30 | reading after a create gives the created row |
| `CollectionService.GetAfterDelete` | backend/api/services/collection.py:50-60 | after a delete the collection and every product pointing at it are gone |
| `CollectionService.CreatedCollectionIsEmpty` | backend/api/services/collection.py:33-47 | a collection just created has no products |
| `CollectionService.GetAfterUpdate` | backend/api/services/collection.py:63-76 | reading after an update gives the new row; the other collections read as before |
| `CollectionRouter.Create` | backend/api/routers/collection.py:19-22 | 422 without a name; with one, 200 exactly when the name is unused, else 500 with nothing written; the created row is readable under its id, with the quantity sent, or 0 when it was missing or `null` |
| `CollectionRouter.Read` | backend/api/routers/collection.py:31-37 | 404 `"prodcuct not found"` exactly when the id is unknown, else the row |
| `CollectionRouter.ReadProducts` | backend/api/routers/collection.py:40-46 | 404 `"product not found"` exactly when the collection is missing or has no product; else its non-empty product set |
| `CollectionRouter.EmptyCollectionReadsAsMissing` | backend/api/routers/collection.py:40-46 | a just-created collection reads fine but its products read as 404 |
| `CollectionRouter.Update` | backend/api/routers/collection.py:49-56 | 404 `"Collection not found"` exactly when the id is unknown; for a known id, 200 exactly when no field is `null` and a new name is unused, else 500 with nothing written; on 200 only that row changes, keeping its id, taking the name and quantity the body sent and the old ones otherwise, and it is returned |
| `CollectionRouter.Remove` | backend/api/routers/collection.py:59-64 | 404 `"collection not found"` exactly when the id is unknown; otherwise the cascade is applied and the id no longer reads |
| `CollectionRouter.RemoveTwice` | backend/api/routers/collection.py:59-64 | a second delete of the same id answers 404 |
| `Stats.CountPositive` | backend/api/services/stats.py:12-18 | a category has at least one product exactly when it is among the categories |
| `Stats.CategoryList` | backend/api/services/stats.py:18 | grouping yields each category once and no other value |
| `Stats.SumEntries` | backend/api/services/stats.py:12-27 | over the distinct categories, the per-category counts add up to the number of products |
| `Stats.SortDesc` | backend/api/services/stats.py:19 | ordering by count, largest first, is a permutation that keeps the sum and the set of categories |
| `Stats.UnsortedEntries` | backend/api/services/stats.py:12-18 | the grouped counts are exact, name distinct categories covering all of them, and add up to the number of products |
| `Stats.PermutedHistogram` | backend/api/services/stats.py:19 | reordering keeps every entry's count exact and the categories distinct |
| `Stats.ProductsByCategory` | backend/api/services/stats.py:9-29 | one entry per distinct category, none else, each with its exact count of at least 1, largest first; the counts sum to the number of products |
| `Stats.EntryAtMostSum` | backend/api/services/stats.py:12-27 | no category holds more products than there are in all |
| `Stats.GetStats` | backend/api/services/stats.py:31-56 | counts of products, collections and distinct categories; the histogram has as many entries as categories and sums to the product count |
| `Cors.Setting` | backend/api/main.py:40 | the variable's value, or `http://localhost:5173` when unset |
| `Cors.ParseOrigins` | backend/api/main.py:41 | no parsed origin is empty, padded or holds a comma |
| `Cors.OriginsMembers` | backend/api/main.py:41 | a string is an origin exactly when it is the non-empty strip of a comma-separated piece |
| `Cors.OriginsInOrder` | backend/api/main.py:41 | the origin list is the stripped comma-separated pieces, in order and with repeats, with the empty ones removed |
| `Cors.Configure` | backend/api/main.py:42-48 | credentials are off exactly when `*` is among the parsed origins, and then the list is emptied for the `.*` pattern; otherwise the parsed list is used with no pattern. Credentials are never combined with a wildcard |
| `Cors.FromEnvironment` | backend/api/main.py:40-48 | the middleware either allows listed origins with credentials, none blank, padded, holding a comma or the wildcard, or any origin by the `.*` pattern without credentials and with no listed origin |
| `Cors.WildcardIff` | backend/api/main.py:41-48 | the wildcard case holds exactly when some comma-separated piece strips to `*` |
| `Cors.SingleOrigin` | backend/api/main.py:41 | one clean origin is parsed as itself |
| `Cors.UnsetUsesDefault` | backend/api/main.py:40-43 | unset, only `http://localhost:5173` is allowed, with credentials |
| `Cors.OneOrigin` | backend/api/main.py:40-43 | one clean origin other than `*` is allowed alone, with credentials |
| `Cors.JoinedOriginsRoundTrip` | backend/api/main.py:41-43 | comma-joined clean origins are read back as the same list and allowed with credentials |
| `Cors.PaddedWildcard` | backend/api/main.py:41-48 | `" * "` still switches to the match-everything pattern without credentials |

## Left out

- Rendering is left out: JSX, icons, styling, opening and closing dialogs, and `openEditDialog`. A toast is kept only as the `notice` a handler leaves. `AdminSidebar.tsx` is navigation only.
- The transport is left out: axios, `Promise.all`, the request interceptor wiring and the `Content-Type` header. Every API call is a `Call` value plus an `Outcome` the caller supplies.
- `AdminDashboard.FromCall`: the dashboard imports `statisticsApi` from frontend/src/lib/api.ts, which does not define it. The model takes the outcome of the statistics request as a parameter and does not model what the missing import does at load time.
- `ApiClient.GetSessionIdFromToken`: decoding the JWT payload (`atob`, `JSON.parse`) and its `catch` are foreign calls. The decoded session id is a parameter; only the no-token path is stated exactly.
- Floating point is left out. `price` is carried as a `real` and never computed on. `toFixed(2)` and the dashboard bar width `product_quantity / totalProducts * 100` are not modelled; `AdminDashboard.DashboardOfStats` states instead that the divisor is never 0 and the quantity never exceeds it.
- `Text.Trim`: only the ASCII whitespace both languages share (space, tab, line feed, vertical tab, form feed, carriage return) is trimmed. The Unicode spaces that JavaScript's `trim` and Python's `strip` also remove are not. Nor are the ASCII separators `\x1c` to `\x1f`, which Python's `strip` removes and JavaScript's `trim` keeps: for the origin list of backend/api/main.py:41 a value such as `*` followed by `\x1f` is the wildcard in the source but not in `Cors`.
- `Text.Lower`: only the ASCII letters `A`–`Z` are lowered. Unicode case mapping is not modelled.
- `Text.ParseInt`: the digit prefix, sign, leading blanks and `0x` prefix are modelled over unbounded integers. The loss of precision of JavaScript numbers beyond 2^53 is not.
- `Text.IntToString`: `String(n)` is modelled as plain decimal. The exponent notation JavaScript uses for numbers of 10^21 and beyond is not modelled.
- `ProductsManagement.MapColors`: the `color` JSON entries are modelled as null, text, integer or a name/hex object. For any other object the hex falls back to `"[object Object]"`, and arrays or booleans as entries are not modelled.
- The catch-alls for thrown values that are not `Error`s are left out of the products and collections screens (`"Erro ao carregar produtos"` and the like). The only rejections there come from the API client, which always throws an `Error`. The dashboard keeps its fallback in `AdminDashboard.CaughtMessage`.
- `list_all_collections` and `GET /collections` return every row unchanged and are not modelled.
- `backend/api/routers/stats.py` only passes the statistics through and is not modelled.
- The `is None` fallbacks of `get_stats` are not modelled: a `count` aggregate is never `None`, so they never apply.
- `Stats.ProductsByCategory`: the database leaves the order of categories with equal counts unspecified. The model orders them by first appearance, while its contract only promises largest first.
- The products' `category` column is NOT NULL, so the `isnot(None)` filter of the statistics query is not modelled.
- `Cors.Setting`: `config("FRONTEND_ORIGIN", ...)` reads the process environment or a `.env` file. The model takes the value it finds, if any, as a parameter.
- The lifespan hook, the middleware registration and the router prefixes of backend/api/main.py are left out: they are I/O and framework wiring. Only the origin handling is modelled.
- The user, auth, interaction and recommendation endpoints of the backend are not part of this model. The interaction table is reduced to the foreign key to its product.
- `ProductsManagement.StoredRow`: the product endpoints of the backend are not part of this model. That the backend stores a product payload's fields as sent, each colour as a name/hex object, is an assumption; `ProductsManagement.FormRoundTrip` and `ProductsManagement.LoadShowsSavedForm` rest on it.
- `Models.DeleteCollectionCascade`: the relationship at backend/api/models/collection.py:13-18 sets `passive_deletes=True`, so the products of a deleted collection go through the database's `ON DELETE CASCADE`, not through the ORM. That their interactions go with them assumes the interaction table's foreign key also cascades; that table is not part of this model.
- Ids assigned by the database are a `freshId` parameter that must not be in use. The session, `commit` and `refresh` are not modelled.
- Foreign-key enforcement is assumed to be on, as the `ondelete="CASCADE"` declarations intend. Under a database that ignores foreign keys, an insert with an unknown collection would succeed.
- A database refusal (NOT NULL, UNIQUE) is modelled as a write that changes nothing and, at the router, as a 500. The driver's error text is not modelled.

## Findings

| source | as written | input that shows it | evidently intended | confidence | as-written member | corrected member |
|---|---|---|---|---|---|---|
| frontend/src/pages/admin/ProductsManagement.tsx:129 | after a successful POST, `handleAddProduct` calls `mapApiProduct`, which nothing defines. The `ReferenceError` lands in the `catch`, so the created product never reaches the list and an error toast appears. | any form with a truthy `collectionId` whose create request succeeds | map the created row as the load does (lines 66-91) and append it to the list | not executed | `ProductsManagement.AddProductAsWritten`, `ProductsManagement.AddProductAsWrittenLosesCreatedProduct` | `ProductsManagement.AddProduct` |
