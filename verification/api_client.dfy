/** The frontend's REST client wrapper (frontend/src/lib/api.ts): the base
    URL, the module-level bearer-token holder, the normalisation of failed
    responses into one message plus a status, and the per-resource request
    builders. The HTTP transport itself is outside the model: a request is
    described by a `Call`, and what comes back is an `Outcome` the caller
    supplies. */
module ApiClient {
  import opened Wrappers

  /* ---------------------------------------------------------------------- */
  /* Base URL                                                                */
  /* ---------------------------------------------------------------------- */

  const DefaultBaseUrl := "http://localhost:3000"

  /** `VITE_API_BASE_URL || "http://localhost:3000"`: an unset or empty
      setting falls back to the local development server. */
  function BaseUrl(setting: Option<string>): (url: string)
    ensures url != ""
    ensures setting.Some? && setting.value != "" <==> url != DefaultBaseUrl || setting == Some(DefaultBaseUrl)
    ensures url == DefaultBaseUrl || Some(url) == setting
  {
    if setting.Some? && setting.value != "" then setting.value else DefaultBaseUrl
  }

  /** An empty setting is no setting, and a resolved URL given back as the
      setting resolves to itself: the fallback is applied once and for all. */
  lemma BaseUrlResolvesOnce(setting: Option<string>)
    ensures BaseUrl(Some("")) == BaseUrl(None) == DefaultBaseUrl
    ensures BaseUrl(Some(BaseUrl(setting))) == BaseUrl(setting)
  {
  }

  /* ---------------------------------------------------------------------- */
  /* Bearer token holder                                                     */
  /* ---------------------------------------------------------------------- */

  /** A JavaScript string is truthy when it is present and non-empty. */
  predicate Truthy(s: Option<string>)
  {
    s.Some? && s.value != ""
  }

  const BearerPrefix := "Bearer "

  /** The stored token and the default `Authorization` header of the client. */
  datatype AuthState = AuthState(token: Option<string>, authorization: Option<string>)

  /** Before any login: no token, no header. */
  const SignedOut := AuthState(None, None)

  /** The header agrees with the token: `Bearer <token>` when the token is
      truthy, absent otherwise. */
  predicate Consistent(st: AuthState)
  {
    st.authorization == if Truthy(st.token) then Some(BearerPrefix + st.token.value) else None
  }

  /** `setAuthToken(token)`: remembers the token (`undefined` becomes
      `null`, while an empty string is kept as it is) and sets or deletes the
      header. The previous state plays no part. */
  function SetAuthToken(token: Option<string>): (st: AuthState)
    ensures GetAuthToken(st) == token
    ensures Consistent(st)
  {
    AuthState(token, if Truthy(token) then Some(BearerPrefix + token.value) else None)
  }

  /** `getAuthToken()`. In a consistent state the token returned is the one
      the header carries, and there is a header exactly when it is truthy. */
  function GetAuthToken(st: AuthState): (token: Option<string>)
    ensures Consistent(st) ==> (st.authorization.Some? <==> Truthy(token))
    ensures Consistent(st) && Truthy(token) ==> BearerToken(st.authorization) == token
  {
    if Truthy(st.token) then BearerOfPrefix(st.token.value); st.token else st.token
  }

  /** The token carried by an `Authorization` header, if it is a bearer one:
      the header is the prefix followed by the token. */
  function BearerToken(header: Option<string>): (token: Option<string>)
    ensures token.Some? ==> header == Some(BearerPrefix + token.value)
  {
    if header.Some? && |BearerPrefix| <= |header.value| && header.value[..|BearerPrefix|] == BearerPrefix
    then
      assert header.value == header.value[..|BearerPrefix|] + header.value[|BearerPrefix|..];
      Some(header.value[|BearerPrefix|..])
    else None
  }

  /** A bearer header gives back the token it was built from. */
  lemma BearerOfPrefix(t: string)
    ensures BearerToken(Some(BearerPrefix + t)) == Some(t)
  {
    var h := BearerPrefix + t;
    assert h[..|BearerPrefix|] == BearerPrefix;
    assert h[|BearerPrefix|..] == t;
  }

  /** The header set by `setAuthToken` carries exactly the token stored, and
      there is a header exactly when the token is truthy: an empty-string
      token is stored but sends no header. */
  lemma SetAuthTokenHeader(token: Option<string>)
    ensures SetAuthToken(token).authorization.Some? <==> Truthy(token)
    ensures Truthy(token) ==> BearerToken(SetAuthToken(token).authorization) == token
    ensures token == Some("") ==> SetAuthToken(token) == AuthState(Some(""), None)
  {
    if Truthy(token) {
      BearerOfPrefix(token.value);
    }
  }

  /** `getSessionIdFromToken()`, whose payload decoding is a foreign call:
      `decoded` stands for what decoding the stored token yields. Without a
      truthy token the answer is `null` and nothing is decoded. */
  function GetSessionIdFromToken(st: AuthState, decoded: Option<int>): (id: Option<int>)
    ensures !Truthy(st.token) ==> id == None
    ensures id.Some? ==> id == decoded
  {
    if !Truthy(st.token) then None else decoded
  }

  /* ---------------------------------------------------------------------- */
  /* Error normalisation                                                     */
  /* ---------------------------------------------------------------------- */

  /** The parts of a failed HTTP response the interceptor reads. */
  datatype HttpResponse = HttpResponse(status: int, statusText: Option<string>, dataMessage: Option<string>)

  /** A rejected request: the response when there was one, and the error's
      own message. */
  datatype RequestError = RequestError(response: Option<HttpResponse>, message: Option<string>)

  /** What every failing call rejects with after the interceptor. */
  datatype ApiError = ApiError(message: string, status: Option<int>)

  const FallbackMessage := "Erro ao chamar a API"

  /** `a || b || ... || fallback` over optional strings: the first truthy
      candidate, or the fallback when none is. */
  function FirstTruthy(candidates: seq<Option<string>>, fallback: string): (r: string)
    ensures (forall i :: 0 <= i < |candidates| ==> !Truthy(candidates[i])) ==> r == fallback
    ensures forall i :: (0 <= i < |candidates| && Truthy(candidates[i]) &&
              (forall j :: 0 <= j < i ==> !Truthy(candidates[j]))) ==> r == candidates[i].value
    ensures r == fallback || (r != "" && Some(r) in candidates)
  {
    if |candidates| == 0 then fallback
    else if Truthy(candidates[0]) then candidates[0].value
    else
      var r := FirstTruthy(candidates[1..], fallback);
      assert forall i :: 1 <= i < |candidates| ==> candidates[i] == candidates[1..][i - 1];
      r
  }

  /** The candidate messages, in the order the interceptor tries them:
      `response.data.message`, `response.statusText`, `error.message`. */
  function MessageCandidates(e: RequestError): seq<Option<string>>
  {
    [ if e.response.Some? then e.response.value.dataMessage else None
    , if e.response.Some? then e.response.value.statusText else None
    , e.message ]
  }

  /** The response interceptor: the first non-empty message among the
      server's message, the status text and the error's own message, else a
      fixed fallback; the status is the response's, if any. The message is
      never empty. */
  function NormalizeError(e: RequestError): (r: ApiError)
    ensures r.message != ""
    ensures r.message == FallbackMessage || Some(r.message) in MessageCandidates(e)
    ensures r.status == if e.response.Some? then Some(e.response.value.status) else None
  {
    var cs := MessageCandidates(e);
    var m := FirstTruthy(cs, FallbackMessage);
    ApiError(m, if e.response.Some? then Some(e.response.value.status) else None)
  }

  /** The precedence of the interceptor's message chain. */
  lemma NormalizeErrorPrecedence(e: RequestError)
    ensures e.response.Some? && Truthy(e.response.value.dataMessage) ==>
              NormalizeError(e).message == e.response.value.dataMessage.value
    ensures e.response.Some? && !Truthy(e.response.value.dataMessage) && Truthy(e.response.value.statusText) ==>
              NormalizeError(e).message == e.response.value.statusText.value
    ensures ((e.response.Some? ==> !Truthy(e.response.value.dataMessage) && !Truthy(e.response.value.statusText)) &&
             Truthy(e.message)) ==>
              NormalizeError(e).message == e.message.value
    ensures !Truthy(e.message) && (e.response.Some? ==> !Truthy(e.response.value.dataMessage) && !Truthy(e.response.value.statusText)) ==>
              NormalizeError(e).message == FallbackMessage
  {
    var cs := MessageCandidates(e);
    if Truthy(cs[0]) {
    } else if Truthy(cs[1]) {
      assert forall j :: 0 <= j < 1 ==> !Truthy(cs[j]);
    } else if Truthy(cs[2]) {
      assert forall j :: 0 <= j < 2 ==> !Truthy(cs[j]);
    } else {
      assert forall i :: 0 <= i < |cs| ==> !Truthy(cs[i]);
    }
  }

  /** What a call to the API comes back with: the response body, or the
      normalised error it rejects with. */
  datatype Outcome<T> = Resolved(value: T) | Rejected(error: ApiError)

  /* ---------------------------------------------------------------------- */
  /* Resource helpers                                                        */
  /* ---------------------------------------------------------------------- */

  datatype Method = Get | Post | Patch | Delete

  /** One `name=value` parameter of a query string. */
  datatype QueryParam = QueryParam(name: string, value: IdArg)

  /** A request: verb, path relative to the base URL, query parameters and
      optional JSON body. */
  datatype Call<B> = Call(verb: Method, path: string, query: seq<QueryParam>, body: Option<B>)

  /** `/<resource>`. */
  function CollectionPath(resource: string): string
  {
    "/" + resource
  }

  /** `/<resource>/<id>`: the collection path, a slash and the id. */
  function ItemPath(resource: string, id: string): (p: string)
    ensures p == CollectionPath(resource) + "/" + id
  {
    "/" + resource + "/" + id
  }

  /** Different ids give different item paths, so an id is recovered from
      its path. */
  lemma ItemPathInjective(resource: string, a: string, b: string)
    requires ItemPath(resource, a) == ItemPath(resource, b)
    ensures a == b
  {
    var n := |CollectionPath(resource) + "/"|;
    assert a == ItemPath(resource, a)[n..];
    assert b == ItemPath(resource, b)[n..];
  }

  /** A request without a body: its verb, path and query parameters. */
  datatype Endpoint = Endpoint(verb: Method, path: string, query: seq<QueryParam>)

  /** The request an endpoint makes when it carries no body. */
  function Bodiless<B>(e: Endpoint): Call<B>
  {
    Call(e.verb, e.path, e.query, None)
  }

  /** `list`: GET on the collection path. */
  function ListCall(resource: string): (e: Endpoint)
    ensures e.verb == Get && e.path == CollectionPath(resource) && e.query == []
  {
    Endpoint(Get, CollectionPath(resource), [])
  }

  /** `create(data)`: POST of the data on the collection path. */
  function CreateCall<B>(resource: string, data: B): (c: Call<B>)
    ensures c.verb == Post && c.path == CollectionPath(resource) && c.query == [] && c.body == Some(data)
  {
    Call(Post, CollectionPath(resource), [], Some(data))
  }

  /** `get(id)`: GET on the item path. */
  function GetCall(resource: string, id: string): (e: Endpoint)
    ensures e.verb == Get && e.path == ItemPath(resource, id) && e.query == []
  {
    Endpoint(Get, ItemPath(resource, id), [])
  }

  /** `update(id, data)`: PATCH of the data on the item path. */
  function UpdateCall<B>(resource: string, id: string, data: B): (c: Call<B>)
    ensures c.verb == Patch && c.path == ItemPath(resource, id) && c.query == [] && c.body == Some(data)
  {
    Call(Patch, ItemPath(resource, id), [], Some(data))
  }

  /** `remove(id)`: DELETE on the item path. */
  function RemoveCall(resource: string, id: string): (e: Endpoint)
    ensures e.verb == Delete && e.path == ItemPath(resource, id) && e.query == []
  {
    Endpoint(Delete, ItemPath(resource, id), [])
  }

  const Products := "products"
  const Collections := "collections"
  const Users := "users"

  /* ---------------------------------------------------------------------- */
  /* Recommendations                                                         */
  /* ---------------------------------------------------------------------- */

  /** A product id as the caller may pass it: a string or a number. */
  datatype IdArg = StrId(s: string) | NumId(n: int)

  /** JavaScript truthiness of an id: a non-empty string or a non-zero number. */
  predicate IdTruthy(id: IdArg)
  {
    match id
    case StrId(s) => s != ""
    case NumId(n) => n != 0
  }

  /** The query parameters of `recommendationApi.list(productId)`: a
      `product_id` parameter exactly when the id is truthy, carrying it. */
  function RecommendationParams(productId: Option<IdArg>): (productParam: Option<IdArg>)
    ensures productParam.Some? <==> productId.Some? && IdTruthy(productId.value)
    ensures productParam.Some? ==> productParam == productId
  {
    if productId.Some? && IdTruthy(productId.value) then productId else None
  }

  const ProductIdParam := "product_id"

  /** `recommendationApi.list(productId)`: GET /recommendations, with a
      `product_id` query parameter exactly when the id is truthy. */
  function RecommendationsCall(productId: Option<IdArg>): (e: Endpoint)
    ensures e.verb == Get && e.path == CollectionPath("recommendations")
    ensures |e.query| <= 1
    ensures e.query != [] <==> RecommendationParams(productId).Some?
    ensures e.query != [] ==> e.query[0] == QueryParam(ProductIdParam, productId.value)
  {
    match RecommendationParams(productId)
    case None => Endpoint(Get, CollectionPath("recommendations"), [])
    case Some(id) => Endpoint(Get, CollectionPath("recommendations"), [QueryParam(ProductIdParam, id)])
  }

  /** The value a query string gives a parameter: the first one so named. */
  function QueryValue(query: seq<QueryParam>, name: string): (v: Option<IdArg>)
    ensures v.None? <==> forall i :: 0 <= i < |query| ==> query[i].name != name
    ensures v.Some? ==>
              exists i :: 0 <= i < |query| && query[i] == QueryParam(name, v.value) &&
                          forall j :: 0 <= j < i ==> query[j].name != name
  {
    if |query| == 0 then None
    else if query[0].name == name then
      assert query[0] == QueryParam(name, query[0].value);
      Some(query[0].value)
    else
      var v := QueryValue(query[1..], name);
      assert forall i :: 1 <= i < |query| ==> query[i] == query[1..][i - 1];
      assert v.Some? ==>
               exists i :: 0 <= i < |query| && query[i] == QueryParam(name, v.value) &&
                           forall j :: 0 <= j < i ==> query[j].name != name by {
        if v.Some? {
          var k :| 0 <= k < |query[1..]| && query[1..][k] == QueryParam(name, v.value) &&
                   forall j :: 0 <= j < k ==> query[1..][j].name != name;
          assert query[k + 1] == QueryParam(name, v.value);
          assert forall j :: 0 <= j < k + 1 ==> query[j].name != name by {
            forall j | 0 <= j < k + 1 ensures query[j].name != name {
              if j > 0 { assert query[j] == query[1..][j - 1]; }
            }
          }
        }
      }
      v
  }

  /** The server reads back the id the caller passed whenever it is truthy,
      and no id at all otherwise. */
  lemma RecommendationsQueryRoundTrip(productId: Option<IdArg>)
    ensures QueryValue(RecommendationsCall(productId).query, ProductIdParam) ==
              if productId.Some? && IdTruthy(productId.value) then productId else None
  {
  }

  /** A falsy id (the empty string, or 0) asks for the same thing as no id:
      the unpersonalised recommendations. */
  lemma FalsyIdIsNoId(productId: IdArg)
    requires !IdTruthy(productId)
    ensures RecommendationsCall(Some(productId)) == RecommendationsCall(None)
  {
  }
}
