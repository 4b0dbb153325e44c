/** The admin dashboard (frontend/src/pages/admin/AdminDashboard.tsx): the
    statistics fetched once on mount, the three summary cards, the
    per-category list with its total, and the loading and error state
    around the fetch. */
module AdminDashboard {
  import opened Wrappers
  import opened Stats
  import opened ApiClient

  /* ---------------------------------------------------------------------- */
  /* Fetch state                                                             */
  /* ---------------------------------------------------------------------- */

  /** The component's state: the statistics once loaded, the loading flag
      and the error banner's text. */
  datatype Dashboard = Dashboard(stats: Option<BasicStats>, loading: bool, error: Option<string>)

  /** Before the effect runs: nothing loaded, not loading, no error. */
  const Mounted := Dashboard(None, false, None)

  /** What a `catch` clause receives: an `Error` with its message, or any
      other thrown value. */
  datatype Caught = Thrown(message: string) | NonError

  /** How the fetch ends: with the statistics, or with a caught value. */
  datatype FetchResult = Fetched(value: BasicStats) | Threw(caught: Caught)

  const LoadFailedMessage := "Erro ao carregar dados do servidor!"

  /** A rejected API call throws the interceptor's `Error`. */
  function FromCall(o: Outcome<BasicStats>): (r: FetchResult)
    ensures o.Resolved? <==> r.Fetched?
    ensures o.Resolved? ==> r.value == o.value
    ensures o.Rejected? ==> r.caught == Thrown(o.error.message)
  {
    match o
    case Resolved(v) => Fetched(v)
    case Rejected(e) => Threw(Thrown(e.message))
  }

  /** The banner text for a caught value: an `Error`'s own message, else a
      fixed text. */
  function CaughtMessage(c: Caught): (m: string)
    ensures c.Thrown? ==> m == c.message
    ensures c.NonError? ==> m == LoadFailedMessage && m != ""
  {
    match c
    case Thrown(msg) => msg
    case NonError => LoadFailedMessage
  }

  /** The first step of the fetch: loading is switched on, nothing else
      changes. */
  function BeginFetch(d: Dashboard): (r: Dashboard)
    ensures r.loading
    ensures r.stats == d.stats && r.error == d.error
  {
    d.(loading := true)
  }

  /** The end of the fetch: on success the statistics are stored and the
      error cleared; on failure the banner gets the caught value's message
      and the statistics already shown stay; either way loading ends. */
  function EndFetch(d: Dashboard, result: FetchResult): (r: Dashboard)
    ensures !r.loading
    ensures result.Fetched? ==> r.stats == Some(result.value) && r.error.None?
    ensures result.Threw? ==> r.stats == d.stats && r.error == Some(CaughtMessage(result.caught))
  {
    match result
    case Fetched(v) => Dashboard(Some(v), false, None)
    case Threw(c) => Dashboard(d.stats, false, Some(CaughtMessage(c)))
  }

  /** The whole effect. */
  function Fetch(d: Dashboard, result: FetchResult): (r: Dashboard)
    ensures !r.loading
    ensures r.error.None? <==> result.Fetched?
    ensures r.stats.Some? <==> result.Fetched? || d.stats.Some?
  {
    EndFetch(BeginFetch(d), result)
  }

  /** The error banner: shown when the error text is truthy. */
  function Banner(d: Dashboard): (b: Option<string>)
    ensures b.Some? <==> Truthy(d.error)
    ensures b.Some? ==> b.value == d.error.value && b.value != ""
  {
    if Truthy(d.error) then d.error else None
  }

  /** A failed API request always shows the banner, with the message the
      interceptor settled on, and the page keeps no statistics it did not
      have. */
  lemma FailedRequestShowsBanner(d: Dashboard, e: RequestError)
    ensures Banner(Fetch(d, FromCall(Rejected(NormalizeError(e))))) == Some(NormalizeError(e).message)
    ensures Fetch(d, FromCall(Rejected(NormalizeError(e)))).stats == d.stats
  {
  }

  /** A successful fetch hides the banner, whatever an earlier failure left. */
  lemma SuccessClearsBanner(d: Dashboard, st: BasicStats)
    ensures Banner(Fetch(d, Fetched(st))).None?
    ensures Fetch(d, Fetched(st)).stats == Some(st)
  {
  }

  /* ---------------------------------------------------------------------- */
  /* The view                                                                */
  /* ---------------------------------------------------------------------- */

  /** A summary card: its title and the value it displays, absent before
      the statistics arrive. */
  datatype Card = Card(title: string, value: Option<int>)

  const ProductsTitle := "Total de Produtos"
  const CategoriesTitle := "Categorias"
  const CollectionsTitle := "Coleções"

  /** The three cards, always in the order products, categories,
      collections. */
  function Cards(stats: Option<BasicStats>): (cs: seq<Card>)
    ensures |cs| == 3
    ensures cs[0].title == ProductsTitle && cs[1].title == CategoriesTitle && cs[2].title == CollectionsTitle
    ensures forall i :: 0 <= i < |cs| ==> (cs[i].value.Some? <==> stats.Some?)
    ensures stats.Some? ==>
              && cs[0].value.value == stats.value.productsCount
              && cs[1].value.value == stats.value.categoriesCount
              && cs[2].value.value == stats.value.collectionsCount
  {
    match stats
    case None => [Card(ProductsTitle, None), Card(CategoriesTitle, None), Card(CollectionsTitle, None)]
    case Some(st) =>
      [Card(ProductsTitle, Some(st.productsCount)), Card(CategoriesTitle, Some(st.categoriesCount)),
       Card(CollectionsTitle, Some(st.collectionsCount))]
  }

  /** The per-category list: empty before the statistics arrive (a list is
      always truthy, so a loaded one is shown as it is). */
  function CategoryRows(stats: Option<BasicStats>): (es: seq<ProductByCategory>)
    ensures stats.None? ==> es == []
    ensures stats.Some? ==> es == stats.value.productsByCategory
  {
    if stats.Some? then stats.value.productsByCategory else []
  }

  /** `products_count || 0`: the count when loaded, else 0. A loaded count
      of 0 is falsy and falls back to the same 0. */
  function TotalProducts(stats: Option<BasicStats>): (n: int)
    ensures stats.None? ==> n == 0
    ensures stats.Some? ==> n == stats.value.productsCount
  {
    if stats.Some? && stats.value.productsCount != 0 then stats.value.productsCount else 0
  }

  /** The unit after a category's quantity. */
  function QuantityLabel(q: int): (u: string)
    ensures u == "item" <==> q == 1
    ensures u == "item" || u == "itens"
  {
    if q == 1 then "item" else "itens"
  }

  /** On statistics computed by the backend, the dashboard agrees with the
      rows: the cards show the number of products, of categories and of
      collections; the listed quantities add up to the total; and every bar
      divides a quantity between 1 and the total by a non-zero total, so its
      width stays within 0% and 100%. */
  lemma DashboardOfStats(rows: seq<Models.Product>, collectionRows: seq<Models.Collection>)
    ensures Cards(Some(GetStats(rows, collectionRows)))[0].value == Some(|rows|)
    ensures Cards(Some(GetStats(rows, collectionRows)))[1].value == Some(|Categories(rows)|)
    ensures Cards(Some(GetStats(rows, collectionRows)))[2].value == Some(|collectionRows|)
    ensures Sum(CategoryRows(Some(GetStats(rows, collectionRows)))) == TotalProducts(Some(GetStats(rows, collectionRows)))
    ensures var es := CategoryRows(Some(GetStats(rows, collectionRows)));
            forall i :: 0 <= i < |es| ==>
              1 <= es[i].productQuantity <= TotalProducts(Some(GetStats(rows, collectionRows)))
  {
    var st := GetStats(rows, collectionRows);
    var es := CategoryRows(Some(st));
    assert es == ProductsByCategory(rows);
    forall i | 0 <= i < |es|
      ensures es[i].productQuantity <= TotalProducts(Some(st))
    {
      EntryAtMostSum(es, i);
    }
  }

  /** Before the statistics arrive there is no bar at all, so the division
      by a zero total never happens. */
  lemma NoBarsBeforeLoad()
    ensures CategoryRows(Mounted.stats) == [] && TotalProducts(Mounted.stats) == 0
    ensures forall i :: 0 <= i < |Cards(Mounted.stats)| ==> Cards(Mounted.stats)[i].value.None?
  {
  }
}
