/** The dashboard statistics (backend/api/services/stats.py, with the result
    shapes of backend/api/schemas/stats.py): how many products, collections
    and categories there are, and how many products each category holds,
    largest first. The SQL aggregates are stated over the rows of the two
    tables, in the order the database hands them over. */
module Stats {
  import opened Models

  /** One bar of the histogram: a category and its number of products. */
  datatype ProductByCategory = ProductByCategory(category: string, productQuantity: int)

  /** `BasicStats`. */
  datatype BasicStats = BasicStats(productsCount: int, collectionsCount: int, categoriesCount: int,
                                   productsByCategory: seq<ProductByCategory>)

  /* ---------------------------------------------------------------------- */
  /* Over the product rows                                                   */
  /* ---------------------------------------------------------------------- */

  /** `count(id)` of the products in a category. */
  function Count(rows: seq<Product>, cat: string): nat
  {
    if |rows| == 0 then 0
    else Count(rows[..|rows| - 1], cat) + (if rows[|rows| - 1].category == cat then 1 else 0)
  }

  /** The distinct categories (the column is NOT NULL, so every product
      has one). */
  function Categories(rows: seq<Product>): set<string>
  {
    if |rows| == 0 then {} else Categories(rows[..|rows| - 1]) + {rows[|rows| - 1].category}
  }

  /** A category holds a product exactly when it is among the categories. */
  lemma {:induction false} CountPositive(rows: seq<Product>, cat: string)
    ensures Count(rows, cat) >= 1 <==> cat in Categories(rows)
  {
    if |rows| > 0 {
      CountPositive(rows[..|rows| - 1], cat);
    }
  }

  /** The categories in order of first appearance, each once. */
  function CategoryList(rows: seq<Product>): (cs: seq<string>)
    ensures NoDuplicates(cs)
    ensures forall c :: c in cs <==> c in Categories(rows)
  {
    if |rows| == 0 then []
    else
      var cs := CategoryList(rows[..|rows| - 1]);
      var c := rows[|rows| - 1].category;
      if c in cs then cs else cs + [c]
  }

  predicate NoDuplicates(cs: seq<string>)
  {
    forall i, j :: 0 <= i < j < |cs| ==> cs[i] != cs[j]
  }

  /** How often `c` occurs in `cs`. */
  function Occurrences(cs: seq<string>, c: string): nat
  {
    if |cs| == 0 then 0 else (if cs[0] == c then 1 else 0) + Occurrences(cs[1..], c)
  }

  lemma {:induction false} OccursOnce(cs: seq<string>, c: string)
    requires NoDuplicates(cs)
    ensures Occurrences(cs, c) == if c in cs then 1 else 0
  {
    if |cs| > 0 {
      OccursOnce(cs[1..], c);
      if cs[0] == c {
        assert c !in cs[1..] by {
          forall k | 0 <= k < |cs[1..]| ensures cs[1..][k] != c {
            assert cs[1..][k] == cs[k + 1];
          }
        }
      } else {
        assert c in cs <==> c in cs[1..] by {
          assert cs == [cs[0]] + cs[1..];
        }
      }
    }
  }

  /* ---------------------------------------------------------------------- */
  /* Over the histogram entries                                              */
  /* ---------------------------------------------------------------------- */

  /** One entry per listed category, with its count. */
  function Entries(cs: seq<string>, rows: seq<Product>): (es: seq<ProductByCategory>)
    ensures |es| == |cs|
    ensures forall i :: 0 <= i < |es| ==> es[i] == ProductByCategory(cs[i], Count(rows, cs[i]))
  {
    if |cs| == 0 then [] else [ProductByCategory(cs[0], Count(rows, cs[0]))] + Entries(cs[1..], rows)
  }

  /** The sum of the quantities. */
  function Sum(es: seq<ProductByCategory>): int
  {
    if |es| == 0 then 0 else es[0].productQuantity + Sum(es[1..])
  }

  /** The categories named by the entries. */
  function Cats(es: seq<ProductByCategory>): set<string>
  {
    if |es| == 0 then {} else {es[0].category} + Cats(es[1..])
  }

  lemma {:induction false} SumEntriesNoRows(cs: seq<string>)
    ensures Sum(Entries(cs, [])) == 0
  {
    if |cs| > 0 {
      SumEntriesNoRows(cs[1..]);
    }
  }

  /** One more row adds one to the count of its category in every entry
      naming it. */
  lemma {:induction false} SumEntriesSnoc(cs: seq<string>, rows: seq<Product>)
    requires |rows| > 0
    ensures Sum(Entries(cs, rows)) ==
              Sum(Entries(cs, rows[..|rows| - 1])) + Occurrences(cs, rows[|rows| - 1].category)
  {
    if |cs| > 0 {
      SumEntriesSnoc(cs[1..], rows);
    }
  }

  /** Over a duplicate-free list covering every category, the counts add up
      to the number of rows. */
  lemma {:induction false} SumEntries(cs: seq<string>, rows: seq<Product>)
    requires NoDuplicates(cs)
    requires forall c | c in Categories(rows) :: c in cs
    ensures Sum(Entries(cs, rows)) == |rows|
  {
    if |rows| == 0 {
      SumEntriesNoRows(cs);
    } else {
      var init := rows[..|rows| - 1];
      SumEntries(cs, init);
      SumEntriesSnoc(cs, rows);
      OccursOnce(cs, rows[|rows| - 1].category);
    }
  }

  lemma {:induction false} CatsOfEntries(cs: seq<string>, rows: seq<Product>)
    ensures forall c :: c in Cats(Entries(cs, rows)) <==> c in cs
  {
    if |cs| > 0 {
      CatsOfEntries(cs[1..], rows);
      assert cs == [cs[0]] + cs[1..];
    }
  }

  /* ---------------------------------------------------------------------- */
  /* Ordering                                                                */
  /* ---------------------------------------------------------------------- */

  /** Quantities never increase from one entry to the next. */
  predicate SortedDesc(es: seq<ProductByCategory>)
  {
    forall i, j :: 0 <= i < j < |es| ==> es[i].productQuantity >= es[j].productQuantity
  }

  /** Insertion of one entry into a list sorted by descending quantity,
      ahead of the entries it ties with. */
  function Insert(e: ProductByCategory, s: seq<ProductByCategory>): (r: seq<ProductByCategory>)
    ensures |r| == |s| + 1
    ensures multiset(r) == multiset(s) + multiset{e}
    ensures r[0] == e || (|s| > 0 && r[0] == s[0])
  {
    if |s| == 0 || e.productQuantity >= s[0].productQuantity then [e] + s
    else
      var r := [s[0]] + Insert(e, s[1..]);
      assert s == [s[0]] + s[1..];
      r
  }

  lemma {:induction false} InsertSorted(e: ProductByCategory, s: seq<ProductByCategory>)
    requires SortedDesc(s)
    ensures SortedDesc(Insert(e, s))
  {
    if |s| > 0 && e.productQuantity < s[0].productQuantity {
      var t := Insert(e, s[1..]);
      InsertSorted(e, s[1..]);
      assert s[0].productQuantity >= t[0].productQuantity by {
        if t[0] != e {
          assert t[0] == s[1..][0] == s[1];
        }
      }
      assert Insert(e, s) == [s[0]] + t;
    }
  }

  lemma {:induction false} InsertSum(e: ProductByCategory, s: seq<ProductByCategory>)
    ensures Sum(Insert(e, s)) == e.productQuantity + Sum(s)
  {
    if |s| > 0 && e.productQuantity < s[0].productQuantity {
      InsertSum(e, s[1..]);
      assert ([s[0]] + Insert(e, s[1..]))[1..] == Insert(e, s[1..]);
    } else {
      assert ([e] + s)[1..] == s;
    }
  }

  lemma {:induction false} InsertCats(e: ProductByCategory, s: seq<ProductByCategory>)
    ensures Cats(Insert(e, s)) == {e.category} + Cats(s)
  {
    if |s| > 0 && e.productQuantity < s[0].productQuantity {
      InsertCats(e, s[1..]);
      assert ([s[0]] + Insert(e, s[1..]))[1..] == Insert(e, s[1..]);
    } else {
      assert ([e] + s)[1..] == s;
    }
  }

  /** Insertion sort by descending quantity. */
  function SortDesc(s: seq<ProductByCategory>): (r: seq<ProductByCategory>)
    ensures |r| == |s|
    ensures multiset(r) == multiset(s)
    ensures SortedDesc(r)
    ensures Sum(r) == Sum(s)
    ensures Cats(r) == Cats(s)
  {
    if |s| == 0 then []
    else
      var rest := SortDesc(s[1..]);
      InsertSorted(s[0], rest);
      InsertSum(s[0], rest);
      InsertCats(s[0], rest);
      assert s == [s[0]] + s[1..];
      assert multiset(s) == multiset{s[0]} + multiset(s[1..]);
      assert Sum(s) == s[0].productQuantity + Sum(s[1..]);
      assert Cats(s) == {s[0].category} + Cats(s[1..]);
      Insert(s[0], rest)
  }

  /* ---------------------------------------------------------------------- */
  /* The statistics                                                          */
  /* ---------------------------------------------------------------------- */

  /** What `products_by_category` promises about the rows: one entry per
      category, and no other, carrying that category's number of products;
      no category twice; largest first. */
  predicate IsHistogram(rows: seq<Product>, es: seq<ProductByCategory>)
  {
    && CountsMatch(rows, es)
    && DistinctCats(es)
    && Cats(es) == Categories(rows)
    && SortedDesc(es)
  }

  /** Each entry names a different category. */
  predicate DistinctCats(es: seq<ProductByCategory>)
  {
    forall i, j :: 0 <= i < j < |es| ==> es[i].category != es[j].category
  }

  /** Every entry carries its category's number of products. */
  predicate CountsMatch(rows: seq<Product>, es: seq<ProductByCategory>)
  {
    forall i :: 0 <= i < |es| ==> es[i].productQuantity == Count(rows, es[i].category)
  }

  /** The entries before sorting: one per category, in order of first
      appearance. */
  lemma UnsortedEntries(rows: seq<Product>)
    ensures CountsMatch(rows, Entries(CategoryList(rows), rows))
    ensures DistinctCats(Entries(CategoryList(rows), rows))
    ensures Cats(Entries(CategoryList(rows), rows)) == Categories(rows)
    ensures Sum(Entries(CategoryList(rows), rows)) == |rows|
    ensures |Entries(CategoryList(rows), rows)| == |Categories(rows)|
  {
    var cs := CategoryList(rows);
    var es := Entries(cs, rows);
    assert DistinctCats(es) by {
      forall i, j | 0 <= i < j < |es|
        ensures es[i].category != es[j].category
      {
        assert es[i].category == cs[i] && es[j].category == cs[j];
      }
    }
    SumEntries(cs, rows);
    assert Cats(es) == Categories(rows) by {
      CatsOfEntries(cs, rows);
    }
    assert |es| == |Categories(rows)| by {
      SizeOfDistinct(cs);
      assert (set c | c in cs) == Categories(rows);
    }
  }

  /** With no category twice, no entry occurs twice. */
  lemma {:induction false} DistinctCatsOnce(es: seq<ProductByCategory>, x: ProductByCategory)
    requires DistinctCats(es)
    ensures multiset(es)[x] <= 1
  {
    if |es| > 0 {
      var tail := es[1..];
      DistinctCatsOnce(tail, x);
      assert es == [es[0]] + tail;
    }
  }

  /** A reordering of entries that carry their counts and name distinct
      categories still does both. */
  lemma PermutedHistogram(rows: seq<Product>, u: seq<ProductByCategory>, es: seq<ProductByCategory>)
    requires multiset(es) == multiset(u)
    requires CountsMatch(rows, u) && DistinctCats(u)
    ensures CountsMatch(rows, es) && DistinctCats(es)
  {
    forall i | 0 <= i < |es|
      ensures es[i].productQuantity == Count(rows, es[i].category)
    {
      assert es[i] in multiset(u);
      var k :| 0 <= k < |u| && u[k] == es[i];
    }
    forall i, j | 0 <= i < j < |es|
      ensures es[i].category != es[j].category
    {
      if es[i].category == es[j].category {
        assert es[i] == es[j];
        DistinctCatsOnce(u, es[i]);
        TwiceInSeq(es, i, j);
      }
    }
  }

  lemma {:induction false} CatsIndex(es: seq<ProductByCategory>, i: int)
    requires 0 <= i < |es|
    ensures es[i].category in Cats(es)
  {
    if i > 0 {
      CatsIndex(es[1..], i - 1);
    }
  }

  /** `get_prducts_by_cagetory`: group the products by category, count each
      group, order by the count, largest first. */
  function ProductsByCategory(rows: seq<Product>): (es: seq<ProductByCategory>)
    ensures IsHistogram(rows, es)
    ensures |es| == |Categories(rows)|
    ensures Sum(es) == |rows|
    ensures forall i :: 0 <= i < |es| ==> es[i].productQuantity >= 1
  {
    var unsorted := Entries(CategoryList(rows), rows);
    var es := SortDesc(unsorted);
    UnsortedEntries(rows);
    PermutedHistogram(rows, unsorted, es);
    assert forall i :: 0 <= i < |es| ==> es[i].productQuantity >= 1 by {
      forall i | 0 <= i < |es| ensures es[i].productQuantity >= 1 {
        CatsIndex(es, i);
        CountPositive(rows, es[i].category);
      }
    }
    es
  }

  /** With no negative quantity, no entry exceeds the total. */
  lemma {:induction false} EntryAtMostSum(es: seq<ProductByCategory>, i: int)
    requires 0 <= i < |es|
    requires forall k :: 0 <= k < |es| ==> es[k].productQuantity >= 0
    ensures es[i].productQuantity <= Sum(es)
  {
    NonNegativeSum(es[1..]);
    if i > 0 {
      EntryAtMostSum(es[1..], i - 1);
    }
  }

  lemma {:induction false} NonNegativeSum(es: seq<ProductByCategory>)
    requires forall k :: 0 <= k < |es| ==> es[k].productQuantity >= 0
    ensures Sum(es) >= 0
  {
    if |es| > 0 {
      NonNegativeSum(es[1..]);
    }
  }

  /** An element at two positions occurs at least twice. */
  lemma TwiceInSeq<T>(s: seq<T>, i: int, j: int)
    requires 0 <= i < j < |s| && s[i] == s[j]
    ensures multiset(s)[s[i]] >= 2
  {
    assert s == s[..i] + [s[i]] + s[i + 1..j] + [s[j]] + s[j + 1..];
  }

  /** A duplicate-free list has as many elements as its set. */
  lemma {:induction false} SizeOfDistinct(cs: seq<string>)
    requires NoDuplicates(cs)
    ensures |set c | c in cs| == |cs|
  {
    if |cs| > 0 {
      SizeOfDistinct(cs[1..]);
      assert cs[0] !in cs[1..] by {
        forall k | 0 <= k < |cs[1..]| ensures cs[1..][k] != cs[0] {
          assert cs[1..][k] == cs[k + 1];
        }
      }
      assert (set c | c in cs) == {cs[0]} + (set c | c in cs[1..]) by {
        assert cs == [cs[0]] + cs[1..];
      }
    }
  }

  /** `get_stats`: the three counts and the histogram. The counts cannot be
      `None` here, so the zero fallbacks never apply. */
  function GetStats(rows: seq<Product>, collectionRows: seq<Collection>): (st: BasicStats)
    ensures st.productsCount == |rows|
    ensures st.collectionsCount == |collectionRows|
    ensures st.categoriesCount == |Categories(rows)|
    ensures IsHistogram(rows, st.productsByCategory)
    ensures |st.productsByCategory| == st.categoriesCount
    ensures Sum(st.productsByCategory) == st.productsCount
  {
    BasicStats(|rows|, |collectionRows|, |Categories(rows)|, ProductsByCategory(rows))
  }
}
