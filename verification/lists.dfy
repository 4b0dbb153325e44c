/** The list operations the management screens use to keep their in-memory
    lists in step with the server without fetching again: keep what a
    predicate accepts (search, delete), and overwrite what a predicate picks
    out (edit). */
module Lists {

  /** `a` is `b` with some elements left out, order kept. */
  predicate IsSubsequence<T(==)>(a: seq<T>, b: seq<T>)
    decreases |b|
  {
    |a| <= |b| &&
    (a == [] || (a[0] == b[0] && IsSubsequence(a[1..], b[1..])) || IsSubsequence(a, b[1..]))
  }

  /** `xs.filter(keep)`: the order-preserving subsequence of the elements
      `keep` accepts. */
  function Filter<T(==)>(xs: seq<T>, keep: T -> bool): (r: seq<T>)
    ensures IsSubsequence(r, xs)
    ensures forall i :: 0 <= i < |r| ==> keep(r[i])
  {
    if |xs| == 0 then []
    else
      var rest := Filter(xs[1..], keep);
      SubsequenceCons(rest, xs);
      if keep(xs[0]) then [xs[0]] + rest else rest
  }

  /** Filtering keeps each accepted value exactly as often as it occurs,
      and no other. */
  lemma {:induction false} FilterMultiset<T>(xs: seq<T>, keep: T -> bool)
    ensures multiset(Filter(xs, keep)) <= multiset(xs)
    ensures forall x | x in xs && keep(x) :: multiset(Filter(xs, keep))[x] == multiset(xs)[x]
  {
    if |xs| > 0 {
      FilterMultiset(xs[1..], keep);
      assert xs == [xs[0]] + xs[1..];
    }
  }

  /** A subsequence of the tail is one of the whole list, with or without
      the head in front. */
  lemma SubsequenceCons<T>(a: seq<T>, b: seq<T>)
    requires |b| > 0 && IsSubsequence(a, b[1..])
    ensures IsSubsequence(a, b)
    ensures IsSubsequence([b[0]] + a, b)
  {
    assert ([b[0]] + a)[1..] == a;
  }

  /** Filtering with a predicate that accepts every element changes nothing. */
  lemma {:induction false} FilterKeepsAll<T>(xs: seq<T>, keep: T -> bool)
    requires forall i :: 0 <= i < |xs| ==> keep(xs[i])
    ensures Filter(xs, keep) == xs
  {
    if |xs| > 0 {
      FilterKeepsAll(xs[1..], keep);
      assert [xs[0]] + xs[1..] == xs;
    }
  }

  /** Filtering twice with the same predicate is filtering once. */
  lemma FilterIdempotent<T>(xs: seq<T>, keep: T -> bool)
    ensures Filter(Filter(xs, keep), keep) == Filter(xs, keep)
  {
    FilterKeepsAll(Filter(xs, keep), keep);
  }

  /** Only what the predicates say about the elements present matters: two
      predicates that agree on every element of `xs` filter it alike. */
  lemma {:induction false} FilterAgreeing<T>(xs: seq<T>, f: T -> bool, g: T -> bool)
    requires forall i :: 0 <= i < |xs| ==> f(xs[i]) == g(xs[i])
    ensures Filter(xs, f) == Filter(xs, g)
  {
    if |xs| > 0 {
      FilterAgreeing(xs[1..], f, g);
    }
  }

  /** An element appended at the end that the predicate rejects is simply
      dropped. */
  lemma {:induction false} FilterAppendDropped<T>(xs: seq<T>, y: T, keep: T -> bool)
    requires !keep(y)
    ensures Filter(xs + [y], keep) == Filter(xs, keep)
  {
    if |xs| == 0 {
      assert xs + [y] == [y];
      assert [y][1..] == [];
    } else {
      assert (xs + [y])[1..] == xs[1..] + [y];
      FilterAppendDropped(xs[1..], y, keep);
    }
  }

  /** `xs.map(x => matches(x) ? y : x)`: every element `matches` picks out is
      overwritten with `y`, every other element stays where it was. */
  function ReplaceWhere<T>(xs: seq<T>, matches: T -> bool, y: T): (r: seq<T>)
    ensures |r| == |xs|
  {
    seq(|xs|, i requires 0 <= i < |xs| => if matches(xs[i]) then y else xs[i])
  }

  /** Replacing leaves the length and every unmatched element as they were,
      puts `y` at every matched position, and adds nothing new. */
  lemma ReplaceWhereEffect<T>(xs: seq<T>, matches: T -> bool, y: T)
    ensures forall i :: 0 <= i < |xs| && !matches(xs[i]) ==> ReplaceWhere(xs, matches, y)[i] == xs[i]
    ensures forall i :: 0 <= i < |xs| && matches(xs[i]) ==> ReplaceWhere(xs, matches, y)[i] == y
    ensures forall z :: z in ReplaceWhere(xs, matches, y) ==> z == y || z in xs
  {
  }

  /** When nothing matches, replacing is the identity. */
  lemma ReplaceWhereNoMatch<T>(xs: seq<T>, matches: T -> bool, y: T)
    requires forall i :: 0 <= i < |xs| ==> !matches(xs[i])
    ensures ReplaceWhere(xs, matches, y) == xs
  {
  }

  /** Replacing with a value the predicate itself picks out is idempotent:
      doing it a second time changes nothing. */
  lemma ReplaceWhereIdempotent<T>(xs: seq<T>, matches: T -> bool, y: T)
    requires matches(y)
    ensures ReplaceWhere(ReplaceWhere(xs, matches, y), matches, y) == ReplaceWhere(xs, matches, y)
  {
  }
}
