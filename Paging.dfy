/** The query shape every listing shares: filter a collection, sort it
    newest first (`sort({ createdAt: -1 })`), then `skip`/`limit` and report
    `total`, `currentPage` and `totalPages = Math.ceil(total / limit)`. */
module Paging {
  import opened Wrappers
  import opened Models

  const DefaultPage: nat := 1
  const DefaultLimit: nat := 10

  /** The ids below `n` of the records of `m` that satisfy `keep`, newest
      (largest) first. */
  function NewestFirst<T>(m: map<Id, T>, keep: T -> bool, n: nat): (ids: seq<Id>)
    ensures forall i | 0 <= i < |ids| :: ids[i] in m && ids[i] < n && keep(m[ids[i]])
    ensures forall k | k in m && k < n && keep(m[k]) :: k in ids
    ensures forall i, j | 0 <= i < j < |ids| :: ids[i] > ids[j]
  {
    if n == 0 then []
    else (if n - 1 in m && keep(m[n - 1]) then [n - 1] else []) + NewestFirst(m, keep, n - 1)
  }

  /** The ids of `m` below `n` whose records satisfy `keep`, as a set. */
  function Matching<T>(m: map<Id, T>, keep: T -> bool, n: nat): set<Id> {
    set k | k in m && k < n && keep(m[k])
  }

  /** Raising the bound by one adds at most the id just below it. */
  lemma MatchingStep<T>(m: map<Id, T>, keep: T -> bool, n: nat)
    requires n > 0
    ensures n - 1 !in Matching(m, keep, n - 1)
    ensures Matching(m, keep, n) ==
      Matching(m, keep, n - 1) + (if n - 1 in m && keep(m[n - 1]) then {n - 1} else {})
  {
  }

  /** The newest-first listing holds each matching record exactly once, so
      its length is the number of matching records. */
  lemma {:induction false} NewestFirstCount<T>(m: map<Id, T>, keep: T -> bool, n: nat)
    ensures |NewestFirst(m, keep, n)| == |Matching(m, keep, n)|
  {
    if n > 0 {
      NewestFirstCount(m, keep, n - 1);
      MatchingStep(m, keep, n);
    } else {
      assert Matching(m, keep, 0) == {};
    }
  }

  function Min(a: nat, b: nat): nat { if a <= b then a else b }

  /** `skip(skip).limit(limit)` on a sorted result, for a positive limit. */
  function Window<T>(xs: seq<T>, skip: nat, limit: nat): (w: seq<T>)
    ensures |w| <= limit
    ensures |w| == if skip >= |xs| then 0 else Min(limit, |xs| - skip)
    ensures forall i | 0 <= i < |w| :: w[i] == xs[skip + i]
  {
    if skip >= |xs| then [] else xs[skip..skip + Min(limit, |xs| - skip)]
  }

  /** `Math.ceil(total / limit)` for a positive limit: the fewest pages of
      `limit` items that hold `total` items. */
  function CeilDiv(total: nat, limit: nat): (pages: nat)
    requires limit > 0
    ensures pages * limit >= total
    ensures pages > 0 ==> (pages - 1) * limit < total
  {
    (total + limit - 1) / limit
  }

  /** Multiplying by a natural number preserves order. */
  lemma {:induction false} MulMonotone(x: nat, y: nat, l: nat)
    requires x <= y
    ensures x * l <= y * l
    decreases y - x
  {
    if x < y {
      MulMonotone(x, y - 1, l);
      assert y * l == (y - 1) * l + l;
    }
  }

  /** If `b` pages of `l` items fit in `a` items, `a / l` is at least `b`. */
  lemma DivLowerBound(a: nat, b: nat, l: nat)
    requires l > 0 && b * l <= a
    ensures b <= a / l
  {
    var q, r := a / l, a % l;
    assert a == q * l + r && r < l;
    if q < b {
      MulMonotone(q + 1, b, l);
    }
  }

  /** `k` lies on the `k / limit`-th block of `limit` items (counting from 0). */
  lemma DivBounds(k: nat, limit: nat)
    requires limit > 0
    ensures (k / limit) * limit <= k < (k / limit) * limit + limit
  {
    assert k == (k / limit) * limit + k % limit;
  }

  lemma WindowContains<T>(xs: seq<T>, limit: nat, k: nat, q: nat)
    requires limit > 0 && k < |xs| && q * limit <= k < q * limit + limit
    ensures xs[k] in Window(xs, q * limit, limit)
  {
    var w := Window(xs, q * limit, limit);
    assert w[k - q * limit] == xs[k];
  }

  lemma BlockWithinPages(n: nat, limit: nat, k: nat, q: nat)
    requires limit > 0 && k < n && q * limit <= k
    ensures q + 1 <= CeilDiv(n, limit)
  {
    assert (q + 1) * limit == q * limit + limit;
    DivLowerBound(n + limit - 1, q + 1, limit);
  }

  /** Every result lies on one of the pages `1..totalPages`: page
      `k / limit + 1` holds the `k`-th result. */
  lemma PagesCoverResults<T>(xs: seq<T>, limit: nat, k: nat)
    requires limit > 0 && k < |xs|
    ensures 1 <= k / limit + 1 <= CeilDiv(|xs|, limit)
    ensures xs[k] in Window(xs, (k / limit) * limit, limit)
  {
    var q := k / limit;
    DivBounds(k, limit);
    WindowContains(xs, limit, k, q);
    BlockWithinPages(|xs|, limit, k, q);
  }

  /** The records one page shows: all of them when the limit is 0 (no
      limit), otherwise the `page`-th block of `limit` (counting from 1). */
  function PageOf<T>(xs: seq<T>, page: nat, limit: nat): (p: seq<T>)
    requires limit == 0 || page >= 1
  {
    if limit == 0 then xs else Window(xs, (page - 1) * limit, limit)
  }

  /** The JSON body of a listing. `totalPages` is absent when the limit is 0:
      `Math.ceil(total / 0)` is not a number and serialises as null. */
  datatype PageResult<T> = PageResult(items: seq<T>, totalPages: Option<nat>, currentPage: nat, total: nat)

  /** Sorting, paging and counting a filtered result. A limit of 0 means no
      limit to the database; page 0 with a positive limit asks for a
      negative skip, which the database refuses (the handler replies 500). */
  function Paginate<T>(matches: seq<T>, page: nat, limit: nat): (r: Reply<PageResult<T>>)
    ensures r.Ok? <==> limit == 0 || page >= 1
    ensures r.Fail? ==> r == Fail(500, ServerError)
    ensures r.Ok? ==> r.code == 200 && r.value.total == |matches| && r.value.currentPage == page
    ensures r.Ok? ==> r.value.items == PageOf(matches, page, limit)
    ensures r.Ok? && limit == 0 ==> r.value.items == matches && r.value.totalPages == None
    ensures r.Ok? && limit > 0 ==>
      && r.value.items == Window(matches, (page - 1) * limit, limit)
      && r.value.totalPages == Some(CeilDiv(|matches|, limit))
  {
    if limit == 0 then Ok(200, PageResult(matches, None, page, |matches|))
    else if page == 0 then Fail(500, ServerError)
    else Ok(200, PageResult(Window(matches, (page - 1) * limit, limit), Some(CeilDiv(|matches|, limit)), page, |matches|))
  }

  /** A window of a strictly descending run of matching ids is one too. */
  lemma WindowOfListing<T>(m: map<Id, T>, keep: T -> bool, xs: seq<Id>, skip: nat, limit: nat)
    requires forall i | 0 <= i < |xs| :: xs[i] in m && keep(m[xs[i]])
    requires forall i, j | 0 <= i < j < |xs| :: xs[i] > xs[j]
    ensures forall i | 0 <= i < |Window(xs, skip, limit)| ::
      Window(xs, skip, limit)[i] in m && keep(m[Window(xs, skip, limit)[i]])
    ensures forall i, j | 0 <= i < j < |Window(xs, skip, limit)| ::
      Window(xs, skip, limit)[i] > Window(xs, skip, limit)[j]
  {
    var w := Window(xs, skip, limit);
    forall i, j | 0 <= i < j < |w|
      ensures w[i] > w[j]
    {
      assert w[i] == xs[skip + i] && w[j] == xs[skip + j];
    }
  }

  /** A page of a strictly descending run of matching ids is one too. */
  lemma PageOfListing<T>(m: map<Id, T>, keep: T -> bool, xs: seq<Id>, page: nat, limit: nat)
    requires forall i | 0 <= i < |xs| :: xs[i] in m && keep(m[xs[i]])
    requires forall i, j | 0 <= i < j < |xs| :: xs[i] > xs[j]
    ensures var r := Paginate(xs, page, limit);
      r.Ok? ==>
        && (forall i | 0 <= i < |r.value.items| :: r.value.items[i] in m && keep(m[r.value.items[i]]))
        && (forall i, j | 0 <= i < j < |r.value.items| :: r.value.items[i] > r.value.items[j])
  {
    if limit > 0 && page > 0 {
      WindowOfListing(m, keep, xs, (page - 1) * limit, limit);
    }
  }

  /** A page of a newest-first listing holds only matches, still newest
      first, and its total counts every match. */
  lemma PageOfNewestFirst<T>(m: map<Id, T>, keep: T -> bool, n: nat, page: nat, limit: nat)
    ensures var r := Paginate(NewestFirst(m, keep, n), page, limit);
      r.Ok? ==>
        && (forall i | 0 <= i < |r.value.items| :: r.value.items[i] in m && keep(m[r.value.items[i]]))
        && (forall i, j | 0 <= i < j < |r.value.items| :: r.value.items[i] > r.value.items[j])
        && r.value.total == |Matching(m, keep, n)|
  {
    NewestFirstCount(m, keep, n);
    PageOfListing(m, keep, NewestFirst(m, keep, n), page, limit);
  }
}
