/** What rows of evidence say about the items they were built from, field by field, and which items
    and rows are refused. */
module EvidenceMeaning {

  import opened Basics
  import opened Evidence

  // Sums over items.

  /** An item of the hour with this dimension. */
  predicate Falls(c: Context, item: Item, dim: Dimension) {
    c.hour <= item.at && item.at < c.hour + 3600 && item.dim == dim
  }

  predicate Timely(c: Context, item: Item) { c.hour <= item.at && item.at < c.hour + 3600 }

  function Quota(item: Item): int { item.quota }

  function Prompt(item: Item): int { item.prompt }

  function Completion(item: Item): int { item.completion }

  function One(item: Item): int { 1 }

  ghost function SumFor(c: Context, items: seq<Item>, dim: Dimension, f: Item -> int): int {
    if items == [] then 0
    else
      var last := items[|items| - 1];
      SumFor(c, items[..|items| - 1], dim, f) + if Falls(c, last, dim) then f(last) else 0
  }

  ghost function SumAll(c: Context, items: seq<Item>, f: Item -> int): int {
    if items == [] then 0
    else
      var last := items[|items| - 1];
      SumAll(c, items[..|items| - 1], f) + if Timely(c, last) then f(last) else 0
  }

  ghost predicate SomeFall(c: Context, items: seq<Item>, dim: Dimension) {
    exists item :: item in items && Falls(c, item, dim)
  }

  /** at is the earliest and until the latest time of the items of a dimension. */
  ghost predicate Spans(c: Context, items: seq<Item>, dim: Dimension, at: int, until: int) {
    && (exists item :: item in items && Falls(c, item, dim) && item.at == at)
    && (exists item :: item in items && Falls(c, item, dim) && item.at == until)
    && (forall item :: item in items && Falls(c, item, dim) ==> at <= item.at <= until)
  }

  ghost predicate FiguresSay(c: Context, items: seq<Item>, dim: Dimension, f: Figures) {
    && f.requests == SumFor(c, items, dim, One) && f.quota == SumFor(c, items, dim, Quota)
    && f.prompt == SumFor(c, items, dim, Prompt) && f.completion == SumFor(c, items, dim, Completion)
    && Spans(c, items, dim, f.first, f.last)
  }

  /** The rows say what the items say: a row for exactly the dimensions of the hour's items, with
      their number, the sums of their fields and the times of the first and the last. */
  ghost predicate RowsSay(c: Context, rows: Rows, items: seq<Item>) {
    && (forall dim :: dim in rows <==> SomeFall(c, items, dim))
    && (forall dim :: dim in rows ==>
          rows[dim].context == c && rows[dim].dim == dim && FiguresSay(c, items, dim, rows[dim].figures))
  }

  ghost predicate OfSays(c: Context, items: seq<Item>, dim: Dimension) {
    var of := Of(c, items, dim);
    && (of.Some? <==> SomeFall(c, items, dim)) && (of.Some? ==> FiguresSay(c, items, dim, of.value))
    && (of.None? ==> forall f: Item -> int :: SumFor(c, items, dim, f) == 0)
  }

  lemma FallsStep(c: Context, before: seq<Item>, last: Item, dim: Dimension)
    ensures SomeFall(c, before + [last], dim) <==> SomeFall(c, before, dim) || Falls(c, last, dim)
    ensures forall item :: item in before + [last] <==> item in before || item == last
  {
    assert last in before + [last];
  }

  lemma SpanStep(c: Context, before: seq<Item>, last: Item, dim: Dimension, at: int, until: int)
    requires Spans(c, before, dim, at, until)
    ensures Falls(c, last, dim) ==> Spans(c, before + [last], dim, Min(at, last.at), Max(until, last.at))
    ensures !Falls(c, last, dim) ==> Spans(c, before + [last], dim, at, until)
  {
    FallsStep(c, before, last, dim);
    var first :| first in before && Falls(c, first, dim) && first.at == at;
    var end :| end in before && Falls(c, end, dim) && end.at == until;
    assert first in before + [last] && end in before + [last] && last in before + [last];
  }

  lemma OfStep(c: Context, before: seq<Item>, last: Item, dim: Dimension)
    requires OfSays(c, before, dim)
    ensures OfSays(c, before + [last], dim)
  {
    assert (before + [last])[..|before|] == before;
    FallsStep(c, before, last, dim);
    var of := Of(c, before, dim);
    if of.Some? { SpanStep(c, before, last, dim, of.value.first, of.value.last); }
  }

  lemma {:induction false} OfSaysItems(c: Context, items: seq<Item>, dim: Dimension)
    ensures OfSays(c, items, dim)
    decreases |items|
  {
    if items != [] {
      OfSaysItems(c, items[..|items| - 1], dim);
      assert items == items[..|items| - 1] + [items[|items| - 1]];
      OfStep(c, items[..|items| - 1], items[|items| - 1], dim);
    }
  }

  lemma {:induction false} TotalsSay(c: Context, items: seq<Item>)
    ensures QuotaOf(c, items) == SumAll(c, items, Quota) && CountOf(c, items) == SumAll(c, items, One)
    decreases |items|
  {
    if items != [] { TotalsSay(c, items[..|items| - 1]); }
  }

  lemma SummarySays(c: Context, rows: Rows, items: seq<Item>)
    requires Summarizes(c, rows, items)
    ensures RowsSay(c, rows, items)
  {
    forall dim ensures Had(rows, dim) == Of(c, items, dim) && OfSays(c, items, dim) { OfSaysItems(c, items, dim); }
    forall dim ensures dim in rows <==> SomeFall(c, items, dim) {
      assert Had(rows, dim) == Of(c, items, dim) && OfSays(c, items, dim);
    }
    forall dim | dim in rows ensures FiguresSay(c, items, dim, rows[dim].figures) {
      assert Had(rows, dim) == Of(c, items, dim) && OfSays(c, items, dim);
    }
  }

  // Sums over rows.

  ghost function SumAlong(c: Context, items: seq<Item>, dims: seq<Dimension>, f: Item -> int): int {
    if dims == [] then 0
    else SumAlong(c, items, dims[..|dims| - 1], f) + SumFor(c, items, dims[|dims| - 1], f)
  }

  predicate Unique(dims: seq<Dimension>) { forall i, j :: 0 <= i < j < |dims| ==> dims[i] != dims[j] }

  lemma {:induction false} AlongStep(c: Context, items: seq<Item>, last: Item, dims: seq<Dimension>, f: Item -> int)
    requires Unique(dims)
    ensures SumAlong(c, items + [last], dims, f) ==
      SumAlong(c, items, dims, f) + if Timely(c, last) && last.dim in dims then f(last) else 0
    decreases |dims|
  {
    if dims != [] {
      var n := |dims| - 1;
      assert Unique(dims[..n]) && dims == dims[..n] + [dims[n]];
      AlongStep(c, items, last, dims[..n], f);
      assert (items + [last])[..|items|] == items;
      assert dims[n] !in dims[..n];
    }
  }

  lemma {:induction false} NothingAlong(c: Context, dims: seq<Dimension>, f: Item -> int)
    ensures SumAlong(c, [], dims, f) == 0
    decreases |dims|
  {
    if dims != [] { NothingAlong(c, dims[..|dims| - 1], f); }
  }

  /** Every item of the hour belongs to one dimension: along all dimensions nothing is lost or counted
      twice. */
  lemma {:induction false} AlongIsAll(c: Context, items: seq<Item>, dims: seq<Dimension>, f: Item -> int)
    requires Unique(dims) && forall item :: item in items && Timely(c, item) ==> item.dim in dims
    ensures SumAlong(c, items, dims, f) == SumAll(c, items, f)
    decreases |items|
  {
    if items == [] {
      NothingAlong(c, dims, f);
    } else {
      var n := |items| - 1;
      assert items == items[..n] + [items[n]];
      AlongIsAll(c, items[..n], dims, f);
      AlongStep(c, items[..n], items[n], dims, f);
    }
  }

  /** One figure added up over rows. */
  ghost function SumRows(list: seq<Row>, f: Figures -> int): int {
    if list == [] then 0 else SumRows(list[..|list| - 1], f) + f(list[|list| - 1].figures)
  }

  function RowQuota(f: Figures): int { f.quota }

  function RowRequests(f: Figures): int { f.requests }

  function RowPrompt(f: Figures): int { f.prompt }

  function RowCompletion(f: Figures): int { f.completion }

  function DimsOf(list: seq<Row>): seq<Dimension> { seq(|list|, i requires 0 <= i < |list| => list[i].dim) }

  lemma {:induction false} RowsAreAlong(c: Context, items: seq<Item>, list: seq<Row>, f: Figures -> int, g: Item -> int)
    requires forall i :: 0 <= i < |list| ==> f(list[i].figures) == SumFor(c, items, list[i].dim, g)
    ensures SumRows(list, f) == SumAlong(c, items, DimsOf(list), g)
    decreases |list|
  {
    if list != [] {
      var n := |list| - 1;
      assert DimsOf(list)[..n] == DimsOf(list[..n]);
      RowsAreAlong(c, items, list[..n], f, g);
    }
  }

  lemma DimsCover(c: Context, rows: Rows, items: seq<Item>, list: seq<Row>)
    requires RowsSay(c, rows, items) && Lists(list, rows)
    ensures Unique(DimsOf(list)) && forall item :: item in items && Timely(c, item) ==> item.dim in DimsOf(list)
  {
    forall item | item in items && Timely(c, item) ensures item.dim in DimsOf(list) {
      assert Falls(c, item, item.dim);
      assert SomeFall(c, items, item.dim);
      var k :| 0 <= k < |list| && list[k].dim == item.dim;
      assert DimsOf(list)[k] == item.dim;
    }
  }

  /** The rows add up to the hour: requests, charge units and tokens, whatever order they are in. */
  lemma RowsAddUp(c: Context, rows: Rows, items: seq<Item>, list: seq<Row>)
    requires RowsSay(c, rows, items) && Lists(list, rows)
    ensures SumRows(list, RowRequests) == SumAll(c, items, One)
    ensures SumRows(list, RowQuota) == SumAll(c, items, Quota)
    ensures SumRows(list, RowPrompt) == SumAll(c, items, Prompt)
    ensures SumRows(list, RowCompletion) == SumAll(c, items, Completion)
  {
    var dims := DimsOf(list);
    DimsCover(c, rows, items, list);
    forall i | 0 <= i < |list| ensures FiguresSay(c, items, list[i].dim, list[i].figures) {
      assert list[i].dim in rows;
    }
    RowsAreAlong(c, items, list, RowRequests, One);
    RowsAreAlong(c, items, list, RowQuota, Quota);
    RowsAreAlong(c, items, list, RowPrompt, Prompt);
    RowsAreAlong(c, items, list, RowCompletion, Completion);
    AlongIsAll(c, items, dims, One);
    AlongIsAll(c, items, dims, Quota);
    AlongIsAll(c, items, dims, Prompt);
    AlongIsAll(c, items, dims, Completion);
  }

  // One pass.

  lemma {:induction false} FetchedThen(c: Context, items: seq<Item>, fetchedAt: int)
    requires Built(c, items, fetchedAt).Ok?
    ensures forall dim :: dim in Built(c, items, fetchedAt).value.rows ==>
      Built(c, items, fetchedAt).value.rows[dim].fetchedAt == fetchedAt
    decreases |items|
  {
    if items != [] { FetchedThen(c, items[..|items| - 1], fetchedAt); }
  }

  /** What a page build makes of its items, and what the build says of the whole hour. */
  lemma {:induction false} BuiltSays(c: Context, items: seq<Item>, fetchedAt: int, list: seq<Row>)
    requires Built(c, items, fetchedAt).Ok? && Lists(list, Built(c, items, fetchedAt).value.rows)
    ensures var b := Built(c, items, fetchedAt).value;
      && RowsSay(c, b.rows, items) && (forall dim :: dim in b.rows ==> b.rows[dim].fetchedAt == fetchedAt)
      && b.quota == SumAll(c, items, Quota) == SumRows(list, RowQuota)
      && b.requests == SumAll(c, items, One) == SumRows(list, RowRequests)
  {
    var b := Built(c, items, fetchedAt).value;
    BuiltSummarizes(c, items, fetchedAt);
    SummarySays(c, b.rows, items);
    TotalsSay(c, items);
    RowsAddUp(c, b.rows, items, list);
    FetchedThen(c, items, fetchedAt);
  }

  /** Whole, non-negative numbers and a token to charge. */
  predicate Countable(item: Item) {
    item.exact && item.quota >= 0 && item.prompt >= 0 && item.completion >= 0 && item.dim.token > 0
  }

  lemma {:induction false} DimensionBelowTotal(c: Context, items: seq<Item>, dim: Dimension)
    requires forall item :: item in items && Timely(c, item) ==> Countable(item)
    ensures 0 <= SumFor(c, items, dim, Quota) <= SumAll(c, items, Quota)
    decreases |items|
  {
    if items != [] {
      var before, last := items[..|items| - 1], items[|items| - 1];
      assert items == before + [last] && last in items;
      DimensionBelowTotal(c, before, dim);
      assert Timely(c, last) ==> Countable(last);
    }
  }

  ghost predicate TokensFit(c: Context, items: seq<Item>, dim: Dimension) {
    SumFor(c, items, dim, Prompt) <= MAX_INT64 && SumFor(c, items, dim, Completion) <= MAX_INT64
  }

  lemma SumsFitIff(c: Context, items: seq<Item>)
    requires forall item :: item in items && Timely(c, item) ==> Countable(item)
    ensures SumsFit(c, items) <==>
      && SumAll(c, items, Quota) <= MAX_INT64
      && forall dim :: TokensFit(c, items, dim)
  {
    TotalsSay(c, items);
    forall dim
      ensures OfSays(c, items, dim) && SumFor(c, items, dim, Quota) <= SumAll(c, items, Quota)
    {
      OfSaysItems(c, items, dim);
      DimensionBelowTotal(c, items, dim);
    }
    if SumsFit(c, items) {
      forall dim ensures TokensFit(c, items, dim) {
        assert AmountFits(Of(c, items, dim)) && OfSays(c, items, dim);
      }
    } else if SumAll(c, items, Quota) <= MAX_INT64 {
      var dim :| !AmountFits(Of(c, items, dim));
      assert OfSays(c, items, dim);
      assert SumFor(c, items, dim, Quota) <= SumAll(c, items, Quota);
      assert !TokensFit(c, items, dim);
    }
  }

  lemma ItemsCountable(c: Context, items: seq<Item>)
    ensures ItemsExact(c, items) <==> forall item :: item in items && Timely(c, item) ==> Countable(item)
  {
    if ItemsExact(c, items) {
      forall item | item in items && Timely(c, item) ensures Countable(item) {
        var i :| 0 <= i < |items| && items[i] == item;
        assert InHour(c, items[i]);
      }
    }
    if forall item :: item in items && Timely(c, item) ==> Countable(item) {
      forall i | 0 <= i < |items| && InHour(c, items[i]) ensures Exact(items[i]) {
        assert items[i] in items && Timely(c, items[i]);
        assert Countable(items[i]);
      }
    }
  }

  /** A page is refused exactly for an item of the hour that cannot be counted, for an hour's charge
      units beyond int64, or for a dimension's tokens beyond int64. */
  lemma {:induction false} BuildsExactlyWhen(c: Context, items: seq<Item>, fetchedAt: int)
    ensures Built(c, items, fetchedAt).Ok? <==>
      && (forall item :: item in items && Timely(c, item) ==> Countable(item))
      && SumAll(c, items, Quota) <= MAX_INT64
      && forall dim :: TokensFit(c, items, dim)
  {
    BuildsIff(c, items, fetchedAt);
    ItemsCountable(c, items);
    if ItemsExact(c, items) { SumsFitIff(c, items); }
  }

  // Merged pages.

  /** Rows merged from pages say what all items of the pages say, and add up to them. */
  lemma {:induction false} MergedSays(c: Context, pages: seq<Page>, list: seq<Row>)
    requires Good(c, Flat(pages)) && forall i :: 0 <= i < |pages| ==> PageListed(c, pages[i])
    requires MergedPages(pages).Ok? && Lists(list, MergedPages(pages).value)
    ensures RowsSay(c, MergedPages(pages).value, Flat(pages))
    ensures SumRows(list, RowQuota) == SumAll(c, Flat(pages), Quota)
    ensures SumRows(list, RowRequests) == SumAll(c, Flat(pages), One)
  {
    PagesSummarize(c, pages);
    SummarySays(c, MergedPages(pages).value, Flat(pages));
    RowsAddUp(c, MergedPages(pages).value, Flat(pages), list);
  }

  /** A row can join the one kept for its dimension: same context, nothing negative, no sum beyond
      int64. */
  predicate Joins(kept: Row, more: Row) {
    && kept.context == more.context
    && more.figures.quota >= 0 && more.figures.requests >= 0
    && more.figures.prompt >= 0 && more.figures.completion >= 0
    && kept.figures.quota + more.figures.quota <= MAX_INT64
    && kept.figures.requests + more.figures.requests <= MAX_INT64
    && kept.figures.prompt + more.figures.prompt <= MAX_INT64
    && kept.figures.completion + more.figures.completion <= MAX_INT64
  }

  ghost predicate AllJoin(target: Rows, list: seq<Row>) {
    forall i :: 0 <= i < |list| && list[i].dim in target ==> Joins(target[list[i].dim], list[i])
  }

  lemma {:induction false} OthersUntouched(target: Rows, list: seq<Row>, dim: Dimension)
    requires Merged(target, list).Ok? && forall i :: 0 <= i < |list| ==> list[i].dim != dim
    ensures dim in Merged(target, list).value <==> dim in target
    ensures dim in target ==> Merged(target, list).value[dim] == target[dim]
    decreases |list|
  {
    if list != [] { OthersUntouched(target, list[..|list| - 1], dim); }
  }

  /** Rows of different dimensions merge exactly when each can join the row kept for its dimension. */
  lemma {:induction false} MergesExactlyWhen(target: Rows, list: seq<Row>)
    requires Distinct(list)
    ensures Merged(target, list).Ok? <==> AllJoin(target, list)
    decreases |list|
  {
    if list != [] {
      var n := |list| - 1;
      MergesExactlyWhen(target, list[..n]);
      if Merged(target, list[..n]).Ok? { OthersUntouched(target, list[..n], list[n].dim); }
    }
  }

  // Hashes.

  /** A content hash tells apart any two sets of rows that differ in more than when they were fetched. */
  lemma ContentHashIff(a: Rows, b: Rows)
    requires (forall dim :: dim in a ==> a[dim].dim == dim) && (forall dim :: dim in b ==> b[dim].dim == dim)
    ensures ContentHash(a) == ContentHash(b) <==>
      && a.Keys == b.Keys
      && forall dim :: dim in a && dim in b ==> a[dim].context == b[dim].context && a[dim].figures == b[dim].figures
  {
    if ContentHash(a) == ContentHash(b) {
      HashFinds(a, b);
      HashFinds(b, a);
    } else if a.Keys == b.Keys {
      if forall dim :: dim in a ==> a[dim].context == b[dim].context && a[dim].figures == b[dim].figures {
        assert forall dim :: dim in a ==> RowHash(a[dim]) == RowHash(b[dim]);
      }
    }
  }

  lemma HashFinds(a: Rows, b: Rows)
    requires (forall dim :: dim in a ==> a[dim].dim == dim) && (forall dim :: dim in b ==> b[dim].dim == dim)
    requires ContentHash(a) <= ContentHash(b)
    ensures forall dim :: dim in a ==>
      dim in b && a[dim].context == b[dim].context && a[dim].figures == b[dim].figures
  {
    forall dim | dim in a
      ensures dim in b && a[dim].context == b[dim].context && a[dim].figures == b[dim].figures
    {
      assert RowHash(a[dim]) in ContentHash(b);
      var other :| other in b && RowHash(b[other]) == RowHash(a[dim]);
      assert RowHash(b[other]).dim == b[other].dim == other && RowHash(a[dim]).dim == dim;
    }
  }
}
