/** Usage logs of one hour, page by page, become one row of evidence per billing dimension. Building
    page by page and merging must give what one pass over all items gives. */
module Evidence {

  import opened Basics

  /** The dimension hash covers these fields; the source reference is an injective keyed hash of the
      token. */
  datatype Dimension = Dimension(token: int, pricing: string, group: string, model: string, mode: string)

  /** exact: quota and token counts were decoded as exact integers. */
  datatype Item = Item(at: int, exact: bool, quota: int, prompt: int, completion: int, dim: Dimension)

  /** What every row of one build shares. */
  datatype Context = Context(domain: string, epoch: string, hour: int, keyId: string, unit: string)

  datatype Figures = Figures(requests: int, quota: int, prompt: int, completion: int, first: int, last: int)

  datatype Row = Row(context: Context, dim: Dimension, figures: Figures, fetchedAt: int)

  type Rows = map<Dimension, Row>

  predicate InHour(c: Context, item: Item) { c.hour <= item.at < c.hour + 3600 }

  predicate Exact(item: Item) {
    item.exact && item.quota >= 0 && item.prompt >= 0 && item.completion >= 0 && item.dim.token > 0
  }

  function Single(item: Item): Figures { Figures(1, item.quota, item.prompt, item.completion, item.at, item.at) }

  function Sum(a: Figures, b: Figures): Figures {
    Figures(a.requests + b.requests, a.quota + b.quota, a.prompt + b.prompt, a.completion + b.completion,
        Min(a.first, b.first), Max(a.last, b.last))
  }

  function Join(a: Option<Figures>, b: Option<Figures>): Option<Figures> {
    if a.None? then b else if b.None? then a else Some(Sum(a.value, b.value))
  }

  // One pass.

  datatype Build = Build(rows: Rows, quota: int, requests: int)

  function Had(rows: Rows, dim: Dimension): Option<Figures> { if dim in rows then Some(rows[dim].figures) else None }

  function Amount(f: Option<Figures>): Figures { if f.Some? then f.value else Figures(0, 0, 0, 0, 0, 0) }

  /** One item; None of the sums may leave int64. */
  function Added(c: Context, b: Build, item: Item, fetchedAt: int): Result<Build> {
    if !InHour(c, item) then Ok(b)
    else if !Exact(item) then Err
    else
      var had := Had(b.rows, item.dim);
      var amount := Amount(had);
      if item.quota > MAX_INT64 - amount.quota || item.quota > MAX_INT64 - b.quota
         || item.prompt > MAX_INT64 - amount.prompt || item.completion > MAX_INT64 - amount.completion then Err
      else
        var row := Row(c, item.dim, Join(had, Some(Single(item))).value,
          if had.Some? then b.rows[item.dim].fetchedAt else fetchedAt);
        Ok(Build(b.rows[item.dim := row], b.quota + item.quota, b.requests + 1))
  }

  function Built(c: Context, items: seq<Item>, fetchedAt: int): Result<Build> {
    if items == [] then Ok(Build(map[], 0, 0))
    else
      var before := Built(c, items[..|items| - 1], fetchedAt);
      if before.Err? then Err else Added(c, before.value, items[|items| - 1], fetchedAt)
  }

  method BuildPage(c: Context, items: seq<Item>, fetchedAt: int) returns (r: Result<Build>)
    ensures r == Built(c, items, fetchedAt)
  {
    var rows: Rows := map[];
    var quota, requests := 0, 0;
    var i := 0;
    while i < |items|
      invariant 0 <= i <= |items|
      invariant Built(c, items[..i], fetchedAt) == Ok(Build(rows, quota, requests))
    {
      var item := items[i];
      assert items[..i + 1][..i] == items[..i];
      if InHour(c, item) {
        var amount := Amount(Had(rows, item.dim));
        if !Exact(item) || item.quota > MAX_INT64 - amount.quota || item.quota > MAX_INT64 - quota
           || item.prompt > MAX_INT64 - amount.prompt || item.completion > MAX_INT64 - amount.completion {
          PrefixFails(c, items, fetchedAt, i + 1);
          return Err;
        }
        var row := if item.dim in rows then rows[item.dim]
          else Row(c, item.dim, Figures(0, 0, 0, 0, item.at, item.at), fetchedAt);
        BuiltSummarizes(c, items[..i], fetchedAt);
        rows := rows[item.dim := row.(figures := Sum(row.figures, Single(item)))];
        quota, requests := quota + item.quota, requests + 1;
      }
      i := i + 1;
    }
    assert items[..i] == items;
    return Ok(Build(rows, quota, requests));
  }

  lemma {:induction false} PrefixFails(c: Context, items: seq<Item>, fetchedAt: int, n: nat)
    requires n <= |items| && Built(c, items[..n], fetchedAt).Err?
    ensures Built(c, items, fetchedAt).Err?
    decreases |items|
  {
    if n == |items| {
      assert items[..n] == items;
    } else {
      assert items[..|items| - 1][..n] == items[..n];
      PrefixFails(c, items[..|items| - 1], fetchedAt, n);
    }
  }

  // What a build must be: per dimension the joined figures of its items.

  function Of(c: Context, items: seq<Item>, dim: Dimension): Option<Figures> {
    if items == [] then None
    else
      var last := items[|items| - 1];
      Join(Of(c, items[..|items| - 1], dim), if InHour(c, last) && last.dim == dim then Some(Single(last)) else None)
  }

  function QuotaOf(c: Context, items: seq<Item>): int {
    if items == [] then 0
    else
      var last := items[|items| - 1];
      QuotaOf(c, items[..|items| - 1]) + if InHour(c, last) then last.quota else 0
  }

  function CountOf(c: Context, items: seq<Item>): int {
    if items == [] then 0
    else CountOf(c, items[..|items| - 1]) + if InHour(c, items[|items| - 1]) then 1 else 0
  }

  predicate ItemsExact(c: Context, items: seq<Item>) {
    forall i :: 0 <= i < |items| && InHour(c, items[i]) ==> Exact(items[i])
  }

  /** Rows that summarize the items, whoever built them. */
  ghost predicate Summarizes(c: Context, rows: Rows, items: seq<Item>) {
    && (forall dim :: Had(rows, dim) == Of(c, items, dim))
    && (forall dim :: dim in rows ==> rows[dim].context == c && rows[dim].dim == dim)
  }

  predicate AmountFits(f: Option<Figures>) {
    f.Some? ==> f.value.quota <= MAX_INT64 && f.value.prompt <= MAX_INT64 && f.value.completion <= MAX_INT64
  }

  /** All sums of the items stay inside int64. */
  ghost predicate SumsFit(c: Context, items: seq<Item>) {
    QuotaOf(c, items) <= MAX_INT64 && forall dim :: AmountFits(Of(c, items, dim))
  }

  predicate Nonnegative(f: Option<Figures>) {
    f.Some? ==> f.value.requests > 0 && f.value.quota >= 0 && f.value.prompt >= 0 && f.value.completion >= 0
  }

  lemma {:induction false} OfNonnegative(c: Context, items: seq<Item>, dim: Dimension)
    requires ItemsExact(c, items)
    ensures Nonnegative(Of(c, items, dim)) && QuotaOf(c, items) >= 0
    decreases |items|
  {
    if items != [] { OfNonnegative(c, items[..|items| - 1], dim); }
  }

  /** A successful build summarizes its items, with the hour's quota and count. */
  lemma {:induction false} BuiltSummarizes(c: Context, items: seq<Item>, fetchedAt: int)
    requires Built(c, items, fetchedAt).Ok?
    ensures var b := Built(c, items, fetchedAt).value;
      Summarizes(c, b.rows, items) && b.quota == QuotaOf(c, items) && b.requests == CountOf(c, items)
    decreases |items|
  {
    if items != [] { BuiltSummarizes(c, items[..|items| - 1], fetchedAt); }
  }

  lemma PrefixFits(c: Context, items: seq<Item>)
    requires items != [] && ItemsExact(c, items) && SumsFit(c, items)
    ensures ItemsExact(c, items[..|items| - 1]) && SumsFit(c, items[..|items| - 1])
  {
    var n := |items| - 1;
    assert ItemsExact(c, items[..n]);
    forall dim ensures AmountFits(Of(c, items[..n], dim)) {
      assert AmountFits(Of(c, items, dim));
      OfNonnegative(c, items[..n], dim);
    }
  }

  /** A build fails exactly on an inexact item of the hour or a sum beyond int64. */
  lemma {:induction false} BuildsIff(c: Context, items: seq<Item>, fetchedAt: int)
    ensures Built(c, items, fetchedAt).Ok? <==> ItemsExact(c, items) && SumsFit(c, items)
    decreases |items|
  {
    if items != [] {
      var n := |items| - 1;
      BuildsIff(c, items[..n], fetchedAt);
      if ItemsExact(c, items) && SumsFit(c, items) {
        PrefixFits(c, items);
        BuiltSummarizes(c, items[..n], fetchedAt);
        assert AmountFits(Of(c, items, items[n].dim));
        assert Had(Built(c, items[..n], fetchedAt).value.rows, items[n].dim) == Of(c, items[..n], items[n].dim);
      }
      if Built(c, items, fetchedAt).Ok? {
        BuiltSummarizes(c, items[..n], fetchedAt);
        LastFits(c, items, fetchedAt);
      }
    }
  }

  lemma LastFits(c: Context, items: seq<Item>, fetchedAt: int)
    requires items != [] && Built(c, items, fetchedAt).Ok?
    requires ItemsExact(c, items[..|items| - 1]) && SumsFit(c, items[..|items| - 1])
    requires Built(c, items[..|items| - 1], fetchedAt).Ok?
    requires Summarizes(c, Built(c, items[..|items| - 1], fetchedAt).value.rows, items[..|items| - 1])
    requires Built(c, items[..|items| - 1], fetchedAt).value.quota == QuotaOf(c, items[..|items| - 1])
    ensures ItemsExact(c, items) && SumsFit(c, items)
  {
    var n := |items| - 1;
    var last := items[n];
    assert items == items[..n] + [last];
    forall dim ensures AmountFits(Of(c, items, dim)) {
      assert AmountFits(Of(c, items[..n], dim));
      assert Had(Built(c, items[..n], fetchedAt).value.rows, dim) == Of(c, items[..n], dim);
    }
    forall i | 0 <= i < |items| && InHour(c, items[i])
      ensures Exact(items[i])
    {
      if i < n { assert items[..n][i] == items[i]; }
    }
  }

  // The figures of a page do not depend on the order of its items, nor on page boundaries.

  lemma JoinAssociates(a: Option<Figures>, b: Option<Figures>, c: Option<Figures>)
    ensures Join(Join(a, b), c) == Join(a, Join(b, c))
    ensures Join(a, b) == Join(b, a)
  {
  }

  lemma {:induction false} OfConcat(c: Context, a: seq<Item>, b: seq<Item>, dim: Dimension)
    ensures Of(c, a + b, dim) == Join(Of(c, a, dim), Of(c, b, dim))
    ensures QuotaOf(c, a + b) == QuotaOf(c, a) + QuotaOf(c, b) && CountOf(c, a + b) == CountOf(c, a) + CountOf(c, b)
    decreases |b|
  {
    if b == [] {
      assert a + b == a;
    } else {
      var n := |b| - 1;
      assert (a + b)[..|a| + n] == a + b[..n];
      OfConcat(c, a, b[..n], dim);
      JoinAssociates(Of(c, a, dim), Of(c, b[..n], dim),
          if InHour(c, b[n]) && b[n].dim == dim then Some(Single(b[n])) else None);
    }
  }

  lemma Pulled(a: seq<Item>, x: Item) returns (i: nat)
    requires x in a
    ensures i < |a| && a[i] == x && a == a[..i] + [x] + a[i + 1..]
  {
    i :| 0 <= i < |a| && a[i] == x;
  }

  lemma Dropped(s: seq<Item>, i: nat)
    requires i < |s|
    ensures multiset(s[..i] + s[i + 1..]) == multiset(s) - multiset{s[i]}
  {
    assert s == s[..i] + [s[i]] + s[i + 1..];
    assert multiset(s) == multiset(s[..i]) + multiset{s[i]} + multiset(s[i + 1..]);
  }

  lemma RestPermuted(a: seq<Item>, b: seq<Item>, i: nat)
    requires a != [] && multiset(a) == multiset(b) && i < |b| && b[i] == a[|a| - 1]
    ensures multiset(a[..|a| - 1]) == multiset(b[..i] + b[i + 1..])
  {
    var n := |a| - 1;
    Dropped(a, n);
    Dropped(b, i);
    assert a[..n] + a[n + 1..] == a[..n];
  }

  /** An item may stand anywhere. */
  lemma OfMoved(c: Context, left: seq<Item>, x: Item, right: seq<Item>, dim: Dimension)
    ensures Of(c, left + [x] + right, dim) == Join(Of(c, left + right, dim), Of(c, [x], dim))
    ensures QuotaOf(c, left + [x] + right) == QuotaOf(c, left + right) + QuotaOf(c, [x])
    ensures CountOf(c, left + [x] + right) == CountOf(c, left + right) + CountOf(c, [x])
  {
    OfConcat(c, left + [x], right, dim);
    OfConcat(c, left, [x], dim);
    OfConcat(c, left, right, dim);
    JoinSwaps(Of(c, left, dim), Of(c, right, dim), Of(c, [x], dim));
  }

  lemma NothingPermuted(b: seq<Item>)
    requires multiset(b) == multiset{}
    ensures b == []
  {
    assert |multiset(b)| == |b|;
  }

  lemma {:induction false} OfPermuted(c: Context, a: seq<Item>, b: seq<Item>, dim: Dimension)
    requires multiset(a) == multiset(b)
    ensures Of(c, a, dim) == Of(c, b, dim) && QuotaOf(c, a) == QuotaOf(c, b) && CountOf(c, a) == CountOf(c, b)
    decreases |a|
  {
    if a == [] {
      NothingPermuted(b);
    } else {
      var n := |a| - 1;
      assert a[n] in multiset(b);
      var i := Pulled(b, a[n]);
      var left, right := b[..i], b[i + 1..];
      RestPermuted(a, b, i);
      OfPermuted(c, a[..n], left + right, dim);
      OfMoved(c, left, a[n], right, dim);
      OfMoved(c, a[..n], a[n], [], dim);
      assert a[..n] + [] == a[..n] && a[..n] + [a[n]] + [] == a;
    }
  }

  lemma JoinSwaps(left: Option<Figures>, right: Option<Figures>, x: Option<Figures>)
    ensures Join(Join(left, right), x) == Join(Join(left, x), right)
  {
    JoinAssociates(left, x, right);
    JoinAssociates(x, right, None);
    JoinAssociates(left, right, x);
  }

  // Merging.

  function MergeOne(target: Rows, row: Row): Result<Rows> {
    if row.dim !in target then Ok(target[row.dim := row])
    else
      var kept, more := target[row.dim], row.figures;
      if kept.context != row.context then Err
      else if more.quota < 0 || more.requests < 0 || more.prompt < 0 || more.completion < 0
              || more.quota > MAX_INT64 - kept.figures.quota || more.requests > MAX_INT64 - kept.figures.requests
              || more.prompt > MAX_INT64 - kept.figures.prompt
              || more.completion > MAX_INT64 - kept.figures.completion then
        Err
      else Ok(target[row.dim := kept.(figures := Sum(kept.figures, more))])
  }

  function Merged(target: Rows, rows: seq<Row>): Result<Rows> {
    if rows == [] then Ok(target)
    else
      var before := Merged(target, rows[..|rows| - 1]);
      if before.Err? then Err else MergeOne(before.value, rows[|rows| - 1])
  }

  method Merge(target: Rows, rows: seq<Row>) returns (r: Result<Rows>)
    ensures r == Merged(target, rows)
  {
    var out := target;
    var i := 0;
    while i < |rows|
      invariant 0 <= i <= |rows|
      invariant Merged(target, rows[..i]) == Ok(out)
    {
      assert rows[..i + 1][..i] == rows[..i];
      var next := MergeOne(out, rows[i]);
      if next.Err? {
        MergeFails(target, rows, i + 1);
        return Err;
      }
      out := next.value;
      i := i + 1;
    }
    assert rows[..i] == rows;
    return Ok(out);
  }

  lemma {:induction false} MergeFails(target: Rows, rows: seq<Row>, n: nat)
    requires n <= |rows| && Merged(target, rows[..n]).Err?
    ensures Merged(target, rows).Err?
    decreases |rows|
  {
    if n == |rows| {
      assert rows[..n] == rows;
    } else {
      assert rows[..|rows| - 1][..n] == rows[..n];
      MergeFails(target, rows[..|rows| - 1], n);
    }
  }

  /** The rows of a build, each once, in any order. */
  ghost predicate Lists(list: seq<Row>, rows: Rows) {
    && (forall i :: 0 <= i < |list| ==> list[i].dim in rows && rows[list[i].dim] == list[i])
    && (forall i, j :: 0 <= i < j < |list| ==> list[i].dim != list[j].dim)
    && (forall dim :: dim in rows ==> exists i :: 0 <= i < |list| && list[i].dim == dim)
  }

  function Listed(list: seq<Row>, dim: Dimension): Option<Figures> {
    if list == [] then None
    else if list[|list| - 1].dim == dim then Some(list[|list| - 1].figures)
    else Listed(list[..|list| - 1], dim)
  }

  lemma {:induction false} ListedIs(list: seq<Row>, dim: Dimension)
    ensures Listed(list, dim).None? <==> forall i :: 0 <= i < |list| ==> list[i].dim != dim
    ensures Listed(list, dim).Some? ==>
      exists i :: 0 <= i < |list| && list[i].dim == dim && list[i].figures == Listed(list, dim).value
    decreases |list|
  {
    if list != [] {
      var n := |list| - 1;
      ListedIs(list[..n], dim);
      if list[n].dim != dim && Listed(list[..n], dim).Some? {
        var i :| 0 <= i < n && list[..n][i].dim == dim && list[..n][i].figures == Listed(list[..n], dim).value;
        assert list[i].dim == dim;
      }
    }
  }

  lemma ListedIsHad(list: seq<Row>, rows: Rows, dim: Dimension)
    requires Lists(list, rows)
    ensures Listed(list, dim) == Had(rows, dim)
  {
    ListedIs(list, dim);
  }

  predicate Small(f: Option<Figures>) { f.Some? ==> AmountFits(f) && f.value.requests <= MAX_INT64 }

  predicate Distinct(list: seq<Row>) { forall i, j :: 0 <= i < j < |list| ==> list[i].dim != list[j].dim }

  ghost predicate Fitting(target: Rows, list: seq<Row>) {
    forall dim :: Nonnegative(Had(target, dim)) && Nonnegative(Listed(list, dim))
        && Small(Join(Had(target, dim), Listed(list, dim)))
  }

  predicate OneContext(c: Context, target: Rows, list: seq<Row>) {
    && (forall dim :: dim in target ==> target[dim].context == c && target[dim].dim == dim)
    && (forall i :: 0 <= i < |list| ==> list[i].context == c)
  }

  lemma FittingPrefix(target: Rows, list: seq<Row>)
    requires list != [] && Fitting(target, list) && Distinct(list)
    ensures Fitting(target, list[..|list| - 1])
  {
    var n := |list| - 1;
    forall dim
      ensures Nonnegative(Had(target, dim)) && Nonnegative(Listed(list[..n], dim))
      ensures Small(Join(Had(target, dim), Listed(list[..n], dim)))
    {
      assert Nonnegative(Had(target, dim)) && Nonnegative(Listed(list, dim))
        && Small(Join(Had(target, dim), Listed(list, dim)));
      if list[n].dim == dim { ListedIs(list[..n], dim); }
    }
  }

  /** Merging joins figures per dimension and fails on no sum that fits. */
  lemma {:induction false} MergedJoins(c: Context, target: Rows, list: seq<Row>)
    requires Fitting(target, list) && Distinct(list) && OneContext(c, target, list)
    ensures Merged(target, list).Ok?
    ensures var out := Merged(target, list).value;
      && (forall dim :: Had(out, dim) == Join(Had(target, dim), Listed(list, dim)))
      && (forall dim :: dim in out ==> out[dim].context == c && out[dim].dim == dim)
    decreases |list|
  {
    if list != [] {
      var n := |list| - 1;
      FittingPrefix(target, list);
      MergedJoins(c, target, list[..n]);
      var before, row := Merged(target, list[..n]).value, list[n];
      ListedIs(list[..n], row.dim);
      assert Had(before, row.dim) == Join(Had(target, row.dim), Listed(list[..n], row.dim)) == Had(target, row.dim);
      assert Nonnegative(Had(target, row.dim)) && Nonnegative(Listed(list, row.dim))
        && Small(Join(Had(target, row.dim), Listed(list, row.dim)));
    }
  }

  lemma {:induction false} RequestsBounded(c: Context, items: seq<Item>, dim: Dimension)
    ensures Of(c, items, dim).Some? ==> Of(c, items, dim).value.requests <= CountOf(c, items)
    ensures CountOf(c, items) >= 0
    decreases |items|
  {
    if items != [] { RequestsBounded(c, items[..|items| - 1], dim); }
  }

  ghost predicate Good(c: Context, items: seq<Item>) {
    ItemsExact(c, items) && SumsFit(c, items) && CountOf(c, items) <= MAX_INT64
  }

  /** Parts of good items are good. */
  lemma PartsAreGood(c: Context, a: seq<Item>, b: seq<Item>)
    requires Good(c, a + b)
    ensures Good(c, a) && Good(c, b)
  {
    forall i | 0 <= i < |a| && InHour(c, a[i]) ensures Exact(a[i]) { assert (a + b)[i] == a[i]; }
    forall i | 0 <= i < |b| && InHour(c, b[i]) ensures Exact(b[i]) { assert (a + b)[|a| + i] == b[i]; }
    forall dim
      ensures AmountFits(Of(c, a, dim)) && AmountFits(Of(c, b, dim)) && QuotaOf(c, a) <= MAX_INT64
      ensures QuotaOf(c, b) <= MAX_INT64
    {
      assert AmountFits(Of(c, a + b, dim));
      OfConcat(c, a, b, dim);
      OfNonnegative(c, a, dim);
      OfNonnegative(c, b, dim);
    }
    var any := Dimension(0, "", "", "", "");
    OfConcat(c, a, b, any);
    RequestsBounded(c, a, any);
    RequestsBounded(c, b, any);
    assert AmountFits(Of(c, a, any)) && AmountFits(Of(c, b, any));
  }

  lemma GoodPermuted(c: Context, a: seq<Item>, b: seq<Item>)
    requires multiset(a) == multiset(b) && Good(c, a)
    ensures Good(c, b)
  {
    forall i | 0 <= i < |b| && InHour(c, b[i]) ensures Exact(b[i]) {
      assert b[i] in multiset(b);
      var j := Pulled(a, b[i]);
    }
    forall dim ensures AmountFits(Of(c, b, dim)) && QuotaOf(c, b) <= MAX_INT64 && CountOf(c, b) <= MAX_INT64 {
      OfPermuted(c, a, b, dim);
      assert AmountFits(Of(c, a, dim));
    }
    assert AmountFits(Of(c, b, Dimension(0, "", "", "", "")));
  }

  /** Merging the next page's rows into rows that summarize the pages before. */
  lemma MergePage(c: Context, seen: seq<Item>, rows: Rows, page: seq<Item>, built: Rows, list: seq<Row>)
    requires Good(c, seen + page) && Summarizes(c, rows, seen) && Summarizes(c, built, page) && Lists(list, built)
    ensures Merged(rows, list).Ok? && Summarizes(c, Merged(rows, list).value, seen + page)
  {
    PartsAreGood(c, seen, page);
    forall dim
      ensures Nonnegative(Had(rows, dim)) && Nonnegative(Listed(list, dim))
      ensures Small(Join(Had(rows, dim), Listed(list, dim)))
    {
      ListedIsHad(list, built, dim);
      assert Had(rows, dim) == Of(c, seen, dim) && Had(built, dim) == Of(c, page, dim);
      OfNonnegative(c, seen, dim);
      OfNonnegative(c, page, dim);
      OfConcat(c, seen, page, dim);
      RequestsBounded(c, seen + page, dim);
      assert AmountFits(Of(c, seen + page, dim));
    }
    MergedJoins(c, rows, list);
    forall dim ensures Had(Merged(rows, list).value, dim) == Of(c, seen + page, dim) {
      ListedIsHad(list, built, dim);
      assert Had(rows, dim) == Of(c, seen, dim) && Had(built, dim) == Of(c, page, dim);
      OfConcat(c, seen, page, dim);
    }
  }

  /** A page, when it was fetched, and its rows in the order they are merged. */
  datatype Page = Page(items: seq<Item>, fetchedAt: int, list: seq<Row>)

  function Flat(pages: seq<Page>): seq<Item> {
    if pages == [] then [] else Flat(pages[..|pages| - 1]) + pages[|pages| - 1].items
  }

  function MergedPages(pages: seq<Page>): Result<Rows> {
    if pages == [] then Ok(map[])
    else
      var before := MergedPages(pages[..|pages| - 1]);
      if before.Err? then Err else Merged(before.value, pages[|pages| - 1].list)
  }

  ghost predicate PageListed(c: Context, page: Page) {
    Built(c, page.items, page.fetchedAt).Ok? ==> Lists(page.list, Built(c, page.items, page.fetchedAt).value.rows)
  }

  lemma {:induction false} PagesSummarize(c: Context, pages: seq<Page>)
    requires Good(c, Flat(pages)) && forall i :: 0 <= i < |pages| ==> PageListed(c, pages[i])
    ensures forall i :: 0 <= i < |pages| ==> Built(c, pages[i].items, pages[i].fetchedAt).Ok?
    ensures MergedPages(pages).Ok? && Summarizes(c, MergedPages(pages).value, Flat(pages))
    decreases |pages|
  {
    if pages != [] {
      var n := |pages| - 1;
      var before, last := pages[..n], pages[n];
      PartsAreGood(c, Flat(before), last.items);
      PagesSummarize(c, before);
      forall i | 0 <= i < |pages| ensures Built(c, pages[i].items, pages[i].fetchedAt).Ok? {
        if i < n { assert before[i] == pages[i]; } else { BuildsIff(c, last.items, last.fetchedAt); }
      }
      BuiltSummarizes(c, last.items, last.fetchedAt);
      MergePage(c, Flat(before), MergedPages(before).value, last.items,
          Built(c, last.items, last.fetchedAt).value.rows, last.list);
    }
  }

  /** The row hash covers everything but the time of the fetch. */
  function RowHash(row: Row): Row { row.(fetchedAt := 0) }

  function ContentHash(rows: Rows): set<Row> { set dim | dim in rows :: RowHash(rows[dim]) }

  lemma SummariesAgree(c: Context, a: Rows, b: Rows, items: seq<Item>, others: seq<Item>)
    requires Summarizes(c, a, items) && Summarizes(c, b, others) && multiset(items) == multiset(others)
    ensures a.Keys == b.Keys && ContentHash(a) == ContentHash(b)
    ensures forall dim :: dim in a ==> RowHash(a[dim]) == RowHash(b[dim])
  {
    forall dim ensures Had(a, dim) == Had(b, dim) {
      OfPermuted(c, items, others, dim);
      assert Had(a, dim) == Of(c, items, dim) && Had(b, dim) == Of(c, others, dim);
    }
    forall dim ensures dim in a <==> dim in b { assert Had(a, dim) == Had(b, dim); }
    forall dim | dim in a ensures RowHash(a[dim]) == RowHash(b[dim]) { assert Had(a, dim) == Had(b, dim); }
  }

  /** Evidence does not depend on paging: if one pass over all items succeeds, then for any cut into
      pages and any order of pages and rows, every page builds, the merge succeeds, and rows, totals,
      times and content hash are the same. */
  lemma PagingDoesNotMatter(c: Context, items: seq<Item>, fetchedAt: int, pages: seq<Page>)
    requires Built(c, items, fetchedAt).Ok? && CountOf(c, items) <= MAX_INT64
    requires multiset(Flat(pages)) == multiset(items)
    requires forall i :: 0 <= i < |pages| ==> PageListed(c, pages[i])
    ensures forall i :: 0 <= i < |pages| ==> Built(c, pages[i].items, pages[i].fetchedAt).Ok?
    ensures MergedPages(pages).Ok?
    ensures var whole, merged := Built(c, items, fetchedAt).value.rows, MergedPages(pages).value;
      && merged.Keys == whole.Keys && ContentHash(merged) == ContentHash(whole)
      && forall dim :: dim in merged ==> RowHash(merged[dim]) == RowHash(whole[dim])
  {
    BuildsIff(c, items, fetchedAt);
    GoodPermuted(c, items, Flat(pages));
    PagesSummarize(c, pages);
    BuiltSummarizes(c, items, fetchedAt);
    SummariesAgree(c, MergedPages(pages).value, Built(c, items, fetchedAt).value.rows, Flat(pages), items);
  }
}
