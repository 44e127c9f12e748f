/** Pages of aggregated rejections: every page is one query over a fixed store, sought from the last
    row of the page before. */
module RejectPages {

  import opened Basics

  // Text order and text forms.

  /** Byte order: negative, zero or positive. */
  function Compare(a: string, b: string): int {
    if a == [] then (if b == [] then 0 else -1)
    else if b == [] then 1
    else if a[0] < b[0] then -1
    else if b[0] < a[0] then 1
    else Compare(a[1..], b[1..])
  }

  lemma {:induction false} CompareIsOrder(a: string, b: string)
    ensures Compare(a, b) == 0 <==> a == b
    ensures Compare(a, b) < 0 <==> Compare(b, a) > 0
    decreases |a|
  {
    if a != [] && b != [] && a[0] == b[0] {
      CompareIsOrder(a[1..], b[1..]);
      assert a == [a[0]] + a[1..] && b == [b[0]] + b[1..];
    }
  }

  lemma {:induction false} CompareIsTransitive(a: string, b: string, c: string)
    requires Compare(a, b) < 0 && Compare(b, c) < 0
    ensures Compare(a, c) < 0
    decreases |a|
  {
    if a != [] && b != [] && c != [] && a[0] == b[0] == c[0] { CompareIsTransitive(a[1..], b[1..], c[1..]); }
  }

  // TRIM of SQLite takes off spaces only.

  function StripLeft(s: string): string { if s != [] && s[0] == ' ' then StripLeft(s[1..]) else s }

  function StripRight(s: string): string { if s != [] && s[|s| - 1] == ' ' then StripRight(s[..|s| - 1]) else s }

  function Plain(c: char): char {
    if c == '-' || c == ' ' || c == '.' then '_'
      else if 'A' <= c <= 'Z' then (c as int - 'A' as int + 'a' as int) as char else c
  }

  /** Trimmed, separators unified, lower case. */
  function Normalize(reason: string): string {
    var s := StripRight(StripLeft(reason));
    seq(|s|, i requires 0 <= i < |s| => Plain(s[i]))
  }

  const FINE := {"user_quota_insufficient", "pre_consume_failed", "token_quota_insufficient"}

  /** Historical spellings fold into one code; other reasons stay as they are. */
  function Canonical(reason: string): string {
    var n := Normalize(reason);
    if n in {"no_channel", "no_available_channel", "route_no_channel", "noavailablechannel"} then "route_no_channel"
    else if n in {"invalid_token", "token_invalid"} then "invalid_token"
    else if n in {"token_disabled", "disabled_token"} then "token_disabled"
    else if n in {"model_forbidden", "token_model_forbidden"} then "model_forbidden"
    else if n in {"model_not_found", "unknown_model"} then "model_not_found"
    else if n in FINE + {"quota_account", "quota_insufficient", "insufficient_quota"} then "quota_account"
    else if n in {"rate_limited", "rate_limit", "too_many_requests"} then "rate_limited"
    else n
  }

  // The store and the aggregate.

  /** direct: written by the direct lane. */
  datatype Sample = Sample(direct: bool, ts: int, reason: string, model: string, group: string, user: int, count: int)

  datatype Key = Key(ts: int, reason: string, model: string, group: string, user: int)

  datatype Range = Range(from: int, to: int)

  datatype Filter = Filter(reason: string, user: Option<int>, limit: nat)

  /** covered: the minutes the direct lane has caught up with, when it is enabled. */
  datatype Lane = Lane(enabled: bool, covered: Option<Range>)

  predicate WantsReason(filter: Filter, s: Sample) {
    filter.reason == "" ||
    (if Normalize(filter.reason) in FINE then Normalize(s.reason) == Normalize(filter.reason)
        else Canonical(s.reason) == Canonical(filter.reason))
  }

  /** The direct row that speaks for the same fact. */
  predicate SameFact(direct: Sample, s: Sample) {
    && direct.direct && direct.ts == s.ts && direct.model == s.model && direct.group == s.group && direct.user == s.user
    && direct.count > 0 && Canonical(direct.reason) == Canonical(s.reason)
  }

  predicate InRange(r: Range, t: int) { r.from <= t < r.to }

  /** A legacy row that the direct lane already tells. */
  predicate Superseded(store: seq<Sample>, lane: Lane, filter: Filter, s: Sample) {
    && !(Normalize(filter.reason) in FINE) && !s.direct && s.user > 0
    && (lane.enabled ==> lane.covered.Some? && InRange(lane.covered.value, s.ts))
    && exists i :: 0 <= i < |store| && SameFact(store[i], s)
  }

  predicate Admitted(range: Range, filter: Filter, s: Sample) {
    && InRange(range, s.ts) && s.user >= 0 && s.count > 0
    && (filter.user.Some? ==> s.user == filter.user.value)
    && WantsReason(filter, s)
  }

  predicate Visible(store: seq<Sample>, lane: Lane, range: Range, filter: Filter, s: Sample) {
    Admitted(range, filter, s) && !Superseded(store, lane, filter, s)
  }

  function KeyOf(s: Sample): Key { Key(s.ts, s.reason, s.model, s.group, s.user) }

  /** Counts per key over the visible samples. */
  function Aggregate(store: seq<Sample>, lane: Lane, range: Range, filter: Filter, n: nat): map<Key, int>
    requires n <= |store|
  {
    if n == 0 then map[]
    else
      var before, s := Aggregate(store, lane, range, filter, n - 1), store[n - 1];
      if !Visible(store, lane, range, filter, s) then before
      else before[KeyOf(s) := (if KeyOf(s) in before then before[KeyOf(s)] else 0) + s.count]
  }

  function Agg(store: seq<Sample>, lane: Lane, range: Range, filter: Filter): map<Key, int> {
    Aggregate(store, lane, range, filter, |store|)
  }

  lemma {:induction false} AggregateIsPositive(
      store: seq<Sample>, lane: Lane, range: Range, filter: Filter, n: nat, key: Key)
    requires n <= |store| && key in Aggregate(store, lane, range, filter, n)
    ensures Aggregate(store, lane, range, filter, n)[key] > 0 && InRange(range, key.ts) && key.user >= 0
    decreases n
  {
    if key in Aggregate(store, lane, range, filter, n - 1) {
      AggregateIsPositive(store, lane, range, filter, n - 1, key);
    }
  }

  // Page order.

  /** Newest first, then by reason, model, group and user. */
  predicate Before(a: Key, b: Key) {
    if a.ts != b.ts then a.ts > b.ts
    else if a.reason != b.reason then Compare(a.reason, b.reason) < 0
    else if a.model != b.model then Compare(a.model, b.model) < 0
    else if a.group != b.group then Compare(a.group, b.group) < 0
    else a.user < b.user
  }

  /** The condition of the query. */
  predicate Seek(c: Key, k: Key) {
    || k.ts < c.ts
    || (k.ts == c.ts && Compare(k.reason, c.reason) > 0)
    || (k.ts == c.ts && k.reason == c.reason && Compare(k.model, c.model) > 0)
    || (k.ts == c.ts && k.reason == c.reason && k.model == c.model && Compare(k.group, c.group) > 0)
    || (k.ts == c.ts && k.reason == c.reason && k.model == c.model && k.group == c.group && k.user > c.user)
  }

  lemma SeekIsBefore(c: Key, k: Key)
    ensures Seek(c, k) <==> Before(c, k)
  {
    CompareIsOrder(c.reason, k.reason);
    CompareIsOrder(c.model, k.model);
    CompareIsOrder(c.group, k.group);
  }

  lemma BeforeIsTotal(a: Key, b: Key)
    ensures !Before(a, a)
    ensures a != b ==> (Before(a, b) <==> !Before(b, a))
  {
    CompareIsOrder(a.reason, b.reason);
    CompareIsOrder(a.model, b.model);
    CompareIsOrder(a.group, b.group);
    CompareIsOrder(b.reason, a.reason);
    CompareIsOrder(b.model, a.model);
    CompareIsOrder(b.group, a.group);
  }

  lemma BeforeIsTransitive(a: Key, b: Key, c: Key)
    requires Before(a, b) && Before(b, c)
    ensures Before(a, c)
  {
    if a.reason != b.reason && b.reason != c.reason && a.ts == b.ts == c.ts {
      CompareIsTransitive(a.reason, b.reason, c.reason);
    }
    if a.model != b.model && b.model != c.model && a.ts == b.ts == c.ts {
      if a.reason == b.reason == c.reason { CompareIsTransitive(a.model, b.model, c.model); }
    }
    if a.group != b.group && b.group != c.group && a.ts == b.ts == c.ts {
      if a.reason == b.reason == c.reason && a.model == b.model == c.model {
        CompareIsTransitive(a.group, b.group, c.group);
      }
    }
    CompareIsOrder(a.reason, c.reason);
    CompareIsOrder(a.model, c.model);
    CompareIsOrder(a.group, c.group);
  }

  predicate Sorted(list: seq<Key>) { forall i, j :: 0 <= i < j < |list| ==> Before(list[i], list[j]) }

  ghost predicate Orders(list: seq<Key>, keys: set<Key>) { Sorted(list) && forall k :: k in list <==> k in keys }

  predicate IsFirst(k: Key, keys: set<Key>) { k in keys && forall x :: x in keys && x != k ==> Before(k, x) }

  lemma {:induction false} HasFirst(keys: set<Key>)
    requires keys != {}
    ensures exists k :: IsFirst(k, keys)
    decreases |keys|
  {
    var x := Any(keys);
    var rest := keys - {x};
    if rest == {} {
      assert keys == {x};
      assert IsFirst(x, keys);
    } else {
      HasFirst(rest);
      var m :| IsFirst(m, rest);
      BeforeIsTotal(x, m);
      if Before(x, m) {
        forall y | y in keys && y != x ensures Before(x, y) { if y != m { BeforeIsTransitive(x, m, y); } }
        assert IsFirst(x, keys);
      } else {
        assert IsFirst(m, keys);
      }
    }
  }

  lemma OrdersCons(k: Key, rest: seq<Key>, keys: set<Key>)
    requires IsFirst(k, keys) && Orders(rest, keys - {k})
    ensures Orders([k] + rest, keys)
  {
    var list := [k] + rest;
    forall i, j | 0 <= i < j < |list| ensures Before(list[i], list[j]) {
      assert list[j] == rest[j - 1] && list[j] in rest;
      if i > 0 { assert list[i] == rest[i - 1]; }
    }
    forall x ensures x in list <==> x in keys { assert x in list <==> x == k || x in rest; }
  }

  /** ORDER BY. */
  ghost function Ordered(keys: set<Key>): (list: seq<Key>)
    ensures Orders(list, keys) && |list| == |keys|
    decreases |keys|
  {
    if keys == {} then []
    else
      HasFirst(keys);
      var k :| IsFirst(k, keys);
      OrdersCons(k, Ordered(keys - {k}), keys);
      [k] + Ordered(keys - {k})
  }

  lemma EmptyTogether(a: seq<Key>, b: seq<Key>, keys: set<Key>)
    requires Orders(a, keys) && Orders(b, keys)
    ensures a == [] <==> b == []
  {
    if a != [] { assert a[0] in keys; }
    if b != [] { assert b[0] in keys; }
  }

  lemma SameHead(a: seq<Key>, b: seq<Key>, keys: set<Key>)
    requires a != [] && b != [] && Orders(a, keys) && Orders(b, keys)
    ensures a[0] == b[0]
  {
    assert a[0] in keys && b[0] in keys;
    Heads(a, b[0]);
    Heads(b, a[0]);
    BeforeIsTotal(a[0], b[0]);
  }

  lemma {:induction false} OrderIsUnique(a: seq<Key>, b: seq<Key>, keys: set<Key>)
    requires Orders(a, keys) && Orders(b, keys)
    ensures a == b
    decreases |a|
  {
    EmptyTogether(a, b, keys);
    if a != [] {
      SameHead(a, b, keys);
      OrdersTail(a, keys);
      OrdersTail(b, keys);
      OrderIsUnique(a[1..], b[1..], keys - {a[0]});
      assert a == [a[0]] + a[1..] && b == [b[0]] + b[1..];
    }
  }

  lemma Heads(list: seq<Key>, k: Key)
    requires Sorted(list) && k in list
    ensures k == list[0] || Before(list[0], k)
  {
  }

  lemma OrdersTail(list: seq<Key>, keys: set<Key>)
    requires list != [] && Orders(list, keys)
    ensures Orders(list[1..], keys - {list[0]})
  {
    BeforeIsTotal(list[0], list[0]);
    forall k ensures k in list[1..] <==> k in keys - {list[0]} {
      if k in list[1..] {
        var i :| 1 <= i < |list| && list[i] == k;
        assert Before(list[0], k);
        assert k in list;
      }
      if k in keys && k != list[0] {
        var i :| 0 <= i < |list| && list[i] == k;
        assert list[1..][i - 1] == k;
      }
    }
  }

  // One page.

  datatype Page = Page(rows: seq<Key>, next: Option<Key>)

  /** The keys the query finds: all, or those that the cursor has not passed. */
  function Sought(keys: set<Key>, cursor: Option<Key>): set<Key> {
    if cursor.None? then keys else set k | k in keys && Seek(cursor.value, k)
  }

  function Take(list: seq<Key>, n: nat): seq<Key> { if |list| <= n then list else list[..n] }

  /** LIMIT limit + 1; the extra row only says that there is more. */
  ghost function PageAt(keys: set<Key>, cursor: Option<Key>, limit: nat): Page {
    var fetched := Take(Ordered(Sought(keys, cursor)), limit + 1);
    var rows := Take(fetched, limit);
    Page(rows, if |fetched| > limit && rows != [] then Some(rows[|rows| - 1]) else None)
  }

  /** Shaping the fetched rows: cut to the limit, the users to name once each, and the cursor. */
  method Shape(fetched: seq<Key>, limit: nat) returns (page: Page, ids: seq<int>)
    requires |fetched| <= limit + 1
    ensures page.rows == Take(fetched, limit)
    ensures page.next == if |fetched| > limit && page.rows != [] then Some(page.rows[|page.rows| - 1]) else None
    ensures forall u :: u in ids <==> u != 0 && exists i :: 0 <= i < |page.rows| && page.rows[i].user == u
    ensures forall i, j :: 0 <= i < j < |ids| ==> ids[i] != ids[j]
  {
    var hasMore := |fetched| > limit;
    var rows := if hasMore then fetched[..limit] else fetched;
    ids := [];
    var i := 0;
    while i < |rows|
      invariant 0 <= i <= |rows|
      invariant forall u :: u in ids <==> u != 0 && exists k :: 0 <= k < i && rows[k].user == u
      invariant forall j, k :: 0 <= j < k < |ids| ==> ids[j] != ids[k]
    {
      if rows[i].user != 0 && rows[i].user !in ids { ids := ids + [rows[i].user]; }
      i := i + 1;
    }
    page := Page(rows, if hasMore && rows != [] then Some(rows[|rows| - 1]) else None);
  }

  // Cursors.

  datatype Cursor = Cursor(range: Range, reason: string, user: Option<int>, key: Key)

  function CursorOf(range: Range, filter: Filter, key: Key): Cursor { Cursor(range, filter.reason, filter.user, key) }

  predicate TextFits(k: Key) { |k.reason| <= 64 && |k.model| <= 128 && |k.group| <= 128 }

  predicate Decodes(c: Cursor) {
    && c.range.from > 0 && c.range.to > c.range.from && c.key.ts > 0 && c.key.user >= 0
    && (c.user.Some? ==> c.user.value >= 0) && |c.reason| <= 64 && TextFits(c.key)
  }

  /** A later request may have a later upper bound; the page is still read over the cursor's own range. */
  predicate Continues(now: Range, filter: Filter, c: Cursor) {
    && c.range.from == now.from && c.range.to <= now.to && c.range.to > c.range.from
    && c.range.from <= c.key.ts < c.range.to && c.reason == filter.reason && c.user == filter.user
  }

  predicate FilterValid(filter: Filter) {
    filter.limit >= 1 && |filter.reason| <= 64 && (filter.user.Some? ==> filter.user.value >= 0)
  }

  /** The cursor a page hands out is accepted later exactly when its row's texts fit. */
  lemma NextCursorIsAccepted(store: seq<Sample>, lane: Lane, range: Range, filter: Filter, key: Key, now: Range)
    requires range.from > 0 && FilterValid(filter) && key in Agg(store, lane, range, filter)
    requires now.from == range.from && range.to <= now.to
    ensures var c := CursorOf(range, filter, key);
      Continues(now, filter, c) && c.range == range && (Decodes(c) <==> TextFits(key))
  {
    AggregateIsPositive(store, lane, range, filter, |store|, key);
  }

  // Following the cursors.

  lemma SoughtIsSuffix(keys: set<Key>, list: seq<Key>, m: nat)
    requires Orders(list, keys) && 1 <= m <= |list|
    ensures Orders(list[m..], Sought(keys, Some(list[m - 1])))
  {
    forall k ensures k in list[m..] <==> k in Sought(keys, Some(list[m - 1])) {
      SeekIsBefore(list[m - 1], k);
      if k in list[m..] {
        var i :| m <= i < |list| && list[i] == k;
        assert Before(list[m - 1], k);
        assert k in list;
      }
      if k in keys && Before(list[m - 1], k) {
        var i :| 0 <= i < |list| && list[i] == k;
        BeforeIsTotal(list[m - 1], k);
        assert i >= m;
        assert list[m..][i - m] == k;
      }
    }
  }

  /** All rows a client sees that follows every cursor, or Err where one is not accepted. */
  ghost function Walk(keys: set<Key>, cursor: Option<Key>, limit: nat): Result<seq<Key>>
    requires limit >= 1
    decreases |Sought(keys, cursor)|
  {
    var page := PageAt(keys, cursor, limit);
    if page.next.None? then Ok(page.rows)
    else if !TextFits(page.next.value) then Err
    else
      SoughtShrinks(keys, cursor, limit);
      var rest := Walk(keys, page.next, limit);
      if rest.Err? then Err else Ok(page.rows + rest.value)
  }

  lemma Smaller<T>(a: set<T>, b: set<T>, x: T)
    requires a <= b && x in b && x !in a
    ensures |a| < |b|
  {
    assert a <= b - {x};
    SubsetSize(a, b - {x});
  }

  /** Every cursor is one of the rows sought, and leaves strictly fewer to seek. */
  lemma SoughtShrinks(keys: set<Key>, cursor: Option<Key>, limit: nat)
    requires limit >= 1 && PageAt(keys, cursor, limit).next.Some?
    ensures |Sought(keys, PageAt(keys, cursor, limit).next)| < |Sought(keys, cursor)|
  {
    var list, next := Ordered(Sought(keys, cursor)), PageAt(keys, cursor, limit).next.value;
    assert next == list[limit - 1] && next in list;
    forall k | k in Sought(keys, Some(next)) ensures k in Sought(keys, cursor) {
      SeekIsBefore(next, k);
      if cursor.Some? {
        SeekIsBefore(cursor.value, next);
        SeekIsBefore(cursor.value, k);
        BeforeIsTransitive(cursor.value, next, k);
      }
    }
    SeekIsBefore(next, next);
    BeforeIsTotal(next, next);
    Smaller(Sought(keys, Some(next)), Sought(keys, cursor), next);
  }

  /** The last row of every page but the last fits into a cursor. */
  predicate EndsFit(list: seq<Key>, limit: nat)
    requires limit >= 1
    decreases |list|
  {
    |list| <= limit || (TextFits(list[limit - 1]) && EndsFit(list[limit..], limit))
  }

  lemma PageIs(keys: set<Key>, cursor: Option<Key>, list: seq<Key>, limit: nat)
    requires limit >= 1 && Orders(list, Sought(keys, cursor))
    ensures PageAt(keys, cursor, limit) ==
      Page(Take(list, limit), if |list| > limit then Some(list[limit - 1]) else None)
  {
    OrderIsUnique(list, Ordered(Sought(keys, cursor)), Sought(keys, cursor));
    assert Take(Take(list, limit + 1), limit) == Take(list, limit);
  }

  lemma WalkStep(keys: set<Key>, cursor: Option<Key>, list: seq<Key>, limit: nat)
    requires limit >= 1 && Orders(list, Sought(keys, cursor))
    ensures Walk(keys, cursor, limit) ==
      if |list| <= limit then Ok(list)
      else if !TextFits(list[limit - 1]) || Walk(keys, Some(list[limit - 1]), limit).Err? then Err
      else Ok(list[..limit] + Walk(keys, Some(list[limit - 1]), limit).value)
  {
    PageIs(keys, cursor, list, limit);
  }

  lemma RestIsSought(keys: set<Key>, cursor: Option<Key>, list: seq<Key>, limit: nat)
    requires 1 <= limit < |list| && Orders(list, Sought(keys, cursor))
    ensures Orders(list[limit..], Sought(keys, Some(list[limit - 1])))
  {
    SoughtIsSuffix(Sought(keys, cursor), list, limit);
    assert list[limit - 1] in list;
    SoughtTwice(keys, cursor, list[limit - 1]);
  }

  lemma {:induction false} WalkFrom(keys: set<Key>, cursor: Option<Key>, list: seq<Key>, limit: nat)
    requires limit >= 1 && Orders(list, Sought(keys, cursor))
    ensures Walk(keys, cursor, limit) == if EndsFit(list, limit) then Ok(list) else Err
    decreases |list|
  {
    WalkStep(keys, cursor, list, limit);
    if |list| > limit {
      RestIsSought(keys, cursor, list, limit);
      WalkFrom(keys, Some(list[limit - 1]), list[limit..], limit);
      Halves(list, limit);
    }
  }

  lemma Halves(list: seq<Key>, limit: nat)
    requires 1 <= limit < |list|
    ensures list == list[..limit] + list[limit..]
    ensures EndsFit(list, limit) <==> TextFits(list[limit - 1]) && EndsFit(list[limit..], limit)
  {
  }

  lemma SoughtTwice(keys: set<Key>, cursor: Option<Key>, next: Key)
    requires next in Sought(keys, cursor)
    ensures Sought(Sought(keys, cursor), Some(next)) == Sought(keys, Some(next))
  {
    forall k ensures k in Sought(Sought(keys, cursor), Some(next)) <==> k in Sought(keys, Some(next)) {
      if cursor.Some? && k in Sought(keys, Some(next)) {
        SeekIsBefore(next, k);
        SeekIsBefore(cursor.value, next);
        SeekIsBefore(cursor.value, k);
        BeforeIsTransitive(cursor.value, next, k);
      }
    }
  }

  /** Over a fixed store, following the cursors yields every aggregated row exactly once, in the
      declared order, exactly when every row a cursor is made of fits into one. */
  lemma WalkIsComplete(store: seq<Sample>, lane: Lane, range: Range, filter: Filter)
    requires FilterValid(filter)
    ensures var keys := Agg(store, lane, range, filter).Keys;
      Walk(keys, None, filter.limit) == if EndsFit(Ordered(keys), filter.limit) then Ok(Ordered(keys)) else Err
  {
    var keys := Agg(store, lane, range, filter).Keys;
    WalkFrom(keys, None, Ordered(keys), filter.limit);
  }

  // Statistics: they take no cursor, so every page shows the same.

  /** What both lanes may tell: the reason counts by its code. */
  datatype Fact = Fact(ts: int, code: string, model: string, group: string, user: int)

  function FactOf(k: Key): Fact { Fact(k.ts, Canonical(k.reason), k.model, k.group, k.user) }

  datatype Kind =
    | All | Unauthenticated | UnknownCustomer | UserQuota | PreConsume | TokenQuota | OtherQuota | OtherUnknown
    | OfFact(fact: Fact)

  predicate Falls(kind: Kind, k: Key) {
    match kind
    case All => true
    case Unauthenticated => k.user == 0 && Canonical(k.reason) == "invalid_token"
    case UnknownCustomer => k.user == 0 && Canonical(k.reason) != "invalid_token"
    case UserQuota => k.user == 0 && Normalize(k.reason) == "user_quota_insufficient"
    case PreConsume => k.user == 0 && Normalize(k.reason) == "pre_consume_failed"
    case TokenQuota => k.user == 0 && Normalize(k.reason) == "token_quota_insufficient"
    case OtherQuota => k.user == 0 && Canonical(k.reason) == "quota_account" && Normalize(k.reason) !in FINE
    case OtherUnknown => k.user == 0 && Canonical(k.reason) !in {"invalid_token", "quota_account"}
    case OfFact(fact) => FactOf(k) == fact
  }

  /** The count of a class over an aggregate. */
  ghost function Count(keys: set<Key>, counts: map<Key, int>, kind: Kind): int
    requires keys <= counts.Keys
  {
    if keys == {} then 0
    else
      var k := Any(keys);
      Count(keys - {k}, counts, kind) + if Falls(kind, k) then counts[k] else 0
  }

  lemma {:induction false} CountWithout(keys: set<Key>, counts: map<Key, int>, kind: Kind, k: Key)
    requires keys <= counts.Keys && k in keys
    ensures Count(keys, counts, kind) == Count(keys - {k}, counts, kind) + if Falls(kind, k) then counts[k] else 0
    decreases |keys|
  {
    var j := Any(keys);
    if j != k {
      assert keys - {j} - {k} == keys - {k} - {j};
      CountWithout(keys - {j}, counts, kind, k);
      CountWithout(keys - {k}, counts, kind, j);
    }
  }

  lemma {:induction false} CountElsewhere(keys: set<Key>, a: map<Key, int>, b: map<Key, int>, kind: Kind)
    requires keys <= a.Keys && keys <= b.Keys && forall k :: k in keys ==> a[k] == b[k]
    ensures Count(keys, a, kind) == Count(keys, b, kind)
    decreases |keys|
  {
    if keys != {} { CountElsewhere(keys - {Any(keys)}, a, b, kind); }
  }

  /** The five parts are a partition of the rejections without a known customer. */
  lemma {:induction false} PartsAddUp(keys: set<Key>, counts: map<Key, int>)
    requires keys <= counts.Keys
    ensures Count(keys, counts, UnknownCustomer) ==
      Count(keys, counts, UserQuota) + Count(keys, counts, PreConsume) + Count(keys, counts, TokenQuota)
      + Count(keys, counts, OtherQuota) + Count(keys, counts, OtherUnknown)
    decreases |keys|
  {
    if keys != {} {
      PartsAddUp(keys - {Any(keys)}, counts);
      OnePart(Any(keys));
    }
  }

  function Indicator(kind: Kind, k: Key): int { if Falls(kind, k) then 1 else 0 }

  lemma OnePart(k: Key)
    ensures Indicator(UnknownCustomer, k) ==
      Indicator(UserQuota, k) + Indicator(PreConsume, k) + Indicator(TokenQuota, k) + Indicator(OtherQuota, k)
          + Indicator(OtherUnknown, k)
  {
    FineReasonsAreQuota(k.reason);
    CodesDiffer();
  }

  lemma FineReasonsAreQuota(reason: string)
    ensures Normalize(reason) in FINE ==> Canonical(reason) == "quota_account"
  {
  }

  lemma CodesDiffer()
    ensures "user_quota_insufficient" != "pre_consume_failed" && "pre_consume_failed" != "token_quota_insufficient"
    ensures "token_quota_insufficient" != "user_quota_insufficient" && "invalid_token" != "quota_account"
  {
    assert "user_quota_insufficient"[0] == 'u' && "pre_consume_failed"[0] == 'p'
      && "token_quota_insufficient"[0] == 't';
    assert "invalid_token"[0] == 'i' && "quota_account"[0] == 'q';
  }

  /** The samples of a class among the first n, one by one. */
  function SampleCount(store: seq<Sample>, lane: Lane, range: Range, filter: Filter, n: nat, kind: Kind): int
    requires n <= |store|
  {
    if n == 0 then 0
    else
      var s := store[n - 1];
      SampleCount(store, lane, range, filter, n - 1, kind)
      + if Visible(store, lane, range, filter, s) && Falls(kind, KeyOf(s)) then s.count else 0
  }

  /** Grouping loses no count: every statistic over rows is the same sum over visible samples. */
  lemma {:induction false} GroupingConserves(
      store: seq<Sample>, lane: Lane, range: Range, filter: Filter, n: nat, kind: Kind)
    requires n <= |store|
    ensures var counts := Aggregate(store, lane, range, filter, n);
      Count(counts.Keys, counts, kind) == SampleCount(store, lane, range, filter, n, kind)
    decreases n
  {
    if n > 0 {
      GroupingConserves(store, lane, range, filter, n - 1, kind);
      var before, after, k :=
        Aggregate(store, lane, range, filter, n - 1), Aggregate(store, lane, range, filter, n), KeyOf(store[n - 1]);
      if Visible(store, lane, range, filter, store[n - 1]) {
        var rest := before.Keys - {k};
        assert after.Keys - {k} == rest;
        CountWithout(after.Keys, after, kind, k);
        CountElsewhere(rest, before, after, kind);
        if k in before { CountWithout(before.Keys, before, kind, k); } else { assert rest == before.Keys; }
      }
    }
  }

  // Overlapping lanes.

  /** The rows where the direct lane decides: a known customer, a minute it has caught up with, and a
      reason filter that direct rows can answer. */
  predicate DirectDecides(lane: Lane, filter: Filter, fact: Fact) {
    && !(Normalize(filter.reason) in FINE) && fact.user > 0
    && (lane.enabled ==> lane.covered.Some? && InRange(lane.covered.value, fact.ts))
  }

  predicate Tells(s: Sample, fact: Fact) { s.direct && s.count > 0 && FactOf(KeyOf(s)) == fact }

  predicate Told(store: seq<Sample>, fact: Fact) { exists i :: 0 <= i < |store| && Tells(store[i], fact) }

  lemma SupersededIff(store: seq<Sample>, lane: Lane, filter: Filter, s: Sample)
    ensures var fact := FactOf(KeyOf(s));
      Superseded(store, lane, filter, s) <==> !s.direct && DirectDecides(lane, filter, fact) && Told(store, fact)
  {
    var fact := FactOf(KeyOf(s));
    forall i | 0 <= i < |store| ensures SameFact(store[i], s) <==> Tells(store[i], fact) {}
    if Told(store, fact) {
      var i :| 0 <= i < |store| && Tells(store[i], fact);
      assert SameFact(store[i], s);
    }
  }

  /** Suppression loses no fact: whatever the filter asks for and the overlap rule hides is shown by a
      direct row of the same fact. */
  lemma SuppressionLosesNoFact(store: seq<Sample>, lane: Lane, range: Range, filter: Filter, s: Sample)
    requires Admitted(range, filter, s) && !Visible(store, lane, range, filter, s)
    ensures exists i :: 0 <= i < |store| && SameFact(store[i], s) && Visible(store, lane, range, filter, store[i])
  {
    var i :| 0 <= i < |store| && SameFact(store[i], s);
    assert Visible(store, lane, range, filter, store[i]);
  }

  /** What one lane counts for a fact, before the overlap rule. */
  function LaneCount(store: seq<Sample>, range: Range, filter: Filter, n: nat, fact: Fact, direct: bool): int
    requires n <= |store|
  {
    if n == 0 then 0
    else
      var s := store[n - 1];
      LaneCount(store, range, filter, n - 1, fact, direct)
      + if Admitted(range, filter, s) && s.direct == direct && FactOf(KeyOf(s)) == fact then s.count else 0
  }

  lemma {:induction false} ShownCount(store: seq<Sample>, lane: Lane, range: Range, filter: Filter, n: nat, fact: Fact)
    requires n <= |store|
    ensures SampleCount(store, lane, range, filter, n, OfFact(fact)) ==
      LaneCount(store, range, filter, n, fact, true)
      + if DirectDecides(lane, filter, fact)
          && Told(store, fact) then 0 else LaneCount(store, range, filter, n, fact, false)
    decreases n
  {
    if n > 0 {
      ShownCount(store, lane, range, filter, n - 1, fact);
      SupersededIff(store, lane, filter, store[n - 1]);
    }
  }

  /** The rows of a fact add up to the direct lane's count where that lane decides and tells the fact,
      and to both lanes' counts everywhere else: a known customer's fact can be counted twice only in
      minutes the direct lane has not caught up with, or under a filter it cannot answer. */
  lemma FactIsCountedOnce(store: seq<Sample>, lane: Lane, range: Range, filter: Filter, fact: Fact)
    ensures var counts := Agg(store, lane, range, filter);
      Count(counts.Keys, counts, OfFact(fact)) ==
        LaneCount(store, range, filter, |store|, fact, true)
        + if DirectDecides(lane, filter, fact)
            && Told(store, fact) then 0 else LaneCount(store, range, filter, |store|, fact, false)
  {
    GroupingConserves(store, lane, range, filter, |store|, OfFact(fact));
    ShownCount(store, lane, range, filter, |store|, fact);
  }
}
