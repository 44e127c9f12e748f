/** Projection of stored upstream bill buckets onto a window: one pass over rows in domain and
    hour order that either accepts every bucket in scope or fails the whole domain. */
module BillBuckets {

  import opened Basics
  import opened RechargeTerms

  datatype Granularity = Hourly | Daily

  /** unitBased says whether the provider's cost is its quota divided by the recorded unit. */
  datatype Provider = Provider(name: string, unitBased: bool)

  datatype Bucket = Bucket(
    domain: string, hourTs: int, bucketSeconds: int, requests: int, tokens: int,
    quota: real, costUsd: real, unitPerUsd: real, provider: Provider, unitBoundary: bool, provisional: bool)

  datatype Account = Account(enabled: bool, provider: Provider, requiredFrom: int, granularity: Granularity)

  datatype Integrity = Intact | WindowMismatch | Overlap | InvalidAmount

  datatype AdjustedStatus = Adjusted | NoHistory | Ambiguous

  datatype Aggregate = Aggregate(
    expectedHours: int, requests: int, tokens: int, costUsd: real, provisional: bool,
    completed: int, lastEnd: int, integrity: Integrity,
    adjusted: real, adjustedOk: bool, adjustedStatus: AdjustedStatus, ratioSet: bool,
    knownBuckets: int, unresolvedBuckets: int, unresolvedUsd: real)

  /** The priced and the unpriced part of the accepted buckets. */
  datatype Breakdown = Breakdown(knownBuckets: int, knownUsd: real, unresolvedBuckets: int, unresolvedUsd: real)

  /** adjustedStatus and breakdown are there only for a domain of intact integrity. */
  datatype Metrics = Metrics(
    integrity: Integrity, expectedHours: int, completedHours: int, complete: bool,
    requests: int, tokens: int, costUsd: real, adjustedAvailable: bool, adjustedUsd: real,
    adjustedStatus: Option<AdjustedStatus>, breakdown: Option<Breakdown>)

  /** What does not change during one projection. */
  datatype Context = Context(
    from: int, to: int, now: int, accounts: map<string, Account>, histories: map<string, seq<Version>>)
  {
    ghost predicate Valid() {
      forall d :: d in histories ==> Sorted(histories[d])
    }

    function HistoryOf(domain: string): seq<Version> {
      if domain in histories then histories[domain] else []
    }
  }

  /** A bucket without a length is an hour. */
  function Seconds(b: Bucket): (s: int)
    ensures s > 0 && (b.bucketSeconds > 0 ==> s == b.bucketSeconds) && (b.bucketSeconds <= 0 ==> s == 3600)
  {
    if b.bucketSeconds <= 0 then HOUR else b.bucketSeconds
  }

  function End(b: Bucket): int { b.hourTs + Seconds(b) }

  /** The window opens when it is asked for, but not before the account's bills are required. */
  function WindowFrom(c: Context, a: Account): (from: int)
    ensures from == Max(c.from, a.requiredFrom)
  {
    if a.requiredFrom > c.from then a.requiredFrom else c.from
  }

  /** The greatest number of hours after from that end inside the window and before the current hour. */
  function ExpectedHours(from: int, to: int, now: int): (n: int)
    ensures n >= 0 && (n > 0 ==> from + 3600 * n <= to && from + 3600 * n <= now - now % 3600)
    ensures from + 3600 * (n + 1) > to || from + 3600 * (n + 1) > now - now % 3600
  {
    var completeUntil := now - now % HOUR;
    var end := if to > completeUntil then completeUntil else to;
    if end <= from then 0 else (end - from) / HOUR
  }

  /** Rows the projection looks at: configured and enabled domain, matching provider, touching the
      window; hourly buckets that stick out of the window are left to the neighbouring window. */
  predicate InScope(c: Context, b: Bucket) {
    && !b.unitBoundary
    && b.domain in c.accounts
    && var a := c.accounts[b.domain];
       a.enabled && b.provider == a.provider && End(b) > WindowFrom(c, a) &&
       !(a.granularity == Hourly && (b.hourTs < WindowFrom(c, a) || End(b) > c.to))
  }

  predicate ValidUnit(unit: real) { unit > 0.0 }

  predicate ValidAmount(b: Bucket) {
    && b.costUsd >= 0.0
    && (b.quota != 0.0 && b.provider.unitBased ==> ValidUnit(b.unitPerUsd) && b.costUsd == b.quota / b.unitPerUsd)
  }

  predicate ZeroFaceValue(b: Bucket) { b.costUsd == 0.0 && b.quota == 0.0 }

  function NewAggregate(expected: int): Aggregate {
    Aggregate(expected, 0, 0, 0.0, false, 0, 0, Intact, 0.0, true, Adjusted, false, 0, 0, 0.0)
  }

  // What a list of accepted buckets means.

  function Of(rows: seq<Bucket>, domain: string): seq<Bucket> {
    if rows == [] then []
    else
      var last := rows[|rows| - 1];
      Of(rows[..|rows| - 1], domain) + if last.domain == domain then [last] else []
  }

  function ScopeOf(c: Context, rows: seq<Bucket>, domain: string): seq<Bucket> {
    if rows == [] then []
    else
      var last := rows[|rows| - 1];
      ScopeOf(c, rows[..|rows| - 1], domain) + if last.domain == domain && InScope(c, last) then [last] else []
  }

  function TotalSeconds(rows: seq<Bucket>): int {
    if rows == [] then 0 else TotalSeconds(rows[..|rows| - 1]) + Seconds(rows[|rows| - 1])
  }

  function TotalCost(rows: seq<Bucket>): real {
    if rows == [] then 0.0 else TotalCost(rows[..|rows| - 1]) + rows[|rows| - 1].costUsd
  }

  function TotalRequests(rows: seq<Bucket>): int {
    if rows == [] then 0 else TotalRequests(rows[..|rows| - 1]) + rows[|rows| - 1].requests
  }

  function TotalTokens(rows: seq<Bucket>): int {
    if rows == [] then 0 else TotalTokens(rows[..|rows| - 1]) + rows[|rows| - 1].tokens
  }

  predicate AnyProvisional(rows: seq<Bucket>) {
    exists i :: 0 <= i < |rows| && rows[i].provisional
  }

  /** Buckets in order, one ending before the next begins, all inside [from, to). */
  ghost predicate Apart(rows: seq<Bucket>, from: int, to: int) {
    && (forall i :: 0 <= i < |rows| ==> from <= rows[i].hourTs && End(rows[i]) <= to)
    && (forall i, j :: 0 <= i < j < |rows| ==> End(rows[i]) <= rows[j].hourTs)
  }

  ghost predicate Covers(b: Bucket, t: int) { b.hourTs <= t < End(b) }

  /** Every second of [from, to) lies in exactly one bucket and no bucket sticks out. */
  ghost predicate Tiles(rows: seq<Bucket>, from: int, to: int) {
    && Apart(rows, from, to)
    && (forall t :: from <= t < to ==> CoveredAt(rows, t))
  }

  ghost predicate CoveredAt(rows: seq<Bucket>, t: int) {
    exists i :: 0 <= i < |rows| && Covers(rows[i], t)
  }

  lemma CoveredOnce(rows: seq<Bucket>, from: int, to: int, t: int, i: int, j: int)
    requires Apart(rows, from, to) && 0 <= i < |rows| && 0 <= j < |rows|
    requires Covers(rows[i], t) && Covers(rows[j], t)
    ensures i == j
  {
  }

  lemma {:induction false} ApartFitsIn(rows: seq<Bucket>, from: int, to: int)
    requires Apart(rows, from, to) && from <= to
    ensures TotalSeconds(rows) <= to - from
    ensures rows != [] ==> TotalSeconds(rows) <= End(rows[|rows| - 1]) - from
  {
    if rows != [] {
      var last := rows[|rows| - 1];
      ApartFitsIn(rows[..|rows| - 1], from, last.hourTs);
    }
  }

  /** Buckets that are apart fill the window exactly when their lengths add up to its length. */
  lemma {:induction false} TilesIffFull(rows: seq<Bucket>, from: int, to: int)
    requires Apart(rows, from, to) && from <= to
    ensures Tiles(rows, from, to) <==> TotalSeconds(rows) == to - from
  {
    ApartFitsIn(rows, from, to);
    if rows == [] {
      assert from < to ==> !CoveredAt(rows, from);
    } else {
      var last, rest := rows[|rows| - 1], rows[..|rows| - 1];
      TilesIffFull(rest, from, last.hourTs);
      ApartFitsIn(rest, from, last.hourTs);
      assert from < to && Tiles(rows, from, to) ==> CoveredAt(rows, to - 1);
      forall t: int | from <= t < to ensures CoveredAt(rows, t) <==> CoveredAt(rest, t) || Covers(last, t) {
        CoveredStep(rest, last, t);
        assert rest + [last] == rows;
      }
    }
  }

  lemma CoveredStep(rest: seq<Bucket>, last: Bucket, t: int)
    ensures CoveredAt(rest + [last], t) <==> CoveredAt(rest, t) || Covers(last, t)
  {
    var rows := rest + [last];
    assert rows[|rest|] == last && forall i :: 0 <= i < |rest| ==> rows[i] == rest[i];
  }

  // The price of accepted buckets.

  datatype Price = Free | Known(usd: real) | Unknown(ambiguous: bool)

  ghost function PriceOf(b: Bucket, history: seq<Version>): Price
    requires Sorted(history)
  {
    if ZeroFaceValue(b) then Free
    else PriceUnder(b, TermsOf(history, b.hourTs, End(b)))
  }

  function PriceUnder(b: Bucket, terms: Terms): Price {
    match terms
    case Complete(paid, credit) => Known(AdjustedCost(b, paid, credit))
    case MissingHistory => Unknown(false)
    case BucketAmbiguous => Unknown(true)
  }

  /** The bill's face value converted by paid over credit. */
  function AdjustedCost(b: Bucket, paid: real, credit: real): real {
    if credit == 0.0 then 0.0 else b.costUsd * paid / credit
  }

  ghost function AdjustedTotal(rows: seq<Bucket>, history: seq<Version>): real
    requires Sorted(history)
  {
    if rows == [] then 0.0
    else AdjustedTotal(rows[..|rows| - 1], history) +
         match PriceOf(rows[|rows| - 1], history) case Known(usd) => usd case _ => 0.0
  }

  /** How many buckets have a price, the free ones included. */
  ghost function PricedCount(rows: seq<Bucket>, history: seq<Version>): int
    requires Sorted(history)
  {
    if rows == [] then 0
    else PricedCount(rows[..|rows| - 1], history) + if PriceOf(rows[|rows| - 1], history).Unknown? then 0 else 1
  }

  /** The face value of the buckets without a price. */
  ghost function UnpricedCost(rows: seq<Bucket>, history: seq<Version>): real
    requires Sorted(history)
  {
    if rows == [] then 0.0
    else
      var last := rows[|rows| - 1];
      UnpricedCost(rows[..|rows| - 1], history) + if PriceOf(last, history).Unknown? then last.costUsd else 0.0
  }

  ghost predicate AllPriced(rows: seq<Bucket>, history: seq<Version>)
    requires Sorted(history)
  {
    forall i :: 0 <= i < |rows| ==> !PriceOf(rows[i], history).Unknown?
  }

  ghost predicate AnyAmbiguous(rows: seq<Bucket>, history: seq<Version>)
    requires Sorted(history)
  {
    exists i :: 0 <= i < |rows| && PriceOf(rows[i], history) == Unknown(true)
  }

  ghost predicate AnyKnown(rows: seq<Bucket>, history: seq<Version>)
    requires Sorted(history)
  {
    exists i :: 0 <= i < |rows| && PriceOf(rows[i], history).Known?
  }

  /** What the running aggregate of one domain says about the buckets seen so far in scope and
      those accepted among them. */
  ghost predicate Totals(a: Aggregate, accepted: seq<Bucket>) {
    && a.completed == TotalSeconds(accepted)
    && a.costUsd == TotalCost(accepted)
    && a.requests == TotalRequests(accepted) && a.tokens == TotalTokens(accepted)
    && (a.provisional <==> AnyProvisional(accepted))
  }

  ghost predicate Prices(a: Aggregate, accepted: seq<Bucket>, history: seq<Version>)
    requires Sorted(history)
  {
    && a.adjusted == AdjustedTotal(accepted, history)
    && (a.adjustedOk <==> AllPriced(accepted, history))
    && (a.adjustedStatus == Adjusted <==> a.adjustedOk)
    && (a.adjustedStatus == Ambiguous <==> AnyAmbiguous(accepted, history))
    && (a.ratioSet <==> AnyKnown(accepted, history))
    && a.knownBuckets == PricedCount(accepted, history)
          && a.unresolvedBuckets == |accepted| - PricedCount(accepted, history)
    && a.unresolvedUsd == UnpricedCost(accepted, history)
  }

  /** No bucket sticks out of the window, overlaps the one before, or has an amount that cannot be: a
      negative cost or, where cost is quota by unit, a cost that is not. */
  ghost predicate Faultless(scope: seq<Bucket>, from: int, to: int) {
    && (forall i :: 0 <= i < |scope| ==> Sane(scope[i], from, to))
    && forall i, j :: 0 <= i < j < |scope| ==> scope[i].hourTs + Seconds(scope[i]) <= scope[j].hourTs
  }

  ghost predicate Sane(b: Bucket, from: int, to: int) {
    && from <= b.hourTs && 0 <= b.hourTs && b.hourTs + Seconds(b) <= to && b.costUsd >= 0.0
    && (b.provider.unitBased && b.quota != 0.0 ==> b.unitPerUsd > 0.0 && b.costUsd * b.unitPerUsd == b.quota)
  }

  function LastEnd(scope: seq<Bucket>): int {
    if scope == [] then 0 else scope[|scope| - 1].hourTs + Seconds(scope[|scope| - 1])
  }

  lemma FaultlessStep(scope: seq<Bucket>, b: Bucket, from: int, to: int)
    ensures Faultless(scope + [b], from, to) <==>
      Faultless(scope, from, to) && Sane(b, from, to) && LastEnd(scope) <= b.hourTs
  {
    var more, n := scope + [b], |scope|;
    assert more[n] == b && forall i :: 0 <= i < n ==> more[i] == scope[i];
    if Faultless(scope, from, to) && Sane(b, from, to) && LastEnd(scope) <= b.hourTs {
      forall i | 0 <= i < n ensures scope[i].hourTs + Seconds(scope[i]) <= b.hourTs {
        assert i == n - 1 || scope[i].hourTs + Seconds(scope[i]) <= scope[n - 1].hourTs;
      }
    }
    if Faultless(more, from, to) {
      assert Sane(more[n], from, to);
      forall i | 0 <= i < n ensures Sane(scope[i], from, to) { assert Sane(more[i], from, to); }
      assert n > 0 ==> more[n - 1].hourTs + Seconds(more[n - 1]) <= more[n].hourTs;
    }
  }

  lemma AmountsAgree(b: Bucket, from: int, to: int)
    ensures Sane(b, from, to) <==> from <= b.hourTs && 0 <= b.hourTs && End(b) <= to && ValidAmount(b)
  {
    if b.unitPerUsd > 0.0 { assert b.quota / b.unitPerUsd * b.unitPerUsd == b.quota; }
  }

  ghost predicate Placed(c: Context, a: Aggregate, from: int, accepted: seq<Bucket>, scope: seq<Bucket>) {
    && (a.integrity == Intact <==> Faultless(scope, from, c.to))
    && (a.integrity == Intact ==> a.lastEnd == LastEnd(scope))
    && a.lastEnd >= 0
    && a.expectedHours == ExpectedHours(from, c.to, c.now)
    && Apart(accepted, from, c.to)
    && (accepted != [] ==> End(accepted[|accepted| - 1]) <= a.lastEnd)
    && |accepted| <= |scope|
    && (a.integrity == Intact ==> accepted == scope)
    && (a.integrity != Intact ==> |accepted| < |scope|)
  }

  ghost predicate Tracks(c: Context, a: Aggregate, domain: string, accepted: seq<Bucket>, scope: seq<Bucket>)
    requires c.Valid() && domain in c.accounts
  {
    && Placed(c, a, WindowFrom(c, c.accounts[domain]), accepted, scope)
    && Totals(a, accepted)
    && Prices(a, accepted, c.HistoryOf(domain))
  }

  lemma AppendTotals(a: Aggregate, accepted: seq<Bucket>, b: Bucket)
    requires Totals(a, accepted)
    ensures Totals(a.(completed := a.completed + Seconds(b), costUsd := a.costUsd + b.costUsd,
                      requests := a.requests + b.requests, tokens := a.tokens + b.tokens, provisional := a.provisional
                          || b.provisional),
                   accepted + [b])
  {
    var more := accepted + [b];
    assert more[..|more| - 1] == accepted;
    assert AnyProvisional(more) <==> AnyProvisional(accepted) || b.provisional by {
      if b.provisional { assert more[|more| - 1].provisional; }
      if AnyProvisional(accepted) {
        var i :| 0 <= i < |accepted| && accepted[i].provisional;
        assert more[i].provisional;
      }
    }
  }

  lemma AppendPrices(accepted: seq<Bucket>, b: Bucket, history: seq<Version>)
    requires Sorted(history)
    ensures AdjustedTotal(accepted + [b], history) ==
              AdjustedTotal(accepted, history) + (match PriceOf(b, history) case Known(usd) => usd case _ => 0.0)
    ensures PricedCount(accepted + [b], history) ==
      PricedCount(accepted, history) + if PriceOf(b, history).Unknown? then 0 else 1
    ensures UnpricedCost(accepted + [b], history) ==
              UnpricedCost(accepted, history) + if PriceOf(b, history).Unknown? then b.costUsd else 0.0
    ensures AllPriced(accepted + [b], history) <==> AllPriced(accepted, history) && !PriceOf(b, history).Unknown?
    ensures AnyAmbiguous(accepted + [b], history) <==>
      AnyAmbiguous(accepted, history) || PriceOf(b, history) == Unknown(true)
    ensures AnyKnown(accepted + [b], history) <==> AnyKnown(accepted, history) || PriceOf(b, history).Known?
  {
    assert (accepted + [b])[..|accepted|] == accepted;
    AppendAllPriced(accepted, b, history);
    AppendAnyAmbiguous(accepted, b, history);
    AppendAnyKnown(accepted, b, history);
  }

  lemma AppendAllPriced(accepted: seq<Bucket>, b: Bucket, history: seq<Version>)
    requires Sorted(history)
    ensures AllPriced(accepted + [b], history) <==> AllPriced(accepted, history) && !PriceOf(b, history).Unknown?
  {
    var more := accepted + [b];
    assert more[|accepted|] == b && forall i :: 0 <= i < |accepted| ==> more[i] == accepted[i];
  }

  lemma AppendAnyAmbiguous(accepted: seq<Bucket>, b: Bucket, history: seq<Version>)
    requires Sorted(history)
    ensures AnyAmbiguous(accepted + [b], history) <==>
      AnyAmbiguous(accepted, history) || PriceOf(b, history) == Unknown(true)
  {
    var more := accepted + [b];
    assert more[|accepted|] == b && forall i :: 0 <= i < |accepted| ==> more[i] == accepted[i];
  }

  lemma AppendAnyKnown(accepted: seq<Bucket>, b: Bucket, history: seq<Version>)
    requires Sorted(history)
    ensures AnyKnown(accepted + [b], history) <==> AnyKnown(accepted, history) || PriceOf(b, history).Known?
  {
    var more := accepted + [b];
    assert more[|accepted|] == b && forall i :: 0 <= i < |accepted| ==> more[i] == accepted[i];
  }

  lemma AppendApart(accepted: seq<Bucket>, b: Bucket, from: int, to: int)
    requires Apart(accepted, from, to) && from <= b.hourTs && End(b) <= to
    requires accepted != [] ==> End(accepted[|accepted| - 1]) <= b.hourTs
    ensures Apart(accepted + [b], from, to)
  {
    var n := |accepted|;
    forall i | 0 <= i < n ensures End(accepted[i]) <= b.hourTs {
      assert i == n - 1 || End(accepted[i]) <= accepted[n - 1].hourTs;
    }
  }

  // The pass.

  lemma RejectKeepsTrack(
    c: Context, a: Aggregate, a': Aggregate, domain: string, accepted: seq<Bucket>, scope: seq<Bucket>, b: Bucket)
    requires c.Valid() && domain in c.accounts && Tracks(c, a, domain, accepted, scope)
    requires a' == a.(integrity := a'.integrity, lastEnd := a'.lastEnd)
    requires a'.integrity != Intact && a.lastEnd <= a'.lastEnd
    requires !Faultless(scope + [b], WindowFrom(c, c.accounts[domain]), c.to)
    ensures Tracks(c, a', domain, accepted, scope + [b])
  {
    assert Totals(a', accepted);
    assert Prices(a', accepted, c.HistoryOf(domain));
    assert Placed(c, a', WindowFrom(c, c.accounts[domain]), accepted, scope + [b]);
  }

  /** Everything but the price fields. */
  predicate SameFacts(a: Aggregate, b: Aggregate) {
    && a.expectedHours == b.expectedHours && a.requests == b.requests && a.tokens == b.tokens
    && a.costUsd == b.costUsd && a.provisional == b.provisional && a.completed == b.completed
    && a.lastEnd == b.lastEnd && a.integrity == b.integrity
  }

  function Counted(a: Aggregate, b: Bucket): Aggregate {
    a.(lastEnd := End(b), requests := a.requests + b.requests, tokens := a.tokens + b.tokens,
       costUsd := a.costUsd + b.costUsd, provisional := a.provisional || b.provisional,
       completed := a.completed + Seconds(b))
  }

  lemma AcceptKeepsTrack(
      c: Context, a: Aggregate, a': Aggregate, domain: string, accepted: seq<Bucket>, scope: seq<Bucket>, b: Bucket)
    requires c.Valid() && domain in c.accounts && Tracks(c, a, domain, accepted, scope)
    requires WindowFrom(c, c.accounts[domain]) <= b.hourTs && End(b) <= c.to && a.lastEnd <= b.hourTs
    requires ValidAmount(b) && SameFacts(Counted(a, b), a') && Prices(a', accepted + [b], c.HistoryOf(domain))
    ensures Tracks(c, a', domain, accepted + [b], scope + [b])
  {
    AppendTotals(a, accepted, b);
    AcceptKeepsPlace(c, a, WindowFrom(c, c.accounts[domain]), accepted, scope, b);
    assert Totals(a', accepted + [b]);
  }

  lemma AcceptKeepsPlace(c: Context, a: Aggregate, from: int, accepted: seq<Bucket>, scope: seq<Bucket>, b: Bucket)
    requires Placed(c, a, from, accepted, scope)
    requires from <= b.hourTs && End(b) <= c.to && a.lastEnd <= b.hourTs && ValidAmount(b)
    ensures Placed(c, a.(lastEnd := End(b)), from, accepted + [b], scope + [b])
  {
    AppendApart(accepted, b, from, c.to);
    FaultlessStep(scope, b, from, c.to);
    AmountsAgree(b, from, c.to);
  }

  /** What is wrong with a bucket that follows buckets up to lastEnd, in the order of the checks. */
  function FlawOf(c: Context, lastEnd: int, b: Bucket): Integrity
    requires b.domain in c.accounts
  {
    if !(WindowFrom(c, c.accounts[b.domain]) <= b.hourTs && End(b) <= c.to) then WindowMismatch
    else if b.hourTs < lastEnd then Overlap
    else if !ValidAmount(b) then InvalidAmount
    else Intact
  }

  lemma FlawIsFault(c: Context, a: Aggregate, from: int, accepted: seq<Bucket>, scope: seq<Bucket>, b: Bucket)
    requires b.domain in c.accounts && from == WindowFrom(c, c.accounts[b.domain])
    requires Placed(c, a, from, accepted, scope)
    ensures FlawOf(c, a.lastEnd, b) != Intact ==> !Faultless(scope + [b], from, c.to)
  {
    FaultlessStep(scope, b, from, c.to);
    AmountsAgree(b, from, c.to);
  }

  /** One in-scope bucket against the aggregate of its domain: taken exactly when nothing is wrong with
      it, else the domain's integrity names the flaw. */
  method AddBucket(c: Context, a: Aggregate, b: Bucket, ghost accepted: seq<Bucket>, ghost scope: seq<Bucket>)
    returns (a': Aggregate, taken: bool)
    requires c.Valid() && b.domain in c.accounts && InScope(c, b)
    requires Tracks(c, a, b.domain, accepted, scope)
    ensures Tracks(c, a', b.domain, if taken then accepted + [b] else accepted, scope + [b])
    ensures taken == (FlawOf(c, a.lastEnd, b) == Intact)
    ensures a'.integrity == if taken then a.integrity else FlawOf(c, a.lastEnd, b)
  {
    var from := WindowFrom(c, c.accounts[b.domain]);
    var end := End(b);
    FlawIsFault(c, a, from, accepted, scope, b);
    if end > c.to || b.hourTs < from {
      a', taken := a.(integrity := WindowMismatch), false;
      RejectKeepsTrack(c, a, a', b.domain, accepted, scope, b);
    } else if a.lastEnd > b.hourTs {
      a', taken := a.(integrity := Overlap), false;
      RejectKeepsTrack(c, a, a', b.domain, accepted, scope, b);
    } else if !ValidAmount(b) {
      a', taken := a.(lastEnd := end, integrity := InvalidAmount), false;
      RejectKeepsTrack(c, a, a', b.domain, accepted, scope, b);
    } else {
      a' := Counted(a, b);
      a' := PriceBucket(c, a', b, accepted);
      AcceptKeepsTrack(c, a, a', b.domain, accepted, scope, b);
      taken := true;
    }
  }

  /** The recharge terms of one accepted bucket. */
  method PriceBucket(c: Context, a: Aggregate, b: Bucket, ghost accepted: seq<Bucket>) returns (a': Aggregate)
    requires c.Valid() && Prices(a, accepted, c.HistoryOf(b.domain))
    ensures Prices(a', accepted + [b], c.HistoryOf(b.domain))
    ensures SameFacts(a, a')
  {
    var history := c.HistoryOf(b.domain);
    AppendPrices(accepted, b, history);
    if ZeroFaceValue(b) {
      return a.(knownBuckets := a.knownBuckets + 1);
    }
    var terms := Decide(history, b.hourTs, End(b));
    assert PriceOf(b, history) == PriceUnder(b, terms);
    if !terms.Complete? {
      var status := if terms.BucketAmbiguous? then Ambiguous else NoHistory;
      a' := a.(unresolvedBuckets := a.unresolvedBuckets + 1, unresolvedUsd := a.unresolvedUsd + b.costUsd,
          adjustedOk := false);
      if a.adjustedStatus == Adjusted || status == Ambiguous {
        a' := a'.(adjustedStatus := status);
      }
      return;
    }
    a' := a.(adjusted := a.adjusted + AdjustedCost(b, terms.paid, terms.credit),
             knownBuckets := a.knownBuckets + 1, ratioSet := true);
  }

  // The whole projection.

  lemma OfAppend(rows: seq<Bucket>, b: Bucket, domain: string)
    ensures Of(rows + [b], domain) == Of(rows, domain) + if b.domain == domain then [b] else []
  {
    assert (rows + [b])[..|rows|] == rows;
  }

  lemma ScopeOfAppend(c: Context, rows: seq<Bucket>, b: Bucket, domain: string)
    ensures ScopeOf(c, rows + [b], domain) ==
              ScopeOf(c, rows, domain) + if b.domain == domain && InScope(c, b) then [b] else []
  {
    assert (rows + [b])[..|rows|] == rows;
  }

  ghost predicate TracksAll(c: Context, aggregates: map<string, Aggregate>, accepted: seq<Bucket>, seen: seq<Bucket>)
    requires c.Valid()
  {
    forall d :: TracksDomain(c, aggregates, d, Of(accepted, d), ScopeOf(c, seen, d))
  }

  ghost predicate TracksDomain(
      c: Context, aggregates: map<string, Aggregate>, d: string, accepted: seq<Bucket>, scope: seq<Bucket>)
    requires c.Valid()
  {
    if d in aggregates then d in c.accounts && scope != [] && Tracks(c, aggregates[d], d, accepted, scope)
    else accepted == [] && scope == []
  }

  lemma AppendElsewhere(c: Context, accepted: seq<Bucket>, seen: seq<Bucket>, b: Bucket, taken: bool, d: string)
    requires InScope(c, b)
    ensures Of(if taken then accepted + [b] else accepted, d) ==
              Of(accepted, d) + if taken && b.domain == d then [b] else []
    ensures ScopeOf(c, seen + [b], d) == ScopeOf(c, seen, d) + if b.domain == d then [b] else []
  {
    OfAppend(accepted, b, d);
    ScopeOfAppend(c, seen, b, d);
  }

  lemma AppendTracksAll(
    c: Context, aggregates: map<string, Aggregate>, accepted: seq<Bucket>, seen: seq<Bucket>, b: Bucket,
    a': Aggregate, taken: bool)
    requires c.Valid() && TracksAll(c, aggregates, accepted, seen)
    requires b.domain in c.accounts && InScope(c, b)
    requires Tracks(c, a', b.domain, Of(accepted, b.domain) + if taken then [b] else [],
      ScopeOf(c, seen, b.domain) + [b])
    ensures TracksAll(c, aggregates[b.domain := a'], if taken then accepted + [b] else accepted, seen + [b])
  {
    var after, seen', accepted' := aggregates[b.domain := a'], seen + [b], if taken then accepted + [b] else accepted;
    forall d ensures TracksDomain(c, after, d, Of(accepted', d), ScopeOf(c, seen', d)) {
      AppendElsewhere(c, accepted, seen, b, taken, d);
      assert TracksDomain(c, aggregates, d, Of(accepted, d), ScopeOf(c, seen, d));
      if d != b.domain { KeepsTrack(c, aggregates, after, d, Of(accepted, d), ScopeOf(c, seen, d)); }
    }
  }

  lemma KeepsTrack(
      c: Context, aggregates: map<string, Aggregate>, after: map<string, Aggregate>, d: string, accepted: seq<Bucket>,
      scope: seq<Bucket>)
    requires c.Valid() && TracksDomain(c, aggregates, d, accepted, scope)
    requires (d in after <==> d in aggregates) && (d in after ==> after[d] == aggregates[d])
    ensures TracksDomain(c, after, d, accepted + [], scope + [])
  {
    assert accepted + [] == accepted && scope + [] == scope;
  }

  lemma SkipTracksAll(
      c: Context, aggregates: map<string, Aggregate>, accepted: seq<Bucket>, seen: seq<Bucket>, b: Bucket)
    requires c.Valid() && TracksAll(c, aggregates, accepted, seen) && !InScope(c, b)
    ensures TracksAll(c, aggregates, accepted, seen + [b])
  {
    forall d: string ensures TracksDomain(c, aggregates, d, Of(accepted, d), ScopeOf(c, seen + [b], d)) {
      ScopeOfAppend(c, seen, b, d);
      assert TracksDomain(c, aggregates, d, Of(accepted, d), ScopeOf(c, seen, d));
      assert ScopeOf(c, seen + [b], d) == ScopeOf(c, seen, d);
    }
  }

  lemma NewTracks(c: Context, domain: string)
    requires c.Valid() && domain in c.accounts
    ensures Tracks(c, NewAggregate(ExpectedHours(WindowFrom(c, c.accounts[domain]), c.to, c.now)), domain, [], [])
  {
  }

  /** The loop over the rows; accepted is the log of the callback for accepted buckets. */
  method Accumulate(c: Context, rows: seq<Bucket>) returns (aggregates: map<string, Aggregate>, accepted: seq<Bucket>)
    requires c.Valid()
    ensures TracksAll(c, aggregates, accepted, rows)
  {
    aggregates, accepted := map[], [];
    var i := 0;
    while i < |rows|
      invariant 0 <= i <= |rows|
      invariant TracksAll(c, aggregates, accepted, rows[..i])
    {
      assert rows[..i + 1] == rows[..i] + [rows[i]];
      aggregates, accepted := AccumulateOne(c, aggregates, accepted, rows[..i], rows[i]);
      i := i + 1;
    }
    assert rows[..i] == rows;
  }

  method AccumulateOne(
      c: Context, before: map<string, Aggregate>, acceptedBefore: seq<Bucket>, ghost seen: seq<Bucket>, b: Bucket)
    returns (aggregates: map<string, Aggregate>, accepted: seq<Bucket>)
    requires c.Valid() && TracksAll(c, before, acceptedBefore, seen)
    ensures TracksAll(c, aggregates, accepted, seen + [b])
  {
    aggregates, accepted := before, acceptedBefore;
    if !InScope(c, b) {
      SkipTracksAll(c, aggregates, accepted, seen, b);
      return;
    }
    assert TracksDomain(c, aggregates, b.domain, Of(accepted, b.domain), ScopeOf(c, seen, b.domain));
    NewTracks(c, b.domain);
    var a := if b.domain in aggregates then aggregates[b.domain]
             else NewAggregate(ExpectedHours(WindowFrom(c, c.accounts[b.domain]), c.to, c.now));
    var a', taken := AddBucket(c, a, b, Of(accepted, b.domain), ScopeOf(c, seen, b.domain));
    assert Of(accepted, b.domain) + [] == Of(accepted, b.domain);
    AppendTracksAll(c, aggregates, accepted, seen, b, a', taken);
    aggregates := aggregates[b.domain := a'];
    accepted := if taken then accepted + [b] else accepted;
  }

  function View(a: Aggregate): Metrics {
    if a.integrity != Intact then Metrics(a.integrity, a.expectedHours, 0, false, 0, 0, 0.0, false, 0.0, None, None)
    else
      var available := a.adjustedOk && (a.ratioSet || a.costUsd == 0.0);
      Metrics(Intact, a.expectedHours, a.completed / HOUR,
              (a.expectedHours == 0 || a.completed >= a.expectedHours * HOUR) && !a.provisional,
              a.requests, a.tokens, a.costUsd, available, if available then a.adjusted else 0.0,
              Some(a.adjustedStatus), Some(Breakdown(a.knownBuckets, a.adjusted, a.unresolvedBuckets, a.unresolvedUsd)))
  }

  /** Priced whole or not, and the two parts of what is accepted. */
  ghost predicate PricePublished(m: Metrics, scope: seq<Bucket>, history: seq<Version>)
    requires Sorted(history)
  {
    && (m.adjustedAvailable <==> AllPriced(scope, history) && (AnyKnown(scope, history) || TotalCost(scope) == 0.0))
    && m.adjustedUsd == (if m.adjustedAvailable then AdjustedTotal(scope, history) else 0.0)
    && m.adjustedStatus ==
          Some(if AllPriced(scope, history) then Adjusted else if AnyAmbiguous(scope, history) then Ambiguous
          else NoHistory)
    && m.breakdown == Some(Breakdown(PricedCount(scope, history), AdjustedTotal(scope, history),
                                     |scope| - PricedCount(scope, history), UnpricedCost(scope, history)))
  }

  /** What is published for a domain that has rows in scope: all figures of an intact domain, none of
      any other. */
  ghost predicate Published(c: Context, m: Metrics, domain: string, accepted: seq<Bucket>, scope: seq<Bucket>)
    requires c.Valid() && domain in c.accounts
  {
    var from := WindowFrom(c, c.accounts[domain]);
    && m.expectedHours == ExpectedHours(from, c.to, c.now)
    && Apart(accepted, from, c.to)
    && (m.integrity == Intact <==> accepted == scope)
    && (m.integrity == Intact <==> Faultless(scope, from, c.to))
    && (m.integrity != Intact ==>
          m == Metrics(m.integrity, m.expectedHours, 0, false, 0, 0, 0.0, false, 0.0, None, None))
    && (m.integrity == Intact ==>
          && m.costUsd == TotalCost(scope) && m.requests == TotalRequests(scope) && m.tokens == TotalTokens(scope)
          && m.completedHours == TotalSeconds(scope) / HOUR
          && (m.complete <==>
                (m.expectedHours == 0 || TotalSeconds(scope) >= m.expectedHours * HOUR) && !AnyProvisional(scope))
          && PricePublished(m, scope, c.HistoryOf(domain)))
  }

  lemma ViewIsPublished(c: Context, a: Aggregate, domain: string, accepted: seq<Bucket>, scope: seq<Bucket>)
    requires c.Valid() && domain in c.accounts && Tracks(c, a, domain, accepted, scope)
    ensures Published(c, View(a), domain, accepted, scope)
  {
  }

  /** Totals, completeness and adjusted cost of every domain with rows in scope. */
  method Project(c: Context, rows: seq<Bucket>) returns (result: map<string, Metrics>, accepted: seq<Bucket>)
    requires c.Valid()
    ensures forall d :: d in result <==> ScopeOf(c, rows, d) != []
    ensures forall d :: d in result ==> d in c.accounts
    ensures forall d :: d in result ==> Published(c, result[d], d, Of(accepted, d), ScopeOf(c, rows, d))
  {
    var aggregates;
    aggregates, accepted := Accumulate(c, rows);
    result := map d | d in aggregates :: View(aggregates[d]);
    forall d: string ensures TracksDomain(c, aggregates, d, Of(accepted, d), ScopeOf(c, rows, d)) {}
    forall d | d in aggregates
      ensures Published(c, result[d], d, Of(accepted, d), ScopeOf(c, rows, d))
    {
      ViewIsPublished(c, aggregates[d], d, Of(accepted, d), ScopeOf(c, rows, d));
    }
  }

  /** Over a non-empty window of closed whole hours an intact domain is complete exactly when its
      buckets tile the window and none is provisional. */
  lemma CompleteIffTiled(c: Context, m: Metrics, domain: string, accepted: seq<Bucket>, scope: seq<Bucket>)
    requires c.Valid() && domain in c.accounts && Published(c, m, domain, accepted, scope) && m.integrity == Intact
    requires var from := WindowFrom(c, c.accounts[domain]);
             from < c.to <= c.now - c.now % HOUR && (c.to - from) % HOUR == 0
    ensures m.complete <==> Tiles(accepted, WindowFrom(c, c.accounts[domain]), c.to) && !AnyProvisional(accepted)
  {
    var from := WindowFrom(c, c.accounts[domain]);
    assert m.expectedHours * HOUR == c.to - from;
    ApartFitsIn(accepted, from, c.to);
    TilesIffFull(accepted, from, c.to);
  }
}
