/** What a bill projection says about the buckets it was given: which of them count, what each costs
    once recharge terms are applied, and what a domain's figures are. */
module BillMeaning {

  import opened Basics
  import opened RechargeTerms
  import opened BillBuckets

  // Which buckets count.

  /** A real bill of the domain from its own provider that reaches into the window; an hourly one must
      lie inside it. */
  predicate Concerns(c: Context, b: Bucket, d: string) {
    && !b.unitBoundary && b.domain == d && d in c.accounts
    && c.accounts[d].enabled && b.provider == c.accounts[d].provider
    && var from := Max(c.from, c.accounts[d].requiredFrom);
      && from < b.hourTs + Seconds(b)
      && (c.accounts[d].granularity == Hourly ==> from <= b.hourTs && b.hourTs + Seconds(b) <= c.to)
  }

  predicate InTimeOrder(rows: seq<Bucket>) { forall i, j :: 0 <= i < j < |rows| ==> rows[i].hourTs <= rows[j].hourTs }

  lemma ConcernsIff(c: Context, b: Bucket, d: string)
    ensures b.domain == d && InScope(c, b) <==> Concerns(c, b, d)
  {
  }

  /** The scope of a domain is exactly its concerns among the rows, each as often as it was given. */
  lemma {:induction false} ScopeIs(c: Context, rows: seq<Bucket>, d: string)
    ensures forall b :: multiset(ScopeOf(c, rows, d))[b] == if Concerns(c, b, d) then multiset(rows)[b] else 0
    decreases |rows|
  {
    if rows != [] {
      var before, last := rows[..|rows| - 1], rows[|rows| - 1];
      ScopeIs(c, before, d);
      ConcernsIff(c, last, d);
      assert rows == before + [last];
      assert multiset(rows) == multiset(before) + multiset{last};
      var scope := ScopeOf(c, before, d);
      assert Concerns(c, last, d) ==> multiset(scope + [last]) == multiset(scope) + multiset{last};
      assert scope + [] == scope;
    }
  }

  lemma {:induction false} ScopeKeepsOrder(c: Context, rows: seq<Bucket>, d: string)
    requires InTimeOrder(rows)
    ensures InTimeOrder(ScopeOf(c, rows, d))
    ensures forall b :: b in ScopeOf(c, rows, d) ==> b in rows
    decreases |rows|
  {
    if rows != [] {
      var before, last := rows[..|rows| - 1], rows[|rows| - 1];
      ScopeKeepsOrder(c, before, d);
      assert rows == before + [last];
      forall b | b in before ensures b.hourTs <= last.hourTs {
        var i :| 0 <= i < |before| && before[i] == b;
        assert rows[i] == b && rows[|before|] == last;
      }
      var scope := ScopeOf(c, before, d);
      forall i | 0 <= i < |scope| ensures scope[i].hourTs <= last.hourTs { assert scope[i] in before; }
    }
  }

  // What one bucket costs.

  /** A bill of nothing. */
  predicate Nothing(b: Bucket) { b.costUsd == 0.0 && b.quota == 0.0 }

  /** The same recharge ratio, paid over credit, held at every instant of the bucket. */
  ghost predicate Held(b: Bucket, history: seq<Version>, ratio: real) {
    OnePrice(history, b.hourTs, b.hourTs + Seconds(b), ratio)
  }

  ghost predicate Resolved(b: Bucket, history: seq<Version>) { Nothing(b) || exists ratio :: Held(b, history, ratio) }

  /** Terms were in force when the bucket began, but changed before it ended. */
  ghost predicate Changed(b: Bucket, history: seq<Version>) {
    !Resolved(b, history) && exists ratio :: PricedAt(history, b.hourTs, ratio)
  }

  lemma StartRatioIsUnique(history: seq<Version>, t: int, ratio: real, other: real)
    requires PricedAt(history, t, ratio) && PricedAt(history, t, other)
    ensures ratio == other
  {
    var i :| InForce(history, i, t) && Usable(history[i]) && history[i].paid / history[i].credit == ratio;
    var j :| InForce(history, j, t) && Usable(history[j]) && history[j].paid / history[j].credit == other;
    InForceIsUnique(history, i, j, t);
  }

  lemma HeldAtStart(b: Bucket, history: seq<Version>, ratio: real)
    requires Held(b, history, ratio)
    ensures PricedAt(history, b.hourTs, ratio)
  {
  }

  lemma HeldIsUnique(b: Bucket, history: seq<Version>, ratio: real, other: real)
    requires Held(b, history, ratio) && Held(b, history, other)
    ensures ratio == other
  {
    HeldAtStart(b, history, ratio);
    HeldAtStart(b, history, other);
    StartRatioIsUnique(history, b.hourTs, ratio, other);
  }

  lemma Quotient(cost: real, paid: real, credit: real)
    requires credit > 0.0
    ensures cost * paid / credit == cost * (paid / credit) && cost * paid / credit * credit == cost * paid
  {
  }

  lemma AdjustedIs(b: Bucket, paid: real, credit: real)
    requires credit > 0.0
    ensures AdjustedCost(b, paid, credit) * credit == b.costUsd * paid
    ensures AdjustedCost(b, paid, credit) == b.costUsd * (paid / credit)
  {
    Quotient(b.costUsd, paid, credit);
  }

  /** Whether a bucket has a price. */
  lemma PriceKind(b: Bucket, history: seq<Version>)
    requires Sorted(history)
    ensures PriceOf(b, history) == Free <==> Nothing(b)
    ensures PriceOf(b, history).Unknown? <==> !Resolved(b, history)
    ensures PriceOf(b, history) == Unknown(true) <==> Changed(b, history)
  {
    var terms := TermsOf(history, b.hourTs, End(b));
    assert End(b) == b.hourTs + Seconds(b);
    if terms.Complete? {
      assert Held(b, history, terms.paid / terms.credit);
    } else {
      forall ratio ensures !Held(b, history, ratio) {
        if Held(b, history, ratio) { HeldAtStart(b, history, ratio); }
      }
    }
  }

  /** The price of a bucket: by the terms in force at its start, cost times paid over credit; and by
      any ratio that held over it, cost times that ratio. */
  lemma PriceIs(b: Bucket, history: seq<Version>, i: int, ratio: real)
    requires Sorted(history) && PriceOf(b, history).Known? && InForce(history, i, b.hourTs)
    requires Held(b, history, ratio)
    ensures PriceOf(b, history).usd * history[i].credit == b.costUsd * history[i].paid
    ensures PriceOf(b, history).usd == b.costUsd * ratio
  {
    var terms := TermsOf(history, b.hourTs, End(b));
    var j :| InForce(history, j, b.hourTs) && Usable(history[j]) && history[j].paid == terms.paid
      && history[j].credit == terms.credit;
    InForceIsUnique(history, i, j, b.hourTs);
    AdjustedIs(b, terms.paid, terms.credit);
    assert Held(b, history, terms.paid / terms.credit);
    HeldIsUnique(b, history, ratio, terms.paid / terms.credit);
  }

  // What a domain costs.

  /** Cost times the ratio that held; nothing where none did. */
  ghost function Converted(b: Bucket, history: seq<Version>): real {
    if Nothing(b) then 0.0
    else if ratio :| Held(b, history, ratio) then b.costUsd * ratio
    else 0.0
  }

  ghost function ConvertedTotal(rows: seq<Bucket>, history: seq<Version>): real {
    if rows == [] then 0.0 else ConvertedTotal(rows[..|rows| - 1], history) + Converted(rows[|rows| - 1], history)
  }

  ghost function ResolvedCount(rows: seq<Bucket>, history: seq<Version>): int {
    if rows == [] then 0
    else ResolvedCount(rows[..|rows| - 1], history) + if Resolved(rows[|rows| - 1], history) then 1 else 0
  }

  ghost function UnresolvedCost(rows: seq<Bucket>, history: seq<Version>): real {
    if rows == [] then 0.0
    else
      var last := rows[|rows| - 1];
      UnresolvedCost(rows[..|rows| - 1], history) + if Resolved(last, history) then 0.0 else last.costUsd
  }

  lemma ConvertedIs(b: Bucket, history: seq<Version>, ratio: real)
    requires !Nothing(b) && Held(b, history, ratio)
    ensures Converted(b, history) == b.costUsd * ratio
  {
    forall other | Held(b, history, other) ensures other == ratio { HeldIsUnique(b, history, ratio, other); }
  }

  lemma ConvertedIsPrice(b: Bucket, history: seq<Version>)
    requires Sorted(history)
    ensures Converted(b, history) == match PriceOf(b, history) case Known(usd) => usd case _ => 0.0
  {
    PriceKind(b, history);
    if PriceOf(b, history).Known? {
      var ratio :| Held(b, history, ratio);
      HeldAtStart(b, history, ratio);
      var i :| InForce(history, i, b.hourTs) && Usable(history[i]);
      PriceIs(b, history, i, ratio);
      ConvertedIs(b, history, ratio);
    }
  }

  lemma {:induction false} TotalsAre(rows: seq<Bucket>, history: seq<Version>)
    requires Sorted(history)
    ensures AdjustedTotal(rows, history) == ConvertedTotal(rows, history)
    ensures PricedCount(rows, history) == ResolvedCount(rows, history)
    ensures UnpricedCost(rows, history) == UnresolvedCost(rows, history)
    decreases |rows|
  {
    if rows != [] {
      var last := rows[|rows| - 1];
      TotalsAre(rows[..|rows| - 1], history);
      ConvertedIsPrice(last, history);
      assert PriceOf(last, history).Unknown? <==> !Resolved(last, history) by { PriceKind(last, history); }
    }
  }

  ghost predicate AllResolved(rows: seq<Bucket>, history: seq<Version>) {
    forall b :: b in rows ==> Resolved(b, history)
  }

  ghost predicate SomeChanged(rows: seq<Bucket>, history: seq<Version>) {
    exists b :: b in rows && Changed(b, history)
  }

  ghost predicate SomeConverted(rows: seq<Bucket>, history: seq<Version>) {
    exists b :: b in rows && !Nothing(b) && Resolved(b, history)
  }

  lemma PricedIff(rows: seq<Bucket>, history: seq<Version>)
    requires Sorted(history)
    ensures AllPriced(rows, history) <==> AllResolved(rows, history)
    ensures AnyKnown(rows, history) <==> SomeConverted(rows, history)
    ensures AnyAmbiguous(rows, history) <==> SomeChanged(rows, history)
  {
    forall b
      ensures PriceOf(b, history).Unknown? <==> !Resolved(b, history)
      ensures PriceOf(b, history).Known? <==> !Nothing(b) && Resolved(b, history)
      ensures PriceOf(b, history) == Unknown(true) <==> Changed(b, history)
    {
      PriceKind(b, history);
    }
  }

  /** What is published about the cost of an intact domain: converted in full when every bucket is
      resolved, and in any case as a resolved and an unresolved part. */
  lemma AdjustedSays(m: Metrics, scope: seq<Bucket>, history: seq<Version>)
    requires Sorted(history) && PricePublished(m, scope, history)
    ensures
      && (m.adjustedAvailable <==>
            AllResolved(scope, history) && (TotalCost(scope) == 0.0 || SomeConverted(scope, history)))
      && m.adjustedUsd == (if m.adjustedAvailable then ConvertedTotal(scope, history) else 0.0)
      && m.breakdown ==
          Some(Breakdown(ResolvedCount(scope, history), ConvertedTotal(scope, history),
            |scope| - ResolvedCount(scope, history), UnresolvedCost(scope, history)))
      && m.adjustedStatus == Some(if AllResolved(scope, history) then Adjusted
        else if SomeChanged(scope, history) then Ambiguous else NoHistory)
  {
    TotalsAre(scope, history);
    PricedIff(scope, history);
  }

  lemma {:induction false} OneRatioTotal(rows: seq<Bucket>, history: seq<Version>, ratio: real)
    requires Sorted(history) && forall b :: b in rows ==> Held(b, history, ratio)
    ensures ConvertedTotal(rows, history) == TotalCost(rows) * ratio
    decreases |rows|
  {
    if rows != [] {
      var before, last := rows[..|rows| - 1], rows[|rows| - 1];
      assert rows == before + [last] && last in rows;
      OneRatioTotal(before, history, ratio);
      if !Nothing(last) { ConvertedIs(last, history, ratio); }
    }
  }

  lemma {:induction false} NothingCosts(rows: seq<Bucket>)
    requires forall b :: b in rows ==> Nothing(b)
    ensures TotalCost(rows) == 0.0
    decreases |rows|
  {
    if rows != [] {
      assert rows == rows[..|rows| - 1] + [rows[|rows| - 1]];
      assert rows[|rows| - 1] in rows;
      NothingCosts(rows[..|rows| - 1]);
    }
  }

  lemma OneRatioResolves(rows: seq<Bucket>, history: seq<Version>, ratio: real)
    requires forall b :: b in rows ==> Held(b, history, ratio)
    ensures AllResolved(rows, history) && (TotalCost(rows) == 0.0 || SomeConverted(rows, history))
  {
    forall b | b in rows ensures Resolved(b, history) { assert Held(b, history, ratio); }
    if forall b :: b in rows ==> Nothing(b) { NothingCosts(rows); }
  }

  /** An intact domain publishes its bill and the prices of exactly the buckets in scope. */
  lemma IntactPublishes(c: Context, m: Metrics, d: string, accepted: seq<Bucket>, scope: seq<Bucket>)
    requires c.Valid() && d in c.accounts && Published(c, m, d, accepted, scope) && m.integrity == Intact
    ensures m.costUsd == TotalCost(scope) && PricePublished(m, scope, c.HistoryOf(d))
  {
  }

  /** Where one ratio of paid over credit held over all buckets, the domain's adjusted cost is its bill
      times that ratio: at 1 paid for 10 credited, a bill of 100 costs 10. */
  lemma OneRatioConverts(m: Metrics, scope: seq<Bucket>, history: seq<Version>, ratio: real)
    requires Sorted(history) && PricePublished(m, scope, history)
    requires forall b :: b in scope ==> Held(b, history, ratio)
    ensures m.adjustedAvailable && m.adjustedUsd == TotalCost(scope) * ratio
  {
    AdjustedSays(m, scope, history);
    OneRatioResolves(scope, history, ratio);
    OneRatioTotal(scope, history, ratio);
  }

  /** The same in what was paid and credited. */
  lemma InPaidAndCredit(adjusted: real, bill: real, ratio: real, paid: real, credit: real)
    requires credit > 0.0 && ratio == paid / credit && adjusted == bill * ratio
    ensures adjusted * credit == bill * paid
  {
    Quotient(bill, paid, credit);
  }
}
