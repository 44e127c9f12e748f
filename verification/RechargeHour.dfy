/** The recharge terms an hour is published with, in terms of the stored version rows. */
module RechargeHour {

  import opened Basics
  import opened RechargeTerms

  /** Row i is the last by t: no other row effective by then is effective later, or as late with a
      greater version. */
  ghost predicate Rules(rows: seq<Stored>, i: int, t: int) {
    && 0 <= i < |rows| && rows[i].effectiveAt <= t
    && forall j :: 0 <= j < |rows| && j != i && rows[j].effectiveAt <= t ==>
          || rows[j].effectiveAt < rows[i].effectiveAt
          || (rows[j].effectiveAt == rows[i].effectiveAt && rows[j].version < rows[i].version)
  }

  predicate Plausible(v: real) { 0.000000001 <= v <= 1000000000.0 }

  /** The row in force at t can be read and has this ratio of paid over credit. */
  ghost predicate RatioAt(rows: seq<Stored>, t: int, ratio: real) {
    exists i :: Rules(rows, i, t) && rows[i].decodes && Plausible(rows[i].paid) && Plausible(rows[i].credit)
      && rows[i].paid / rows[i].credit == ratio
  }

  ghost predicate RatioThrough(rows: seq<Stored>, hour: int, ratio: real) {
    forall t :: hour <= t < hour + 3600 ==> RatioAt(rows, t, ratio)
  }

  /** The terms of an hour: known exactly when one ratio held through it, and then those of the row in
      force when it began, whose version they name in any case; without such a row, version 0. */
  ghost predicate HourSays(r: HourTerms, rows: seq<Stored>, hour: int)
    requires r.HourTerms?
  {
    && (r.known <==> exists ratio :: RatioThrough(rows, hour, ratio))
    && (forall i :: Rules(rows, i, hour) ==>
          r.version == rows[i].version && (r.known ==> r.paid == rows[i].paid && r.credit == rows[i].credit))
    && ((forall i :: !Rules(rows, i, hour)) ==> r == HourTerms(0, 0.0, 0.0, false))
    && (!r.known ==> r.paid == 0.0 && r.credit == 0.0)
  }

  /** What makes an hour fail: a time that is no whole hour, terms in force that cannot be read or are
      not positive, or more than 5000 changes inside the hour. */
  ghost predicate Fails(rows: seq<Stored>, hour: int) {
    || hour < 0 || hour % 3600 != 0 || hour > MAX_INT64 - 3600
    || exists i :: Rules(rows, i, hour)
        && (!rows[i].decodes || rows[i].paid <= 0.0 || rows[i].credit <= 0.0 || ChangesIn(rows, hour) > 5000)
  }

  function ChangesIn(rows: seq<Stored>, hour: int): nat {
    if rows == [] then 0
    else (if hour < rows[0].effectiveAt && rows[0].effectiveAt < hour + 3600 then 1 else 0) + ChangesIn(rows[1..], hour)
  }

  lemma RulesIff(rows: seq<Stored>, i: int, t: int)
    ensures Rules(rows, i, t) <==> InForce(History(rows), i, t)
  {
    var h := History(rows);
    forall j | 0 <= j < |rows| && 0 <= i < |rows|
      ensures Before(h[j], h[i]) <==>
        || rows[j].effectiveAt < rows[i].effectiveAt
        || (rows[j].effectiveAt == rows[i].effectiveAt && rows[j].version < rows[i].version)
    {
    }
  }

  lemma RatioIff(rows: seq<Stored>, t: int, ratio: real)
    ensures RatioAt(rows, t, ratio) <==> PricedAt(History(rows), t, ratio)
  {
    forall i ensures Rules(rows, i, t) <==> InForce(History(rows), i, t) { RulesIff(rows, i, t); }
  }

  lemma ThroughIff(rows: seq<Stored>, hour: int, ratio: real)
    ensures RatioThrough(rows, hour, ratio) <==> OnePrice(History(rows), hour, hour + HOUR, ratio)
  {
    forall t ensures RatioAt(rows, t, ratio) <==> PricedAt(History(rows), t, ratio) { RatioIff(rows, t, ratio); }
  }

  lemma {:induction false} ChangesAre(rows: seq<Stored>, hour: int)
    ensures ChangesIn(rows, hour) == |Between(rows, hour, hour + HOUR)|
    decreases |rows|
  {
    if rows != [] { ChangesAre(rows[1..], hour); }
  }

  lemma FailsIff(rows: seq<Stored>, hour: int)
    ensures Fails(rows, hour) <==>
      !WholeHour(hour) || exists i :: InForce(History(rows), i, hour) && Unpublishable(rows, i, hour)
  {
    ChangesAre(rows, hour);
    forall i ensures Rules(rows, i, hour) <==> InForce(History(rows), i, hour) { RulesIff(rows, i, hour); }
  }

  lemma AtStart(history: seq<Version>, start: int, end: int, ratio: real)
    ensures start < end && OnePrice(history, start, end, ratio) ==> PricedAt(history, start, ratio)
  {
  }

  lemma UnknownHasNone(rows: seq<Stored>, hour: int, terms: Terms, ratio: real)
    requires !terms.Complete? && Means(terms, History(rows), hour, hour + HOUR)
    ensures !OnePrice(History(rows), hour, hour + HOUR, ratio)
  {
    AtStart(History(rows), hour, hour + HOUR, ratio);
  }

  lemma KnownIff(r: HourTerms, rows: seq<Stored>, hour: int)
    requires r.HourTerms? && AgreesWithHistory(r, rows, hour)
    ensures r.known <==> exists ratio :: RatioThrough(rows, hour, ratio)
  {
    if r.known {
      ThroughIff(rows, hour, r.paid / r.credit);
    } else {
      var terms: Terms :| !terms.Complete? && Means(terms, History(rows), hour, hour + HOUR);
      forall ratio ensures !RatioThrough(rows, hour, ratio) {
        ThroughIff(rows, hour, ratio);
        UnknownHasNone(rows, hour, terms, ratio);
      }
    }
  }

  lemma KnownTerms(r: HourTerms, rows: seq<Stored>, hour: int, i: int)
    requires r.HourTerms? && r.known && AgreesWithHistory(r, rows, hour) && InForce(History(rows), i, hour)
    ensures r.paid == rows[i].paid && r.credit == rows[i].credit
  {
    var j :| InForce(History(rows), j, hour) && Usable(History(rows)[j]) && History(rows)[j].paid == r.paid
      && History(rows)[j].credit == r.credit;
    InForceIsUnique(History(rows), i, j, hour);
  }

  lemma AgreementSays(r: HourTerms, rows: seq<Stored>, hour: int)
    requires r.HourTerms? && AgreesWithHistory(r, rows, hour) && (!r.known ==> r.paid == 0.0 && r.credit == 0.0)
    requires (forall i :: !InForce(History(rows), i, hour)) ==> r.version == 0
    ensures HourSays(r, rows, hour)
  {
    KnownIff(r, rows, hour);
    forall i ensures Rules(rows, i, hour) <==> InForce(History(rows), i, hour) { RulesIff(rows, i, hour); }
    forall i | Rules(rows, i, hour)
      ensures r.version == rows[i].version && (r.known ==> r.paid == rows[i].paid && r.credit == rows[i].credit)
    {
      if r.known { KnownTerms(r, rows, hour, i); }
    }
    if (forall i :: !Rules(rows, i, hour)) && r.known {
      var ratio :| RatioThrough(rows, hour, ratio);
      ThroughIff(rows, hour, ratio);
      RatioIff(rows, hour, ratio);
      AtStart(History(rows), hour, hour + HOUR, ratio);
    }
  }

  /** Terms of a publication hour, from the row in force and the changes inside the hour alone, are
      those of the whole history: known exactly when one ratio held through the hour. */
  method FinanceForHour(rows: seq<Stored>, hour: int) returns (r: HourTerms)
    requires Sorted(History(rows))
    ensures r.HourTerms? ==> HourSays(r, rows, hour)
    ensures r == HourError <==> Fails(rows, hour)
  {
    r := AgreedForHour(rows, hour);
    FailsIff(rows, hour);
    if r.HourTerms? { AgreementSays(r, rows, hour); }
  }
}
