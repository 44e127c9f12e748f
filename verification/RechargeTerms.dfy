/** Recharge terms of an upstream domain: the history of paid:credit versions, and the decision
    whether one price held for the whole of a bill bucket. */
module RechargeTerms {

  import opened Basics

  const HOUR := 3600
  const VERSION_LIMIT := 5000

  datatype Version = Version(version: int, effectiveAt: int, paid: real, credit: real, valid: bool)

  predicate Usable(v: Version) { v.valid && ValidNumber(v.paid) && ValidNumber(v.credit) }

  predicate SameRatio(paid: real, credit: real, otherPaid: real, otherCredit: real) {
    && ValidNumber(otherPaid) && ValidNumber(otherCredit)
    && ((paid == otherPaid && credit == otherCredit)
        || (paid > 0.0 && credit > 0.0 && paid / credit == otherPaid / otherCredit))
  }

  /** History order: effective time, then version number. */
  predicate Before(a: Version, b: Version) {
    a.effectiveAt < b.effectiveAt || (a.effectiveAt == b.effectiveAt && a.version < b.version)
  }

  ghost predicate Sorted(history: seq<Version>) {
    forall i, j :: 0 <= i < j < |history| ==> Before(history[i], history[j])
  }

  // What a price at an instant means.

  /** Entry i is the greatest, in history order, of those effective by t. */
  ghost predicate InForce(history: seq<Version>, i: int, t: int) {
    && 0 <= i < |history| && history[i].effectiveAt <= t
    && forall j :: 0 <= j < |history| && j != i && history[j].effectiveAt <= t ==> Before(history[j], history[i])
  }

  ghost predicate PricedAt(history: seq<Version>, t: int, ratio: real) {
    exists i :: InForce(history, i, t) && Usable(history[i]) && history[i].paid / history[i].credit == ratio
  }

  ghost predicate OnePrice(history: seq<Version>, start: int, end: int, ratio: real) {
    forall t :: start <= t < end ==> PricedAt(history, t, ratio)
  }

  datatype Terms = MissingHistory | BucketAmbiguous | Complete(paid: real, credit: real)

  /** The meaning of each answer. */
  ghost predicate Means(terms: Terms, history: seq<Version>, start: int, end: int) {
    match terms
    case MissingHistory => forall ratio :: !PricedAt(history, start, ratio)
    case BucketAmbiguous =>
      (exists ratio :: PricedAt(history, start, ratio)) && (forall ratio :: !OnePrice(history, start, end, ratio))
    case Complete(paid, credit) =>
      && (exists i :: InForce(history, i, start) && Usable(history[i]) && history[i].paid == paid
            && history[i].credit == credit)
      && OnePrice(history, start, end, paid / credit)
  }

  lemma InForceIsUnique(history: seq<Version>, i: int, j: int, t: int)
    requires InForce(history, i, t) && InForce(history, j, t)
    ensures i == j
  {
  }

  /** Two different answers never mean the same history. */
  lemma MeaningIsExact(a: Terms, b: Terms, history: seq<Version>, start: int, end: int)
    requires start < end && Means(a, history, start, end) && Means(b, history, start, end)
    ensures a == b
  {
    assert a.Complete? ==> PricedAt(history, start, a.paid / a.credit);
    assert b.Complete? ==> PricedAt(history, start, b.paid / b.credit);
    if a.Complete? && b.Complete? {
      var i :| InForce(history, i, start) && Usable(history[i]) && history[i].paid == a.paid
        && history[i].credit == a.credit;
      var j :| InForce(history, j, start) && Usable(history[j]) && history[j].paid == b.paid
        && history[j].credit == b.credit;
      InForceIsUnique(history, i, j, start);
    }
  }

  /** The answer a sorted history has for a bucket. */
  ghost function TermsOf(history: seq<Version>, start: int, end: int): (terms: Terms)
    requires Sorted(history) && start < end
    ensures Means(terms, history, start, end)
  {
    if i :| InForce(history, i, start) && Usable(history[i]) then
      var ratio := history[i].paid / history[i].credit;
      assert PricedAt(history, start, ratio);
      assert forall r :: OnePrice(history, start, end, r) ==> PricedAt(history, start, r);
      if OnePrice(history, start, end, ratio) then Complete(history[i].paid, history[i].credit) else BucketAmbiguous
    else MissingHistory
  }

  lemma TermsOfIsTheAnswer(terms: Terms, history: seq<Version>, start: int, end: int)
    requires Sorted(history) && start < end && Means(terms, history, start, end)
    ensures terms == TermsOf(history, start, end)
  {
    MeaningIsExact(terms, TermsOf(history, start, end), history, start, end);
  }

  // The scan.

  method SelectAt(versions: seq<Version>, start: int) returns (selected: int)
    requires Sorted(versions)
    ensures -1 <= selected < |versions|
    ensures selected == -1 ==> forall i :: !InForce(versions, i, start)
    ensures selected >= 0 ==> InForce(versions, selected, start)
  {
    selected := -1;
    var i := 0;
    while i < |versions|
      invariant 0 <= i <= |versions| && selected == i - 1
      invariant forall j :: 0 <= j < i ==> versions[j].effectiveAt <= start
    {
      if versions[i].effectiveAt > start { break; }
      selected := i;
      i := i + 1;
    }
    LaterIsLater(versions, start, i);
  }

  lemma LaterIsLater(versions: seq<Version>, t: int, i: int)
    requires Sorted(versions) && 0 <= i <= |versions| && (i < |versions| ==> versions[i].effectiveAt > t)
    ensures forall k :: i <= k < |versions| ==> versions[k].effectiveAt > t
  {
    forall k | i <= k < |versions| ensures versions[k].effectiveAt > t {
      assert k == i || Before(versions[i], versions[k]);
    }
  }

  /** The scan over a sorted history answers exactly what held at every instant of the bucket. */
  method TermsForBucket(versions: seq<Version>, start: int, end: int) returns (terms: Terms)
    requires Sorted(versions) && start < end
    ensures Means(terms, versions, start, end)
  {
    var selected := SelectAt(versions, start);
    if selected < 0 || !versions[selected].valid {
      MissingIsMeant(versions, selected, start, end);
      return MissingHistory;
    }
    var paid, credit := versions[selected].paid, versions[selected].credit;
    if !ValidNumber(paid) || !ValidNumber(credit) {
      MissingIsMeant(versions, selected, start, end);
      return MissingHistory;
    }
    var found, i := FirstChange(versions, selected, start, end);
    if found {
      ChangeInsideBucket(versions, selected, i, start, end);
      terms := BucketAmbiguous;
    } else {
      NoChangeInsideBucket(versions, selected, i, start, end);
      terms := Complete(paid, credit);
    }
  }

  /** The scan as the function of the history that it computes. */
  method Decide(versions: seq<Version>, start: int, end: int) returns (terms: Terms)
    requires Sorted(versions) && start < end
    ensures terms == TermsOf(versions, start, end)
  {
    terms := TermsForBucket(versions, start, end);
    TermsOfIsTheAnswer(terms, versions, start, end);
  }

  /** The second loop: the first version that takes effect inside the bucket with other terms. */
  method FirstChange(versions: seq<Version>, selected: int, start: int, end: int) returns (found: bool, i: int)
    requires 0 <= selected < |versions| && Usable(versions[selected])
    ensures selected < i <= |versions|
    ensures found ==>
              && i < |versions| && start < versions[i].effectiveAt < end && TakesEffect(versions, i)
              && !SameTerms(versions[i], versions[selected].paid / versions[selected].credit)
    ensures !found ==>
              && Unchanged(versions, selected, i, start, versions[selected].paid / versions[selected].credit)
              && (i < |versions| ==> versions[i].effectiveAt >= end)
  {
    var paid, credit := versions[selected].paid, versions[selected].credit;
    i := selected + 1;
    while i < |versions| && versions[i].effectiveAt < end
      invariant selected < i <= |versions|
      invariant Unchanged(versions, selected, i, start, paid / credit)
    {
      SameRatioIsSameTerms(paid, credit, versions[i]);
      if versions[i].effectiveAt <= start {
        i := i + 1;
        continue;
      }
      if i + 1 < |versions| && versions[i + 1].effectiveAt == versions[i].effectiveAt {
        i := i + 1;
        continue;
      }
      if !versions[i].valid || !SameRatio(paid, credit, versions[i].paid, versions[i].credit) {
        return true, i;
      }
      i := i + 1;
    }
    found := false;
  }

  /** No version after the selected one and up to i takes effect inside the bucket with other terms. */
  ghost predicate Unchanged(versions: seq<Version>, selected: int, i: int, start: int, ratio: real)
    requires 0 <= selected < i <= |versions|
  {
    forall j :: selected < j < i && versions[j].effectiveAt > start && TakesEffect(versions, j) ==>
                  SameTerms(versions[j], ratio)
  }

  lemma SameRatioIsSameTerms(paid: real, credit: real, v: Version)
    requires ValidNumber(paid) && ValidNumber(credit)
    ensures v.valid && SameRatio(paid, credit, v.paid, v.credit) <==> SameTerms(v, paid / credit)
  {
  }

  lemma MissingIsMeant(versions: seq<Version>, selected: int, start: int, end: int)
    requires selected < 0 ==> forall i :: !InForce(versions, i, start)
    requires selected >= 0 ==> InForce(versions, selected, start) && !Usable(versions[selected])
    ensures Means(MissingHistory, versions, start, end)
  {
  }

  /** Only the last version at an instant takes effect. */
  predicate TakesEffect(versions: seq<Version>, j: int)
    requires 0 <= j < |versions|
  {
    j + 1 < |versions| ==> versions[j + 1].effectiveAt != versions[j].effectiveAt
  }

  predicate SameTerms(v: Version, ratio: real) { Usable(v) && v.paid / v.credit == ratio }

  lemma TakesEffectIsInForce(versions: seq<Version>, j: int)
    requires Sorted(versions) && 0 <= j < |versions| && TakesEffect(versions, j)
    ensures InForce(versions, j, versions[j].effectiveAt)
  {
    forall k | 0 <= k < |versions| && k != j && versions[k].effectiveAt <= versions[j].effectiveAt
      ensures Before(versions[k], versions[j])
    {
      if k > j { assert Before(versions[j], versions[j + 1]); }
    }
  }

  lemma ChangeInsideBucket(versions: seq<Version>, selected: int, i: int, start: int, end: int)
    requires Sorted(versions) && 0 <= selected < i < |versions|
    requires InForce(versions, selected, start) && Usable(versions[selected])
    requires start < versions[i].effectiveAt < end && TakesEffect(versions, i)
    requires !SameTerms(versions[i], versions[selected].paid / versions[selected].credit)
    ensures Means(BucketAmbiguous, versions, start, end)
  {
    assert PricedAt(versions, start, versions[selected].paid / versions[selected].credit);
    TakesEffectIsInForce(versions, i);
    var t := versions[i].effectiveAt;
    forall ratio | OnePrice(versions, start, end, ratio) ensures false {
      assert PricedAt(versions, start, ratio) && PricedAt(versions, t, ratio);
      var a :| InForce(versions, a, start) && Usable(versions[a]) && versions[a].paid / versions[a].credit == ratio;
      var b :| InForce(versions, b, t) && Usable(versions[b]) && versions[b].paid / versions[b].credit == ratio;
      InForceIsUnique(versions, a, selected, start);
      InForceIsUnique(versions, b, i, t);
    }
  }

  lemma {:induction false} InForceExists(versions: seq<Version>, from: int, t: int) returns (i: int)
    requires Sorted(versions) && 0 <= from < |versions| && versions[from].effectiveAt <= t
    ensures from <= i && InForce(versions, i, t)
    decreases |versions| - from
  {
    if from + 1 < |versions| && versions[from + 1].effectiveAt <= t {
      i := InForceExists(versions, from + 1, t);
    } else {
      i := from;
      LaterIsLater(versions, t, i + 1);
    }
  }

  lemma NoChangeInsideBucket(versions: seq<Version>, selected: int, stop: int, start: int, end: int)
    requires Sorted(versions) && 0 <= selected < stop <= |versions|
    requires InForce(versions, selected, start) && Usable(versions[selected])
    requires Unchanged(versions, selected, stop, start, versions[selected].paid / versions[selected].credit)
    requires stop < |versions| ==> versions[stop].effectiveAt >= end
    ensures Means(Complete(versions[selected].paid, versions[selected].credit), versions, start, end)
  {
    var ratio := versions[selected].paid / versions[selected].credit;
    forall t: int | start <= t < end ensures PricedAt(versions, t, ratio) {
      var i := InForceExists(versions, selected, t);
      LaterIsLater(versions, t, stop);
      assert i > selected ==> versions[i].effectiveAt > start by {
        if i > selected { assert Before(versions[selected], versions[i]); }
      }
      if i + 1 < |versions| { assert Before(versions[i], versions[i + 1]); }
      assert i == selected || SameTerms(versions[i], ratio);
    }
  }

  // Terms of one whole hour for a publication: point lookup plus the changes inside the hour.

  /** A stored version row; decodes says whether its snapshot can be parsed. */
  datatype Stored = Stored(version: int, effectiveAt: int, paid: real, credit: real, decodes: bool)

  function ToVersion(s: Stored): Version {
    Version(s.version, s.effectiveAt, s.paid, s.credit, s.decodes && ValidNumber(s.paid) && ValidNumber(s.credit))
  }

  function History(rows: seq<Stored>): (h: seq<Version>)
    ensures |h| == |rows| && forall i :: 0 <= i < |rows| ==> h[i] == ToVersion(rows[i])
  {
    seq(|rows|, i requires 0 <= i < |rows| => ToVersion(rows[i]))
  }

  datatype HourTerms = HourError | HourTerms(version: int, paid: real, credit: real, known: bool)

  /** The last row, in descending order of effective time and version, effective at the hour. */
  method FinanceAt(rows: seq<Stored>, hour: int) returns (r: HourTerms, selected: int)
    requires Sorted(History(rows))
    ensures -1 <= selected < |rows|
    ensures selected == -1 ==> r == HourTerms(0, 0.0, 0.0, false) && forall i :: !InForce(History(rows), i, hour)
    ensures selected >= 0 ==> InForce(History(rows), selected, hour)
    ensures selected >= 0 && (!rows[selected].decodes || rows[selected].paid <= 0.0 || rows[selected].credit <= 0.0) ==>
              r == HourError
    ensures selected >= 0 && rows[selected].decodes && rows[selected].paid > 0.0 && rows[selected].credit > 0.0 ==>
              r == HourTerms(rows[selected].version, rows[selected].paid, rows[selected].credit, true)
  {
    selected := SelectAt(History(rows), hour);
    if selected < 0 { return HourTerms(0, 0.0, 0.0, false), selected; }
    var row := rows[selected];
    if !row.decodes || row.paid <= 0.0 || row.credit <= 0.0 { return HourError, selected; }
    r := HourTerms(row.version, row.paid, row.credit, true);
  }

  /** The rows that become effective strictly inside (from, to), in history order. */
  function Between(rows: seq<Stored>, from: int, to: int): seq<Stored> {
    if rows == [] then []
    else (if from < rows[0].effectiveAt < to then [rows[0]] else []) + Between(rows[1..], from, to)
  }

  predicate WholeHour(hour: int) { hour >= 0 && hour % HOUR == 0 && hour <= MAX_INT64 - HOUR }

  method TermsInsideHour(first: Version, changes: seq<Stored>) returns (terms: seq<Version>)
    ensures terms == [first] + History(changes)
  {
    terms := [first];
    var i := 0;
    while i < |changes|
      invariant 0 <= i <= |changes|
      invariant terms == [first] + History(changes[..i])
    {
      terms := terms + [ToVersion(changes[i])];
      i := i + 1;
      assert History(changes[..i]) == History(changes[..i - 1]) + [ToVersion(changes[i - 1])];
    }
    assert changes[..i] == changes;
  }

  /** The row in force cannot be used at all, or the hour holds more changes than the limit. */
  predicate Unpublishable(rows: seq<Stored>, i: int, hour: int)
    requires 0 <= i < |rows|
  {
    || !rows[i].decodes || rows[i].paid <= 0.0 || rows[i].credit <= 0.0
    || |Between(rows, hour, hour + HOUR)| > VERSION_LIMIT
  }

  /** Agreement with the decision over the whole history. */
  ghost predicate AgreesWithHistory(r: HourTerms, rows: seq<Stored>, hour: int)
    requires r.HourTerms?
  {
    && (r.known ==> Means(Complete(r.paid, r.credit), History(rows), hour, hour + HOUR))
    && (!r.known ==> exists terms: Terms :: !terms.Complete? && Means(terms, History(rows), hour, hour + HOUR))
    && (forall i :: InForce(History(rows), i, hour) ==> r.version == rows[i].version)
  }

  /** Terms of a publication hour. Without an error they agree, in value and in being known, with
      the whole-history decision for the same hour. */
  method AgreedForHour(rows: seq<Stored>, hour: int) returns (r: HourTerms)
    requires Sorted(History(rows))
    ensures r.HourTerms? ==> AgreesWithHistory(r, rows, hour) && (!r.known ==> r.paid == 0.0 && r.credit == 0.0)
    ensures r.HourTerms? && (forall i :: !InForce(History(rows), i, hour)) ==> r.version == 0
    ensures r == HourError <==>
      !WholeHour(hour) || exists i :: InForce(History(rows), i, hour) && Unpublishable(rows, i, hour)
  {
    if !WholeHour(hour) { return HourError; }
    var at, k := FinanceAt(rows, hour);
    if k >= 0 { OnlyOneInForce(rows, k, hour); }
    if at.HourError? { return at; }
    if !at.known {
      ghost var missing: Terms := MissingHistory;
      assert !missing.Complete? && Means(missing, History(rows), hour, hour + HOUR);
      return at;
    }
    var changes := Between(rows, hour, hour + HOUR);
    if |changes| > VERSION_LIMIT { return HourError; }
    var terms := TermsInsideHour(Version(at.version, hour, at.paid, at.credit, true), changes);
    ListIsSlice(rows, terms, k, hour);
    var answer := TermsForBucket(terms, hour, hour + HOUR);
    AnswerAgrees(answer, rows, terms, k, hour);
    if answer.Complete? {
      r := HourTerms(at.version, answer.paid, answer.credit, true);
    } else {
      r := HourTerms(at.version, 0.0, 0.0, false);
    }
  }

  lemma OnlyOneInForce(rows: seq<Stored>, k: nat, hour: int)
    requires InForce(History(rows), k, hour)
    ensures forall i :: InForce(History(rows), i, hour) ==> i == k
  {
    forall i | InForce(History(rows), i, hour) ensures i == k { InForceIsUnique(History(rows), i, k, hour); }
  }

  lemma ListIsSlice(rows: seq<Stored>, terms: seq<Version>, k: nat, hour: int)
    requires Sorted(History(rows)) && InForce(History(rows), k, hour)
    requires terms == [ToVersion(rows[k]).(effectiveAt := hour, valid := true)]
      + History(Between(rows, hour, hour + HOUR))
    ensures Sorted(terms)
  {
    var m := BetweenIsSlice(rows, k, hour, hour + HOUR);
    TermsAreSorted(History(rows), terms, k, m, hour);
  }

  lemma AnswerAgrees(answer: Terms, rows: seq<Stored>, terms: seq<Version>, k: nat, hour: int)
    requires Sorted(History(rows)) && InForce(History(rows), k, hour) && Sorted(terms)
    requires terms == [ToVersion(rows[k]).(effectiveAt := hour, valid := true)]
      + History(Between(rows, hour, hour + HOUR))
    requires rows[k].decodes && Means(answer, terms, hour, hour + HOUR)
    ensures AgreesWithHistory(
              if answer.Complete? then HourTerms(rows[k].version, answer.paid, answer.credit, true)
              else HourTerms(rows[k].version, 0.0, 0.0, false), rows, hour)
  {
    var m := BetweenIsSlice(rows, k, hour, hour + HOUR);
    HourMeaning(answer, History(rows), terms, k, m, hour, hour + HOUR);
    forall i | InForce(History(rows), i, hour) ensures rows[i].version == rows[k].version {
      InForceIsUnique(History(rows), i, k, hour);
    }
  }

  /** terms is the version in force at the hour, moved to the hour, with the rest of the slice. */
  ghost predicate TermsOfSlice(history: seq<Version>, terms: seq<Version>, k: int, m: int, hour: int) {
    && 0 <= k < m <= |history| && |terms| == m - k
    && terms[0] == history[k].(effectiveAt := hour, valid := true)
    && (forall i :: 0 < i < m - k ==> terms[i] == history[k + i])
  }

  lemma {:induction false} BetweenOfConcat(a: seq<Stored>, b: seq<Stored>, from: int, to: int)
    ensures Between(a + b, from, to) == Between(a, from, to) + Between(b, from, to)
  {
    if a == [] {
      assert a + b == b;
    } else {
      assert (a + b)[1..] == a[1..] + b;
      BetweenOfConcat(a[1..], b, from, to);
    }
  }

  lemma {:induction false} BetweenAll(a: seq<Stored>, from: int, to: int)
    ensures (forall i :: 0 <= i < |a| ==> from < a[i].effectiveAt < to) ==> Between(a, from, to) == a
    ensures (forall i :: 0 <= i < |a| ==> !(from < a[i].effectiveAt < to)) ==> Between(a, from, to) == []
  {
    if a != [] { BetweenAll(a[1..], from, to); }
  }

  /** The first position from i on that is effective at or after to. */
  lemma {:induction false} FirstAtOrAfter(rows: seq<Stored>, i: nat, to: int) returns (m: nat)
    requires Sorted(History(rows)) && i <= |rows|
    ensures i <= m <= |rows|
    ensures forall j :: i <= j < m ==> rows[j].effectiveAt < to
    ensures forall j :: m <= j < |rows| ==> rows[j].effectiveAt >= to
    decreases |rows| - i
  {
    if i < |rows| && rows[i].effectiveAt < to {
      m := FirstAtOrAfter(rows, i + 1, to);
    } else {
      m := i;
      LaterIsLater(History(rows), to - 1, i);
      assert forall j :: m <= j < |rows| ==> History(rows)[j].effectiveAt >= to;
    }
  }

  lemma EffectiveByIsPrefix(h: seq<Version>, k: nat, t: int)
    requires Sorted(h) && InForce(h, k, t)
    ensures forall j :: 0 <= j < |h| ==> (j <= k <==> h[j].effectiveAt <= t)
  {
    forall j | 0 <= j < |h| ensures j <= k <==> h[j].effectiveAt <= t {
      assert j == k || (j < k && Before(h[j], h[k])) || (k < j && Before(h[k], h[j]));
    }
  }

  lemma BetweenOfThree(a: seq<Stored>, b: seq<Stored>, c: seq<Stored>, from: int, to: int)
    requires forall i :: 0 <= i < |a| ==> a[i].effectiveAt <= from
    requires forall i :: 0 <= i < |b| ==> from < b[i].effectiveAt < to
    requires forall i :: 0 <= i < |c| ==> c[i].effectiveAt >= to
    ensures Between(a + (b + c), from, to) == b
  {
    BetweenOfConcat(a, b + c, from, to);
    BetweenOfConcat(b, c, from, to);
    BetweenAll(a, from, to);
    BetweenAll(b, from, to);
    BetweenAll(c, from, to);
  }

  lemma BetweenIsSlice(rows: seq<Stored>, k: nat, from: int, to: int) returns (m: nat)
    requires Sorted(History(rows)) && InForce(History(rows), k, from)
    ensures k < m <= |rows| && Between(rows, from, to) == rows[k + 1..m]
    ensures forall j :: k < j < m ==> from < rows[j].effectiveAt < to
    ensures forall j :: m <= j < |rows| ==> rows[j].effectiveAt >= to
  {
    EffectiveByIsPrefix(History(rows), k, from);
    m := FirstAtOrAfter(rows, k + 1, to);
    forall j | 0 <= j < |rows| ensures j <= k <==> rows[j].effectiveAt <= from {
      assert History(rows)[j].effectiveAt == rows[j].effectiveAt;
    }
    assert rows == rows[..k + 1] + (rows[k + 1..m] + rows[m..]);
    BetweenOfThree(rows[..k + 1], rows[k + 1..m], rows[m..], from, to);
  }

  lemma TermsAreSorted(history: seq<Version>, terms: seq<Version>, k: int, m: int, hour: int)
    requires Sorted(history) && TermsOfSlice(history, terms, k, m, hour)
    requires forall j :: k < j < m ==> hour < history[j].effectiveAt
    ensures Sorted(terms)
  {
    forall i, j | 0 <= i < j < |terms| ensures Before(terms[i], terms[j]) {
      if i > 0 { assert Before(history[k + i], history[k + j]); }
    }
  }

  lemma InForceInSlice(history: seq<Version>, terms: seq<Version>, k: int, m: int, hour: int, end: int, t: int, i: int)
    requires Sorted(history) && TermsOfSlice(history, terms, k, m, hour) && Sorted(terms)
    requires InForce(history, k, hour) && hour <= t < end
    requires forall j :: m <= j < |history| ==> history[j].effectiveAt >= end
    requires 0 <= i < |terms|
    ensures InForce(terms, i, t) <==> InForce(history, k + i, t)
  {
    if InForce(terms, i, t) {
      forall j | 0 <= j < |history| && j != k + i && history[j].effectiveAt <= t
        ensures Before(history[j], history[k + i])
      {
        if j > k { assert terms[j - k] == history[j]; }
      }
    }
    if InForce(history, k + i, t) {
      forall j | 0 <= j < |terms| && j != i && terms[j].effectiveAt <= t ensures Before(terms[j], terms[i]) {
        assert history[k + j].effectiveAt <= t;
      }
    }
  }

  lemma PricedInSlice(
      history: seq<Version>, terms: seq<Version>, k: int, m: int, hour: int, end: int, t: int, ratio: real)
    requires Sorted(history) && TermsOfSlice(history, terms, k, m, hour) && Sorted(terms)
    requires InForce(history, k, hour) && hour <= t < end
    requires forall j :: m <= j < |history| ==> history[j].effectiveAt >= end
    requires Usable(history[k]) <==> Usable(terms[0])
    ensures PricedAt(terms, t, ratio) <==> PricedAt(history, t, ratio)
  {
    if PricedAt(terms, t, ratio) {
      var i :| InForce(terms, i, t) && Usable(terms[i]) && terms[i].paid / terms[i].credit == ratio;
      InForceInSlice(history, terms, k, m, hour, end, t, i);
      assert Usable(history[k + i]);
    }
    if PricedAt(history, t, ratio) {
      var i :| InForce(history, i, t) && Usable(history[i]) && history[i].paid / history[i].credit == ratio;
      assert k <= i by { assert i == k || Before(history[k], history[i]); }
      InForceInSlice(history, terms, k, m, hour, end, t, i - k);
      assert Usable(terms[i - k]);
    }
  }

  lemma HourMeaning(answer: Terms, history: seq<Version>, terms: seq<Version>, k: int, m: int, hour: int, end: int)
    requires Sorted(history) && TermsOfSlice(history, terms, k, m, hour) && Sorted(terms)
    requires InForce(history, k, hour) && hour < end
    requires forall j :: m <= j < |history| ==> history[j].effectiveAt >= end
    requires Usable(history[k]) <==> Usable(terms[0])
    requires Means(answer, terms, hour, end)
    ensures Means(answer, history, hour, end)
  {
    match answer
    case MissingHistory =>
      forall ratio
        ensures !PricedAt(history, hour, ratio)
      {
        PricedInSlice(history, terms, k, m, hour, end, hour, ratio);
      }
    case BucketAmbiguous =>
      var ratio :| PricedAt(terms, hour, ratio);
      PricedInSlice(history, terms, k, m, hour, end, hour, ratio);
      forall other
        ensures !OnePrice(history, hour, end, other)
      {
        OnePriceInSlice(history, terms, k, m, hour, end, other);
      }
    case Complete(paid, credit) =>
      AnswerInSlice(answer, history, terms, k, m, hour, end);
      OnePriceInSlice(history, terms, k, m, hour, end, paid / credit);
  }

  lemma OnePriceInSlice(history: seq<Version>, terms: seq<Version>, k: int, m: int, hour: int, end: int, ratio: real)
    requires Sorted(history) && TermsOfSlice(history, terms, k, m, hour) && Sorted(terms)
    requires InForce(history, k, hour) && hour < end
    requires forall j :: m <= j < |history| ==> history[j].effectiveAt >= end
    requires Usable(history[k]) <==> Usable(terms[0])
    ensures OnePrice(terms, hour, end, ratio) <==> OnePrice(history, hour, end, ratio)
  {
    forall t: int | hour <= t < end ensures PricedAt(history, t, ratio) <==> PricedAt(terms, t, ratio) {
      PricedInSlice(history, terms, k, m, hour, end, t, ratio);
    }
    SamePrices(history, terms, hour, end, ratio);
  }

  lemma AnswerInSlice(answer: Terms, history: seq<Version>, terms: seq<Version>, k: int, m: int, hour: int, end: int)
    requires Sorted(history) && TermsOfSlice(history, terms, k, m, hour) && Sorted(terms)
    requires InForce(history, k, hour) && hour < end
    requires forall j :: m <= j < |history| ==> history[j].effectiveAt >= end
    requires Usable(history[k]) <==> Usable(terms[0])
    requires answer.Complete? && Means(answer, terms, hour, end)
    ensures exists i ::
      && InForce(history, i, hour) && Usable(history[i])
      && history[i].paid == answer.paid && history[i].credit == answer.credit
  {
    var i :| InForce(terms, i, hour) && Usable(terms[i]) && terms[i].paid == answer.paid
      && terms[i].credit == answer.credit;
    InForceInSlice(history, terms, k, m, hour, end, hour, i);
    assert Usable(history[k + i]);
  }

  lemma SamePrices(a: seq<Version>, b: seq<Version>, start: int, end: int, ratio: real)
    requires forall t :: start <= t < end ==> (PricedAt(a, t, ratio) <==> PricedAt(b, t, ratio))
    ensures OnePrice(a, start, end, ratio) <==> OnePrice(b, start, end, ratio)
  {
  }
}
