/** First-token latency counters of one minute row: six disjoint millisecond buckets, the
    number of observed samples, the exact number above three seconds, and the maximum. The
    coverage check has only these nine numbers; it is exact for the samples behind them. */
module FirstTokenHistogram {

  import opened Basics

  datatype Row = Row(
    b500: int, b1k: int, b2k: int, b5k: int, b10k: int, bInf: int,
    observed: int, over3s: int, maxMs: int)

  /** The SQL predicate that rejects a stored row. */
  predicate Invalid(r: Row) {
    || r.b500 < 0 || r.b1k < 0 || r.b2k < 0 || r.b5k < 0 || r.b10k < 0 || r.bInf < 0
    || r.observed < 0 || r.over3s < 0 || r.maxMs < 0
    || r.over3s > r.observed
    || r.over3s < r.b10k + r.bInf
    || r.over3s > r.b5k + r.b10k + r.bInf
    || (r.over3s > 0 && r.maxMs <= 3000)
    || (r.over3s == 0 && r.maxMs > 3000)
    || r.b500 + r.b1k + r.b2k + r.b5k + r.b10k + r.bInf != r.observed
    || (r.observed == 0 && (r.maxMs != 0 || r.over3s != 0))
    || (r.observed > 0 && r.maxMs <= 0)
    || (r.bInf > 0 && r.maxMs <= 10000)
    || (r.bInf == 0 && r.b10k > 0 && (r.maxMs <= 5000 || r.maxMs > 10000))
    || (r.bInf == 0 && r.b10k == 0 && r.b5k > 0 && (r.maxMs <= 2000 || r.maxMs > 5000))
    || (r.bInf == 0 && r.b10k == 0 && r.b5k == 0 && r.b2k > 0 && (r.maxMs <= 1000 || r.maxMs > 2000))
    || (r.bInf == 0 && r.b10k == 0 && r.b5k == 0 && r.b2k == 0 && r.b1k > 0 && (r.maxMs <= 500 || r.maxMs > 1000))
    || (r.bInf == 0 && r.b10k == 0 && r.b5k == 0 && r.b2k == 0 && r.b1k == 0 && r.b500 > 0
        && (r.maxMs <= 0 || r.maxMs > 500))
    || (r.bInf == 0 && r.b10k == 0 && r.b5k == 0 && r.b2k == 0 && r.b1k == 0 && r.b500 == 0 && r.maxMs != 0)
  }

  // What the counters mean: the row that a list of latencies produces.

  const ZERO := Row(0, 0, 0, 0, 0, 0, 0, 0, 0)

  function Flag(b: bool): int { if b then 1 else 0 }

  function One(ms: int): Row {
    Row(Flag(ms <= 500), Flag(500 < ms <= 1000), Flag(1000 < ms <= 2000), Flag(2000 < ms <= 5000),
        Flag(5000 < ms <= 10000), Flag(10000 < ms), 1, Flag(ms > 3000), ms)
  }

  /** Counters add up, maxima are joined: how rows of one key are aggregated. */
  function Join(a: Row, b: Row): Row {
    Row(a.b500 + b.b500, a.b1k + b.b1k, a.b2k + b.b2k, a.b5k + b.b5k, a.b10k + b.b10k, a.bInf + b.bInf,
        a.observed + b.observed, a.over3s + b.over3s, Max(a.maxMs, b.maxMs))
  }

  function Summary(samples: seq<int>): Row {
    if samples == [] then ZERO else Join(One(samples[0]), Summary(samples[1..]))
  }

  predicate Positive(samples: seq<int>) {
    forall i :: 0 <= i < |samples| ==> samples[i] > 0
  }

  ghost predicate Realizes(samples: seq<int>, r: Row) {
    Positive(samples) && Summary(samples) == r
  }

  /** The smallest latency that can be taken out of a row while its maximum stays. */
  function Smallest(r: Row): int {
    if r.b500 > 0 then 1
    else if r.b1k > 0 then 501
    else if r.b2k > 0 then 1001
    else if r.b5k > r.over3s - r.b10k - r.bInf then 2001
    else if r.b5k > 0 then 3001
    else if r.b10k > 0 then 5001
    else 10001
  }

  function Without(r: Row, ms: int): Row {
    var o := One(ms);
    Row(r.b500 - o.b500, r.b1k - o.b1k, r.b2k - o.b2k, r.b5k - o.b5k, r.b10k - o.b10k, r.bInf - o.bInf,
        r.observed - 1, r.over3s - o.over3s, r.maxMs)
  }

  lemma PeelKeepsValid(r: Row)
    requires !Invalid(r) && r.observed >= 2
    ensures !Invalid(Without(r, Smallest(r)))
    ensures 0 < Smallest(r) <= r.maxMs
    ensures Join(One(Smallest(r)), Without(r, Smallest(r))) == r
  {
  }

  /** A list of latencies behind a row that the predicate accepts. */
  ghost function Samples(r: Row): (s: seq<int>)
    requires !Invalid(r)
    ensures Realizes(s, r)
    decreases r.observed
  {
    if r.observed == 0 then []
    else if r.observed == 1 then
      assert [r.maxMs][1..] == [];
      [r.maxMs]
    else
      PeelKeepsValid(r);
      var rest := Samples(Without(r, Smallest(r)));
      assert ([Smallest(r)] + rest)[1..] == rest;
      [Smallest(r)] + rest
  }

  lemma JoinKeepsValid(a: Row, b: Row)
    requires !Invalid(a) && !Invalid(b)
    ensures !Invalid(Join(a, b))
  {
  }

  lemma {:induction false} SummaryIsValid(samples: seq<int>)
    requires Positive(samples)
    ensures !Invalid(Summary(samples))
  {
    if samples != [] {
      SummaryIsValid(samples[1..]);
      JoinKeepsValid(One(samples[0]), Summary(samples[1..]));
    }
  }

  lemma JoinIsAssociative(a: Row, b: Row, c: Row)
    ensures Join(a, Join(b, c)) == Join(Join(a, b), c)
  {
  }

  lemma ZeroIsNeutral(r: Row)
    requires r.maxMs >= 0
    ensures Join(ZERO, r) == r
  {
  }

  lemma SummaryOfCons(ms: int, s: seq<int>)
    ensures Summary([ms] + s) == Join(One(ms), Summary(s))
  {
    assert ([ms] + s)[1..] == s;
  }

  lemma {:induction false} SummaryOfConcat(a: seq<int>, b: seq<int>)
    ensures Summary(a + b) == Join(Summary(a), Summary(b))
  {
    if a == [] {
      assert a + b == b;
      SummaryIsNonNegativeMax(b);
      ZeroIsNeutral(Summary(b));
    } else {
      var x, rest := a[0], a[1..];
      assert a == [x] + rest && a + b == [x] + (rest + b);
      calc {
        Summary(a + b);
        { SummaryOfCons(x, rest + b); }
        Join(One(x), Summary(rest + b));
        { SummaryOfConcat(rest, b); }
        Join(One(x), Join(Summary(rest), Summary(b)));
        { JoinIsAssociative(One(x), Summary(rest), Summary(b)); }
        Join(Join(One(x), Summary(rest)), Summary(b));
        { SummaryOfCons(x, rest); }
        Join(Summary(a), Summary(b));
      }
    }
  }

  lemma {:induction false} SummaryIsNonNegativeMax(s: seq<int>)
    ensures Summary(s).maxMs >= 0
  {
    if s != [] { SummaryIsNonNegativeMax(s[1..]); }
  }

  /** The long boolean test is exact: it accepts a row iff some positive latencies produce it. */
  lemma ValidIffRealizable(r: Row)
    ensures !Invalid(r) <==> exists samples :: Realizes(samples, r)
  {
    if !Invalid(r) {
      assert Realizes(Samples(r), r);
    }
    forall samples | Realizes(samples, r) ensures !Invalid(r) {
      SummaryIsValid(samples);
    }
  }

  // The reconciliation of the site-wide row of one key with its per-user rows.

  function JoinAll(rows: seq<Row>): Row {
    if rows == [] then ZERO else Join(rows[0], JoinAll(rows[1..]))
  }

  predicate AllValid(rows: seq<Row>) {
    forall i :: 0 <= i < |rows| ==> !Invalid(rows[i])
  }

  /** The negated HAVING clause for one group: site rows count positively, user rows negatively,
      and each side reports maximum zero for the other. */
  predicate GroupReconciles(site: seq<Row>, users: seq<Row>) {
    var s, u := JoinAll(site), JoinAll(users);
    && |site| != 0 && |users| != 0
    && AllValid(site) && AllValid(users)
    && s.b500 - u.b500 == 0 && s.b1k - u.b1k == 0 && s.b2k - u.b2k == 0
    && s.b5k - u.b5k == 0 && s.b10k - u.b10k == 0 && s.bInf - u.bInf == 0
    && s.observed - u.observed == 0 && s.over3s - u.over3s == 0
    && s.maxMs == u.maxMs
  }

  function Flatten(parts: seq<seq<int>>): seq<int> {
    if parts == [] then [] else parts[0] + Flatten(parts[1..])
  }

  ghost predicate RealizesAll(parts: seq<seq<int>>, rows: seq<Row>) {
    && |parts| == |rows|
    && forall i :: 0 <= i < |rows| ==> Realizes(parts[i], rows[i])
  }

  lemma {:induction false} SummaryOfFlatten(parts: seq<seq<int>>, rows: seq<Row>)
    requires RealizesAll(parts, rows)
    ensures Summary(Flatten(parts)) == JoinAll(rows)
  {
    if parts != [] {
      assert RealizesAll(parts[1..], rows[1..]) by {
        forall i | 0 <= i < |rows[1..]| ensures Realizes(parts[1..][i], rows[1..][i]) {
          assert Realizes(parts[i + 1], rows[i + 1]);
        }
      }
      assert Realizes(parts[0], rows[0]);
      SummaryOfFlatten(parts[1..], rows[1..]);
      SummaryOfConcat(parts[0], Flatten(parts[1..]));
    }
  }

  lemma RealizedRowsAreValid(parts: seq<seq<int>>, rows: seq<Row>)
    requires RealizesAll(parts, rows)
    ensures AllValid(rows)
  {
    forall i | 0 <= i < |rows| ensures !Invalid(rows[i]) {
      assert Realizes(parts[i], rows[i]);
      SummaryIsValid(parts[i]);
    }
  }

  lemma {:induction false} FlattenPositive(parts: seq<seq<int>>)
    requires forall i :: 0 <= i < |parts| ==> Positive(parts[i])
    ensures Positive(Flatten(parts))
  {
    if parts != [] { FlattenPositive(parts[1..]); }
  }

  lemma JoinOfOne(r: Row)
    ensures JoinAll([r]) == Join(r, ZERO)
  {
    assert [r][1..] == [];
  }

  lemma OneSiteRow(site: Row, users: seq<Row>)
    ensures GroupReconciles([site], users) <==>
      users != [] && !Invalid(site) && AllValid(users) && JoinAll(users) == site
  {
    JoinOfOne(site);
    assert AllValid([site]) <==> !Invalid([site][0]);
    if users != [] && AllValid(users) { JoinAllKeepsValid(users); }
  }

  /** The site table has one row per key. Its group reconciles with the user rows exactly when every
      user row has latencies of its own that, taken together, are latencies of the site row:
      contradictory users cannot cancel out. */
  lemma ReconcilesIffUsersShareTraffic(site: Row, users: seq<Row>)
    ensures GroupReconciles([site], users) <==>
              users != [] && exists parts :: RealizesAll(parts, users) && Realizes(Flatten(parts), site)
  {
    OneSiteRow(site, users);
    if GroupReconciles([site], users) {
      var parts := seq(|users|, i requires 0 <= i < |users| => Samples(users[i]));
      assert RealizesAll(parts, users);
      SummaryOfFlatten(parts, users);
      FlattenPositive(parts);
    }
    forall parts | users != [] && RealizesAll(parts, users) && Realizes(Flatten(parts), site)
      ensures GroupReconciles([site], users)
    {
      SummaryOfFlatten(parts, users);
      RealizedRowsAreValid(parts, users);
      SummaryIsValid(Flatten(parts));
    }
  }

  lemma OnlySample(samples: seq<int>, ms: int)
    requires Realizes(samples, One(ms)) && ms > 0
    ensures samples == [ms]
  {
    SummaryCounts(samples);
    assert |samples| == 1;
    assert samples[1..] == [];
  }

  lemma {:induction false} SummaryCounts(samples: seq<int>)
    ensures Summary(samples).observed == |samples|
  {
    if samples != [] { SummaryCounts(samples[1..]); }
  }

  /** Latencies behind two rows of two sides, the same ones on both sides. */
  ghost predicate SameTraffic(left: seq<seq<int>>, site: seq<Row>, right: seq<seq<int>>, users: seq<Row>) {
    RealizesAll(left, site) && RealizesAll(right, users) && multiset(Flatten(left)) == multiset(Flatten(right))
  }

  lemma OtherTraffic(left: seq<seq<int>>, a: int, b: int, right: seq<seq<int>>, c: int, d: int)
    requires a > 0 && b > 0 && c > 0 && d > 0 && a != c && a != d
    ensures !SameTraffic(left, [One(a), One(b)], right, [One(c), One(d)])
  {
    if RealizesAll(left, [One(a), One(b)]) && RealizesAll(right, [One(c), One(d)]) {
      TwoParts(left, a, b);
      TwoParts(right, c, d);
      assert a in multiset([a, b]) && a !in multiset([c, d]);
    }
  }

  lemma EqualJoins(site: seq<Row>, users: seq<Row>)
    requires site != [] && users != [] && AllValid(site) && AllValid(users) && JoinAll(site) == JoinAll(users)
    ensures GroupReconciles(site, users)
  {
  }

  lemma TwoRows(a: int, b: int)
    requires a > 0 && b > 0
    ensures AllValid([One(a), One(b)]) && JoinAll([One(a), One(b)]) == Join(One(a), One(b))
  {
    assert [One(a), One(b)][1..] == [One(b)];
    JoinOfOne(One(b));
  }

  lemma TwoParts(parts: seq<seq<int>>, a: int, b: int)
    requires a > 0 && b > 0 && RealizesAll(parts, [One(a), One(b)])
    ensures Flatten(parts) == [a, b]
  {
    assert Realizes(parts[0], [One(a), One(b)][0]) && Realizes(parts[1], [One(a), One(b)][1]);
    OnlySample(parts[0], a);
    OnlySample(parts[1], b);
    assert parts[1..] == [[b]] && [[b]][1..] == [];
    assert Flatten([[b]]) == [b];
  }

  lemma PairsReconcile(a: int, b: int, c: int, d: int)
    requires a > 0 && b > 0 && c > 0 && d > 0 && Join(One(a), One(b)) == Join(One(c), One(d))
    ensures GroupReconciles([One(a), One(b)], [One(c), One(d)])
  {
    TwoRows(a, b);
    TwoRows(c, d);
    EqualJoins([One(a), One(b)], [One(c), One(d)]);
  }

  /** The group reconciles although no latencies are the traffic of both sides. */
  ghost predicate Misleads(site: seq<Row>, users: seq<Row>) {
    GroupReconciles(site, users) && !exists left, right :: SameTraffic(left, site, right, users)
  }

  lemma PairsMislead(a: int, b: int, c: int, d: int)
    requires a > 0 && b > 0 && c > 0 && d > 0 && a != c && a != d && Join(One(a), One(b)) == Join(One(c), One(d))
    ensures Misleads([One(a), One(b)], [One(c), One(d)])
  {
    PairsReconcile(a, b, c, d);
    forall left, right ensures !SameTraffic(left, [One(a), One(b)], right, [One(c), One(d)]) {
      OtherTraffic(left, a, b, right, c, d);
    }
  }

  lemma SameSums(a: int, b: int, c: int, d: int)
    requires a == 400 && b == 450 && c == 450 && d == 430
    ensures Join(One(a), One(b)) == Join(One(c), One(d))
  {
  }

  /** The one row per key is needed: two site rows can reconcile with users whose traffic is not
      theirs, here 400 and 450 ms against 450 and 430 ms. */
  lemma TwoSiteRowsMislead(site: seq<Row>, users: seq<Row>)
    requires site == [One(400), One(450)] && users == [One(450), One(430)]
    ensures Misleads(site, users)
  {
    SameSums(400, 450, 450, 430);
    PairsMislead(400, 450, 450, 430);
  }

  /** What a reconciled group may be used for: the joined row of either side is itself a row
      that real samples produce. */
  lemma ReconciledJoinIsRealizable(site: seq<Row>, users: seq<Row>)
    requires GroupReconciles(site, users)
    ensures JoinAll(site) == JoinAll(users)
    ensures exists samples :: Realizes(samples, JoinAll(site))
  {
    JoinAllKeepsValid(site);
    ValidIffRealizable(JoinAll(site));
  }

  lemma {:induction false} JoinAllKeepsValid(rows: seq<Row>)
    requires AllValid(rows)
    ensures !Invalid(JoinAll(rows))
  {
    if rows != [] {
      JoinAllKeepsValid(rows[1..]);
      JoinKeepsValid(rows[0], JoinAll(rows[1..]));
    }
  }
}
