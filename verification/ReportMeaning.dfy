/** What a report shows, said without its aggregates: which sums stand at every level, and exactly
    when revenue, upstream cost, corrected cost and profit are shown. */
module ReportMeaning {

  import opened Basics
  import opened Ledger
  import opened ReportFigures
  import opened ReportViews
  import opened ReportSums

  // The figures of a level.

  /** Every figure of the totals is a sum over the rows of its level; taken is what unowned refunds
      take from the revenue. */
  ghost predicate Adds(t: Totals, s: Scope, domains: seq<DomainInput>, taken: int) {
    && t.knownRevenue == SumOver(s, domains, Revenue) - taken
    && (t.revenue.Some? ==> t.revenue.value == SumOver(s, domains, Revenue) - taken)
    && t.knownUpstreamCost == SumOver(s, domains, UpstreamCost)
    && (t.upstreamCost.Some? ==> t.upstreamCost.value == SumOver(s, domains, UpstreamCost))
    && (t.knownCorrected.Some? ==> t.knownCorrected.value == SumOver(s, domains, ReportSums.Corrected))
    && (t.corrected.Some? ==> t.corrected.value == SumOver(s, domains, ReportSums.Corrected))
    && t.knownProfit == SumOver(s, domains, Profit)
    && (t.profit.Some? ==> t.profit.value == SumOver(s, domains, Profit))
    && t.pairedRevenue == SumOver(s, domains, PairedRevenue)
    && t.pairedCorrected == SumOver(s, domains, PairedCorrected)
    && t.localRequests == SumOver(s, domains, LocalRequests)
    && t.upstreamRequests == SumOver(s, domains, UpstreamRequests)
    && t.refundRecords == SumOver(s, domains, RefundedRecords)
    && t.chargeUnits == SumOver(s, domains, ChargeUnits)
    && t.rows == SumOver(s, domains, One) && t.pairedRows == SumOver(s, domains, PairedOne)
  }

  ghost predicate AggAdds(a: Agg, s: Scope, domains: seq<DomainInput>) {
    && a.revenue == SumOver(s, domains, Revenue) && a.upstreamCost == SumOver(s, domains, UpstreamCost)
    && a.knownCorrected == SumOver(s, domains, ReportSums.Corrected) && a.knownProfit == SumOver(s, domains, Profit)
    && a.pairedRevenue == SumOver(s, domains, PairedRevenue)
    && a.pairedCorrected == SumOver(s, domains, PairedCorrected)
    && a.localRequests == SumOver(s, domains, LocalRequests)
    && a.upstreamRequests == SumOver(s, domains, UpstreamRequests)
    && a.refundRecords == SumOver(s, domains, RefundedRecords) && a.chargeUnits == SumOver(s, domains, ChargeUnits)
    && a.rows == SumOver(s, domains, One) && a.pairedRows == SumOver(s, domains, PairedOne)
  }

  lemma ViewAdds(
      a: Agg, s: Scope, domains: seq<DomainInput>, taken: int, h: Hours, profitBlocked: bool, revenueBlocked: bool)
    requires AggAdds(a, s, domains)
    ensures Adds(View(a.(revenue := a.revenue - taken), h, profitBlocked, revenueBlocked), s, domains, taken)
  {
  }

  ghost predicate EqualSums(s: Scope, domains: seq<DomainInput>, rows: seq<Publication>) {
    forall f: Publication -> int :: SumOver(s, domains, f) == Sum(rows, f)
  }

  lemma FiguresAdd(rows: seq<Publication>, s: Scope, domains: seq<DomainInput>)
    requires Absorbed(START, rows).Ok? && EqualSums(s, domains, rows)
    ensures AggAdds(Figures(rows), s, domains)
  {
    AbsorbedAddsUp(rows);
  }

  lemma OneDomain(d: DomainInput, s: Scope, f: Publication -> int)
    ensures SumOver(s, [d], f) == SumHours(s, d.hours, f)
  {
    assert [d][..0] == [];
  }

  lemma HourSums(h: HourInput)
    ensures EqualSums(Whole, [DomainInput("", [h])], h.rows)
  {
    forall f: Publication -> int ensures SumOver(Whole, [DomainInput("", [h])], f) == Sum(h.rows, f) {
      OneDomain(DomainInput("", [h]), Whole, f);
      assert [h][..0] == [];
      SumInWhole(h, h.rows, f);
    }
  }

  lemma DomainSums(d: DomainInput)
    ensures EqualSums(Whole, [d], RowsOf(d.hours))
  {
    forall f: Publication -> int ensures SumOver(Whole, [d], f) == Sum(RowsOf(d.hours), f) {
      OneDomain(d, Whole, f);
      SumOfRows(d.hours, f);
    }
  }

  lemma ChannelSums(d: DomainInput, c: int)
    ensures EqualSums(Channel(c), [d], OfChannel(RowsOf(d.hours), c))
  {
    forall f: Publication -> int ensures SumOver(Channel(c), [d], f) == Sum(OfChannel(RowsOf(d.hours), c), f) {
      OneDomain(d, Channel(c), f);
      SumOfChannel(d.hours, c, f);
    }
  }

  lemma DaySums(domains: seq<DomainInput>, d: int, refunded: set<int>)
    requires IsDay(d)
    ensures EqualSums(Day(d, refunded), domains, VerifiedRows(OfDay(AllHours(domains), d), refunded))
  {
    forall f: Publication -> int
      ensures SumOver(Day(d, refunded), domains, f) == Sum(VerifiedRows(OfDay(AllHours(domains), d), refunded), f)
    {
      SumOfDay(AllHours(domains), d, refunded, f);
      SumOfAll(Day(d, refunded), domains, f);
    }
  }

  lemma MergedAdds(a: Agg, b: Agg, before: seq<DomainInput>, last: DomainInput)
    requires AggAdds(a, Whole, before) && AggAdds(b, Whole, [last])
    ensures AggAdds(Merged(a, b), Whole, before + [last])
  {
    assert (before + [last])[..|before|] == before;
    forall f: Publication -> int
      ensures SumOver(Whole, before + [last], f) == SumOver(Whole, before, f) + SumOver(Whole, [last], f)
    {
      OneDomain(last, Whole, f);
    }
  }

  predicate DomainsAbsorb(domains: seq<DomainInput>) {
    forall d :: d in domains ==> Absorbed(START, RowsOf(d.hours)).Ok?
  }

  lemma {:induction false} SiteAdds(domains: seq<DomainInput>, refunded: set<int>)
    requires DomainsAbsorb(domains)
    ensures AggAdds(SiteAgg(domains, refunded), Whole, domains)
    decreases |domains|
  {
    if domains != [] {
      var before, last := domains[..|domains| - 1], domains[|domains| - 1];
      assert domains == before + [last] && last in domains;
      SiteAdds(before, refunded);
      DomainSums(last);
      FiguresAdd(RowsOf(last.hours), Whole, [last]);
      MergedAdds(SiteAgg(before, refunded), DomainAgg(last.hours, refunded), before, last);
    }
  }

  // When figures are shown.

  /** What a level is judged by: its hours, the reasons its own rows give, whether hours are missing,
      whether every cost of it and some cost of it is known, and what refunds block. */
  datatype Grounds = Grounds(
    hours: set<HourInput>, reasons: set<Coverage>, missing: bool, allCosts: bool, someCost: bool,
    refunded: set<int>, revenueBlocked: bool, profitBlocked: bool)

  /** Some manifest, or some row of a channel's own, gives this reason. */
  ghost predicate Says(e: Grounds, m: ManifestCoverage) {
    || (exists h :: h in e.hours && Matches(h) && h.manifest.verdict.coverage == m)
    || (m.Child? && m.coverage in e.reasons)
  }

  ghost predicate AllRead(e: Grounds) { !e.missing && forall h :: h in e.hours ==> Matches(h) }

  ghost predicate RevenueShown(e: Grounds) {
    AllRead(e) && !e.revenueBlocked && !Says(e, Child(LocalFactUnverified)) && !Says(e, Child(LocalRevenueMissing))
  }

  ghost predicate UpstreamCostShown(e: Grounds) { AllRead(e) && !Says(e, Child(UpstreamCostMissing)) }

  ghost predicate CorrectedShown(e: Grounds) { AllRead(e) && !Says(e, FinanceVersionConflict) && e.allCosts }

  ghost predicate ProfitShown(e: Grounds) {
    !e.missing && !e.profitBlocked && forall h :: h in e.hours ==> Proven(h, e.refunded)
  }

  ghost predicate Shows(t: Totals, e: Grounds) {
    && (t.revenue.Some? <==> RevenueShown(e)) && (t.upstreamCost.Some? <==> UpstreamCostShown(e))
    && (t.corrected.Some? <==> CorrectedShown(e)) && (t.profit.Some? <==> ProfitShown(e))
    && (t.knownCorrected.Some? <==> CorrectedShown(e) || e.someCost)
    && (t.profit.Some? ==> Paired(t))
  }

  ghost predicate StatusesSay(statuses: set<Status>, e: Grounds) {
    && (ChildrenMismatch in statuses <==> exists h :: h in e.hours && !Matches(h))
    && forall m :: m != Child(RefundUnallocated) ==> (Of(m) in statuses <==> Says(e, m))
  }

  /** A view shows what its aggregate and its statuses allow. */
  lemma ViewShows(a: Agg, h: Hours, e: Grounds)
    requires StatusesSay(h.statuses, e) && (h.missing == 0 <==> !e.missing)
    requires (a.correctedKnown <==> e.allCosts) && (a.hasCorrected <==> e.someCost)
    requires var t := View(a, h, e.profitBlocked, e.revenueBlocked); Paired(t) && (t.profit.Some? <==> ProfitShown(e))
    ensures Shows(View(a, h, e.profitBlocked, e.revenueBlocked), e)
  {
  }

  // Statuses.

  lemma StatusesJoin(a: set<Status>, b: set<Status>, e: Grounds, d: Grounds, both: Grounds)
    requires StatusesSay(a, e) && StatusesSay(b, d)
    requires both.hours == e.hours + d.hours && both.reasons == e.reasons + d.reasons
    ensures StatusesSay(a + b, both)
  {
  }

  /** Only hours and reasons. */
  function Heard(hours: set<HourInput>, reasons: set<Coverage>): Grounds {
    Grounds(hours, reasons, false, false, false, {}, false, false)
  }

  lemma HeardSays(statuses: set<Status>, e: Grounds)
    requires StatusesSay(statuses, Heard(e.hours, e.reasons))
    ensures StatusesSay(statuses, e)
  {
    forall m ensures Says(e, m) <==> Says(Heard(e.hours, e.reasons), m) {}
  }

  lemma HourStatuses(h: HourInput, refunded: set<int>, withRefunds: bool)
    ensures StatusesSay(StatusesOf(h, refunded, withRefunds), Heard({h}, {}))
  {
    VerifiedIsProven(h, refunded);
  }

  function Elements(hours: seq<HourInput>): set<HourInput> { set h | h in hours }

  lemma ElementsStep(hours: seq<HourInput>)
    requires hours != []
    ensures Elements(hours) == Elements(hours[..|hours| - 1]) + {hours[|hours| - 1]}
  {
    assert hours == hours[..|hours| - 1] + [hours[|hours| - 1]];
  }

  lemma {:induction false} CountedStatuses(hours: seq<HourInput>, expected: int, refunded: set<int>, withRefunds: bool)
    ensures StatusesSay(Counted(hours, expected, refunded, withRefunds).statuses, Heard(Elements(hours), {}))
    decreases |hours|
  {
    if hours != [] {
      var before, last := hours[..|hours| - 1], hours[|hours| - 1];
      ElementsStep(hours);
      CountedStatuses(before, expected, refunded, withRefunds);
      HourStatuses(last, refunded, withRefunds);
      StatusesJoin(Counted(before, expected, refunded, withRefunds).statuses, StatusesOf(last, refunded, withRefunds),
          Heard(Elements(before), {}), Heard({last}, {}), Heard(Elements(hours), {}));
    }
  }

  lemma ClosedStatuses(h: Hours, e: Grounds)
    requires StatusesSay(h.statuses, e)
    ensures StatusesSay(Closed(h).statuses, e)
  {
  }

  /** The numbers of hours a level counts. */
  ghost function ProvenCount(hours: seq<HourInput>, refunded: set<int>): nat {
    if hours == [] then 0
    else
      ProvenCount(hours[..|hours| - 1], refunded) + if Proven(hours[|hours| - 1], refunded) then 1 else 0
  }

  ghost predicate HoursSay(h: Hours, expected: int, hours: int, proven: int, missing: int) {
    && h.expected == expected && h.published == hours && h.verified == proven && h.unknown == hours - proven
    && h.missing == missing
  }

  lemma {:induction false} CountedSays(hours: seq<HourInput>, expected: int, refunded: set<int>, withRefunds: bool)
    ensures HoursSay(Counted(hours, expected, refunded, withRefunds), expected, |hours|, ProvenCount(hours, refunded),
      0)
    decreases |hours|
  {
    if hours != [] {
      CountedSays(hours[..|hours| - 1], expected, refunded, withRefunds);
      VerifiedIsProven(hours[|hours| - 1], refunded);
    }
  }

  /** What is expected and was not published. */
  function Short(expected: int, published: int): int { if expected > published then expected - published else 0 }

  lemma DomainHoursSay(hours: seq<HourInput>, expected: int, refunded: set<int>)
    ensures HoursSay(DomainHours(hours, expected, refunded), expected, |hours|, ProvenCount(hours, refunded),
      Short(expected, |hours|))
    ensures StatusesSay(DomainHours(hours, expected, refunded).statuses, Heard(Elements(hours), {}))
  {
    CountedSays(hours, expected, refunded, false);
    CountedStatuses(hours, expected, refunded, false);
    ClosedStatuses(Counted(hours, expected, refunded, false), Heard(Elements(hours), {}));
  }

  lemma AllProvenIs(hours: seq<HourInput>, refunded: set<int>)
    ensures AllVerified(hours, refunded) <==> forall h :: h in hours ==> Proven(h, refunded)
    ensures AnyVerified(hours, refunded) <==> exists h :: h in hours && Proven(h, refunded)
  {
    forall h ensures HourVerified(h, refunded) <==> Proven(h, refunded) { VerifiedIsProven(h, refunded); }
  }

  // The levels.

  ghost predicate CostsKnown(hours: set<HourInput>) {
    forall h, p :: h in hours && p in h.rows ==> CostKnown(p)
  }

  ghost predicate CostSeen(hours: set<HourInput>) {
    exists h, p :: h in hours && p in h.rows && p.row.correctedKnown
  }

  ghost predicate SomeProven(hours: set<HourInput>, refunded: set<int>) {
    exists h :: h in hours && Proven(h, refunded)
  }

  ghost function HourGrounds(h: HourInput, refunded: set<int>): Grounds {
    Grounds({h}, {}, false, CostsKnown({h}), SomeProven({h}, refunded) || CostSeen({h}), refunded,
        h.hour in refunded, h.hour in refunded)
  }

  ghost function DomainGrounds(hours: seq<HourInput>, expected: int, refunded: set<int>): Grounds {
    var all := Elements(hours);
    Grounds(all, {}, |hours| < expected, CostsKnown(all), SomeProven(all, refunded) || CostSeen(all), refunded,
        refunded != {}, refunded != {})
  }

  /** The rows of a channel. */
  ghost function ChannelRows(hours: seq<HourInput>, c: int): set<Publication> {
    set h, p | h in hours && p in h.rows && p.key.channel == c :: p
  }

  ghost function ChannelGrounds(hours: seq<HourInput>, expected: int, refunded: set<int>, c: int): Grounds {
    var own := ChannelRows(hours, c);
    Grounds(Elements(hours), set p | p in own :: p.row.coverage, |hours| < expected,
        forall p :: p in own ==> CostKnown(p), exists p :: p in own && p.row.correctedKnown, refunded,
        refunded != {}, refunded != {})
  }

  lemma {:induction false} RowsOfHave(hours: seq<HourInput>, p: Publication)
    ensures p in RowsOf(hours) <==> exists h :: h in hours && p in h.rows
    decreases |hours|
  {
    if hours != [] {
      assert hours == hours[..|hours| - 1] + [hours[|hours| - 1]];
      RowsOfHave(hours[..|hours| - 1], p);
    }
  }

  lemma {:induction false} OfChannelHas(rows: seq<Publication>, c: int, p: Publication)
    ensures p in OfChannel(rows, c) <==> p in rows && p.key.channel == c
    decreases |rows|
  {
    if rows != [] {
      assert rows == rows[..|rows| - 1] + [rows[|rows| - 1]];
      OfChannelHas(rows[..|rows| - 1], c, p);
    }
  }

  ghost predicate LevelMeans(t: Totals, s: Scope, domains: seq<DomainInput>, taken: int, e: Grounds) {
    Adds(t, s, domains, taken) && Shows(t, e)
  }

  lemma HourFlags(h: HourInput, refunded: set<int>)
    requires Absorbed(START, h.rows).Ok?
    ensures var a, e := Marked(Figures(h.rows), HourVerified(h, refunded)), HourGrounds(h, refunded);
      (a.correctedKnown <==> e.allCosts) && (a.hasCorrected <==> e.someCost)
  {
    AbsorbedFlags(h.rows);
    VerifiedIsProven(h, refunded);
  }

  lemma HourAdds(h: HourInput, refunded: set<int>)
    requires Absorbed(START, h.rows).Ok?
    ensures Adds(HourTotals(h, refunded), Whole, [DomainInput("", [h])], 0)
  {
    var a, hours := Marked(Figures(h.rows), HourVerified(h, refunded)),
      CountedHour(Hours(1, 0, 0, 0, 0, {}), h, refunded, true);
    HourSums(h);
    FiguresAdd(h.rows, Whole, [DomainInput("", [h])]);
    ViewAdds(a, Whole, [DomainInput("", [h])], 0, hours, h.hour in refunded, h.hour in refunded);
  }

  lemma HourCounted(h: HourInput, refunded: set<int>)
    ensures var hours := CountedHour(Hours(1, 0, 0, 0, 0, {}), h, refunded, true);
      hours.missing == 0 && StatusesSay(hours.statuses, HourGrounds(h, refunded))
  {
    HourStatuses(h, refunded, true);
    assert {} + StatusesOf(h, refunded, true) == StatusesOf(h, refunded, true);
    HeardSays(StatusesOf(h, refunded, true), HourGrounds(h, refunded));
  }

  lemma OneHourProven(h: HourInput, e: Grounds)
    requires e.hours == {h} && !e.missing && (e.profitBlocked <==> h.hour in e.refunded)
    ensures ProfitShown(e) <==> HourVerified(h, e.refunded)
  {
    VerifiedIsProven(h, e.refunded);
    if Proven(h, e.refunded) {
      forall g | g in e.hours ensures Proven(g, e.refunded) {}
    }
    assert h in e.hours;
  }

  lemma HourShows(a: Agg, hours: Hours, h: HourInput, refunded: set<int>)
    requires RowsOk(h.rows) && Absorbed(START, h.rows).Ok?
    requires a == Marked(Figures(h.rows), HourVerified(h, refunded))
    requires hours == CountedHour(Hours(1, 0, 0, 0, 0, {}), h, refunded, true)
    ensures Shows(View(a, hours, h.hour in refunded, h.hour in refunded), HourGrounds(h, refunded))
  {
    HourFlags(h, refunded);
    HourProfitIff(h, refunded);
    OneHourProven(h, HourGrounds(h, refunded));
    HourCounted(h, refunded);
    ViewShows(a, hours, HourGrounds(h, refunded));
  }

  lemma HourMeans(h: HourInput, refunded: set<int>)
    requires RowsOk(h.rows) && Absorbed(START, h.rows).Ok?
    ensures LevelMeans(HourTotals(h, refunded), Whole, [DomainInput("", [h])], 0, HourGrounds(h, refunded))
  {
    HourAdds(h, refunded);
    HourShows(Marked(Figures(h.rows), HourVerified(h, refunded)),
        CountedHour(Hours(1, 0, 0, 0, 0, {}), h, refunded, true), h, refunded);
  }

  lemma DomainFlags(hours: seq<HourInput>, refunded: set<int>)
    requires Absorbed(START, RowsOf(hours)).Ok?
    ensures var a, e := DomainAgg(hours, refunded), DomainGrounds(hours, 0, refunded);
      (a.correctedKnown <==> e.allCosts) && (a.hasCorrected <==> e.someCost)
  {
    AbsorbedFlags(RowsOf(hours));
    AllProvenIs(hours, refunded);
    forall p ensures p in RowsOf(hours) <==> exists h :: h in hours && p in h.rows { RowsOfHave(hours, p); }
  }

  lemma DomainMeans(d: DomainInput, expected: int, refunded: set<int>)
    requires HoursOk(d.hours) && Absorbed(START, RowsOf(d.hours)).Ok?
    ensures LevelMeans(DomainTotals(d.hours, expected, refunded), Whole, [d], 0,
      DomainGrounds(d.hours, expected, refunded))
  {
    var a, hours, e := DomainAgg(d.hours, refunded), DomainHours(d.hours, expected, refunded),
      DomainGrounds(d.hours, expected, refunded);
    DomainSums(d);
    FiguresAdd(RowsOf(d.hours), Whole, [d]);
    ViewAdds(a, Whole, [d], 0, hours, refunded != {}, refunded != {});
    DomainFlags(d.hours, refunded);
    AllProvenIs(d.hours, refunded);
    DomainProfitIff(d.hours, expected, refunded);
    DomainHoursSay(d.hours, expected, refunded);
    HeardSays(hours.statuses, e);
    DomainProfitMeans(d.hours, expected, refunded);
    ViewShows(a, hours, e);
  }

  lemma DomainProfitMeans(hours: seq<HourInput>, expected: int, refunded: set<int>)
    ensures Complete(hours, expected, refunded) <==> ProfitShown(DomainGrounds(hours, expected, refunded))
    ensures forall c ::
      Complete(hours, expected, refunded) <==> ProfitShown(ChannelGrounds(hours, expected, refunded, c))
  {
    AllProvenIs(hours, refunded);
  }

  lemma ChannelFlags(hours: seq<HourInput>, refunded: set<int>, c: int)
    requires Absorbed(START, OfChannel(RowsOf(hours), c)).Ok?
    ensures var a, e := Figures(OfChannel(RowsOf(hours), c)), ChannelGrounds(hours, 0, refunded, c);
      && (a.correctedKnown <==> e.allCosts) && (a.hasCorrected <==> e.someCost)
      && (forall k :: Of(Child(k)) in RowStatuses(OfChannel(RowsOf(hours), c)) <==> k in e.reasons)
  {
    var rows := OfChannel(RowsOf(hours), c);
    AbsorbedFlags(rows);
    forall p ensures p in rows <==> p in ChannelRows(hours, c) {
      OfChannelHas(RowsOf(hours), c, p);
      RowsOfHave(hours, p);
    }
  }

  lemma OwnStatuses(rows: seq<Publication>, reasons: set<Coverage>)
    requires forall k :: Of(Child(k)) in RowStatuses(rows) <==> k in reasons
    ensures StatusesSay(RowStatuses(rows), Heard({}, reasons))
  {
  }

  lemma ChannelMeans(d: DomainInput, expected: int, refunded: set<int>, c: int)
    requires HoursOk(d.hours) && Absorbed(START, OfChannel(RowsOf(d.hours), c)).Ok?
    ensures LevelMeans(ChannelTotals(d.hours, expected, refunded, c), Channel(c), [d], 0,
      ChannelGrounds(d.hours, expected, refunded, c))
  {
    var rows, whole, e := OfChannel(RowsOf(d.hours), c), DomainHours(d.hours, expected, refunded),
      ChannelGrounds(d.hours, expected, refunded, c);
    var hours := whole.(statuses := RowStatuses(rows) + whole.statuses);
    ChannelSums(d, c);
    FiguresAdd(rows, Channel(c), [d]);
    ViewAdds(Figures(rows), Channel(c), [d], 0, hours, refunded != {}, refunded != {});
    ChannelFlags(d.hours, refunded, c);
    ChannelProfitIff(d.hours, expected, refunded, c);
    DomainProfitMeans(d.hours, expected, refunded);
    DomainHoursSay(d.hours, expected, refunded);
    OwnStatuses(rows, e.reasons);
    StatusesJoin(RowStatuses(rows), whole.statuses, Heard({}, e.reasons), Heard(e.hours, {}),
        Heard(e.hours, e.reasons));
    HeardSays(hours.statuses, e);
    ViewShows(Figures(rows), hours, e);
  }

  // Days.

  /** The k-th hour of the range falls on the day. */
  predicate DayHour(q: Query, d: int, k: int) {
    0 <= k < q.to - q.from && q.from + 3600 * k < q.to && d <= q.from + 3600 * k < d + 86_400
  }

  /** The hours that the day should have: every hour of the range on that day, for every domain. */
  function DayDue(q: Query, d: int): int { |set k | 0 <= k < q.to - q.from && DayHour(q, d, k)| * q.domains }

  /** A refund without an owner falls on an hour of the day, counted from the first one in the range. */
  ghost predicate DayBlocked(q: Query, d: int) {
    exists k: nat :: Max(q.from, d) + 3600 * k in q.refunded && Max(q.from, d) + 3600 * k < Min(q.to, d + 86_400)
  }

  function HoursWithin(domains: seq<DomainInput>, d: int): set<HourInput> {
    set x, h | x in domains && h in x.hours && d <= h.hour < d + 86_400 :: h
  }

  ghost function CountWithin(hours: seq<HourInput>, d: int): nat {
    if hours == [] then 0
    else
      CountWithin(hours[..|hours| - 1], d) + if d <= hours[|hours| - 1].hour < d + 86_400 then 1 else 0
  }

  ghost function DayRead(domains: seq<DomainInput>, d: int): nat {
    if domains == [] then 0
    else DayRead(domains[..|domains| - 1], d) + CountWithin(domains[|domains| - 1].hours, d)
  }

  ghost function DayGrounds(q: Query, domains: seq<DomainInput>, d: int): Grounds {
    var hours := HoursWithin(domains, d);
    Grounds(hours, {}, DayRead(domains, d) < DayDue(q, d), forall h :: h in hours ==> Proven(h, q.refunded),
        SomeProven(hours, q.refunded), q.refunded, DayBlocked(q, d), DayBlocked(q, d))
  }

  lemma {:induction false} AllHoursHave(domains: seq<DomainInput>, h: HourInput)
    ensures h in AllHours(domains) <==> exists x :: x in domains && h in x.hours
    decreases |domains|
  {
    if domains != [] {
      assert domains == domains[..|domains| - 1] + [domains[|domains| - 1]];
      AllHoursHave(domains[..|domains| - 1], h);
    }
  }

  lemma {:induction false} OfDayHas(hours: seq<HourInput>, d: int, h: HourInput)
    requires IsDay(d)
    ensures h in OfDay(hours, d) <==> h in hours && d <= h.hour < d + 86_400
    decreases |hours|
  {
    if hours != [] {
      var last := hours[|hours| - 1];
      assert hours == hours[..|hours| - 1] + [last];
      OfDayHas(hours[..|hours| - 1], d, h);
      DayIsCalendar(last.hour);
      if DayStart(last.hour) == d { assert OfDay(hours, d) == OfDay(hours[..|hours| - 1], d) + [last]; }
      else { assert OfDay(hours, d) == OfDay(hours[..|hours| - 1], d); }
    }
  }

  lemma DayElements(domains: seq<DomainInput>, d: int)
    requires IsDay(d)
    ensures Elements(OfDay(AllHours(domains), d)) == HoursWithin(domains, d)
  {
    forall h ensures h in OfDay(AllHours(domains), d) <==> h in HoursWithin(domains, d) {
      OfDayHas(AllHours(domains), d, h);
      AllHoursHave(domains, h);
    }
  }

  lemma {:induction false} OfDayCount(hours: seq<HourInput>, d: int)
    requires IsDay(d)
    ensures |OfDay(hours, d)| == CountWithin(hours, d)
    decreases |hours|
  {
    if hours != [] {
      OfDayCount(hours[..|hours| - 1], d);
      DayIsCalendar(hours[|hours| - 1].hour);
    }
  }

  lemma {:induction false} CountAppend(a: seq<HourInput>, b: seq<HourInput>, d: int)
    ensures CountWithin(a + b, d) == CountWithin(a, d) + CountWithin(b, d)
    decreases |b|
  {
    if b == [] {
      assert a + b == a;
    } else {
      assert (a + b)[..|a| + |b| - 1] == a + b[..|b| - 1];
      CountAppend(a, b[..|b| - 1], d);
    }
  }

  lemma {:induction false} DayReadIs(domains: seq<DomainInput>, d: int)
    ensures CountWithin(AllHours(domains), d) == DayRead(domains, d)
    decreases |domains|
  {
    if domains != [] {
      DayReadIs(domains[..|domains| - 1], d);
      CountAppend(AllHours(domains[..|domains| - 1]), domains[|domains| - 1].hours, d);
    }
  }

  function FirstHours(from: int, n: nat, d: int): set<int> {
    set k | 0 <= k < n && d <= from + 3600 * k < d + 86_400
  }

  lemma {:induction false} HoursOnIs(from: int, n: nat, d: int)
    requires IsDay(d)
    ensures HoursOn(from, n, d) == |FirstHours(from, n, d)|
    decreases n
  {
    if n > 0 {
      HoursOnIs(from, n - 1, d);
      DayIsCalendar(from + 3600 * (n - 1));
      var own := if DayStart(from + 3600 * (n - 1)) == d then {n - 1} else {};
      assert FirstHours(from, n, d) == FirstHours(from, n - 1, d) + own;
    }
  }

  lemma DueIs(q: Query, d: int)
    requires IsDay(d)
    ensures DayExpected(q, d) == DayDue(q, d)
  {
    var n := HoursIn(q.from, q.to);
    HoursOnIs(q.from, n, d);
    assert (set k | 0 <= k < q.to - q.from && DayHour(q, d, k)) == FirstHours(q.from, n, d);
  }

  lemma BlockedIs(q: Query, d: int)
    ensures DayRefunded(q.refunded, q.from, q.to, d) <==> DayBlocked(q, d)
  {
    var first := Max(q.from, d);
    if DayRefunded(q.refunded, q.from, q.to, d) {
      var h :| h in q.refunded && q.from <= h < q.to && d <= h < d + DAY
        && (h - (if q.from > d then q.from else d)) % 3600 == 0;
      var k := (h - first) / 3600;
      assert h == first + 3600 * k && k >= 0;
    }
    if DayBlocked(q, d) {
      var k: nat :| first + 3600 * k in q.refunded && first + 3600 * k < Min(q.to, d + 86_400);
      assert (first + 3600 * k - first) % 3600 == 0;
    }
  }

  /** The days a report has: those on which an hour of the range falls. */
  lemma ReportDaysAre(q: Query, d: int)
    ensures d in ReportDays(q) <==> q.finance && IsDay(d) && exists k :: DayHour(q, d, k)
  {
    var n := HoursIn(q.from, q.to);
    if d in ReportDays(q) {
      var k :| 0 <= k < n && DayStart(q.from + 3600 * k) == d;
      DayIsCalendar(q.from + 3600 * k);
      assert DayHour(q, d, k);
    }
    if q.finance && IsDay(d) && exists k :: DayHour(q, d, k) {
      var k :| DayHour(q, d, k);
      DayIsCalendar(q.from + 3600 * k);
      assert 0 <= k < n;
    }
  }

  lemma DayStatuses(q: Query, domains: seq<DomainInput>, d: int)
    requires IsDay(d)
    ensures var h := Closed(DayCounted(q, AllHours(domains), d));
      && HoursSay(h, DayDue(q, d), DayRead(domains, d), ProvenCount(OfDay(AllHours(domains), d), q.refunded),
          Short(DayDue(q, d), DayRead(domains, d)))
      && StatusesSay(h.statuses, Heard(HoursWithin(domains, d), {}))
  {
    var hours := OfDay(AllHours(domains), d);
    CountedSays(hours, DayExpected(q, d), q.refunded, true);
    CountedStatuses(hours, DayExpected(q, d), q.refunded, true);
    DayElements(domains, d);
    OfDayCount(AllHours(domains), d);
    DayReadIs(domains, d);
    DueIs(q, d);
    ClosedStatuses(DayCounted(q, AllHours(domains), d), Heard(HoursWithin(domains, d), {}));
  }

  lemma DayFlags(q: Query, domains: seq<DomainInput>, d: int)
    requires IsDay(d)
    ensures var a, e := DayAgg(OfDay(AllHours(domains), d), q.refunded), DayGrounds(q, domains, d);
      && (a.correctedKnown <==> e.allCosts) && (a.hasCorrected <==> e.someCost)
      && (AllVerified(OfDay(AllHours(domains), d), q.refunded) <==> e.allCosts)
  {
    DayElements(domains, d);
    AllProvenIs(OfDay(AllHours(domains), d), q.refunded);
  }

  lemma DayProfitMeans(q: Query, domains: seq<DomainInput>, d: int)
    requires IsDay(d)
    ensures DayComplete(q, AllHours(domains), d) <==> ProfitShown(DayGrounds(q, domains, d))
  {
    DayFlags(q, domains, d);
    OfDayCount(AllHours(domains), d);
    DayReadIs(domains, d);
    DueIs(q, d);
    BlockedIs(q, d);
  }

  lemma DayAdds(q: Query, domains: seq<DomainInput>, d: int)
    requires IsDay(d) && Absorbed(START, VerifiedRows(OfDay(AllHours(domains), d), q.refunded)).Ok?
    ensures Adds(DayTotals(q, AllHours(domains), d), Day(d, q.refunded), domains, 0)
  {
    var hours := AllHours(domains);
    var rows, blocked := VerifiedRows(OfDay(hours, d), q.refunded), DayRefunded(q.refunded, q.from, q.to, d);
    DaySums(domains, d, q.refunded);
    FiguresAdd(rows, Day(d, q.refunded), domains);
    ViewAdds(DayAgg(OfDay(hours, d), q.refunded), Day(d, q.refunded), domains, 0, Closed(DayCounted(q, hours, d)),
        blocked, blocked);
  }

  lemma DayMeans(q: Query, domains: seq<DomainInput>, d: int)
    requires InputOk(domains) && IsDay(d)
    requires Absorbed(START, VerifiedRows(OfDay(AllHours(domains), d), q.refunded)).Ok?
    ensures LevelMeans(DayTotals(q, AllHours(domains), d), Day(d, q.refunded), domains, 0, DayGrounds(q, domains, d))
  {
    var hours, e := AllHours(domains), DayGrounds(q, domains, d);
    DayAdds(q, domains, d);
    DayFlags(q, domains, d);
    DayProfitMeans(q, domains, d);
    AllHoursOk(domains);
    DayProfitIff(q, hours, d);
    DayStatuses(q, domains, d);
    BlockedIs(q, d);
    HeardSays(Closed(DayCounted(q, hours, d)).statuses, e);
    ViewShows(DayAgg(OfDay(hours, d), q.refunded), Closed(DayCounted(q, hours, d)), e);
  }

  // The site.

  function SiteRead(domains: seq<DomainInput>): set<HourInput> { set x, h | x in domains && h in x.hours :: h }

  ghost function SiteGrounds(q: Query, domains: seq<DomainInput>): Grounds {
    var hours := SiteRead(domains);
    Grounds(hours, {}, exists x :: x in domains && |x.hours| < (q.to - q.from) / 3600, CostsKnown(hours),
        SomeProven(hours, q.refunded) || CostSeen(hours), q.refunded, q.refunded != {} && q.filtered, q.refunded != {})
  }

  /** Published, proven and missing hours of all domains. */
  ghost function HoursOfSite(domains: seq<DomainInput>): nat {
    if domains == [] then 0 else HoursOfSite(domains[..|domains| - 1]) + |domains[|domains| - 1].hours|
  }

  ghost function ProvenOfSite(domains: seq<DomainInput>, refunded: set<int>): nat {
    if domains == [] then 0
    else ProvenOfSite(domains[..|domains| - 1], refunded) + ProvenCount(domains[|domains| - 1].hours, refunded)
  }

  ghost function ShortOfSite(domains: seq<DomainInput>, due: int): nat {
    if domains == [] then 0
    else ShortOfSite(domains[..|domains| - 1], due) + Short(due, |domains[|domains| - 1].hours|)
  }

  lemma SiteReadStep(before: seq<DomainInput>, last: DomainInput)
    ensures SiteRead(before + [last]) == SiteRead(before) + Elements(last.hours)
  {
    assert last in before + [last] && forall x :: x in before ==> x in before + [last];
  }

  lemma {:induction false} SiteStatuses(domains: seq<DomainInput>, all: nat, due: int, refunded: set<int>)
    ensures StatusesSay(SiteHours(domains, all, due, refunded).statuses, Heard(SiteRead(domains), {}))
    decreases |domains|
  {
    if domains != [] {
      var before, last := domains[..|domains| - 1], domains[|domains| - 1];
      assert domains == before + [last];
      SiteStatuses(before, all, due, refunded);
      DomainHoursSay(last.hours, due, refunded);
      SiteReadStep(before, last);
      StatusesJoin(SiteHours(before, all, due, refunded).statuses, DomainHours(last.hours, due, refunded).statuses,
          Heard(SiteRead(before), {}), Heard(Elements(last.hours), {}), Heard(SiteRead(domains), {}));
    }
  }

  lemma {:induction false} SiteHoursSay(domains: seq<DomainInput>, all: nat, due: int, refunded: set<int>)
    ensures HoursSay(SiteHours(domains, all, due, refunded), due * all, HoursOfSite(domains),
      ProvenOfSite(domains, refunded), ShortOfSite(domains, due))
    decreases |domains|
  {
    if domains != [] {
      SiteHoursSay(domains[..|domains| - 1], all, due, refunded);
      DomainHoursSay(domains[|domains| - 1].hours, due, refunded);
    }
  }

  lemma {:induction false} NoneShort(domains: seq<DomainInput>, due: int)
    ensures ShortOfSite(domains, due) == 0 <==> forall x :: x in domains ==> |x.hours| >= due
    decreases |domains|
  {
    if domains != [] {
      assert domains == domains[..|domains| - 1] + [domains[|domains| - 1]];
      NoneShort(domains[..|domains| - 1], due);
    }
  }

  ghost predicate SiteFlagsSay(a: Agg, hours: set<HourInput>, refunded: set<int>) {
    (a.correctedKnown <==> CostsKnown(hours)) && (a.hasCorrected <==> SomeProven(hours, refunded) || CostSeen(hours))
  }

  lemma SiteFlagsStep(a: Agg, b: Agg, hours: set<HourInput>, more: set<HourInput>, refunded: set<int>)
    requires SiteFlagsSay(a, hours, refunded) && SiteFlagsSay(b, more, refunded)
    ensures SiteFlagsSay(Merged(a, b), hours + more, refunded)
  {
    assert CostsKnown(hours + more) <==> CostsKnown(hours) && CostsKnown(more);
    assert SomeProven(hours + more, refunded) <==> SomeProven(hours, refunded) || SomeProven(more, refunded);
    assert CostSeen(hours + more) <==> CostSeen(hours) || CostSeen(more);
  }

  lemma {:induction false} SiteFlags(domains: seq<DomainInput>, refunded: set<int>)
    requires DomainsAbsorb(domains)
    ensures SiteFlagsSay(SiteAgg(domains, refunded), SiteRead(domains), refunded)
    decreases |domains|
  {
    if domains != [] {
      var before, last := domains[..|domains| - 1], domains[|domains| - 1];
      assert domains == before + [last] && last in domains;
      SiteFlags(before, refunded);
      DomainFlags(last.hours, refunded);
      SiteReadStep(before, last);
      SiteFlagsStep(SiteAgg(before, refunded), DomainAgg(last.hours, refunded), SiteRead(before), Elements(last.hours),
          refunded);
    }
  }

  lemma SiteProfitMeans(q: Query, domains: seq<DomainInput>)
    ensures q.refunded == {} && AllComplete(domains, Expected(q), q.refunded) <==> ProfitShown(SiteGrounds(q, domains))
  {
    forall x | x in domains
      ensures Complete(x.hours, Expected(q), q.refunded) <==>
        |x.hours| >= Expected(q) && q.refunded == {} && forall h :: h in x.hours ==> Proven(h, q.refunded)
    {
      AllProvenIs(x.hours, q.refunded);
    }
  }

  lemma SiteMeans(q: Query, domains: seq<DomainInput>, taken: int)
    requires InputOk(domains) && DomainsAbsorb(domains) && (q.refunded == {} ==> taken == 0)
    ensures LevelMeans(SiteTotals(q, domains, taken), Whole, domains, taken, SiteGrounds(q, domains))
  {
    var a, h, e := SiteAgg(domains, q.refunded), SiteHours(domains, |domains|, Expected(q), q.refunded),
      SiteGrounds(q, domains);
    SiteAdds(domains, q.refunded);
    ViewAdds(a, Whole, domains, taken, h, e.profitBlocked, e.revenueBlocked);
    SiteFlags(domains, q.refunded);
    SiteHoursSay(domains, |domains|, Expected(q), q.refunded);
    SiteStatuses(domains, |domains|, Expected(q), q.refunded);
    NoneShort(domains, Expected(q));
    HeardSays(h.statuses, e);
    SiteProfitMeans(q, domains);
    SiteProfitIff(q, domains, taken);
    ViewShows(a.(revenue := a.revenue - taken), h, e);
  }

  // The whole report.

  ghost predicate ChannelsSay(views: map<int, Totals>, x: DomainInput, due: int, refunded: set<int>) {
    && views.Keys == (set h, p | h in x.hours && p in h.rows :: p.key.channel)
    && forall c :: c in views ==>
          LevelMeans(views[c], Channel(c), [x], 0, ChannelGrounds(x.hours, due, refunded, c))
  }

  ghost predicate HourliesSay(views: seq<Totals>, hours: seq<HourInput>, refunded: set<int>) {
    && |views| == |hours|
    && forall i :: 0 <= i < |hours| ==>
          LevelMeans(views[i], Whole, [DomainInput("", [hours[i]])], 0, HourGrounds(hours[i], refunded))
  }

  ghost predicate DomainSays(view: DomainView, x: DomainInput, due: int, refunded: set<int>, filtered: bool) {
    && LevelMeans(view.totals, Whole, [x], 0, DomainGrounds(x.hours, due, refunded))
    && HoursSay(view.hours, due, |x.hours|, ProvenCount(x.hours, refunded), Short(due, |x.hours|))
    && StatusesSay(view.hours.statuses, Heard(Elements(x.hours), {}))
    && ChannelsSay(view.channels, x, due, refunded)
    && if filtered then HourliesSay(view.hourly, x.hours, refunded) else view.hourly == []
  }

  ghost predicate DomainsSay(views: seq<DomainView>, q: Query, domains: seq<DomainInput>) {
    && |views| == |domains|
    && forall i :: 0 <= i < |domains| ==>
          DomainSays(views[i], domains[i], (q.to - q.from) / 3600, q.refunded, q.filtered)
  }

  ghost predicate DaysSay(days: map<int, Totals>, q: Query, domains: seq<DomainInput>) {
    && (forall d :: d in days <==> q.finance && IsDay(d) && exists k :: DayHour(q, d, k))
    && forall d :: d in days ==> LevelMeans(days[d], Day(d, q.refunded), domains, 0, DayGrounds(q, domains, d))
  }

  ghost predicate SiteSays(site: Totals, h: Hours, q: Query, domains: seq<DomainInput>, taken: int) {
    var due := (q.to - q.from) / 3600;
    && LevelMeans(site, Whole, domains, taken, SiteGrounds(q, domains))
    && HoursSay(h, due * |domains|, HoursOfSite(domains), ProvenOfSite(domains, q.refunded), ShortOfSite(domains, due))
    && StatusesSay(h.statuses, Heard(SiteRead(domains), {}))
  }

  /** A report read off its input: at every level the sums of that level's rows, shown exactly when
      the level's hours, manifests and rows allow. */
  ghost predicate ReportSays(r: ReportView, q: Query, domains: seq<DomainInput>, taken: int) {
    DomainsSay(r.domains, q, domains) && DaysSay(r.days, q, domains)
        && SiteSays(r.site, r.siteHours, q, domains, taken)
  }

  predicate DomainAbsorbs(x: DomainInput, channels: set<int>) {
    && Absorbed(START, RowsOf(x.hours)).Ok?
    && (forall c :: c in channels ==> Absorbed(START, OfChannel(RowsOf(x.hours), c)).Ok?)
    && forall h :: h in x.hours ==> Absorbed(START, h.rows).Ok?
  }

  lemma ChannelsAre(hours: seq<HourInput>)
    ensures ChannelsIn(RowsOf(hours)) == set h, p | h in hours && p in h.rows :: p.key.channel
  {
    forall p ensures p in RowsOf(hours) <==> exists h :: h in hours && p in h.rows { RowsOfHave(hours, p); }
  }

  lemma ChannelViewsSay(x: DomainInput, due: int, refunded: set<int>, views: map<int, Totals>)
    requires HoursOk(x.hours) && DomainAbsorbs(x, ChannelsIn(RowsOf(x.hours)))
    requires views == map c | c in ChannelsIn(RowsOf(x.hours)) :: ChannelTotals(x.hours, due, refunded, c)
    ensures ChannelsSay(views, x, due, refunded)
  {
    ChannelsAre(x.hours);
    forall c | c in views
      ensures LevelMeans(views[c], Channel(c), [x], 0, ChannelGrounds(x.hours, due, refunded, c))
    {
      ChannelViewSays(x, due, refunded, c, views[c]);
    }
  }

  lemma ChannelViewSays(x: DomainInput, due: int, refunded: set<int>, c: int, view: Totals)
    requires HoursOk(x.hours) && Absorbed(START, OfChannel(RowsOf(x.hours), c)).Ok?
    requires view == ChannelTotals(x.hours, due, refunded, c)
    ensures LevelMeans(view, Channel(c), [x], 0, ChannelGrounds(x.hours, due, refunded, c))
  {
    ChannelMeans(x, due, refunded, c);
  }

  lemma HourViewsSay(hours: seq<HourInput>, refunded: set<int>)
    requires HoursOk(hours) && forall h :: h in hours ==> Absorbed(START, h.rows).Ok?
    ensures HourliesSay(HourViews(hours, refunded), hours, refunded)
  {
    forall i | 0 <= i < |hours|
      ensures LevelMeans(HourViews(hours, refunded)[i], Whole, [DomainInput("", [hours[i]])], 0,
        HourGrounds(hours[i], refunded))
    {
      assert hours[i] in hours;
      HourMeans(hours[i], refunded);
    }
  }

  lemma DomainViewSays(x: DomainInput, due: int, refunded: set<int>, filtered: bool)
    requires HoursOk(x.hours) && DomainAbsorbs(x, ChannelsIn(RowsOf(x.hours)))
    ensures DomainSays(DomainViewOf(x.hours, due, refunded, filtered), x, due, refunded, filtered)
  {
    DomainMeans(x, due, refunded);
    DomainHoursSay(x.hours, due, refunded);
    ChannelViewsSay(x, due, refunded, DomainViewOf(x.hours, due, refunded, filtered).channels);
    HourViewsSay(x.hours, refunded);
  }

  ghost predicate Absorbs(q: Query, domains: seq<DomainInput>) {
    && DomainsAbsorb(domains)
    && (forall x :: x in domains ==> DomainAbsorbs(x, ChannelsIn(RowsOf(x.hours))))
    && forall d :: d in ReportDays(q) ==> Absorbed(START, VerifiedRows(OfDay(AllHours(domains), d), q.refunded)).Ok?
  }

  lemma DomainViewsSay(q: Query, domains: seq<DomainInput>)
    requires InputOk(domains) && Absorbs(q, domains)
    ensures DomainsSay(DomainViews(q, domains), q, domains)
  {
    forall i | 0 <= i < |domains|
      ensures DomainSays(DomainViews(q, domains)[i], domains[i], (q.to - q.from) / 3600, q.refunded, q.filtered)
    {
      assert domains[i] in domains;
      DomainViewSays(domains[i], Expected(q), q.refunded, q.filtered);
    }
  }

  lemma DayViewsSay(q: Query, domains: seq<DomainInput>, days: map<int, Totals>)
    requires InputOk(domains) && Absorbs(q, domains)
    requires days == map d | d in ReportDays(q) :: DayTotals(q, AllHours(domains), d)
    ensures DaysSay(days, q, domains)
  {
    forall d ensures d in days <==> q.finance && IsDay(d) && exists k :: DayHour(q, d, k) { ReportDaysAre(q, d); }
    forall d | d in days
      ensures LevelMeans(days[d], Day(d, q.refunded), domains, 0, DayGrounds(q, domains, d))
    {
      DayMeans(q, domains, d);
    }
  }

  lemma SiteViewSays(q: Query, domains: seq<DomainInput>, taken: int)
    requires InputOk(domains) && DomainsAbsorb(domains) && (q.refunded == {} ==> taken == 0)
    ensures SiteSays(SiteTotals(q, domains, taken), SiteHours(domains, |domains|, Expected(q), q.refunded), q, domains,
      taken)
  {
    SiteMeans(q, domains, taken);
    SiteHoursSay(domains, |domains|, Expected(q), q.refunded);
    SiteStatuses(domains, |domains|, Expected(q), q.refunded);
  }

  /** The specified report says what the input says. */
  lemma ReportOfSays(q: Query, domains: seq<DomainInput>, taken: int)
    requires InputOk(domains) && Absorbs(q, domains) && (q.refunded == {} ==> taken == 0)
    ensures ReportSays(ReportOf(q, domains, taken), q, domains, taken)
  {
    DomainViewsSay(q, domains);
    DayViewsSay(q, domains, ReportOf(q, domains, taken).days);
    SiteViewSays(q, domains, taken);
  }
}
