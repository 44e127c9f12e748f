/** What a report over a range of hours shows, figure by figure, and when it shows a profit: at every
    level exactly when nothing of that level is missing or unverified. */
module ReportViews {

  import opened Ledger
  import opened ReportFigures

  /** A current manifest and the rows joined to it, in channel order. */
  datatype HourInput = HourInput(hour: int, manifest: ManifestSource, rows: seq<Publication>)

  datatype DomainInput = DomainInput(domain: string, hours: seq<HourInput>)

  datatype RefundFact = RefundFact(hour: int, records: int, quota: int)

  datatype DomainView = DomainView(totals: Totals, hours: Hours, channels: map<int, Totals>, hourly: seq<Totals>)

  datatype ReportView = ReportView(domains: seq<DomainView>, days: map<int, Totals>, site: Totals, siteHours: Hours)

  /** Seconds to the start of the day in China Standard Time, UTC+8. */
  const CST := 28_800
  const DAY := 86_400

  function DayStart(t: int): int { (t + CST) / DAY * DAY - CST }

  predicate InputOk(domains: seq<DomainInput>) {
    forall d :: d in domains ==> HoursOk(d.hours)
  }

  predicate HoursOk(hours: seq<HourInput>) { forall h :: h in hours ==> RowsOk(h.rows) }

  // One hour.

  predicate ChildrenMatch(h: HourInput) {
    h.manifest.rowCount == |h.rows| && h.manifest.children == set p | p in h.rows :: IdOf(p)
  }

  predicate ManifestComplete(h: HourInput) {
    h.manifest.verdict.coverage == Child(VerifiedComplete) && h.manifest.verdict.profitKnown
  }

  predicate AllCompleteOrEmpty(rows: seq<Publication>) { forall p :: p in rows ==> CompleteOrEmpty(p) }

  predicate HourVerified(h: HourInput, refunded: set<int>) {
    ManifestComplete(h) && ChildrenMatch(h) && AllCompleteOrEmpty(h.rows) && h.hour !in refunded
  }

  predicate AllVerified(hours: seq<HourInput>, refunded: set<int>) {
    forall h :: h in hours ==> HourVerified(h, refunded)
  }

  predicate AnyVerified(hours: seq<HourInput>, refunded: set<int>) {
    exists h :: h in hours && HourVerified(h, refunded)
  }

  function StatusOf(h: HourInput): Status {
    if ChildrenMatch(h) then Of(h.manifest.verdict.coverage) else ChildrenMismatch
  }

  /** withRefunds: views of an hour or a day also carry the refund status, those of a domain do not. */
  function StatusesOf(h: HourInput, refunded: set<int>, withRefunds: bool): set<Status> {
    {StatusOf(h)} + if withRefunds && h.hour in refunded then {Of(Child(RefundUnallocated))} else {}
  }

  function CountedHour(hours: Hours, h: HourInput, refunded: set<int>, withRefunds: bool): Hours {
    var next := hours.(published := hours.published + 1,
      statuses := hours.statuses + StatusesOf(h, refunded, withRefunds));
    if HourVerified(h, refunded) then next.(verified := next.verified + 1) else next.(unknown := next.unknown + 1)
  }

  function Counted(hours: seq<HourInput>, expected: int, refunded: set<int>, withRefunds: bool): Hours {
    if hours == [] then Hours(expected, 0, 0, 0, 0, {})
    else CountedHour(Counted(hours[..|hours| - 1], expected, refunded, withRefunds), hours[|hours| - 1], refunded,
      withRefunds)
  }

  /** What is expected and not published is missing. */
  function Closed(hours: Hours): Hours {
    var missing := if hours.expected > hours.published then hours.expected - hours.published else 0;
    hours.(missing := missing, statuses := hours.statuses + if missing > 0 then {PublicationMissing} else {})
  }

  function Figures(rows: seq<Publication>): Agg {
    if Absorbed(START, rows).Ok? then Absorbed(START, rows).value else START
  }

  /** A verified hour without cost rows proves a zero cost. */
  function Marked(a: Agg, verified: bool): Agg { if verified then a.(hasCorrected := true) else a }

  function HourTotals(h: HourInput, refunded: set<int>): Totals {
    View(Marked(Figures(h.rows), HourVerified(h, refunded)), CountedHour(Hours(1, 0, 0, 0, 0, {}), h, refunded, true),
         h.hour in refunded, h.hour in refunded)
  }

  function HourViews(hours: seq<HourInput>, refunded: set<int>): seq<Totals> {
    seq(|hours|, i requires 0 <= i < |hours| => HourTotals(hours[i], refunded))
  }

  // One domain.

  function RowsOf(hours: seq<HourInput>): seq<Publication> {
    if hours == [] then [] else RowsOf(hours[..|hours| - 1]) + hours[|hours| - 1].rows
  }

  function DomainHours(hours: seq<HourInput>, expected: int, refunded: set<int>): Hours {
    Closed(Counted(hours, expected, refunded, false))
  }

  function DomainAgg(hours: seq<HourInput>, refunded: set<int>): Agg {
    Marked(Figures(RowsOf(hours)), AnyVerified(hours, refunded))
  }

  function DomainTotals(hours: seq<HourInput>, expected: int, refunded: set<int>): Totals {
    View(DomainAgg(hours, refunded), DomainHours(hours, expected, refunded), refunded != {}, refunded != {})
  }

  function RowStatuses(rows: seq<Publication>): set<Status> { set p | p in rows :: Of(Child(p.row.coverage)) }

  /** A channel has its own rows, and the hours and statuses of its domain. */
  function ChannelTotals(hours: seq<HourInput>, expected: int, refunded: set<int>, c: int): Totals {
    var rows, whole := OfChannel(RowsOf(hours), c), DomainHours(hours, expected, refunded);
    View(Figures(rows), whole.(statuses := RowStatuses(rows) + whole.statuses), refunded != {}, refunded != {})
  }

  function ChannelsIn(rows: seq<Publication>): set<int> { set p | p in rows :: p.key.channel }

  function DomainViewOf(hours: seq<HourInput>, expected: int, refunded: set<int>, filtered: bool): DomainView {
    DomainView(DomainTotals(hours, expected, refunded), DomainHours(hours, expected, refunded),
               map c | c in ChannelsIn(RowsOf(hours)) :: ChannelTotals(hours, expected, refunded, c),
               if filtered then HourViews(hours, refunded) else [])
  }

  // Days, over all domains.

  function AllHours(domains: seq<DomainInput>): seq<HourInput> {
    if domains == [] then [] else AllHours(domains[..|domains| - 1]) + domains[|domains| - 1].hours
  }

  function OfDay(hours: seq<HourInput>, d: int): seq<HourInput> {
    if hours == [] then []
    else
      var last := hours[|hours| - 1];
      OfDay(hours[..|hours| - 1], d) + if DayStart(last.hour) == d then [last] else []
  }

  function VerifiedRows(hours: seq<HourInput>, refunded: set<int>): seq<Publication> {
    if hours == [] then []
    else
      var last := hours[|hours| - 1];
      VerifiedRows(hours[..|hours| - 1], refunded) + if HourVerified(last, refunded) then last.rows else []
  }

  /** A day sums the rows of its verified hours; any other hour leaves its figures unknown. */
  function DayAgg(hours: seq<HourInput>, refunded: set<int>): Agg {
    var known := AllVerified(hours, refunded);
    Figures(VerifiedRows(hours, refunded)).(correctedKnown := known, profitKnown := known,
        hasCorrected := AnyVerified(hours, refunded))
  }

  /** The first n hours of a range that fall on a day. */
  function HoursOn(from: int, n: nat, d: int): nat {
    if n == 0 then 0 else HoursOn(from, n - 1, d) + if DayStart(from + 3600 * (n - 1)) == d then 1 else 0
  }

  function HoursIn(from: int, to: int): nat { if from < to then (to - from + 3599) / 3600 else 0 }

  function DaysIn(from: int, n: nat): set<int> { set k | 0 <= k < n :: DayStart(from + 3600 * k) }

  predicate DayRefunded(refunded: set<int>, from: int, to: int, d: int) {
    exists h :: h in refunded && from <= h < to && d <= h < d + DAY && (h - (if from > d then from else d)) % 3600 == 0
  }

  /** A range of whole hours, read for a number of domains. */
  datatype Query = Query(from: int, to: int, domains: nat, refunded: set<int>, filtered: bool, finance: bool)

  function Expected(q: Query): int { (q.to - q.from) / 3600 }

  function DayExpected(q: Query, d: int): int { HoursOn(q.from, HoursIn(q.from, q.to), d) * q.domains }

  function DayCounted(q: Query, hours: seq<HourInput>, d: int): Hours {
    Counted(OfDay(hours, d), DayExpected(q, d), q.refunded, true)
  }

  function DayTotals(q: Query, hours: seq<HourInput>, d: int): Totals {
    var blocked := DayRefunded(q.refunded, q.from, q.to, d);
    View(DayAgg(OfDay(hours, d), q.refunded), Closed(DayCounted(q, hours, d)), blocked, blocked)
  }

  function ReportDays(q: Query): set<int> { if q.finance then DaysIn(q.from, HoursIn(q.from, q.to)) else {} }

  // The site.

  function SiteAgg(domains: seq<DomainInput>, refunded: set<int>): Agg {
    if domains == [] then START
    else Merged(SiteAgg(domains[..|domains| - 1], refunded), DomainAgg(domains[|domains| - 1].hours, refunded))
  }

  function JoinHours(a: Hours, b: Hours): Hours {
    Hours(a.expected, a.published + b.published, a.verified + b.verified, a.missing + b.missing, a.unknown + b.unknown,
        a.statuses + b.statuses)
  }

  function SiteHours(domains: seq<DomainInput>, all: nat, expected: int, refunded: set<int>): Hours {
    if domains == [] then Hours(expected * all, 0, 0, 0, 0, {})
    else
      JoinHours(SiteHours(domains[..|domains| - 1], all, expected, refunded),
          DomainHours(domains[|domains| - 1].hours, expected, refunded))
  }

  /** Refunds without an owner lower the revenue of the whole site once, and only there. */
  function SiteTotals(q: Query, domains: seq<DomainInput>, refundMicro: int): Totals {
    var site := SiteAgg(domains, q.refunded);
    View(site.(revenue := site.revenue - refundMicro), SiteHours(domains, |domains|, Expected(q), q.refunded),
         q.refunded != {}, q.refunded != {} && q.filtered)
  }

  function DomainViews(q: Query, domains: seq<DomainInput>): seq<DomainView> {
    seq(|domains|, i requires 0 <= i < |domains| => DomainViewOf(domains[i].hours, Expected(q), q.refunded, q.filtered))
  }

  function ReportOf(q: Query, domains: seq<DomainInput>, refundMicro: int): ReportView {
    ReportView(DomainViews(q, domains),
               map d | d in ReportDays(q) :: DayTotals(q, AllHours(domains), d),
               SiteTotals(q, domains, refundMicro), SiteHours(domains, |domains|, Expected(q), q.refunded))
  }

  // When a profit is shown.

  /** Every hour of the domain is there and verified, and no refund of the range lacks an owner. */
  predicate Complete(hours: seq<HourInput>, expected: int, refunded: set<int>) {
    |hours| >= expected && refunded == {} && AllVerified(hours, refunded)
  }

  /** The statuses of verified hours block nothing. */
  predicate Harmless(statuses: set<Status>) {
    forall s :: s in statuses ==> s == Of(Child(VerifiedComplete)) || s == Of(Child(SupersededEmpty))
  }

  lemma VerifiedStep(before: seq<HourInput>, last: HourInput, refunded: set<int>)
    ensures AllVerified(before + [last], refunded) <==> AllVerified(before, refunded) && HourVerified(last, refunded)
    ensures AnyVerified(before + [last], refunded) <==> AnyVerified(before, refunded) || HourVerified(last, refunded)
  {
    var all := before + [last];
    assert last in all;
    assert forall h :: h in before ==> h in all;
  }

  predicate CountsHours(c: Hours, hours: seq<HourInput>, expected: int, refunded: set<int>) {
    && c.expected == expected && c.missing == 0 && c.published == |hours| == c.verified + c.unknown
    && c.verified >= 0 && c.unknown >= 0
    && (c.unknown == 0 <==> AllVerified(hours, refunded)) && (c.verified > 0 <==> AnyVerified(hours, refunded))
    && (AllVerified(hours, refunded) ==> Harmless(c.statuses))
  }

  lemma CountedStep(
      c: Hours, before: seq<HourInput>, last: HourInput, expected: int, refunded: set<int>, withRefunds: bool)
    requires CountsHours(c, before, expected, refunded)
    ensures CountsHours(CountedHour(c, last, refunded, withRefunds), before + [last], expected, refunded)
  {
    VerifiedStep(before, last, refunded);
  }

  lemma {:induction false} CountedIs(hours: seq<HourInput>, expected: int, refunded: set<int>, withRefunds: bool)
    ensures CountsHours(Counted(hours, expected, refunded, withRefunds), hours, expected, refunded)
    decreases |hours|
  {
    if hours != [] {
      var n := |hours| - 1;
      CountedIs(hours[..n], expected, refunded, withRefunds);
      CountedStep(Counted(hours[..n], expected, refunded, withRefunds), hours[..n], hours[n], expected, refunded,
          withRefunds);
      assert hours == hours[..n] + [hours[n]];
    }
  }

  predicate Unhindered(hours: Hours, blocked: bool) { hours.missing == 0 && hours.unknown == 0 && !blocked }

  /** What a view needs for its profit, if the aggregate and the statuses are in order. */
  lemma ViewProfitIff(a: Agg, hours: Hours, blocked: bool, revenueBlocked: bool)
    requires Sound(a) && (revenueBlocked ==> blocked)
    requires Unhindered(hours, blocked) ==> a.profitKnown && a.correctedKnown && Harmless(hours.statuses)
    ensures var t := View(a, hours, blocked, revenueBlocked);
      Paired(t) && (t.profit.Some? <==> Unhindered(hours, blocked))
  {
    SoundViewsArePaired(a, hours, blocked, revenueBlocked);
  }

  /** Complete and superseded rows leave both flags up. */
  lemma {:induction false} FlagsStay(rows: seq<Publication>)
    requires RowsOk(rows) && AllCompleteOrEmpty(rows) && Absorbed(START, rows).Ok?
    ensures Absorbed(START, rows).value.correctedKnown && Absorbed(START, rows).value.profitKnown
    decreases |rows|
  {
    if rows != [] {
      var n := |rows| - 1;
      FlagsStay(rows[..n]);
      FlagsUnaffected(Absorbed(START, rows[..n]).value, rows[n]);
    }
  }

  lemma FiguresOfComplete(rows: seq<Publication>)
    requires RowsOk(rows) && AllCompleteOrEmpty(rows)
    ensures Figures(rows).correctedKnown && Figures(rows).profitKnown
  {
    if Absorbed(START, rows).Ok? { FlagsStay(rows); }
  }

  lemma FiguresSound(rows: seq<Publication>)
    requires RowsOk(rows)
    ensures Sound(Figures(rows))
  {
    if Absorbed(START, rows).Ok? { AbsorbedKeepsSound(START, rows); }
  }

  lemma {:induction false} RowsOfOk(hours: seq<HourInput>, refunded: set<int>)
    requires HoursOk(hours)
    ensures RowsOk(RowsOf(hours)) && RowsOk(VerifiedRows(hours, refunded))
    ensures AllCompleteOrEmpty(VerifiedRows(hours, refunded))
    ensures AllVerified(hours, refunded) ==> AllCompleteOrEmpty(RowsOf(hours))
    decreases |hours|
  {
    if hours != [] {
      var n := |hours| - 1;
      RowsOfOk(hours[..n], refunded);
      assert hours[n] in hours;
    }
  }

  lemma OneHourCounted(h: HourInput, refunded: set<int>)
    ensures var c := CountedHour(Hours(1, 0, 0, 0, 0, {}), h, refunded, true);
      c.missing == 0 && (c.unknown == 0 <==> HourVerified(h, refunded))
          && (HourVerified(h, refunded) ==> Harmless(c.statuses))
  {
  }

  /** An hour shows a profit exactly when it is verified. */
  lemma HourProfitIff(h: HourInput, refunded: set<int>)
    requires RowsOk(h.rows)
    ensures Paired(HourTotals(h, refunded)) && (HourTotals(h, refunded).profit.Some? <==> HourVerified(h, refunded))
  {
    var verified, blocked := HourVerified(h, refunded), h.hour in refunded;
    FiguresSound(h.rows);
    OneHourCounted(h, refunded);
    if verified { FiguresOfComplete(h.rows); }
    ViewProfitIff(Marked(Figures(h.rows), verified), CountedHour(Hours(1, 0, 0, 0, 0, {}), h, refunded, true), blocked,
        blocked);
  }

  lemma DomainHoursIs(hours: seq<HourInput>, expected: int, refunded: set<int>)
    ensures var h := DomainHours(hours, expected, refunded);
      && h.missing >= 0 && h.unknown >= 0
      && (Unhindered(h, refunded != {}) <==> Complete(hours, expected, refunded))
      && (Unhindered(h, false) ==> AllVerified(hours, refunded) && Harmless(h.statuses))
  {
    CountedIs(hours, expected, refunded, false);
  }

  lemma MarkedIs(a: Agg, verified: bool)
    requires Sound(a)
    ensures Sound(Marked(a, verified)) && Marked(a, verified).correctedKnown == a.correctedKnown
    ensures Marked(a, verified).profitKnown == a.profitKnown
  {
  }

  lemma DomainAggIs(hours: seq<HourInput>, refunded: set<int>)
    requires HoursOk(hours)
    ensures Sound(DomainAgg(hours, refunded))
    ensures AllVerified(hours, refunded) ==>
      DomainAgg(hours, refunded).correctedKnown && DomainAgg(hours, refunded).profitKnown
  {
    var rows := RowsOf(hours);
    RowsOfOk(hours, refunded);
    FiguresSound(rows);
    if AllVerified(hours, refunded) { FiguresOfComplete(rows); }
    MarkedIs(Figures(rows), AnyVerified(hours, refunded));
  }

  /** A domain shows a profit exactly when it is complete. */
  lemma DomainProfitIff(hours: seq<HourInput>, expected: int, refunded: set<int>)
    requires HoursOk(hours)
    ensures var t := DomainTotals(hours, expected, refunded);
      Paired(t) && (t.profit.Some? <==> Complete(hours, expected, refunded))
  {
    DomainHoursIs(hours, expected, refunded);
    DomainAggIs(hours, refunded);
    ViewProfitIff(DomainAgg(hours, refunded), DomainHours(hours, expected, refunded), refunded != {}, refunded != {});
  }

  lemma {:induction false} OfChannelOk(rows: seq<Publication>, c: int)
    ensures forall p :: p in OfChannel(rows, c) ==> p in rows && p.key.channel == c
    ensures OfChannel(rows, c) == [] <==> c !in ChannelsIn(rows)
    decreases |rows|
  {
    if rows != [] {
      var n := |rows| - 1;
      OfChannelOk(rows[..n], c);
      assert rows == rows[..n] + [rows[n]];
      assert ChannelsIn(rows) == ChannelsIn(rows[..n]) + {rows[n].key.channel};
    }
  }

  lemma CompleteRowStatuses(rows: seq<Publication>)
    requires AllCompleteOrEmpty(rows)
    ensures Harmless(RowStatuses(rows))
  {
  }

  lemma OwnHours(whole: Hours, statuses: set<Status>, blocked: bool)
    requires Unhindered(whole, blocked) ==> Harmless(whole.statuses) && Harmless(statuses)
    ensures var own := whole.(statuses := statuses + whole.statuses);
      (Unhindered(own, blocked) <==> Unhindered(whole, blocked))
          && (Unhindered(own, blocked) ==> Harmless(own.statuses))
  {
  }

  /** A channel shows a profit exactly when its domain is complete. */
  lemma ChannelProfitIff(hours: seq<HourInput>, expected: int, refunded: set<int>, c: int)
    requires HoursOk(hours)
    ensures var t := ChannelTotals(hours, expected, refunded, c);
      Paired(t) && (t.profit.Some? <==> Complete(hours, expected, refunded))
  {
    var rows, whole, blocked := OfChannel(RowsOf(hours), c), DomainHours(hours, expected, refunded), refunded != {};
    DomainHoursIs(hours, expected, refunded);
    RowsOfOk(hours, refunded);
    OfChannelOk(RowsOf(hours), c);
    FiguresSound(rows);
    if AllVerified(hours, refunded) {
      FiguresOfComplete(rows);
      CompleteRowStatuses(rows);
    }
    OwnHours(whole, RowStatuses(rows), blocked);
    ViewProfitIff(Figures(rows), whole.(statuses := RowStatuses(rows) + whole.statuses), blocked, blocked);
  }

  lemma {:induction false} OfDayOk(hours: seq<HourInput>, d: int)
    requires HoursOk(hours)
    ensures HoursOk(OfDay(hours, d))
    decreases |hours|
  {
    if hours != [] {
      OfDayOk(hours[..|hours| - 1], d);
      assert hours[|hours| - 1] in hours;
    }
  }

  lemma DayAggSound(hours: seq<HourInput>, refunded: set<int>)
    requires HoursOk(hours)
    ensures Sound(DayAgg(hours, refunded))
  {
    RowsOfOk(hours, refunded);
    FiguresSound(VerifiedRows(hours, refunded));
    FiguresOfComplete(VerifiedRows(hours, refunded));
  }

  lemma DayHoursIs(q: Query, hours: seq<HourInput>, d: int, blocked: bool)
    ensures var h := Closed(DayCounted(q, hours, d));
      && (Unhindered(h, blocked) <==>
            |OfDay(hours, d)| >= DayExpected(q, d) && AllVerified(OfDay(hours, d), q.refunded) && !blocked)
      && (Unhindered(h, blocked) ==> Harmless(h.statuses))
  {
    CountedIs(OfDay(hours, d), DayExpected(q, d), q.refunded, true);
  }

  /** All hours of the day, of all domains, are there and verified, and no refund of the day lacks an
      owner. */
  predicate DayComplete(q: Query, hours: seq<HourInput>, d: int) {
    && |OfDay(hours, d)| >= DayExpected(q, d) && AllVerified(OfDay(hours, d), q.refunded)
    && !DayRefunded(q.refunded, q.from, q.to, d)
  }

  /** A day shows a profit exactly when it is complete. */
  lemma DayProfitIff(q: Query, hours: seq<HourInput>, d: int)
    requires HoursOk(hours)
    ensures var t := DayTotals(q, hours, d); Paired(t) && (t.profit.Some? <==> DayComplete(q, hours, d))
  {
    var blocked := DayRefunded(q.refunded, q.from, q.to, d);
    OfDayOk(hours, d);
    DayAggSound(OfDay(hours, d), q.refunded);
    DayHoursIs(q, hours, d, blocked);
    ViewProfitIff(DayAgg(OfDay(hours, d), q.refunded), Closed(DayCounted(q, hours, d)), blocked, blocked);
  }

  predicate AllComplete(domains: seq<DomainInput>, expected: int, refunded: set<int>) {
    forall d :: d in domains ==> Complete(d.hours, expected, refunded)
  }

  lemma AllCompleteStep(before: seq<DomainInput>, last: DomainInput, expected: int, refunded: set<int>)
    ensures AllComplete(before + [last], expected, refunded) <==>
      AllComplete(before, expected, refunded) && Complete(last.hours, expected, refunded)
  {
    assert last in before + [last];
    assert forall d :: d in before ==> d in before + [last];
  }

  /** Aggregate and hours of some domains together. */
  predicate SiteFits(a: Agg, h: Hours, complete: bool) {
    && Sound(a) && h.missing >= 0 && h.unknown >= 0
    && (Unhindered(h, false) <==> complete) && (complete ==> a.correctedKnown && a.profitKnown && Harmless(h.statuses))
  }

  lemma SiteFitsStep(a: Agg, h: Hours, complete: bool, b: Agg, g: Hours, lastComplete: bool)
    requires SiteFits(a, h, complete) && SiteFits(b, g, lastComplete)
    ensures SiteFits(Merged(a, b), JoinHours(h, g), complete && lastComplete)
  {
    MergeKeepsSound(a, b);
  }

  lemma DomainFits(hours: seq<HourInput>, expected: int)
    requires HoursOk(hours)
    ensures SiteFits(DomainAgg(hours, {}), DomainHours(hours, expected, {}), Complete(hours, expected, {}))
  {
    DomainHoursIs(hours, expected, {});
    DomainAggIs(hours, {});
  }

  lemma {:induction false} SiteIs(domains: seq<DomainInput>, all: nat, expected: int)
    requires InputOk(domains)
    ensures SiteFits(SiteAgg(domains, {}), SiteHours(domains, all, expected, {}), AllComplete(domains, expected, {}))
    decreases |domains|
  {
    if domains != [] {
      var n := |domains| - 1;
      var before, last := domains[..n], domains[n];
      assert domains == before + [last] && last in domains;
      SiteIs(before, all, expected);
      DomainFits(last.hours, expected);
      SiteFitsStep(SiteAgg(before, {}), SiteHours(before, all, expected, {}), AllComplete(before, expected, {}),
                   DomainAgg(last.hours, {}), DomainHours(last.hours, expected, {}),
                       Complete(last.hours, expected, {}));
      AllCompleteStep(before, last, expected, {});
    }
  }

  /** The site shows a profit exactly when every domain is complete and no refund lacks an owner; and
      then, like everywhere, revenue and corrected cost are shown and the profit is their difference. */
  lemma SiteProfitIff(q: Query, domains: seq<DomainInput>, refundMicro: int)
    requires InputOk(domains) && (q.refunded == {} ==> refundMicro == 0)
    ensures var t := SiteTotals(q, domains, refundMicro);
      Paired(t) && (t.profit.Some? <==> q.refunded == {} && AllComplete(domains, Expected(q), q.refunded))
  {
    if q.refunded == {} {
      var site := SiteAgg(domains, {});
      SiteIs(domains, |domains|, Expected(q));
      assert site.(revenue := site.revenue - 0) == site;
      ViewProfitIff(site, SiteHours(domains, |domains|, Expected(q), {}), false, false);
    }
  }

  // All levels together.

  predicate DomainPaired(view: DomainView) {
    && Paired(view.totals)
    && (forall c :: c in view.channels ==> Paired(view.channels[c]))
    && (forall i :: 0 <= i < |view.hourly| ==> Paired(view.hourly[i]))
  }

  predicate AllPaired(report: ReportView) {
    && (forall i :: 0 <= i < |report.domains| ==> DomainPaired(report.domains[i]))
    && (forall d :: d in report.days ==> Paired(report.days[d]))
    && Paired(report.site)
  }

  lemma DomainPairs(hours: seq<HourInput>, expected: int, refunded: set<int>, filtered: bool)
    requires HoursOk(hours)
    ensures DomainPaired(DomainViewOf(hours, expected, refunded, filtered))
    ensures DomainTotals(hours, expected, refunded).profit.Some? <==> Complete(hours, expected, refunded)
  {
    DomainProfitIff(hours, expected, refunded);
    forall c
      ensures Paired(ChannelTotals(hours, expected, refunded, c))
    {
      ChannelProfitIff(hours, expected, refunded, c);
    }
    forall i | 0 <= i < |hours| ensures Paired(HourTotals(hours[i], refunded)) {
      assert hours[i] in hours;
      HourProfitIff(hours[i], refunded);
    }
  }

  lemma {:induction false} AllHoursOk(domains: seq<DomainInput>)
    requires InputOk(domains)
    ensures HoursOk(AllHours(domains))
    decreases |domains|
  {
    if domains != [] {
      AllHoursOk(domains[..|domains| - 1]);
      assert domains[|domains| - 1] in domains;
    }
  }
}
