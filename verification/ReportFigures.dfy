/** Aggregates of published rows and the totals a report shows for them. */
module ReportFigures {

  import opened Basics
  import opened Ledger
  import opened LedgerHistory

  /** correctedKnown and profitKnown say whether every row so far had the figure. */
  datatype Agg = Agg(
    revenue: int, upstreamCost: int, knownCorrected: int, hasCorrected: bool,
    knownProfit: int, pairedRevenue: int, pairedCorrected: int,
    localRequests: int, upstreamRequests: int, refundRecords: int, chargeUnits: int,
    rows: int, pairedRows: int, correctedKnown: bool, profitKnown: bool)

  const START := Agg(0, 0, 0, false, 0, 0, 0, 0, 0, 0, 0, 0, 0, true, true)

  function AddInt64(a: int, b: int): Result<int> {
    if (b > 0 && a > MAX_INT64 - b) || (b < 0 && a < MIN_INT64 - b) then Err else Ok(a + b)
  }

  predicate Fits(a: int, b: int) { AddInt64(a, b).Ok? }

  /** No addition of the row's figures leaves int64. */
  predicate RowFits(a: Agg, p: Publication) {
    && Fits(a.revenue, p.row.revenue) && Fits(a.upstreamCost, p.row.upstreamCost)
    && Fits(a.localRequests, p.row.local.requests) && Fits(a.upstreamRequests, p.row.upstreamRequests)
    && Fits(a.refundRecords, p.row.local.refundRecords) && Fits(a.chargeUnits, p.row.chargeUnits)
    && (p.row.correctedKnown ==> Fits(a.knownCorrected, p.row.corrected))
    && (p.profitKnown ==>
          Fits(a.pairedRevenue, p.row.revenue) && Fits(a.pairedCorrected, p.row.corrected)
              && Fits(a.knownProfit, p.profit))
  }

  function WithSums(a: Agg, p: Publication): Agg {
    a.(revenue := a.revenue + p.row.revenue, upstreamCost := a.upstreamCost + p.row.upstreamCost,
       localRequests := a.localRequests + p.row.local.requests,
       upstreamRequests := a.upstreamRequests + p.row.upstreamRequests,
       refundRecords := a.refundRecords + p.row.local.refundRecords, chargeUnits := a.chargeUnits + p.row.chargeUnits,
       rows := a.rows + 1)
  }

  function WithCorrected(a: Agg, p: Publication): Agg {
    if p.row.correctedKnown then a.(hasCorrected := true, knownCorrected := a.knownCorrected + p.row.corrected) else a
  }

  function WithProfit(a: Agg, p: Publication): Agg {
    if p.profitKnown then
      a.(pairedRows := a.pairedRows + 1, pairedRevenue := a.pairedRevenue + p.row.revenue,
         pairedCorrected := a.pairedCorrected + p.row.corrected, knownProfit := a.knownProfit + p.profit)
    else a
  }

  function AddRow(a: Agg, p: Publication): Result<Agg> {
    if !RowFits(a, p) then Err else Ok(WithProfit(WithCorrected(WithSums(a, p), p), p))
  }

  predicate Neutral(p: Publication) { p.row.coverage == SupersededEmpty }

  /** What one row does to an hour, a domain or a channel: flags first, then figures. */
  function Flagged(a: Agg, p: Publication): Agg {
    a.(correctedKnown := a.correctedKnown && (p.row.correctedKnown || Neutral(p)),
       profitKnown := a.profitKnown && (p.profitKnown || Neutral(p)))
  }

  function Absorbed(a: Agg, rows: seq<Publication>): Result<Agg> {
    if rows == [] then Ok(a)
    else
      var before := Absorbed(a, rows[..|rows| - 1]);
      if before.Err? then Err else AddRow(Flagged(before.value, rows[|rows| - 1]), rows[|rows| - 1])
  }

  predicate RowsOk(rows: seq<Publication>) { forall p :: p in rows ==> PublicationOk(p) }

  /** Profit is always the difference of the paired figures, and when nothing is missing the paired
      figures are the whole figures. */
  predicate Sound(a: Agg) {
    && a.knownProfit == a.pairedRevenue - a.pairedCorrected
    && (a.profitKnown ==> a.revenue == a.pairedRevenue && a.knownCorrected == a.pairedCorrected)
  }

  lemma AddRowKeepsSound(a: Agg, p: Publication)
    requires Sound(a) && PublicationOk(p) && AddRow(Flagged(a, p), p).Ok?
    ensures Sound(AddRow(Flagged(a, p), p).value)
  {
    if Neutral(p) { SupersededIsZero(p); }
  }

  lemma {:induction false} AbsorbedKeepsSound(a: Agg, rows: seq<Publication>)
    requires Sound(a) && RowsOk(rows) && Absorbed(a, rows).Ok?
    ensures Sound(Absorbed(a, rows).value)
    decreases |rows|
  {
    if rows != [] {
      var n := |rows| - 1;
      AbsorbedKeepsSound(a, rows[..n]);
      AddRowKeepsSound(Absorbed(a, rows[..n]).value, rows[n]);
    }
  }

  /** In a verified hour flags need no update: every row either has both figures or is neutral. */
  predicate CompleteOrEmpty(p: Publication) { p.row.coverage == VerifiedComplete || Neutral(p) }

  lemma FlagsUnaffected(a: Agg, p: Publication)
    requires PublicationOk(p) && CompleteOrEmpty(p)
    ensures Flagged(a, p) == a
  {
  }

  // Totals.

  datatype Status = Of(verdict: ManifestCoverage) | ChildrenMismatch | PublicationMissing

  /** The hours of one view; a status is present when some hour or row had it. */
  datatype Hours = Hours(expected: int, published: int, verified: int, missing: int, unknown: int,
      statuses: set<Status>)

  datatype Totals = Totals(
    revenue: Option<int>, upstreamCost: Option<int>, corrected: Option<int>, profit: Option<int>,
    knownRevenue: int, knownUpstreamCost: int, knownCorrected: Option<int>, knownProfit: int,
    pairedRevenue: int, pairedCorrected: int, localRequests: int, upstreamRequests: int,
    refundRecords: int, chargeUnits: int, rows: int, pairedRows: int)

  function When(known: bool, value: int): Option<int> { if known then Some(value) else None }

  predicate BaseKnown(h: Hours) { h.missing == 0 && ChildrenMismatch !in h.statuses }

  predicate RevenueKnown(h: Hours, revenueBlocked: bool) {
    && BaseKnown(h) && !revenueBlocked
    && Of(Child(LocalFactUnverified)) !in h.statuses && Of(Child(LocalRevenueMissing)) !in h.statuses
  }

  predicate CorrectedKnown(a: Agg, h: Hours) {
    a.correctedKnown && BaseKnown(h) && Of(FinanceVersionConflict) !in h.statuses
  }

  predicate ProfitKnown(a: Agg, h: Hours, profitBlocked: bool, revenueBlocked: bool) {
    a.profitKnown && RevenueKnown(h, revenueBlocked) && CorrectedKnown(a, h) && h.unknown == 0 && !profitBlocked
  }

  function View(a: Agg, h: Hours, profitBlocked: bool, revenueBlocked: bool): Totals {
    Totals(When(RevenueKnown(h, revenueBlocked), a.revenue),
           When(BaseKnown(h) && Of(Child(UpstreamCostMissing)) !in h.statuses, a.upstreamCost),
           When(CorrectedKnown(a, h), a.knownCorrected),
           When(ProfitKnown(a, h, profitBlocked, revenueBlocked), a.knownProfit),
           a.revenue, a.upstreamCost,
           When(a.hasCorrected || CorrectedKnown(a, h), a.knownCorrected), a.knownProfit,
           a.pairedRevenue, a.pairedCorrected, a.localRequests, a.upstreamRequests,
           a.refundRecords, a.chargeUnits, a.rows, a.pairedRows)
  }

  /** A published profit comes with the two figures it is the difference of. */
  predicate Paired(t: Totals) {
    t.profit.Some? ==> t.revenue.Some? && t.corrected.Some? && t.profit.value == t.revenue.value - t.corrected.value
  }

  lemma SoundViewsArePaired(a: Agg, h: Hours, profitBlocked: bool, revenueBlocked: bool)
    requires Sound(a)
    ensures Paired(View(a, h, profitBlocked, revenueBlocked))
  {
  }

  // Sums over domains.

  predicate MergeFits(a: Agg, b: Agg) {
    && Fits(a.revenue, b.revenue) && Fits(a.upstreamCost, b.upstreamCost) && Fits(a.knownCorrected, b.knownCorrected)
    && Fits(a.knownProfit, b.knownProfit) && Fits(a.pairedRevenue, b.pairedRevenue)
          && Fits(a.pairedCorrected, b.pairedCorrected)
    && Fits(a.localRequests, b.localRequests) && Fits(a.upstreamRequests, b.upstreamRequests)
    && Fits(a.refundRecords, b.refundRecords) && Fits(a.chargeUnits, b.chargeUnits)
  }

  function Merged(a: Agg, b: Agg): Agg {
    Agg(a.revenue + b.revenue, a.upstreamCost + b.upstreamCost, a.knownCorrected + b.knownCorrected,
        a.hasCorrected || b.hasCorrected,
        a.knownProfit + b.knownProfit, a.pairedRevenue + b.pairedRevenue, a.pairedCorrected + b.pairedCorrected,
        a.localRequests + b.localRequests, a.upstreamRequests + b.upstreamRequests, a.refundRecords + b.refundRecords,
        a.chargeUnits + b.chargeUnits, a.rows + b.rows, a.pairedRows + b.pairedRows,
        a.correctedKnown && b.correctedKnown, a.profitKnown && b.profitKnown)
  }

  lemma MergeKeepsSound(a: Agg, b: Agg)
    requires Sound(a) && Sound(b)
    ensures Sound(Merged(a, b))
  {
  }

  /** Absorbing rows into an aggregate adds what the rows come to on their own: hours add up to
      their domain and domains to the site. */
  lemma {:induction false} AbsorbedIsMerged(a: Agg, rows: seq<Publication>)
    requires Absorbed(a, rows).Ok? && Absorbed(START, rows).Ok?
    ensures Absorbed(a, rows).value == Merged(a, Absorbed(START, rows).value)
    decreases |rows|
  {
    if rows != [] {
      var n := |rows| - 1;
      AbsorbedIsMerged(a, rows[..n]);
      MergedStep(a, Absorbed(START, rows[..n]).value, rows[n]);
    }
  }

  lemma MergedSums(a: Agg, b: Agg, p: Publication)
    ensures WithSums(Merged(a, b), p) == Merged(a, WithSums(b, p))
  {
  }

  lemma MergedCorrected(a: Agg, b: Agg, p: Publication)
    ensures WithCorrected(Merged(a, b), p) == Merged(a, WithCorrected(b, p))
  {
  }

  lemma MergedProfit(a: Agg, b: Agg, p: Publication)
    ensures WithProfit(Merged(a, b), p) == Merged(a, WithProfit(b, p))
  {
  }

  lemma MergedFlags(a: Agg, b: Agg, p: Publication)
    ensures Flagged(Merged(a, b), p) == Merged(a, Flagged(b, p))
  {
  }

  lemma MergedStep(a: Agg, b: Agg, p: Publication)
    requires AddRow(Flagged(b, p), p).Ok? && AddRow(Flagged(Merged(a, b), p), p).Ok?
    ensures AddRow(Flagged(Merged(a, b), p), p).value == Merged(a, AddRow(Flagged(b, p), p).value)
  {
    var own := Flagged(b, p);
    MergedFlags(a, b, p);
    MergedSums(a, own, p);
    MergedCorrected(a, WithSums(own, p), p);
    MergedProfit(a, WithCorrected(WithSums(own, p), p), p);
  }

  lemma {:induction false} AbsorbedAppend(a: Agg, first: seq<Publication>, second: seq<Publication>)
    requires Absorbed(a, first).Ok?
    ensures Absorbed(a, first + second) == Absorbed(Absorbed(a, first).value, second)
    decreases |second|
  {
    if second == [] {
      assert first + second == first;
    } else {
      var n := |second| - 1;
      assert (first + second)[..|first| + n] == first + second[..n];
      AbsorbedAppend(a, first, second[..n]);
    }
  }

  /** Equal but for the flags and the mark. */
  predicate SameFigures(a: Agg, b: Agg) {
    a == b.(correctedKnown := a.correctedKnown, profitKnown := a.profitKnown, hasCorrected := a.hasCorrected)
  }

  lemma SameFits(a: Agg, b: Agg, p: Publication)
    requires SameFigures(a, b) && RowFits(a, p)
    ensures RowFits(b, p)
  {
  }

  lemma SameSums(a: Agg, b: Agg, p: Publication)
    requires SameFigures(a, b)
    ensures SameFigures(WithSums(a, p), WithSums(b, p))
  {
  }

  lemma SameCorrected(a: Agg, b: Agg, p: Publication)
    requires SameFigures(a, b)
    ensures SameFigures(WithCorrected(a, p), WithCorrected(b, p))
  {
  }

  lemma SameProfit(a: Agg, b: Agg, p: Publication)
    requires SameFigures(a, b)
    ensures SameFigures(WithProfit(a, p), WithProfit(b, p))
  {
  }

  lemma PartsKeepFlags(a: Agg, p: Publication)
    requires RowFits(a, p)
    ensures var x := AddRow(a, p).value;
      x.correctedKnown == a.correctedKnown && x.profitKnown == a.profitKnown && (a.hasCorrected ==> x.hasCorrected)
  {
  }

  lemma SameStep(a: Agg, b: Agg, p: Publication)
    requires SameFigures(a, b) && AddRow(a, p).Ok?
    ensures AddRow(b, p).Ok? && SameFigures(AddRow(a, p).value, AddRow(b, p).value)
    ensures var x := AddRow(a, p).value;
      x.correctedKnown == a.correctedKnown && x.profitKnown == a.profitKnown && (a.hasCorrected ==> x.hasCorrected)
  {
    SameFits(a, b, p);
    SameSums(a, b, p);
    SameCorrected(WithSums(a, p), WithSums(b, p), p);
    SameProfit(WithCorrected(WithSums(a, p), p), WithCorrected(WithSums(b, p), p), p);
    PartsKeepFlags(a, p);
  }

  /** In a verified hour the flags pass through, whatever they are. */
  lemma {:induction false} SameAbsorbed(a: Agg, b: Agg, rows: seq<Publication>)
    requires SameFigures(a, b) && Absorbed(a, rows).Ok? && RowsOk(rows) && forall p :: p in rows ==> CompleteOrEmpty(p)
    ensures Absorbed(b, rows).Ok? && SameFigures(Absorbed(a, rows).value, Absorbed(b, rows).value)
    ensures var x := Absorbed(a, rows).value;
      x.correctedKnown == a.correctedKnown && x.profitKnown == a.profitKnown && (a.hasCorrected ==> x.hasCorrected)
    decreases |rows|
  {
    if rows != [] {
      var n := |rows| - 1;
      SameAbsorbed(a, b, rows[..n]);
      FlagsUnaffected(Absorbed(a, rows[..n]).value, rows[n]);
      FlagsUnaffected(Absorbed(b, rows[..n]).value, rows[n]);
      SameStep(Absorbed(a, rows[..n]).value, Absorbed(b, rows[..n]).value, rows[n]);
    }
  }

  /** The rows of one channel, in order. */
  function OfChannel(rows: seq<Publication>, channel: int): seq<Publication> {
    if rows == [] then []
    else
      var last := rows[|rows| - 1];
      OfChannel(rows[..|rows| - 1], channel) + if last.key.channel == channel then [last] else []
  }
}
