/** The figures of a report as plain sums over the rows it read: each figure of a level adds up one
    field of the rows of that level. */
module ReportSums {

  import opened Ledger
  import opened ReportFigures
  import opened ReportViews

  // One figure of a row.

  function Revenue(p: Publication): int { p.row.revenue }

  function UpstreamCost(p: Publication): int { p.row.upstreamCost }

  function Corrected(p: Publication): int { if p.row.correctedKnown then p.row.corrected else 0 }

  function Profit(p: Publication): int { if p.profitKnown then p.profit else 0 }

  function PairedRevenue(p: Publication): int { if p.profitKnown then p.row.revenue else 0 }

  function PairedCorrected(p: Publication): int { if p.profitKnown then p.row.corrected else 0 }

  function LocalRequests(p: Publication): int { p.row.local.requests }

  function UpstreamRequests(p: Publication): int { p.row.upstreamRequests }

  function RefundedRecords(p: Publication): int { p.row.local.refundRecords }

  function ChargeUnits(p: Publication): int { p.row.chargeUnits }

  function One(p: Publication): int { 1 }

  function PairedOne(p: Publication): int { if p.profitKnown then 1 else 0 }

  ghost function Sum(rows: seq<Publication>, f: Publication -> int): int {
    if rows == [] then 0 else Sum(rows[..|rows| - 1], f) + f(rows[|rows| - 1])
  }

  lemma {:induction false} SumAppend(a: seq<Publication>, b: seq<Publication>, f: Publication -> int)
    ensures Sum(a + b, f) == Sum(a, f) + Sum(b, f)
    decreases |b|
  {
    if b == [] {
      assert a + b == a;
    } else {
      assert (a + b)[..|a| + |b| - 1] == a + b[..|b| - 1];
      SumAppend(a, b[..|b| - 1], f);
    }
  }

  // An aggregate as sums.

  ghost predicate AddsUp(a: Agg, rows: seq<Publication>) {
    && a.revenue == Sum(rows, Revenue) && a.upstreamCost == Sum(rows, UpstreamCost)
    && a.knownCorrected == Sum(rows, Corrected) && a.knownProfit == Sum(rows, Profit)
    && a.pairedRevenue == Sum(rows, PairedRevenue) && a.pairedCorrected == Sum(rows, PairedCorrected)
    && a.localRequests == Sum(rows, LocalRequests) && a.upstreamRequests == Sum(rows, UpstreamRequests)
    && a.refundRecords == Sum(rows, RefundedRecords) && a.chargeUnits == Sum(rows, ChargeUnits)
    && a.rows == Sum(rows, One) && a.pairedRows == Sum(rows, PairedOne)
  }

  predicate CostKnown(p: Publication) { p.row.correctedKnown || p.row.coverage == SupersededEmpty }

  ghost predicate FlagsSay(a: Agg, rows: seq<Publication>) {
    && (a.correctedKnown <==> forall p :: p in rows ==> CostKnown(p))
    && (a.hasCorrected <==> exists p :: p in rows && p.row.correctedKnown)
  }

  /** What absorbing rows comes to: every figure is the sum of one field over the rows, known
      figures over the rows that have them; the flags say whether some or all rows had a cost. */
  lemma {:induction false} AbsorbedAddsUp(rows: seq<Publication>)
    requires Absorbed(START, rows).Ok?
    ensures AddsUp(Absorbed(START, rows).value, rows)
    decreases |rows|
  {
    if rows != [] { AbsorbedAddsUp(rows[..|rows| - 1]); }
  }

  lemma {:induction false} AbsorbedFlags(rows: seq<Publication>)
    requires Absorbed(START, rows).Ok?
    ensures FlagsSay(Absorbed(START, rows).value, rows)
    decreases |rows|
  {
    if rows != [] {
      var before, last := rows[..|rows| - 1], rows[|rows| - 1];
      assert rows == before + [last];
      AbsorbedFlags(before);
      FlagsStep(Absorbed(START, before).value, before, last);
    }
  }

  lemma FlagsStep(a: Agg, before: seq<Publication>, p: Publication)
    requires FlagsSay(a, before) && AddRow(Flagged(a, p), p).Ok?
    ensures FlagsSay(AddRow(Flagged(a, p), p).value, before + [p])
  {
    var next := AddRow(Flagged(a, p), p).value;
    assert p in before + [p] && forall q :: q in before ==> q in before + [p];
    assert next.correctedKnown == (a.correctedKnown && CostKnown(p));
    assert next.hasCorrected == (a.hasCorrected || p.row.correctedKnown);
  }

  // When it overflows.

  ghost predicate SumsInRange(rows: seq<Publication>) {
    && InRange(Sum(rows, Revenue)) && InRange(Sum(rows, UpstreamCost)) && InRange(Sum(rows, Corrected))
    && InRange(Sum(rows, Profit)) && InRange(Sum(rows, PairedRevenue)) && InRange(Sum(rows, PairedCorrected))
    && InRange(Sum(rows, LocalRequests)) && InRange(Sum(rows, UpstreamRequests))
    && InRange(Sum(rows, RefundedRecords)) && InRange(Sum(rows, ChargeUnits))
  }

  predicate InRange(x: int) { -0x8000_0000_0000_0000 <= x <= 0x7FFF_FFFF_FFFF_FFFF }

  lemma AddFits(a: int, b: int)
    requires InRange(a)
    ensures Fits(a, b) <==> InRange(a + b)
  {
  }

  lemma RowFitsIff(a: Agg, before: seq<Publication>, p: Publication)
    requires AddsUp(a, before) && SumsInRange(before)
    ensures RowFits(a, p) <==> SumsInRange(before + [p])
  {
    assert (before + [p])[..|before|] == before;
  }

  /** Rows can be absorbed exactly when no figure leaves int64 on the way. */
  lemma {:induction false} AbsorbedIff(rows: seq<Publication>)
    ensures Absorbed(START, rows).Ok? <==> forall n :: 0 <= n <= |rows| ==> SumsInRange(rows[..n])
    decreases |rows|
  {
    if rows == [] {
      assert rows[..0] == [];
    } else {
      var before, last := rows[..|rows| - 1], rows[|rows| - 1];
      AbsorbedIff(before);
      assert rows == before + [last] && rows[..|rows|] == rows;
      assert forall n :: 0 <= n < |rows| ==> rows[..n] == before[..n];
      assert before[..|before|] == before;
      if Absorbed(START, before).Ok? {
        AbsorbedAddsUp(before);
        RowFitsIff(Flagged(Absorbed(START, before).value, last), before, last);
      }
    }
  }

  // The rows of a level.

  /** Which rows a level adds up: all of them, those of a channel, or those of a day's proven hours. */
  datatype Scope = Whole | Channel(c: int) | Day(start: int, refunded: set<int>)

  /** A manifest that lists exactly the rows joined to it. */
  predicate Matches(h: HourInput) {
    h.manifest.rowCount == |h.rows|
    && h.manifest.children == set p | p in h.rows :: Id(p.key, p.row.source, p.revision)
  }

  /** Everything about the hour is proven: a complete manifest that matches its rows, rows that are
      complete or superseded, and no refund without an owner. */
  predicate Proven(h: HourInput, refunded: set<int>) {
    && h.manifest.verdict == Verdict(Child(VerifiedComplete), true, h.manifest.verdict.financeVersion)
    && Matches(h) && h.hour !in refunded
    && forall p :: p in h.rows ==> p.row.coverage == VerifiedComplete || p.row.coverage == SupersededEmpty
  }

  predicate Within(s: Scope, h: HourInput) { s.Day? ==> s.start <= h.hour < s.start + 86_400 }

  predicate In(s: Scope, h: HourInput, p: Publication) {
    match s
    case Whole => true
    case Channel(c) => p.key.channel == c
    case Day(start, refunded) => start <= h.hour < start + 86_400 && Proven(h, refunded)
  }

  ghost function SumIn(s: Scope, h: HourInput, rows: seq<Publication>, f: Publication -> int): int {
    if rows == [] then 0
    else
      var last := rows[|rows| - 1];
      SumIn(s, h, rows[..|rows| - 1], f) + if In(s, h, last) then f(last) else 0
  }

  ghost function SumHours(s: Scope, hours: seq<HourInput>, f: Publication -> int): int {
    if hours == [] then 0
    else
      var last := hours[|hours| - 1];
      SumHours(s, hours[..|hours| - 1], f) + SumIn(s, last, last.rows, f)
  }

  ghost function SumOver(s: Scope, domains: seq<DomainInput>, f: Publication -> int): int {
    if domains == [] then 0
    else SumOver(s, domains[..|domains| - 1], f) + SumHours(s, domains[|domains| - 1].hours, f)
  }

  lemma VerifiedIsProven(h: HourInput, refunded: set<int>)
    ensures HourVerified(h, refunded) <==> Proven(h, refunded)
    ensures ChildrenMatch(h) <==> Matches(h)
  {
    assert (set p | p in h.rows :: IdOf(p)) == set p | p in h.rows :: Id(p.key, p.row.source, p.revision);
  }

  /** A start of a day in China Standard Time, eight hours ahead of UTC. */
  predicate IsDay(d: int) { (d + 28_800) % 86_400 == 0 }

  lemma DayIsCalendar(t: int)
    ensures IsDay(DayStart(t)) && DayStart(t) <= t < DayStart(t) + 86_400
    ensures forall d :: IsDay(d) && d <= t < d + 86_400 ==> d == DayStart(t)
  {
  }

  lemma {:induction false} SumInWhole(h: HourInput, rows: seq<Publication>, f: Publication -> int)
    ensures SumIn(Whole, h, rows, f) == Sum(rows, f)
    decreases |rows|
  {
    if rows != [] { SumInWhole(h, rows[..|rows| - 1], f); }
  }

  lemma SumOne(p: Publication, f: Publication -> int)
    ensures Sum([p], f) == f(p)
    ensures forall c :: OfChannel([p], c) == if p.key.channel == c then [p] else []
  {
    assert [p][..0] == [];
  }

  lemma {:induction false} SumInChannel(h: HourInput, rows: seq<Publication>, c: int, f: Publication -> int)
    ensures SumIn(Channel(c), h, rows, f) == Sum(OfChannel(rows, c), f)
    decreases |rows|
  {
    if rows != [] {
      SumInChannel(h, rows[..|rows| - 1], c, f);
      SumOne(rows[|rows| - 1], f);
      SumAppend(OfChannel(rows[..|rows| - 1], c), OfChannel([rows[|rows| - 1]], c), f);
    }
  }

  lemma {:induction false} SumInDay(h: HourInput, rows: seq<Publication>, s: Scope, f: Publication -> int)
    requires s.Day?
    ensures SumIn(s, h, rows, f) == if Within(s, h) && Proven(h, s.refunded) then Sum(rows, f) else 0
    decreases |rows|
  {
    if rows != [] { SumInDay(h, rows[..|rows| - 1], s, f); }
  }

  lemma {:induction false} SumOfRows(hours: seq<HourInput>, f: Publication -> int)
    ensures Sum(RowsOf(hours), f) == SumHours(Whole, hours, f)
    decreases |hours|
  {
    if hours != [] {
      var n := |hours| - 1;
      SumOfRows(hours[..n], f);
      SumAppend(RowsOf(hours[..n]), hours[n].rows, f);
      SumInWhole(hours[n], hours[n].rows, f);
    }
  }

  lemma {:induction false} OfChannelAppend(a: seq<Publication>, b: seq<Publication>, c: int)
    ensures OfChannel(a + b, c) == OfChannel(a, c) + OfChannel(b, c)
    decreases |b|
  {
    if b == [] {
      assert a + b == a;
    } else {
      assert (a + b)[..|a| + |b| - 1] == a + b[..|b| - 1];
      OfChannelAppend(a, b[..|b| - 1], c);
    }
  }

  lemma {:induction false} SumOfChannel(hours: seq<HourInput>, c: int, f: Publication -> int)
    ensures Sum(OfChannel(RowsOf(hours), c), f) == SumHours(Channel(c), hours, f)
    decreases |hours|
  {
    if hours != [] {
      var n := |hours| - 1;
      SumOfChannel(hours[..n], c, f);
      OfChannelAppend(RowsOf(hours[..n]), hours[n].rows, c);
      SumAppend(OfChannel(RowsOf(hours[..n]), c), OfChannel(hours[n].rows, c), f);
      SumInChannel(hours[n], hours[n].rows, c, f);
    }
  }

  lemma {:induction false} SumOfDay(hours: seq<HourInput>, d: int, refunded: set<int>, f: Publication -> int)
    requires IsDay(d)
    ensures Sum(VerifiedRows(OfDay(hours, d), refunded), f) == SumHours(Day(d, refunded), hours, f)
    decreases |hours|
  {
    if hours != [] {
      var n := |hours| - 1;
      var last := hours[n];
      SumOfDay(hours[..n], d, refunded, f);
      SumInDay(last, last.rows, Day(d, refunded), f);
      DayIsCalendar(last.hour);
      VerifiedIsProven(last, refunded);
      if DayStart(last.hour) == d {
        assert OfDay(hours, d) == OfDay(hours[..n], d) + [last];
        assert OfDay(hours, d)[..|OfDay(hours[..n], d)|] == OfDay(hours[..n], d);
        assert OfDay(hours, d)[|OfDay(hours[..n], d)|] == last;
        if HourVerified(last, refunded) { SumAppend(VerifiedRows(OfDay(hours[..n], d), refunded), last.rows, f); }
        else { assert VerifiedRows(OfDay(hours, d), refunded) == VerifiedRows(OfDay(hours[..n], d), refunded); }
      } else {
        assert OfDay(hours, d) == OfDay(hours[..n], d);
      }
    }
  }

  lemma {:induction false} SumHoursAppend(s: Scope, a: seq<HourInput>, b: seq<HourInput>, f: Publication -> int)
    ensures SumHours(s, a + b, f) == SumHours(s, a, f) + SumHours(s, b, f)
    decreases |b|
  {
    if b == [] {
      assert a + b == a;
    } else {
      assert (a + b)[..|a| + |b| - 1] == a + b[..|b| - 1];
      SumHoursAppend(s, a, b[..|b| - 1], f);
    }
  }

  lemma {:induction false} SumOfAll(s: Scope, domains: seq<DomainInput>, f: Publication -> int)
    ensures SumHours(s, AllHours(domains), f) == SumOver(s, domains, f)
    decreases |domains|
  {
    if domains != [] {
      var n := |domains| - 1;
      SumOfAll(s, domains[..n], f);
      SumHoursAppend(s, AllHours(domains[..n]), domains[n].hours, f);
    }
  }
}
