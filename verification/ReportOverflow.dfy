/** Which additions of a report leave int64: the report fails exactly on one of them. */
module ReportOverflow {

  import opened Ledger
  import opened ReportFigures
  import opened ReportViews
  import opened ReportSums
  import opened ReportMeaning

  predicate Overflows(rows: seq<Publication>) { Absorbed(START, rows).Err? }

  /** The rows of a domain, all together or those of one channel. */
  ghost predicate RowsOverflow(rows: seq<Publication>) { Overflows(rows) || exists c :: Overflows(OfChannel(rows, c)) }

  ghost predicate HoursOverflow(hours: seq<HourInput>) {
    RowsOverflow(RowsOf(hours)) || exists h :: h in hours && Overflows(h.rows)
  }

  predicate DayOverflows(q: Query, hours: seq<HourInput>, d: int) {
    Overflows(VerifiedRows(OfDay(hours, d), q.refunded))
  }

  predicate DaysOverflow(q: Query, hours: seq<HourInput>) {
    exists d :: d in ReportDays(q) && DayOverflows(q, hours, d)
  }

  /** A domain of its own, or its addition to the site. */
  ghost predicate DomainOverflows(q: Query, domains: seq<DomainInput>, i: nat)
    requires i < |domains|
  {
    HoursOverflow(domains[i].hours)
        || !MergeFits(SiteAgg(domains[..i], q.refunded), DomainAgg(domains[i].hours, q.refunded))
  }

  ghost predicate SumOverflows(q: Query, domains: seq<DomainInput>) {
    (exists i :: 0 <= i < |domains| && DomainOverflows(q, domains, i)) || DaysOverflow(q, AllHours(domains))
  }

  // What overflows on a prefix overflows on the whole.

  lemma {:induction false} AbsorbedFails(start: Agg, rows: seq<Publication>, n: nat)
    requires n <= |rows| && Absorbed(start, rows[..n]).Err?
    ensures Absorbed(start, rows).Err?
    decreases |rows|
  {
    if n == |rows| {
      assert rows[..n] == rows;
    } else {
      assert rows[..|rows| - 1][..n] == rows[..n];
      AbsorbedFails(start, rows[..|rows| - 1], n);
    }
  }

  lemma OverflowStays(a: seq<Publication>, b: seq<Publication>)
    requires a <= b && Overflows(a)
    ensures Overflows(b)
  {
    assert b[..|a|] == a;
    AbsorbedFails(START, b, |a|);
  }

  lemma {:induction false} OfChannelPrefix(a: seq<Publication>, b: seq<Publication>, c: int)
    requires a <= b
    ensures OfChannel(a, c) <= OfChannel(b, c)
    decreases |b|
  {
    if |a| == |b| { assert a == b; } else { OfChannelPrefix(a, b[..|b| - 1], c); }
  }

  lemma RowsOverflowStays(a: seq<Publication>, b: seq<Publication>)
    requires a <= b && RowsOverflow(a)
    ensures RowsOverflow(b)
  {
    if Overflows(a) {
      OverflowStays(a, b);
    } else {
      var c :| Overflows(OfChannel(a, c));
      OfChannelPrefix(a, b, c);
      OverflowStays(OfChannel(a, c), OfChannel(b, c));
    }
  }

  lemma {:induction false} RowsOfPrefix(a: seq<HourInput>, b: seq<HourInput>)
    requires a <= b
    ensures RowsOf(a) <= RowsOf(b)
    decreases |b|
  {
    if |a| == |b| { assert a == b; } else { RowsOfPrefix(a, b[..|b| - 1]); }
  }

  lemma HoursOverflowStays(a: seq<HourInput>, b: seq<HourInput>)
    requires a <= b && HoursOverflow(a)
    ensures HoursOverflow(b)
  {
    if RowsOverflow(RowsOf(a)) {
      RowsOfPrefix(a, b);
      RowsOverflowStays(RowsOf(a), RowsOf(b));
    }
  }

  lemma {:induction false} OfDayPrefix(a: seq<HourInput>, b: seq<HourInput>, d: int)
    requires a <= b
    ensures OfDay(a, d) <= OfDay(b, d)
    decreases |b|
  {
    if |a| == |b| { assert a == b; } else { OfDayPrefix(a, b[..|b| - 1], d); }
  }

  lemma {:induction false} VerifiedRowsPrefix(a: seq<HourInput>, b: seq<HourInput>, refunded: set<int>)
    requires a <= b
    ensures VerifiedRows(a, refunded) <= VerifiedRows(b, refunded)
    decreases |b|
  {
    if |a| == |b| { assert a == b; } else { VerifiedRowsPrefix(a, b[..|b| - 1], refunded); }
  }

  lemma DaysOverflowStays(q: Query, a: seq<HourInput>, b: seq<HourInput>)
    requires a <= b && DaysOverflow(q, a)
    ensures DaysOverflow(q, b)
  {
    var d :| d in ReportDays(q) && DayOverflows(q, a, d);
    OfDayPrefix(a, b, d);
    VerifiedRowsPrefix(OfDay(a, d), OfDay(b, d), q.refunded);
    OverflowStays(VerifiedRows(OfDay(a, d), q.refunded), VerifiedRows(OfDay(b, d), q.refunded));
    assert DayOverflows(q, b, d);
  }

  lemma {:induction false} AllHoursPrefix(a: seq<DomainInput>, b: seq<DomainInput>)
    requires a <= b
    ensures AllHours(a) <= AllHours(b)
    decreases |b|
  {
    if |a| == |b| { assert a == b; } else { AllHoursPrefix(a, b[..|b| - 1]); }
  }

  /** Domains that are fine so far and one that is not. */
  lemma SumOverflowStays(q: Query, domains: seq<DomainInput>, i: nat)
    requires i < |domains|
    requires DomainOverflows(q, domains, i) || DaysOverflow(q, AllHours(domains[..i + 1]))
    ensures SumOverflows(q, domains)
  {
    if DaysOverflow(q, AllHours(domains[..i + 1])) {
      AllHoursPrefix(domains[..i + 1], domains);
      DaysOverflowStays(q, AllHours(domains[..i + 1]), AllHours(domains));
    }
  }

  // Overflow in terms of sums.

  /** Adding up these rows one by one, some sum leaves int64. */
  ghost predicate Leaves(rows: seq<Publication>) { exists n :: 0 <= n <= |rows| && !SumsInRange(rows[..n]) }

  ghost predicate SiteInRange(domains: seq<DomainInput>) {
    && InRange(SumOver(Whole, domains, Revenue)) && InRange(SumOver(Whole, domains, UpstreamCost))
    && InRange(SumOver(Whole, domains, ReportSums.Corrected)) && InRange(SumOver(Whole, domains, Profit))
    && InRange(SumOver(Whole, domains, PairedRevenue)) && InRange(SumOver(Whole, domains, PairedCorrected))
    && InRange(SumOver(Whole, domains, LocalRequests)) && InRange(SumOver(Whole, domains, UpstreamRequests))
    && InRange(SumOver(Whole, domains, RefundedRecords)) && InRange(SumOver(Whole, domains, ChargeUnits))
  }

  ghost predicate HoursLeave(hours: seq<HourInput>) {
    || Leaves(RowsOf(hours)) || (exists c :: Leaves(OfChannel(RowsOf(hours), c)))
    || exists h :: h in hours && Leaves(h.rows)
  }

  ghost predicate DomainLeaves(domains: seq<DomainInput>, i: nat)
    requires i < |domains|
  {
    HoursLeave(domains[i].hours) || !SiteInRange(domains[..i + 1])
  }

  /** Some sum of a domain, of its channels or hours, of a day, or of the first domains together. */
  ghost predicate SumsLeave(q: Query, domains: seq<DomainInput>) {
    || (exists i :: 0 <= i < |domains| && DomainLeaves(domains, i))
    || exists d :: d in ReportDays(q) && Leaves(VerifiedRows(OfDay(AllHours(domains), d), q.refunded))
  }

  lemma OverflowsIff(rows: seq<Publication>)
    ensures Overflows(rows) <==> Leaves(rows)
  {
    AbsorbedIff(rows);
  }

  lemma HoursOverflowIff(hours: seq<HourInput>)
    ensures HoursOverflow(hours) <==> HoursLeave(hours)
  {
    forall rows ensures Overflows(rows) <==> Leaves(rows) { OverflowsIff(rows); }
  }

  lemma AbsorbedInRange(rows: seq<Publication>)
    requires Absorbed(START, rows).Ok?
    ensures SumsInRange(rows)
  {
    AbsorbedIff(rows);
    assert rows[..|rows|] == rows;
  }

  lemma SameRange(domains: seq<DomainInput>, rows: seq<Publication>)
    requires EqualSums(Whole, domains, rows) && SumsInRange(rows)
    ensures SiteInRange(domains)
  {
  }

  lemma DomainInRange(x: DomainInput, refunded: set<int>)
    requires Absorbed(START, RowsOf(x.hours)).Ok?
    ensures SiteInRange([x]) && AggAdds(DomainAgg(x.hours, refunded), Whole, [x])
  {
    DomainSums(x);
    FiguresAdd(RowsOf(x.hours), Whole, [x]);
    AbsorbedInRange(RowsOf(x.hours));
    SameRange([x], RowsOf(x.hours));
  }

  lemma MergeFitsIff(a: Agg, b: Agg, before: seq<DomainInput>, last: DomainInput)
    requires AggAdds(a, Whole, before) && AggAdds(b, Whole, [last]) && SiteInRange(before)
    ensures MergeFits(a, b) <==> SiteInRange(before + [last])
  {
    MergedAdds(a, b, before, last);
  }

  lemma {:induction false} SitePrefixIn(q: Query, domains: seq<DomainInput>, n: nat)
    requires n <= |domains| && forall i :: 0 <= i < n ==> !DomainOverflows(q, domains, i)
    ensures SiteInRange(domains[..n]) && AggAdds(SiteAgg(domains[..n], q.refunded), Whole, domains[..n])
    decreases n
  {
    if n > 0 {
      SitePrefixIn(q, domains, n - 1);
      SiteStepIff(q, domains, n - 1);
      assert !DomainOverflows(q, domains, n - 1);
      var before, last := domains[..n - 1], domains[n - 1];
      assert domains[..n] == before + [last] && domains[..n][..n - 1] == before;
      DomainInRange(last, q.refunded);
      MergedAdds(SiteAgg(before, q.refunded), DomainAgg(last.hours, q.refunded), before, last);
    }
  }

  lemma SiteStepIff(q: Query, domains: seq<DomainInput>, i: nat)
    requires i < |domains| && SiteInRange(domains[..i])
    requires AggAdds(SiteAgg(domains[..i], q.refunded), Whole, domains[..i])
    ensures DomainOverflows(q, domains, i) <==> DomainLeaves(domains, i)
  {
    HoursOverflowIff(domains[i].hours);
    if !HoursOverflow(domains[i].hours) {
      DomainInRange(domains[i], q.refunded);
      assert domains[..i + 1] == domains[..i] + [domains[i]];
      MergeFitsIff(SiteAgg(domains[..i], q.refunded), DomainAgg(domains[i].hours, q.refunded), domains[..i],
          domains[i]);
    }
  }

  ghost predicate NoneOverflows(q: Query, domains: seq<DomainInput>, n: nat)
    requires n <= |domains|
  {
    forall i :: 0 <= i < n ==> !DomainOverflows(q, domains, i)
  }

  ghost predicate NoneLeaves(domains: seq<DomainInput>, n: nat)
    requires n <= |domains|
  {
    forall i :: 0 <= i < n ==> !DomainLeaves(domains, i)
  }

  lemma NoneStep(q: Query, domains: seq<DomainInput>, n: nat)
    requires n < |domains|
    ensures NoneOverflows(q, domains, n + 1) <==> NoneOverflows(q, domains, n) && !DomainOverflows(q, domains, n)
    ensures NoneLeaves(domains, n + 1) <==> NoneLeaves(domains, n) && !DomainLeaves(domains, n)
  {
  }

  /** Taken in order, the first domain that overflows is the first whose sums leave int64. */
  lemma {:induction false} DomainsOverflowIff(q: Query, domains: seq<DomainInput>, n: nat)
    requires n <= |domains|
    ensures NoneOverflows(q, domains, n) <==> NoneLeaves(domains, n)
    decreases n
  {
    if n > 0 {
      DomainsOverflowIff(q, domains, n - 1);
      NoneStep(q, domains, n - 1);
      if NoneOverflows(q, domains, n - 1) {
        SitePrefixIn(q, domains, n - 1);
        SiteStepIff(q, domains, n - 1);
      }
    }
  }

  lemma DaysOverflowIff(q: Query, hours: seq<HourInput>)
    ensures DaysOverflow(q, hours) <==>
      exists d :: d in ReportDays(q) && Leaves(VerifiedRows(OfDay(hours, d), q.refunded))
  {
    forall d ensures DayOverflows(q, hours, d) <==> Leaves(VerifiedRows(OfDay(hours, d), q.refunded)) {
      OverflowsIff(VerifiedRows(OfDay(hours, d), q.refunded));
    }
  }

  /** The additions of a report fail exactly when a sum leaves int64 on the way. */
  lemma SumOverflowsIff(q: Query, domains: seq<DomainInput>)
    ensures SumOverflows(q, domains) <==> SumsLeave(q, domains)
  {
    DomainsOverflowIff(q, domains, |domains|);
    DaysOverflowIff(q, AllHours(domains));
  }

  /** Where nothing overflows, every level was absorbed. */
  lemma FittingAbsorbs(q: Query, domains: seq<DomainInput>)
    requires !SumOverflows(q, domains)
    ensures Absorbs(q, domains)
  {
    forall x | x in domains
      ensures Absorbed(START, RowsOf(x.hours)).Ok? && DomainAbsorbs(x, ChannelsIn(RowsOf(x.hours)))
    {
      var i :| 0 <= i < |domains| && domains[i] == x;
      assert !DomainOverflows(q, domains, i);
      forall c ensures Absorbed(START, OfChannel(RowsOf(x.hours), c)).Ok? {
        assert !Overflows(OfChannel(RowsOf(x.hours), c));
      }
    }
    forall d | d in ReportDays(q)
      ensures Absorbed(START, VerifiedRows(OfDay(AllHours(domains), d), q.refunded)).Ok?
    {
      assert !DayOverflows(q, AllHours(domains), d);
    }
  }
}
