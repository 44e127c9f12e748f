/** The report over a range of hours: one pass over the current manifests and their rows fills the
    aggregates of every hour, channel, domain, day and of the site. */
module ReportBuilder {

  import opened Basics
  import opened Money
  import opened Ledger
  import opened LedgerHistory
  import opened ReportFigures
  import opened ReportViews
  import opened ReportOverflow
  import ReportMeaning
  import S = ReportSums
  import T = LedgerTheorems

  lemma AllStep(rows: seq<Publication>, p: Publication)
    ensures AllCompleteOrEmpty(rows + [p]) <==> AllCompleteOrEmpty(rows) && CompleteOrEmpty(p)
  {
    assert p in rows + [p];
    assert forall q :: q in rows ==> q in rows + [p];
  }

  // The inner loops.

  /** The aggregates of one domain: its own, and per channel the aggregate and the row statuses. */
  datatype Tally = Tally(agg: Agg, channels: map<int, Agg>, statuses: map<int, set<Status>>)

  const EMPTY_TALLY := Tally(START, map[], map[])

  predicate ChannelIs(t: Tally, seen: seq<Publication>, c: int) {
    var own := OfChannel(seen, c);
    && (c in t.channels <==> own != []) && (c in t.statuses <==> own != [])
    && (c in t.channels ==> Absorbed(START, own) == Ok(t.channels[c]))
    && (c in t.statuses ==> t.statuses[c] == RowStatuses(own))
  }

  ghost predicate TallyOk(t: Tally, seen: seq<Publication>) {
    Absorbed(START, seen) == Ok(t.agg) && forall c :: ChannelIs(t, seen, c)
  }

  lemma OfChannelStep(seen: seq<Publication>, p: Publication, c: int)
    ensures OfChannel(seen + [p], c) == if p.key.channel == c then OfChannel(seen, c) + [p] else OfChannel(seen, c)
  {
    assert (seen + [p])[..|seen|] == seen;
  }

  lemma AbsorbedStep(start: Agg, rows: seq<Publication>, p: Publication)
    requires Absorbed(start, rows).Ok?
    ensures Absorbed(start, rows + [p]) == AddRow(Flagged(Absorbed(start, rows).value, p), p)
  {
    assert (rows + [p])[..|rows|] == rows;
  }

  function PutChannel(t: Tally, p: Publication, agg: Agg, next: Agg): Tally {
    var c := p.key.channel;
    var statuses := (if c in t.statuses then t.statuses[c] else {}) + {Of(Child(p.row.coverage))};
    Tally(agg, t.channels[c := next], t.statuses[c := statuses])
  }

  lemma ChannelStep(t: Tally, seen: seq<Publication>, p: Publication, agg: Agg, next: Agg, c: int)
    requires ChannelIs(t, seen, c)
    requires AddRow(Flagged(if p.key.channel in t.channels then t.channels[p.key.channel] else START, p), p) == Ok(next)
    ensures ChannelIs(PutChannel(t, p, agg, next), seen + [p], c)
  {
    OfChannelStep(seen, p, c);
    if c == p.key.channel {
      AbsorbedStep(START, OfChannel(seen, c), p);
      assert RowStatuses(OfChannel(seen, c) + [p]) == RowStatuses(OfChannel(seen, c)) + {Of(Child(p.row.coverage))};
    }
  }

  lemma ChannelAbsorbs(t: Tally, seen: seq<Publication>, p: Publication)
    requires TallyOk(t, seen)
    ensures Absorbed(START, OfChannel(seen + [p], p.key.channel)) ==
      AddRow(Flagged(if p.key.channel in t.channels then t.channels[p.key.channel] else START, p), p)
  {
    var c := p.key.channel;
    assert ChannelIs(t, seen, c);
    OfChannelStep(seen, p, c);
    AbsorbedStep(START, OfChannel(seen, c), p);
  }

  method AbsorbInto(t: Tally, p: Publication, ghost seen: seq<Publication>) returns (ok: bool, next: Tally)
    requires TallyOk(t, seen)
    ensures if ok then TallyOk(next, seen + [p]) else RowsOverflow(seen + [p])
  {
    var c := p.key.channel;
    AbsorbedStep(START, seen, p);
    ChannelAbsorbs(t, seen, p);
    var domainNext := AddRow(Flagged(t.agg, p), p);
    var channelNext := AddRow(Flagged(if c in t.channels then t.channels[c] else START, p), p);
    if domainNext.Err? || channelNext.Err? { return false, t; }
    next := PutChannel(t, p, domainNext.value, channelNext.value);
    forall k ensures ChannelIs(next, seen + [p], k) { ChannelStep(t, seen, p, domainNext.value, channelNext.value, k); }
    return true, next;
  }

  predicate HourSoFar(rows: seq<Publication>, hourAgg: Agg, complete: bool) {
    Absorbed(START, rows) == Ok(hourAgg) && (complete <==> AllCompleteOrEmpty(rows))
  }

  method HourStep(rows: seq<Publication>, i: nat, hourAgg: Agg, complete: bool)
    returns (ok: bool, nextAgg: Agg, nextComplete: bool)
    requires i < |rows| && HourSoFar(rows[..i], hourAgg, complete)
    ensures if ok then HourSoFar(rows[..i + 1], nextAgg, nextComplete) else Overflows(rows)
  {
    assert rows[..i + 1] == rows[..i] + [rows[i]] && rows[..i + 1][..i] == rows[..i];
    AllStep(rows[..i], rows[i]);
    var next := AddRow(Flagged(hourAgg, rows[i]), rows[i]);
    if next.Err? {
      OverflowStays(rows[..i + 1], rows);
      return false, hourAgg, complete;
    }
    return true, next.value, complete && CompleteOrEmpty(rows[i]);
  }

  /** The inner loop: every row goes into its domain, its hour and its channel. */
  method AbsorbRows(start: Tally, rows: seq<Publication>, ghost seen: seq<Publication>)
    returns (ok: bool, t: Tally, hourAgg: Agg, complete: bool)
    requires TallyOk(start, seen)
    ensures ok ==> TallyOk(t, seen + rows) && HourSoFar(rows, hourAgg, complete)
    ensures !ok ==> RowsOverflow(seen + rows) || Overflows(rows)
  {
    t, hourAgg, complete := start, START, true;
    ghost var read := seen;
    var i := 0;
    while i < |rows|
      invariant 0 <= i <= |rows|
      invariant read == seen + rows[..i] && TallyOk(t, read)
      invariant HourSoFar(rows[..i], hourAgg, complete)
    {
      assert rows[..i + 1] == rows[..i] + [rows[i]];
      assert read + [rows[i]] == seen + rows[..i + 1] <= seen + rows;
      var fits, next := AbsorbInto(t, rows[i], read);
      if !fits {
        RowsOverflowStays(read + [rows[i]], seen + rows);
        return false, t, hourAgg, complete;
      }
      var hourFits, nextAgg, nextComplete := HourStep(rows, i, hourAgg, complete);
      if !hourFits { return false, t, hourAgg, complete; }
      t, hourAgg, complete, read := next, nextAgg, nextComplete, read + [rows[i]];
      i := i + 1;
    }
    assert rows[..i] == rows;
    return true, t, hourAgg, complete;
  }

  /** The figures of a verified hour, added without looking at flags. */
  method AddVerifiedRows(start: Agg, rows: seq<Publication>) returns (r: Result<Agg>)
    requires RowsOk(rows) && AllCompleteOrEmpty(rows)
    ensures r == Absorbed(start, rows)
    ensures r.Ok? && Sound(start) ==> Sound(r.value)
  {
    var day := start;
    var i := 0;
    while i < |rows|
      invariant 0 <= i <= |rows|
      invariant Absorbed(start, rows[..i]) == Ok(day)
    {
      assert rows[..i + 1][..i] == rows[..i] && rows[i] in rows;
      FlagsUnaffected(day, rows[i]);
      var next := AddRow(day, rows[i]);
      if next.Err? {
        AbsorbedFails(start, rows, i + 1);
        return Err;
      }
      day := next.value;
      i := i + 1;
    }
    assert rows[..i] == rows;
    if Sound(start) { AbsorbedKeepsSound(start, rows); }
    return Ok(day);
  }

  // Days.

  predicate DayIs(a: Agg, own: seq<HourInput>, refunded: set<int>) {
    Absorbed(START, VerifiedRows(own, refunded)).Ok? && a == DayAgg(own, refunded)
  }

  lemma VerifiedDayStep(a: Agg, own: seq<HourInput>, h: HourInput, refunded: set<int>, next: Agg)
    requires DayIs(a, own, refunded) && RowsOk(h.rows) && HourVerified(h, refunded)
    requires Absorbed(a.(hasCorrected := true), h.rows) == Ok(next)
    ensures DayIs(next, own + [h], refunded)
  {
    var rows := VerifiedRows(own, refunded);
    var base := Absorbed(START, rows).value;
    SameAbsorbed(a.(hasCorrected := true), base, h.rows);
    AbsorbedAppend(START, rows, h.rows);
    assert (own + [h])[..|own|] == own;
    VerifiedStep(own, h, refunded);
  }

  lemma VerifiedDayFails(a: Agg, own: seq<HourInput>, h: HourInput, refunded: set<int>)
    requires DayIs(a, own, refunded) && RowsOk(h.rows) && HourVerified(h, refunded)
    requires Absorbed(a.(hasCorrected := true), h.rows).Err?
    ensures Overflows(VerifiedRows(own + [h], refunded))
  {
    var rows := VerifiedRows(own, refunded);
    var base := Absorbed(START, rows).value;
    assert (own + [h])[..|own|] == own;
    AbsorbedAppend(START, rows, h.rows);
    if Absorbed(base, h.rows).Ok? { SameAbsorbed(base, a.(hasCorrected := true), h.rows); }
  }

  lemma UnverifiedDayStep(a: Agg, own: seq<HourInput>, h: HourInput, refunded: set<int>)
    requires DayIs(a, own, refunded) && !HourVerified(h, refunded)
    ensures DayIs(a.(correctedKnown := false, profitKnown := false), own + [h], refunded)
  {
    assert (own + [h])[..|own|] == own;
    assert VerifiedRows(own + [h], refunded) == VerifiedRows(own, refunded);
    VerifiedStep(own, h, refunded);
  }

  lemma OfDayStep(hours: seq<HourInput>, h: HourInput, d: int)
    ensures OfDay(hours + [h], d) == if DayStart(h.hour) == d then OfDay(hours, d) + [h] else OfDay(hours, d)
  {
    assert (hours + [h])[..|hours|] == hours;
  }

  lemma CountedAppend(hours: seq<HourInput>, h: HourInput, expected: int, refunded: set<int>, withRefunds: bool)
    ensures Counted(hours + [h], expected, refunded, withRefunds) ==
      CountedHour(Counted(hours, expected, refunded, withRefunds), h, refunded, withRefunds)
  {
    assert (hours + [h])[..|hours|] == hours;
  }

  /** Aggregate and hours of a day. */
  datatype Day = Day(agg: Agg, hours: Hours)

  predicate DayHolds(q: Query, day: Day, done: seq<HourInput>, d: int) {
    DayIs(day.agg, OfDay(done, d), q.refunded) && day.hours == DayCounted(q, done, d)
  }

  predicate DaysHold(q: Query, days: map<int, Day>, done: seq<HourInput>) {
    days.Keys == ReportDays(q) && forall d :: d in days ==> DayHolds(q, days[d], done, d)
  }

  /** A day takes the rows of its verified hours only; any other hour leaves its figures unknown. */
  method AddToDay(q: Query, day: Day, h: HourInput, verified: bool, ghost done: seq<HourInput>)
    returns (ok: bool, next: Day)
    requires RowsOk(h.rows) && verified == HourVerified(h, q.refunded) && DayHolds(q, day, done, DayStart(h.hour))
    ensures if ok then DayHolds(q, next, done + [h], DayStart(h.hour))
      else DayOverflows(q, done + [h], DayStart(h.hour))
  {
    ghost var d := DayStart(h.hour);
    OfDayStep(done, h, d);
    CountedAppend(OfDay(done, d), h, DayExpected(q, d), q.refunded, true);
    var hours := CountedHour(day.hours, h, q.refunded, true);
    if verified {
      var added := AddVerifiedRows(day.agg.(hasCorrected := true), h.rows);
      if added.Err? {
        VerifiedDayFails(day.agg, OfDay(done, d), h, q.refunded);
        return false, day;
      }
      VerifiedDayStep(day.agg, OfDay(done, d), h, q.refunded, added.value);
      return true, Day(added.value, hours);
    }
    UnverifiedDayStep(day.agg, OfDay(done, d), h, q.refunded);
    return true, Day(day.agg.(correctedKnown := false, profitKnown := false), hours);
  }

  lemma OtherDays(q: Query, days: map<int, Day>, done: seq<HourInput>, h: HourInput, next: map<int, Day>)
    requires DaysHold(q, days, done)
    requires var d := DayStart(h.hour);
      if d in days then d in next && next == days[d := next[d]] && DayHolds(q, next[d], done + [h], d) else next == days
    ensures DaysHold(q, next, done + [h])
  {
    forall k | k in next ensures DayHolds(q, next[k], done + [h], k) {
      if k != DayStart(h.hour) {
        assert DayHolds(q, days[k], done, k);
        OfDayStep(done, h, k);
      }
    }
  }

  // The days of a range.

  lemma HoursInIs(from: int, to: int, n: nat)
    requires from + 3600 * n >= to && (n > 0 ==> from + 3600 * (n - 1) < to)
    ensures n == HoursIn(from, to)
  {
  }

  /** A day before any hour has been read. */
  function OpenDay(hours: nat, domains: nat): Day { Day(START, Hours(hours * domains, 0, 0, 0, 0, {})) }

  predicate Opened(from: int, n: nat, domains: nat, days: map<int, Day>) {
    days.Keys == DaysIn(from, n) && forall d :: d in days ==> days[d] == OpenDay(HoursOn(from, n, d), domains)
  }

  function OneMore(day: Day, domains: nat): Day { day.(hours := day.hours.(expected := day.hours.expected + domains)) }

  lemma OneMoreIs(hours: nat, domains: nat)
    ensures OneMore(OpenDay(hours, domains), domains) == OpenDay(hours + 1, domains)
    ensures OpenDay(0, domains) == Day(START, NO_HOURS)
  {
  }

  lemma {:induction false} NotOn(from: int, n: nat, d: int)
    requires d !in DaysIn(from, n)
    ensures HoursOn(from, n, d) == 0
    decreases n
  {
    if n > 0 {
      assert DaysIn(from, n - 1) <= DaysIn(from, n);
      NotOn(from, n - 1, d);
      assert DayStart(from + 3600 * (n - 1)) in DaysIn(from, n);
    }
  }

  lemma DaysInStep(from: int, n: nat)
    ensures DaysIn(from, n + 1) == DaysIn(from, n) + {DayStart(from + 3600 * n)}
  {
  }

  lemma OpenedStep(from: int, n: nat, domains: nat, days: map<int, Day>, d: int)
    requires Opened(from, n, domains, days) && d == DayStart(from + 3600 * n)
    ensures Opened(from, n + 1, domains,
      days[d := OneMore(if d in days then days[d] else Day(START, NO_HOURS), domains)])
  {
    DaysInStep(from, n);
    if d !in days { NotOn(from, n, d); }
    OneMoreIs(HoursOn(from, n, d), domains);
  }

  lemma OpenedHolds(q: Query, days: map<int, Day>)
    requires if q.finance then Opened(q.from, HoursIn(q.from, q.to), q.domains, days) else days == map[]
    ensures DaysHold(q, days, [])
  {
    assert Figures([]) == START;
  }

  method OpenDays(q: Query) returns (days: map<int, Day>)
    ensures DaysHold(q, days, [])
  {
    days := map[];
    if q.finance {
      var hour := q.from;
      ghost var n := 0;
      while hour < q.to
        invariant n >= 0 && hour == q.from + 3600 * n && (n > 0 ==> hour - 3600 < q.to)
        invariant Opened(q.from, n, q.domains, days)
      {
        var d := DayStart(hour);
        OpenedStep(q.from, n, q.domains, days, d);
        days := days[d := OneMore(if d in days then days[d] else Day(START, NO_HOURS), q.domains)];
        hour, n := hour + 3600, n + 1;
      }
      HoursInIs(q.from, q.to, n);
    }
    OpenedHolds(q, days);
  }

  class Builder {
    const q: Query
    var tally: Tally
    var counted: Hours
    var hourly: seq<Totals>
    var days: map<int, Day>
    ghost var seen: seq<HourInput>
    ghost var rows: seq<Publication>
    ghost var done: seq<HourInput>

    /** The aggregates of the domain at hand hold exactly the rows of the hours read so far. */
    ghost predicate DomainOk()
      reads `tally, `counted, `hourly, `seen, `rows
    {
      && TallyOk(tally, rows) && rows == RowsOf(seen) && (forall h :: h in seen ==> !Overflows(h.rows))
      && counted == Counted(seen, Expected(q), q.refunded, false)
      && hourly == if q.filtered then HourViews(seen, q.refunded) else []
    }

    constructor (q: Query, initial: map<int, Day>)
      ensures this.q == q && days == initial && done == []
    {
      this.q, days := q, initial;
      tally, counted, hourly, seen, rows, done := EMPTY_TALLY, NO_HOURS, [], [], [], [];
    }

    method StartDomain()
      modifies `tally, `counted, `hourly, `seen, `rows
      ensures DomainOk() && seen == []
    {
      tally, counted, hourly, seen, rows := EMPTY_TALLY, Hours(Expected(q), 0, 0, 0, 0, {}), [], [], [];
    }

    method CountHour(h: HourInput, hourAgg: Agg, verified: bool)
      requires verified == HourVerified(h, q.refunded) && Absorbed(START, h.rows) == Ok(hourAgg)
      requires counted == Counted(seen, Expected(q), q.refunded, false)
      requires hourly == if q.filtered then HourViews(seen, q.refunded) else []
      modifies `counted, `hourly
      ensures counted == Counted(seen + [h], Expected(q), q.refunded, false)
      ensures hourly == if q.filtered then HourViews(seen + [h], q.refunded) else []
    {
      CountedAppend(seen, h, Expected(q), q.refunded, false);
      counted := CountedHour(counted, h, q.refunded, false);
      if q.filtered {
        var own, blocked := CountedHour(Hours(1, 0, 0, 0, 0, {}), h, q.refunded, true), h.hour in q.refunded;
        hourly := hourly + [View(if verified then hourAgg.(hasCorrected := true) else hourAgg, own, blocked, blocked)];
        assert hourly == HourViews(seen + [h], q.refunded);
      }
    }

    method AddDay(h: HourInput, verified: bool) returns (ok: bool)
      requires RowsOk(h.rows) && verified == HourVerified(h, q.refunded) && DaysHold(q, days, done)
      modifies `days
      ensures if ok then DaysHold(q, days, done + [h]) else DaysOverflow(q, done + [h])
    {
      ghost var before := days;
      var d := DayStart(h.hour);
      if d in days {
        var added, day := AddToDay(q, days[d], h, verified, done);
        if !added { return false; }
        days := days[d := day];
      }
      OtherDays(q, before, done, h, days);
      return true;
    }

    /** The rows of one more hour, not yet counted. */
    method TallyHour(h: HourInput) returns (ok: bool, hourAgg: Agg, verified: bool)
      requires TallyOk(tally, rows)
      modifies `tally, `rows
      ensures ok ==> TallyOk(tally, rows) && rows == old(rows) + h.rows && Absorbed(START, h.rows) == Ok(hourAgg)
      ensures ok ==> verified == HourVerified(h, q.refunded)
      ensures !ok ==> RowsOverflow(old(rows) + h.rows) || Overflows(h.rows)
    {
      var absorbed, next, agg, complete := AbsorbRows(tally, h.rows, rows);
      if !absorbed { return false, START, false; }
      tally, rows := next, rows + h.rows;
      return true, agg, ManifestComplete(h) && ChildrenMatch(h) && complete && h.hour !in q.refunded;
    }

    /** The domain at hand takes one more hour. */
    method AddToDomain(h: HourInput) returns (ok: bool, verified: bool)
      requires DomainOk()
      modifies `tally, `counted, `hourly, `seen, `rows
      ensures ok ==> DomainOk() && seen == old(seen) + [h] && verified == HourVerified(h, q.refunded)
      ensures !ok ==> HoursOverflow(old(seen) + [h])
    {
      assert (seen + [h])[..|seen|] == seen && h in seen + [h];
      var tallied, hourAgg, hourVerified := TallyHour(h);
      if !tallied { return false, false; }
      CountHour(h, hourAgg, hourVerified);
      seen := seen + [h];
      return true, hourVerified;
    }

    method AddHour(h: HourInput) returns (ok: bool)
      requires DomainOk() && DaysHold(q, days, done) && RowsOk(h.rows)
      modifies this
      ensures ok ==> DomainOk() && DaysHold(q, days, done) && seen == old(seen) + [h] && done == old(done) + [h]
      ensures !ok ==> HoursOverflow(old(seen) + [h]) || DaysOverflow(q, old(done) + [h])
    {
      var verified;
      ok, verified := AddToDomain(h);
      if ok {
        ok := AddDay(h, verified);
        done := done + [h];
      }
    }

    method AddHours(hours: seq<HourInput>) returns (ok: bool)
      requires DomainOk() && DaysHold(q, days, done) && HoursOk(hours) && seen == []
      modifies this
      ensures ok ==> DomainOk() && DaysHold(q, days, done) && seen == hours && done == old(done) + hours
      ensures !ok ==> HoursOverflow(hours) || DaysOverflow(q, old(done) + hours)
    {
      var i := 0;
      while i < |hours|
        invariant 0 <= i <= |hours|
        invariant DomainOk() && DaysHold(q, days, done) && seen == hours[..i] && done == old(done) + hours[..i]
      {
        assert hours[i] in hours && hours[..i + 1] == hours[..i] + [hours[i]];
        assert done + [hours[i]] == old(done) + hours[..i + 1];
        var added := AddHour(hours[i]);
        if !added {
          PrefixOverflows(q, old(done), hours, i + 1);
          return false;
        }
        i := i + 1;
      }
      assert hours[..i] == hours;
      return true;
    }

    method ChannelViews(whole: Hours) returns (views: map<int, Totals>)
      requires DomainOk() && whole == DomainHours(seen, Expected(q), q.refunded)
      ensures views == map c | c in ChannelsIn(RowsOf(seen)) :: ChannelTotals(seen, Expected(q), q.refunded, c)
    {
      views := map[];
      var todo := tally.channels.Keys;
      while todo != {}
        invariant todo <= tally.channels.Keys
        invariant views.Keys == tally.channels.Keys - todo
        invariant forall c :: c in views ==> views[c] == ChannelTotals(seen, Expected(q), q.refunded, c)
        decreases todo
      {
        var c := MinOf(todo);
        assert ChannelIs(tally, rows, c);
        var own := whole.(statuses := tally.statuses[c] + whole.statuses);
        views := views[c := View(tally.channels[c], own, q.refunded != {}, q.refunded != {})];
        todo := todo - {c};
      }
      forall c ensures c in views <==> c in ChannelsIn(RowsOf(seen)) {
        assert ChannelIs(tally, rows, c);
        OfChannelOk(rows, c);
      }
    }

    method FinishDomain() returns (view: DomainView, agg: Agg)
      requires DomainOk()
      ensures view == DomainViewOf(seen, Expected(q), q.refunded, q.filtered)
      ensures agg == DomainAgg(seen, q.refunded)
    {
      var missing := if counted.expected > counted.published then counted.expected - counted.published else 0;
      var whole := counted.(missing := missing,
        statuses := counted.statuses + if missing > 0 then {PublicationMissing} else {});
      CountedIs(seen, Expected(q), q.refunded, false);
      agg := if counted.verified > 0 then tally.agg.(hasCorrected := true) else tally.agg;
      var channels := ChannelViews(whole);
      view := DomainView(View(agg, whole, q.refunded != {}, q.refunded != {}), whole, channels, hourly);
    }

    method BuildDomain(hours: seq<HourInput>) returns (ok: bool, view: DomainView, agg: Agg)
      requires HoursOk(hours) && DaysHold(q, days, done)
      modifies this
      ensures ok ==> DaysHold(q, days, done) && done == old(done) + hours
      ensures ok ==> view == DomainViewOf(hours, Expected(q), q.refunded, q.filtered)
      ensures ok ==> agg == DomainAgg(hours, q.refunded)
      ensures if ok then !HoursOverflow(hours) else HoursOverflow(hours) || DaysOverflow(q, old(done) + hours)
    {
      StartDomain();
      ok := AddHours(hours);
      if !ok { return false, DomainView(NOTHING, NO_HOURS, map[], []), START; }
      NothingOverflows();
      view, agg := FinishDomain();
    }

    lemma NothingOverflows()
      requires DomainOk()
      ensures !HoursOverflow(seen)
    {
      forall c ensures !Overflows(OfChannel(rows, c)) { assert ChannelIs(tally, rows, c); }
    }

    method ViewDay(d: int) returns (t: Totals)
      requires d in days && DayHolds(q, days[d], done, d)
      ensures t == DayTotals(q, done, d)
    {
      var hours := days[d].hours;
      var missing := if hours.expected > hours.published then hours.expected - hours.published else 0;
      hours := hours.(missing := missing,
          statuses := hours.statuses + if missing > 0 then {PublicationMissing} else {});
      var first := if q.from > d then q.from else d;
      var blocked := exists h :: h in q.refunded && q.from <= h < q.to && d <= h < d + DAY && (h - first) % 3600 == 0;
      t := View(days[d].agg, hours, blocked, blocked);
    }

    method DayViews() returns (views: map<int, Totals>)
      requires DaysHold(q, days, done)
      ensures views == map d | d in ReportDays(q) :: DayTotals(q, done, d)
    {
      views := map[];
      var todo := days.Keys;
      while todo != {}
        invariant todo <= days.Keys && views.Keys == days.Keys - todo
        invariant forall d :: d in views ==> views[d] == DayTotals(q, done, d)
        decreases todo
      {
        var d := MinOf(todo);
        var t := ViewDay(d);
        views := views[d := t];
        todo := todo - {d};
      }
    }

    method AddDomain(hours: seq<HourInput>, sum: Sum) returns (ok: bool, next: Sum)
      requires HoursOk(hours) && DaysHold(q, days, done)
      modifies this
      ensures ok ==> DaysHold(q, days, done) && done == old(done) + hours && next == SumWith(q, sum, hours)
      ensures ok ==> !HoursOverflow(hours) && MergeFits(sum.site, DomainAgg(hours, q.refunded))
      ensures !ok ==>
        HoursOverflow(hours) || DaysOverflow(q, old(done) + hours) || !MergeFits(sum.site, DomainAgg(hours, q.refunded))
    {
      var built, view, agg := BuildDomain(hours);
      if !built || !MergeFits(sum.site, agg) { return false, sum; }
      return true, Sum(sum.views + [view], Merged(sum.site, agg), JoinHours(sum.hours, view.hours));
    }

    /** The first n domains are in, and none of them overflowed. */
    ghost predicate Progress(domains: seq<DomainInput>, n: nat, sum: Sum)
      requires n <= |domains|
      reads this
    {
      && DaysHold(q, days, done) && done == AllHours(domains[..n]) && sum == SumOf(q, domains[..n], |domains|)
      && forall j :: 0 <= j < n ==> !DomainOverflows(q, domains, j)
    }

    method TakeDomain(domains: seq<DomainInput>, i: nat, sum: Sum) returns (ok: bool, next: Sum)
      requires i < |domains| && HoursOk(domains[i].hours) && Progress(domains, i, sum)
      modifies this
      ensures if ok then Progress(domains, i + 1, next) else SumOverflows(q, domains)
    {
      SumStep(q, domains, i);
      ok, next := AddDomain(domains[i].hours, sum);
      if !ok { SumOverflowStays(q, domains, i); }
    }

    method BuildDomains(domains: seq<DomainInput>) returns (ok: bool, sum: Sum)
      requires InputOk(domains) && DaysHold(q, days, done) && done == []
      modifies this
      ensures ok ==> Progress(domains, |domains|, sum)
      ensures !ok ==> SumOverflows(q, domains)
    {
      ok, sum := true, Sum([], START, Hours(Expected(q) * |domains|, 0, 0, 0, 0, {}));
      var i := 0;
      while i < |domains|
        invariant 0 <= i <= |domains| && Progress(domains, i, sum)
      {
        assert domains[i] in domains;
        ok, sum := TakeDomain(domains, i, sum);
        if !ok { return; }
        i := i + 1;
      }
      ok := true;
    }

    lemma AllTaken(domains: seq<DomainInput>, sum: Sum)
      requires Progress(domains, |domains|, sum)
      ensures DaysHold(q, days, done) && done == AllHours(domains) && sum == SumOf(q, domains, |domains|)
      ensures !SumOverflows(q, domains)
    {
      assert domains[..|domains|] == domains;
      forall d | d in ReportDays(q) ensures !DayOverflows(q, done, d) { assert DayHolds(q, days[d], done, d); }
    }
  }

  lemma PrefixOverflows(q: Query, before: seq<HourInput>, hours: seq<HourInput>, n: nat)
    requires n <= |hours| && (HoursOverflow(hours[..n]) || DaysOverflow(q, before + hours[..n]))
    ensures HoursOverflow(hours) || DaysOverflow(q, before + hours)
  {
    if HoursOverflow(hours[..n]) {
      HoursOverflowStays(hours[..n], hours);
    } else {
      DaysOverflowStays(q, before + hours[..n], before + hours);
    }
  }

  /** The views of some domains, and what they come to. */
  datatype Sum = Sum(views: seq<DomainView>, site: Agg, hours: Hours)

  function SumOf(q: Query, domains: seq<DomainInput>, all: nat): Sum {
    Sum(DomainViews(q, domains), SiteAgg(domains, q.refunded), SiteHours(domains, all, Expected(q), q.refunded))
  }

  function SumWith(q: Query, sum: Sum, hours: seq<HourInput>): Sum {
    var view := DomainViewOf(hours, Expected(q), q.refunded, q.filtered);
    Sum(sum.views + [view], Merged(sum.site, DomainAgg(hours, q.refunded)), JoinHours(sum.hours, view.hours))
  }

  lemma SumStep(q: Query, domains: seq<DomainInput>, i: nat)
    requires i < |domains|
    ensures AllHours(domains[..i + 1]) == AllHours(domains[..i]) + domains[i].hours
    ensures SumOf(q, domains[..i + 1], |domains|) == SumWith(q, SumOf(q, domains[..i], |domains|), domains[i].hours)
  {
    assert domains[..i + 1][..i] == domains[..i];
    assert DomainViews(q, domains[..i + 1]) ==
      DomainViews(q, domains[..i]) + [DomainViewOf(domains[i].hours, Expected(q), q.refunded, q.filtered)];
  }

  const NO_HOURS := Hours(0, 0, 0, 0, 0, {})
  const NOTHING := Totals(None, None, None, None, 0, 0, None, 0, 0, 0, 0, 0, 0, 0, 0, 0)

  // Refunds.

  predicate Counts(f: RefundFact) { f.records != 0 || f.quota != 0 }

  function RefundQuota(facts: seq<RefundFact>): int {
    if facts == [] then 0 else RefundQuota(facts[..|facts| - 1]) + facts[|facts| - 1].quota
  }

  function RefundHours(facts: seq<RefundFact>): set<int> { set f | f in facts && Counts(f) :: f.hour }

  function RefundRecords(facts: seq<RefundFact>): int {
    if facts == [] then 0 else RefundRecords(facts[..|facts| - 1]) + facts[|facts| - 1].records
  }

  predicate RefundOverflows(facts: seq<RefundFact>, i: nat)
    requires i < |facts|
  {
    Counts(facts[i]) && (!Fits(RefundRecords(facts[..i]), facts[i].records)
        || !Fits(RefundQuota(facts[..i]), facts[i].quota))
  }

  method SumRefunds(facts: seq<RefundFact>) returns (r: Result<(int, set<int>)>)
    ensures r.Ok? ==> r.value == (RefundQuota(facts), RefundHours(facts))
    ensures r.Err? <==> exists i :: 0 <= i < |facts| && RefundOverflows(facts, i)
  {
    var records, quota, hours := 0, 0, {};
    var i := 0;
    while i < |facts|
      invariant 0 <= i <= |facts|
      invariant records == RefundRecords(facts[..i]) && quota == RefundQuota(facts[..i])
      invariant hours == RefundHours(facts[..i])
      invariant forall j :: 0 <= j < i ==> !RefundOverflows(facts, j)
    {
      var f := facts[i];
      assert facts[..i + 1] == facts[..i] + [f] && facts[..i + 1][..i] == facts[..i];
      if Counts(f) {
        if !Fits(records, f.records) || !Fits(quota, f.quota) {
          assert RefundOverflows(facts, i);
          return Err;
        }
        records, quota, hours := records + f.records, quota + f.quota, hours + {f.hour};
      }
      assert RefundHours(facts[..i + 1]) == RefundHours(facts[..i]) + if Counts(f) then {f.hour} else {};
      i := i + 1;
    }
    assert facts[..i] == facts;
    return Ok((quota, hours));
  }

  lemma CountsIn(facts: seq<RefundFact>, f: RefundFact)
    requires f in facts && Counts(f)
    ensures f.hour in RefundHours(facts)
  {
  }

  lemma {:induction false} NoRefundHours(facts: seq<RefundFact>)
    requires RefundHours(facts) == {}
    ensures RefundQuota(facts) == 0
    decreases |facts|
  {
    if facts != [] {
      var n := |facts| - 1;
      if Counts(facts[n]) { CountsIn(facts, facts[n]); }
      assert RefundHours(facts[..n]) <= RefundHours(facts);
      NoRefundHours(facts[..n]);
    }
  }

  function QueryOf(
      from: int, to: int, domains: seq<DomainInput>, facts: seq<RefundFact>, filtered: bool, finance: bool): Query {
    Query(from, to, |domains|, RefundHours(facts), filtered, finance)
  }

  /** What the refunds without an owner take from the site. */
  function Taken(facts: seq<RefundFact>, filtered: bool): Result<int> {
    var micro := UnitsToMicro(RefundQuota(facts), QUOTA);
    if micro.Err? then Err else Ok(if filtered then 0 else micro.value)
  }

  /** Some addition of the report leaves int64. */
  ghost predicate ReportOverflows(q: Query, domains: seq<DomainInput>, facts: seq<RefundFact>) {
    || (exists i :: 0 <= i < |facts| && RefundOverflows(facts, i))
    || Taken(facts, q.filtered).Err?
    || SumOverflows(q, domains)
    || !Fits(SiteAgg(domains, q.refunded).revenue, -Taken(facts, q.filtered).value)
  }

  function Assembled(q: Query, sum: Sum, days: map<int, Totals>, taken: int): ReportView {
    var site := sum.site.(revenue := sum.site.revenue - taken);
    ReportView(sum.views, days, View(site, sum.hours, q.refunded != {}, q.refunded != {} && q.filtered), sum.hours)
  }

  lemma AssembledIs(q: Query, domains: seq<DomainInput>, days: map<int, Totals>, taken: int)
    requires days == map d | d in ReportDays(q) :: DayTotals(q, AllHours(domains), d)
    ensures Assembled(q, SumOf(q, domains, |domains|), days, taken) == ReportOf(q, domains, taken)
  {
  }

  method BuildFor(q: Query, domains: seq<DomainInput>, taken: int) returns (r: Result<ReportView>)
    requires InputOk(domains) && q.domains == |domains|
    ensures r.Err? <==> SumOverflows(q, domains) || !Fits(SiteAgg(domains, q.refunded).revenue, -taken)
    ensures r.Ok? ==> r.value == ReportOf(q, domains, taken)
  {
    var initial := OpenDays(q);
    var b := new Builder(q, initial);
    var ok, sum := b.BuildDomains(domains);
    if !ok { return Err; }
    b.AllTaken(domains, sum);
    if !Fits(sum.site.revenue, -taken) { return Err; }
    var days := b.DayViews();
    AssembledIs(q, domains, days, taken);
    return Ok(Assembled(q, sum, days, taken));
  }

  /** What a report over all the hours of some domains is asked: its refunded hours are those of the
      facts that record a refund. */
  function ReportQuery(
      from: int, to: int, domains: seq<DomainInput>, facts: seq<RefundFact>, filtered: bool, finance: bool): Query {
    Query(from, to, |domains|, set f | f in facts && (f.records != 0 || f.quota != 0) :: f.hour, filtered, finance)
  }

  lemma QueriesAgree(
      from: int, to: int, domains: seq<DomainInput>, facts: seq<RefundFact>, filtered: bool, finance: bool)
    ensures QueryOf(from, to, domains, facts, filtered, finance) ==
      ReportQuery(from, to, domains, facts, filtered, finance)
  {
    forall f ensures Counts(f) <==> f.records != 0 || f.quota != 0 {}
  }

  /** Refunds take 2 micro-USD per quota unit from the whole site, and nothing from a filtered one. */
  lemma TakenIsTwice(facts: seq<RefundFact>, filtered: bool)
    requires Taken(facts, filtered).Ok?
    ensures Taken(facts, filtered).value == if filtered then 0 else 2 * RefundQuota(facts)
    ensures RefundHours(facts) == {} ==> Taken(facts, filtered).value == 0
  {
    var quota := RefundQuota(facts);
    NearestIsUnique(UnitsToMicro(quota, QUOTA).value, 2 * quota, quota * 1_000_000, 500_000);
    if RefundHours(facts) == {} { NoRefundHours(facts); }
  }

  /** The report says what was read: sums of the rows at every level, shown exactly when the hours,
      manifests and rows of the level allow. */
  ghost predicate SaysItsInput(
      r: ReportView, from: int, to: int, domains: seq<DomainInput>, facts: seq<RefundFact>, filtered: bool,
      finance: bool)
  {
    ReportMeaning.ReportSays(r, ReportQuery(from, to, domains, facts, filtered, finance), domains,
        if filtered then 0 else 2 * RefundQuota(facts))
  }

  lemma BuiltSays(
      from: int, to: int, domains: seq<DomainInput>, facts: seq<RefundFact>, filtered: bool, finance: bool)
    requires InputOk(domains) && Taken(facts, filtered).Ok?
    requires !SumOverflows(QueryOf(from, to, domains, facts, filtered, finance), domains)
    ensures SaysItsInput(
      ReportOf(QueryOf(from, to, domains, facts, filtered, finance), domains, Taken(facts, filtered).value),
      from, to, domains, facts, filtered, finance)
  {
    var q := QueryOf(from, to, domains, facts, filtered, finance);
    FittingAbsorbs(q, domains);
    TakenIsTwice(facts, filtered);
    ReportMeaning.ReportOfSays(q, domains, Taken(facts, filtered).value);
    QueriesAgree(from, to, domains, facts, filtered, finance);
  }

  method BuildSpecified(
      from: int, to: int, domains: seq<DomainInput>, facts: seq<RefundFact>, filtered: bool, finance: bool)
    returns (r: Result<ReportView>)
    requires InputOk(domains)
    ensures r.Err? <==> ReportOverflows(QueryOf(from, to, domains, facts, filtered, finance), domains, facts)
    ensures r.Ok? ==>
      r.value == ReportOf(QueryOf(from, to, domains, facts, filtered, finance), domains, Taken(facts, filtered).value)
  {
    var refunds := SumRefunds(facts);
    if refunds.Err? { return Err; }
    var micro := UnitsToMicro(refunds.value.0, QUOTA);
    if micro.Err? { return Err; }
    var q := Query(from, to, |domains|, refunds.value.1, filtered, finance);
    r := BuildFor(q, domains, if filtered then 0 else micro.value);
  }

  lemma OverflowCovers(q: Query, domains: seq<DomainInput>, facts: seq<RefundFact>)
    requires !ReportOverflows(q, domains, facts)
    ensures Taken(facts, q.filtered).Ok? && !SumOverflows(q, domains)
  {
  }

  /** The report is, figure by figure, the one specified for the rows, manifests and refunds read, and
      says what they say; it fails exactly when an addition leaves int64, and without any domain it is
      empty. */
  method BuildReport(
      from: int, to: int, domains: seq<DomainInput>, facts: seq<RefundFact>, filtered: bool, finance: bool)
    returns (r: Result<ReportView>)
    requires InputOk(domains)
    ensures domains == [] ==> r == Ok(ReportView([], map[], NOTHING, NO_HOURS))
    ensures domains != [] ==>
      var q := QueryOf(from, to, domains, facts, filtered, finance);
      && (r.Err? <==> ReportOverflows(q, domains, facts))
      && (r.Ok? ==> r.value == ReportOf(q, domains, Taken(facts, filtered).value))
    ensures domains != [] && r.Ok? ==> SaysItsInput(r.value, from, to, domains, facts, filtered, finance)
  {
    if domains == [] { return Ok(ReportView([], map[], NOTHING, NO_HOURS)); }
    r := BuildSpecified(from, to, domains, facts, filtered, finance);
    if r.Ok? {
      OverflowCovers(QueryOf(from, to, domains, facts, filtered, finance), domains, facts);
      BuiltSays(from, to, domains, facts, filtered, finance);
    }
  }

  // When it fails.

  ghost predicate RefundsInRange(facts: seq<RefundFact>) {
    S.InRange(RefundRecords(facts)) && S.InRange(RefundQuota(facts))
  }

  ghost predicate NoRefundLeaves(facts: seq<RefundFact>, n: nat)
    requires n <= |facts|
  {
    forall i :: 0 <= i <= n ==> RefundsInRange(facts[..i])
  }

  lemma RefundStep(facts: seq<RefundFact>, i: nat)
    requires i < |facts| && RefundsInRange(facts[..i])
    ensures RefundOverflows(facts, i) <==> !RefundsInRange(facts[..i + 1])
  {
    assert facts[..i + 1][..i] == facts[..i];
    S.AddFits(RefundRecords(facts[..i]), facts[i].records);
    S.AddFits(RefundQuota(facts[..i]), facts[i].quota);
  }

  lemma {:induction false} RefundsOverflowIff(facts: seq<RefundFact>, n: nat)
    requires n <= |facts|
    ensures (forall i :: 0 <= i < n ==> !RefundOverflows(facts, i)) <==> NoRefundLeaves(facts, n)
    decreases n
  {
    assert facts[..0] == [];
    if n > 0 {
      RefundsOverflowIff(facts, n - 1);
      if NoRefundLeaves(facts, n - 1) {
        assert RefundsInRange(facts[..n - 1]);
        RefundStep(facts, n - 1);
      } else {
        assert !NoRefundLeaves(facts, n);
      }
    }
  }

  lemma TakenIff(facts: seq<RefundFact>, filtered: bool)
    ensures Taken(facts, filtered).Ok? <==> 0 <= 2 * RefundQuota(facts) <= MAX_INT64
  {
    var quota := RefundQuota(facts);
    RoundedIffRepresentable(quota * 1_000_000, 500_000, 2 * quota);
  }

  lemma SiteRevenue(q: Query, domains: seq<DomainInput>)
    requires !SumOverflows(q, domains)
    ensures S.InRange(SiteAgg(domains, q.refunded).revenue)
    ensures SiteAgg(domains, q.refunded).revenue == S.SumOver(S.Whole, domains, S.Revenue)
  {
    assert domains[..|domains|] == domains;
    SitePrefixIn(q, domains, |domains|);
  }

  /** A report fails exactly when refunds, sums of rows or the site's revenue leave int64, each taken in
      the order of the rows and domains, or when the refunds cannot be valued. */
  lemma ReportFailsIff(q: Query, domains: seq<DomainInput>, facts: seq<RefundFact>)
    ensures ReportOverflows(q, domains, facts) <==>
      || !NoRefundLeaves(facts, |facts|)
      || !(0 <= 2 * RefundQuota(facts) <= MAX_INT64)
      || SumsLeave(q, domains)
      || !S.InRange(S.SumOver(S.Whole, domains, S.Revenue) - if q.filtered then 0 else 2 * RefundQuota(facts))
  {
    RefundsOverflowIff(facts, |facts|);
    TakenIff(facts, q.filtered);
    SumOverflowsIff(q, domains);
    if Taken(facts, q.filtered).Ok? && !SumOverflows(q, domains) {
      TakenIsTwice(facts, q.filtered);
      SiteRevenue(q, domains);
      S.AddFits(SiteAgg(domains, q.refunded).revenue, -Taken(facts, q.filtered).value);
    }
  }

  lemma DomainsProfit(q: Query, domains: seq<DomainInput>)
    requires InputOk(domains)
    ensures forall i :: 0 <= i < |domains| ==>
      && DomainPaired(DomainViews(q, domains)[i])
      && (DomainViews(q, domains)[i].totals.profit.Some? <==> Complete(domains[i].hours, Expected(q), q.refunded))
  {
    forall i | 0 <= i < |domains|
      ensures DomainPaired(DomainViews(q, domains)[i])
      ensures DomainViews(q, domains)[i].totals.profit.Some? <==> Complete(domains[i].hours, Expected(q), q.refunded)
    {
      assert domains[i] in domains;
      DomainPairs(domains[i].hours, Expected(q), q.refunded, q.filtered);
    }
  }

  lemma DaysProfit(q: Query, domains: seq<DomainInput>)
    requires InputOk(domains)
    ensures forall d :: Paired(DayTotals(q, AllHours(domains), d))
    ensures forall d :: DayTotals(q, AllHours(domains), d).profit.Some? <==> DayComplete(q, AllHours(domains), d)
  {
    AllHoursOk(domains);
    forall d
      ensures Paired(DayTotals(q, AllHours(domains), d))
      ensures DayTotals(q, AllHours(domains), d).profit.Some? <==> DayComplete(q, AllHours(domains), d)
    {
      DayProfitIff(q, AllHours(domains), d);
    }
  }

  /** Wherever such a report shows a profit (channel, hour, domain, day or site) it shows revenue and
      corrected cost too, and the profit is their difference; and it shows a profit for a domain, a
      day and the site exactly when nothing of it is missing, unverified or refunded without owner. */
  lemma ReportProfits(
      from: int, to: int, domains: seq<DomainInput>, facts: seq<RefundFact>, filtered: bool, finance: bool)
    requires InputOk(domains) && Taken(facts, filtered).Ok?
    ensures var q := QueryOf(from, to, domains, facts, filtered, finance);
      var report := ReportOf(q, domains, Taken(facts, filtered).value);
      && AllPaired(report)
      && (forall i :: 0 <= i < |domains| ==>
            (report.domains[i].totals.profit.Some? <==> Complete(domains[i].hours, Expected(q), q.refunded)))
      && (forall d :: d in report.days ==> (report.days[d].profit.Some? <==> DayComplete(q, AllHours(domains), d)))
      && (report.site.profit.Some? <==> q.refunded == {} && AllComplete(domains, Expected(q), q.refunded))
  {
    var q := QueryOf(from, to, domains, facts, filtered, finance);
    TakenIsTwice(facts, filtered);
    SiteProfitIff(q, domains, Taken(facts, filtered).value);
    DomainsProfit(q, domains);
    DaysProfit(q, domains);
  }

  // The ledger's own rows.

  /** The hour as the report reads it: the current manifest and the heads joined to it. */
  function HourOfBook(book: Book, hour: HourKey): HourInput
    requires T.HasManifest(book, hour) && HeadsPresent(book, T.Authoritative(book, hour))
  {
    var slot := T.Authoritative(book, hour);
    HourInput(hour.hour, T.CurrentManifest(book, hour), Rows(book, slot, Ascending(ChildChannels(book, slot))))
  }

  lemma HeadFiled(book: Book, slot: Slot, c: int)
    requires StoredOk(book) && HeadsOk(book) && c in ChildChannels(book, slot)
    ensures Head(book, Key(slot, c)).Some?
    ensures var p := Head(book, Key(slot, c)).value; PublicationOk(p) && IdOf(p) == book.current[Key(slot, c)].id
  {
    var id := book.current[Key(slot, c)].id;
    assert id in book.publications && Filed(id, book.publications[id]);
  }

  /** In every history the report finds what it relies on: stored rows that keep the ledger's row
      invariant, and a manifest that matches them. */
  lemma LedgerHourIsReportable(attempts: seq<Facts>, hour: HourKey)
    requires hour in T.History(attempts).manifestCurrent
    ensures var book := T.History(attempts);
      && T.HasManifest(book, hour) && HeadsPresent(book, T.Authoritative(book, hour))
      && RowsOk(HourOfBook(book, hour).rows) && ChildrenMatch(HourOfBook(book, hour))
  {
    T.HistoryInv(attempts);
    var book := T.History(attempts);
    assert T.Describes(book, hour);
    BookHourIsReportable(book, hour);
  }

  lemma HeadsFiled(book: Book, slot: Slot)
    requires StoredOk(book) && HeadsOk(book)
    ensures HeadsPresent(book, slot)
    ensures forall c :: c in ChildChannels(book, slot) ==> HeadFits(book, slot, c)
  {
    forall c | c in ChildChannels(book, slot) ensures HeadFits(book, slot, c) { HeadFiled(book, slot, c); }
  }

  predicate HeadFits(book: Book, slot: Slot, c: int) {
    Head(book, Key(slot, c)).Some? && PublicationOk(Head(book, Key(slot, c)).value)
    && Key(slot, c) in book.current && IdOf(Head(book, Key(slot, c)).value) == book.current[Key(slot, c)].id
  }

  lemma RowsFit(book: Book, slot: Slot, channels: seq<int>)
    requires forall c :: c in channels <==> c in ChildChannels(book, slot)
    requires forall c :: c in channels ==> Head(book, Key(slot, c)).Some?
    requires forall c :: c in channels ==> HeadFits(book, slot, c)
    ensures RowsOk(Rows(book, slot, channels))
    ensures Children(book, slot) == set p | p in Rows(book, slot, channels) :: IdOf(p)
  {
    var rows := Rows(book, slot, channels);
    forall p | p in rows ensures PublicationOk(p) && IdOf(p) in Children(book, slot) {
      var i :| 0 <= i < |rows| && rows[i] == p;
      assert HeadFits(book, slot, channels[i]);
    }
    forall id | id in Children(book, slot) ensures exists p :: p in rows && IdOf(p) == id {
      var c :| c in ChildChannels(book, slot) && book.current[Key(slot, c)].id == id;
      assert HeadFits(book, slot, c);
      var i :| 0 <= i < |channels| && channels[i] == c;
      assert rows[i] in rows;
    }
  }

  lemma BookHourIsReportable(book: Book, hour: HourKey)
    requires StoredOk(book) && HeadsOk(book) && T.Describes(book, hour)
    ensures HeadsPresent(book, T.Authoritative(book, hour))
    ensures RowsOk(HourOfBook(book, hour).rows) && ChildrenMatch(HourOfBook(book, hour))
  {
    var slot := T.Authoritative(book, hour);
    HeadsFiled(book, slot);
    RowsFit(book, slot, Ascending(ChildChannels(book, slot)));
  }
}
