/** Exactly which facts can be published: nothing but a failed check or an amount outside int64
    stops the transaction of an hour. */
module LedgerAdmission {

  import opened Basics
  import opened Money
  import opened Ledger
  import opened LedgerHistory
  import opened LedgerTheorems
  import opened LedgerMeaning
  import opened LedgerManifests

  // Rounding and attribution.

  /** n/d to the nearest integer, halves upwards. */
  function HalfUp(n: int, d: int): int
    requires d > 0
  {
    (2 * n + d) / (2 * d)
  }

  lemma HalfUpIsNearest(n: int, d: int)
    requires d > 0
    ensures Nearest(HalfUp(n, d), n, d)
    ensures Rounded(n, d).Ok? <==> n >= 0 && HalfUp(n, d) <= MAX_INT64
    ensures Rounded(n, d).Ok? ==> Rounded(n, d).value == HalfUp(n, d)
  {
    var q := HalfUp(n, d);
    assert 2 * n + d == q * (2 * d) + (2 * n + d) % (2 * d);
    assert q * (2 * d) == 2 * (q * d);
    RoundedIffRepresentable(n, d, q);
    if Rounded(n, d).Ok? { NearestIsUnique(Rounded(n, d).value, q, n, d); }
  }

  ghost predicate AmountsFit(facts: Facts, rows: seq<Evidence>, c: int) {
    UnitsFor(facts, rows, c) <= MAX_INT64 && RequestsFor(facts, rows, c) <= MAX_INT64
  }

  lemma AddsIff(facts: Facts, before: seq<Evidence>, accs: map<int, Acc>, last: Evidence)
    requires Attributed(facts, before) == Ok(accs) && forall c :: AmountsFit(facts, before, c)
    ensures AddEvidence(facts, accs, last).Ok? <==> forall c :: AmountsFit(facts, before + [last], c)
  {
    var rows, owner := before + [last], ChannelOf(facts, last);
    assert rows[..|before|] == before;
    AttributedIsExact(facts, before, owner);
    forall c ensures Belongs(facts, last, c) <==> c == owner { BelongsToOne(facts, last, c); }
    forall c | c != owner ensures AmountsFit(facts, rows, c) {
      assert AmountsFit(facts, before, c);
    }
    assert AddEvidence(facts, accs, last).Ok? <==> AmountsFit(facts, rows, owner);
  }

  lemma {:induction false} AmountsGrow(facts: Facts, rows: seq<Evidence>, c: int)
    requires rows != []
    ensures AmountsFit(facts, rows, c) ==> AmountsFit(facts, rows[..|rows| - 1], c)
  {
  }

  /** Evidence can be attributed exactly when no channel's share of it leaves int64. */
  lemma {:induction false} AttributedIff(facts: Facts, rows: seq<Evidence>)
    ensures Attributed(facts, rows).Ok? <==> forall c :: AmountsFit(facts, rows, c)
    decreases |rows|
  {
    if rows != [] {
      var before := rows[..|rows| - 1];
      AttributedIff(facts, before);
      if forall c :: AmountsFit(facts, before, c) {
        AddsIff(facts, before, Attributed(facts, before).value, rows[|rows| - 1]);
        assert before + [rows[|rows| - 1]] == rows;
      } else {
        var c :| !AmountsFit(facts, before, c);
        AmountsGrow(facts, rows, c);
      }
    }
  }

  // One channel.

  /** The amounts of a channel, its costs rounded one after the other, stay inside int64; so does
      its profit when the row is complete. */
  ghost predicate ChannelFits(facts: Facts, cost: CostHour, finance: Finance, c: int)
    requires Positive(cost.unit)
  {
    var net := LocalOf(facts, c).consume - LocalOf(facts, c).refund;
    var upstream := HalfUp(UnitsFor(facts, facts.evidence, c) * (1_000_000 * cost.unit.den), cost.unit.num);
    && -MAX_INT64 <= 2 * net <= MAX_INT64 && upstream <= MAX_INT64
    && (finance.known ==>
          && Positive(finance.paid) && Positive(finance.credit)
          && HalfUp(upstream * (finance.paid.num * finance.credit.den), finance.paid.den * finance.credit.num)
              <= MAX_INT64
          && (CoverageFollows(facts, finance, c, VerifiedComplete) ==>
                2 * net - HalfUp(upstream * (finance.paid.num * finance.credit.den),
                  finance.paid.den * finance.credit.num) >= MIN_INT64))
  }

  lemma SignedFits(net: int)
    ensures SignedUnitsToMicro(net, QUOTA).Ok? <==> -MAX_INT64 <= 2 * net <= MAX_INT64
  {
    HalfUpIsNearest(net * 1_000_000, 500_000);
    HalfUpIsNearest(-net * 1_000_000, 500_000);
  }

  /** A row can be computed and published for the channel. */
  ghost predicate RowPublishes(facts: Facts, cost: CostHour, finance: Finance, c: int, acc: Acc) {
    var row := RowOf(facts, cost, finance, c, acc);
    row.Ok? && (row.value.coverage == VerifiedComplete ==> InInt64(row.value.revenue - row.value.corrected))
  }

  lemma UnitsNonnegative(facts: Facts, rows: seq<Evidence>, c: int)
    ensures UnitsFor(facts, rows, c) >= 0
  {
  }

  lemma ScaledNonnegative(x: int, y: int)
    requires x >= 0 && y >= 0
    ensures x * y >= 0
  {
  }

  lemma UpstreamFits(units: int, unit: Rat)
    requires units >= 0 && Positive(unit)
    ensures UnitsToMicro(units, unit).Ok? <==> HalfUp(units * (1_000_000 * unit.den), unit.num) <= MAX_INT64
    ensures UnitsToMicro(units, unit).Ok? ==>
      UnitsToMicro(units, unit).value == HalfUp(units * (1_000_000 * unit.den), unit.num)
  {
    HalfUpIsNearest(units * (1_000_000 * unit.den), unit.num);
    ScaledNonnegative(units, 1_000_000 * unit.den);
  }

  lemma CorrectionFits(cost: int, paid: Rat, credit: Rat)
    requires cost >= 0 && Positive(paid) && Positive(credit)
    ensures paid.den * credit.num > 0
    ensures Corrected(cost, paid, credit).Ok? <==>
      HalfUp(cost * (paid.num * credit.den), paid.den * credit.num) <= MAX_INT64
    ensures Corrected(cost, paid, credit).Ok? ==>
      Corrected(cost, paid, credit).value == HalfUp(cost * (paid.num * credit.den), paid.den * credit.num)
  {
    RatioPositive(paid, credit);
    HalfUpIsNearest(cost * (paid.num * credit.den), paid.den * credit.num);
    ScaledNonnegative(cost, paid.num * credit.den);
  }

  lemma RowPublishesIff(facts: Facts, cost: CostHour, finance: Finance, c: int, acc: Acc)
    requires Positive(cost.unit) && HeldBy(facts, c, acc)
    ensures RowPublishes(facts, cost, finance, c, acc) <==> ChannelFits(facts, cost, finance, c)
  {
    AccFollows(facts, c, acc);
    UnitsNonnegative(facts, facts.evidence, c);
    SignedFits(acc.local.consume - acc.local.refund);
    UpstreamFits(acc.chargeUnits, cost.unit);
    if RowOf(facts, cost, finance, c, acc).Ok? {
      var row := RowOf(facts, cost, finance, c, acc).value;
      CoverageOfRow(facts, cost, finance, c, acc, row);
      SignedIsTwice(row.netQuota, row.revenue);
    }
    var upstream := UnitsToMicro(acc.chargeUnits, cost.unit);
    if upstream.Ok? && finance.known && Positive(finance.paid) && Positive(finance.credit) {
      CorrectionFits(upstream.value, finance.paid, finance.credit);
    }
  }

  // The whole hour.

  lemma GenuineInRange(row: Row)
    requires Genuine(row)
    ensures InInt64(row.revenue) && 0 <= row.corrected
  {
  }

  lemma RevisedIff(book: Book, key: Key, row: Row)
    requires Genuine(row)
    ensures Revised(book, key, row).Ok? <==>
      (row.coverage == VerifiedComplete ==> InInt64(row.revenue - row.corrected))
  {
    GenuineInRange(row);
  }

  lemma RevisionIsNew(book: Book, key: Key, row: Row)
    requires ChainOk(book) && Revised(book, key, row).Ok?
    ensures IdOf(Revised(book, key, row).value) !in book.publications
  {
    var p := Revised(book, key, row).value;
    forall id | id in book.publications && id.key == key ensures id.revision < p.revision {
      assert Linked(book, id);
    }
  }

  lemma HeadFits(book: Book, key: Key, row: Row)
    requires StoredOk(book) && Head(book, key).Some? && Head(book, key).value.row == row
    ensures row.coverage == VerifiedComplete ==> InInt64(row.revenue - row.corrected)
  {
    assert Filed(book.current[key].id, Head(book, key).value);
  }

  lemma PublishRowIff(book: Book, key: Key, row: Row)
    requires RowsInv(book) && Genuine(row)
    ensures PublishRow(book, key, row).Ok? <==>
      (row.coverage == VerifiedComplete ==> InInt64(row.revenue - row.corrected))
  {
    RevisedIff(book, key, row);
    if key in book.current && Head(book, key).value.row.source == row.source {
      HeadIsGenuine(book, key);
      SameSourceSameRow(Head(book, key).value.row, row);
      HeadFits(book, key, row);
    } else if Revised(book, key, row).Ok? {
      RevisionIsNew(book, key, row);
    }
  }

  lemma {:induction false} PublishRowsIff(
      book: Book, facts: Facts, cost: CostHour, finance: Finance, accs: map<int, Acc>, channels: seq<int>)
    requires RowsInv(book) && AccsOk(accs) && (forall c :: c in channels ==> c in accs)
    ensures PublishRows(book, facts, cost, finance, accs, channels).Ok? <==>
      forall c :: c in channels ==> RowPublishes(facts, cost, finance, c, accs[c])
    decreases |channels|
  {
    if channels != [] {
      var n := |channels| - 1;
      var before, last := channels[..n], channels[n];
      assert channels == before + [last];
      PublishRowsIff(book, facts, cost, finance, accs, before);
      var middle, row :=
        PublishRows(book, facts, cost, finance, accs, before), RowOf(facts, cost, finance, last, accs[last]);
      if middle.Ok? && row.Ok? {
        PublishRowsKeepsInv(book, facts, cost, finance, accs, before);
        RowOfIsGenuine(facts, cost, finance, last, accs[last]);
        PublishRowIff(middle.value, Key(facts.slot, last), row.value);
      }
    }
  }

  /** The channels that get a row: those with evidence or traffic now, and those with a row before. */
  ghost predicate GetsRow(book: Book, facts: Facts, c: int) {
    || Owns(facts, facts.evidence, c) || c in facts.locals
    || exists id :: id in book.publications && id.key == Key(facts.slot, c)
  }

  /** Everything the transaction checks before it computes. */
  predicate MayPublish(facts: Facts) {
    && facts.slot.hour >= 0 && facts.slot.hour % 3600 == 0
    && (facts.authority == None || facts.authority == Some(facts.slot.epoch))
    && facts.cost.Some? && facts.cost.value.verified && facts.cost.value.matched
    && facts.cost.value.unit.num > 0 && facts.cost.value.unit.den > 0
    && facts.finance.Ok?
    && facts.refund.records >= 0 && facts.refund.quota >= 0
    && forall c :: c in facts.locals ==>
          && facts.locals[c].requests >= 0 && facts.locals[c].refundRecords >= 0
          && facts.locals[c].consume >= 0 && facts.locals[c].refund >= 0
  }

  lemma ChecksIff(facts: Facts)
    ensures MayPublish(facts) <==> Admitted(facts) && LocalsValid(facts)
  {
    if MayPublish(facts) {
      forall c | c in facts.locals ensures LocalValid(facts.locals[c]) {}
    }
    if Admitted(facts) && LocalsValid(facts) {
      forall c | c in facts.locals
        ensures && facts.locals[c].requests >= 0 && facts.locals[c].refundRecords >= 0
                && facts.locals[c].consume >= 0 && facts.locals[c].refund >= 0
      {
        assert LocalValid(facts.locals[c]);
      }
    }
  }

  lemma RowGetters(book: Book, facts: Facts, c: int)
    requires Accumulated(book, facts).Ok?
    ensures c in Accs(book, facts) <==> GetsRow(book, facts, c)
  {
    AccsKeys(book, facts);
    AttributedIsExact(facts, facts.evidence, c);
    if c in EverPublished(book, facts.slot) {
      var id :| id in book.publications && id.key.slot == facts.slot && id.key.channel == c;
      assert id.key == Key(facts.slot, c);
    }
  }

  lemma RowsIff(book: Book, facts: Facts)
    requires RowsInv(book) && MayPublish(facts) && Accumulated(book, facts).Ok?
    ensures var accs := Accs(book, facts);
      PublishRows(book, facts, facts.cost.value, facts.finance.value, accs, Ascending(accs.Keys)).Ok? <==>
          forall c :: GetsRow(book, facts, c) ==> ChannelFits(facts, facts.cost.value, facts.finance.value, c)
  {
    var accs, cost, finance := Accs(book, facts), facts.cost.value, facts.finance.value;
    AccumulatedOk(book, facts);
    AccsKeys(book, facts);
    PublishRowsIff(book, facts, cost, finance, accs, Ascending(accs.Keys));
    forall c ensures c in accs <==> GetsRow(book, facts, c) { RowGetters(book, facts, c); }
    forall c | c in accs
      ensures RowPublishes(facts, cost, finance, c, accs[c]) <==> ChannelFits(facts, cost, finance, c)
    {
      RowPublishesIff(facts, cost, finance, c, accs[c]);
    }
  }

  lemma HeadsArePresent(book: Book, slot: Slot)
    requires HeadsOk(book)
    ensures HeadsPresent(book, slot)
  {
    forall c | c in ChildChannels(book, slot) ensures Head(book, Key(slot, c)).Some? {
      assert Key(slot, c) in book.current;
    }
  }

  lemma ManifestFollows(book: Book, facts: Facts, rows: Book)
    requires RowsInv(book) && ManifestChain(book) && Accumulated(book, facts).Ok? && MayPublish(facts)
    requires PublishRows(book, facts, facts.cost.value, facts.finance.value, Accs(book, facts),
               Ascending(Accs(book, facts).Keys)) == Ok(rows)
    ensures PublishManifest(rows, facts, facts.cost.value).Ok?
  {
    AccumulatedOk(book, facts);
    PublishRowsKeepsInv(book, facts, facts.cost.value, facts.finance.value, Accs(book, facts),
        Ascending(Accs(book, facts).Keys));
    PublishRowsEffect(book, facts, facts.cost.value, facts.finance.value, Accs(book, facts),
        Ascending(Accs(book, facts).Keys));
    SameManifestsChain(book, rows);
    HeadsArePresent(rows, facts.slot);
    ManifestStep(rows, facts, facts.cost.value);
  }

  lemma AccumulatedIff(book: Book, facts: Facts)
    ensures Accumulated(book, facts).Ok? <==>
      LocalsValid(facts) && forall c :: AmountsFit(facts, facts.evidence, c)
  {
    AttributedIff(facts, facts.evidence);
  }

  lemma PublishesFrom(book: Book, facts: Facts)
    requires RowsInv(book) && ManifestChain(book) && MayPublish(facts) && Accumulated(book, facts).Ok?
    ensures Publishes(book, facts) <==>
      forall c :: GetsRow(book, facts, c) ==> ChannelFits(facts, facts.cost.value, facts.finance.value, c)
  {
    ChecksIff(facts);
    RowsIff(book, facts);
    var rows := PublishRows(book, facts, facts.cost.value, facts.finance.value, Accs(book, facts),
      Ascending(Accs(book, facts).Keys));
    if rows.Ok? { ManifestFollows(book, facts, rows.value); }
  }

  /** After any history an hour is published exactly when its checks hold and every amount fits:
      a missing head, a taken identity or a lost manifest never stops it. */
  lemma {:induction false} PublishesIff(attempts: seq<Facts>, facts: Facts)
    ensures Publishes(History(attempts), facts) <==>
      && MayPublish(facts)
      && (forall c :: AmountsFit(facts, facts.evidence, c))
      && forall c :: GetsRow(History(attempts), facts, c) ==>
            ChannelFits(facts, facts.cost.value, facts.finance.value, c)
  {
    var book := History(attempts);
    HistoryInv(attempts);
    HistoryChain(attempts);
    ChecksIff(facts);
    AccumulatedIff(book, facts);
    if MayPublish(facts) && Accumulated(book, facts).Ok? { PublishesFrom(book, facts); }
  }

  /** The current rows of a published hour: one for every channel with evidence or traffic now or a
      row before, and for no other. */
  lemma {:induction false} HourGetsRows(attempts: seq<Facts>, facts: Facts, c: int)
    requires Publishes(History(attempts), facts)
    ensures Key(facts.slot, c) in History(attempts + [facts]).current <==> GetsRow(History(attempts), facts, c)
  {
    assert (attempts + [facts])[..|attempts|] == attempts;
    HistoryInv(attempts);
    HourChannels(History(attempts), facts);
    RowGetters(History(attempts), facts, c);
    var after := History(attempts + [facts]);
    assert Key(facts.slot, c) in after.current <==> c in ChildChannels(after, facts.slot);
  }
}
