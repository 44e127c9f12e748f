/** What a published hour says, read off the facts alone: every figure, status and trace of every
    current row, and exactly which facts can be published. */
module LedgerMeaning {

  import opened Basics
  import opened Money
  import opened Ledger
  import opened LedgerHistory
  import opened LedgerTheorems

  // The figures of a row.

  function LocalOf(facts: Facts, c: int): Local { if c in facts.locals then facts.locals[c] else NO_LOCAL }

  predicate RefundOpen(facts: Facts) { facts.refund.records > 0 || facts.refund.quota > 0 }

  /** Revenue, cost and corrected cost: exactly 2 micro-USD per quota unit, and the nearest micro-USD
      of units/unit and of cost*paid/credit. */
  ghost predicate FiguresFollow(facts: Facts, cost: CostHour, finance: Finance, c: int, row: Row) {
    var net := LocalOf(facts, c).consume - LocalOf(facts, c).refund;
    && row.local == LocalOf(facts, c) && row.netQuota == net && row.revenue == 2 * net
    && row.chargeUnits == UnitsFor(facts, facts.evidence, c)
    && row.upstreamRequests == RequestsFor(facts, facts.evidence, c)
    && Nearest(row.upstreamCost, row.chargeUnits * (1_000_000 * cost.unit.den), cost.unit.num)
    && (finance.known ==>
          Nearest(row.corrected, row.upstreamCost * (finance.paid.num * finance.credit.den),
              finance.paid.den * finance.credit.num))
    && (!finance.known ==> row.corrected == 0)
    && row.correctedKnown == (finance.known && Owns(facts, facts.evidence, c))
    && row.financeVersion == finance.version
  }

  /** Why a row is or is not complete. A channel may have evidence, local traffic, both or neither;
      the first reason in the order of the source wins. */
  ghost predicate CoverageFollows(facts: Facts, finance: Finance, c: int, coverage: Coverage) {
    var owns, serves := Owns(facts, facts.evidence, c), c in facts.locals;
    match coverage
    case FinanceVersionMissing => !finance.known
    case RefundUnallocated => finance.known && RefundOpen(facts)
    case SupersededEmpty => finance.known && !RefundOpen(facts) && !owns && !serves
    case UnallocatedCost => finance.known && !RefundOpen(facts) && c == 0 && (owns || serves)
    case UpstreamCostMissing => finance.known && !RefundOpen(facts) && c != 0 && !owns && serves
    case LocalRevenueMissing => finance.known && !RefundOpen(facts) && c != 0 && owns && !serves
    case LocalFactUnverified => finance.known && !RefundOpen(facts) && c != 0 && owns && serves && !facts.verified
    case VerifiedComplete => finance.known && !RefundOpen(facts) && c != 0 && owns && serves && facts.verified
  }

  /** What the source hash of a row covers. */
  ghost predicate SourceFollows(facts: Facts, cost: CostHour, finance: Finance, c: int, row: Row) {
    var source := row.source;
    && source.costHash == cost.contentHash && source.unit == cost.unit && source.verified == facts.verified
    && source.local == row.local && source.refund == facts.refund && source.finance == finance
    && source.upstreamRequests == row.upstreamRequests && source.chargeUnits == row.chargeUnits
    && source.coverage == row.coverage
    && source.evidence == HashesFor(facts, facts.evidence, c)
    && forall part :: source.parts[part] == PartsFor(facts, facts.evidence, c, part)
  }

  lemma SignedIsTwice(net: int, revenue: int)
    requires SignedUnitsToMicro(net, QUOTA) == Ok(revenue)
    ensures revenue == 2 * net
  {
    if net >= 0 { NearestIsUnique(revenue, 2 * net, net * 1_000_000, 500_000); }
    else { NearestIsUnique(-revenue, -2 * net, -net * 1_000_000, 500_000); }
  }

  ghost predicate HeldBy(facts: Facts, c: int, acc: Acc) {
    && Attributed(facts, facts.evidence).Ok? && acc == FactsAcc(facts, c)
  }

  /** FactsAcc in terms of the facts. */
  lemma AccFollows(facts: Facts, c: int, acc: Acc)
    requires HeldBy(facts, c, acc)
    ensures acc.chargeUnits == UnitsFor(facts, facts.evidence, c)
    ensures acc.upstreamRequests == RequestsFor(facts, facts.evidence, c)
    ensures acc.hasCost <==> Owns(facts, facts.evidence, c)
    ensures acc.hasLocal <==> c in facts.locals
    ensures acc.unallocated <==> c == 0 && Owns(facts, facts.evidence, c)
    ensures acc.local == LocalOf(facts, c)
    ensures acc.costRows == HashesFor(facts, facts.evidence, c)
    ensures forall part :: acc.parts[part] == PartsFor(facts, facts.evidence, c, part)
  {
    AttributedIsExact(facts, facts.evidence, c);
    AttributedTraces(facts, facts.evidence, c);
    AttributedOk(facts, facts.evidence);
  }

  lemma FiguresOfRow(facts: Facts, cost: CostHour, finance: Finance, c: int, acc: Acc, row: Row)
    requires HeldBy(facts, c, acc) && RowOf(facts, cost, finance, c, acc) == Ok(row)
    ensures FiguresFollow(facts, cost, finance, c, row)
  {
    AccFollows(facts, c, acc);
    SignedIsTwice(row.netQuota, row.revenue);
  }

  lemma CoverageOfRow(facts: Facts, cost: CostHour, finance: Finance, c: int, acc: Acc, row: Row)
    requires HeldBy(facts, c, acc) && RowOf(facts, cost, finance, c, acc) == Ok(row)
    ensures CoverageFollows(facts, finance, c, row.coverage)
  {
    AccFollows(facts, c, acc);
  }

  lemma SourceOfRow(facts: Facts, cost: CostHour, finance: Finance, c: int, acc: Acc, row: Row)
    requires HeldBy(facts, c, acc) && RowOf(facts, cost, finance, c, acc) == Ok(row)
    ensures SourceFollows(facts, cost, finance, c, row)
  {
    AccFollows(facts, c, acc);
  }

  ghost predicate HeadFollows(book: Book, facts: Facts, cost: CostHour, finance: Finance, c: int) {
    && Head(book, Key(facts.slot, c)).Some?
    && var p := Head(book, Key(facts.slot, c)).value;
      && p.key == Key(facts.slot, c)
      && FiguresFollow(facts, cost, finance, c, p.row)
      && CoverageFollows(facts, finance, c, p.row.coverage)
      && SourceFollows(facts, cost, finance, c, p.row)
      && p.profitKnown == (p.row.coverage == VerifiedComplete)
      && p.profit == if p.profitKnown then p.row.revenue - p.row.corrected else 0
  }

  lemma HeadRowFollows(book: Book, facts: Facts, cost: CostHour, finance: Finance, c: int)
    requires RowsInv(book) && Attributed(facts, facts.evidence).Ok?
    requires ShowsFresh(book, facts, cost, finance, c, FactsAcc(facts, c))
    ensures HeadFollows(book, facts, cost, finance, c)
  {
    var p := Head(book, Key(facts.slot, c)).value;
    assert Filed(book.current[Key(facts.slot, c)].id, p);
    FiguresOfRow(facts, cost, finance, c, FactsAcc(facts, c), p.row);
    CoverageOfRow(facts, cost, finance, c, FactsAcc(facts, c), p.row);
    SourceOfRow(facts, cost, finance, c, FactsAcc(facts, c), p.row);
  }

  /** Whatever was published before, the current row of every channel of the hour says what the
      facts say: the units and requests of the evidence bound to the channel, the revenue of its own
      traffic, costs at the hour's unit and recharge terms, and why it is complete or not. */
  lemma {:induction false} HeadsSayTheFacts(attempts: seq<Facts>, facts: Facts, c: int)
    requires Publishes(History(attempts), facts)
    requires c in ChildChannels(History(attempts + [facts]), facts.slot)
    ensures HeadFollows(History(attempts + [facts]), facts, facts.cost.value, facts.finance.value, c)
  {
    assert (attempts + [facts])[..|attempts|] == attempts;
    HistoryInv(attempts);
    PublishHourKeepsInv(History(attempts), facts);
    HeadsFollowFacts(History(attempts), facts, c);
    HeadRowFollows(After(History(attempts), facts), facts, facts.cost.value, facts.finance.value, c);
  }
}
