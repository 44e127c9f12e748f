/** What every history of publications keeps: figures that follow from their source, an unbroken
    chain of revisions per channel, heads that add up to the evidence, and manifests that describe
    exactly the current heads. */
module LedgerHistory {

  import opened Basics
  import opened Money
  import opened Ledger

  // Figures.

  predicate AccOk(acc: Acc) {
    && acc.chargeUnits >= 0 && acc.upstreamRequests >= 0
    && (acc.hasCost <==> acc.costRows != [])
    && (!acc.hasCost ==> acc.chargeUnits == 0 && acc.upstreamRequests == 0)
    && (!acc.hasLocal ==> acc.local == NO_LOCAL)
  }

  predicate AccsOk(accs: map<int, Acc>) { forall c :: c in accs ==> AccOk(accs[c]) }

  /** The figures of a row are functions of what its source hash covers. */
  predicate Genuine(row: Row) {
    var source := row.source;
    && row.local == source.local
    && row.netQuota == source.local.consume - source.local.refund
    && SignedUnitsToMicro(row.netQuota, QUOTA) == Ok(row.revenue)
    && row.chargeUnits == source.chargeUnits
    && row.upstreamRequests == source.upstreamRequests
    && UnitsToMicro(source.chargeUnits, source.unit) == Ok(row.upstreamCost)
    && (if source.finance.known then Corrected(row.upstreamCost, source.finance.paid, source.finance.credit)
          else Ok(0)) == Ok(row.corrected)
    && row.correctedKnown == (source.evidence != [] && source.finance.known)
    && row.coverage == source.coverage
    && row.financeVersion == source.finance.version
    && (row.coverage == VerifiedComplete ==> row.correctedKnown)
    && (row.coverage == SupersededEmpty ==>
          source.evidence == [] && source.local == NO_LOCAL && source.chargeUnits == 0 && source.upstreamRequests == 0)
  }

  predicate PublicationOk(p: Publication) {
    && Genuine(p.row)
    && p.profitKnown == (p.row.coverage == VerifiedComplete)
    && (p.profitKnown ==> p.row.correctedKnown && p.profit == p.row.revenue - p.row.corrected && InInt64(p.profit))
    && (!p.profitKnown ==> p.profit == 0)
  }

  lemma RowOfIsGenuine(facts: Facts, cost: CostHour, finance: Finance, channel: int, acc: Acc)
    requires AccOk(acc) && RowOf(facts, cost, finance, channel, acc).Ok?
    ensures Genuine(RowOf(facts, cost, finance, channel, acc).value)
  {
  }

  lemma ZeroConverts(unit: Rat)
    ensures UnitsToMicro(0, unit).Ok? ==> UnitsToMicro(0, unit).value == 0
  {
    if UnitsToMicro(0, unit).Ok? { NearestIsUnique(UnitsToMicro(0, unit).value, 0, 0, unit.num); }
  }

  /** A superseded row carries nothing: leaving it out of a sum changes no sum. */
  lemma SupersededIsZero(p: Publication)
    requires PublicationOk(p) && p.row.coverage == SupersededEmpty
    ensures p.row.revenue == p.row.upstreamCost == p.row.corrected == p.profit == 0
    ensures p.row.chargeUnits == p.row.upstreamRequests == p.row.netQuota == 0
    ensures !p.profitKnown && !p.row.correctedKnown
  {
    ZeroConverts(QUOTA);
    ZeroConverts(p.row.source.unit);
    if p.row.source.finance.known {
      var paid, credit := p.row.source.finance.paid, p.row.source.finance.credit;
      RatioPositive(paid, credit);
      NearestIsUnique(p.row.corrected, 0, 0, paid.den * credit.num);
    }
  }

  // Revisions.

  predicate StoredOk(book: Book) {
    forall id :: id in book.publications ==> Filed(id, book.publications[id])
  }

  predicate HeadsOk(book: Book) {
    forall key :: key in book.current ==>
      && book.current[key].id in book.publications
      && book.current[key].id.key == key
      && book.current[key].id.revision == book.current[key].revision
  }

  /** Every revision is reachable from its head, one superseded revision after another. */
  predicate ChainOk(book: Book) {
    forall id :: id in book.publications ==> Linked(book, id)
  }

  predicate Predecessor(book: Book, id: Id, supersedes: Option<Id>) {
    if supersedes.None? then id.revision == 1
    else
      && supersedes.value in book.publications
      && supersedes.value.key == id.key && supersedes.value.revision == id.revision - 1
  }

  ghost predicate RevisionsDistinct(book: Book) {
    forall i, j :: i in book.publications && j in book.publications && i.key == j.key && i.revision == j.revision ==>
        i == j
  }

  ghost predicate RowsInv(book: Book) { StoredOk(book) && HeadsOk(book) && ChainOk(book) && RevisionsDistinct(book) }

  /** Nothing published is ever altered or removed. */
  ghost predicate Extends(before: Book, after: Book) {
    && (forall id :: id in before.publications ==>
          id in after.publications && after.publications[id] == before.publications[id])
    && (forall id :: id in before.manifests ==> id in after.manifests && after.manifests[id] == before.manifests[id])
    && (forall key :: key in before.current ==> key in after.current)
  }

  predicate HasRow(book: Book, key: Key, row: Row) { Head(book, key).Some? && Head(book, key).value.row == row }

  /** Only the heads of the given keys may have moved. */
  ghost predicate OthersKept(before: Book, after: Book, keys: set<Key>) {
    && after.current.Keys == before.current.Keys + keys
    && (forall key :: key in before.current && key !in keys ==> after.current[key] == before.current[key])
    && after.manifests == before.manifests && after.manifestCurrent == before.manifestCurrent
  }

  /** p continues the revisions of its key. */
  ghost predicate Continues(book: Book, p: Publication) {
    && IdOf(p) !in book.publications
    && p.revision == (if p.key in book.current then book.current[p.key].revision else 0) + 1
    && p.supersedes == (if p.key in book.current then Some(book.current[p.key].id) else None)
    && PublicationOk(p)
  }

  predicate Filed(id: Id, p: Publication) {
    p.key == id.key && p.revision == id.revision && p.row.source == id.source && PublicationOk(p)
  }

  lemma AppendKeepsStored(book: Book, p: Publication)
    requires StoredOk(book) && Continues(book, p)
    ensures StoredOk(Appended(book, p))
  {
    assert Filed(IdOf(p), p);
  }

  lemma AppendKeepsHeads(book: Book, p: Publication)
    requires HeadsOk(book) && Continues(book, p)
    ensures HeadsOk(Appended(book, p))
  {
  }

  predicate Linked(book: Book, id: Id)
    requires id in book.publications
  {
    && id.key in book.current && 1 <= id.revision <= book.current[id.key].revision
    && Predecessor(book, id, book.publications[id].supersedes)
  }

  lemma AppendLinks(book: Book, p: Publication)
    requires HeadsOk(book) && ChainOk(book) && Continues(book, p)
    ensures IdOf(p) in Appended(book, p).publications && Linked(Appended(book, p), IdOf(p))
  {
    if p.key in book.current {
      assert book.current[p.key].id in book.publications;
      assert Linked(book, book.current[p.key].id);
    }
  }

  lemma AppendKeepsLink(book: Book, p: Publication, id: Id)
    requires ChainOk(book) && Continues(book, p) && id in book.publications
    ensures id in Appended(book, p).publications && Linked(Appended(book, p), id)
  {
    assert Linked(book, id);
  }

  lemma AppendKeepsChain(book: Book, p: Publication)
    requires HeadsOk(book) && ChainOk(book) && Continues(book, p)
    ensures ChainOk(Appended(book, p))
  {
    forall id | id in Appended(book, p).publications ensures Linked(Appended(book, p), id) {
      if id == IdOf(p) { AppendLinks(book, p); } else { AppendKeepsLink(book, p, id); }
    }
  }

  lemma AppendKeepsDistinct(book: Book, p: Publication)
    requires ChainOk(book) && RevisionsDistinct(book) && Continues(book, p)
    ensures RevisionsDistinct(Appended(book, p))
  {
  }

  lemma AppendEffect(book: Book, p: Publication)
    requires Continues(book, p)
    ensures Extends(book, Appended(book, p)) && OthersKept(book, Appended(book, p), {p.key})
    ensures HasRow(Appended(book, p), p.key, p.row)
  {
  }

  lemma RevisedContinues(book: Book, key: Key, row: Row)
    requires Genuine(row) && Revised(book, key, row).Ok? && IdOf(Revised(book, key, row).value) !in book.publications
    ensures Continues(book, Revised(book, key, row).value)
  {
  }

  /** An equal source means equal figures, so keeping the head is as good as a new revision. */
  lemma SameSourceSameRow(a: Row, b: Row)
    requires Genuine(a) && Genuine(b) && a.source == b.source
    ensures a == b
  {
  }

  ghost predicate Moved(before: Book, after: Book, keys: set<Key>) {
    Extends(before, after) && OthersKept(before, after, keys)
  }

  lemma HeadIsGenuine(book: Book, key: Key)
    requires StoredOk(book) && Head(book, key).Some?
    ensures Genuine(Head(book, key).value.row)
  {
    assert PublicationOk(Head(book, key).value);
  }

  lemma NothingMoves(book: Book, key: Key)
    requires key in book.current
    ensures Moved(book, book, {key})
  {
    assert book.current.Keys + {key} == book.current.Keys;
  }

  lemma PublishRowKeepsInv(book: Book, key: Key, row: Row)
    requires RowsInv(book) && Genuine(row) && PublishRow(book, key, row).Ok?
    ensures RowsInv(PublishRow(book, key, row).value)
  {
    if !(key in book.current && Head(book, key).value.row.source == row.source) {
      var p := Revised(book, key, row).value;
      RevisedContinues(book, key, row);
      AppendKeepsStored(book, p);
      AppendKeepsHeads(book, p);
      AppendKeepsChain(book, p);
      AppendKeepsDistinct(book, p);
    }
  }

  lemma PublishRowEffect(book: Book, key: Key, row: Row)
    requires StoredOk(book) && Genuine(row) && PublishRow(book, key, row).Ok?
    ensures Moved(book, PublishRow(book, key, row).value, {key}) && HasRow(PublishRow(book, key, row).value, key, row)
  {
    if key in book.current && Head(book, key).value.row.source == row.source {
      HeadIsGenuine(book, key);
      SameSourceSameRow(Head(book, key).value.row, row);
      NothingMoves(book, key);
    } else {
      RevisedContinues(book, key, row);
      AppendEffect(book, Revised(book, key, row).value);
    }
  }

  function KeysOf(slot: Slot, channels: seq<int>): set<Key> { set c | c in channels :: Key(slot, c) }

  lemma OthersKeptCompose(a: Book, b: Book, c: Book, keys: set<Key>, more: set<Key>)
    requires OthersKept(a, b, keys) && OthersKept(b, c, more)
    ensures OthersKept(a, c, keys + more)
  {
  }

  lemma HasRowKept(before: Book, after: Book, key: Key, row: Row, moved: Key)
    requires HasRow(before, key, row) && Extends(before, after) && OthersKept(before, after, {moved}) && key != moved
    ensures HasRow(after, key, row)
  {
  }

  /** c's head shows the row computed from the given facts. */
  predicate ShowsFresh(book: Book, facts: Facts, cost: CostHour, finance: Finance, c: int, acc: Acc) {
    var row := RowOf(facts, cost, finance, c, acc);
    row.Ok? && HasRow(book, Key(facts.slot, c), row.value)
  }

  predicate AllFresh(
      book: Book, facts: Facts, cost: CostHour, finance: Finance, accs: map<int, Acc>, channels: seq<int>)
    requires forall c :: c in channels ==> c in accs
  {
    forall c :: c in channels ==> ShowsFresh(book, facts, cost, finance, c, accs[c])
  }

  lemma FreshStep(
      middle: Book, after: Book, facts: Facts, cost: CostHour, finance: Finance, accs: map<int, Acc>,
      channels: seq<int>, last: int)
    requires last in accs && (forall c :: c in channels ==> c in accs)
    requires RowOf(facts, cost, finance, last, accs[last]).Ok?
    requires AllFresh(middle, facts, cost, finance, accs, channels)
    requires Extends(middle, after) && OthersKept(middle, after, {Key(facts.slot, last)})
    requires HasRow(after, Key(facts.slot, last), RowOf(facts, cost, finance, last, accs[last]).value)
    ensures AllFresh(after, facts, cost, finance, accs, channels + [last])
  {
    forall c | c in channels + [last] ensures ShowsFresh(after, facts, cost, finance, c, accs[c]) {
      if c != last {
        assert ShowsFresh(middle, facts, cost, finance, c, accs[c]);
        HasRowKept(middle, after, Key(facts.slot, c), RowOf(facts, cost, finance, c, accs[c]).value,
            Key(facts.slot, last));
      }
    }
  }

  lemma MovedCompose(a: Book, b: Book, c: Book, keys: set<Key>, more: set<Key>)
    requires Moved(a, b, keys) && Moved(b, c, more)
    ensures Moved(a, c, keys + more)
  {
    OthersKeptCompose(a, b, c, keys, more);
  }

  lemma {:induction false} PublishRowsKeepsInv(
      book: Book, facts: Facts, cost: CostHour, finance: Finance, accs: map<int, Acc>, channels: seq<int>)
    requires RowsInv(book) && AccsOk(accs) && (forall c :: c in channels ==> c in accs)
    requires PublishRows(book, facts, cost, finance, accs, channels).Ok?
    ensures RowsInv(PublishRows(book, facts, cost, finance, accs, channels).value)
    decreases |channels|
  {
    if channels != [] {
      var n := |channels| - 1;
      var last, before := channels[n], channels[..n];
      PublishRowsKeepsInv(book, facts, cost, finance, accs, before);
      RowOfIsGenuine(facts, cost, finance, last, accs[last]);
      PublishRowKeepsInv(PublishRows(book, facts, cost, finance, accs, before).value, Key(facts.slot, last),
                         RowOf(facts, cost, finance, last, accs[last]).value);
    }
  }

  lemma StoredAfter(book: Book, facts: Facts, cost: CostHour, finance: Finance, accs: map<int, Acc>, channels: seq<int>)
    requires RowsInv(book) && AccsOk(accs) && (forall c :: c in channels ==> c in accs)
    requires PublishRows(book, facts, cost, finance, accs, channels).Ok?
    ensures StoredOk(PublishRows(book, facts, cost, finance, accs, channels).value)
  {
    PublishRowsKeepsInv(book, facts, cost, finance, accs, channels);
  }

  lemma PublishRowsLast(
      book: Book, facts: Facts, cost: CostHour, finance: Finance, accs: map<int, Acc>, before: seq<int>, last: int)
    requires last in accs && (forall c :: c in before ==> c in accs)
    requires forall c :: c in before + [last] ==> c in accs
    requires PublishRows(book, facts, cost, finance, accs, before + [last]).Ok?
    ensures PublishRows(book, facts, cost, finance, accs, before).Ok?
    ensures RowOf(facts, cost, finance, last, accs[last]).Ok?
    ensures PublishRows(book, facts, cost, finance, accs, before + [last])
         == PublishRow(PublishRows(book, facts, cost, finance, accs, before).value, Key(facts.slot, last),
             RowOf(facts, cost, finance, last, accs[last]).value)
  {
    assert (before + [last])[..|before|] == before;
  }

  lemma NoRowsMoved(book: Book, slot: Slot)
    ensures Moved(book, book, KeysOf(slot, []))
  {
    assert book.current.Keys + KeysOf(slot, []) == book.current.Keys;
  }

  lemma {:induction false} PublishRowsEffect(
      book: Book, facts: Facts, cost: CostHour, finance: Finance, accs: map<int, Acc>, channels: seq<int>)
    requires RowsInv(book) && AccsOk(accs) && (forall c :: c in channels ==> c in accs)
    requires PublishRows(book, facts, cost, finance, accs, channels).Ok?
    ensures Moved(book, PublishRows(book, facts, cost, finance, accs, channels).value, KeysOf(facts.slot, channels))
    ensures AllFresh(PublishRows(book, facts, cost, finance, accs, channels).value, facts, cost, finance, accs,
      channels)
    decreases |channels|
  {
    if channels == [] {
      NoRowsMoved(book, facts.slot);
    } else {
      var last, before := channels[|channels| - 1], channels[..|channels| - 1];
      assert channels == before + [last];
      PublishRowsLast(book, facts, cost, finance, accs, before, last);
      PublishRowsEffect(book, facts, cost, finance, accs, before);
      StoredAfter(book, facts, cost, finance, accs, before);
      RowOfIsGenuine(facts, cost, finance, last, accs[last]);
      LastStep(book, PublishRows(book, facts, cost, finance, accs, before).value, facts, cost, finance, accs, before,
          last);
    }
  }

  lemma LastStep(
      book: Book, middle: Book, facts: Facts, cost: CostHour, finance: Finance, accs: map<int, Acc>, before: seq<int>,
      last: int)
    requires last in accs && (forall c :: c in before ==> c in accs)
    requires RowOf(facts, cost, finance, last, accs[last]).Ok?
    requires Moved(book, middle, KeysOf(facts.slot, before)) && AllFresh(middle, facts, cost, finance, accs, before)
    requires var row := RowOf(facts, cost, finance, last, accs[last]).value;
      StoredOk(middle) && Genuine(row) && PublishRow(middle, Key(facts.slot, last), row).Ok?
    ensures var after := PublishRow(middle, Key(facts.slot, last),
      RowOf(facts, cost, finance, last, accs[last]).value).value;
      Moved(book, after, KeysOf(facts.slot, before + [last]))
          && AllFresh(after, facts, cost, finance, accs, before + [last])
  {
    var key, row := Key(facts.slot, last), RowOf(facts, cost, finance, last, accs[last]).value;
    var after := PublishRow(middle, key, row).value;
    PublishRowEffect(middle, key, row);
    assert KeysOf(facts.slot, before + [last]) == KeysOf(facts.slot, before) + {key};
    MovedCompose(book, middle, after, KeysOf(facts.slot, before), {key});
    FreshStep(middle, after, facts, cost, finance, accs, before, last);
  }

  // Attribution.

  /** The source has a confirmed allocation to the channel in force at the hour, and its tokens still
      belong to it where the mapping came from them. */
  predicate BoundTo(facts: Facts, sourceRef: string, c: int) {
    && c > 0 && sourceRef in facts.bindings
    && facts.bindings[sourceRef].toChannel && facts.bindings[sourceRef].channel == c
    && (facts.bindings[sourceRef].fromTokens ==> sourceRef in facts.owned)
  }

  ghost predicate Unowned(facts: Facts, sourceRef: string) { forall c :: !BoundTo(facts, sourceRef, c) }

  /** Whose cost a row of evidence is, read off the facts: channel 0 stands for nobody's. */
  ghost predicate Belongs(facts: Facts, e: Evidence, c: int) {
    if c == 0 then Unowned(facts, e.sourceRef) else BoundTo(facts, e.sourceRef, c)
  }

  lemma BelongsToOne(facts: Facts, e: Evidence, c: int)
    ensures Belongs(facts, e, c) <==> ChannelOf(facts, e) == c
    ensures Allocated(facts, e.sourceRef) <==> !Unowned(facts, e.sourceRef)
  {
    if Allocated(facts, e.sourceRef) {
      assert BoundTo(facts, e.sourceRef, facts.bindings[e.sourceRef].channel);
    }
  }

  /** The charge units and the requests of the evidence that belongs to a channel. */
  ghost function UnitsFor(facts: Facts, rows: seq<Evidence>, c: int): int {
    if rows == [] then 0
    else
      var last := rows[|rows| - 1];
      UnitsFor(facts, rows[..|rows| - 1], c) + if Belongs(facts, last, c) then last.chargeUnits else 0
  }

  ghost function RequestsFor(facts: Facts, rows: seq<Evidence>, c: int): int {
    if rows == [] then 0
    else
      var last := rows[|rows| - 1];
      RequestsFor(facts, rows[..|rows| - 1], c) + if Belongs(facts, last, c) then last.requests else 0
  }

  /** The content hashes of that evidence, in order. */
  ghost function HashesFor(facts: Facts, rows: seq<Evidence>, c: int): seq<string> {
    if rows == [] then []
    else
      var last := rows[|rows| - 1];
      HashesFor(facts, rows[..|rows| - 1], c) + if Belongs(facts, last, c) then [last.contentHash] else []
  }

  /** Some of the evidence belongs to the channel. */
  ghost predicate Owns(facts: Facts, rows: seq<Evidence>, c: int) {
    exists e :: e in rows && Belongs(facts, e, c)
  }

  /** The part of a mapping that a row of evidence gives rise to: the binding it was charged under. */
  ghost predicate GivesPart(facts: Facts, e: Evidence, part: Part) {
    && part.sourceRef == e.sourceRef
    && (part.Unmapped? <==> Unowned(facts, e.sourceRef))
    && (part.Mapped? ==>
          && BoundTo(facts, e.sourceRef, part.channel)
          && part.validFrom == facts.bindings[e.sourceRef].validFrom
          && part.validTo == facts.bindings[e.sourceRef].validTo)
  }

  ghost function PartsFor(facts: Facts, rows: seq<Evidence>, c: int, part: Part): nat {
    if rows == [] then 0
    else
      var last := rows[|rows| - 1];
      PartsFor(facts, rows[..|rows| - 1], c, part) +
          if Belongs(facts, last, c) && GivesPart(facts, last, part) then 1 else 0
  }

  lemma GivesItsPart(facts: Facts, e: Evidence, part: Part)
    ensures GivesPart(facts, e, part) <==> part == PartOf(facts, e)
  {
    BelongsToOne(facts, e, 0);
  }

  lemma OwnsStep(facts: Facts, rows: seq<Evidence>, c: int)
    requires rows != []
    ensures Owns(facts, rows, c) <==> Belongs(facts, rows[|rows| - 1], c) || Owns(facts, rows[..|rows| - 1], c)
  {
    assert rows == rows[..|rows| - 1] + [rows[|rows| - 1]];
  }

  lemma AddedAmounts(facts: Facts, accs: map<int, Acc>, e: Evidence)
    requires AddEvidence(facts, accs, e).Ok?
    ensures var after, c := AddEvidence(facts, accs, e).value, ChannelOf(facts, e);
      && after.Keys == accs.Keys + {c} && c in after && after == accs[c := after[c]]
      && after[c].chargeUnits == (if c in accs then accs[c].chargeUnits else 0) + e.chargeUnits
      && after[c].upstreamRequests == (if c in accs then accs[c].upstreamRequests else 0) + e.requests
  {
  }

  ghost predicate HoldsOwn(facts: Facts, rows: seq<Evidence>, accs: map<int, Acc>, c: int) {
    && (c in accs <==> Owns(facts, rows, c))
    && (if c in accs then accs[c].chargeUnits else 0) == UnitsFor(facts, rows, c)
    && (if c in accs then accs[c].upstreamRequests else 0) == RequestsFor(facts, rows, c)
  }

  /** Every channel's accumulator holds exactly the charge units and the requests of the evidence
      that belongs to the channel. */
  lemma {:induction false} AttributedIsExact(facts: Facts, rows: seq<Evidence>, c: int)
    requires Attributed(facts, rows).Ok?
    ensures HoldsOwn(facts, rows, Attributed(facts, rows).value, c)
    decreases |rows|
  {
    if rows != [] {
      AttributedIsExact(facts, rows[..|rows| - 1], c);
      AddedAmounts(facts, Attributed(facts, rows[..|rows| - 1]).value, rows[|rows| - 1]);
      BelongsToOne(facts, rows[|rows| - 1], c);
      OwnsStep(facts, rows, c);
    }
  }

  ghost predicate TracesOwn(facts: Facts, rows: seq<Evidence>, acc: Acc, c: int) {
    && acc.costRows == HashesFor(facts, rows, c)
    && (forall part :: acc.parts[part] == PartsFor(facts, rows, c, part))
    && acc.hasCost && (acc.unallocated <==> c == 0)
    && !acc.hasLocal && acc.local == NO_LOCAL
  }

  ghost predicate Traces(facts: Facts, rows: seq<Evidence>, accs: map<int, Acc>, c: int) {
    if c in accs then TracesOwn(facts, rows, accs[c], c)
    else HashesFor(facts, rows, c) == [] && forall part :: PartsFor(facts, rows, c, part) == 0
  }

  lemma AddedTraces(facts: Facts, rows: seq<Evidence>, accs: map<int, Acc>, c: int)
    requires rows != [] && Traces(facts, rows[..|rows| - 1], accs, c)
    requires AddEvidence(facts, accs, rows[|rows| - 1]).Ok?
    ensures Traces(facts, rows, AddEvidence(facts, accs, rows[|rows| - 1]).value, c)
  {
    var last, after := rows[|rows| - 1], AddEvidence(facts, accs, rows[|rows| - 1]).value;
    BelongsToOne(facts, last, c);
    if ChannelOf(facts, last) == c {
      forall part ensures after[c].parts[part] == PartsFor(facts, rows, c, part) { GivesItsPart(facts, last, part); }
    }
  }

  /** What a source hash covers of a channel's evidence: the content hashes and the bindings of
      exactly the rows that belong to it; only channel 0 holds unallocated cost. */
  lemma {:induction false} AttributedTraces(facts: Facts, rows: seq<Evidence>, c: int)
    requires Attributed(facts, rows).Ok?
    ensures Traces(facts, rows, Attributed(facts, rows).value, c)
    decreases |rows|
  {
    if rows != [] {
      AttributedTraces(facts, rows[..|rows| - 1], c);
      AddedTraces(facts, rows, Attributed(facts, rows[..|rows| - 1]).value, c);
    }
  }

  lemma {:induction false} AttributedOk(facts: Facts, rows: seq<Evidence>)
    requires Attributed(facts, rows).Ok?
    ensures AccsOk(Attributed(facts, rows).value)
    decreases |rows|
  {
    if rows != [] { AttributedOk(facts, rows[..|rows| - 1]); }
  }

  lemma AccumulatedOk(book: Book, facts: Facts)
    requires Accumulated(book, facts).Ok?
    ensures AccsOk(Accumulated(book, facts).value)
  {
    AttributedOk(facts, facts.evidence);
  }

  // Totals over channels.

  ghost function Total(m: map<int, int>): int
    decreases |m|
  {
    if m.Keys == {} then 0
    else
      var k := MinOf(m.Keys);
      assert (m - {k}).Keys == m.Keys - {k};
      m[k] + Total(m - {k})
  }

  lemma {:induction false} TotalWithout(m: map<int, int>, k: int)
    requires k in m
    ensures Total(m) == m[k] + Total(m - {k})
    decreases |m|
  {
    var j := MinOf(m.Keys);
    assert (m - {j}).Keys == m.Keys - {j};
    if j != k {
      assert (m - {k}).Keys == m.Keys - {k};
      assert (m - {j}) - {k} == (m - {k}) - {j};
      TotalWithout(m - {j}, k);
      TotalWithout(m - {k}, j);
    }
  }

  lemma TotalUpdate(m: map<int, int>, k: int, v: int)
    ensures Total(m[k := v]) == Total(m) + v - if k in m then m[k] else 0
  {
    TotalWithout(m[k := v], k);
    assert m[k := v] - {k} == m - {k};
    if k in m { TotalWithout(m, k); } else { assert m - {k} == m; }
  }

  /** Channels without any amount do not change a total. */
  lemma {:induction false} TotalIgnoresZeros(m: map<int, int>, n: map<int, int>)
    requires (forall k :: k in n ==> k in m) && (forall k :: k in m ==> m[k] == if k in n then n[k] else 0)
    ensures Total(m) == Total(n)
    decreases |m|
  {
    if m.Keys != {} {
      var k := MinOf(m.Keys);
      assert (m - {k}).Keys == m.Keys - {k};
      if k in n {
        assert (n - {k}).Keys == n.Keys - {k};
        TotalWithout(n, k);
        TotalIgnoresZeros(m - {k}, n - {k});
      } else {
        TotalIgnoresZeros(m - {k}, n);
      }
    }
  }

  function Units(accs: map<int, Acc>): map<int, int> { map c | c in accs :: accs[c].chargeUnits }

  function Requests(accs: map<int, Acc>): map<int, int> { map c | c in accs :: accs[c].upstreamRequests }

  function EvidenceUnits(rows: seq<Evidence>): int {
    if rows == [] then 0 else EvidenceUnits(rows[..|rows| - 1]) + rows[|rows| - 1].chargeUnits
  }

  function EvidenceRequests(rows: seq<Evidence>): int {
    if rows == [] then 0 else EvidenceRequests(rows[..|rows| - 1]) + rows[|rows| - 1].requests
  }

  lemma {:induction false} AttributedTotals(facts: Facts, rows: seq<Evidence>)
    requires Attributed(facts, rows).Ok?
    ensures Total(Units(Attributed(facts, rows).value)) == EvidenceUnits(rows)
    ensures Total(Requests(Attributed(facts, rows).value)) == EvidenceRequests(rows)
    decreases |rows|
  {
    if rows != [] {
      AttributedTotals(facts, rows[..|rows| - 1]);
      AddedTotals(facts, Attributed(facts, rows[..|rows| - 1]).value, rows[|rows| - 1]);
    }
  }

  lemma AddedTotals(facts: Facts, before: map<int, Acc>, e: Evidence)
    requires AddEvidence(facts, before, e).Ok?
    ensures Total(Units(AddEvidence(facts, before, e).value)) == Total(Units(before)) + e.chargeUnits
    ensures Total(Requests(AddEvidence(facts, before, e).value)) == Total(Requests(before)) + e.requests
  {
    AddedAmounts(facts, before, e);
    var after, c := AddEvidence(facts, before, e).value, ChannelOf(facts, e);
    assert Units(after) == Units(before)[c := after[c].chargeUnits];
    assert Requests(after) == Requests(before)[c := after[c].upstreamRequests];
    TotalUpdate(Units(before), c, after[c].chargeUnits);
    TotalUpdate(Requests(before), c, after[c].upstreamRequests);
  }

  lemma AccumulatedTotals(book: Book, facts: Facts)
    requires Accumulated(book, facts).Ok?
    ensures Total(Units(Accumulated(book, facts).value)) == EvidenceUnits(facts.evidence)
    ensures Total(Requests(Accumulated(book, facts).value)) == EvidenceRequests(facts.evidence)
  {
    var attributed, all := Attributed(facts, facts.evidence).value, Accumulated(book, facts).value;
    AttributedTotals(facts, facts.evidence);
    TotalIgnoresZeros(Units(all), Units(attributed));
    TotalIgnoresZeros(Requests(all), Requests(attributed));
  }
}
