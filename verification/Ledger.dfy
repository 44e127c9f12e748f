/** The immutable hourly ledger of a domain: verified evidence is attributed to local channels,
    every channel ever published for the hour gets a new or an identical revision, and a manifest
    freezes which revisions are current. Hashes are modelled by the field lists they cover. */
module Ledger {

  import opened Basics
  import opened Money

  // What one publication reads.

  datatype Evidence = Evidence(sourceRef: string, contentHash: string, chargeUnits: nat, requests: nat)

  /** toChannel: the allocation mode; fromTokens: mapped by token ownership, which is checked again. */
  datatype Binding = Binding(validFrom: int, validTo: int, channel: int, toChannel: bool, fromTokens: bool)

  datatype Local = Local(requests: int, refundRecords: int, consume: int, refund: int)

  datatype Refund = Refund(records: int, quota: int)

  datatype Finance = Finance(version: int, paid: Rat, credit: Rat, known: bool)

  datatype CostHour = CostHour(contentHash: string, unit: Rat, verified: bool, matched: bool)

  datatype Slot = Slot(domain: string, epoch: string, hour: int)

  /** bindings: the confirmed binding of each source valid at the hour; owned: the sources whose
      token owners still match; verified: the hour's local facts are complete. */
  datatype Facts = Facts(
    slot: Slot, authority: Option<string>, cost: Option<CostHour>, evidence: seq<Evidence>,
    bindings: map<string, Binding>, owned: set<string>, finance: Result<Finance>,
    locals: map<int, Local>, refund: Refund, verified: bool)

  // What is stored.

  datatype Coverage =
    | FinanceVersionMissing | RefundUnallocated | SupersededEmpty | UnallocatedCost
    | UpstreamCostMissing | LocalRevenueMissing | LocalFactUnverified | VerifiedComplete

  datatype Part = Mapped(sourceRef: string, validFrom: int, validTo: int, channel: int) | Unmapped(sourceRef: string)

  /** Everything a source hash covers. */
  datatype Source = Source(
    costHash: string, unit: Rat, verified: bool, local: Local, refund: Refund,
    upstreamRequests: int, chargeUnits: int, finance: Finance, parts: multiset<Part>,
    coverage: Coverage, evidence: seq<string>)

  datatype Key = Key(slot: Slot, channel: int)

  datatype Id = Id(key: Key, source: Source, revision: int)

  /** The published figures, without their place in the revision history. */
  datatype Row = Row(
    local: Local, netQuota: int, revenue: int, chargeUnits: int, upstreamRequests: int,
    upstreamCost: int, corrected: int, correctedKnown: bool, coverage: Coverage,
    financeVersion: int, source: Source)

  datatype Publication = Publication(
    key: Key, revision: int, supersedes: Option<Id>, row: Row, profit: int, profitKnown: bool)

  datatype Pointer<T> = Pointer(id: T, revision: int)

  datatype HourKey = HourKey(domain: string, hour: int)

  datatype Verdict = Verdict(coverage: ManifestCoverage, profitKnown: bool, financeVersion: int)

  datatype ManifestCoverage = Child(coverage: Coverage) | FinanceVersionConflict

  datatype ManifestSource = ManifestSource(
    epoch: string, costHash: string, unit: Rat, verified: bool, refund: Refund,
    rowCount: int, children: set<Id>, verdict: Verdict)

  datatype ManifestId = ManifestId(hour: HourKey, source: ManifestSource, revision: int)

  datatype Manifest = Manifest(hour: HourKey, revision: int, supersedes: Option<ManifestId>, source: ManifestSource)

  datatype Book = Book(
    publications: map<Id, Publication>, current: map<Key, Pointer<Id>>,
    manifests: map<ManifestId, Manifest>, manifestCurrent: map<HourKey, Pointer<ManifestId>>)

  const EMPTY_BOOK := Book(map[], map[], map[], map[])

  // Attribution of evidence.

  datatype Acc = Acc(
    local: Local, chargeUnits: int, upstreamRequests: int, costRows: seq<string>, parts: multiset<Part>,
    hasLocal: bool, hasCost: bool, unallocated: bool)

  const NO_LOCAL := Local(0, 0, 0, 0)
  const EMPTY_ACC := Acc(NO_LOCAL, 0, 0, [], multiset{}, false, false, false)

  predicate Allocated(facts: Facts, sourceRef: string) {
    && sourceRef in facts.bindings
    && facts.bindings[sourceRef].toChannel
    && facts.bindings[sourceRef].channel > 0
    && (facts.bindings[sourceRef].fromTokens ==> sourceRef in facts.owned)
  }

  /** Channel 0 collects what no channel owns. */
  function ChannelOf(facts: Facts, e: Evidence): int {
    if Allocated(facts, e.sourceRef) then facts.bindings[e.sourceRef].channel else 0
  }

  function PartOf(facts: Facts, e: Evidence): Part {
    if Allocated(facts, e.sourceRef) then
      var b := facts.bindings[e.sourceRef];
      Mapped(e.sourceRef, b.validFrom, b.validTo, b.channel)
    else Unmapped(e.sourceRef)
  }

  function AddEvidence(facts: Facts, accs: map<int, Acc>, e: Evidence): Result<map<int, Acc>> {
    var channel := ChannelOf(facts, e);
    var acc := if channel in accs then accs[channel] else EMPTY_ACC;
    if e.chargeUnits > MAX_INT64 - acc.chargeUnits || e.requests > MAX_INT64 - acc.upstreamRequests then Err
    else
      Ok(accs[channel := acc.(chargeUnits := acc.chargeUnits + e.chargeUnits,
                              upstreamRequests := acc.upstreamRequests + e.requests,
                              costRows := acc.costRows + [e.contentHash],
                              parts := acc.parts + multiset{PartOf(facts, e)},
                              hasCost := true,
                              unallocated := acc.unallocated || !Allocated(facts, e.sourceRef))])
  }

  function Attributed(facts: Facts, rows: seq<Evidence>): Result<map<int, Acc>> {
    if rows == [] then Ok(map[])
    else
      var before := Attributed(facts, rows[..|rows| - 1]);
      if before.Err? then Err else AddEvidence(facts, before.value, rows[|rows| - 1])
  }

  /** The channels some revision was ever published for in this hour. */
  function EverPublished(book: Book, slot: Slot): set<int> {
    set id | id in book.publications && id.key.slot == slot :: id.key.channel
  }

  function WithChannels(accs: map<int, Acc>, channels: set<int>): map<int, Acc> {
    map channel | channel in accs.Keys + channels :: if channel in accs then accs[channel] else EMPTY_ACC
  }

  predicate LocalsValid(facts: Facts) {
    forall channel :: channel in facts.locals ==> LocalValid(facts.locals[channel])
  }

  predicate LocalValid(local: Local) {
    local.requests >= 0 && local.refundRecords >= 0 && local.consume >= 0 && local.refund >= 0
  }

  function WithLocals(accs: map<int, Acc>, locals: map<int, Local>): map<int, Acc> {
    map channel | channel in accs.Keys + locals.Keys ::
      var acc := if channel in accs then accs[channel] else EMPTY_ACC;
      if channel in locals then acc.(local := locals[channel], hasLocal := true) else acc
  }

  function Accumulated(book: Book, facts: Facts): Result<map<int, Acc>> {
    var attributed := Attributed(facts, facts.evidence);
    if attributed.Err? || !LocalsValid(facts) then Err
    else Ok(WithLocals(WithChannels(attributed.value, EverPublished(book, facts.slot)), facts.locals))
  }

  // One channel.

  function CoverageOf(facts: Facts, finance: Finance, channel: int, acc: Acc): Coverage {
    if !finance.known then FinanceVersionMissing
    else if facts.refund.records > 0 || facts.refund.quota > 0 then RefundUnallocated
    else if !acc.hasCost && !acc.hasLocal then SupersededEmpty
    else if channel == 0 || acc.unallocated then UnallocatedCost
    else if !acc.hasCost then UpstreamCostMissing
    else if !acc.hasLocal then LocalRevenueMissing
    else if !facts.verified then LocalFactUnverified
    else VerifiedComplete
  }

  /** Local quota per USD. */
  const QUOTA := Rat(500_000, 1)

  function RowOf(facts: Facts, cost: CostHour, finance: Finance, channel: int, acc: Acc): Result<Row> {
    var net := acc.local.consume - acc.local.refund;
    var revenue := SignedUnitsToMicro(net, QUOTA);
    var upstreamCost := UnitsToMicro(acc.chargeUnits, cost.unit);
    if revenue.Err? || upstreamCost.Err? then Err
    else
      var corrected := if finance.known then Corrected(upstreamCost.value, finance.paid, finance.credit) else Ok(0);
      if corrected.Err? then Err
      else
        var coverage := CoverageOf(facts, finance, channel, acc);
        var source := Source(cost.contentHash, cost.unit, facts.verified, acc.local, facts.refund, acc.upstreamRequests,
                             acc.chargeUnits, finance, acc.parts, coverage, acc.costRows);
        Ok(Row(acc.local, net, revenue.value, acc.chargeUnits, acc.upstreamRequests, upstreamCost.value,
               corrected.value, acc.hasCost && finance.known, coverage, finance.version, source))
  }

  /** The current publication of a key, if the key has one. */
  function Head(book: Book, key: Key): Option<Publication> {
    if key in book.current && book.current[key].id in book.publications
      then Some(book.publications[book.current[key].id]) else None
  }

  /** The revision that follows the current one, or Err when its profit leaves int64. */
  function Revised(book: Book, key: Key, row: Row): Result<Publication> {
    var profitKnown := row.coverage == VerifiedComplete;
    var profit := if profitKnown then Subtract(row.revenue, row.corrected) else Ok(0);
    if profit.Err? then Err
    else
      var known := key in book.current;
      Ok(Publication(key, (if known then book.current[key].revision else 0) + 1,
        if known then Some(book.current[key].id) else None,
                     row, profit.value, profitKnown))
  }

  function PublishRow(book: Book, key: Key, row: Row): Result<Book> {
    if key in book.current && Head(book, key).None? then Err
    else if key in book.current && Head(book, key).value.row.source == row.source then Ok(book)
    else
      var p := Revised(book, key, row);
      if p.Err? || IdOf(p.value) in book.publications then Err else Ok(Appended(book, p.value))
  }

  function IdOf(p: Publication): Id { Id(p.key, p.row.source, p.revision) }

  /** A new revision, and the head of its key moved to it. */
  function Appended(book: Book, p: Publication): Book {
    book.(publications := book.publications[IdOf(p) := p],
        current := book.current[p.key := Pointer(IdOf(p), p.revision)])
  }

  // The manifest of the hour.

  /** The channels of the hour with a current publication. */
  function ChildChannels(book: Book, slot: Slot): set<int> {
    set key | key in book.current && key.slot == slot :: key.channel
  }

  function Children(book: Book, slot: Slot): set<Id> {
    set channel | channel in ChildChannels(book, slot) :: book.current[Key(slot, channel)].id
  }

  function MinOf(s: set<int>): (m: int)
    requires s != {}
    ensures m in s && forall x :: x in s ==> m <= x
    decreases |s|
  {
    HasMin(s);
    var m :| m in s && forall x :: x in s ==> m <= x;
    m
  }

  lemma {:induction false} HasMin(s: set<int>)
    requires s != {}
    ensures exists m :: m in s && forall x :: x in s ==> m <= x
    decreases |s|
  {
    var y := Any(s);
    var rest := s - {y};
    if rest == {} {
      assert s == {y};
    } else {
      HasMin(rest);
      var m: int :| m in rest && forall x :: x in rest ==> m <= x;
      var least := if y < m then y else m;
      assert least in s;
      assert forall x :: x in s ==> x == y || x in rest;
    }
  }

  /** The elements in ascending order. */
  function Ascending(s: set<int>): (r: seq<int>)
    ensures (forall x :: x in r <==> x in s) && |r| == |s|
    ensures forall i, j :: 0 <= i < j < |r| ==> r[i] < r[j]
    decreases |s|
  {
    if s == {} then []
    else
      var m := MinOf(s);
      [m] + Ascending(s - {m})
  }

  /** The publications of the hour in channel order. */
  function Rows(book: Book, slot: Slot, channels: seq<int>): seq<Publication>
    requires forall c :: c in channels ==> Head(book, Key(slot, c)).Some?
  {
    seq(|channels|, i requires 0 <= i < |channels| => Head(book, Key(slot, channels[i])).value)
  }

  /** The scan over the children that decides the manifest's coverage. */
  function Scan(rows: seq<Publication>, version: int): Verdict {
    if rows == [] then Verdict(Child(VerifiedComplete), true, version)
    else
      var p := rows[0];
      if p.row.coverage == SupersededEmpty then Scan(rows[1..], version)
      else if p.row.coverage != VerifiedComplete || !p.profitKnown then Verdict(Child(p.row.coverage), false, 0)
      else if version == 0 then Scan(rows[1..], p.row.financeVersion)
      else if version != p.row.financeVersion then Verdict(FinanceVersionConflict, false, 0)
      else Scan(rows[1..], version)
  }

  function VerdictOf(rows: seq<Publication>, verified: bool, refund: Refund): Verdict {
    if refund.records > 0 || refund.quota > 0 then Verdict(Child(RefundUnallocated), false, 0)
    else if !verified then Verdict(Child(LocalFactUnverified), false, 0)
    else Scan(rows, 0)
  }

  predicate HeadsPresent(book: Book, slot: Slot) {
    forall c :: c in ChildChannels(book, slot) ==> Head(book, Key(slot, c)).Some?
  }

  /** What the manifest of the hour says about the current heads. */
  function Described(book: Book, facts: Facts, cost: CostHour): ManifestSource
    requires HeadsPresent(book, facts.slot)
  {
    var channels := Ascending(ChildChannels(book, facts.slot));
    ManifestSource(facts.slot.epoch, cost.contentHash, cost.unit, facts.verified, facts.refund,
                   |channels|, Children(book, facts.slot),
                       VerdictOf(Rows(book, facts.slot, channels), facts.verified, facts.refund))
  }

  function PublishManifest(book: Book, facts: Facts, cost: CostHour): Result<Book> {
    if !HeadsPresent(book, facts.slot) then Err
    else
      var source, hour := Described(book, facts, cost), HourKey(facts.slot.domain, facts.slot.hour);
      var known := hour in book.manifestCurrent;
      if known && book.manifestCurrent[hour].id !in book.manifests then Err
      else if known && book.manifests[book.manifestCurrent[hour].id].source == source then Ok(book)
      else
        var revision := (if known then book.manifestCurrent[hour].revision else 0) + 1;
        var id := ManifestId(hour, source, revision);
        if id in book.manifests then Err
        else
          var manifest := Manifest(hour, revision, if known then Some(book.manifestCurrent[hour].id) else None, source);
          Ok(book.(manifests := book.manifests[id := manifest],
                   manifestCurrent := book.manifestCurrent[hour := Pointer(id, revision)]))
  }

  // The whole transaction.

  function PublishRows(
      book: Book, facts: Facts, cost: CostHour, finance: Finance, accs: map<int, Acc>, channels: seq<int>): Result<Book>
    requires forall c :: c in channels ==> c in accs
  {
    if channels == [] then Ok(book)
    else
      var n := |channels| - 1;
      var before := PublishRows(book, facts, cost, finance, accs, channels[..n]);
      var row := RowOf(facts, cost, finance, channels[n], accs[channels[n]]);
      if before.Err? || row.Err? then Err else PublishRow(before.value, Key(facts.slot, channels[n]), row.value)
  }

  predicate Admitted(facts: Facts) {
    && facts.slot.hour >= 0 && facts.slot.hour % 3600 == 0
    && (facts.authority.Some? ==> facts.authority.value == facts.slot.epoch)
    && facts.cost.Some? && facts.cost.value.verified && facts.cost.value.matched
    && facts.finance.Ok? && Positive(facts.cost.value.unit)
    && facts.refund.records >= 0 && facts.refund.quota >= 0
  }

  /** The ledger after the publication of an hour, or Err when the transaction is rolled back. */
  function PublishHour(book: Book, facts: Facts): Result<Book> {
    if !Admitted(facts) then Err
    else
      var accs := Accumulated(book, facts);
      if accs.Err? then Err
      else
        var rows := PublishRows(book, facts, facts.cost.value, facts.finance.value, accs.value,
          Ascending(accs.value.Keys));
        if rows.Err? then Err else PublishManifest(rows.value, facts, facts.cost.value)
  }
}
