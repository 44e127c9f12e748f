/** The manifests of the hours: an unbroken chain of revisions for each hour, and what the current
    one says after a publication. */
module LedgerManifests {

  import opened Basics
  import opened Ledger
  import opened LedgerHistory
  import opened LedgerTheorems

  // Revisions.

  predicate ManifestFiled(book: Book, id: ManifestId)
    requires id in book.manifests
  {
    var m := book.manifests[id];
    m.hour == id.hour && m.revision == id.revision && m.source == id.source
  }

  predicate ManifestLinked(book: Book, id: ManifestId)
    requires id in book.manifests
  {
    && id.hour in book.manifestCurrent && 1 <= id.revision <= book.manifestCurrent[id.hour].revision
    && var before := book.manifests[id].supersedes;
      if before.None? then id.revision == 1
      else
        before.value in book.manifests && before.value.hour == id.hour && before.value.revision == id.revision - 1
  }

  predicate ManifestHead(book: Book, hour: HourKey)
    requires hour in book.manifestCurrent
  {
    var pointer := book.manifestCurrent[hour];
    pointer.id in book.manifests && pointer.id.hour == hour && pointer.id.revision == pointer.revision
  }

  /** Every manifest is filed under what it says, hangs on its predecessor, and is the only one of
      its hour and revision; the head of an hour is its last revision. */
  ghost predicate ManifestChain(book: Book) {
    && (forall id :: id in book.manifests ==> ManifestFiled(book, id) && ManifestLinked(book, id))
    && (forall hour :: hour in book.manifestCurrent ==> ManifestHead(book, hour))
    && (forall i, j :: i in book.manifests && j in book.manifests && i.hour == j.hour && i.revision == j.revision ==>
          i == j)
  }

  /** The manifest that follows the current one of the hour. */
  function NextManifest(book: Book, hour: HourKey, source: ManifestSource): Manifest {
    if hour in book.manifestCurrent then
      Manifest(hour, book.manifestCurrent[hour].revision + 1, Some(book.manifestCurrent[hour].id), source)
    else Manifest(hour, 1, None, source)
  }

  function IdFor(m: Manifest): ManifestId { ManifestId(m.hour, m.source, m.revision) }

  function WithManifest(book: Book, m: Manifest): Book {
    book.(manifests := book.manifests[IdFor(m) := m],
      manifestCurrent := book.manifestCurrent[m.hour := Pointer(IdFor(m), m.revision)])
  }

  lemma NextIsNew(book: Book, hour: HourKey, source: ManifestSource)
    requires ManifestChain(book)
    ensures IdFor(NextManifest(book, hour, source)) !in book.manifests
  {
    NextIsLast(book, hour, source);
  }

  lemma ManifestKept(book: Book, facts: Facts, cost: CostHour)
    requires HeadsPresent(book, facts.slot) && HasManifest(book, HourOf(facts.slot))
    requires CurrentManifest(book, HourOf(facts.slot)) == Described(book, facts, cost)
    ensures PublishManifest(book, facts, cost) == Ok(book)
  {
  }

  lemma ManifestNext(book: Book, facts: Facts, cost: CostHour, hour: HourKey, source: ManifestSource)
    requires HeadsPresent(book, facts.slot) && hour == HourOf(facts.slot) && source == Described(book, facts, cost)
    requires hour in book.manifestCurrent ==> HasManifest(book, hour) && CurrentManifest(book, hour) != source
    requires IdFor(NextManifest(book, hour, source)) !in book.manifests
    ensures PublishManifest(book, facts, cost) == Ok(WithManifest(book, NextManifest(book, hour, source)))
  {
  }

  /** The hour's manifest is the one that describes it, or the next one: under an unbroken chain
      publishing it never fails. */
  lemma ManifestStep(book: Book, facts: Facts, cost: CostHour)
    requires ManifestChain(book) && HeadsPresent(book, facts.slot)
    ensures var hour, source := HourOf(facts.slot), Described(book, facts, cost);
      PublishManifest(book, facts, cost) ==
        if HasManifest(book, hour) && CurrentManifest(book, hour) == source then Ok(book)
        else Ok(WithManifest(book, NextManifest(book, hour, source)))
  {
    var hour, source := HourOf(facts.slot), Described(book, facts, cost);
    if hour in book.manifestCurrent { assert ManifestHead(book, hour); }
    if HasManifest(book, hour) && CurrentManifest(book, hour) == source {
      ManifestKept(book, facts, cost);
    } else {
      NextIsNew(book, hour, source);
      ManifestNext(book, facts, cost, hour, source);
    }
  }

  lemma NextKeepsLink(book: Book, hour: HourKey, source: ManifestSource, id: ManifestId)
    requires ManifestChain(book)
    requires id in WithManifest(book, NextManifest(book, hour, source)).manifests
    ensures ManifestFiled(WithManifest(book, NextManifest(book, hour, source)), id)
    ensures ManifestLinked(WithManifest(book, NextManifest(book, hour, source)), id)
  {
    if hour in book.manifestCurrent {
      assert ManifestHead(book, hour);
      assert ManifestLinked(book, book.manifestCurrent[hour].id);
    }
    if id in book.manifests { assert ManifestFiled(book, id) && ManifestLinked(book, id); }
  }

  lemma NextKeepsHeads(book: Book, hour: HourKey, source: ManifestSource)
    requires ManifestChain(book)
    ensures var after := WithManifest(book, NextManifest(book, hour, source));
      forall h :: h in after.manifestCurrent ==> ManifestHead(after, h)
  {
    var after := WithManifest(book, NextManifest(book, hour, source));
    forall h | h in after.manifestCurrent ensures ManifestHead(after, h) {
      if h != hour { assert ManifestHead(book, h); }
    }
  }

  lemma NextIsLast(book: Book, hour: HourKey, source: ManifestSource)
    requires ManifestChain(book)
    ensures forall id :: id in book.manifests && id.hour == hour ==>
      id.revision < NextManifest(book, hour, source).revision
  {
    forall id | id in book.manifests && id.hour == hour
      ensures id.revision < NextManifest(book, hour, source).revision
    {
      assert ManifestLinked(book, id);
    }
  }

  lemma NextKeepsChain(book: Book, hour: HourKey, source: ManifestSource)
    requires ManifestChain(book)
    ensures ManifestChain(WithManifest(book, NextManifest(book, hour, source)))
  {
    var after := WithManifest(book, NextManifest(book, hour, source));
    forall id | id in after.manifests ensures ManifestFiled(after, id) && ManifestLinked(after, id) {
      NextKeepsLink(book, hour, source, id);
    }
    NextKeepsHeads(book, hour, source);
    forall i, j | i in after.manifests && j in after.manifests && i.hour == j.hour && i.revision == j.revision
      ensures i == j
    {
      NextStaysDistinct(book, hour, source, i, j);
    }
  }

  lemma NextStaysDistinct(book: Book, hour: HourKey, source: ManifestSource, i: ManifestId, j: ManifestId)
    requires ManifestChain(book) && i.hour == j.hour && i.revision == j.revision
    requires var after := WithManifest(book, NextManifest(book, hour, source));
      i in after.manifests && j in after.manifests
    ensures i == j
  {
    NextIsLast(book, hour, source);
  }

  lemma SameManifestsChain(a: Book, b: Book)
    requires ManifestChain(a) && a.manifests == b.manifests && a.manifestCurrent == b.manifestCurrent
    ensures ManifestChain(b)
  {
    forall id | id in b.manifests ensures ManifestFiled(b, id) && ManifestLinked(b, id) {
      assert ManifestFiled(a, id) && ManifestLinked(a, id);
    }
    forall hour | hour in b.manifestCurrent ensures ManifestHead(b, hour) { assert ManifestHead(a, hour); }
  }

  lemma PublishHourKeepsChain(book: Book, facts: Facts)
    requires RowsInv(book) && ManifestChain(book) && Publishes(book, facts)
    ensures ManifestChain(After(book, facts))
  {
    var rows := RowsWritten(book, facts);
    PublishHourRows(book, facts);
    SameManifestsChain(book, rows);
    PublishManifestEffect(rows, facts, facts.cost.value);
    ManifestStep(rows, facts, facts.cost.value);
    NextKeepsChain(rows, HourOf(facts.slot), Described(rows, facts, facts.cost.value));
  }

  /** Over every history the manifests of an hour are numbered without gaps, each naming the one it
      replaces. */
  lemma {:induction false} HistoryChain(attempts: seq<Facts>)
    ensures ManifestChain(History(attempts))
    decreases |attempts|
  {
    if attempts != [] {
      var before, facts := History(attempts[..|attempts| - 1]), attempts[|attempts| - 1];
      HistoryChain(attempts[..|attempts| - 1]);
      HistoryInv(attempts[..|attempts| - 1]);
      if Publishes(before, facts) { PublishHourKeepsChain(before, facts); }
    }
  }

  // What the current manifest says.

  predicate Settled(p: Publication) { p.row.coverage in {SupersededEmpty, VerifiedComplete} }

  /** The scan stops at the first row that is neither complete nor superseded and reports its
      coverage. */
  lemma {:induction false} ScanStops(rows: seq<Publication>, seen: int, version: int, k: nat)
    requires OneVersion(rows, version) && (seen == 0 || seen == version)
    requires k < |rows| && !Settled(rows[k]) && (forall i :: 0 <= i < k ==> Settled(rows[i]))
    ensures Scan(rows, seen) == Verdict(Child(rows[k].row.coverage), false, 0)
    decreases k
  {
    assert PublicationOk(rows[0]) && rows[0].row.financeVersion == version;
    if k > 0 {
      assert Settled(rows[0]);
      ScanStops(rows[1..], if Counts(rows[0]) then version else seen, version, k - 1);
    }
  }

  /** Otherwise it reports the version of the rows, 0 when no row counts. */
  lemma {:induction false} ScanPasses(rows: seq<Publication>, seen: int, version: int)
    requires OneVersion(rows, version) && (seen == 0 || seen == version)
    requires forall i :: 0 <= i < |rows| ==> Settled(rows[i])
    ensures Scan(rows, seen) ==
      Verdict(Child(VerifiedComplete), true, if exists i :: 0 <= i < |rows| && Counts(rows[i]) then version else seen)
    decreases |rows|
  {
    if rows != [] {
      assert PublicationOk(rows[0]) && rows[0].row.financeVersion == version;
      assert Settled(rows[0]);
      ScanPasses(rows[1..], if Counts(rows[0]) then version else seen, version);
    }
  }

  predicate HeadSettled(book: Book, slot: Slot, c: int) {
    Head(book, Key(slot, c)).Some? && Settled(Head(book, Key(slot, c)).value)
  }

  /** c is the lowest channel whose head is neither complete nor superseded. */
  ghost predicate FirstUnsettled(book: Book, slot: Slot, c: int) {
    && c in ChildChannels(book, slot) && Head(book, Key(slot, c)).Some? && !HeadSettled(book, slot, c)
    && forall d :: d in ChildChannels(book, slot) && d < c ==> HeadSettled(book, slot, d)
  }

  ghost predicate AllSettled(book: Book, slot: Slot) {
    forall c :: c in ChildChannels(book, slot) ==> HeadSettled(book, slot, c)
  }

  ghost predicate SomeCounts(book: Book, slot: Slot) {
    exists c :: c in ChildChannels(book, slot) && Head(book, Key(slot, c)).Some?
      && HeadRow(book, slot, c).coverage != SupersededEmpty
  }

  lemma ScanStopsAt(book: Book, slot: Slot, version: int, c: int)
    requires HeadsPresent(book, slot) && FirstUnsettled(book, slot, c)
    requires OneVersion(Rows(book, slot, Ascending(ChildChannels(book, slot))), version)
    ensures Scan(Rows(book, slot, Ascending(ChildChannels(book, slot))), 0) ==
      Verdict(Child(HeadRow(book, slot, c).coverage), false, 0)
  {
    var channels := Ascending(ChildChannels(book, slot));
    var rows := Rows(book, slot, channels);
    var k :| 0 <= k < |channels| && channels[k] == c;
    forall i | 0 <= i < k ensures Settled(rows[i]) { assert HeadSettled(book, slot, channels[i]); }
    ScanStops(rows, 0, version, k);
  }

  lemma ScanPassesAll(book: Book, slot: Slot, version: int)
    requires HeadsPresent(book, slot) && AllSettled(book, slot)
    requires OneVersion(Rows(book, slot, Ascending(ChildChannels(book, slot))), version)
    ensures Scan(Rows(book, slot, Ascending(ChildChannels(book, slot))), 0) ==
      Verdict(Child(VerifiedComplete), true, if SomeCounts(book, slot) then version else 0)
  {
    var channels := Ascending(ChildChannels(book, slot));
    var rows := Rows(book, slot, channels);
    forall i | 0 <= i < |rows| ensures Settled(rows[i]) { assert HeadSettled(book, slot, channels[i]); }
    ScanPasses(rows, 0, version);
    CountingRows(book, slot, channels);
  }

  lemma ScanOfHeads(book: Book, slot: Slot, version: int)
    requires HeadsPresent(book, slot)
    requires forall c :: c in ChildChannels(book, slot) ==> HeadOfVersion(book, slot, c, version)
    ensures var verdict := Scan(Rows(book, slot, Ascending(ChildChannels(book, slot))), 0);
      && (forall c :: FirstUnsettled(book, slot, c) ==>
            verdict == Verdict(Child(HeadRow(book, slot, c).coverage), false, 0))
      && (AllSettled(book, slot) ==>
            verdict == Verdict(Child(VerifiedComplete), true, if SomeCounts(book, slot) then version else 0))
  {
    RowsAreOfVersion(book, slot, Ascending(ChildChannels(book, slot)), version);
    forall c | FirstUnsettled(book, slot, c)
      ensures Scan(Rows(book, slot, Ascending(ChildChannels(book, slot))), 0) ==
        Verdict(Child(HeadRow(book, slot, c).coverage), false, 0)
    {
      ScanStopsAt(book, slot, version, c);
    }
    if AllSettled(book, slot) { ScanPassesAll(book, slot, version); }
  }

  lemma CountingRows(book: Book, slot: Slot, channels: seq<int>)
    requires forall c :: c in channels <==> c in ChildChannels(book, slot)
    requires forall c :: c in channels ==> Head(book, Key(slot, c)).Some?
    ensures (exists i :: 0 <= i < |channels| && Counts(Rows(book, slot, channels)[i])) <==> SomeCounts(book, slot)
  {
    var rows := Rows(book, slot, channels);
    if i :| 0 <= i < |channels| && Counts(rows[i]) {
      assert channels[i] in ChildChannels(book, slot);
    }
    if c :| c in ChildChannels(book, slot) && Head(book, Key(slot, c)).Some?
          && HeadRow(book, slot, c).coverage != SupersededEmpty {
      var i :| 0 <= i < |channels| && channels[i] == c;
      assert Counts(rows[i]);
    }
  }

  /** What a manifest says about a book's heads, once the hour has no open refund and verified local
      facts. */
  ghost predicate VerdictFollows(book: Book, facts: Facts, version: int, verdict: Verdict) {
    if facts.refund.records > 0 || facts.refund.quota > 0 then verdict == Verdict(Child(RefundUnallocated), false, 0)
    else if !facts.verified then verdict == Verdict(Child(LocalFactUnverified), false, 0)
    else
      && (forall c :: FirstUnsettled(book, facts.slot, c) ==>
            verdict == Verdict(Child(HeadRow(book, facts.slot, c).coverage), false, 0))
      && (AllSettled(book, facts.slot) ==>
            verdict == Verdict(Child(VerifiedComplete), true, if SomeCounts(book, facts.slot) then version else 0))
  }

  lemma VerdictOfRows(book: Book, facts: Facts)
    requires RowsInv(book) && Publishes(book, facts) && HeadsPresent(RowsWritten(book, facts), facts.slot)
    ensures VerdictFollows(RowsWritten(book, facts), facts, facts.finance.value.version,
      Described(RowsWritten(book, facts), facts, facts.cost.value).verdict)
  {
    var rows := RowsWritten(book, facts);
    RowsWrittenChannels(book, facts);
    forall c | c in ChildChannels(rows, facts.slot)
      ensures HeadOfVersion(rows, facts.slot, c, facts.finance.value.version)
    {
      HeadIsOfVersion(book, facts, c);
    }
    ScanOfHeads(rows, facts.slot, facts.finance.value.version);
  }

  lemma SameVerdict(a: Book, b: Book, facts: Facts, version: int, verdict: Verdict)
    requires a.publications == b.publications && a.current == b.current && VerdictFollows(a, facts, version, verdict)
    ensures VerdictFollows(b, facts, version, verdict)
  {
    SameRowsChildren(a, b, facts.slot);
    forall c ensures Head(a, Key(facts.slot, c)) == Head(b, Key(facts.slot, c)) {}
    forall c | FirstUnsettled(b, facts.slot, c) ensures FirstUnsettled(a, facts.slot, c) {
      forall d | d in ChildChannels(a, facts.slot) && d < c ensures HeadSettled(a, facts.slot, d) {
        assert HeadSettled(b, facts.slot, d);
      }
    }
    if AllSettled(b, facts.slot) {
      forall c | c in ChildChannels(a, facts.slot) ensures HeadSettled(a, facts.slot, c) {
        assert HeadSettled(b, facts.slot, c);
      }
    }
  }

  /** After a publication the current manifest of the hour carries the facts it was made under, lists
      exactly the current heads, and gives the reason of the lowest channel that is not settled. */
  lemma {:induction false} ManifestSaysTheFacts(attempts: seq<Facts>, facts: Facts)
    requires Publishes(History(attempts), facts)
    ensures var after, hour := History(attempts + [facts]), HourKey(facts.slot.domain, facts.slot.hour);
      && HasManifest(after, hour)
      && var source := CurrentManifest(after, hour);
        && source.epoch == facts.slot.epoch
        && source.costHash == facts.cost.value.contentHash && source.unit == facts.cost.value.unit
        && source.verified == facts.verified && source.refund == facts.refund
        && source.rowCount == |ChildChannels(after, facts.slot)|
        && source.children ==
            (set c | c in ChildChannels(after, facts.slot) :: after.current[Key(facts.slot, c)].id)
        && VerdictFollows(after, facts, facts.finance.value.version, source.verdict)
  {
    assert (attempts + [facts])[..|attempts|] == attempts;
    HistoryInv(attempts);
    var book := History(attempts);
    var rows, after := RowsWritten(book, facts), After(book, facts);
    PublishManifestEffect(rows, facts, facts.cost.value);
    SameRowsChildren(rows, after, facts.slot);
    VerdictOfRows(book, facts);
    SameVerdict(rows, after, facts, facts.finance.value.version, Described(rows, facts, facts.cost.value).verdict);
  }
}
