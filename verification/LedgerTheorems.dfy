/** The promises of the hourly ledger, over every history of publications. */
module LedgerTheorems {

  import opened Basics
  import opened Ledger
  import opened LedgerHistory

  function HourOf(slot: Slot): HourKey { HourKey(slot.domain, slot.hour) }

  predicate HasManifest(book: Book, hour: HourKey) {
    hour in book.manifestCurrent && book.manifestCurrent[hour].id in book.manifests
  }

  function CurrentManifest(book: Book, hour: HourKey): ManifestSource
    requires HasManifest(book, hour)
  {
    book.manifests[book.manifestCurrent[hour].id].source
  }

  /** The slot whose rows the report shows for an hour: the one of the manifest's epoch. */
  function Authoritative(book: Book, hour: HourKey): Slot
    requires HasManifest(book, hour)
  {
    Slot(hour.domain, CurrentManifest(book, hour).epoch, hour.hour)
  }

  predicate Describes(book: Book, hour: HourKey) {
    && HasManifest(book, hour)
    && CurrentManifest(book, hour).rowCount == |ChildChannels(book, Authoritative(book, hour))|
    && CurrentManifest(book, hour).children == Children(book, Authoritative(book, hour))
  }

  predicate ManifestsInv(book: Book) { forall hour :: hour in book.manifestCurrent ==> Describes(book, hour) }

  ghost predicate Inv(book: Book) { RowsInv(book) && ManifestsInv(book) }

  // One publication of an hour.

  function Accs(book: Book, facts: Facts): map<int, Acc>
    requires Accumulated(book, facts).Ok?
  {
    Accumulated(book, facts).value
  }

  predicate Publishes(book: Book, facts: Facts) { PublishHour(book, facts).Ok? }

  /** The rows are written; the manifest is not. */
  function RowsWritten(book: Book, facts: Facts): Book
    requires Publishes(book, facts)
  {
    PublishRows(book, facts, facts.cost.value, facts.finance.value, Accs(book, facts),
        Ascending(Accs(book, facts).Keys)).value
  }

  function After(book: Book, facts: Facts): Book
    requires Publishes(book, facts)
  {
    PublishHour(book, facts).value
  }

  lemma ChildrenKept(before: Book, after: Book, keys: set<Key>, slot: Slot)
    requires Moved(before, after, keys) && forall key :: key in keys ==> key.slot != slot
    ensures ChildChannels(after, slot) == ChildChannels(before, slot) && Children(after, slot) == Children(before, slot)
  {
    assert forall key: Key :: key.slot == slot ==> (key in before.current <==> key in after.current);
    assert ChildChannels(after, slot) == ChildChannels(before, slot);
  }

  lemma PublishManifestEffect(book: Book, facts: Facts, cost: CostHour)
    requires PublishManifest(book, facts, cost).Ok?
    ensures var after := PublishManifest(book, facts, cost).value;
      && after.publications == book.publications && after.current == book.current
      && HasManifest(after, HourOf(facts.slot)) && HeadsPresent(book, facts.slot)
      && CurrentManifest(after, HourOf(facts.slot)) == Described(book, facts, cost)
  {
  }

  lemma PublishManifestKeepsOthers(book: Book, facts: Facts, cost: CostHour, hour: HourKey)
    requires PublishManifest(book, facts, cost).Ok? && hour != HourOf(facts.slot) && HasManifest(book, hour)
    ensures var after := PublishManifest(book, facts, cost).value;
      HasManifest(after, hour) && CurrentManifest(after, hour) == CurrentManifest(book, hour)
  {
  }

  lemma PublishManifestKeys(book: Book, facts: Facts, cost: CostHour)
    requires PublishManifest(book, facts, cost).Ok?
    ensures PublishManifest(book, facts, cost).value.manifestCurrent.Keys ==
      book.manifestCurrent.Keys + {HourOf(facts.slot)}
  {
  }

  lemma PublishHourRows(book: Book, facts: Facts)
    requires RowsInv(book) && Publishes(book, facts)
    ensures RowsInv(RowsWritten(book, facts))
    ensures Moved(book, RowsWritten(book, facts), KeysOf(facts.slot, Ascending(Accs(book, facts).Keys)))
    ensures AllFresh(RowsWritten(book, facts), facts, facts.cost.value, facts.finance.value, Accs(book, facts),
      Ascending(Accs(book, facts).Keys))
  {
    AccumulatedOk(book, facts);
    PublishRowsKeepsInv(book, facts, facts.cost.value, facts.finance.value, Accs(book, facts),
        Ascending(Accs(book, facts).Keys));
    PublishRowsEffect(book, facts, facts.cost.value, facts.finance.value, Accs(book, facts),
        Ascending(Accs(book, facts).Keys));
  }

  lemma SameRowsStored(a: Book, b: Book)
    requires StoredOk(a) && HeadsOk(a) && a.publications == b.publications && a.current == b.current
    ensures StoredOk(b) && HeadsOk(b)
  {
    forall id | id in b.publications ensures Filed(id, b.publications[id]) {
      assert Filed(id, a.publications[id]);
    }
  }

  lemma SameRowsChain(a: Book, b: Book)
    requires ChainOk(a) && RevisionsDistinct(a) && a.publications == b.publications && a.current == b.current
    ensures ChainOk(b) && RevisionsDistinct(b)
  {
    forall id | id in b.publications ensures Linked(b, id) { assert Linked(a, id); }
  }

  lemma SameRowsInv(a: Book, b: Book)
    requires RowsInv(a) && a.publications == b.publications && a.current == b.current
    ensures RowsInv(b)
  {
    SameRowsStored(a, b);
    SameRowsChain(a, b);
  }

  lemma SameRowsChildren(a: Book, b: Book, slot: Slot)
    requires a.current == b.current
    ensures ChildChannels(a, slot) == ChildChannels(b, slot) && Children(a, slot) == Children(b, slot)
  {
  }

  lemma PublishHourDescribes(book: Book, facts: Facts, hour: HourKey)
    requires Inv(book) && Publishes(book, facts) && hour in After(book, facts).manifestCurrent
    ensures Describes(After(book, facts), hour)
  {
    var rows, after := RowsWritten(book, facts), After(book, facts);
    PublishHourRows(book, facts);
    PublishManifestEffect(rows, facts, facts.cost.value);
    if hour == HourOf(facts.slot) {
      SameRowsChildren(rows, after, facts.slot);
    } else {
      PublishManifestKeys(rows, facts, facts.cost.value);
      assert Describes(book, hour);
      PublishManifestKeepsOthers(rows, facts, facts.cost.value, hour);
      var slot := Authoritative(book, hour);
      ChildrenKept(book, rows, KeysOf(facts.slot, Ascending(Accs(book, facts).Keys)), slot);
      SameRowsChildren(rows, after, slot);
    }
  }

  lemma PublishHourKeepsInv(book: Book, facts: Facts)
    requires Inv(book) && Publishes(book, facts)
    ensures Inv(After(book, facts))
  {
    PublishHourRows(book, facts);
    PublishManifestEffect(RowsWritten(book, facts), facts, facts.cost.value);
    SameRowsInv(RowsWritten(book, facts), After(book, facts));
    forall hour | hour in After(book, facts).manifestCurrent ensures Describes(After(book, facts), hour) {
      PublishHourDescribes(book, facts, hour);
    }
  }

  // Every history.

  /** An attempt that fails leaves no trace. */
  function Attempted(book: Book, facts: Facts): Book {
    if Publishes(book, facts) then After(book, facts) else book
  }

  function History(attempts: seq<Facts>): Book {
    if attempts == [] then EMPTY_BOOK else Attempted(History(attempts[..|attempts| - 1]), attempts[|attempts| - 1])
  }

  lemma {:induction false} HistoryInv(attempts: seq<Facts>)
    ensures Inv(History(attempts))
    decreases |attempts|
  {
    if attempts != [] {
      HistoryInv(attempts[..|attempts| - 1]);
      var before, facts := History(attempts[..|attempts| - 1]), attempts[|attempts| - 1];
      if Publishes(before, facts) { PublishHourKeepsInv(before, facts); }
    }
  }

  /** The ledger is immutable: a later history has every publication and every manifest of an
      earlier one, unchanged. */
  lemma {:induction false} NothingIsRewritten(attempts: seq<Facts>, more: seq<Facts>)
    ensures Extends(History(attempts), History(attempts + more))
    decreases |more|
  {
    if more == [] {
      assert attempts + more == attempts;
    } else {
      var n := |more| - 1;
      NothingIsRewritten(attempts, more[..n]);
      StepExtends(attempts + more[..n], more[n]);
      ExtendsCompose(History(attempts), History(attempts + more[..n]), History(attempts + more[..n] + [more[n]]));
      assert attempts + more == attempts + more[..n] + [more[n]];
    }
  }

  lemma StepExtends(attempts: seq<Facts>, last: Facts)
    ensures Extends(History(attempts), History(attempts + [last]))
  {
    assert (attempts + [last])[..|attempts|] == attempts;
    HistoryInv(attempts);
    AttemptExtends(History(attempts), last);
  }

  lemma ExtendsCompose(a: Book, b: Book, c: Book)
    requires Extends(a, b) && Extends(b, c)
    ensures Extends(a, c)
  {
  }

  lemma AttemptExtends(book: Book, facts: Facts)
    requires RowsInv(book)
    ensures Extends(book, Attempted(book, facts))
  {
    if Publishes(book, facts) { PublishHourExtends(book, facts); }
  }

  lemma PublishManifestExtends(book: Book, facts: Facts, cost: CostHour)
    requires PublishManifest(book, facts, cost).Ok?
    ensures Extends(book, PublishManifest(book, facts, cost).value)
  {
  }

  lemma PublishHourExtends(book: Book, facts: Facts)
    requires RowsInv(book) && Publishes(book, facts)
    ensures Extends(book, After(book, facts))
  {
    PublishHourRows(book, facts);
    PublishManifestExtends(RowsWritten(book, facts), facts, facts.cost.value);
  }

  /** Row count and set of the manifest equal those of the rows the report joins: the heads whose
      publication belongs to the manifest's domain, hour and epoch. */
  function JoinedKeys(book: Book, hour: HourKey): set<Key>
    requires HasManifest(book, hour)
  {
    set key | key in book.current && book.current[key].id in book.publications &&
      book.publications[book.current[key].id].key.slot == Authoritative(book, hour)
  }

  lemma ReportCheckHolds(attempts: seq<Facts>, hour: HourKey)
    requires hour in History(attempts).manifestCurrent
    ensures var book := History(attempts);
      && HasManifest(book, hour)
      && CurrentManifest(book, hour).rowCount == |JoinedKeys(book, hour)|
      && CurrentManifest(book, hour).children == set key | key in JoinedKeys(book, hour) :: book.current[key].id
  {
    HistoryInv(attempts);
    var book := History(attempts);
    assert Describes(book, hour);
    JoinIsChildren(book, hour);
  }

  function SlotKeys(book: Book, slot: Slot): set<Key> { set key | key in book.current && key.slot == slot }

  lemma JoinedAreSlotKeys(book: Book, hour: HourKey)
    requires StoredOk(book) && HeadsOk(book) && HasManifest(book, hour)
    ensures JoinedKeys(book, hour) == SlotKeys(book, Authoritative(book, hour))
  {
    forall key | key in book.current
      ensures book.current[key].id in book.publications && book.publications[book.current[key].id].key == key
    {
      assert Filed(book.current[key].id, book.publications[book.current[key].id]);
    }
  }

  lemma SlotKeysAreChildren(book: Book, slot: Slot)
    ensures |SlotKeys(book, slot)| == |ChildChannels(book, slot)|
    ensures Children(book, slot) == set key | key in SlotKeys(book, slot) :: book.current[key].id
  {
    var keys, channels := SlotKeys(book, slot), ChildChannels(book, slot);
    assert channels == set key | key in keys :: key.channel;
    ChannelsOfKeys(keys, slot);
    forall key | key in keys ensures key.channel in channels && Key(slot, key.channel) == key {}
    forall c | c in channels ensures Key(slot, c) in keys {}
  }

  lemma JoinIsChildren(book: Book, hour: HourKey)
    requires StoredOk(book) && HeadsOk(book) && HasManifest(book, hour)
    ensures |JoinedKeys(book, hour)| == |ChildChannels(book, Authoritative(book, hour))|
    ensures Children(book, Authoritative(book, hour)) == set key | key in JoinedKeys(book, hour) :: book.current[key].id
  {
    JoinedAreSlotKeys(book, hour);
    SlotKeysAreChildren(book, Authoritative(book, hour));
  }

  lemma {:induction false} ChannelsOfKeys(keys: set<Key>, slot: Slot)
    requires forall key :: key in keys ==> key.slot == slot
    ensures |set key | key in keys :: key.channel| == |keys|
    decreases |keys|
  {
    if keys == {} {
    } else {
      var key := Any(keys);
      ChannelsOfKeys(keys - {key}, slot);
      assert (set k | k in keys :: k.channel) == (set k | k in keys - {key} :: k.channel) + {key.channel};
      assert key.channel !in set k | k in keys - {key} :: k.channel;
    }
  }

  // What a successful publication leaves behind.

  function HeadRow(book: Book, slot: Slot, channel: int): Row
    requires Head(book, Key(slot, channel)).Some?
  {
    Head(book, Key(slot, channel)).value.row
  }

  /** What the facts say about a channel, whatever was published before. */
  function FactsAcc(facts: Facts, channel: int): Acc
    requires Attributed(facts, facts.evidence).Ok?
  {
    var attributed := Attributed(facts, facts.evidence).value;
    var acc := if channel in attributed then attributed[channel] else EMPTY_ACC;
    if channel in facts.locals then acc.(local := facts.locals[channel], hasLocal := true) else acc
  }

  lemma RowChannels(book: Book, rows: Book, slot: Slot, channels: set<int>)
    requires HeadsOk(book) && Moved(book, rows, KeysOf(slot, Ascending(channels)))
    requires forall c :: c in EverPublished(book, slot) ==> c in channels
    ensures ChildChannels(rows, slot) == channels
  {
    forall c | c in ChildChannels(rows, slot) ensures c in channels {
      if Key(slot, c) in book.current {
        var id := book.current[Key(slot, c)].id;
        assert id in book.publications && id.key == Key(slot, c);
      } else {
        assert Key(slot, c) in KeysOf(slot, Ascending(channels));
      }
    }
    forall c | c in channels ensures c in ChildChannels(rows, slot) {
      assert c in Ascending(channels);
      assert Key(slot, c) in KeysOf(slot, Ascending(channels));
      assert Key(slot, c) in rows.current;
    }
  }

  lemma HourMoves(book: Book, facts: Facts)
    requires RowsInv(book) && Publishes(book, facts)
    ensures HeadsOk(book)
    ensures Moved(book, RowsWritten(book, facts), KeysOf(facts.slot, Ascending(Accs(book, facts).Keys)))
  {
    PublishHourRows(book, facts);
  }

  lemma AccsKeys(book: Book, facts: Facts)
    requires Accumulated(book, facts).Ok?
    ensures Accs(book, facts).Keys ==
      Attributed(facts, facts.evidence).value.Keys + facts.locals.Keys + EverPublished(book, facts.slot)
    ensures forall c :: c in Accs(book, facts) ==> Accs(book, facts)[c] == FactsAcc(facts, c)
  {
  }

  lemma AfterKeepsRows(book: Book, facts: Facts)
    requires Publishes(book, facts)
    ensures After(book, facts).current == RowsWritten(book, facts).current
    ensures After(book, facts).publications == RowsWritten(book, facts).publications
  {
    PublishManifestEffect(RowsWritten(book, facts), facts, facts.cost.value);
  }

  lemma RowsWrittenChannels(book: Book, facts: Facts)
    requires RowsInv(book) && Publishes(book, facts)
    ensures ChildChannels(RowsWritten(book, facts), facts.slot) == Accs(book, facts).Keys
  {
    AccsKeys(book, facts);
    HourMoves(book, facts);
    RowChannels(book, RowsWritten(book, facts), facts.slot, Accs(book, facts).Keys);
  }

  /** The channels published are those with facts and those ever published before. */
  lemma HourChannels(book: Book, facts: Facts)
    requires RowsInv(book) && Publishes(book, facts)
    ensures ChildChannels(After(book, facts), facts.slot)
         == Attributed(facts, facts.evidence).value.Keys + facts.locals.Keys + EverPublished(book, facts.slot)
    ensures ChildChannels(After(book, facts), facts.slot) == Accs(book, facts).Keys
  {
    AccsKeys(book, facts);
    RowsWrittenChannels(book, facts);
    AfterKeepsRows(book, facts);
    SameRowsChildren(RowsWritten(book, facts), After(book, facts), facts.slot);
  }

  lemma FreshHead(rows: Book, facts: Facts, accs: map<int, Acc>, c: int)
    requires facts.cost.Some? && facts.finance.Ok? && c in accs
    requires AllFresh(rows, facts, facts.cost.value, facts.finance.value, accs, Ascending(accs.Keys))
    ensures ShowsFresh(rows, facts, facts.cost.value, facts.finance.value, c, accs[c])
  {
    assert c in Ascending(accs.Keys);
  }

  /** Every head of the hour is the row computed from the facts alone: no trace of an earlier
      mapping is left in the current heads. */
  lemma HeadsFollowFacts(book: Book, facts: Facts, c: int)
    requires RowsInv(book) && Publishes(book, facts) && c in ChildChannels(After(book, facts), facts.slot)
    ensures ShowsFresh(After(book, facts), facts, facts.cost.value, facts.finance.value, c, FactsAcc(facts, c))
  {
    HourChannels(book, facts);
    AccsKeys(book, facts);
    PublishHourRows(book, facts);
    FreshHead(RowsWritten(book, facts), facts, Accs(book, facts), c);
    AfterKeepsRows(book, facts);
  }

  function HeadUnits(book: Book, slot: Slot): map<int, int> {
    map c | c in ChildChannels(book, slot) && Head(book, Key(slot, c)).Some? :: HeadRow(book, slot, c).chargeUnits
  }

  function HeadRequests(book: Book, slot: Slot): map<int, int> {
    map c | c in ChildChannels(book, slot) && Head(book, Key(slot, c)).Some? :: HeadRow(book, slot, c).upstreamRequests
  }

  /** Conservation: whatever was published for the hour before, and however its sources were mapped
      then, the current heads now add up to the evidence, channel by channel and in total. */
  lemma HeadsAddUpToEvidence(attempts: seq<Facts>, facts: Facts)
    requires Publishes(History(attempts), facts)
    ensures var after := History(attempts + [facts]);
      && Total(HeadUnits(after, facts.slot)) == EvidenceUnits(facts.evidence)
      && Total(HeadRequests(after, facts.slot)) == EvidenceRequests(facts.evidence)
      && forall c :: c in HeadUnits(after, facts.slot) ==>
            && c in HeadRequests(after, facts.slot)
            && HeadUnits(after, facts.slot)[c] == UnitsFor(facts, facts.evidence, c)
            && HeadRequests(after, facts.slot)[c] == RequestsFor(facts, facts.evidence, c)
  {
    assert (attempts + [facts])[..|attempts|] == attempts;
    HistoryInv(attempts);
    AccumulatedTotals(History(attempts), facts);
    HeadsAreAccs(History(attempts), facts);
  }

  lemma FreshAmounts(book: Book, facts: Facts, cost: CostHour, finance: Finance, c: int, acc: Acc)
    requires ShowsFresh(book, facts, cost, finance, c, acc)
    ensures HeadShows(book, facts.slot, c, acc)
  {
  }

  lemma HeadOfAcc(book: Book, facts: Facts, c: int)
    requires RowsInv(book) && Publishes(book, facts) && c in Accs(book, facts)
    ensures HeadShows(After(book, facts), facts.slot, c, Accs(book, facts)[c])
  {
    HourChannels(book, facts);
    AccsKeys(book, facts);
    HeadsFollowFacts(book, facts, c);
    FreshAmounts(After(book, facts), facts, facts.cost.value, facts.finance.value, c, Accs(book, facts)[c]);
  }

  lemma AccUnits(book: Book, facts: Facts, c: int)
    requires Accumulated(book, facts).Ok? && c in Accs(book, facts)
    ensures Accs(book, facts)[c].chargeUnits == UnitsFor(facts, facts.evidence, c)
    ensures Accs(book, facts)[c].upstreamRequests == RequestsFor(facts, facts.evidence, c)
  {
    AccsKeys(book, facts);
    AttributedIsExact(facts, facts.evidence, c);
  }

  predicate HeadShows(book: Book, slot: Slot, c: int, acc: Acc) {
    && Head(book, Key(slot, c)).Some?
    && HeadRow(book, slot, c).chargeUnits == acc.chargeUnits
    && HeadRow(book, slot, c).upstreamRequests == acc.upstreamRequests
  }

  lemma HeadsShowAccs(book: Book, slot: Slot, accs: map<int, Acc>)
    requires ChildChannels(book, slot) == accs.Keys && forall c :: c in accs ==> HeadShows(book, slot, c, accs[c])
    ensures HeadUnits(book, slot) == Units(accs) && HeadRequests(book, slot) == Requests(accs)
  {
    assert forall c :: c in ChildChannels(book, slot) <==> c in accs;
  }

  lemma HeadsAreAccs(book: Book, facts: Facts)
    requires RowsInv(book) && Publishes(book, facts)
    ensures HeadUnits(After(book, facts), facts.slot) == Units(Accs(book, facts))
    ensures HeadRequests(After(book, facts), facts.slot) == Requests(Accs(book, facts))
    ensures forall c :: c in Accs(book, facts) ==>
      && Accs(book, facts)[c].chargeUnits == UnitsFor(facts, facts.evidence, c)
      && Accs(book, facts)[c].upstreamRequests == RequestsFor(facts, facts.evidence, c)
  {
    forall c | c in Accs(book, facts)
      ensures HeadShows(After(book, facts), facts.slot, c, Accs(book, facts)[c])
      ensures Accs(book, facts)[c].chargeUnits == UnitsFor(facts, facts.evidence, c)
      ensures Accs(book, facts)[c].upstreamRequests == RequestsFor(facts, facts.evidence, c)
    {
      HeadOfAcc(book, facts, c);
      AccUnits(book, facts, c);
    }
    HourChannels(book, facts);
    HeadsShowAccs(After(book, facts), facts.slot, Accs(book, facts));
  }

  // The manifest's verdict.

  predicate Counts(p: Publication) { p.row.coverage != SupersededEmpty }

  predicate Complete(p: Publication) { p.row.coverage == VerifiedComplete && p.profitKnown }

  /** A version once seen stays; version 0 is not remembered. */
  predicate VersionsAgree(rows: seq<Publication>, version: int) {
    && (forall j :: 0 <= j < |rows| && Counts(rows[j]) && version != 0 ==> rows[j].row.financeVersion == version)
    && (forall i, j :: 0 <= i < j < |rows| && Counts(rows[i]) && Counts(rows[j]) && rows[i].row.financeVersion != 0 ==>
          rows[j].row.financeVersion == rows[i].row.financeVersion)
  }

  lemma VersionsAgreeTail(rows: seq<Publication>, version: int)
    requires rows != [] && Counts(rows[0]) && (version == 0 || version == rows[0].row.financeVersion)
    ensures VersionsAgree(rows, version) <==> VersionsAgree(rows[1..], rows[0].row.financeVersion)
  {
    var tail, first := rows[1..], rows[0].row.financeVersion;
    assert forall i :: 0 <= i < |tail| ==> tail[i] == rows[i + 1];
    if VersionsAgree(tail, first) {
      forall i, j | 0 <= i < j < |rows| && Counts(rows[i]) && Counts(rows[j]) && rows[i].row.financeVersion != 0
        ensures rows[j].row.financeVersion == rows[i].row.financeVersion
      {
        assert rows[j] == tail[j - 1];
        if i > 0 { assert rows[i] == tail[i - 1]; }
      }
      forall j | 0 <= j < |rows| && Counts(rows[j]) && version != 0 ensures rows[j].row.financeVersion == version {
        if j > 0 { assert rows[j] == tail[j - 1]; }
      }
    }
  }

  lemma VersionsAgreeSkip(rows: seq<Publication>, version: int)
    requires rows != [] && !Counts(rows[0])
    ensures VersionsAgree(rows, version) <==> VersionsAgree(rows[1..], version)
  {
    var tail := rows[1..];
    assert forall i :: 0 <= i < |tail| ==> tail[i] == rows[i + 1];
    if VersionsAgree(tail, version) {
      forall i, j | 0 <= i < j < |rows| && Counts(rows[i]) && Counts(rows[j]) && rows[i].row.financeVersion != 0
        ensures rows[j].row.financeVersion == rows[i].row.financeVersion
      {
        assert rows[j] == tail[j - 1] && rows[i] == tail[i - 1];
      }
      forall j | 0 <= j < |rows| && Counts(rows[j]) && version != 0 ensures rows[j].row.financeVersion == version {
        assert rows[j] == tail[j - 1];
      }
    }
  }

  /** The scan admits a profit exactly when every row that counts is complete and no two of their
      finance versions disagree. */
  lemma {:induction false} ScanIsExact(rows: seq<Publication>, version: int)
    ensures Scan(rows, version).profitKnown <==>
      (forall p :: p in rows && Counts(p) ==> Complete(p)) && VersionsAgree(rows, version)
    decreases |rows|
  {
    if rows != [] {
      assert rows == [rows[0]] + rows[1..];
      ScanIsExact(rows[1..], version);
      ScanIsExact(rows[1..], rows[0].row.financeVersion);
      if !Counts(rows[0]) { VersionsAgreeSkip(rows, version); }
      else if version == 0 || version == rows[0].row.financeVersion { VersionsAgreeTail(rows, version); }
      else { assert !VersionsAgree(rows, version); }
    }
  }

  predicate OneVersion(rows: seq<Publication>, version: int) {
    forall p :: p in rows ==> p.row.financeVersion == version && PublicationOk(p)
  }

  lemma {:induction false} OneVersionNeverConflicts(rows: seq<Publication>, seen: int, version: int)
    requires OneVersion(rows, version) && (seen == 0 || seen == version)
    ensures Scan(rows, seen).coverage != FinanceVersionConflict
    ensures Scan(rows, seen).profitKnown <==> forall p :: p in rows ==> !Counts(p) || p.row.coverage == VerifiedComplete
    decreases |rows|
  {
    if rows != [] {
      assert rows == [rows[0]] + rows[1..];
      assert rows[0] in rows;
      OneVersionNeverConflicts(rows[1..], seen, version);
      OneVersionNeverConflicts(rows[1..], rows[0].row.financeVersion, version);
    }
  }

  predicate HeadCompleteOrEmpty(book: Book, slot: Slot, c: int) {
    Head(book, Key(slot, c)).Some? && HeadRow(book, slot, c).coverage in {SupersededEmpty, VerifiedComplete}
  }

  predicate HeadOfVersion(book: Book, slot: Slot, c: int, version: int) {
    Head(book, Key(slot, c)).Some? && HeadRow(book, slot, c).financeVersion == version
        && PublicationOk(Head(book, Key(slot, c)).value)
  }

  lemma RowsAreOfVersion(book: Book, slot: Slot, channels: seq<int>, version: int)
    requires forall c :: c in channels ==> Head(book, Key(slot, c)).Some?
    requires forall c :: c in channels ==> HeadOfVersion(book, slot, c, version)
    ensures OneVersion(Rows(book, slot, channels), version)
  {
    var rows := Rows(book, slot, channels);
    forall p | p in rows ensures p.row.financeVersion == version && PublicationOk(p) {
      var i :| 0 <= i < |rows| && rows[i] == p;
      assert HeadOfVersion(book, slot, channels[i], version);
    }
  }

  lemma RowsCompleteOrEmpty(book: Book, slot: Slot, channels: seq<int>)
    requires forall c :: c in channels ==> Head(book, Key(slot, c)).Some?
    ensures (forall p :: p in Rows(book, slot, channels) ==> !Counts(p) || p.row.coverage == VerifiedComplete)
       <==> (forall c :: c in channels ==> HeadCompleteOrEmpty(book, slot, c))
  {
    var rows := Rows(book, slot, channels);
    forall i | 0 <= i < |channels|
      ensures HeadCompleteOrEmpty(book, slot, channels[i]) <==>
        !Counts(rows[i]) || rows[i].row.coverage == VerifiedComplete
    {
    }
    if forall p :: p in rows ==> !Counts(p) || p.row.coverage == VerifiedComplete {
      forall c | c in channels ensures HeadCompleteOrEmpty(book, slot, c) {
        var i :| 0 <= i < |channels| && channels[i] == c;
        assert rows[i] in rows;
      }
    }
    if forall c :: c in channels ==> HeadCompleteOrEmpty(book, slot, c) {
      forall p | p in rows ensures !Counts(p) || p.row.coverage == VerifiedComplete {
        var i :| 0 <= i < |rows| && rows[i] == p;
        assert channels[i] in channels;
      }
    }
  }

  lemma VerdictOfHeads(book: Book, slot: Slot, channels: seq<int>, version: int, verified: bool, refund: Refund)
    requires forall c :: c in channels ==> Head(book, Key(slot, c)).Some?
    requires forall c :: c in channels ==> HeadOfVersion(book, slot, c, version)
    ensures var verdict := VerdictOf(Rows(book, slot, channels), verified, refund);
      && verdict.coverage != FinanceVersionConflict
      && (verdict.profitKnown <==>
            refund.records <= 0 && refund.quota <= 0 && verified && forall c :: c in channels ==>
            HeadCompleteOrEmpty(book, slot, c))
  {
    RowsAreOfVersion(book, slot, channels, version);
    OneVersionNeverConflicts(Rows(book, slot, channels), 0, version);
    RowsCompleteOrEmpty(book, slot, channels);
  }

  lemma HeadIsOfVersion(book: Book, facts: Facts, c: int)
    requires RowsInv(book) && Publishes(book, facts) && c in Accs(book, facts)
    ensures HeadOfVersion(RowsWritten(book, facts), facts.slot, c, facts.finance.value.version)
  {
    PublishHourRows(book, facts);
    FreshHead(RowsWritten(book, facts), facts, Accs(book, facts), c);
    assert RowsWritten(book, facts).current[Key(facts.slot, c)].id in RowsWritten(book, facts).publications;
  }

  lemma HeadsSame(a: Book, b: Book, slot: Slot)
    requires a.publications == b.publications && a.current == b.current
    ensures forall c :: HeadCompleteOrEmpty(a, slot, c) <==> HeadCompleteOrEmpty(b, slot, c)
  {
  }

  lemma RowsVerdict(book: Book, facts: Facts)
    requires RowsInv(book) && Publishes(book, facts) && HeadsPresent(RowsWritten(book, facts), facts.slot)
    ensures var rows := RowsWritten(book, facts);
      var verdict := Described(rows, facts, facts.cost.value).verdict;
      && verdict.coverage != FinanceVersionConflict
      && (verdict.profitKnown <==>
            && facts.refund.records <= 0 && facts.refund.quota <= 0 && facts.verified
            && forall c :: c in ChildChannels(rows, facts.slot) ==> HeadCompleteOrEmpty(rows, facts.slot, c))
  {
    RowsWrittenChannels(book, facts);
    var channels := Ascending(ChildChannels(RowsWritten(book, facts), facts.slot));
    forall c | c in channels
      ensures HeadOfVersion(RowsWritten(book, facts), facts.slot, c, facts.finance.value.version)
    {
      HeadIsOfVersion(book, facts, c);
    }
    VerdictOfHeads(RowsWritten(book, facts), facts.slot, channels, facts.finance.value.version, facts.verified,
        facts.refund);
  }

  /** After a publication the manifest claims a known profit exactly when nothing was refunded
      without an owner, the local facts are verified, and every head is complete or superseded;
      finance versions cannot conflict. */
  lemma ManifestVerdict(book: Book, facts: Facts)
    requires RowsInv(book) && Publishes(book, facts)
    ensures HasManifest(After(book, facts), HourOf(facts.slot))
    ensures var verdict := CurrentManifest(After(book, facts), HourOf(facts.slot)).verdict;
      && verdict.coverage != FinanceVersionConflict
      && (verdict.profitKnown <==>
            && facts.refund.records <= 0 && facts.refund.quota <= 0 && facts.verified
            && forall c :: c in ChildChannels(After(book, facts), facts.slot) ==>
                  HeadCompleteOrEmpty(After(book, facts), facts.slot, c))
  {
    PublishManifestEffect(RowsWritten(book, facts), facts, facts.cost.value);
    RowsVerdict(book, facts);
    SameRowsChildren(RowsWritten(book, facts), After(book, facts), facts.slot);
    HeadsSame(RowsWritten(book, facts), After(book, facts), facts.slot);
  }

  // Publishing the same facts again.

  lemma EverPublishedAfter(book: Book, after: Book, slot: Slot, channels: set<int>)
    requires RowsInv(book) && ChainOk(after) && Moved(book, after, KeysOf(slot, Ascending(channels)))
    requires forall c :: c in EverPublished(book, slot) ==> c in channels
    ensures forall c :: c in EverPublished(after, slot) ==> c in channels
    ensures forall c :: c in EverPublished(book, slot) ==> c in EverPublished(after, slot)
  {
    RowChannels(book, after, slot, channels);
    forall c | c in EverPublished(after, slot) ensures c in channels {
      var id :| id in after.publications && id.key.slot == slot && id.key.channel == c;
      assert Linked(after, id);
      assert c in ChildChannels(after, slot);
    }
  }

  lemma SameAccumulation(book: Book, after: Book, facts: Facts)
    requires Accumulated(book, facts).Ok?
    requires forall c :: c in EverPublished(after, facts.slot) ==> c in Accs(book, facts)
    requires forall c :: c in EverPublished(book, facts.slot) ==> c in EverPublished(after, facts.slot)
    ensures Accumulated(after, facts) == Accumulated(book, facts)
  {
    AccsKeys(book, facts);
    AccsKeys(after, facts);
    var a, b := Accs(book, facts), Accs(after, facts);
    assert forall c :: c in a <==> c in b;
    assert a == b;
  }

  lemma {:induction false} FreshRowsStay(
      book: Book, facts: Facts, cost: CostHour, finance: Finance, accs: map<int, Acc>, channels: seq<int>)
    requires (forall c :: c in channels ==> c in accs) && AllFresh(book, facts, cost, finance, accs, channels)
    ensures PublishRows(book, facts, cost, finance, accs, channels) == Ok(book)
    decreases |channels|
  {
    if channels != [] {
      var n := |channels| - 1;
      assert channels == channels[..n] + [channels[n]];
      FreshRowsStay(book, facts, cost, finance, accs, channels[..n]);
      assert ShowsFresh(book, facts, cost, finance, channels[n], accs[channels[n]]);
    }
  }

  lemma SameRowsDescribed(a: Book, b: Book, facts: Facts, cost: CostHour)
    requires a.publications == b.publications && a.current == b.current && HeadsPresent(a, facts.slot)
    ensures HeadsPresent(b, facts.slot) && Described(b, facts, cost) == Described(a, facts, cost)
  {
    SameRowsChildren(a, b, facts.slot);
    forall c | c in ChildChannels(b, facts.slot)
      ensures Head(b, Key(facts.slot, c)).Some?
    {
      assert Head(a, Key(facts.slot, c)).Some?;
    }
    var channels := Ascending(ChildChannels(a, facts.slot));
    assert Rows(b, facts.slot, channels) == Rows(a, facts.slot, channels);
  }

  lemma ManifestStays(book: Book, facts: Facts, cost: CostHour)
    requires PublishManifest(book, facts, cost).Ok?
    ensures PublishManifest(PublishManifest(book, facts, cost).value, facts, cost) == PublishManifest(book, facts, cost)
  {
    PublishManifestEffect(book, facts, cost);
    SameRowsDescribed(book, PublishManifest(book, facts, cost).value, facts, cost);
  }

  lemma AllFreshSame(
      a: Book, b: Book, facts: Facts, cost: CostHour, finance: Finance, accs: map<int, Acc>, channels: seq<int>)
    requires (forall c :: c in channels ==> c in accs) && AllFresh(a, facts, cost, finance, accs, channels)
    requires a.publications == b.publications && a.current == b.current
    ensures AllFresh(b, facts, cost, finance, accs, channels)
  {
    forall c | c in channels ensures ShowsFresh(b, facts, cost, finance, c, accs[c]) {
      assert ShowsFresh(a, facts, cost, finance, c, accs[c]);
    }
  }

  lemma EverPublishedSame(a: Book, b: Book, slot: Slot)
    requires a.publications == b.publications
    ensures EverPublished(a, slot) == EverPublished(b, slot)
  {
  }

  lemma AccumulationRepeats(book: Book, facts: Facts)
    requires RowsInv(book) && Publishes(book, facts)
    ensures Accumulated(After(book, facts), facts) == Accumulated(book, facts)
  {
    var rows := RowsWritten(book, facts);
    AccsKeys(book, facts);
    PublishHourRows(book, facts);
    EverPublishedAfter(book, rows, facts.slot, Accs(book, facts).Keys);
    AfterKeepsRows(book, facts);
    EverPublishedSame(rows, After(book, facts), facts.slot);
    SameAccumulation(book, After(book, facts), facts);
  }

  lemma RowsRepeat(book: Book, facts: Facts)
    requires RowsInv(book) && Publishes(book, facts)
    ensures var accs := Accs(book, facts);
      PublishRows(After(book, facts), facts, facts.cost.value, facts.finance.value, accs, Ascending(accs.Keys)) ==
          Ok(After(book, facts))
  {
    var accs := Accs(book, facts);
    PublishHourRows(book, facts);
    AfterKeepsRows(book, facts);
    AllFreshSame(RowsWritten(book, facts), After(book, facts), facts, facts.cost.value, facts.finance.value, accs,
        Ascending(accs.Keys));
    FreshRowsStay(After(book, facts), facts, facts.cost.value, facts.finance.value, accs, Ascending(accs.Keys));
  }

  /** Publishing unchanged facts a second time succeeds and adds neither a revision nor a manifest. */
  lemma RepeatChangesNothing(book: Book, facts: Facts)
    requires RowsInv(book) && Publishes(book, facts)
    ensures PublishHour(After(book, facts), facts) == Ok(After(book, facts))
  {
    AccumulationRepeats(book, facts);
    RowsRepeat(book, facts);
    ManifestStays(RowsWritten(book, facts), facts, facts.cost.value);
  }
}
