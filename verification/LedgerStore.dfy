/** The publication of an hour as the service runs it: accumulators filled in loops, tables
    rewritten row by row inside one transaction. */
module LedgerStore {

  import opened Basics
  import opened Money
  import opened Ledger
  import LedgerTheorems

  /** One row of evidence goes to the channel its binding names; int64 overflow is refused. */
  method AddOne(facts: Facts, byChannel: map<int, Acc>, e: Evidence) returns (r: Result<map<int, Acc>>)
    ensures r == AddEvidence(facts, byChannel, e)
  {
    var channel := ChannelOf(facts, e);
    var acc := if channel in byChannel then byChannel[channel] else EMPTY_ACC;
    if e.chargeUnits > MAX_INT64 - acc.chargeUnits || e.requests > MAX_INT64 - acc.upstreamRequests { return Err; }
    acc := acc.(chargeUnits := acc.chargeUnits + e.chargeUnits, upstreamRequests := acc.upstreamRequests + e.requests);
    acc := acc.(costRows := acc.costRows + [e.contentHash], parts := acc.parts + multiset{PartOf(facts, e)});
    acc := acc.(hasCost := true, unallocated := acc.unallocated || !Allocated(facts, e.sourceRef));
    return Ok(byChannel[channel := acc]);
  }

  /** The loop over the hour's evidence. */
  method AttributeEvidence(facts: Facts) returns (accs: Result<map<int, Acc>>)
    ensures accs == Attributed(facts, facts.evidence)
  {
    var byChannel: map<int, Acc> := map[];
    var i := 0;
    while i < |facts.evidence|
      invariant 0 <= i <= |facts.evidence|
      invariant Attributed(facts, facts.evidence[..i]) == Ok(byChannel)
    {
      AttributedStep(facts, facts.evidence, i);
      var next := AddOne(facts, byChannel, facts.evidence[i]);
      if next.Err? {
        FailedPrefix(facts, facts.evidence, i + 1);
        return Err;
      }
      byChannel := next.value;
      i := i + 1;
    }
    assert facts.evidence[..i] == facts.evidence;
    return Ok(byChannel);
  }

  lemma AttributedStep(facts: Facts, rows: seq<Evidence>, i: nat)
    requires i < |rows| && Attributed(facts, rows[..i]).Ok?
    ensures Attributed(facts, rows[..i + 1]) == AddEvidence(facts, Attributed(facts, rows[..i]).value, rows[i])
  {
    assert rows[..i + 1][..i] == rows[..i];
  }

  /** An overflow at one row fails the whole hour. */
  lemma {:induction false} FailedPrefix(facts: Facts, rows: seq<Evidence>, n: nat)
    requires n <= |rows| && Attributed(facts, rows[..n]).Err?
    ensures Attributed(facts, rows).Err?
    decreases |rows|
  {
    if n == |rows| {
      assert rows[..n] == rows;
    } else {
      assert rows[..|rows| - 1][..n] == rows[..n];
      FailedPrefix(facts, rows[..|rows| - 1], n);
    }
  }

  function Elements(channels: seq<int>): set<int> { set c | c in channels }

  lemma ElementsStep(channels: seq<int>, i: nat)
    requires i < |channels|
    ensures Elements(channels[..i + 1]) == Elements(channels[..i]) + {channels[i]}
  {
    assert channels[..i + 1] == channels[..i] + [channels[i]];
  }

  /** Every channel of the list gets an accumulator. */
  method EnsureChannels(accs: map<int, Acc>, channels: seq<int>) returns (byChannel: map<int, Acc>)
    ensures byChannel == WithChannels(accs, Elements(channels))
  {
    byChannel := accs;
    var i := 0;
    while i < |channels|
      invariant 0 <= i <= |channels|
      invariant byChannel == WithChannels(accs, Elements(channels[..i]))
    {
      ElementsStep(channels, i);
      if channels[i] !in byChannel { byChannel := byChannel[channels[i] := EMPTY_ACC]; }
      i := i + 1;
    }
    assert channels[..i] == channels;
  }

  /** WithLocals restricted to some channels. */
  function WithSome(accs: map<int, Acc>, locals: map<int, Local>, some: set<int>): map<int, Acc>
    requires some <= locals.Keys
  {
    map c | c in accs.Keys + some :: if c in some then LocalAdded(accs, c, locals[c]) else accs[c]
  }

  lemma WithSomeStep(accs: map<int, Acc>, locals: map<int, Local>, some: set<int>, c: int)
    requires some <= locals.Keys && c in locals && c !in some
    ensures WithSome(accs, locals, some + {c}) == WithSome(accs, locals, some)[c := LocalAdded(accs, c, locals[c])]
    ensures (if c in WithSome(accs, locals, some) then WithSome(accs, locals, some)[c] else EMPTY_ACC) ==
      if c in accs then accs[c] else EMPTY_ACC
  {
  }

  lemma WithAll(accs: map<int, Acc>, locals: map<int, Local>)
    ensures WithSome(accs, locals, locals.Keys) == WithLocals(accs, locals)
  {
  }

  /** The local rows, negative figures refused. */
  method AddLocals(accs: map<int, Acc>, facts: Facts) returns (ok: bool, byChannel: map<int, Acc>)
    ensures ok <==> LocalsValid(facts)
    ensures ok ==> byChannel == WithLocals(accs, facts.locals)
  {
    byChannel := accs;
    var locals := facts.locals;
    var todo := locals.Keys;
    ghost var done: set<int> := {};
    while todo != {}
      invariant done == locals.Keys - todo && todo <= locals.Keys
      invariant forall c :: c in done ==> LocalValid(locals[c])
      invariant byChannel == WithSome(accs, locals, done)
      decreases todo
    {
      var c := MinOf(todo);
      if !LocalValid(locals[c]) { return false, byChannel; }
      WithSomeStep(accs, locals, done, c);
      var acc := if c in byChannel then byChannel[c] else EMPTY_ACC;
      byChannel := byChannel[c := acc.(local := locals[c], hasLocal := true)];
      todo, done := todo - {c}, done + {c};
    }
    assert done == locals.Keys;
    WithAll(accs, locals);
    return true, byChannel;
  }

  function LocalAdded(accs: map<int, Acc>, c: int, local: Local): Acc {
    (if c in accs then accs[c] else EMPTY_ACC).(local := local, hasLocal := true)
  }

  class Store {
    var publications: map<Id, Publication>
    var current: map<Key, Pointer<Id>>
    var manifests: map<ManifestId, Manifest>
    var manifestCurrent: map<HourKey, Pointer<ManifestId>>

    function Tables(): Book
      reads this
    {
      Book(publications, current, manifests, manifestCurrent)
    }

    constructor ()
      ensures Tables() == EMPTY_BOOK
    {
      publications, current, manifests, manifestCurrent := map[], map[], map[], map[];
    }

    method Restore(book: Book)
      modifies this
      ensures Tables() == book
    {
      publications, current, manifests, manifestCurrent :=
          book.publications, book.current, book.manifests, book.manifestCurrent;
    }

    method PublishOne(key: Key, row: Row) returns (ok: bool)
      modifies this
      ensures ok == PublishRow(old(Tables()), key, row).Ok?
      ensures Tables() == if ok then PublishRow(old(Tables()), key, row).value else old(Tables())
    {
      var revision, supersedes := 0, None;
      if key in current {
        var pointer := current[key];
        if pointer.id !in publications { return false; }
        if publications[pointer.id].row.source == row.source { return true; }
        revision, supersedes := pointer.revision, Some(pointer.id);
      }
      var profitKnown, profit := row.coverage == VerifiedComplete, 0;
      if profitKnown {
        var difference := Subtract(row.revenue, row.corrected);
        if difference.Err? { return false; }
        profit := difference.value;
      }
      var id := Id(key, row.source, revision + 1);
      if id in publications { return false; }
      publications := publications[id := Publication(key, revision + 1, supersedes, row, profit, profitKnown)];
      current := current[key := Pointer(id, revision + 1)];
      return true;
    }

    /** The loop over the channels, in ascending order; stops at the first failure. */
    method PublishChannels(facts: Facts, cost: CostHour, finance: Finance, accs: map<int, Acc>, channels: seq<int>)
      returns (ok: bool)
      requires forall c :: c in channels ==> c in accs
      modifies this
      ensures ok == PublishRows(old(Tables()), facts, cost, finance, accs, channels).Ok?
      ensures ok ==> Tables() == PublishRows(old(Tables()), facts, cost, finance, accs, channels).value
    {
      ghost var start := Tables();
      var i := 0;
      while i < |channels|
        invariant 0 <= i <= |channels|
        invariant PublishRows(start, facts, cost, finance, accs, channels[..i]) == Ok(Tables())
      {
        assert channels[..i + 1][..i] == channels[..i];
        var row := RowOf(facts, cost, finance, channels[i], accs[channels[i]]);
        if row.Err? {
          FailedChannels(start, facts, cost, finance, accs, channels, i + 1);
          return false;
        }
        var done := PublishOne(Key(facts.slot, channels[i]), row.value);
        if !done {
          FailedChannels(start, facts, cost, finance, accs, channels, i + 1);
          return false;
        }
        i := i + 1;
      }
      assert channels[..i] == channels;
      return true;
    }

    method PublishManifestRow(facts: Facts, cost: CostHour) returns (ok: bool)
      modifies this
      ensures ok == PublishManifest(old(Tables()), facts, cost).Ok?
      ensures ok ==> Tables() == PublishManifest(old(Tables()), facts, cost).value
    {
      if !HeadsPresent(Tables(), facts.slot) { return false; }
      var source, hour := Described(Tables(), facts, cost), HourKey(facts.slot.domain, facts.slot.hour);
      var revision, supersedes := 0, None;
      if hour in manifestCurrent {
        var pointer := manifestCurrent[hour];
        if pointer.id !in manifests { return false; }
        if manifests[pointer.id].source == source { return true; }
        revision, supersedes := pointer.revision, Some(pointer.id);
      }
      var id := ManifestId(hour, source, revision + 1);
      if id in manifests { return false; }
      manifests := manifests[id := Manifest(hour, revision + 1, supersedes, source)];
      manifestCurrent := manifestCurrent[hour := Pointer(id, revision + 1)];
      return true;
    }

    /** One transaction: everything or nothing. */
    method Publish(facts: Facts) returns (ok: bool)
      modifies this
      ensures ok == PublishHour(old(Tables()), facts).Ok?
      ensures Tables() == LedgerTheorems.Attempted(old(Tables()), facts)
      ensures LedgerTheorems.Inv(old(Tables())) ==> LedgerTheorems.Inv(Tables())
    {
      var before := Tables();
      ok := PublishInside(facts);
      if !ok { Restore(before); }
      KeepsInv(before, facts);
    }

    method Accumulate(facts: Facts) returns (accs: Result<map<int, Acc>>)
      ensures accs == Accumulated(Tables(), facts)
    {
      var attributed := AttributeEvidence(facts);
      if attributed.Err? { return Err; }
      var previous := EverPublished(Tables(), facts.slot);
      var ensured := EnsureChannels(attributed.value, Ascending(previous));
      assert Elements(Ascending(previous)) == previous;
      var valid, all := AddLocals(ensured, facts);
      return if valid then Ok(all) else Err;
    }

    method PublishInside(facts: Facts) returns (ok: bool)
      modifies this
      ensures ok == PublishHour(old(Tables()), facts).Ok?
      ensures ok ==> Tables() == PublishHour(old(Tables()), facts).value
    {
      if !Admitted(facts) { return false; }
      var accs := Accumulate(facts);
      if accs.Err? { return false; }
      var done := PublishChannels(facts, facts.cost.value, facts.finance.value, accs.value, Ascending(accs.value.Keys));
      if !done { return false; }
      ok := PublishManifestRow(facts, facts.cost.value);
    }
  }

  lemma {:induction false} FailedChannels(
      book: Book, facts: Facts, cost: CostHour, finance: Finance, accs: map<int, Acc>, channels: seq<int>, n: nat)
    requires n <= |channels| && (forall c :: c in channels ==> c in accs)
    requires PublishRows(book, facts, cost, finance, accs, channels[..n]).Err?
    ensures PublishRows(book, facts, cost, finance, accs, channels).Err?
    decreases |channels|
  {
    if n == |channels| {
      assert channels[..n] == channels;
    } else {
      assert channels[..|channels| - 1][..n] == channels[..n];
      FailedChannels(book, facts, cost, finance, accs, channels[..|channels| - 1], n);
    }
  }

  lemma KeepsInv(book: Book, facts: Facts)
    ensures LedgerTheorems.Inv(book) ==> LedgerTheorems.Inv(LedgerTheorems.Attempted(book, facts))
  {
    if LedgerTheorems.Inv(book) && LedgerTheorems.Publishes(book, facts) {
      LedgerTheorems.PublishHourKeepsInv(book, facts);
    }
  }
}
