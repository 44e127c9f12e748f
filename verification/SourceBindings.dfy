/** Which local channel a cost source belongs to, over half-open intervals of whole hours. An open
    interval has validTo 0. */
module SourceBindings {

  import opened Basics

  datatype Source = Source(domain: string, epoch: string, ref: string)

  /** The primary key. */
  datatype Key = Key(source: Source, validFrom: int)

  datatype Status = Draft | Confirmed | Retired

  datatype Mode = ToChannel | Shared | Unallocated

  /** note stands for the remaining text columns, which the signature covers too. */
  datatype Row = Row(validTo: int, status: Status, mode: Mode, channel: int, note: string)

  type Table = map<Key, Row>

  predicate ValidInterval(from: int, to: int) {
    0 <= from <= MAX_INT64 && from % 3600 == 0 && 0 <= to <= MAX_INT64 && to % 3600 == 0 && (to != 0 ==> to > from)
  }

  predicate Valid(key: Key, row: Row) {
    && key.source.domain != "" && |key.source.epoch| == 64 && |key.source.ref| == 64
    && ValidInterval(key.validFrom, row.validTo)
    && (row.mode == ToChannel <==> row.channel > 0) && (row.mode != ToChannel ==> row.channel == 0)
  }

  function End(validTo: int): int { if validTo == 0 then MAX_INT64 else validTo }

  /** A confirmed row of the source whose interval meets [from, to). */
  predicate Meets(table: Table, key: Key, source: Source, from: int, to: int) {
    && key in table && key.source == source && table[key].status == Confirmed
    && key.validFrom < End(to) && (table[key].validTo == 0 || table[key].validTo > from)
  }

  predicate Covers(table: Table, key: Key, source: Source, hour: int) {
    && key in table && key.source == source && table[key].status == Confirmed
    && key.validFrom <= hour && (table[key].validTo == 0 || table[key].validTo > hour)
  }

  predicate IsOpen(table: Table, key: Key, source: Source) {
    key in table && key.source == source && table[key].status == Confirmed && table[key].validTo == 0
  }

  /** Confirmed intervals of one source are pairwise disjoint. */
  ghost predicate Disjoint(table: Table) {
    forall j, k ::
      j in table && k in table && j != k && j.source == k.source
      && table[j].status == Confirmed && table[k].status == Confirmed ==>
        Apart(j, table[j], k, table[k])
  }

  predicate Apart(j: Key, a: Row, k: Key, b: Row) {
    (a.validTo != 0 && a.validTo <= k.validFrom) || (b.validTo != 0 && b.validTo <= j.validFrom)
  }

  predicate AllValid(table: Table) { forall key :: key in table ==> Valid(key, table[key]) }

  ghost predicate Inv(table: Table) { AllValid(table) && Disjoint(table) }

  // Lookup.

  /** The row with the latest start among those that satisfy a condition. */
  predicate IsLatest(key: Key, keys: set<Key>) { key in keys && forall k :: k in keys ==> k.validFrom <= key.validFrom }

  lemma {:induction false} HasLatest(keys: set<Key>)
    requires keys != {}
    ensures exists key :: IsLatest(key, keys)
    decreases |keys|
  {
    var k := Any(keys);
    var rest := keys - {k};
    if rest == {} {
      assert keys == {k};
      assert IsLatest(k, keys);
    } else {
      HasLatest(rest);
      var m :| IsLatest(m, rest);
      assert IsLatest(if k.validFrom > m.validFrom then k else m, keys);
    }
  }

  function CoveringKeys(table: Table, source: Source, hour: int): set<Key> {
    set k | k in table && Covers(table, k, source, hour)
  }

  function OpenKeys(table: Table, source: Source): set<Key> { set k | k in table && IsOpen(table, k, source) }

  ghost function Latest(keys: set<Key>): Option<Key>
    ensures Latest(keys).Some? ==> IsLatest(Latest(keys).value, keys)
    ensures Latest(keys).None? <==> keys == {}
  {
    if keys == {} then None
    else
      HasLatest(keys);
      var key :| IsLatest(key, keys);
      Some(key)
  }

  /** The binding of a source at an hour. */
  ghost function BindingAt(table: Table, source: Source, hour: int): Option<Row> {
    var key := Latest(CoveringKeys(table, source, hour));
    if key.None? then None else Some(table[key.value])
  }

  /** At most one row covers an hour, so the order of the query decides nothing. */
  lemma LookupIsUnique(table: Table, source: Source, hour: int, j: Key, k: Key)
    requires Inv(table) && 0 <= hour && Covers(table, j, source, hour) && Covers(table, k, source, hour)
    ensures j == k
  {
    assert j != k ==> Apart(j, table[j], k, table[k]);
  }

  lemma AtMostOneOpen(table: Table, source: Source, j: Key, k: Key)
    requires Inv(table) && IsOpen(table, j, source) && IsOpen(table, k, source)
    ensures j == k
  {
    assert j != k ==> Apart(j, table[j], k, table[k]);
  }

  lemma BindingIs(table: Table, source: Source, hour: int, key: Key)
    requires Inv(table) && 0 <= hour && Covers(table, key, source, hour)
    ensures BindingAt(table, source, hour) == Some(table[key])
  {
    assert key in CoveringKeys(table, source, hour);
    LookupIsUnique(table, source, hour, key, Latest(CoveringKeys(table, source, hour)).value);
  }

  lemma NoBinding(table: Table, source: Source, hour: int)
    requires forall k :: k in table ==> !Covers(table, k, source, hour)
    ensures BindingAt(table, source, hour) == None
  {
    assert CoveringKeys(table, source, hour) == {};
  }

  // Save.

  /** A confirmed row must meet no confirmed row; other rows are stored as they are. */
  predicate MaySave(table: Table, key: Key, row: Row) {
    && Valid(key, row) && key !in table
    && (row.status == Confirmed ==> forall k :: k in table ==> !Meets(table, k, key.source, key.validFrom, row.validTo))
  }

  lemma SaveKeepsInv(table: Table, key: Key, row: Row)
    requires Inv(table) && MaySave(table, key, row)
    ensures Inv(table[key := row])
  {
    assert MAX_INT64 % 3600 != 0;
    var after := table[key := row];
    forall j, k | j in after && k in after && j != k && j.source == k.source && after[j].status == Confirmed
        && after[k].status == Confirmed
      ensures Apart(j, after[j], k, after[k])
    {
      if j != key && k != key {
        assert Apart(j, table[j], k, table[k]);
      } else {
        var other := if j == key then k else j;
        assert !Meets(table, other, key.source, key.validFrom, row.validTo);
      }
    }
  }

  /** A save resolves exactly the hours it covers, all of them unresolved before. */
  lemma SaveResolvesOnlyOpenHours(table: Table, key: Key, row: Row, source: Source, hour: int)
    requires Inv(table) && MaySave(table, key, row) && 0 <= hour <= MAX_INT64
    ensures var after := table[key := row];
      if Covers(after, key, source, hour) then
        BindingAt(table, source, hour) == None && BindingAt(after, source, hour) == Some(row)
      else BindingAt(after, source, hour) == BindingAt(table, source, hour)
  {
    var after := table[key := row];
    SaveKeepsInv(table, key, row);
    if Covers(after, key, source, hour) {
      assert MAX_INT64 % 3600 != 0;
      BindingIs(after, source, hour, key);
      forall k | k in table ensures !Covers(table, k, source, hour) {
        assert !Meets(table, k, key.source, key.validFrom, row.validTo);
        if Covers(table, k, source, hour) {
          BindingIs(after, source, hour, k);
          LookupIsUnique(after, source, hour, key, k);
        }
      }
      NoBinding(table, source, hour);
    } else {
      SameCover(table, after, source, hour);
    }
  }

  /** The same rows cover the hour, with the same content. */
  lemma SameCover(a: Table, b: Table, source: Source, hour: int)
    requires Inv(a) && Inv(b) && 0 <= hour
    requires forall k :: Covers(a, k, source, hour) <==> Covers(b, k, source, hour)
    requires forall k :: k in a && k in b && Covers(a, k, source, hour) ==> Content(a[k]) == Content(b[k])
    ensures SameBinding(BindingAt(a, source, hour), BindingAt(b, source, hour))
    ensures (forall k :: k in a && k in b && Covers(a, k, source, hour) ==> a[k] == b[k]) ==>
      BindingAt(a, source, hour) == BindingAt(b, source, hour)
  {
    if key :| Covers(a, key, source, hour) {
      BindingIs(a, source, hour, key);
      BindingIs(b, source, hour, key);
    } else {
      NoBinding(a, source, hour);
      NoBinding(b, source, hour);
    }
  }

  /** Everything but the end of the interval. */
  function Content(row: Row): Row { row.(validTo := 0) }

  predicate SameBinding(a: Option<Row>, b: Option<Row>) {
    (a.None? && b.None?) || (a.Some? && b.Some? && Content(a.value) == Content(b.value))
  }

  // Replace.

  /** The token of an optimistic lock: the start and the signature of the row the caller saw. */
  datatype Token = Token(validFrom: Option<int>, seen: Option<(Key, Row)>)

  predicate Admissible(key: Key, row: Row) { Valid(key, row) && row.status == Confirmed && row.validTo == 0 }

  /** The table after closing or removing the open row, or None when the token or the start is refused. */
  function Closed(table: Table, current: Option<Key>, key: Key, token: Token, now: int): Option<Table>
    requires current.Some? ==> current.value in table
  {
    if current.None? then
      (if (token.validFrom.Some? && token.validFrom.value != 0) || token.seen.Some? then None else Some(table))
    else
      var open := current.value;
      if token.validFrom != Some(open.validFrom) || token.seen != Some((open, table[open])) then None
      else if key.validFrom == open.validFrom && open.validFrom > now then Some(table - {open})
      else if key.validFrom <= open.validFrom then None
      else Some(table[open := table[open].(validTo := key.validFrom)])
  }

  ghost function Replaced(table: Table, key: Key, row: Row, token: Token, now: int): Option<Table> {
    if !Admissible(key, row) then None
    else
      var closed := Closed(table, Latest(OpenKeys(table, key.source)), key, token, now);
      if closed.None? then None
      else if !MaySave(closed.value, key, row) then None
      else Some(closed.value[key := row])
  }

  lemma CloseKeepsInv(table: Table, key: Key, row: Row, token: Token, now: int)
    requires Inv(table) && Admissible(key, row)
    requires Closed(table, Latest(OpenKeys(table, key.source)), key, token, now).Some?
    ensures Inv(Closed(table, Latest(OpenKeys(table, key.source)), key, token, now).value)
  {
    var open, after := Latest(OpenKeys(table, key.source)),
      Closed(table, Latest(OpenKeys(table, key.source)), key, token, now).value;
    if open.Some? {
      forall j, k | j in after && k in after && j != k && j.source == k.source && after[j].status == Confirmed
          && after[k].status == Confirmed
        ensures Apart(j, after[j], k, after[k])
      {
        assert Apart(j, table[j], k, table[k]);
      }
    }
  }

  lemma ReplaceKeepsInv(table: Table, key: Key, row: Row, token: Token, now: int)
    requires Inv(table) && Replaced(table, key, row, token, now).Some?
    ensures Inv(Replaced(table, key, row, token, now).value)
  {
    CloseKeepsInv(table, key, row, token, now);
    SaveKeepsInv(Closed(table, Latest(OpenKeys(table, key.source)), key, token, now).value, key, row);
  }

  lemma BoundFromStart(after: Table, key: Key, row: Row, hour: int)
    requires Inv(after) && key in after && after[key] == row && Admissible(key, row) && key.validFrom <= hour
    ensures BindingAt(after, key.source, hour) == Some(row)
  {
    BindingIs(after, key.source, hour, key);
  }

  /** Closing and appending touches no row of another source, and none where it covers an earlier hour. */
  lemma SameCoverEarlier(
    table: Table, open: Option<Key>, key: Key, row: Row, token: Token, now: int, source: Source, hour: int, k: Key)
    requires open.Some? ==> IsOpen(table, open.value, key.source)
    requires Closed(table, open, key, token, now).Some? && key !in Closed(table, open, key, token, now).value
    requires source != key.source || hour < key.validFrom
    ensures var after := Closed(table, open, key, token, now).value[key := row];
      && (Covers(after, k, source, hour) <==> Covers(table, k, source, hour))
      && (k in after && Covers(table, k, source, hour) ==> Content(after[k]) == Content(table[k]))
  {
  }

  lemma EarlierHoursKept(
    table: Table, open: Option<Key>, key: Key, row: Row, token: Token, now: int, source: Source, hour: int)
    requires Inv(table) && 0 <= hour && (open.Some? ==> IsOpen(table, open.value, key.source))
    requires Closed(table, open, key, token, now).Some? && key !in Closed(table, open, key, token, now).value
    requires Inv(Closed(table, open, key, token, now).value[key := row])
    requires source != key.source || hour < key.validFrom
    ensures SameBinding(BindingAt(Closed(table, open, key, token, now).value[key := row], source, hour),
      BindingAt(table, source, hour))
  {
    var after := Closed(table, open, key, token, now).value[key := row];
    forall k
      ensures Covers(after, k, source, hour) <==> Covers(table, k, source, hour)
      ensures k in after && k in table && Covers(after, k, source, hour) ==> Content(after[k]) == Content(table[k])
    {
      SameCoverEarlier(table, open, key, row, token, now, source, hour, k);
    }
    SameCover(after, table, source, hour);
  }

  /** From its start on, the new row is the binding; before it, and for other sources, every hour keeps
      the channel it had. */
  lemma ReplaceChangesNoEarlierHour(table: Table, key: Key, row: Row, token: Token, now: int, source: Source, hour: int)
    requires Inv(table) && Replaced(table, key, row, token, now).Some? && 0 <= hour
    ensures var after := Replaced(table, key, row, token, now).value;
      if source == key.source && key.validFrom <= hour then BindingAt(after, source, hour) == Some(row)
      else SameBinding(BindingAt(after, source, hour), BindingAt(table, source, hour))
  {
    ReplaceKeepsInv(table, key, row, token, now);
    if source == key.source && key.validFrom <= hour {
      BoundFromStart(Replaced(table, key, row, token, now).value, key, row, hour);
    } else {
      EarlierHoursKept(table, Latest(OpenKeys(table, key.source)), key, row, token, now, source, hour);
    }
  }

  // Runs.

  datatype Step = DoSave(key: Key, row: Row) | DoReplace(key: Key, row: Row, token: Token, now: int)

  /** A refused step changes nothing. */
  ghost function Do(table: Table, step: Step): Table {
    match step
    case DoSave(key, row) => if MaySave(table, key, row) then table[key := row] else table
    case DoReplace(key, row, token, now) =>
      if Replaced(table, key, row, token, now).Some? then Replaced(table, key, row, token, now).value else table
  }

  ghost function After(steps: seq<Step>): Table {
    if steps == [] then map[] else Do(After(steps[..|steps| - 1]), steps[|steps| - 1])
  }

  lemma StepKeepsInv(table: Table, step: Step)
    requires Inv(table)
    ensures Inv(Do(table, step))
  {
    match step
    case DoSave(key, row) => if MaySave(table, key, row) { SaveKeepsInv(table, key, row); }
    case DoReplace(key, row, token, now) =>
      if Replaced(table, key, row, token, now).Some? { ReplaceKeepsInv(table, key, row, token, now); }
  }

  /** Over any run of saves and replacements the confirmed intervals of a source stay disjoint, so an hour
      has at most one binding and a source at most one open row. */
  lemma {:induction false} RunKeepsInv(steps: seq<Step>)
    ensures Inv(After(steps))
    decreases |steps|
  {
    if steps != [] {
      var n := |steps| - 1;
      RunKeepsInv(steps[..n]);
      StepKeepsInv(After(steps[..n]), steps[n]);
    }
  }

  /** A replacement of the source that starts at the hour or before it. */
  predicate Rebinds(step: Step, source: Source, hour: int) {
    step.DoReplace? && step.key.source == source && step.key.validFrom <= hour
  }

  lemma StepKeepsBound(table: Table, step: Step, source: Source, hour: int)
    requires Inv(table) && 0 <= hour <= MAX_INT64 && BindingAt(table, source, hour).Some?
    requires !Rebinds(step, source, hour)
    ensures SameBinding(BindingAt(Do(table, step), source, hour), BindingAt(table, source, hour))
  {
    match step
    case DoSave(key, row) =>
      if MaySave(table, key, row) { SaveResolvesOnlyOpenHours(table, key, row, source, hour); }
    case DoReplace(key, row, token, now) =>
      if Replaced(table, key, row, token, now).Some? {
        ReplaceChangesNoEarlierHour(table, key, row, token, now, source, hour);
      }
  }

  /** Once an hour has a binding it keeps it through any longer run, unless a replacement is made that
      starts at that hour or before it. */
  lemma {:induction false} BoundHoursStayBound(steps: seq<Step>, more: seq<Step>, source: Source, hour: int)
    requires 0 <= hour <= MAX_INT64 && BindingAt(After(steps), source, hour).Some?
    requires forall i :: 0 <= i < |more| ==> !Rebinds(more[i], source, hour)
    ensures SameBinding(BindingAt(After(steps + more), source, hour), BindingAt(After(steps), source, hour))
    decreases |more|
  {
    if more == [] {
      assert steps + more == steps;
    } else {
      var n := |more| - 1;
      assert (steps + more)[..|steps| + n] == steps + more[..n];
      BoundHoursStayBound(steps, more[..n], source, hour);
      RunKeepsInv(steps + more[..n]);
      StepKeepsBound(After(steps + more[..n]), more[n], source, hour);
    }
  }

  // The table as the service updates it.

  method FindLatest(keys: set<Key>) returns (r: Option<Key>)
    ensures r.None? <==> keys == {}
    ensures r.Some? ==> IsLatest(r.value, keys)
  {
    r := None;
    var todo := keys;
    while todo != {}
      invariant todo <= keys
      invariant r.None? ==> todo == keys
      invariant r.Some? ==> r.value in keys && forall k :: k in keys - todo ==> k.validFrom <= r.value.validFrom
      decreases todo
    {
      var k :| k in todo;
      if r.None? || k.validFrom > r.value.validFrom { r := Some(k); }
      todo := todo - {k};
    }
  }

  class BindingStore {
    var table: Table

    constructor ()
      ensures table == map[] && Inv(table)
    {
      table := map[];
    }

    method Lookup(source: Source, hour: int) returns (r: Option<Row>)
      requires Inv(table) && 0 <= hour
      ensures r == BindingAt(table, source, hour)
    {
      var key := FindLatest(CoveringKeys(table, source, hour));
      if key.None? {
        assert BindingAt(table, source, hour) == None;
        return None;
      }
      BindingIs(table, source, hour, key.value);
      return Some(table[key.value]);
    }

    method Save(key: Key, row: Row) returns (ok: bool)
      requires Inv(table)
      modifies this
      ensures Inv(table) && ok == MaySave(old(table), key, row)
      ensures table == if ok then old(table)[key := row] else old(table)
    {
      if !Valid(key, row) { return false; }
      if row.status == Confirmed {
        if exists k :: k in table && Meets(table, k, key.source, key.validFrom, row.validTo) { return false; }
      }
      if key in table { return false; }
      SaveKeepsInv(table, key, row);
      table := table[key := row];
      return true;
    }

    /** Closes the open row at the new start, or corrects a row that has not begun, and appends. */
    method Replace(key: Key, row: Row, token: Token, now: int) returns (ok: bool)
      requires Inv(table)
      modifies this
      ensures Inv(table) && ok == Replaced(old(table), key, row, token, now).Some?
      ensures table == if ok then Replaced(old(table), key, row, token, now).value else old(table)
    {
      if !Admissible(key, row) { return false; }
      var before := table;
      var open := FindLatest(OpenKeys(table, key.source));
      if open.Some? { AtMostOneOpen(table, key.source, open.value, Latest(OpenKeys(table, key.source)).value); }
      assert open == Latest(OpenKeys(table, key.source));
      if open.None? {
        if (token.validFrom.Some? && token.validFrom.value != 0) || token.seen.Some? { return false; }
      } else {
        var current := open.value;
        if token.validFrom != Some(current.validFrom) || token.seen != Some((current, table[current])) { return false; }
        if key.validFrom == current.validFrom && current.validFrom > now {
          table := table - {current};
        } else if key.validFrom <= current.validFrom {
          return false;
        } else {
          table := table[current := table[current].(validTo := key.validFrom)];
        }
      }
      CloseKeepsInv(before, key, row, token, now);
      ok := Save(key, row);
      if !ok { table := before; }
    }
  }
}
