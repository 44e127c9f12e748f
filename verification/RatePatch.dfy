/** Patches of channel rates: built from an approved proposal, reversed for a rollback, applied to
    the stored rate rows and to the normalized snapshot that every finance version freezes. */
module RatePatch {

  import opened Basics

  datatype RateKey = RateKey(channel: int, group: string)

  /** A stored row; discount 0 stands for the default 1. */
  datatype RateRow = RateRow(upstream: string, multiplier: real, discount: real, effectiveAt: int)

  /** The normalized part of a row that patches and snapshots talk about. */
  datatype Rate = Rate(upstream: string, multiplier: real, discount: real)

  datatype Change = Change(key: RateKey, before: Rate, after: Rate)

  /** White space as strings.TrimSpace sees it. */
  predicate IsSpace(c: char) {
    || '\t' <= c <= '\r' || c == ' ' || c == '\U{85}' || c == '\U{A0}' || c == '\U{1680}'
        || '\U{2000}' <= c <= '\U{200A}'
    || c == '\U{2028}' || c == '\U{2029}' || c == '\U{202F}' || c == '\U{205F}' || c == '\U{3000}'
  }

  function TrimLeft(s: string): string { if s != [] && IsSpace(s[0]) then TrimLeft(s[1..]) else s }

  function TrimRight(s: string): string { if s != [] && IsSpace(s[|s| - 1]) then TrimRight(s[..|s| - 1]) else s }

  function Trim(s: string): string { TrimRight(TrimLeft(s)) }

  lemma {:induction false} TrimLeftDone(s: string)
    ensures TrimLeft(s) == [] || !IsSpace(TrimLeft(s)[0])
    decreases |s|
  {
    if s != [] && IsSpace(s[0]) { TrimLeftDone(s[1..]); }
  }

  lemma {:induction false} TrimRightDone(s: string)
    requires s == [] || !IsSpace(s[0])
    ensures TrimRight(s) == [] || (!IsSpace(TrimRight(s)[0]) && !IsSpace(TrimRight(s)[|TrimRight(s)| - 1]))
    decreases |s|
  {
    if s != [] && IsSpace(s[|s| - 1]) { TrimRightDone(s[..|s| - 1]); }
  }

  lemma TrimTwice(s: string)
    ensures Trim(Trim(s)) == Trim(s)
  {
    TrimLeftDone(s);
    TrimRightDone(TrimLeft(s));
  }

  predicate AllSpace(s: string) { forall i :: 0 <= i < |s| ==> IsSpace(s[i]) }

  lemma {:induction false} TrimLeftCuts(s: string) returns (cut: string)
    ensures s == cut + TrimLeft(s) && AllSpace(cut)
    decreases |s|
  {
    if s != [] && IsSpace(s[0]) {
      var rest := TrimLeftCuts(s[1..]);
      cut := [s[0]] + rest;
    } else {
      cut := [];
    }
  }

  lemma {:induction false} TrimRightCuts(s: string) returns (cut: string)
    ensures s == TrimRight(s) + cut && AllSpace(cut)
    decreases |s|
  {
    if s != [] && IsSpace(s[|s| - 1]) {
      var rest := TrimRightCuts(s[..|s| - 1]);
      cut := rest + [s[|s| - 1]];
    } else {
      cut := [];
    }
  }

  /** Trimming cuts white space off both ends, all of it and nothing else. */
  lemma TrimIs(s: string) returns (left: string, right: string)
    ensures s == left + Trim(s) + right && AllSpace(left) && AllSpace(right)
    ensures Trim(s) != [] ==> !IsSpace(Trim(s)[0]) && !IsSpace(Trim(s)[|Trim(s)| - 1])
  {
    left := TrimLeftCuts(s);
    right := TrimRightCuts(TrimLeft(s));
    TrimLeftDone(s);
    TrimRightDone(TrimLeft(s));
  }

  function Normal(discount: real): real { if discount == 0.0 then 1.0 else discount }

  function Normalized(r: Rate): Rate { r.(discount := Normal(r.discount)) }

  /** How a stored row reads. */
  function RateOf(row: RateRow): Rate { Rate(Trim(row.upstream), row.multiplier, Normal(row.discount)) }

  predicate SameRate(a: Rate, b: Rate) { Normalized(a) == Normalized(b) }

  function Reverse(patch: seq<Change>): seq<Change> {
    seq(|patch|, i requires 0 <= i < |patch| => Change(patch[i].key, patch[i].after, patch[i].before))
  }

  predicate DistinctKeys(patch: seq<Change>) { forall i, j :: 0 <= i < j < |patch| ==> patch[i].key != patch[j].key }

  /** Both sides read as rows do: names trimmed. */
  predicate NamesTrimmed(patch: seq<Change>) {
    forall i :: 0 <= i < |patch| ==>
        Trim(patch[i].before.upstream) == patch[i].before.upstream
        && Trim(patch[i].after.upstream) == patch[i].after.upstream
  }

  // Stored rows.

  predicate Matches(rates: map<RateKey, RateRow>, patch: seq<Change>) {
    forall i :: 0 <= i < |patch| ==> patch[i].key in rates && SameRate(RateOf(rates[patch[i].key]), patch[i].before)
  }

  function WrittenRow(c: Change, at: int): RateRow {
    RateRow(c.after.upstream, c.after.multiplier, c.after.discount, at)
  }

  /** All writes of the patch, in order. */
  function Written(rates: map<RateKey, RateRow>, patch: seq<Change>, at: int): map<RateKey, RateRow> {
    if patch == [] then rates
    else
      var last := patch[|patch| - 1];
      Written(rates, patch[..|patch| - 1], at)[last.key := WrittenRow(last, at)]
  }

  predicate Touches(patch: seq<Change>, key: RateKey) { exists i :: 0 <= i < |patch| && patch[i].key == key }

  lemma TouchesAppend(patch: seq<Change>, c: Change, key: RateKey)
    ensures Touches(patch + [c], key) <==> Touches(patch, key) || c.key == key
  {
    var all := patch + [c];
    if Touches(patch, key) { var i :| 0 <= i < |patch| && patch[i].key == key; assert all[i].key == key; }
    if c.key == key { assert all[|patch|].key == key; }
  }

  lemma TouchesReverse(patch: seq<Change>, key: RateKey)
    ensures Touches(Reverse(patch), key) <==> Touches(patch, key)
  {
    var back := Reverse(patch);
    if Touches(patch, key) { var i :| 0 <= i < |patch| && patch[i].key == key; assert back[i].key == key; }
    if Touches(back, key) { var i :| 0 <= i < |back| && back[i].key == key; assert patch[i].key == key; }
  }

  lemma {:induction false} WrittenIsExact(rates: map<RateKey, RateRow>, patch: seq<Change>, at: int)
    requires DistinctKeys(patch) && forall i :: 0 <= i < |patch| ==> patch[i].key in rates
    ensures Written(rates, patch, at).Keys == rates.Keys
    ensures forall i :: 0 <= i < |patch| ==> Written(rates, patch, at)[patch[i].key] == WrittenRow(patch[i], at)
    ensures forall key :: key in rates && !Touches(patch, key) ==> Written(rates, patch, at)[key] == rates[key]
    decreases |patch|
  {
    if patch != [] {
      var n := |patch| - 1;
      var before, after := Written(rates, patch[..n], at), Written(rates, patch, at);
      WrittenIsExact(rates, patch[..n], at);
      assert after == before[patch[n].key := WrittenRow(patch[n], at)];
      assert patch == patch[..n] + [patch[n]];
      forall i | 0 <= i < |patch| ensures after[patch[i].key] == WrittenRow(patch[i], at) {
        if i < n { assert patch[..n][i] == patch[i]; }
      }
      forall key | key in rates && !Touches(patch, key) ensures after[key] == rates[key] {
        TouchesAppend(patch[..n], patch[n], key);
      }
    }
  }

  class RateTable {
    var rates: map<RateKey, RateRow>

    constructor (initial: map<RateKey, RateRow>)
      ensures rates == initial
    {
      rates := initial;
    }

    /** First every row is compared with the patch, then every row is written: a refusal has changed
        nothing, and once writing has begun no row can be missing. */
    method ApplyPatch(patch: seq<Change>, at: int) returns (ok: bool)
      modifies this
      ensures ok <==> Matches(old(rates), patch)
      ensures rates == if ok then Written(old(rates), patch, at) else old(rates)
    {
      var i := 0;
      while i < |patch|
        invariant 0 <= i <= |patch| && rates == old(rates)
        invariant Matches(rates, patch[..i])
      {
        if patch[i].key !in rates || !SameRate(RateOf(rates[patch[i].key]), patch[i].before) { return false; }
        i := i + 1;
      }
      assert patch[..i] == patch;
      i := 0;
      while i < |patch|
        invariant 0 <= i <= |patch|
        invariant rates == Written(old(rates), patch[..i], at) && rates.Keys == old(rates).Keys
      {
        assert patch[i].key in rates;
        assert patch[..i + 1][..i] == patch[..i];
        rates := rates[patch[i].key := WrittenRow(patch[i], at)];
        i := i + 1;
      }
      assert patch[..i] == patch;
      return true;
    }
  }

  /** A rollback finds exactly what the approval left, and restores every patched row to its
      normalized values without touching another row. */
  lemma RollbackRestores(rates: map<RateKey, RateRow>, patch: seq<Change>, at: int, later: int)
    requires Matches(rates, patch) && DistinctKeys(patch) && NamesTrimmed(patch)
    ensures var applied := Written(rates, patch, at);
      && Matches(applied, Reverse(patch))
      && var restored := Written(applied, Reverse(patch), later);
      && restored.Keys == rates.Keys
      && (forall key :: key in rates ==> RateOf(restored[key]) == RateOf(rates[key]))
      && (forall key :: key in rates && !Touches(patch, key) ==> restored[key] == rates[key])
  {
    WrittenIsExact(rates, patch, at);
    var applied := Written(rates, patch, at);
    AppliedMatchesReverse(applied, patch, at);
    WrittenIsExact(applied, Reverse(patch), later);
    forall key | key in rates
      ensures RateOf(Written(applied, Reverse(patch), later)[key]) == RateOf(rates[key])
      ensures !Touches(patch, key) ==> Written(applied, Reverse(patch), later)[key] == rates[key]
    {
      RestoredRow(rates, patch, at, later, key);
    }
  }

  lemma AppliedMatchesReverse(applied: map<RateKey, RateRow>, patch: seq<Change>, at: int)
    requires DistinctKeys(patch) && NamesTrimmed(patch)
    requires forall i :: 0 <= i < |patch| ==>
      patch[i].key in applied && applied[patch[i].key] == WrittenRow(patch[i], at)
    ensures DistinctKeys(Reverse(patch)) && Matches(applied, Reverse(patch))
  {
    var back := Reverse(patch);
    forall i | 0 <= i < |back|
      ensures back[i].key in applied && SameRate(RateOf(applied[back[i].key]), back[i].before)
    {
      assert back[i].key == patch[i].key;
    }
  }

  lemma RestoredRow(rates: map<RateKey, RateRow>, patch: seq<Change>, at: int, later: int, key: RateKey)
    requires Matches(rates, patch) && DistinctKeys(patch) && NamesTrimmed(patch) && key in rates
    ensures var applied := Written(rates, patch, at);
      && key in Written(applied, Reverse(patch), later)
      && RateOf(Written(applied, Reverse(patch), later)[key]) == RateOf(rates[key])
      && (!Touches(patch, key) ==> Written(applied, Reverse(patch), later)[key] == rates[key])
  {
    WrittenIsExact(rates, patch, at);
    var applied, back := Written(rates, patch, at), Reverse(patch);
    AppliedMatchesReverse(applied, patch, at);
    WrittenIsExact(applied, back, later);
    TouchesReverse(patch, key);
    if Touches(patch, key) {
      var i :| 0 <= i < |patch| && patch[i].key == key;
      assert back[i] == Change(key, patch[i].after, patch[i].before);
      RestoresRate(rates[key], patch[i], later);
    }
  }

  lemma RestoresRate(row: RateRow, c: Change, later: int)
    requires SameRate(RateOf(row), c.before) && Trim(c.before.upstream) == c.before.upstream
    ensures RateOf(WrittenRow(Change(c.key, c.after, c.before), later)) == RateOf(row)
  {
  }

  // Snapshots.

  /** The rates a snapshot of some channels freezes. */
  function Frozen(rates: map<RateKey, RateRow>, channels: set<int>): map<RateKey, Rate> {
    map key | key in rates && key.channel in channels :: RateOf(rates[key])
  }

  predicate AllIn(patch: seq<Change>, frozen: map<RateKey, Rate>) {
    forall i :: 0 <= i < |patch| ==> patch[i].key in frozen
  }

  function Rewritten(frozen: map<RateKey, Rate>, patch: seq<Change>): map<RateKey, Rate> {
    if patch == [] then frozen
    else
      var last := patch[|patch| - 1];
      Rewritten(frozen, patch[..|patch| - 1])[last.key := Normalized(last.after)]
  }

  /** The target snapshot; duplicate or unknown keys are refused. */
  function Target(frozen: map<RateKey, Rate>, patch: seq<Change>): Result<map<RateKey, Rate>> {
    if !DistinctKeys(patch) || !AllIn(patch, frozen) then Err else Ok(Rewritten(frozen, patch))
  }

  lemma {:induction false} RewrittenIsExact(frozen: map<RateKey, Rate>, patch: seq<Change>)
    requires DistinctKeys(patch) && AllIn(patch, frozen)
    ensures Rewritten(frozen, patch).Keys == frozen.Keys
    ensures forall i :: 0 <= i < |patch| ==> Rewritten(frozen, patch)[patch[i].key] == Normalized(patch[i].after)
    ensures forall key :: key in frozen && !Touches(patch, key) ==> Rewritten(frozen, patch)[key] == frozen[key]
    decreases |patch|
  {
    if patch != [] {
      var n := |patch| - 1;
      RewrittenIsExact(frozen, patch[..n]);
      forall i | 0 <= i < |patch| ensures Rewritten(frozen, patch)[patch[i].key] == Normalized(patch[i].after) {
        assert i < n ==> patch[..n][i] == patch[i] && patch[i].key != patch[n].key;
      }
      forall key | key in frozen && !Touches(patch, key) ensures Rewritten(frozen, patch)[key] == frozen[key] {
        TouchesAppend(patch[..n], patch[n], key);
        assert patch == patch[..n] + [patch[n]];
      }
    }
  }

  predicate Holds(frozen: map<RateKey, Rate>, patch: seq<Change>) {
    forall i :: 0 <= i < |patch| ==> patch[i].key in frozen && frozen[patch[i].key] == Normalized(patch[i].before)
  }

  lemma ReverseShape(patch: seq<Change>, frozen: map<RateKey, Rate>)
    requires DistinctKeys(patch) && AllIn(patch, frozen)
    ensures DistinctKeys(Reverse(patch)) && AllIn(Reverse(patch), Rewritten(frozen, patch))
    ensures forall key :: Touches(Reverse(patch), key) <==> Touches(patch, key)
  {
    RewrittenIsExact(frozen, patch);
    forall key ensures Touches(Reverse(patch), key) <==> Touches(patch, key) { TouchesReverse(patch, key); }
  }

  /** On a snapshot the reversed patch undoes the patch exactly when the snapshot held the rows the
      patch says were there before. */
  lemma ReverseUndoesIff(frozen: map<RateKey, Rate>, patch: seq<Change>)
    requires Target(frozen, patch).Ok?
    ensures Target(Target(frozen, patch).value, Reverse(patch)) == Ok(frozen) <==> Holds(frozen, patch)
  {
    var target, back := Rewritten(frozen, patch), Reverse(patch);
    RewrittenIsExact(frozen, patch);
    ReverseShape(patch, frozen);
    RewrittenIsExact(target, back);
    var undone := Rewritten(target, back);
    forall i | 0 <= i < |patch|
      ensures undone[patch[i].key] == Normalized(patch[i].before)
    {
      assert back[i].key == patch[i].key;
    }
    if Holds(frozen, patch) {
      forall key | key in frozen ensures undone[key] == frozen[key] {
        if Touches(patch, key) { var i :| 0 <= i < |patch| && patch[i].key == key; }
      }
      assert undone == frozen;
    }
    if undone == frozen {
      forall i | 0 <= i < |patch|
        ensures patch[i].key in frozen && frozen[patch[i].key] == Normalized(patch[i].before)
      {
      }
    }
  }

  /** Writing the rows and rewriting the snapshot agree, so the check after the writes holds. */
  lemma SnapshotFollowsRows(rates: map<RateKey, RateRow>, channels: set<int>, patch: seq<Change>, at: int)
    requires DistinctKeys(patch) && AllIn(patch, Frozen(rates, channels)) && NamesTrimmed(patch)
    ensures Frozen(Written(rates, patch, at), channels) == Rewritten(Frozen(rates, channels), patch)
  {
    var frozen := Frozen(rates, channels);
    WrittenIsExact(rates, patch, at);
    RewrittenIsExact(frozen, patch);
    forall key | key in frozen
      ensures Frozen(Written(rates, patch, at), channels)[key] == Rewritten(frozen, patch)[key]
    {
      if Touches(patch, key) { var i :| 0 <= i < |patch| && patch[i].key == key; }
    }
  }

  lemma TouchedIsIn(patch: seq<Change>, frozen: map<RateKey, Rate>, key: RateKey)
    requires AllIn(patch, frozen)
    ensures Touches(patch, key) ==> key in frozen
  {
  }

  /** Snapshots of other channels do not see a patch. */
  lemma WrittenElsewhere(rates: map<RateKey, RateRow>, mine: set<int>, others: set<int>, patch: seq<Change>, at: int)
    requires DistinctKeys(patch) && AllIn(patch, Frozen(rates, mine)) && mine !! others
    ensures Frozen(Written(rates, patch, at), others) == Frozen(rates, others)
  {
    WrittenIsExact(rates, patch, at);
    forall key | key in rates && key.channel in others ensures Written(rates, patch, at)[key] == rates[key] {
      TouchedIsIn(patch, Frozen(rates, mine), key);
    }
  }

  /** A snapshot that holds the before-rows means the stored rows match. */
  lemma HeldRowsMatch(rates: map<RateKey, RateRow>, channels: set<int>, patch: seq<Change>)
    requires Holds(Frozen(rates, channels), patch)
    ensures Matches(rates, patch)
  {
    forall i | 0 <= i < |patch|
      ensures patch[i].key in rates && SameRate(RateOf(rates[patch[i].key]), patch[i].before)
    {
      assert patch[i].key in Frozen(rates, channels);
    }
  }

  // Building a patch.

  datatype Proposed = Proposed(channel: int, upstream: string, value: real)

  /** The rows in group order; rows of another channel or upstream group are passed over. */
  function Built(p: Proposed, rows: seq<(RateKey, RateRow)>): Result<seq<Change>> {
    if rows == [] then Ok([])
    else
      var before := Built(p, rows[..|rows| - 1]);
      var (key, row) := rows[|rows| - 1];
      if before.Err? then Err
      else if key.channel != p.channel || Trim(row.upstream) != Trim(p.upstream) then before
      else
        var rate := RateOf(row);
        if rate.discount <= 0.0 || !ValidNumber(p.value / rate.discount) then Err
        else Ok(before.value + [Change(key, rate, rate.(multiplier := p.value / rate.discount))])
  }

  function BuildPatch(p: Proposed, rows: seq<(RateKey, RateRow)>): Result<seq<Change>> {
    if p.value <= 0.0 then Err
    else
      var built := Built(p, rows);
      if built.Err? || built.value == [] then Err else built
  }

  predicate FromTable(rates: map<RateKey, RateRow>, rows: seq<(RateKey, RateRow)>) {
    && (forall i :: 0 <= i < |rows| ==> rows[i].0 in rates && rates[rows[i].0] == rows[i].1)
    && (forall i, j :: 0 <= i < j < |rows| ==> rows[i].0 != rows[j].0)
  }

  predicate Wanted(p: Proposed, row: (RateKey, RateRow)) {
    row.0.channel == p.channel && Trim(row.1.upstream) == Trim(p.upstream)
  }

  /** The change of one row: name and discount stay, multiplier times discount becomes the value. */
  predicate Faithful(p: Proposed, row: (RateKey, RateRow), c: Change) {
    && c.key == row.0 && c.before == RateOf(row.1)
    && c.after.upstream == c.before.upstream && c.after.discount == c.before.discount
    && c.after.multiplier * c.after.discount == p.value
  }

  function WantedRows(p: Proposed, rows: seq<(RateKey, RateRow)>): seq<(RateKey, RateRow)> {
    if rows == [] then []
    else
      var last := rows[|rows| - 1];
      WantedRows(p, rows[..|rows| - 1]) + if Wanted(p, last) then [last] else []
  }

  lemma QuotientTimes(x: real, d: real)
    requires d > 0.0
    ensures x / d * d == x
  {
  }

  /** A built patch has one faithful change for every wanted row, in the same order. */
  lemma {:induction false} BuiltIsFaithful(p: Proposed, rows: seq<(RateKey, RateRow)>)
    requires Built(p, rows).Ok?
    ensures |Built(p, rows).value| == |WantedRows(p, rows)|
    ensures forall i :: 0 <= i < |Built(p, rows).value| ==> Faithful(p, WantedRows(p, rows)[i], Built(p, rows).value[i])
    decreases |rows|
  {
    if rows != [] {
      var n := |rows| - 1;
      BuiltIsFaithful(p, rows[..n]);
      if Wanted(p, rows[n]) { QuotientTimes(p.value, RateOf(rows[n].1).discount); }
    }
  }

  lemma {:induction false} WantedRowsFromTable(p: Proposed, rates: map<RateKey, RateRow>, rows: seq<(RateKey, RateRow)>)
    requires FromTable(rates, rows)
    ensures FromTable(rates, WantedRows(p, rows))
    ensures forall i :: 0 <= i < |WantedRows(p, rows)| ==> WantedRows(p, rows)[i] in rows
    decreases |rows|
  {
    if rows != [] {
      var n := |rows| - 1;
      WantedRowsFromTable(p, rates, rows[..n]);
      var wanted := WantedRows(p, rows[..n]);
      forall i | 0 <= i < |wanted| ensures wanted[i].0 != rows[n].0 {
        var j :| 0 <= j < n && rows[..n][j] == wanted[i];
        assert rows[j].0 == wanted[i].0;
      }
    }
  }

  /** A built patch can be applied to the table it was built from, and rolled back later. */
  lemma BuiltPatchFits(p: Proposed, rates: map<RateKey, RateRow>, rows: seq<(RateKey, RateRow)>)
    requires FromTable(rates, rows) && BuildPatch(p, rows).Ok?
    ensures var patch := BuildPatch(p, rows).value; Matches(rates, patch) && DistinctKeys(patch) && NamesTrimmed(patch)
  {
    var patch, wanted := BuildPatch(p, rows).value, WantedRows(p, rows);
    BuiltIsFaithful(p, rows);
    WantedRowsFromTable(p, rates, rows);
    forall i | 0 <= i < |patch|
      ensures patch[i].key in rates && SameRate(RateOf(rates[patch[i].key]), patch[i].before)
      ensures Trim(patch[i].before.upstream) == patch[i].before.upstream
      ensures Trim(patch[i].after.upstream) == patch[i].after.upstream
    {
      assert Faithful(p, wanted[i], patch[i]);
      TrimTwice(wanted[i].1.upstream);
    }
    forall i, j | 0 <= i < j < |patch| ensures patch[i].key != patch[j].key {
      assert Faithful(p, wanted[i], patch[i]) && Faithful(p, wanted[j], patch[j]);
    }
  }

  /** A patch is built exactly for a positive value with some wanted row, each of which can carry it:
      its discount is positive and the multiplier that follows is in range. */
  lemma {:induction false} BuiltIff(p: Proposed, rows: seq<(RateKey, RateRow)>)
    ensures Built(p, rows).Ok? <==> forall row :: row in WantedRows(p, rows) ==> Carries(p, row.1)
    decreases |rows|
  {
    if rows != [] {
      BuiltIff(p, rows[..|rows| - 1]);
      var before, last := WantedRows(p, rows[..|rows| - 1]), rows[|rows| - 1];
      if Wanted(p, last) {
        assert last in before + [last] && forall row :: row in before ==> row in before + [last];
      } else {
        assert before + [] == before;
      }
    }
  }

  predicate Carries(p: Proposed, row: RateRow) {
    var discount := if row.discount == 0.0 then 1.0 else row.discount;
    discount > 0.0 && 0.000000001 <= p.value / discount && p.value / discount <= 1000000000.0
  }

  lemma BuildsExactlyWhen(p: Proposed, rows: seq<(RateKey, RateRow)>)
    ensures BuildPatch(p, rows).Ok? <==>
      p.value > 0.0 && WantedRows(p, rows) != [] && forall row :: row in WantedRows(p, rows) ==> Carries(p, row.1)
  {
    BuiltIff(p, rows);
    if Built(p, rows).Ok? { BuiltIsFaithful(p, rows); }
  }

  /** The wanted rows are those of the channel and the upstream group, in order. */
  lemma {:induction false} WantedAre(p: Proposed, rows: seq<(RateKey, RateRow)>)
    ensures forall row ::
      multiset(WantedRows(p, rows))[row] ==
        if row.0.channel == p.channel && Trim(row.1.upstream) == Trim(p.upstream) then multiset(rows)[row] else 0
    decreases |rows|
  {
    if rows != [] {
      var before, last := rows[..|rows| - 1], rows[|rows| - 1];
      WantedAre(p, before);
      var wanted := WantedRows(p, before);
      assert rows == before + [last];
      assert multiset(rows) == multiset(before) + multiset{last};
      assert Wanted(p, last) ==> multiset(wanted + [last]) == multiset(wanted) + multiset{last};
      assert wanted + [] == wanted;
    }
  }
}
