/** Which bindings are found, which are accepted and what a replacement leaves, hour by hour. */
module BindingMeaning {

  import opened Basics
  import opened SourceBindings

  /** The row is confirmed for the source and its interval holds the hour; 0 ends no interval. */
  predicate Holds(table: Table, key: Key, source: Source, hour: int) {
    && key in table && key.source == source && table[key].status == Confirmed
    && key.validFrom <= hour && (table[key].validTo == 0 || hour < table[key].validTo)
  }

  /** What is looked up at an hour is the one confirmed row whose interval holds it. */
  lemma LookupSays(table: Table, source: Source, hour: int)
    requires Inv(table) && 0 <= hour
    ensures BindingAt(table, source, hour) == None <==> forall k :: k in table ==> !Holds(table, k, source, hour)
    ensures forall k :: k in table && Holds(table, k, source, hour) ==> BindingAt(table, source, hour) == Some(table[k])
  {
    forall k | k in table && Holds(table, k, source, hour) ensures BindingAt(table, source, hour) == Some(table[k]) {
      BindingIs(table, source, hour, k);
    }
    if forall k :: k in table ==> !Holds(table, k, source, hour) {
      forall k | k in table ensures !Covers(table, k, source, hour) { assert !Holds(table, k, source, hour); }
      NoBinding(table, source, hour);
    }
  }

  // Saving.

  predicate WholeHour(t: int) { t >= 0 && t < 0x8000_0000_0000_0000 && t % 3600 == 0 }

  /** A row that may be stored: a source, whole hours in order, and a channel exactly in that mode. */
  predicate WellFormed(key: Key, row: Row) {
    && key.source.domain != [] && |key.source.epoch| == 64 && |key.source.ref| == 64
    && WholeHour(key.validFrom) && WholeHour(row.validTo) && (row.validTo == 0 || key.validFrom < row.validTo)
    && (if row.mode == ToChannel then row.channel > 0 else row.channel == 0)
  }

  /** No hour of [from, to) is bound yet; 0 ends no interval. */
  ghost predicate Unbound(table: Table, source: Source, from: int, to: int) {
    forall hour: int {:trigger BindingAt(table, source, hour)} ::
      from <= hour && hour <= MAX_INT64 && (to == 0 || hour < to) ==> BindingAt(table, source, hour) == None
  }

  lemma ValidIff(key: Key, row: Row)
    ensures Valid(key, row) <==> WellFormed(key, row)
  {
  }

  lemma MeetsAnHour(table: Table, k: Key, key: Key, to: int)
    requires Inv(table) && ValidInterval(key.validFrom, to) && Meets(table, k, key.source, key.validFrom, to)
    ensures !Unbound(table, key.source, key.validFrom, to)
  {
    assert Valid(k, table[k]) && MAX_INT64 % 3600 != 0;
    var hour := Max(key.validFrom, k.validFrom);
    LookupSays(table, key.source, hour);
    assert Holds(table, k, key.source, hour);
    assert BindingAt(table, key.source, hour) != None;
  }

  lemma SharedHourMeets(table: Table, key: Key, to: int, hour: int)
    requires Inv(table) && ValidInterval(key.validFrom, to)
    requires key.validFrom <= hour <= MAX_INT64 && (to == 0 || hour < to)
    requires BindingAt(table, key.source, hour) != None
    ensures exists k :: k in table && Meets(table, k, key.source, key.validFrom, to)
  {
    assert MAX_INT64 % 3600 != 0;
    LookupSays(table, key.source, hour);
    var k :| k in table && Holds(table, k, key.source, hour);
    assert Valid(k, table[k]);
    assert Meets(table, k, key.source, key.validFrom, to);
  }

  /** A row can be saved exactly when it is well formed and new, and, if confirmed, none of its hours is
      bound. */
  lemma SavesExactlyWhen(table: Table, key: Key, row: Row)
    requires Inv(table)
    ensures MaySave(table, key, row) <==>
      && WellFormed(key, row) && key !in table
      && (row.status == Confirmed ==> Unbound(table, key.source, key.validFrom, row.validTo))
  {
    ValidIff(key, row);
    if Valid(key, row) {
      forall k | k in table && Meets(table, k, key.source, key.validFrom, row.validTo)
        ensures !Unbound(table, key.source, key.validFrom, row.validTo)
      {
        MeetsAnHour(table, k, key, row.validTo);
      }
      if !Unbound(table, key.source, key.validFrom, row.validTo) {
        var hour: int :| key.validFrom <= hour && hour <= MAX_INT64 && (row.validTo == 0 || hour < row.validTo)
          && BindingAt(table, key.source, hour) != None;
        SharedHourMeets(table, key, row.validTo, hour);
      }
    }
  }

  // Replacing.

  /** The confirmed row of the source that has no end. */
  predicate OpenRow(table: Table, key: Key, source: Source) {
    key in table && key.source == source && table[key].status == Confirmed && table[key].validTo == 0
  }

  /** The caller has seen what is there: the open row and its start, or that there is none. */
  predicate Fresh(table: Table, source: Source, token: Token) {
    if token.seen.Some? then
      && OpenRow(table, token.seen.value.0, source) && table[token.seen.value.0] == token.seen.value.1
      && token.validFrom == Some(token.seen.value.0.validFrom)
    else
      (token.validFrom == None || token.validFrom == Some(0)) && forall k :: k in table ==> !OpenRow(table, k, source)
  }

  /** The new row starts after the open one, which ends there; or it corrects one that has not begun. */
  predicate StartsInTime(key: Key, token: Token, now: int) {
    token.seen.Some? ==>
      var open := token.seen.value.0;
      open.validFrom < key.validFrom || (open.validFrom == key.validFrom && now < open.validFrom)
  }

  /** Every other confirmed row of the source is over when the new one starts. */
  predicate OthersOver(table: Table, key: Key, token: Token) {
    forall k ::
      (k in table && k.source == key.source && table[k].status == Confirmed
        && (token.seen.Some? ==> k != token.seen.value.0)) ==>
        table[k].validTo != 0 && table[k].validTo <= key.validFrom
  }

  predicate Corrects(key: Key, token: Token) {
    token.seen.Some? && token.seen.value.0.validFrom == key.validFrom
  }

  /** The table after a replacement. */
  function Succeeded(table: Table, key: Key, row: Row, token: Token): Table {
    if token.seen.None? || Corrects(key, token) || token.seen.value.0 !in table then table[key := row]
    else
      var open := token.seen.value.0;
      table[open := table[open].(validTo := key.validFrom)][key := row]
  }

  ghost predicate MayReplace(table: Table, key: Key, row: Row, token: Token, now: int) {
    && WellFormed(key, row) && row.status == Confirmed && row.validTo == 0
    && Fresh(table, key.source, token) && StartsInTime(key, token, now)
    && (key in table ==> Corrects(key, token)) && OthersOver(table, key, token)
  }

  lemma OpenIs(table: Table, source: Source)
    requires Inv(table)
    ensures var open := Latest(OpenKeys(table, source));
      && (open.None? <==> forall k :: k in table ==> !OpenRow(table, k, source))
      && (open.Some? ==> OpenRow(table, open.value, source))
      && forall k :: k in table && OpenRow(table, k, source) ==> open == Some(k)
  {
    var open := Latest(OpenKeys(table, source));
    forall k | k in table ensures OpenRow(table, k, source) <==> k in OpenKeys(table, source) {}
    forall k | k in table && OpenRow(table, k, source) ensures open == Some(k) {
      AtMostOneOpen(table, source, k, open.value);
    }
  }

  lemma FreshIff(table: Table, source: Source, token: Token)
    requires Inv(table)
    ensures var open := Latest(OpenKeys(table, source));
      Fresh(table, source, token) <==>
        if open.None? then (token.validFrom.None? || token.validFrom.value == 0) && token.seen.None?
        else token.validFrom == Some(open.value.validFrom) && token.seen == Some((open.value, table[open.value]))
  {
    OpenIs(table, source);
  }

  lemma ClosedIs(table: Table, key: Key, token: Token, now: int)
    requires Inv(table)
    ensures var closed := Closed(table, Latest(OpenKeys(table, key.source)), key, token, now);
      && (closed.Some? <==> Fresh(table, key.source, token) && StartsInTime(key, token, now))
      && (closed.Some? ==>
            closed.value ==
              if token.seen.None? then table
              else if Corrects(key, token) then table - {token.seen.value.0}
              else table[token.seen.value.0 := table[token.seen.value.0].(validTo := key.validFrom)])
      && (closed.Some? && Corrects(key, token) ==> token.seen.value.0 == key)
  {
    OpenIs(table, key.source);
    FreshIff(table, key.source, token);
  }

  lemma ClosedRoom(table: Table, key: Key, row: Row, token: Token, now: int, closed: Table)
    requires Inv(table) && Admissible(key, row)
    requires Closed(table, Latest(OpenKeys(table, key.source)), key, token, now) == Some(closed)
    ensures MaySave(closed, key, row) <==> (key in table ==> Corrects(key, token)) && OthersOver(table, key, token)
  {
    ClosedIs(table, key, token, now);
    assert MAX_INT64 % 3600 != 0;
    forall k | k in closed
      ensures Meets(closed, k, key.source, key.validFrom, 0) <==>
        && k in table && k.source == key.source && table[k].status == Confirmed
        && (token.seen.Some? ==> k != token.seen.value.0)
        && !(table[k].validTo != 0 && table[k].validTo <= key.validFrom)
    {
      assert k in table && Valid(k, table[k]);
    }
  }

  /** A replacement is accepted exactly when the new row is an open confirmed one that starts in time,
      the caller's token is fresh and nothing confirmed reaches past its start; a stale token is
      refused. It leaves exactly the old row closed, or corrected, and the new one. */
  lemma ReplacesExactlyWhen(table: Table, key: Key, row: Row, token: Token, now: int)
    requires Inv(table)
    ensures Replaced(table, key, row, token, now).Some? <==> MayReplace(table, key, row, token, now)
    ensures Replaced(table, key, row, token, now).Some? ==>
      Replaced(table, key, row, token, now).value == Succeeded(table, key, row, token)
  {
    ValidIff(key, row);
    ClosedIs(table, key, token, now);
    var closed := Closed(table, Latest(OpenKeys(table, key.source)), key, token, now);
    if Admissible(key, row) && closed.Some? {
      ClosedRoom(table, key, row, token, now, closed.value);
      if Corrects(key, token) { assert (table - {key})[key := row] == table[key := row]; }
    }
  }
}
