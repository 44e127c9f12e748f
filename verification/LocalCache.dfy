/** The bounded in-process tier of the usage cache: a map and a recency list over the same
    entries, with a fresh deadline, a later stale deadline, and bounds on entries and bytes. */
module LocalCache {

  import opened Basics

  type Key = string
  type Bytes = seq<bv8>
  type Time = int

  datatype Entry = Entry(key: Key, value: Bytes, freshUntil: Time, staleUntil: Time)

  function TotalBytes(entries: seq<Entry>): nat {
    if entries == [] then 0 else TotalBytes(entries[..|entries| - 1]) + |entries[|entries| - 1].value|
  }

  predicate DistinctKeys(entries: seq<Entry>) {
    forall i, j :: 0 <= i < j < |entries| ==> entries[i].key != entries[j].key
  }

  predicate Fits(entries: seq<Entry>, maxEntries: int, maxBytes: int) {
    |entries| <= maxEntries && TotalBytes(entries) <= maxBytes
  }

  /** kept is the longest most-recent part of all that respects both bounds. */
  ghost predicate IsLongestFit(kept: seq<Entry>, all: seq<Entry>, maxEntries: int, maxBytes: int) {
    && kept <= all
    && Fits(kept, maxEntries, maxBytes)
    && forall n :: |kept| < n <= |all| ==> !Fits(all[..n], maxEntries, maxBytes)
  }

  function Without(entries: seq<Entry>, key: Key): seq<Entry> {
    if entries == [] then []
    else if entries[0].key == key then Without(entries[1..], key)
    else [entries[0]] + Without(entries[1..], key)
  }

  function Find(entries: seq<Entry>, key: Key): Option<Entry> {
    if entries == [] then None
    else if entries[0].key == key then Some(entries[0])
    else Find(entries[1..], key)
  }

  /** The list after an access: the entry moves to the front. */
  function Touch(entries: seq<Entry>, e: Entry): seq<Entry> { [e] + Without(entries, e.key) }

  lemma {:induction false} FindIsMember(entries: seq<Entry>, key: Key)
    ensures match Find(entries, key)
            case Some(e) => e in entries && e.key == key
            case None => forall e :: e in entries ==> e.key != key
  {
    if entries != [] {
      FindIsMember(entries[1..], key);
      assert entries == [entries[0]] + entries[1..];
    }
  }

  lemma FoundKey(entries: seq<Entry>, key: Key)
    ensures Find(entries, key).Some? ==> Find(entries, key).value.key == key
  {
    FindIsMember(entries, key);
  }

  lemma {:induction false} FindWithout(entries: seq<Entry>, key: Key, k: Key)
    ensures Find(Without(entries, key), k) == if k == key then None else Find(entries, k)
  {
    if entries != [] {
      FindWithout(entries[1..], key, k);
      if entries[0].key != key { FindCons(entries[0], Without(entries[1..], key), k); }
    }
  }

  lemma FindCons(e: Entry, rest: seq<Entry>, k: Key)
    ensures Find([e] + rest, k) == if k == e.key then Some(e) else Find(rest, k)
  {
    assert ([e] + rest)[1..] == rest;
  }

  lemma {:induction false} FindLast(entries: seq<Entry>)
    requires DistinctKeys(entries) && entries != []
    ensures Find(entries, entries[|entries| - 1].key) == Some(entries[|entries| - 1])
  {
    if |entries| > 1 {
      assert entries[0].key != entries[|entries| - 1].key;
      FindLast(entries[1..]);
    }
  }

  /** The map holds exactly what a search of the list finds. */
  ghost predicate Indexes(items: map<Key, Entry>, entries: seq<Entry>) {
    forall k :: if k in items then Find(entries, k) == Some(items[k]) else Find(entries, k) == None
  }

  lemma IndexesWithout(items: map<Key, Entry>, entries: seq<Entry>, key: Key)
    requires Indexes(items, entries)
    ensures Indexes(items - {key}, Without(entries, key))
  {
    forall k: Key ensures Find(Without(entries, key), k) == if k == key then None else Find(entries, k) {
      FindWithout(entries, key, k);
    }
  }

  lemma PushedFront(items: map<Key, Entry>, entries: seq<Entry>, e: Entry)
    requires Indexes(items, entries) && DistinctKeys(entries) && e.key !in items
    ensures Indexes(items[e.key := e], [e] + entries)
    ensures DistinctKeys([e] + entries)
    ensures TotalBytes([e] + entries) == |e.value| + TotalBytes(entries)
  {
    forall k: Key ensures Find([e] + entries, k) == if k == e.key then Some(e) else Find(entries, k) {
      FindCons(e, entries, k);
    }
    assert Find(entries, e.key) == None;
    FindIsMember(entries, e.key);
    forall i | 0 <= i < |entries| ensures entries[i].key != e.key { assert entries[i] in entries; }
    BytesOfConcat([e], entries);
    assert [e][..0] == [];
  }

  lemma {:induction false} DistinctWithout(entries: seq<Entry>, key: Key)
    requires DistinctKeys(entries)
    ensures DistinctKeys(Without(entries, key))
    ensures forall e :: e in Without(entries, key) ==> e in entries
  {
    if entries != [] {
      DistinctWithout(entries[1..], key);
      var rest := Without(entries[1..], key);
      forall i | 0 <= i < |rest| ensures rest[i].key != entries[0].key {
        assert rest[i] in entries[1..];
      }
    }
  }

  lemma {:induction false} BytesOfConcat(a: seq<Entry>, b: seq<Entry>)
    ensures TotalBytes(a + b) == TotalBytes(a) + TotalBytes(b)
  {
    if b == [] {
      assert a + b == a;
    } else {
      assert (a + b)[..|a + b| - 1] == a + b[..|b| - 1];
      BytesOfConcat(a, b[..|b| - 1]);
    }
  }

  lemma {:induction false} BytesWithout(entries: seq<Entry>, key: Key)
    requires DistinctKeys(entries)
    ensures TotalBytes(Without(entries, key)) ==
              TotalBytes(entries) - match Find(entries, key) case Some(e) => |e.value| case None => 0
    ensures |Without(entries, key)| == |entries| - if Find(entries, key).Some? then 1 else 0
  {
    if entries != [] {
      assert entries == [entries[0]] + entries[1..];
      assert DistinctKeys(entries[1..]);
      BytesOfConcat([entries[0]], entries[1..]);
      assert [entries[0]][..0] == [];
      assert TotalBytes([entries[0]]) == |entries[0].value|;
      BytesWithout(entries[1..], key);
      if entries[0].key == key {
        FindIsMember(entries[1..], key);
        NoneLeft(entries[1..], key);
      } else {
        BytesOfConcat([entries[0]], Without(entries[1..], key));
      }
    }
  }

  lemma {:induction false} NoneLeft(entries: seq<Entry>, key: Key)
    requires forall i :: 0 <= i < |entries| ==> entries[i].key != key
    ensures Without(entries, key) == entries && Find(entries, key) == None
  {
    if entries != [] { NoneLeft(entries[1..], key); }
  }

  /** The survivors of an eviction are determined by the list and the bounds. */
  lemma LongestFitIsUnique(a: seq<Entry>, b: seq<Entry>, all: seq<Entry>, maxEntries: int, maxBytes: int)
    requires IsLongestFit(a, all, maxEntries, maxBytes) && IsLongestFit(b, all, maxEntries, maxBytes)
    ensures a == b
  {
    assert a == all[..|a|] && b == all[..|b|];
  }

  /** An entry that fits alone always survives at the front. */
  lemma FrontSurvives(kept: seq<Entry>, all: seq<Entry>, maxEntries: int, maxBytes: int)
    requires IsLongestFit(kept, all, maxEntries, maxBytes)
    requires all != [] && maxEntries >= 1 && |all[0].value| <= maxBytes
    ensures kept != [] && kept[0] == all[0]
  {
    assert all[..1][..0] == [];
    assert TotalBytes(all[..1]) == |all[0].value|;
    assert Fits(all[..1], maxEntries, maxBytes);
  }

  /** kept is a front part of all, and every longer front part is over a bound. */
  ghost predicate Trimmed(kept: seq<Entry>, all: seq<Entry>, maxEntries: int, maxBytes: int) {
    kept <= all && forall n :: |kept| < n <= |all| ==> !Fits(all[..n], maxEntries, maxBytes)
  }

  lemma TrimOne(kept: seq<Entry>, all: seq<Entry>, maxEntries: int, maxBytes: int)
    requires Trimmed(kept, all, maxEntries, maxBytes) && kept != [] && !Fits(kept, maxEntries, maxBytes)
    ensures Trimmed(kept[..|kept| - 1], all, maxEntries, maxBytes)
  {
    assert kept == all[..|kept|];
  }

  lemma OverfullHasTwo(entries: seq<Entry>, maxEntries: int, maxBytes: int)
    requires entries != [] && !Fits(entries, maxEntries, maxBytes)
    requires maxEntries >= 1 && |entries[0].value| <= maxBytes
    ensures |entries| >= 2
  {
    assert entries[..0] == [];
    assert |entries| == 1 ==> TotalBytes(entries) == |entries[0].value|;
  }

  lemma WithoutLast(entries: seq<Entry>)
    requires DistinctKeys(entries) && entries != []
    ensures Without(entries, entries[|entries| - 1].key) == entries[..|entries| - 1]
  {
    var last := entries[|entries| - 1];
    assert entries == entries[..|entries| - 1] + [last];
    WithoutConcat(entries[..|entries| - 1], [last], last.key);
    NoneLeft(entries[..|entries| - 1], last.key);
    assert [last][1..] == [];
  }

  class BoundedByteCache {
    var items: map<Key, Entry>
    var lru: seq<Entry>
    var usedBytes: int
    const maxEntries: int
    const maxBytes: int
    /** The last accepted value of every key that was not deleted since. */
    ghost var accepted: map<Key, Entry>

    /** Byte counter, map and list agree. */
    ghost predicate Consistent()
      reads this
    {
      && maxEntries >= 1 && maxBytes >= 1
      && usedBytes == TotalBytes(lru)
      && |items| == |lru|
      && DistinctKeys(lru)
      && Indexes(items, lru)
      && (forall k :: k in items ==> k in accepted && accepted[k] == items[k])
    }

    ghost predicate Valid()
      reads this
    {
      Consistent() && Fits(lru, maxEntries, maxBytes)
    }

    constructor (entries: int, bytes: int)
      ensures Valid() && lru == [] && accepted == map[]
      ensures maxEntries == (if entries < 1 then 1 else entries) && maxBytes == (if bytes < 1 then 1 else bytes)
    {
      maxEntries := if entries < 1 then 1 else entries;
      maxBytes := if bytes < 1 then 1 else bytes;
      items, lru, usedBytes := map[], [], 0;
      accepted := map[];
    }

    method RemoveElement(key: Key)
      requires Consistent() && key in items
      modifies this`items, this`lru, this`usedBytes
      ensures Consistent() && lru == old(Without(lru, key)) && items == old(items) - {key}
    {
      BytesWithout(lru, key);
      DistinctWithout(lru, key);
      IndexesWithout(items, lru, key);
      var e := items[key];
      items := items - {key};
      usedBytes := usedBytes - |e.value|;
      lru := Without(lru, key);
    }

    method MoveToFront(key: Key)
      requires Consistent() && key in items
      modifies this`lru
      ensures Consistent() && lru == old(Touch(lru, items[key])) && |lru| == old(|lru|)
    {
      BytesWithout(lru, key);
      DistinctWithout(lru, key);
      IndexesWithout(items, lru, key);
      FoundKey(lru, key);
      PushedFront(items - {key}, Without(lru, key), items[key]);
      lru := Touch(lru, items[key]);
      assert items == (items - {key})[key := items[key]];
    }

    /** A fresh hit is the last accepted value and becomes the most recent entry; an entry past
        its stale deadline is dropped; one in between stays where it is and is not returned. */
    method Get(key: Key, now: Time) returns (hit: Option<Bytes>)
      requires Valid()
      modifies this`items, this`lru, this`usedBytes
      ensures Valid()
      ensures hit.Some? ==> key in accepted && hit.value == accepted[key].value && now < accepted[key].freshUntil
      ensures match old(Find(lru, key))
              case None => hit == None && lru == old(lru)
              case Some(e) =>
                && (now < e.freshUntil ==> hit == Some(e.value) && lru == old(Touch(lru, e)))
                && (e.freshUntil <= now ==> hit == None)
                && (e.freshUntil <= now < e.staleUntil ==> lru == old(lru))
                && (e.freshUntil <= now && e.staleUntil <= now ==> lru == old(Without(lru, key)))
    {
      if key !in items { return None; }
      var e := items[key];
      BytesWithout(lru, key);
      if !(now < e.freshUntil) {
        if !(now < e.staleUntil) { RemoveElement(key); }
        return None;
      }
      MoveToFront(key);
      return Some(e.value);
    }

    /** The explicit fallback read: the last accepted value until its stale deadline. */
    method GetStaleWithDeadline(key: Key, now: Time) returns (hit: Option<(Bytes, Time)>)
      requires Valid()
      modifies this`items, this`lru, this`usedBytes
      ensures Valid()
      ensures hit.Some? ==>
        key in accepted && hit.value == (accepted[key].value, accepted[key].staleUntil) && now < hit.value.1
      ensures match old(Find(lru, key))
              case None => hit == None && lru == old(lru)
              case Some(e) =>
                && (now < e.staleUntil ==> hit == Some((e.value, e.staleUntil)) && lru == old(Touch(lru, e)))
                && (e.staleUntil <= now ==> hit == None && lru == old(Without(lru, key)))
    {
      if key !in items { return None; }
      var e := items[key];
      BytesWithout(lru, key);
      if !(now < e.staleUntil) {
        RemoveElement(key);
        return None;
      }
      MoveToFront(key);
      return Some((e.value, e.staleUntil));
    }

    /** A put that is not already expired and not too large replaces the old entry of its key and
        evicts from the back; the survivors are the longest recent part that fits. */
    method PutWithDeadlines(key: Key, value: Bytes, freshUntil: Time, staleUntil: Time, now: Time)
      requires Valid()
      modifies this
      ensures Valid()
      ensures var stale := if staleUntil < freshUntil then freshUntil else staleUntil;
              var e := Entry(key, value, freshUntil, stale);
              if freshUntil <= now || |value| > maxBytes then lru == old(lru) && accepted == old(accepted)
              else
                && accepted == old(accepted)[key := e]
                && IsLongestFit(lru, [e] + old(Without(lru, key)), maxEntries, maxBytes)
                && lru != [] && lru[0] == e
    {
      if !(freshUntil > now) || |value| > maxBytes { return; }
      var stale := if staleUntil < freshUntil then freshUntil else staleUntil;
      if !(stale > now) { return; }
      Insert(Entry(key, value, freshUntil, stale));
    }

    method Insert(e: Entry)
      requires Valid() && |e.value| <= maxBytes
      modifies this
      ensures Valid() && accepted == old(accepted)[e.key := e]
      ensures IsLongestFit(lru, [e] + old(Without(lru, e.key)), maxEntries, maxBytes)
      ensures lru != [] && lru[0] == e
    {
      ghost var rest := Without(lru, e.key);
      NoneLeftUnlessFound(lru, e.key);
      if e.key in items { RemoveElement(e.key); }
      assert lru == rest;
      PushFront(e);
      EvictBack();
      FrontSurvives(lru, [e] + rest, maxEntries, maxBytes);
    }

    method PushFront(e: Entry)
      requires Consistent() && e.key !in items
      modifies this
      ensures Consistent() && lru == [e] + old(lru) && accepted == old(accepted)[e.key := e]
    {
      PushedFront(items, lru, e);
      lru := [e] + lru;
      items := items[e.key := e];
      usedBytes := usedBytes + |e.value|;
      accepted := accepted[e.key := e];
    }

    /** The eviction loop; it stops because one entry always fits. */
    method EvictBack()
      requires Consistent() && lru != [] && |lru[0].value| <= maxBytes
      modifies this`items, this`lru, this`usedBytes
      ensures Valid() && IsLongestFit(lru, old(lru), maxEntries, maxBytes)
    {
      ghost var all := lru;
      while |items| > maxEntries || usedBytes > maxBytes
        invariant Consistent()
        invariant lru != [] && Trimmed(lru, all, maxEntries, maxBytes)
        decreases |lru|
      {
        OverfullHasTwo(lru, maxEntries, maxBytes);
        TrimOne(lru, all, maxEntries, maxBytes);
        WithoutLast(lru);
        FindLast(lru);
        RemoveElement(lru[|lru| - 1].key);
      }
    }

    method Delete(key: Key)
      requires Valid()
      modifies this
      ensures Valid() && lru == old(Without(lru, key)) && accepted == old(accepted) - {key}
      ensures Find(lru, key) == None
    {
      NoneLeftUnlessFound(lru, key);
      BytesWithout(lru, key);
      if key in items { RemoveElement(key); }
      accepted := accepted - {key};
    }

    method Size() returns (entries: int, bytes: int)
      requires Valid()
      ensures entries == |lru| && bytes == TotalBytes(lru)
    {
      return |items|, usedBytes;
    }
  }

  lemma {:induction false} WithoutConcat(a: seq<Entry>, b: seq<Entry>, key: Key)
    ensures Without(a + b, key) == Without(a, key) + Without(b, key)
  {
    if a == [] {
      assert a + b == b;
    } else {
      assert (a + b)[1..] == a[1..] + b;
      WithoutConcat(a[1..], b, key);
    }
  }

  lemma NoneLeftUnlessFound(entries: seq<Entry>, key: Key)
    ensures Find(entries, key) == None ==> Without(entries, key) == entries
  {
    FindIsMember(entries, key);
    if Find(entries, key) == None { NoneLeft(entries, key); }
  }
}
