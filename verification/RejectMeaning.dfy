/** What a page of rejections and its statistics show, sample by sample, and which texts and cursors
    are taken for what. */
module RejectMeaning {

  import opened Basics
  import opened RejectPages

  // Texts.

  /** a comes before b byte by byte: a proper prefix, or smaller where they first differ. */
  ghost predicate Precedes(a: string, b: string) {
    exists n: nat :: n <= |a| && n < |b| && a[..n] == b[..n] && (n == |a| || (n < |a| && a[n] < b[n]))
  }

  lemma PrecedesTail(a: string, b: string)
    requires a != [] && b != [] && a[0] == b[0]
    ensures Precedes(a, b) <==> Precedes(a[1..], b[1..])
  {
    if Precedes(a, b) {
      var n: nat :| n <= |a| && n < |b| && a[..n] == b[..n] && (n == |a| || (n < |a| && a[n] < b[n]));
      assert n > 0;
      assert a[1..][..n - 1] == a[..n][1..] && b[1..][..n - 1] == b[..n][1..];
    }
    if Precedes(a[1..], b[1..]) {
      var n: nat :| n <= |a| - 1 && n < |b| - 1 && a[1..][..n] == b[1..][..n]
        && (n == |a| - 1 || (n < |a| - 1 && a[1..][n] < b[1..][n]));
      assert a[..n + 1] == [a[0]] + a[1..][..n] && b[..n + 1] == [b[0]] + b[1..][..n];
    }
  }

  lemma {:induction false} CompareIsBytewise(a: string, b: string)
    ensures Compare(a, b) < 0 <==> Precedes(a, b)
    decreases |a|
  {
    if a == [] {
      if b != [] { assert a[..0] == b[..0]; }
    } else if b != [] {
      if a[0] == b[0] {
        PrecedesTail(a, b);
        CompareIsBytewise(a[1..], b[1..]);
      } else if a[0] < b[0] {
        assert a[..0] == b[..0];
      } else if Precedes(a, b) {
        var n: nat :| n <= |a| && n < |b| && a[..n] == b[..n] && (n == |a| || (n < |a| && a[n] < b[n]));
        assert n > 0;
        assert a[..n][0] == b[..n][0];
      }
    }
  }

  predicate Blank(s: string) { forall i :: 0 <= i < |s| ==> s[i] == ' ' }

  lemma {:induction false} LeftCuts(s: string) returns (cut: string)
    ensures s == cut + StripLeft(s) && Blank(cut) && (StripLeft(s) != [] ==> StripLeft(s)[0] != ' ')
    decreases |s|
  {
    if s != [] && s[0] == ' ' {
      var rest := LeftCuts(s[1..]);
      cut := [s[0]] + rest;
    } else {
      cut := [];
    }
  }

  lemma {:induction false} RightCuts(s: string) returns (cut: string)
    ensures s == StripRight(s) + cut && Blank(cut)
    ensures StripRight(s) != [] ==> StripRight(s)[|StripRight(s)| - 1] != ' ' && StripRight(s)[0] == s[0]
    decreases |s|
  {
    if s != [] && s[|s| - 1] == ' ' {
      var rest := RightCuts(s[..|s| - 1]);
      cut := rest + [s[|s| - 1]];
    } else {
      cut := [];
    }
  }

  /** One character of a normal form: separators are underscores, capitals are 32 places lower. */
  predicate Unified(c: char, u: char) {
    if c == '-' || c == ' ' || c == '.' then u == '_'
    else if 65 <= c as int && c as int <= 90 then u as int == c as int + 32
    else u == c
  }

  /** The normal form of a reason: the text between its outer spaces, character by character. */
  lemma NormalForm(reason: string) returns (left: string, middle: string, right: string)
    ensures reason == left + middle + right && Blank(left) && Blank(right)
    ensures middle != [] ==> middle[0] != ' ' && middle[|middle| - 1] != ' '
    ensures |Normalize(reason)| == |middle|
    ensures forall i :: 0 <= i < |middle| ==> Unified(middle[i], Normalize(reason)[i])
  {
    left := LeftCuts(reason);
    right := RightCuts(StripLeft(reason));
    middle := StripRight(StripLeft(reason));
  }

  /** Spellings that mean the same, each list led by its code. */
  const SPELLINGS: seq<seq<string>> := [
    ["route_no_channel", "no_channel", "no_available_channel", "noavailablechannel"],
    ["invalid_token", "token_invalid"],
    ["token_disabled", "disabled_token"],
    ["model_forbidden", "token_model_forbidden"],
    ["model_not_found", "unknown_model"],
    ["quota_account", "user_quota_insufficient", "pre_consume_failed", "token_quota_insufficient",
      "quota_insufficient", "insufficient_quota"],
    ["rate_limited", "rate_limit", "too_many_requests"]
  ]

  lemma EarlyCodes(reason: string, k: nat)
    requires k < 4 && Normalize(reason) in SPELLINGS[k]
    ensures Canonical(reason) == SPELLINGS[k][0]
  {
  }

  lemma QuotaCodes(reason: string)
    requires Normalize(reason) in SPELLINGS[5]
    ensures Canonical(reason) == "quota_account"
  {
  }

  lemma LateCodes(reason: string, k: nat)
    requires (k == 4 || k == 6) && Normalize(reason) in SPELLINGS[k]
    ensures Canonical(reason) == SPELLINGS[k][0]
  {
  }

  lemma OtherCode(reason: string)
    requires forall k :: 0 <= k < |SPELLINGS| ==> Normalize(reason) !in SPELLINGS[k]
    ensures Canonical(reason) == Normalize(reason)
  {
    var n := Normalize(reason);
    assert n !in SPELLINGS[0] && n !in SPELLINGS[1] && n !in SPELLINGS[2] && n !in SPELLINGS[3];
    assert n !in SPELLINGS[4] && n !in SPELLINGS[5] && n !in SPELLINGS[6];
  }

  /** The code of a reason: the head of the list its normal form is in, or the normal form. */
  lemma CodeIs(reason: string)
    ensures forall k :: 0 <= k < |SPELLINGS| && Normalize(reason) in SPELLINGS[k] ==>
      Canonical(reason) == SPELLINGS[k][0]
    ensures (forall k :: 0 <= k < |SPELLINGS| ==> Normalize(reason) !in SPELLINGS[k]) ==>
      Canonical(reason) == Normalize(reason)
  {
    forall k | 0 <= k < |SPELLINGS| && Normalize(reason) in SPELLINGS[k]
      ensures Canonical(reason) == SPELLINGS[k][0]
    {
      if k < 4 { EarlyCodes(reason, k); } else if k == 5 { QuotaCodes(reason); } else { LateCodes(reason, k); }
    }
    if forall k :: 0 <= k < |SPELLINGS| ==> Normalize(reason) !in SPELLINGS[k] { OtherCode(reason); }
  }

  // Samples.

  /** The filter asks for one of the three finer quota reasons. */
  predicate AsksFine(filter: Filter) {
    var n := Normalize(filter.reason);
    n == "user_quota_insufficient" || n == "pre_consume_failed" || n == "token_quota_insufficient"
  }

  /** The sample is what the filter asks for. */
  predicate Asked(range: Range, filter: Filter, s: Sample) {
    && range.from <= s.ts && s.ts < range.to && s.user >= 0 && s.count >= 1
    && (filter.user == None || filter.user == Some(s.user))
    && (filter.reason == ""
        || if AsksFine(filter) then Normalize(s.reason) == Normalize(filter.reason)
           else Canonical(s.reason) == Canonical(filter.reason))
  }

  /** A direct sample of the same minute, model, group, user and code tells it too. */
  predicate ToldDirectly(store: seq<Sample>, s: Sample) {
    exists i :: 0 <= i < |store| && store[i].direct && store[i].count >= 1
      && store[i].ts == s.ts && store[i].model == s.model && store[i].group == s.group && store[i].user == s.user
      && Canonical(store[i].reason) == Canonical(s.reason)
  }

  /** The direct lane is switched off, or has caught up with the minute. */
  predicate CaughtUp(lane: Lane, t: int) {
    !lane.enabled || (lane.covered.Some? && lane.covered.value.from <= t && t < lane.covered.value.to)
  }

  predicate Shown(store: seq<Sample>, lane: Lane, range: Range, filter: Filter, s: Sample) {
    Asked(range, filter, s)
    && (s.direct || s.user == 0 || AsksFine(filter) || !CaughtUp(lane, s.ts) || !ToldDirectly(store, s))
  }

  lemma ShownIff(store: seq<Sample>, lane: Lane, range: Range, filter: Filter, s: Sample)
    ensures Visible(store, lane, range, filter, s) <==> Shown(store, lane, range, filter, s)
  {
    assert AsksFine(filter) <==> Normalize(filter.reason) in FINE;
    forall i | 0 <= i < |store|
      ensures SameFact(store[i], s) <==>
        && store[i].direct && store[i].count >= 1
        && store[i].ts == s.ts && store[i].model == s.model && store[i].group == s.group && store[i].user == s.user
        && Canonical(store[i].reason) == Canonical(s.reason)
    {
    }
  }

  /** The counts of the first n shown samples with a key. */
  ghost function CountFor(store: seq<Sample>, lane: Lane, range: Range, filter: Filter, n: nat, key: Key): int
    requires n <= |store|
  {
    if n == 0 then 0
    else
      var s := store[n - 1];
      CountFor(store, lane, range, filter, n - 1, key) +
          if Shown(store, lane, range, filter, s) && Key(s.ts, s.reason, s.model, s.group, s.user) == key then s.count
          else 0
  }

  lemma {:induction false} AggregateSays(
      store: seq<Sample>, lane: Lane, range: Range, filter: Filter, n: nat, key: Key)
    requires n <= |store|
    ensures var counts := Aggregate(store, lane, range, filter, n);
      && (if key in counts then counts[key] else 0) == CountFor(store, lane, range, filter, n, key)
      && (key in counts <==> CountFor(store, lane, range, filter, n, key) > 0)
      && CountFor(store, lane, range, filter, n, key) >= 0
    decreases n
  {
    if n > 0 {
      AggregateSays(store, lane, range, filter, n - 1, key);
      ShownIff(store, lane, range, filter, store[n - 1]);
    }
  }

  lemma {:induction false} CountedSample(
      store: seq<Sample>, lane: Lane, range: Range, filter: Filter, n: nat, key: Key) returns (i: nat)
    requires n <= |store| && CountFor(store, lane, range, filter, n, key) > 0
    ensures i < n && Shown(store, lane, range, filter, store[i])
    ensures Key(store[i].ts, store[i].reason, store[i].model, store[i].group, store[i].user) == key
    decreases n
  {
    var s := store[n - 1];
    if Shown(store, lane, range, filter, s) && Key(s.ts, s.reason, s.model, s.group, s.user) == key {
      i := n - 1;
    } else {
      i := CountedSample(store, lane, range, filter, n - 1, key);
    }
  }

  /** Rows of a page: each stands for shown samples of its key, with their counts added up; so every row
      lies in the range, counts something, and is the user's and the reason's that were asked for. */
  lemma RowsSay(store: seq<Sample>, lane: Lane, range: Range, filter: Filter, key: Key)
    ensures var rows := Agg(store, lane, range, filter);
      && (key in rows <==> CountFor(store, lane, range, filter, |store|, key) > 0)
      && (key in rows ==>
            && rows[key] == CountFor(store, lane, range, filter, |store|, key)
            && range.from <= key.ts && key.ts < range.to && key.user >= 0
            && (filter.user.Some? ==> key.user == filter.user.value)
            && (filter.reason == ""
                || if AsksFine(filter) then Normalize(key.reason) == Normalize(filter.reason)
                   else Canonical(key.reason) == Canonical(filter.reason)))
  {
    AggregateSays(store, lane, range, filter, |store|, key);
    if key in Agg(store, lane, range, filter) {
      var i := CountedSample(store, lane, range, filter, |store|, key);
    }
  }

  // Statistics.

  /** What each published number counts. */
  predicate Counts(kind: Kind, s: Sample) {
    match kind
    case All => true
    case Unauthenticated => s.user == 0 && Canonical(s.reason) == "invalid_token"
    case UnknownCustomer => s.user == 0 && Canonical(s.reason) != "invalid_token"
    case UserQuota => s.user == 0 && Normalize(s.reason) == "user_quota_insufficient"
    case PreConsume => s.user == 0 && Normalize(s.reason) == "pre_consume_failed"
    case TokenQuota => s.user == 0 && Normalize(s.reason) == "token_quota_insufficient"
    case OtherQuota =>
      && s.user == 0 && Canonical(s.reason) == "quota_account" && Normalize(s.reason) != "user_quota_insufficient"
      && Normalize(s.reason) != "pre_consume_failed" && Normalize(s.reason) != "token_quota_insufficient"
    case OtherUnknown =>
      s.user == 0 && Canonical(s.reason) != "invalid_token" && Canonical(s.reason) != "quota_account"
    case OfFact(fact) => Fact(s.ts, Canonical(s.reason), s.model, s.group, s.user) == fact
  }

  ghost function Statistic(store: seq<Sample>, lane: Lane, range: Range, filter: Filter, n: nat, kind: Kind): int
    requires n <= |store|
  {
    if n == 0 then 0
    else
      var s := store[n - 1];
      Statistic(store, lane, range, filter, n - 1, kind) +
          if Shown(store, lane, range, filter, s) && Counts(kind, s) then s.count else 0
  }

  lemma CountsIff(kind: Kind, s: Sample)
    ensures Falls(kind, KeyOf(s)) <==> Counts(kind, s)
  {
  }

  lemma {:induction false} SamplesSay(store: seq<Sample>, lane: Lane, range: Range, filter: Filter, n: nat, kind: Kind)
    requires n <= |store|
    ensures SampleCount(store, lane, range, filter, n, kind) == Statistic(store, lane, range, filter, n, kind)
    decreases n
  {
    if n > 0 {
      SamplesSay(store, lane, range, filter, n - 1, kind);
      ShownIff(store, lane, range, filter, store[n - 1]);
      CountsIff(kind, store[n - 1]);
    }
  }

  /** Every statistic over the rows of a page counts the shown samples it is named after. */
  lemma StatisticsSay(store: seq<Sample>, lane: Lane, range: Range, filter: Filter, kind: Kind)
    ensures var rows := Agg(store, lane, range, filter);
      Count(rows.Keys, rows, kind) == Statistic(store, lane, range, filter, |store|, kind)
  {
    GroupingConserves(store, lane, range, filter, |store|, kind);
    SamplesSay(store, lane, range, filter, |store|, kind);
  }

  // Cursors.

  /** A key that a cursor has room for. */
  predicate HasRoom(k: Key) { |k.reason| < 65 && |k.model| < 129 && |k.group| < 129 }

  /** A cursor is accepted exactly when a page of the same filter, over a range that starts where this
      request's does and ends no later, could have handed it out. */
  lemma CursorAcceptedIff(c: Cursor, now: Range, filter: Filter)
    requires FilterValid(filter)
    ensures Decodes(c) && Continues(now, filter, c) <==>
      && c == CursorOf(c.range, filter, c.key)
      && 0 < c.range.from && c.range.from == now.from && c.range.to <= now.to
      && c.range.from <= c.key.ts && c.key.ts < c.range.to && c.key.user >= 0 && HasRoom(c.key)
  {
  }

  /** The parts of a cursor. */
  lemma CursorIs(range: Range, filter: Filter, key: Key)
    ensures CursorOf(range, filter, key) == Cursor(range, filter.reason, filter.user, key)
    ensures FilterValid(filter) <==>
      filter.limit > 0 && |filter.reason| < 65 && (filter.user == None || filter.user.value > -1)
  {
  }
}
