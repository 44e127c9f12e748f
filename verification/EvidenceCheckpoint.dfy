/** A scan that stops halfway saves the rows it has merged; a saved checkpoint must read back as the map
    it was saved from. */
module EvidenceCheckpoint {

  import opened Basics
  import opened Evidence
  import opened UnitText
  import M = EvidenceMeaning

  const MAX_DIMENSIONS := 2_048

  /** A stored row carries its own hash. */
  datatype Stored = Stored(row: Row, hash: Row)

  /** Neither the key nor the billing unit is a control field: the key is the reader's, and every row
      brings its own unit. */
  datatype Checkpoint = Checkpoint(
    domain: string, epoch: string, hour: int, nextPage: int, total: int, sourceRows: int, rows: seq<Stored>)

  function SavedRows(list: seq<Row>): seq<Stored> {
    seq(|list|, i requires 0 <= i < |list| => Stored(list[i], RowHash(list[i])))
  }

  /** A save refuses too many dimensions. */
  function Saved(c: Context, nextPage: int, total: int, sourceRows: int, list: seq<Row>): Result<Checkpoint> {
    if |list| > MAX_DIMENSIONS then Err
      else Ok(Checkpoint(c.domain, c.epoch, c.hour, nextPage, total, sourceRows, SavedRows(list)))
  }

  predicate ControlValid(cp: Checkpoint, keyId: string) {
    && 0 < |cp.domain| <= 253 && |cp.epoch| == 64 && cp.hour >= 0 && cp.hour % 3600 == 0 && keyId != ""
    && cp.nextPage >= 2 && cp.total >= 0 && 0 <= cp.sourceRows <= cp.total
  }

  predicate TextFits(dim: Dimension) { |dim.group| <= 191 && |dim.model| <= 191 && |dim.mode| <= 64 }

  /** What a build does not check: the lengths of texts, and of a unit that it computes itself. */
  predicate RowFits(row: Row) { TextFits(row.dim) && ValidUnit(row.context.unit) }

  predicate StoredValid(cp: Checkpoint, keyId: string, s: Stored) {
    var c, f := s.row.context, s.row.figures;
    && c.domain == cp.domain && c.epoch == cp.epoch && c.hour == cp.hour && c.keyId == keyId
    && f.requests > 0 && f.quota >= 0 && f.prompt >= 0 && f.completion >= 0
    && RowFits(s.row)
    && cp.hour <= f.first <= f.last < cp.hour + 3600 && s.row.fetchedAt >= 0
    && s.hash == RowHash(s.row)
  }

  datatype Read = Read(rows: Rows, requests: int)

  function ReadRows(cp: Checkpoint, keyId: string, stored: seq<Stored>): Result<Read> {
    if stored == [] then Ok(Read(map[], 0))
    else
      var before, last := ReadRows(cp, keyId, stored[..|stored| - 1]), stored[|stored| - 1];
      if before.Err? || !StoredValid(cp, keyId, last) || last.row.dim in before.value.rows
         || last.row.figures.requests > MAX_INT64 - before.value.requests then Err
      else Ok(Read(before.value.rows[last.row.dim := last.row], before.value.requests + last.row.figures.requests))
  }

  function Decoded(cp: Checkpoint, keyId: string): Result<Rows> {
    if !ControlValid(cp, keyId) || |cp.rows| > MAX_DIMENSIONS then Err
    else
      var read := ReadRows(cp, keyId, cp.rows);
      if read.Err? || read.value.requests != cp.sourceRows then Err else Ok(read.value.rows)
  }

  method Decode(cp: Checkpoint, keyId: string) returns (r: Result<Rows>)
    ensures r == Decoded(cp, keyId)
  {
    if !ControlValid(cp, keyId) || |cp.rows| > MAX_DIMENSIONS { return Err; }
    var out: Rows := map[];
    var sourceRows, i := 0, 0;
    while i < |cp.rows|
      invariant 0 <= i <= |cp.rows|
      invariant ReadRows(cp, keyId, cp.rows[..i]) == Ok(Read(out, sourceRows))
    {
      var s := cp.rows[i];
      assert cp.rows[..i + 1][..i] == cp.rows[..i];
      if !StoredValid(cp, keyId, s) || s.row.dim in out || s.row.figures.requests > MAX_INT64 - sourceRows {
        ReadFails(cp, keyId, cp.rows, i + 1);
        return Err;
      }
      out, sourceRows := out[s.row.dim := s.row], sourceRows + s.row.figures.requests;
      i := i + 1;
    }
    assert cp.rows[..i] == cp.rows;
    if sourceRows != cp.sourceRows { return Err; }
    return Ok(out);
  }

  lemma {:induction false} ReadFails(cp: Checkpoint, keyId: string, stored: seq<Stored>, n: nat)
    requires n <= |stored| && ReadRows(cp, keyId, stored[..n]).Err?
    ensures ReadRows(cp, keyId, stored).Err?
    decreases |stored|
  {
    if n == |stored| {
      assert stored[..n] == stored;
    } else {
      assert stored[..|stored| - 1][..n] == stored[..n];
      ReadFails(cp, keyId, stored[..|stored| - 1], n);
    }
  }

  function RequestsIn(list: seq<Row>): int {
    if list == [] then 0 else RequestsIn(list[..|list| - 1]) + list[|list| - 1].figures.requests
  }

  /** What the rows of a build are, one by one; their units may differ. */
  predicate RowHonest(c: Context, row: Row) {
    && row.context.(unit := c.unit) == c
    && row.fetchedAt >= 0 && row.figures.requests > 0 && row.figures.quota >= 0 && row.figures.prompt >= 0
    && row.figures.completion >= 0 && c.hour <= row.figures.first <= row.figures.last < c.hour + 3600
  }

  lemma {:induction false} OfInHour(c: Context, items: seq<Item>, dim: Dimension)
    requires ItemsExact(c, items)
    ensures Of(c, items, dim).Some? ==>
      c.hour <= Of(c, items, dim).value.first <= Of(c, items, dim).value.last < c.hour + 3600
    decreases |items|
  {
    if items != [] { OfInHour(c, items[..|items| - 1], dim); }
  }

  lemma ListsStep(list: seq<Row>, rows: Rows, last: Row)
    requires Lists(list, rows) && last.dim !in rows
    ensures Lists(list + [last], rows[last.dim := last])
  {
    var all, after := list + [last], rows[last.dim := last];
    forall dim | dim in after ensures exists i :: 0 <= i < |all| && all[i].dim == dim {
      if dim == last.dim {
        assert all[|list|].dim == dim;
      } else {
        var i :| 0 <= i < |list| && list[i].dim == dim;
        assert all[i].dim == dim;
      }
    }
  }

  lemma NotYetIn(list: seq<Row>, rows: Rows, last: Row)
    requires Lists(list, rows) && Distinct(list + [last])
    ensures last.dim !in rows
  {
    var all := list + [last];
    forall i | 0 <= i < |list| ensures list[i].dim != last.dim { assert all[i].dim != all[|list|].dim; }
  }

  predicate AllHonest(c: Context, list: seq<Row>) { forall i :: 0 <= i < |list| ==> RowHonest(c, list[i]) }

  predicate AllFit(list: seq<Row>) { forall i :: 0 <= i < |list| ==> RowFits(list[i]) }

  ghost predicate ReadGives(read: Result<Read>, list: seq<Row>) {
    (read.Ok? <==> AllFit(list))
        && (read.Ok? ==> Lists(list, read.value.rows) && read.value.requests == RequestsIn(list))
  }

  lemma {:induction false} RequestsPositive(c: Context, list: seq<Row>)
    requires AllHonest(c, list)
    ensures RequestsIn(list) >= 0
    decreases |list|
  {
    if list != [] {
      RequestsPositive(c, list[..|list| - 1]);
      assert RowHonest(c, list[|list| - 1]);
    }
  }

  predicate Controls(cp: Checkpoint, c: Context) { cp.domain == c.domain && cp.epoch == c.epoch && cp.hour == c.hour }

  lemma ReadStep(cp: Checkpoint, c: Context, before: seq<Row>, last: Row)
    requires Controls(cp, c) && RowHonest(c, last)
    ensures var first, all :=
      ReadRows(cp, c.keyId, SavedRows(before)), ReadRows(cp, c.keyId, SavedRows(before + [last]));
      if first.Err? || !RowFits(last) || last.dim in first.value.rows
        || last.figures.requests > MAX_INT64 - first.value.requests then all == Err
      else all == Ok(Read(first.value.rows[last.dim := last], first.value.requests + last.figures.requests))
  {
    assert SavedRows(before + [last])[..|before|] == SavedRows(before);
  }

  lemma FitStep(before: seq<Row>, last: Row)
    ensures AllFit(before + [last]) <==> AllFit(before) && RowFits(last)
  {
    var all := before + [last];
    assert all[|before|] == last;
    assert forall i :: 0 <= i < |before| ==> all[i] == before[i];
  }

  lemma {:induction false} ReadIs(cp: Checkpoint, c: Context, list: seq<Row>)
    requires Controls(cp, c) && Distinct(list) && AllHonest(c, list) && RequestsIn(list) <= MAX_INT64
    ensures ReadGives(ReadRows(cp, c.keyId, SavedRows(list)), list)
    decreases |list|
  {
    if list != [] {
      var before, last := list[..|list| - 1], list[|list| - 1];
      RequestsPositive(c, before);
      assert RowHonest(c, last);
      ReadIs(cp, c, before);
      ReadStep(cp, c, before, last);
      FitStep(before, last);
      assert list == before + [last];
      if AllFit(before) {
        NotYetIn(before, ReadRows(cp, c.keyId, SavedRows(before)).value.rows, last);
        ListsStep(before, ReadRows(cp, c.keyId, SavedRows(before)).value.rows, last);
      }
    }
  }

  predicate AllRowsFit(rows: Rows) { forall dim :: dim in rows ==> RowFits(rows[dim]) }

  lemma FitBoth(list: seq<Row>, rows: Rows)
    requires Lists(list, rows)
    ensures AllFit(list) <==> AllRowsFit(rows)
  {
    if AllFit(list) {
      forall dim | dim in rows ensures RowFits(rows[dim]) { var i :| 0 <= i < |list| && list[i].dim == dim; }
    }
  }

  /** A checkpoint reads back as the map it was saved from exactly when its control fields are valid,
      the request count is the one the map holds, and no dimension text or unit is over its limit. */
  lemma {:induction false} CheckpointRoundTrip(
      c: Context, rows: Rows, list: seq<Row>, nextPage: int, total: int, sourceRows: int)
    requires Lists(list, rows) && RequestsIn(list) <= MAX_INT64 && AllHonest(c, list)
    requires Saved(c, nextPage, total, sourceRows, list).Ok?
    ensures var cp := Saved(c, nextPage, total, sourceRows, list).value;
      Decoded(cp, c.keyId) == Ok(rows) <==>
          ControlValid(cp, c.keyId) && sourceRows == RequestsIn(list) && AllRowsFit(rows)
  {
    var cp := Saved(c, nextPage, total, sourceRows, list).value;
    ReadIs(cp, c, list);
    if ReadRows(cp, c.keyId, cp.rows).Ok? {
      var read := ReadRows(cp, c.keyId, cp.rows).value;
      forall dim ensures dim in read.rows <==> dim in rows {}
      assert read.rows == rows;
    }
    FitBoth(list, rows);
  }

  // The rows of a merge over pages are honest, and their requests add up to the items read.

  lemma SummaryIsHonest(c: Context, rows: Rows, items: seq<Item>, dim: Dimension)
    requires Summarizes(c, rows, items) && ItemsExact(c, items) && dim in rows && rows[dim].fetchedAt >= 0
    ensures RowHonest(c, rows[dim])
  {
    assert Had(rows, dim) == Of(c, items, dim);
    OfNonnegative(c, items, dim);
    OfInHour(c, items, dim);
  }

  predicate Fetched(rows: Rows) { forall dim :: dim in rows ==> rows[dim].fetchedAt >= 0 }

  lemma {:induction false} BuiltFetched(c: Context, items: seq<Item>, fetchedAt: int)
    requires fetchedAt >= 0 && Built(c, items, fetchedAt).Ok?
    ensures Fetched(Built(c, items, fetchedAt).value.rows)
    decreases |items|
  {
    if items != [] { BuiltFetched(c, items[..|items| - 1], fetchedAt); }
  }

  lemma {:induction false} MergedFetched(target: Rows, list: seq<Row>)
    requires Fetched(target) && Merged(target, list).Ok? && forall i :: 0 <= i < |list| ==> list[i].fetchedAt >= 0
    ensures Fetched(Merged(target, list).value)
    decreases |list|
  {
    if list != [] { MergedFetched(target, list[..|list| - 1]); }
  }

  lemma {:induction false} PagesFetched(c: Context, pages: seq<Page>)
    requires MergedPages(pages).Ok?
    requires forall i :: 0 <= i < |pages| ==>
      pages[i].fetchedAt >= 0 && PageListed(c, pages[i]) && Built(c, pages[i].items, pages[i].fetchedAt).Ok?
    ensures Fetched(MergedPages(pages).value)
    decreases |pages|
  {
    if pages != [] {
      var n := |pages| - 1;
      PagesFetched(c, pages[..n]);
      BuiltFetched(c, pages[n].items, pages[n].fetchedAt);
      MergedFetched(MergedPages(pages[..n]).value, pages[n].list);
    }
  }

  lemma {:induction false} RequestsAreSummed(list: seq<Row>)
    ensures RequestsIn(list) == M.SumRows(list, M.RowRequests)
    decreases |list|
  {
    if list != [] { RequestsAreSummed(list[..|list| - 1]); }
  }

  lemma RequestsAreCount(c: Context, rows: Rows, items: seq<Item>, list: seq<Row>)
    requires Summarizes(c, rows, items) && Lists(list, rows)
    ensures RequestsIn(list) == CountOf(c, items)
  {
    M.SummarySays(c, rows, items);
    M.RowsAddUp(c, rows, items, list);
    M.TotalsSay(c, items);
    RequestsAreSummed(list);
  }

  lemma {:induction false} ScanIsHonest(c: Context, pages: seq<Page>, list: seq<Row>)
    requires Good(c, Flat(pages)) && MergedPages(pages).Ok? && Lists(list, MergedPages(pages).value)
    requires forall i :: 0 <= i < |pages| ==> PageListed(c, pages[i]) && pages[i].fetchedAt >= 0
    ensures AllHonest(c, list)
  {
    var merged := MergedPages(pages).value;
    PagesSummarize(c, pages);
    PagesFetched(c, pages);
    forall i | 0 <= i < |list| ensures RowHonest(c, list[i]) { SummaryIsHonest(c, merged, Flat(pages), list[i].dim); }
  }

  lemma SameFit(c: Context, rows: Rows)
    requires forall dim :: dim in rows ==> rows[dim].context == c && rows[dim].dim == dim
    ensures AllRowsFit(rows) <==> forall dim :: dim in rows ==> TextFits(dim) && ValidUnit(c.unit)
  {
  }

  /** A scan in pages, merged in any order and saved, reads back as that merge exactly when the control
      fields are valid, the stored count is the number of items read, and no text or unit is over its
      limit; every other check of the reader is met by what the pages were built from. */
  lemma {:induction false} SavedScanReadsBack(
      c: Context, pages: seq<Page>, list: seq<Row>, nextPage: int, total: int, sourceRows: int)
    requires Good(c, Flat(pages)) && MergedPages(pages).Ok? && Lists(list, MergedPages(pages).value)
    requires forall i :: 0 <= i < |pages| ==> PageListed(c, pages[i]) && pages[i].fetchedAt >= 0
    requires Saved(c, nextPage, total, sourceRows, list).Ok?
    ensures var cp, merged := Saved(c, nextPage, total, sourceRows, list).value, MergedPages(pages).value;
      Decoded(cp, c.keyId) == Ok(merged) <==>
        && ControlValid(cp, c.keyId) && sourceRows == CountOf(c, Flat(pages))
        && forall dim :: dim in merged ==> TextFits(dim) && ValidUnit(c.unit)
  {
    var items, merged := Flat(pages), MergedPages(pages).value;
    PagesSummarize(c, pages);
    ScanIsHonest(c, pages, list);
    RequestsAreCount(c, merged, items, list);
    CheckpointRoundTrip(c, merged, list, nextPage, total, sourceRows);
    SameFit(c, merged);
  }

  // What a reader accepts.

  /** A stored row that belongs to the checkpoint, counts something inside its hour, has texts that
      fit the columns, and carries its own hash. */
  ghost predicate Acceptable(cp: Checkpoint, keyId: string, s: Stored) {
    var row, f := s.row, s.row.figures;
    && row.context == Context(cp.domain, cp.epoch, cp.hour, keyId, row.context.unit)
    && f.requests >= 1 && f.quota >= 0 && f.prompt >= 0 && f.completion >= 0
    && |row.dim.group| <= 191 && |row.dim.model| <= 191 && |row.dim.mode| <= 64
    && |row.context.unit| <= 80 && (exists n: nat, d: nat :: Prints(n, d, row.context.unit))
    && cp.hour <= f.first && f.first <= f.last && f.last <= cp.hour + 3599 && row.fetchedAt >= 0
    && s.hash == Row(row.context, row.dim, f, 0)
  }

  lemma StoredValidIff(cp: Checkpoint, keyId: string, s: Stored)
    ensures StoredValid(cp, keyId, s) <==> Acceptable(cp, keyId, s)
  {
    ValidUnitIff(s.row.context.unit);
  }

  function StoredRequests(stored: seq<Stored>): int {
    if stored == [] then 0
    else StoredRequests(stored[..|stored| - 1]) + stored[|stored| - 1].row.figures.requests
  }

  ghost predicate AllAcceptable(cp: Checkpoint, keyId: string, stored: seq<Stored>) {
    && (forall i :: 0 <= i < |stored| ==> Acceptable(cp, keyId, stored[i]))
    && forall i, j :: 0 <= i < j < |stored| ==> stored[i].row.dim != stored[j].row.dim
  }

  /** The rows read are those stored, under their dimensions. */
  ghost predicate Holds(rows: Rows, stored: seq<Stored>) {
    && (forall i :: 0 <= i < |stored| ==>
          stored[i].row.dim in rows && rows[stored[i].row.dim] == stored[i].row)
    && forall dim :: dim in rows ==> exists i :: 0 <= i < |stored| && stored[i].row.dim == dim
  }

  lemma HoldsStep(rows: Rows, before: seq<Stored>, last: Stored)
    requires Holds(rows, before) && last.row.dim !in rows
    ensures Holds(rows[last.row.dim := last.row], before + [last])
  {
    var all, after := before + [last], rows[last.row.dim := last.row];
    forall dim | dim in after ensures exists i :: 0 <= i < |all| && all[i].row.dim == dim {
      if dim == last.row.dim {
        assert all[|before|].row.dim == dim;
      } else {
        var i :| 0 <= i < |before| && before[i].row.dim == dim;
        assert all[i].row.dim == dim;
      }
    }
  }

  lemma AcceptableStep(cp: Checkpoint, keyId: string, before: seq<Stored>, last: Stored, rows: Rows)
    requires AllAcceptable(cp, keyId, before) && Holds(rows, before)
    ensures AllAcceptable(cp, keyId, before + [last]) <==> Acceptable(cp, keyId, last) && last.row.dim !in rows
  {
    var all := before + [last];
    assert all[|before|] == last && forall i :: 0 <= i < |before| ==> all[i] == before[i];
    if last.row.dim in rows {
      var i :| 0 <= i < |before| && before[i].row.dim == last.row.dim;
      assert all[i].row.dim == all[|before|].row.dim;
    }
  }

  lemma AcceptablePrefix(cp: Checkpoint, keyId: string, before: seq<Stored>, last: Stored)
    requires AllAcceptable(cp, keyId, before + [last])
    ensures AllAcceptable(cp, keyId, before) && Acceptable(cp, keyId, last)
  {
    var all := before + [last];
    assert all[|before|] == last && forall i :: 0 <= i < |before| ==> all[i] == before[i];
  }

  ghost predicate ReadsIff(cp: Checkpoint, keyId: string, stored: seq<Stored>) {
    var read := ReadRows(cp, keyId, stored);
    && (read.Ok? <==> AllAcceptable(cp, keyId, stored) && StoredRequests(stored) <= MAX_INT64)
    && (read.Ok? ==> Holds(read.value.rows, stored) && read.value.requests == StoredRequests(stored))
    && (AllAcceptable(cp, keyId, stored) ==> StoredRequests(stored) >= 0)
  }

  lemma ReadsStep(cp: Checkpoint, keyId: string, before: seq<Stored>, last: Stored)
    requires ReadsIff(cp, keyId, before)
    ensures ReadsIff(cp, keyId, before + [last])
  {
    assert (before + [last])[..|before|] == before;
    StoredValidIff(cp, keyId, last);
    var read := ReadRows(cp, keyId, before);
    if read.Ok? {
      AcceptableStep(cp, keyId, before, last, read.value.rows);
      if last.row.dim !in read.value.rows { HoldsStep(read.value.rows, before, last); }
    } else if AllAcceptable(cp, keyId, before + [last]) {
      AcceptablePrefix(cp, keyId, before, last);
    }
  }

  lemma {:induction false} ReadsExactly(cp: Checkpoint, keyId: string, stored: seq<Stored>)
    ensures ReadsIff(cp, keyId, stored)
    decreases |stored|
  {
    if stored != [] {
      ReadsExactly(cp, keyId, stored[..|stored| - 1]);
      ReadsStep(cp, keyId, stored[..|stored| - 1], stored[|stored| - 1]);
      assert stored == stored[..|stored| - 1] + [stored[|stored| - 1]];
    }
  }

  /** A checkpoint is read exactly when its control fields are in range, it has at most 2048 rows,
      each acceptable and of a dimension of its own, and their requests are the stored count; and what
      is read is what was stored. */
  lemma DecodesExactlyWhen(cp: Checkpoint, keyId: string)
    ensures Decoded(cp, keyId).Ok? <==>
      && keyId != "" && 1 <= |cp.domain| && |cp.domain| <= 253 && |cp.epoch| == 64
      && cp.hour >= 0 && cp.hour % 3600 == 0 && cp.nextPage > 1
      && cp.total >= 0 && cp.sourceRows >= 0 && cp.sourceRows <= cp.total
      && |cp.rows| <= 2048 && AllAcceptable(cp, keyId, cp.rows)
      && StoredRequests(cp.rows) == cp.sourceRows && cp.sourceRows <= MAX_INT64
    ensures Decoded(cp, keyId).Ok? ==> Holds(Decoded(cp, keyId).value, cp.rows)
  {
    ReadsExactly(cp, keyId, cp.rows);
  }

  /** A save is refused exactly beyond 2048 rows, and otherwise holds the scan as it stands. */
  lemma SavesExactlyWhen(c: Context, nextPage: int, total: int, sourceRows: int, list: seq<Row>)
    ensures Saved(c, nextPage, total, sourceRows, list).Ok? <==> |list| <= 2048
    ensures Saved(c, nextPage, total, sourceRows, list).Ok? ==>
      var cp := Saved(c, nextPage, total, sourceRows, list).value;
      && cp.domain == c.domain && cp.epoch == c.epoch && cp.hour == c.hour && cp.nextPage == nextPage
      && cp.total == total && cp.sourceRows == sourceRows && |cp.rows| == |list|
      && forall i :: 0 <= i < |list| ==>
            cp.rows[i].row == list[i] && cp.rows[i].hash == Row(list[i].context, list[i].dim, list[i].figures, 0)
  {
  }
}
