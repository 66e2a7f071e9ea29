/** From the importer's tables to the pages of a query: how the guarantees of the parts fit together. */
module EndToEnd {
  import opened Wrappers
  import Aggregates
  import CursorText
  import Importer
  import IngestStore
  import LogSourceSettings
  import Order
  import Paging
  import Receiver
  import Routing
  import SourceIdentity
  import Sources
  import SqlFilter
  import StateLog
  import Visibility

  /** What the list of date states says of a state row; the importer never stores a visible timestamp. */
  function Listed(row: IngestStore.DateState): Visibility.DayState {
    Visibility.DayState(row.key.source, row.key.date, row.status, None)
  }

  /** Whatever rows the list query answers with, a queried range covers only partitions that are complete. */
  lemma VisibleRangesAreComplete(
    w: IngestStore.World, rows: seq<IngestStore.DateState>, c: Visibility.Calendar, start: int, end: int,
    states: seq<Visibility.DayState>, range: SqlFilter.Range)
    requires IngestStore.Safe(w)
    requires forall row <- rows :: StateLog.IsLatest(w.dates, row)
    requires |states| == |rows| && forall i :: 0 <= i < |rows| ==> states[i] == Listed(rows[i])
    requires range in Visibility.DaysBefore(c, start, end, states, c.dayOf(end) + 1).ranges
    requires Aggregates.Key(range.source, range.logDate) !in w.open
    ensures var key := Aggregates.Key(range.source, range.logDate);
            && key in w.loaded
            && IngestStore.PartitionAt(w.parts, key) == Aggregates.PartitionOf(w.loaded[key])
  {
    Visibility.RangesAreBacked(c, start, end, states, c.dayOf(end) + 1);
    var s :| s in states && Visibility.BacksRange(s, range);
    var i :| 0 <= i < |states| && states[i] == s;
    IngestStore.ReadyMeansComplete(w, rows[i]);
  }

  /** A row of `nat_logs` with the columns that a condition can name. */
  function AsSqlRow(row: Aggregates.Row): SqlFilter.Row {
    var p := row.payload;
    SqlFilter.Row(row.key.date, Aggregates.PositionOf(row), p.srcIP, p.dstIP, p.natIP,
                  p.srcPort, p.dstPort, p.natPort, p.protocol, p.action, row.logTag)
  }

  /** The same row as a record that pages are made of. */
  function AsRecord(row: Aggregates.Row): Paging.Record<SqlFilter.Row> {
    Paging.Record(Aggregates.PositionOf(row), AsSqlRow(row))
  }

  function AsRecords(rows: seq<Aggregates.Row>): (records: seq<Paging.Record<SqlFilter.Row>>)
    ensures |records| == |rows|
  {
    seq(|rows|, i requires 0 <= i < |rows| => AsRecord(rows[i]))
  }

  lemma AsRecordsOfBoth(a: seq<Aggregates.Row>, b: seq<Aggregates.Row>)
    ensures AsRecords(a + b) == AsRecords(a) + AsRecords(b)
  {
  }

  /** The rows of a partition: of one key, at distinct positions, from files whose names carry that key's date. */
  ghost predicate WellKeyed(rows: seq<Aggregates.Row>, key: Aggregates.Key, dateOf: string -> int) {
    && (forall r <- rows :: r.key == key && dateOf(r.file) == key.date)
    && (forall i, j :: 0 <= i < j < |rows| ==> Aggregates.PositionOf(rows[i]) != Aggregates.PositionOf(rows[j]))
  }

  /** What the importer puts into a partition has those properties. */
  lemma ImportedRowsAreWellKeyed(
    parser: Importer.Parser, contents: string -> seq<string>, key: Aggregates.Key, logTag: string,
    files: seq<Importer.Entry>, dateOf: string -> int)
    requires Importer.DistinctNames(files)
    requires forall f <- files :: dateOf(f.name) == key.date
    ensures WellKeyed(Importer.RowsOfFiles(parser, contents, key, logTag, files), key, dateOf)
  {
    Importer.PositionsAreUnique(parser, contents, key, logTag, files);
  }

  /** Partitions put one after another still have distinct positions, so the paging theorems apply to the table. */
  lemma {:induction false} PartitionsHaveUniquePositions(
    parts: seq<seq<Aggregates.Row>>, keys: seq<Aggregates.Key>, dateOf: string -> int)
    requires |parts| == |keys| && forall i :: 0 <= i < |parts| ==> WellKeyed(parts[i], keys[i], dateOf)
    requires forall i, j :: 0 <= i < j < |keys| ==> keys[i] != keys[j]
    ensures Paging.UniquePositions(AsRecords(Flatten(parts)))
    ensures forall r <- Flatten(parts) :: r.key in keys && dateOf(r.file) == r.key.date
  {
    if parts != [] {
      var n := |parts| - 1;
      PartitionsHaveUniquePositions(parts[..n], keys[..n], dateOf);
      var front, last := Flatten(parts[..n]), parts[n];
      forall i, j | 0 <= i < |front| && 0 <= j < |last|
        ensures Aggregates.PositionOf(front[i]) != Aggregates.PositionOf(last[j])
      {
        assert front[i] in front && last[j] in last;
        assert front[i].key in keys[..n] && last[j].key == keys[n];
      }
      UniqueTogether(front, last);
    }
  }

  function Flatten(parts: seq<seq<Aggregates.Row>>): seq<Aggregates.Row> {
    if parts == [] then [] else Flatten(parts[..|parts| - 1]) + parts[|parts| - 1]
  }

  lemma UniqueTogether(a: seq<Aggregates.Row>, b: seq<Aggregates.Row>)
    requires Paging.UniquePositions(AsRecords(a))
    requires forall i, j :: 0 <= i < j < |b| ==> Aggregates.PositionOf(b[i]) != Aggregates.PositionOf(b[j])
    requires forall i, j :: 0 <= i < |a| && 0 <= j < |b| ==> Aggregates.PositionOf(a[i]) != Aggregates.PositionOf(b[j])
    ensures Paging.UniquePositions(AsRecords(a + b))
  {
    var all := AsRecords(a + b);
    forall i, j | 0 <= i < j < |all|
      ensures all[i].position != all[j].position
    {
      if j < |a| {
        assert AsRecords(a)[i].position != AsRecords(a)[j].position;
      }
    }
  }

  /** The files of every request have different names, and a name tells the date of its file. */
  ghost predicate NamesTellDates(requests: seq<Importer.Request>, dateOf: string -> int) {
    forall q <- requests ::
      && Importer.DistinctNames(q.dir)
      && forall f <- q.dir :: f.logDate.Some? ==> dateOf(f.name) == f.logDate.value
  }

  lemma LoadedAreWellKeyed(
    w: IngestStore.World, requests: seq<Importer.Request>, dateOf: string -> int, key: Aggregates.Key)
    requires Importer.LoadedByRequests(w, requests) && NamesTellDates(requests, dateOf) && key in w.loaded
    ensures WellKeyed(w.loaded[key], key, dateOf)
  {
    assert Importer.IsFound(requests, key, w.loaded[key]);
    var q, now :| q in requests && Importer.KeyOf(q) == key && q.clock <= now && w.loaded[key] == Importer.RowsAt(q, now);
    Importer.TargetsAreDistinct(q.dir, now, q.date);
    assert Importer.DistinctNames(q.dir);
    forall f | f in Importer.TargetFiles(q.dir, now, q.date)
      ensures dateOf(f.name) == q.date
    {
      assert f in q.dir && Importer.IsArchive(f, now, q.date);
    }
    ImportedRowsAreWellKeyed(
      q.parser, q.contents, key, q.source.logTag, Importer.TargetFiles(q.dir, now, q.date), dateOf);
  }

  /** The partitions of `nat_logs`, in the order of `keys`. */
  function RowsOfParts(parts: map<Aggregates.Key, Aggregates.Partition>, keys: seq<Aggregates.Key>): (rows: seq<seq<Aggregates.Row>>)
    ensures |rows| == |keys|
  {
    seq(|keys|, i requires 0 <= i < |keys| => IngestStore.PartitionAt(parts, keys[i]).rows)
  }

  ghost predicate IsListOfKeys(keys: seq<Aggregates.Key>, parts: map<Aggregates.Key, Aggregates.Partition>) {
    && (forall key :: key in keys <==> key in parts)
    && (forall i, j :: 0 <= i < j < |keys| ==> keys[i] != keys[j])
  }

  predicate InSight(ranges: seq<SqlFilter.Range>, key: Aggregates.Key) {
    exists range <- ranges :: range.source == key.source && range.logDate == key.date
  }

  /** Every partition in sight is complete. */
  ghost predicate CompleteInSight(w: IngestStore.World, ranges: seq<SqlFilter.Range>) {
    && (forall range <- ranges :: range.source != "")
    && forall key :: InSight(ranges, key) ==>
         key in w.loaded && IngestStore.PartitionAt(w.parts, key) == Aggregates.PartitionOf(w.loaded[key])
  }

  /** The partitions in sight, and nothing in place of the others. */
  function RowsInSight(
    parts: map<Aggregates.Key, Aggregates.Partition>, keys: seq<Aggregates.Key>, ranges: seq<SqlFilter.Range>): (rows: seq<seq<Aggregates.Row>>)
    ensures |rows| == |keys|
  {
    seq(|keys|, i requires 0 <= i < |keys| =>
      if InSight(ranges, keys[i]) then IngestStore.PartitionAt(parts, keys[i]).rows else [])
  }

  ghost function SelectsOf(req: SqlFilter.Request, ranges: seq<SqlFilter.Range>, canonical: string -> string): SqlFilter.Row -> bool {
    row => SqlFilter.Selects(req, ranges, canonical, row)
  }

  ghost function ByColumns(selects: SqlFilter.Row -> bool): Paging.Record<SqlFilter.Row> -> bool {
    (r: Paging.Record<SqlFilter.Row>) => selects(r.columns)
  }

  ghost function FilterOf(req: SqlFilter.Request, ranges: seq<SqlFilter.Range>, canonical: string -> string): Paging.Record<SqlFilter.Row> -> bool {
    ByColumns(SelectsOf(req, ranges, canonical))
  }

  /** A query selects nothing from a partition that is out of sight. */
  lemma OutOfSight(
    parts: map<Aggregates.Key, Aggregates.Partition>, key: Aggregates.Key, req: SqlFilter.Request,
    ranges: seq<SqlFilter.Range>, canonical: string -> string, row: Aggregates.Row)
    requires IngestStore.IsPartitioned(parts) && row in IngestStore.PartitionAt(parts, key).rows
    requires !InSight(ranges, key) && forall range <- ranges :: range.source != ""
    ensures !FilterOf(req, ranges, canonical)(AsRecord(row))
  {
    assert row.key == key;
  }

  /** Leaving out partitions from which nothing is selected changes no result. */
  lemma {:induction false} SameSelection(
    parts: seq<seq<Aggregates.Row>>, some: seq<seq<Aggregates.Row>>,
    filter: Paging.Record<SqlFilter.Row> -> bool, cursor: Option<Order.Position>)
    requires |parts| == |some|
    requires forall i :: 0 <= i < |parts| ==> some[i] == parts[i] || (some[i] == [] && forall r <- parts[i] :: !filter(AsRecord(r)))
    ensures Paging.Where(AsRecords(Flatten(parts)), filter, cursor) == Paging.Where(AsRecords(Flatten(some)), filter, cursor)
  {
    if parts != [] {
      var n := |parts| - 1;
      SameSelection(parts[..n], some[..n], filter, cursor);
      WhereOfLast(parts, filter, cursor);
      WhereOfLast(some, filter, cursor);
      if some[n] != parts[n] {
        Paging.WhereOfNone(AsRecords(parts[n]), filter, cursor);
      }
    }
  }

  lemma WhereOfLast(parts: seq<seq<Aggregates.Row>>, filter: Paging.Record<SqlFilter.Row> -> bool, cursor: Option<Order.Position>)
    requires parts != []
    ensures Paging.Where(AsRecords(Flatten(parts)), filter, cursor)
         == Paging.Where(AsRecords(Flatten(parts[..|parts| - 1])), filter, cursor)
            + Paging.Where(AsRecords(parts[|parts| - 1]), filter, cursor)
  {
    AsRecordsOfBoth(Flatten(parts[..|parts| - 1]), parts[|parts| - 1]);
    Paging.WhereOfBoth(AsRecords(Flatten(parts[..|parts| - 1])), AsRecords(parts[|parts| - 1]), filter, cursor);
  }

  lemma {:induction false} FlattenHas(parts: seq<seq<Aggregates.Row>>, row: Aggregates.Row)
    ensures row in Flatten(parts) <==> exists i :: 0 <= i < |parts| && row in parts[i]
  {
    if parts != [] {
      var n := |parts| - 1;
      FlattenHas(parts[..n], row);
      if row in Flatten(parts[..n]) {
        var i :| 0 <= i < n && row in parts[..n][i];
        assert row in parts[i];
      }
      forall i | 0 <= i < n && row in parts[i]
        ensures row in Flatten(parts[..n])
      {
        assert row in parts[..n][i];
      }
    }
  }

  lemma CountedOnce(rows: seq<Aggregates.Row>, row: Aggregates.Row)
    requires Paging.UniquePositions(AsRecords(rows))
    ensures multiset(AsRecords(rows))[AsRecord(row)] == if row in rows then 1 else 0
  {
    var all := AsRecords(rows);
    if row in rows {
      var i :| 0 <= i < |rows| && rows[i] == row;
      assert all == all[..i] + [all[i]] + all[i + 1..];
      assert AsRecord(row) !in all[..i] && AsRecord(row) !in all[i + 1..];
    } else {
      forall i | 0 <= i < |all|
        ensures all[i] != AsRecord(row)
      {
        SameRecord(rows[i], row);
      }
    }
  }

  /** A record tells which row it is made from. */
  lemma SameRecord(a: Aggregates.Row, b: Aggregates.Row)
    ensures AsRecord(a) == AsRecord(b) ==> a == b
  {
  }

  /** The rows that a query should return: of a complete partition, in a visible range, and as requested. */
  ghost predicate IsExpected(
    w: IngestStore.World, ranges: seq<SqlFilter.Range>, req: SqlFilter.Request, canonical: string -> string, row: Aggregates.Row)
  {
    && row.key in w.loaded && row in w.loaded[row.key]
    && SqlFilter.Selects(req, ranges, canonical, AsSqlRow(row))
  }

  /** `records` are the rows expected, each once, in order. */
  ghost predicate IsAnswer(
    w: IngestStore.World, ranges: seq<SqlFilter.Range>, req: SqlFilter.Request, canonical: string -> string,
    records: seq<Paging.Record<SqlFilter.Row>>)
  {
    && Paging.Sorted(records)
    && (forall row :: multiset(records)[AsRecord(row)] == if IsExpected(w, ranges, req, canonical, row) then 1 else 0)
    && (forall r <- records :: exists row :: IsExpected(w, ranges, req, canonical, row) && r == AsRecord(row))
  }

  lemma {:induction false} SightIsUnique(
    w: IngestStore.World, keys: seq<Aggregates.Key>, ranges: seq<SqlFilter.Range>,
    requests: seq<Importer.Request>, dateOf: string -> int)
    requires CompleteInSight(w, ranges) && IsListOfKeys(keys, w.parts)
    requires Importer.LoadedByRequests(w, requests) && NamesTellDates(requests, dateOf)
    ensures Paging.UniquePositions(AsRecords(Flatten(RowsInSight(w.parts, keys, ranges))))
  {
    var rows := RowsInSight(w.parts, keys, ranges);
    forall i | 0 <= i < |keys|
      ensures WellKeyed(rows[i], keys[i], dateOf)
    {
      if InSight(ranges, keys[i]) {
        LoadedAreWellKeyed(w, requests, dateOf, keys[i]);
      }
    }
    PartitionsHaveUniquePositions(rows, keys, dateOf);
  }

  /** Of the rows in sight, those that match are the ones expected. */
  lemma ExpectedAreInSight(
    w: IngestStore.World, keys: seq<Aggregates.Key>, ranges: seq<SqlFilter.Range>,
    req: SqlFilter.Request, canonical: string -> string, row: Aggregates.Row)
    requires CompleteInSight(w, ranges) && IsListOfKeys(keys, w.parts) && IngestStore.IsPartitioned(w.parts)
    ensures IsExpected(w, ranges, req, canonical, row)
       <==> row in Flatten(RowsInSight(w.parts, keys, ranges)) && SqlFilter.Selects(req, ranges, canonical, AsSqlRow(row))
  {
    var rows := RowsInSight(w.parts, keys, ranges);
    FlattenHas(rows, row);
    if row in Flatten(rows) {
      var i :| 0 <= i < |rows| && row in rows[i];
      assert InSight(ranges, keys[i]) && row.key == keys[i];
    }
    if IsExpected(w, ranges, req, canonical, row) {
      assert InSight(ranges, row.key);
      assert row in IngestStore.PartitionAt(w.parts, row.key).rows;
      var i :| 0 <= i < |keys| && keys[i] == row.key;
      assert row in rows[i];
    }
  }

  /** `records` hold what `filter` selects of the rows in sight, each row as often as it is there. */
  ghost predicate HoldsSelected(
    rows: seq<Aggregates.Row>, filter: Paging.Record<SqlFilter.Row> -> bool, records: seq<Paging.Record<SqlFilter.Row>>)
  {
    forall r :: multiset(records)[r] == if filter(r) then multiset(AsRecords(rows))[r] else 0
  }

  lemma ExpectedOnce(
    w: IngestStore.World, keys: seq<Aggregates.Key>, ranges: seq<SqlFilter.Range>,
    req: SqlFilter.Request, canonical: string -> string, records: seq<Paging.Record<SqlFilter.Row>>, row: Aggregates.Row)
    requires CompleteInSight(w, ranges) && IsListOfKeys(keys, w.parts) && IngestStore.IsPartitioned(w.parts)
    requires Paging.UniquePositions(AsRecords(Flatten(RowsInSight(w.parts, keys, ranges))))
    requires HoldsSelected(Flatten(RowsInSight(w.parts, keys, ranges)), FilterOf(req, ranges, canonical), records)
    ensures multiset(records)[AsRecord(row)] == if IsExpected(w, ranges, req, canonical, row) then 1 else 0
  {
    CountedOnce(Flatten(RowsInSight(w.parts, keys, ranges)), row);
    ExpectedAreInSight(w, keys, ranges, req, canonical, row);
  }

  lemma OnlyExpected(
    w: IngestStore.World, keys: seq<Aggregates.Key>, ranges: seq<SqlFilter.Range>,
    req: SqlFilter.Request, canonical: string -> string, records: seq<Paging.Record<SqlFilter.Row>>,
    r: Paging.Record<SqlFilter.Row>)
    requires CompleteInSight(w, ranges) && IsListOfKeys(keys, w.parts) && IngestStore.IsPartitioned(w.parts)
    requires HoldsSelected(Flatten(RowsInSight(w.parts, keys, ranges)), FilterOf(req, ranges, canonical), records)
    requires r in records
    ensures exists row :: IsExpected(w, ranges, req, canonical, row) && r == AsRecord(row)
  {
    var rows := Flatten(RowsInSight(w.parts, keys, ranges));
    assert r in multiset(records);
    assert r in multiset(AsRecords(rows));
    var i :| 0 <= i < |rows| && AsRecords(rows)[i] == r;
    ExpectedAreInSight(w, keys, ranges, req, canonical, rows[i]);
  }

  /** What was followed on the rows in sight is the answer. */
  lemma FollowedIsAnswer(
    w: IngestStore.World, keys: seq<Aggregates.Key>, ranges: seq<SqlFilter.Range>,
    req: SqlFilter.Request, canonical: string -> string, pageSize: int, pages: seq<Paging.Page<SqlFilter.Row>>)
    requires CompleteInSight(w, ranges) && IsListOfKeys(keys, w.parts) && IngestStore.IsPartitioned(w.parts)
    requires Paging.UniquePositions(AsRecords(Flatten(RowsInSight(w.parts, keys, ranges))))
    requires Paging.Follows(
               AsRecords(Flatten(RowsInSight(w.parts, keys, ranges))), FilterOf(req, ranges, canonical), pageSize, pages)
    requires !pages[|pages| - 1].hasMore
    ensures IsAnswer(w, ranges, req, canonical, Paging.Concat(pages))
  {
    var rows := Flatten(RowsInSight(w.parts, keys, ranges));
    Paging.FollowingCursorsIsComplete(AsRecords(rows), FilterOf(req, ranges, canonical), pageSize, pages);
    var records := Paging.Concat(pages);
    assert HoldsSelected(rows, FilterOf(req, ranges, canonical), records);
    forall row
      ensures multiset(records)[AsRecord(row)] == if IsExpected(w, ranges, req, canonical, row) then 1 else 0
    {
      ExpectedOnce(w, keys, ranges, req, canonical, records, row);
    }
    forall r | r in records
      ensures exists row :: IsExpected(w, ranges, req, canonical, row) && r == AsRecord(row)
    {
      OnlyExpected(w, keys, ranges, req, canonical, records, r);
    }
  }

  /** The text of the page statement's condition: that of the query, with the condition of the cursor appended. */
  function StatementTokens(tokens: seq<SqlFilter.Token>, cursor: Option<Order.Position>): seq<SqlFilter.Token> {
    match cursor
    case None => tokens
    case Some(c) => tokens + [SqlFilter.And] + SqlFilter.Tokens(SqlFilter.After(c))
  }

  function StatementArgs(args: seq<SqlFilter.Value>, cursor: Option<Order.Position>): seq<SqlFilter.Value> {
    match cursor
    case None => args
    case Some(c) => args + SqlFilter.Args(SqlFilter.After(c))
  }

  /** Asks for one page: the condition's text, with that of the cursor, selects the page behind the cursor. */
  method FetchPage(
    table: seq<Paging.Record<SqlFilter.Row>>, tokens: seq<SqlFilter.Token>, args: seq<SqlFilter.Value>,
    cursor: Option<Order.Position>, pageSize: int, ghost selects: SqlFilter.Row -> bool)
    returns (page: Paging.Page<SqlFilter.Row>)
    requires SqlFilter.Denotes(tokens, args, selects) && forall r <- table :: r.position == r.columns.position
    ensures page == Paging.PageOf(table, ByColumns(selects), Paging.Options(1, pageSize, cursor))
  {
    var statement, values := StatementTokens(tokens, cursor), StatementArgs(args, cursor);
    var condition := (r: Paging.Record<SqlFilter.Row>) => SqlFilter.Evaluate(statement, values, r.columns) == Some(true);
    ghost var filter := ByColumns(selects);
    page := Paging.QueryPage(table, condition, Paging.Options(1, pageSize, None));
    Paging.SameWhere(table, condition, filter, cursor);
    assert Paging.Result(table, condition, None) == Paging.Result(table, filter, cursor);
    Paging.PageIsSlice(table, filter, Paging.Options(1, pageSize, cursor));
  }

  /** Counts the rows that the statement selects. */
  method CountRows(
    table: seq<Paging.Record<SqlFilter.Row>>, tokens: seq<SqlFilter.Token>, args: seq<SqlFilter.Value>,
    ghost selects: SqlFilter.Row -> bool)
    returns (total: nat)
    requires SqlFilter.Denotes(tokens, args, selects)
    ensures total == |Paging.Where(table, ByColumns(selects), None)|
  {
    var condition := (r: Paging.Record<SqlFilter.Row>) => SqlFilter.Evaluate(tokens, args, r.columns) == Some(true);
    Paging.SameWhere(table, condition, ByColumns(selects), None);
    total := |Paging.Where(table, condition, None)|;
  }

  /** Asks for the first page and then for the page behind each cursor, until there is no more. */
  method FollowCursors(
    table: seq<Paging.Record<SqlFilter.Row>>, tokens: seq<SqlFilter.Token>, args: seq<SqlFilter.Value>, pageSize: int,
    ghost selects: SqlFilter.Row -> bool)
    returns (pages: seq<Paging.Page<SqlFilter.Row>>)
    requires SqlFilter.Denotes(tokens, args, selects) && forall r <- table :: r.position == r.columns.position
    ensures Paging.Follows(table, ByColumns(selects), pageSize, pages) && !pages[|pages| - 1].hasMore
  {
    ghost var filter := ByColumns(selects);
    var page := FetchPage(table, tokens, args, None, pageSize, selects);
    pages := [page];
    while page.hasMore
      invariant Paging.Follows(table, filter, pageSize, pages) && page == pages[|pages| - 1]
      decreases if page.hasMore then 1 + |Paging.Where(table, filter, Paging.NextCursor(page))| else 0
    {
      Paging.FewerLeft(table, filter, pageSize, Paging.NextCursor(page));
      var next := FetchPage(table, tokens, args, Paging.NextCursor(page), pageSize, selects);
      Paging.FollowsWith(table, filter, pageSize, pages, next);
      page, pages := next, pages + [next];
    }
  }

  ghost predicate SameFor(
    table: seq<Paging.Record<SqlFilter.Row>>, some: seq<Paging.Record<SqlFilter.Row>>,
    filter: Paging.Record<SqlFilter.Row> -> bool)
  {
    forall cursor :: Paging.Where(table, filter, cursor) == Paging.Where(some, filter, cursor)
  }

  /** Pages depend on the selected rows only. */
  lemma FollowsSame(
    table: seq<Paging.Record<SqlFilter.Row>>, some: seq<Paging.Record<SqlFilter.Row>>,
    filter: Paging.Record<SqlFilter.Row> -> bool, pageSize: int, pages: seq<Paging.Page<SqlFilter.Row>>)
    requires SameFor(table, some, filter) && Paging.Follows(table, filter, pageSize, pages)
    ensures Paging.Follows(some, filter, pageSize, pages)
  {
    SamePage(table, some, filter, pageSize, None);
    forall k
      ensures Paging.Linked(some, filter, pageSize, pages, k)
    {
      assert Paging.Linked(table, filter, pageSize, pages, k);
      if 0 <= k < |pages| - 1 {
        SamePage(table, some, filter, pageSize, Paging.NextCursor(pages[k]));
      }
    }
  }

  lemma SamePage(
    table: seq<Paging.Record<SqlFilter.Row>>, some: seq<Paging.Record<SqlFilter.Row>>,
    filter: Paging.Record<SqlFilter.Row> -> bool, pageSize: int, cursor: Option<Order.Position>)
    requires SameFor(table, some, filter)
    ensures var options := Paging.Options(1, pageSize, cursor);
            Paging.PageOf(table, filter, options) == Paging.PageOf(some, filter, options)
  {
  }

  function RangesOf(c: Visibility.Calendar, start: int, end: int, states: seq<Visibility.DayState>): seq<SqlFilter.Range> {
    if end < start then [] else Visibility.DaysBefore(c, start, end, states, c.dayOf(end) + 1).ranges
  }

  /** `states` is what a listing of the state table says, and no date that is queried is just being dropped. */
  ghost predicate IsListing(
    w: IngestStore.World, rows: seq<IngestStore.DateState>, states: seq<Visibility.DayState>, ranges: seq<SqlFilter.Range>)
  {
    && (forall row <- rows :: StateLog.IsLatest(w.dates, row) && row.key.source != "")
    && |states| == |rows| && (forall i :: 0 <= i < |rows| ==> states[i] == Listed(rows[i]))
    && (forall range <- ranges :: Aggregates.Key(range.source, range.logDate) !in w.open)
  }

  lemma ListingIsComplete(
    w: IngestStore.World, rows: seq<IngestStore.DateState>, c: Visibility.Calendar, start: int, end: int,
    states: seq<Visibility.DayState>)
    requires IngestStore.Safe(w) && IsListing(w, rows, states, RangesOf(c, start, end, states))
    ensures CompleteInSight(w, RangesOf(c, start, end, states))
  {
    var ranges := RangesOf(c, start, end, states);
    forall range | range in ranges
      ensures range.source != ""
      ensures var key := Aggregates.Key(range.source, range.logDate);
              key in w.loaded && IngestStore.PartitionAt(w.parts, key) == Aggregates.PartitionOf(w.loaded[key])
    {
      Visibility.RangesAreBacked(c, start, end, states, c.dayOf(end) + 1);
      var s :| s in states && Visibility.BacksRange(s, range);
      VisibleRangesAreComplete(w, rows, c, start, end, states, range);
    }
  }

  /** `pages` are what following the cursors gives for a request over `ranges`, and `total` what counting gives. */
  ghost predicate IsFollowed(
    parts: map<Aggregates.Key, Aggregates.Partition>, keys: seq<Aggregates.Key>, ranges: seq<SqlFilter.Range>,
    req: SqlFilter.Request, canonical: string -> string, pageSize: int, total: nat, pages: seq<Paging.Page<SqlFilter.Row>>)
  {
    var table, filter := AsRecords(Flatten(RowsOfParts(parts, keys))), FilterOf(req, ranges, canonical);
    && Paging.Follows(table, filter, pageSize, pages) && !pages[|pages| - 1].hasMore
    && total == |Paging.Where(table, filter, None)|
  }

  /** A query from the listed states to the last page. */
  method AnswerQuery(
    parts: map<Aggregates.Key, Aggregates.Partition>, keys: seq<Aggregates.Key>, states: seq<Visibility.DayState>,
    c: Visibility.Calendar, start: int, end: int, req: SqlFilter.Request, canonical: string -> string, pageSize: int)
    returns (built: SqlFilter.Built, total: nat, pages: seq<Paging.Page<SqlFilter.Row>>)
    requires Visibility.IsCalendar(c)
    ensures built.Query? <==> !SqlFilter.AnyBadIP(req) && RangesOf(c, start, end, states) != []
    ensures built.Query? ==> IsFollowed(parts, keys, RangesOf(c, start, end, states), req, canonical, pageSize, total, pages)
  {
    total, pages := 0, [];
    var visible := Visibility.BuildVisibleRanges(c, start, end, states);
    built := SqlFilter.BuildQuerySQL(req, visible.ranges, canonical);
    if built.Query? {
      var table := AsRecords(Flatten(RowsOfParts(parts, keys)));
      ghost var selects := SelectsOf(req, visible.ranges, canonical);
      total := CountRows(table, built.tokens, built.args, selects);
      pages := FollowCursors(table, built.tokens, built.args, pageSize, selects);
    }
  }

  /**
    When no queried date is just being dropped, the answer is every row of the imported files that
    lies in a visible range and matches the request, once, in order, and nothing else.
   */
  lemma AnswersAreExpected(
    w: IngestStore.World, requests: seq<Importer.Request>, dateOf: string -> int, keys: seq<Aggregates.Key>,
    rows: seq<IngestStore.DateState>, states: seq<Visibility.DayState>, c: Visibility.Calendar, start: int, end: int,
    req: SqlFilter.Request, canonical: string -> string, pageSize: int, total: nat, pages: seq<Paging.Page<SqlFilter.Row>>)
    requires IngestStore.Safe(w) && Importer.LoadedByRequests(w, requests) && NamesTellDates(requests, dateOf)
    requires IsListOfKeys(keys, w.parts) && IsListing(w, rows, states, RangesOf(c, start, end, states))
    requires IsFollowed(w.parts, keys, RangesOf(c, start, end, states), req, canonical, pageSize, total, pages)
    ensures IsAnswer(w, RangesOf(c, start, end, states), req, canonical, Paging.Concat(pages))
    ensures total == |Paging.Concat(pages)| && Paging.AreFullPages(pages, Paging.NormalizePageSize(pageSize))
  {
    var ranges := RangesOf(c, start, end, states);
    ListingIsComplete(w, rows, c, start, end, states);
    var table, some := AsRecords(Flatten(RowsOfParts(w.parts, keys))), AsRecords(Flatten(RowsInSight(w.parts, keys, ranges)));
    var filter := FilterOf(req, ranges, canonical);
    SightIsUnique(w, keys, ranges, requests, dateOf);
    forall cursor
      ensures Paging.Where(table, filter, cursor) == Paging.Where(some, filter, cursor)
    {
      OnlySightMatters(w, keys, ranges, req, canonical, cursor);
    }
    FollowsSame(table, some, filter, pageSize, pages);
    FollowedIsAnswer(w, keys, ranges, req, canonical, pageSize, pages);
    Paging.PagesHoldTheTotal(some, filter, pageSize, pages);
    Paging.FollowedPagesAreFull(some, filter, pageSize, pages);
  }

  lemma OnlySightMatters(
    w: IngestStore.World, keys: seq<Aggregates.Key>, ranges: seq<SqlFilter.Range>,
    req: SqlFilter.Request, canonical: string -> string, cursor: Option<Order.Position>)
    requires CompleteInSight(w, ranges) && IngestStore.IsPartitioned(w.parts)
    ensures var filter := FilterOf(req, ranges, canonical);
            Paging.Where(AsRecords(Flatten(RowsOfParts(w.parts, keys))), filter, cursor)
              == Paging.Where(AsRecords(Flatten(RowsInSight(w.parts, keys, ranges))), filter, cursor)
  {
    var all, some := RowsOfParts(w.parts, keys), RowsInSight(w.parts, keys, ranges);
    forall i | 0 <= i < |keys| && some[i] != all[i]
      ensures some[i] == [] && forall r <- all[i] :: !FilterOf(req, ranges, canonical)(AsRecord(r))
    {
      forall r | r in all[i]
        ensures !FilterOf(req, ranges, canonical)(AsRecord(r))
      {
        OutOfSight(w.parts, keys[i], req, ranges, canonical, r);
      }
    }
    SameSelection(all, some, FilterOf(req, ranges, canonical), cursor);
  }

  /** The keys of the partitions, in any order. */
  method ListKeys(parts: map<Aggregates.Key, Aggregates.Partition>) returns (keys: seq<Aggregates.Key>)
    ensures IsListOfKeys(keys, parts)
  {
    keys := [];
    var todo := parts.Keys;
    while todo != {}
      invariant todo <= parts.Keys
      invariant forall key :: key in keys <==> key in parts && key !in todo
      invariant forall i, j :: 0 <= i < j < |keys| ==> keys[i] != keys[j]
      decreases |todo|
    {
      var key :| key in todo;
      keys, todo := keys + [key], todo - {key};
    }
  }

  /** Of the listed states, those of configured sources. */
  method KeepConfigured(rows: seq<IngestStore.DateState>, configured: set<string>)
    returns (kept: seq<IngestStore.DateState>, states: seq<Visibility.DayState>)
    ensures forall row :: row in kept <==> row in rows && row.key.source in configured
    ensures |states| == |kept| && forall i :: 0 <= i < |kept| ==> states[i] == Listed(kept[i])
  {
    kept, states := [], [];
    for i := 0 to |rows|
      invariant forall row :: row in kept <==> row in rows[..i] && row.key.source in configured
      invariant |states| == |kept| && forall j :: 0 <= j < |kept| ==> states[j] == Listed(kept[j])
    {
      if rows[i].key.source in configured {
        kept, states := kept + [rows[i]], states + [Listed(rows[i])];
      }
    }
  }

  /** Every date from day `since` on that has a state and a configured source is listed. */
  ghost predicate ListsConfigured(
    dates: multiset<IngestStore.DateState>, since: int, configured: set<string>, kept: seq<IngestStore.DateState>)
  {
    forall r <- dates :: r.key.date >= since && r.key.source in configured ==> exists row :: row in kept && row.key == r.key
  }

  ghost predicate NoneDropped(open: set<Aggregates.Key>, ranges: seq<SqlFilter.Range>) {
    forall range <- ranges :: Aggregates.Key(range.source, range.logDate) !in open
  }

  /** Whichever row of the key a read of the state table picks, it says ready. */
  ghost predicate ReadsReady(dates: multiset<IngestStore.DateState>, key: Aggregates.Key) {
    && (exists r <- dates :: r.key == key)
    && (forall r :: StateLog.IsLatest(dates, r) && r.key == key ==> r.status == StateLog.Ready)
  }

  /** A state that says all of a day is ready; the importer never stores a visible timestamp. */
  ghost predicate IsReadyDay(s: Visibility.DayState, key: Aggregates.Key) {
    s.source == key.source && s.day == key.date && s.status == StateLog.Ready
  }

  ghost predicate HasReadyDay(states: seq<Visibility.DayState>, key: Aggregates.Key) {
    exists s <- states :: IsReadyDay(s, key)
  }

  /** A read of the state table may answer this status for the key. */
  ghost predicate MayReadAs(dates: multiset<IngestStore.DateState>, key: Aggregates.Key, status: StateLog.Status) {
    exists r :: StateLog.IsLatest(dates, r) && r.key == key && r.status == status
  }

  /** The ready dates of configured sources from day `since` on are among the states, and every state comes from a latest row. */
  ghost predicate TellsDates(
    states: seq<Visibility.DayState>, dates: multiset<IngestStore.DateState>, since: int, configured: set<string>)
  {
    && (forall key {:trigger ReadsReady(dates, key)} {:trigger HasReadyDay(states, key)} ::
          ReadsReady(dates, key) && key.source in configured && key.date >= since ==> HasReadyDay(states, key))
    && (forall s <- states ::
          && s.source in configured && s.maxVisible == None
          && MayReadAs(dates, Aggregates.Key(s.source, s.day), s.status))
  }

  lemma KeptTellDates(
    dates: multiset<IngestStore.DateState>, since: int, configured: set<string>,
    kept: seq<IngestStore.DateState>, states: seq<Visibility.DayState>)
    requires ListsConfigured(dates, since, configured, kept)
    requires forall row <- kept :: StateLog.IsLatest(dates, row) && row.key.source in configured
    requires |states| == |kept| && forall i :: 0 <= i < |kept| ==> states[i] == Listed(kept[i])
    ensures TellsDates(states, dates, since, configured)
  {
    forall key | ReadsReady(dates, key) && key.source in configured && key.date >= since
      ensures HasReadyDay(states, key)
    {
      var r :| r in dates && r.key == key;
      KeptHasDay(dates, kept, states, key);
    }
    forall s | s in states
      ensures s.source in configured && s.maxVisible == None
      ensures MayReadAs(dates, Aggregates.Key(s.source, s.day), s.status)
    {
      var i :| 0 <= i < |states| && states[i] == s;
      assert kept[i] in kept && kept[i].key == Aggregates.Key(s.source, s.day);
    }
  }

  lemma KeptHasDay(
    dates: multiset<IngestStore.DateState>, kept: seq<IngestStore.DateState>, states: seq<Visibility.DayState>, key: Aggregates.Key)
    requires ReadsReady(dates, key) && exists row :: row in kept && row.key == key
    requires forall row <- kept :: StateLog.IsLatest(dates, row)
    requires |states| == |kept| && forall i :: 0 <= i < |kept| ==> states[i] == Listed(kept[i])
    ensures HasReadyDay(states, key)
  {
    var row :| row in kept && row.key == key;
    var i :| 0 <= i < |kept| && kept[i] == row;
    assert states[i] in states && IsReadyDay(states[i], key);
  }

  /**
    After any imports, whether they succeeded or not, what the query service reads from the store
    meets all that `AnswersAreExpected` needs, unless the query asks for a date that a failed import
    has begun to drop without being able to record that.
   */
  method ImportThenList(
    store: IngestStore.Store, requests: seq<Importer.Request>, configured: set<string>,
    c: Visibility.Calendar, start: int, end: int)
    returns (outcomes: seq<Importer.Outcome>, listed: bool, ghost kept: seq<IngestStore.DateState>,
             states: seq<Visibility.DayState>, keys: seq<Aggregates.Key>)
    requires store.Valid() && forall w <- store.trace :: w.loaded == map[]
    requires forall q <- requests :: Importer.DistinctPaths(q.dir)
    requires "" !in configured
    modifies store
    ensures store.Valid() && Importer.LoadedByRequests(store.Current(), requests)
    ensures |outcomes| == |requests| && Importer.SettledAreKept(store.Current(), requests, outcomes)
    ensures listed ==> Importer.AllJustified(
      requests, outcomes, old(store.faults) == store.faults && old(store.upsets) == store.upsets)
    ensures IsListOfKeys(keys, store.parts)
    ensures listed ==> TellsDates(states, store.dates, c.dayOf(start), configured)
    ensures listed && NoneDropped(store.open, RangesOf(c, start, end, states)) ==>
              IsListing(store.Current(), kept, states, RangesOf(c, start, end, states))
  {
    outcomes := Importer.ImportMany(store, requests);
    assert Importer.LoadedByRequests(store.trace[|store.trace| - 1], requests);
    ghost var imported := store.Current();
    kept, states := [], [];
    var rows;
    listed, rows := store.ListDateStates(c.dayOf(start));
    MergesKeepSettled(imported, store.dates, requests, outcomes);
    if listed {
      kept, states := KeepConfigured(rows, configured);
      forall r | r in store.dates && r.key.date >= c.dayOf(start) && r.key.source in configured
        ensures exists row :: row in kept && row.key == r.key
      {
        assert r.key in IngestStore.KeysFrom(store.dates, c.dayOf(start));
        var row :| row in rows && row.key == r.key;
        assert row in kept;
      }
      KeptTellDates(store.dates, c.dayOf(start), configured, kept, states);
    }
    keys := ListKeys(store.parts);
  }

  lemma MergesKeepSettled(
    w: IngestStore.World, dates: multiset<IngestStore.DateState>, requests: seq<Importer.Request>, outcomes: seq<Importer.Outcome>)
    requires |requests| == |outcomes| && Importer.SettledAreKept(w, requests, outcomes)
    requires StateLog.MergedFrom(w.dates, dates)
    ensures Importer.SettledAreKept(w.(dates := dates), requests, outcomes)
  {
    forall j | 0 <= j < |requests| && Importer.Settled(requests, outcomes, j)
      ensures Importer.Kept(w.(dates := dates), requests[j], outcomes[j])
    {
      var q := requests[j];
      assert Importer.Kept(w, q, outcomes[j]);
      if outcomes[j].Imported? {
        var now :| q.clock <= now && outcomes[j].rows == |Importer.RowsAt(q, now)| && Importer.Holds(w, Importer.KeyOf(q), Importer.RowsAt(q, now));
        MergesKeepHolding(w, dates, Importer.KeyOf(q), Importer.RowsAt(q, now));
      }
    }
  }

  lemma MergesKeepHolding(w: IngestStore.World, dates: multiset<IngestStore.DateState>, key: Aggregates.Key, rows: seq<Aggregates.Row>)
    requires Importer.Holds(w, key, rows) && StateLog.MergedFrom(w.dates, dates)
    ensures Importer.Holds(w.(dates := dates), key, rows)
  {
    var status := if rows == [] then StateLog.NoData else StateLog.Ready;
    var row :| IngestStore.SoleLatest(w.dates, row) && row.key == key && row.status == status;
    StateLog.MergesNeverTake(w.dates, row, dates);
    assert IngestStore.SoleLatest(dates, row);
  }

  /** The record of a row, column by column. */
  ghost predicate IsRecordOf(r: Paging.Record<SqlFilter.Row>, row: Aggregates.Row) {
    var p, q := row.payload, r.columns;
    && r.position == Order.Position(p.timestamp, row.key.source, row.file, row.offset)
    && q.position == r.position && q.logDate == row.key.date && q.logTag == row.logTag
    && q.srcIP == p.srcIP && q.dstIP == p.dstIP && q.natIP == p.natIP
    && q.srcPort == p.srcPort && q.dstPort == p.dstPort && q.natPort == p.natPort
    && q.protocol == p.protocol && q.action == p.action
  }

  lemma RecordIs(r: Paging.Record<SqlFilter.Row>, row: Aggregates.Row)
    ensures IsRecordOf(r, row) <==> r == AsRecord(row)
  {
  }

  /** What a request asks of a row, filter by filter. */
  ghost predicate IsAsked(req: SqlFilter.Request, canonical: string -> string, row: Aggregates.Row) {
    var p := row.payload;
    && (req.source != "" ==> row.key.source == req.source)
    && (req.ip.IP? ==> p.srcIP == req.ip.address || p.dstIP == req.ip.address || p.natIP == req.ip.address)
    && (req.srcIP.IP? ==> p.srcIP == req.srcIP.address)
    && (req.dstIP.IP? ==> p.dstIP == req.dstIP.address)
    && (req.natIP.IP? ==> p.natIP == req.natIP.address)
    && (req.port != 0 ==> p.srcPort == req.port || p.dstPort == req.port || p.natPort == req.port)
    && (req.srcPort != 0 ==> p.srcPort == req.srcPort)
    && (req.dstPort != 0 ==> p.dstPort == req.dstPort)
    && (req.natPort != 0 ==> p.natPort == req.natPort)
    && (req.protocol != "" ==> SqlFilter.IsProtocol(canonical(req.protocol), p.protocol))
    && (req.action != "" ==> p.action == req.action)
    && (req.logTag != "" ==> row.logTag == req.logTag)
  }

  lemma AskedIffMatches(req: SqlFilter.Request, canonical: string -> string, row: Aggregates.Row)
    requires SqlFilter.IsCanonical(canonical)
    ensures IsAsked(req, canonical, row) <==> SqlFilter.Matches(req, canonical, AsSqlRow(row))
  {
    SqlFilter.ProtocolForms(req.protocol, canonical, row.payload.protocol);
  }

  /** A row of the queried period, filed under the day of its timestamp. */
  ghost predicate InPeriod(c: Visibility.Calendar, start: int, end: int, row: Aggregates.Row) {
    start <= row.payload.timestamp <= end && c.dayOf(row.payload.timestamp) == row.key.date
  }

  /** A row is in a queried range if its day reads as ready. */
  lemma ReadyIsQueried(
    c: Visibility.Calendar, start: int, end: int, states: seq<Visibility.DayState>, row: Aggregates.Row)
    requires Visibility.IsCalendar(c) && InPeriod(c, start, end, row) && row.payload.timestamp % StateLog.SECOND == 0
    requires HasReadyDay(states, row.key)
    ensures SqlFilter.InSome(RangesOf(c, start, end, states), AsSqlRow(row))
  {
    var t := row.payload.timestamp;
    Visibility.QueriedIffShown(c, start, end, states, row.key.source, t);
    var s :| s in states && IsReadyDay(s, row.key);
    assert Visibility.Shows(s, t);
    assert RangesOf(c, start, end, states) == Visibility.DaysBefore(c, start, end, states, c.dayOf(end) + 1).ranges;
    var range :| range in RangesOf(c, start, end, states) && range.source == row.key.source && range.start <= t <= range.end;
    Visibility.RangesLieInDays(c, start, end, states, c.dayOf(end) + 1);
    Visibility.InRangeIsOnDay(c, start, end, range, t);
    assert SqlFilter.InRange(range, AsSqlRow(row));
  }

  /** A row that is in a queried range is of the period, and its day reads as ready. */
  lemma QueriedIsReady(
    c: Visibility.Calendar, start: int, end: int, states: seq<Visibility.DayState>, row: Aggregates.Row)
    requires Visibility.IsCalendar(c) && forall s <- states :: s.source != "" && s.maxVisible == None
    requires SqlFilter.InSome(RangesOf(c, start, end, states), AsSqlRow(row))
    ensures InPeriod(c, start, end, row) && HasReadyDay(states, row.key)
  {
    var range :| range in RangesOf(c, start, end, states) && SqlFilter.InRange(range, AsSqlRow(row));
    Visibility.RangesLieInDays(c, start, end, states, c.dayOf(end) + 1);
    Visibility.InRangeIsOnDay(c, start, end, range, row.payload.timestamp);
    Visibility.RangesAreBacked(c, start, end, states, c.dayOf(end) + 1);
    var s :| s in states && Visibility.BacksRange(s, range);
    assert IsReadyDay(s, row.key);
  }

  ghost predicate DistinctPositions(rows: seq<Aggregates.Row>) {
    forall i, j :: 0 <= i < j < |rows| ==> Aggregates.PositionOf(rows[i]) != Aggregates.PositionOf(rows[j])
  }

  lemma NotThere(rows: seq<Aggregates.Row>, row: Aggregates.Row)
    requires row !in rows
    ensures AsRecord(row) !in AsRecords(rows)
  {
    forall i | 0 <= i < |rows|
      ensures AsRecords(rows)[i] != AsRecord(row)
    {
      SameRecord(rows[i], row);
    }
  }

  /** A row that one partition has, and has once, is in the table once. */
  lemma {:induction false} OnceInTable(parts: seq<seq<Aggregates.Row>>, k: nat, row: Aggregates.Row)
    requires k < |parts| && row in parts[k] && DistinctPositions(parts[k])
    requires forall i :: 0 <= i < |parts| && i != k ==> row !in parts[i]
    ensures multiset(AsRecords(Flatten(parts)))[AsRecord(row)] == 1
  {
    var n := |parts| - 1;
    AsRecordsOfBoth(Flatten(parts[..n]), parts[n]);
    if k == n {
      FlattenHas(parts[..n], row);
      NotThere(Flatten(parts[..n]), row);
      assert Paging.UniquePositions(AsRecords(parts[n]));
      CountedOnce(parts[n], row);
    } else {
      NotThere(parts[n], row);
      OnceInTable(parts[..n], k, row);
    }
  }

  /**
    Of the selected rows no other one has the position of a row whose partition has distinct positions:
    those of other partitions differ in their source, or lie on another day.
   */
  lemma SelectedIsAlone(
    parts: map<Aggregates.Key, Aggregates.Partition>, keys: seq<Aggregates.Key>, c: Visibility.Calendar, start: int, end: int,
    states: seq<Visibility.DayState>, req: SqlFilter.Request, canonical: string -> string, row: Aggregates.Row)
    requires IngestStore.IsPartitioned(parts) && IsListOfKeys(keys, parts) && Visibility.IsCalendar(c)
    requires forall s <- states :: s.source != "" && s.maxVisible == None
    requires row in IngestStore.PartitionAt(parts, row.key).rows && DistinctPositions(IngestStore.PartitionAt(parts, row.key).rows)
    requires FilterOf(req, RangesOf(c, start, end, states), canonical)(AsRecord(row))
    ensures Paging.IsAlone(
              AsRecords(Flatten(RowsOfParts(parts, keys))), FilterOf(req, RangesOf(c, start, end, states), canonical), AsRecord(row))
  {
    var rows, filter := RowsOfParts(parts, keys), FilterOf(req, RangesOf(c, start, end, states), canonical);
    var table := AsRecords(Flatten(rows));
    var k :| 0 <= k < |keys| && keys[k] == row.key;
    OnceInTable(rows, k, row);
    QueriedIsReady(c, start, end, states, row);
    forall x | x in table && filter(x) && x.position == AsRecord(row).position
      ensures x == AsRecord(row)
    {
      var i :| 0 <= i < |table| && table[i] == x;
      var other := Flatten(rows)[i];
      TableRow(parts, keys, other);
      QueriedIsReady(c, start, end, states, other);
      SamePlace(IngestStore.PartitionAt(parts, row.key).rows, row, other);
    }
  }

  lemma SamePlace(rows: seq<Aggregates.Row>, a: Aggregates.Row, b: Aggregates.Row)
    requires DistinctPositions(rows) && a in rows && b in rows && Aggregates.PositionOf(a) == Aggregates.PositionOf(b)
    ensures a == b
  {
  }

  /** A row of the table is a row of the partition of its key. */
  lemma TableRow(parts: map<Aggregates.Key, Aggregates.Partition>, keys: seq<Aggregates.Key>, row: Aggregates.Row)
    requires IngestStore.IsPartitioned(parts) && row in Flatten(RowsOfParts(parts, keys))
    ensures row in IngestStore.PartitionAt(parts, row.key).rows
  {
    FlattenHas(RowsOfParts(parts, keys), row);
  }

  /** Rows of the period on whole seconds, as the column stores them, that the request asks for. */
  ghost predicate IsWanted(
    c: Visibility.Calendar, start: int, end: int, req: SqlFilter.Request, canonical: string -> string, row: Aggregates.Row)
  {
    InPeriod(c, start, end, row) && row.payload.timestamp % StateLog.SECOND == 0 && IsAsked(req, canonical, row)
  }

  /** Every wanted one of these rows is in the answer, as its record, exactly once. */
  ghost predicate AreReturned(
    rows: seq<Aggregates.Row>, c: Visibility.Calendar, start: int, end: int, req: SqlFilter.Request, canonical: string -> string,
    built: SqlFilter.Built, records: seq<Paging.Record<SqlFilter.Row>>)
  {
    forall row, r :: row in rows && IsWanted(c, start, end, req, canonical, row) && IsRecordOf(r, row) ==>
      built.Query? && multiset(records)[r] == 1
  }

  /** What comes back is wanted, of a configured source, and of a date that reads as ready. */
  ghost predicate IsShown(
    w: IngestStore.World, c: Visibility.Calendar, start: int, end: int, configured: set<string>,
    req: SqlFilter.Request, canonical: string -> string, row: Aggregates.Row)
  {
    && InPeriod(c, start, end, row) && IsAsked(req, canonical, row) && row.key.source in configured
    && row in IngestStore.PartitionAt(w.parts, row.key).rows
    && MayReadAs(w.dates, row.key, StateLog.Ready)
    && (row.key !in w.open ==> row.key in w.loaded && row in w.loaded[row.key])
  }

  ghost predicate AreShown(
    w: IngestStore.World, c: Visibility.Calendar, start: int, end: int, configured: set<string>,
    req: SqlFilter.Request, canonical: string -> string, records: seq<Paging.Record<SqlFilter.Row>>)
  {
    forall r <- records :: exists row :: IsRecordOf(r, row) && IsShown(w, c, start, end, configured, req, canonical, row)
  }

  /** What the two halves of the end-to-end theorem start from. */
  ghost predicate IsAnswered(
    w: IngestStore.World, keys: seq<Aggregates.Key>, states: seq<Visibility.DayState>, configured: set<string>,
    c: Visibility.Calendar, start: int, end: int, req: SqlFilter.Request, canonical: string -> string, pageSize: int,
    built: SqlFilter.Built, total: nat, pages: seq<Paging.Page<SqlFilter.Row>>)
  {
    && IngestStore.Safe(w) && IsListOfKeys(keys, w.parts) && Visibility.IsCalendar(c) && SqlFilter.IsCanonical(canonical)
    && "" !in configured && TellsDates(states, w.dates, c.dayOf(start), configured)
    && (built.Query? <==> !SqlFilter.AnyBadIP(req) && RangesOf(c, start, end, states) != [])
    && (built.Query? ==> IsFollowed(w.parts, keys, RangesOf(c, start, end, states), req, canonical, pageSize, total, pages))
  }

  lemma ReadyIsReturned(
    w: IngestStore.World, keys: seq<Aggregates.Key>, states: seq<Visibility.DayState>, configured: set<string>,
    c: Visibility.Calendar, start: int, end: int, req: SqlFilter.Request, canonical: string -> string, pageSize: int,
    built: SqlFilter.Built, total: nat, pages: seq<Paging.Page<SqlFilter.Row>>, key: Aggregates.Key)
    requires IsAnswered(w, keys, states, configured, c, start, end, req, canonical, pageSize, built, total, pages)
    requires !SqlFilter.AnyBadIP(req) && key.source in configured && ReadsReady(w.dates, key)
    requires DistinctPositions(IngestStore.PartitionAt(w.parts, key).rows)
    ensures AreReturned(IngestStore.PartitionAt(w.parts, key).rows, c, start, end, req, canonical, built, Paging.Concat(pages))
  {
    var ranges := RangesOf(c, start, end, states);
    var table, filter := AsRecords(Flatten(RowsOfParts(w.parts, keys))), FilterOf(req, ranges, canonical);
    forall row, r |
      && row in IngestStore.PartitionAt(w.parts, key).rows
      && IsWanted(c, start, end, req, canonical, row) && IsRecordOf(r, row)
      ensures built.Query? && multiset(Paging.Concat(pages))[r] == 1
    {
      assert row.key == key;
      RecordIs(r, row);
      DayIsNotBefore(c, start, row.payload.timestamp);
      ReadyIsQueried(c, start, end, states, row);
      AskedIffMatches(req, canonical, row);
      assert filter(AsRecord(row));
      SelectedIsAlone(w.parts, keys, c, start, end, states, req, canonical, row);
      Paging.AloneIsReturned(table, filter, pageSize, pages);
    }
  }

  lemma DayIsNotBefore(c: Visibility.Calendar, start: int, t: int)
    requires Visibility.IsCalendar(c) && start <= t
    ensures c.dayOf(start) <= c.dayOf(t)
  {
    Visibility.DayIsReached(c, t, c.dayOf(start));
  }

  lemma ReturnedIsShown(
    w: IngestStore.World, keys: seq<Aggregates.Key>, states: seq<Visibility.DayState>, configured: set<string>,
    c: Visibility.Calendar, start: int, end: int, req: SqlFilter.Request, canonical: string -> string, pageSize: int,
    built: SqlFilter.Built, total: nat, pages: seq<Paging.Page<SqlFilter.Row>>)
    requires IsAnswered(w, keys, states, configured, c, start, end, req, canonical, pageSize, built, total, pages) && built.Query?
    ensures AreShown(w, c, start, end, configured, req, canonical, Paging.Concat(pages))
  {
    var ranges := RangesOf(c, start, end, states);
    var table, filter := AsRecords(Flatten(RowsOfParts(w.parts, keys))), FilterOf(req, ranges, canonical);
    Paging.AloneIsReturned(table, filter, pageSize, pages);
    forall r | r in Paging.Concat(pages)
      ensures exists row :: IsRecordOf(r, row) && IsShown(w, c, start, end, configured, req, canonical, row)
    {
      var i :| 0 <= i < |table| && table[i] == r;
      var row := Flatten(RowsOfParts(w.parts, keys))[i];
      RecordIs(r, row);
      TableRow(w.parts, keys, row);
      SelectedIsShown(w, states, configured, c, start, end, req, canonical, row);
    }
  }

  lemma SelectedIsShown(
    w: IngestStore.World, states: seq<Visibility.DayState>, configured: set<string>,
    c: Visibility.Calendar, start: int, end: int, req: SqlFilter.Request, canonical: string -> string, row: Aggregates.Row)
    requires IngestStore.Safe(w) && Visibility.IsCalendar(c) && SqlFilter.IsCanonical(canonical)
    requires "" !in configured && TellsDates(states, w.dates, c.dayOf(start), configured)
    requires row in IngestStore.PartitionAt(w.parts, row.key).rows
    requires SqlFilter.Selects(req, RangesOf(c, start, end, states), canonical, AsSqlRow(row))
    ensures IsShown(w, c, start, end, configured, req, canonical, row)
  {
    QueriedIsReady(c, start, end, states, row);
    AskedIffMatches(req, canonical, row);
    var s :| s in states && IsReadyDay(s, row.key);
    assert MayReadAs(w.dates, Aggregates.Key(s.source, s.day), s.status);
    var latest :| StateLog.IsLatest(w.dates, latest) && latest.key == row.key && latest.status == StateLog.Ready;
    if row.key !in w.open {
      IngestStore.ReadyMeansComplete(w, latest);
    }
  }

  /** The rows of one request's files have distinct positions. */
  lemma RequestRowsAreDistinct(q: Importer.Request, now: int)
    requires Importer.DistinctNames(q.dir)
    ensures DistinctPositions(Importer.RowsAt(q, now))
  {
    Importer.TargetsAreDistinct(q.dir, now, q.date);
    Importer.PositionsAreUnique(
      q.parser, q.contents, Importer.KeyOf(q), q.source.logTag, Importer.TargetFiles(q.dir, now, q.date));
  }

  /** For every date that reads as ready and is not being dropped, the wanted rows that were loaded for it come back. */
  ghost predicate LoadedAreReturned(
    w: IngestStore.World, configured: set<string>, c: Visibility.Calendar, start: int, end: int,
    req: SqlFilter.Request, canonical: string -> string, built: SqlFilter.Built, records: seq<Paging.Record<SqlFilter.Row>>)
  {
    forall key: Aggregates.Key :: key.source in configured && key !in w.open && ReadsReady(w.dates, key) ==>
      key in w.loaded && AreReturned(w.loaded[key], c, start, end, req, canonical, built, records)
  }

  lemma LoadedComeBack(
    w: IngestStore.World, requests: seq<Importer.Request>, keys: seq<Aggregates.Key>, states: seq<Visibility.DayState>,
    configured: set<string>, c: Visibility.Calendar, start: int, end: int, req: SqlFilter.Request, canonical: string -> string,
    pageSize: int, built: SqlFilter.Built, total: nat, pages: seq<Paging.Page<SqlFilter.Row>>)
    requires IsAnswered(w, keys, states, configured, c, start, end, req, canonical, pageSize, built, total, pages)
    requires Importer.LoadedByRequests(w, requests) && forall q <- requests :: Importer.DistinctNames(q.dir)
    requires !SqlFilter.AnyBadIP(req)
    ensures LoadedAreReturned(w, configured, c, start, end, req, canonical, built, Paging.Concat(pages))
  {
    forall key: Aggregates.Key | key.source in configured && key !in w.open && ReadsReady(w.dates, key)
      ensures key in w.loaded && AreReturned(w.loaded[key], c, start, end, req, canonical, built, Paging.Concat(pages))
    {
      StateLog.LatestExists(w.dates, key);
      var row :| row in w.dates && row.key == key && StateLog.IsLatest(w.dates, row);
      IngestStore.ReadyMeansComplete(w, row);
      assert Importer.IsFound(requests, key, w.loaded[key]);
      var q, now :| q in requests && Importer.KeyOf(q) == key && q.clock <= now && w.loaded[key] == Importer.RowsAt(q, now);
      RequestRowsAreDistinct(q, now);
      ReadyIsReturned(w, keys, states, configured, c, start, end, req, canonical, pageSize, built, total, pages, key);
    }
  }

  /** Of every import that succeeded and was the last of its date, the wanted rows of the files come back. */
  ghost predicate ImportedAreReturned(
    requests: seq<Importer.Request>, outcomes: seq<Importer.Outcome>, configured: set<string>,
    c: Visibility.Calendar, start: int, end: int, req: SqlFilter.Request, canonical: string -> string,
    built: SqlFilter.Built, records: seq<Paging.Record<SqlFilter.Row>>)
    requires |outcomes| == |requests|
  {
    forall j :: 0 <= j < |requests| && Importer.Settled(requests, outcomes, j) && outcomes[j].Imported? && requests[j].source.id in configured ==>
      exists now ::
        && requests[j].clock <= now && outcomes[j].rows == |Importer.RowsAt(requests[j], now)|
        && AreReturned(Importer.RowsAt(requests[j], now), c, start, end, req, canonical, built, records)
  }

  lemma ImportedComeBack(
    w: IngestStore.World, requests: seq<Importer.Request>, outcomes: seq<Importer.Outcome>, keys: seq<Aggregates.Key>,
    states: seq<Visibility.DayState>, configured: set<string>, c: Visibility.Calendar, start: int, end: int,
    req: SqlFilter.Request, canonical: string -> string, pageSize: int,
    built: SqlFilter.Built, total: nat, pages: seq<Paging.Page<SqlFilter.Row>>)
    requires IsAnswered(w, keys, states, configured, c, start, end, req, canonical, pageSize, built, total, pages)
    requires |outcomes| == |requests| && Importer.SettledAreKept(w, requests, outcomes)
    requires forall q <- requests :: Importer.DistinctNames(q.dir)
    requires !SqlFilter.AnyBadIP(req)
    ensures ImportedAreReturned(requests, outcomes, configured, c, start, end, req, canonical, built, Paging.Concat(pages))
  {
    forall j | 0 <= j < |requests| && Importer.Settled(requests, outcomes, j) && outcomes[j].Imported? && requests[j].source.id in configured
      ensures exists now ::
        && requests[j].clock <= now && outcomes[j].rows == |Importer.RowsAt(requests[j], now)|
        && AreReturned(Importer.RowsAt(requests[j], now), c, start, end, req, canonical, built, Paging.Concat(pages))
    {
      var q := requests[j];
      assert q in requests && Importer.Kept(w, q, outcomes[j]);
      var now :| q.clock <= now && outcomes[j].rows == |Importer.RowsAt(q, now)| && Importer.Holds(w, Importer.KeyOf(q), Importer.RowsAt(q, now));
      HeldComeBack(w, keys, states, configured, c, start, end, req, canonical, pageSize, built, total, pages, q, now);
    }
  }

  lemma HeldComeBack(
    w: IngestStore.World, keys: seq<Aggregates.Key>, states: seq<Visibility.DayState>, configured: set<string>,
    c: Visibility.Calendar, start: int, end: int, req: SqlFilter.Request, canonical: string -> string, pageSize: int,
    built: SqlFilter.Built, total: nat, pages: seq<Paging.Page<SqlFilter.Row>>, q: Importer.Request, now: int)
    requires IsAnswered(w, keys, states, configured, c, start, end, req, canonical, pageSize, built, total, pages)
    requires Importer.Holds(w, Importer.KeyOf(q), Importer.RowsAt(q, now)) && Importer.DistinctNames(q.dir)
    requires q.source.id in configured && !SqlFilter.AnyBadIP(req)
    ensures AreReturned(Importer.RowsAt(q, now), c, start, end, req, canonical, built, Paging.Concat(pages))
  {
    var rows := Importer.RowsAt(q, now);
    if rows != [] {
      RequestRowsAreDistinct(q, now);
      var row :| IngestStore.SoleLatest(w.dates, row) && row.key == Importer.KeyOf(q) && row.status == StateLog.Ready;
      forall r | StateLog.IsLatest(w.dates, r) && r.key == row.key
        ensures r == row
      {
        assert StateLog.AtMost(row, r);
      }
      ReadyIsReturned(w, keys, states, configured, c, start, end, req, canonical, pageSize, built, total, pages, Importer.KeyOf(q));
    }
  }

  /**
    Any imports, and then a query. Whatever else happened, every wanted row of a date that reads as
    ready, and every wanted row of the files of an import that succeeded, is returned exactly once, and
    only rows of dates that read as ready are. If besides no queried date is just being dropped, the
    answer is in order and its total and its page sizes are right.
   */
  method ImportThenAnswer(
    store: IngestStore.Store, requests: seq<Importer.Request>, ghost dateOf: string -> int, configured: set<string>,
    c: Visibility.Calendar, start: int, end: int, req: SqlFilter.Request, canonical: string -> string, pageSize: int)
    returns (outcomes: seq<Importer.Outcome>, listed: bool, states: seq<Visibility.DayState>,
             built: SqlFilter.Built, total: nat, pages: seq<Paging.Page<SqlFilter.Row>>)
    requires store.Valid() && forall w <- store.trace :: w.loaded == map[]
    requires forall q <- requests :: Importer.DistinctPaths(q.dir) && Importer.DistinctNames(q.dir)
    requires "" !in configured && Visibility.IsCalendar(c) && SqlFilter.IsCanonical(canonical)
    modifies store
    ensures |outcomes| == |requests|
    ensures listed ==> Importer.AllJustified(
      requests, outcomes, old(store.faults) == store.faults && old(store.upsets) == store.upsets)
    ensures listed && !SqlFilter.AnyBadIP(req) ==>
      LoadedAreReturned(store.Current(), configured, c, start, end, req, canonical, built, Paging.Concat(pages))
    ensures listed && !SqlFilter.AnyBadIP(req) ==>
      ImportedAreReturned(requests, outcomes, configured, c, start, end, req, canonical, built, Paging.Concat(pages))
    ensures listed && built.Query? ==>
      AreShown(store.Current(), c, start, end, configured, req, canonical, Paging.Concat(pages))
    ensures listed && built.Query? && NamesTellDates(requests, dateOf) && NoneDropped(store.open, RangesOf(c, start, end, states)) ==>
      && IsAnswer(store.Current(), RangesOf(c, start, end, states), req, canonical, Paging.Concat(pages))
      && total == |Paging.Concat(pages)| && Paging.AreFullPages(pages, Paging.NormalizePageSize(pageSize))
  {
    ghost var kept;
    var keys;
    outcomes, listed, kept, states, keys := ImportThenList(store, requests, configured, c, start, end);
    built, total, pages := SqlFilter.NoVisibleRange, 0, [];
    if listed {
      built, total, pages := AnswerQuery(store.parts, keys, states, c, start, end, req, canonical, pageSize);
      ghost var w := store.Current();
      if !SqlFilter.AnyBadIP(req) {
        LoadedComeBack(w, requests, keys, states, configured, c, start, end, req, canonical, pageSize, built, total, pages);
        ImportedComeBack(w, requests, outcomes, keys, states, configured, c, start, end, req, canonical, pageSize, built, total, pages);
      }
      if built.Query? {
        ReturnedIsShown(w, keys, states, configured, c, start, end, req, canonical, pageSize, built, total, pages);
        if NamesTellDates(requests, dateOf) && NoneDropped(store.open, RangesOf(c, start, end, states)) {
          AnswersAreExpected(w, requests, dateOf, keys, kept, states, c, start, end, req, canonical, pageSize, total, pages);
        }
      }
    }
  }

  /** Whatever settings were accepted, the receiver can build its route table at every endpoint. */
  lemma AcceptedSettingsBuild(
    stored: seq<Sources.LogSource>, legacy: Sources.LogSource, rules: SourceIdentity.Rules, endpoint: LogSourceSettings.Endpoint)
    requires SourceIdentity.IsKept(stored, rules)
    ensures var received := Receiver.Received(SourceIdentity.CurrentLogSources(Some(stored), legacy, rules));
            Routing.Buildable(Receiver.At(received, endpoint), rules.parser)
  {
    SourceIdentity.FormsAreStable(stored, rules);
    SourceIdentity.ReadsBackEnabled(stored, rules);
    SourceIdentity.EnabledAreAcceptable(stored, rules.parser);
    var enabled := SourceIdentity.EnabledOf(stored);
    forall s | s in enabled
      ensures LogSourceSettings.IsNormalized(s)
    {
      assert SourceIdentity.HasForm(s);
    }
    Receiver.AcceptedSourcesBuild(enabled, endpoint, rules.parser);
  }

  function RowsOf<A>(records: seq<Paging.Record<A>>): seq<CursorText.Row>
    requires forall r <- records :: CursorText.IsOrdinary(r.position.timestamp)
  {
    seq(|records|, i requires 0 <= i < |records| =>
      assert records[i] in records && CursorText.IsOrdinary(records[i].position.timestamp);
      CursorText.RowAt(records[i].position))
  }

  /** The text of the cursor that comes with a page reads back as the cursor that the paging theorems follow. */
  lemma PageCursorReadsBack<A>(page: Paging.Page<A>, codec: CursorText.Codec, other: string -> Option<int>)
    requires CursorText.IsFaithful(codec) && forall r <- page.records :: CursorText.IsOrdinary(r.position.timestamp)
    requires Paging.NextCursor(page).Some?
    ensures var text := CursorText.NextCursorFromRecords(RowsOf(page.records), codec, other);
            && text.Some?
            && CursorText.Decode(text.value, codec, other) == CursorText.Cursor(Paging.NextCursor(page).value)
  {
    var last := page.records[|page.records| - 1];
    assert last in page.records;
    CursorText.NextCursorReadsBack(RowsOf(page.records), last.position, codec, other);
  }
}
