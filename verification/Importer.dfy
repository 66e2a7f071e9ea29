/**
  `ImportDate`: rebuilds the partition of one source and date from its archived log files, keeping
  the state tables up to date around every step. Clock readings are arbitrary.
 */
module Importer {
  import opened StateLog
  import opened Aggregates
  import opened IngestStore
  import opened Sequences
  import opened Wrappers

  const DEFAULT_BATCH_SIZE := 20000
  const MINUTE: Time := 60 * SECOND

  datatype Source = Source(id: string, logTag: string)

  /** A directory entry; `logDate` is the date its name carries, if the name is that of an archive. */
  datatype Entry = Entry(path: string, name: string, isDir: bool, isLink: bool, size: nat, modTime: Time, logDate: Option<int>)

  /** What a line means to the importer, and which lines count as empty; metadata is added by the importer. */
  datatype Parser = Parser(payload: (string, int) -> Option<Payload>, blank: string -> bool)

  datatype Cause = StateStore | Scan | NoFiles | Drop | FileRead | Unrecognised

  /** `marked` tells that a failed state was recorded for the date. */
  datatype Outcome = Imported(rows: nat) | Failure(cause: Cause, marked: bool)

  datatype FileResult = FileResult(rows: nat, nonEmpty: nat)

  /** The counters that progress rows show. */
  datatype Totals = Totals(files: nat, bytes: nat, filesDone: nat, bytesDone: nat, rows: nat)

  /**
    What the proof remembers of a run: its files, how many of them it had done when it ended, the
    date's terminal row and those of the files.
   */
  datatype Run = Run(targets: seq<Entry>, done: nat, terminal: Option<DateState>, files: map<string, FileState>)

  predicate IsTarget(entry: Entry, now: Time, date: int) {
    && !entry.isDir && entry.logDate == Some(date)
    && !entry.isLink && entry.size != 0
    && now - entry.modTime >= 5 * MINUTE
  }

  /** A regular, non-empty archive of the date, at least five minutes old. */
  ghost predicate IsArchive(f: Entry, now: Time, date: int) {
    !f.isDir && !f.isLink && f.size > 0 && f.logDate == Some(date) && f.modTime + 300_000_000_000 <= now
  }

  ghost predicate HasArchive(dir: seq<Entry>, now: Time, date: int) {
    exists f <- dir :: IsArchive(f, now, date)
  }

  /** The directory listing comes sorted by name, so the files of one date keep its order. */
  function TargetFiles(dir: seq<Entry>, now: Time, date: int): seq<Entry> {
    if dir == [] then []
    else (if IsTarget(dir[0], now, date) then [dir[0]] else []) + TargetFiles(dir[1..], now, date)
  }

  /** The offset of the line that follows `lines`; every line ends in one byte more than its text. */
  function OffsetAfter(lines: seq<string>): nat {
    if lines == [] then 0 else OffsetAfter(lines[..|lines| - 1]) + |lines[|lines| - 1]| + 1
  }

  function RowsOfLine(parser: Parser, key: Key, logTag: string, file: string, line: string, offset: nat): seq<Row> {
    match parser.payload(line, key.date)
    case None => []
    case Some(payload) => [Row(key, logTag, file, offset, payload)]
  }

  /** The rows of a file, in order. */
  function RowsOfLines(parser: Parser, key: Key, logTag: string, file: string, lines: seq<string>): seq<Row> {
    if lines == [] then []
    else
      var front := lines[..|lines| - 1];
      RowsOfLines(parser, key, logTag, file, front)
      + RowsOfLine(parser, key, logTag, file, lines[|lines| - 1], OffsetAfter(front))
  }

  function NonEmptyLines(parser: Parser, lines: seq<string>): nat {
    if lines == [] then 0
    else NonEmptyLines(parser, lines[..|lines| - 1]) + if parser.blank(lines[|lines| - 1]) then 0 else 1
  }

  function RowsOfFiles(parser: Parser, contents: string -> seq<string>, key: Key, logTag: string, files: seq<Entry>): seq<Row> {
    if files == [] then []
    else
      var last := files[|files| - 1];
      RowsOfFiles(parser, contents, key, logTag, files[..|files| - 1])
      + RowsOfLines(parser, key, logTag, last.name, contents(last.path))
  }

  ghost predicate OffsetsBelow(rows: seq<Row>, key: Key, file: string, limit: nat) {
    && (forall i :: 0 <= i < |rows| ==> rows[i].offset < limit && rows[i].file == file && rows[i].key == key)
    && (forall i, j :: 0 <= i < j < |rows| ==> rows[i].offset < rows[j].offset)
  }

  /** Within a file the offsets grow strictly, which is what makes a row's position unique. */
  lemma {:induction false} OffsetsGrow(parser: Parser, key: Key, logTag: string, file: string, lines: seq<string>)
    ensures OffsetsBelow(RowsOfLines(parser, key, logTag, file, lines), key, file, OffsetAfter(lines))
  {
    if lines != [] {
      var front, line := lines[..|lines| - 1], lines[|lines| - 1];
      OffsetsGrow(parser, key, logTag, file, front);
      var before := RowsOfLines(parser, key, logTag, file, front);
      var added := RowsOfLine(parser, key, logTag, file, line, OffsetAfter(front));
      assert OffsetsBelow(before + added, key, file, OffsetAfter(front) + |line| + 1);
    }
  }

  /** What one more line adds to everything the import loop accumulates. */
  lemma NextLine(parser: Parser, key: Key, logTag: string, file: string, lines: seq<string>, i: nat)
    requires i < |lines|
    ensures RowsOfLines(parser, key, logTag, file, lines[..i + 1])
         == RowsOfLines(parser, key, logTag, file, lines[..i])
            + RowsOfLine(parser, key, logTag, file, lines[i], OffsetAfter(lines[..i]))
    ensures OffsetAfter(lines[..i + 1]) == OffsetAfter(lines[..i]) + |lines[i]| + 1
    ensures NonEmptyLines(parser, lines[..i + 1]) == NonEmptyLines(parser, lines[..i]) + if parser.blank(lines[i]) then 0 else 1
  {
    assert lines[..i + 1][..i] == lines[..i];
  }

  predicate DistinctPaths(files: seq<Entry>) {
    forall i, j :: 0 <= i < j < |files| ==> files[i].path != files[j].path
  }

  predicate DistinctNames(files: seq<Entry>) {
    forall i, j :: 0 <= i < j < |files| ==> files[i].name != files[j].name
  }

  ghost predicate UniquePositions(rows: seq<Row>, key: Key, files: seq<Entry>) {
    && (forall r <- rows :: r.key == key && exists f <- files :: f.name == r.file)
    && (forall i, j :: 0 <= i < j < |rows| ==> PositionOf(rows[i]) != PositionOf(rows[j]))
  }

  /** Two rows of an imported partition never share their position. */
  lemma {:induction false} PositionsAreUnique(
    parser: Parser, contents: string -> seq<string>, key: Key, logTag: string, files: seq<Entry>)
    requires DistinctNames(files)
    ensures UniquePositions(RowsOfFiles(parser, contents, key, logTag, files), key, files)
  {
    if files != [] {
      var front, last := files[..|files| - 1], files[|files| - 1];
      PositionsAreUnique(parser, contents, key, logTag, front);
      OffsetsGrow(parser, key, logTag, last.name, contents(last.path));
      var before := RowsOfFiles(parser, contents, key, logTag, front);
      var added := RowsOfLines(parser, key, logTag, last.name, contents(last.path));
      AddFile(before, added, key, files, OffsetAfter(contents(last.path)));
    }
  }

  lemma AddFile(before: seq<Row>, added: seq<Row>, key: Key, files: seq<Entry>, limit: nat)
    requires files != [] && DistinctNames(files)
    requires UniquePositions(before, key, files[..|files| - 1])
    requires OffsetsBelow(added, key, files[|files| - 1].name, limit)
    ensures UniquePositions(before + added, key, files)
  {
  }

  /** The files of a date are the entries that pass the filter, each once. */
  lemma {:induction false} TargetsAreDistinct(dir: seq<Entry>, now: Time, date: int)
    ensures DistinctPaths(dir) ==> DistinctPaths(TargetFiles(dir, now, date))
    ensures DistinctNames(dir) ==> DistinctNames(TargetFiles(dir, now, date))
    ensures forall f :: f in TargetFiles(dir, now, date) <==> f in dir && IsArchive(f, now, date)
  {
    if dir != [] {
      TargetsAreDistinct(dir[1..], now, date);
      var rest := TargetFiles(dir[1..], now, date);
      forall f | f in rest
        ensures DistinctPaths(dir) ==> f.path != dir[0].path
        ensures DistinctNames(dir) ==> f.name != dir[0].name
      {
        FirstDiffers(dir, f);
      }
    }
  }

  lemma NoTargets(dir: seq<Entry>, now: Time, date: int)
    ensures TargetFiles(dir, now, date) == [] <==> !HasArchive(dir, now, date)
  {
    TargetsAreDistinct(dir, now, date);
    if TargetFiles(dir, now, date) != [] {
      assert TargetFiles(dir, now, date)[0] in TargetFiles(dir, now, date);
    }
  }

  /** Some line of the files is recognised. */
  ghost predicate HasLogLine(parser: Parser, contents: string -> seq<string>, files: seq<Entry>, date: int) {
    exists f, line :: f in files && line in contents(f.path) && parser.payload(line, date).Some?
  }

  /** Some line of the files is not blank. */
  ghost predicate HasText(parser: Parser, contents: string -> seq<string>, files: seq<Entry>) {
    exists f, line :: f in files && line in contents(f.path) && !parser.blank(line)
  }

  lemma {:induction false} RowsOfNoLine(parser: Parser, key: Key, logTag: string, file: string, lines: seq<string>)
    ensures RowsOfLines(parser, key, logTag, file, lines) == []
       <==> forall line <- lines :: parser.payload(line, key.date).None?
  {
    if lines != [] {
      RowsOfNoLine(parser, key, logTag, file, lines[..|lines| - 1]);
      assert lines == lines[..|lines| - 1] + [lines[|lines| - 1]];
    }
  }

  /** A date has rows exactly if one of its lines is recognised. */
  lemma {:induction false} RowsOfNoFile(
    parser: Parser, contents: string -> seq<string>, key: Key, logTag: string, files: seq<Entry>)
    ensures RowsOfFiles(parser, contents, key, logTag, files) != [] <==> HasLogLine(parser, contents, files, key.date)
  {
    if files != [] {
      var front, last := files[..|files| - 1], files[|files| - 1];
      RowsOfNoFile(parser, contents, key, logTag, front);
      RowsOfNoLine(parser, key, logTag, last.name, contents(last.path));
      assert files == front + [last];
    }
  }

  lemma {:induction false} TextOfLines(parser: Parser, lines: seq<string>)
    ensures NonEmptyLines(parser, lines) == 0 <==> forall line <- lines :: parser.blank(line)
  {
    if lines != [] {
      TextOfLines(parser, lines[..|lines| - 1]);
      assert lines == lines[..|lines| - 1] + [lines[|lines| - 1]];
    }
  }

  lemma FirstDiffers(files: seq<Entry>, f: Entry)
    requires files != [] && f in files[1..]
    ensures DistinctPaths(files) ==> f.path != files[0].path
    ensures DistinctNames(files) ==> f.name != files[0].name
  {
    var k :| 0 <= k < |files| - 1 && files[1..][k] == f;
    assert files[k + 1] == f;
  }

  function NextRetryAt(retryCount: nat, now: Time): Time {
    match retryCount
    case 0 => now + MINUTE
    case 1 => now + 5 * MINUTE
    case _ => now + 15 * MINUTE
  }

  /** Every file of `settled` has that row as its strictly latest, terminal one. */
  ghost predicate FilesSettled(log: multiset<FileState>, settled: map<string, FileState>) {
    forall p <- settled :: settled[p].key == p && Terminal(settled[p].status) && StrictlyLatest(log, settled[p])
  }

  lemma MergesKeepSettled(before: multiset<FileState>, after: multiset<FileState>, settled: map<string, FileState>)
    requires FilesSettled(before, settled) && MergedFrom(before, after)
    ensures FilesSettled(after, settled)
  {
    forall p | p in settled
      ensures StrictlyLatest(after, settled[p])
    {
      MergesKeepStrictlyLatest(before, after, settled[p]);
    }
  }

  lemma AppendKeepsSettled(log: multiset<FileState>, row: FileState, settled: map<string, FileState>)
    requires FilesSettled(log, settled) && row.key !in settled
    ensures FilesSettled(log + multiset{row}, settled)
  {
  }

  method Clock() returns (now: Time) {
    now := *;
  }

  class Importer {
    const store: Store
    const parser: Parser
    const contents: string -> seq<string>
    const batchSize: int

    constructor (store: Store, parser: Parser, contents: string -> seq<string>, batchSize: int)
      ensures this.store == store && this.parser == parser && this.contents == contents && this.batchSize == batchSize
    {
      this.store, this.parser, this.contents, this.batchSize := store, parser, contents, batchSize;
    }

    /** The data of other keys, and all but the presence of their state rows, stay as they were. */
    twostate predicate OnlyTouches(key: Key)
      reads store
    {
      && store.parts - {key} == old(store.parts) - {key}
      && store.loaded - {key} == old(store.loaded) - {key}
      && (forall r <- store.dates :: r.key != key ==> r in old(store.dates))
      && store.open - {key} == old(store.open) - {key}
      && store.newest - {key} == old(store.newest) - {key}
      && old(store.faults) <= store.faults && old(store.upsets) <= store.upsets
    }

    /** A read or write of the state tables failed. */
    twostate predicate Faulted()
      reads store
    {
      old(store.faults) < store.faults
    }

    /** A drop, an insert, the listing or the read of a file failed or was cancelled. */
    twostate predicate Upset()
      reads store
    {
      old(store.upsets) < store.upsets
    }

    /** A run that fails although there was something to import had a call that failed. */
    twostate predicate Blamed(outcome: Outcome)
      reads store
    {
      outcome.Failure? ==>
        && (outcome.cause == StateStore ==> Faulted())
        && (outcome.cause in {Scan, Drop, FileRead} ==> Upset())
    }

    /** Only failures of the state tables, or a directory that cannot be listed, keep a run from recording its end. */
    twostate predicate Excused(outcome: Outcome)
      reads store
    {
      outcome.Failure? && !outcome.marked && outcome.cause != Scan ==> Faulted()
    }

    /** A part of a run that opens no window and loads nothing to the end: so it is in every world on the way. */
    twostate predicate GoesOn(key: Key)
      reads store
    {
      && OnlyTouches(key) && store.loaded == old(store.loaded)
      && QuietSince(old(store.trace), store.trace, key)
    }

    /** Data of `key` may have been inserted. */
    twostate predicate Inserts(key: Key)
      reads store
    {
      && QuietSince(old(store.trace), store.trace, key)
      && store.parts - {key} == old(store.parts) - {key}
      && store.open == old(store.open) && store.loaded == old(store.loaded) && store.faults == old(store.faults)
      && old(store.upsets) <= store.upsets && store.newest == old(store.newest)
    }

    /** The same, and nothing but merges happened to the state tables. */
    twostate predicate OnlyInserts(key: Key)
      reads store
    {
      && Inserts(key)
      && MergedFrom(old(store.dates), store.dates) && MergedFrom(old(store.files), store.files)
    }

    /** Whether the disk can be read and the context goes on; it counts if not. */
    method Proceed() returns (ok: bool)
      requires store.Valid()
      modifies store`upsets
      ensures store.Valid() && store.upsets == old(store.upsets) + if ok then 0 else 1
    {
      ok := *;
      store.NoteOutcome(ok);
    }

    method AppendBatch(key: Key, rows: seq<Row>, ghost since: Time) returns (ok: bool)
      requires store.Valid() && ImportingSince(store.dates, key, since) && forall r <- rows :: r.key == key
      modifies store
      ensures !ok ==> Upset()
      ensures store.Valid() && OnlyInserts(key)
      ensures ok ==> PartitionAt(store.parts, key) == InsertBlock(PartitionAt(old(store.parts), key), rows)
    {
      NoMerge(store.dates);
      NoMerge(store.files);
      if rows == [] {
        InsertNothing(PartitionAt(store.parts, key));
        return true;
      }
      var slot := Proceed();  // the write gate gives up when the context is cancelled
      if !slot {
        return false;
      }
      ok := store.InsertRows(key, rows, since);
    }

    lemma InsertNothing(p: Partition)
      ensures InsertBlock(p, []) == p
    {
    }

    lemma InsertAfter(base: seq<Row>, flushed: seq<Row>, rows: seq<Row>)
      ensures InsertBlock(PartitionOf(base + flushed), rows) == PartitionOf(base + (flushed + rows))
    {
      Regroup(base, flushed, rows);
      InsertKeepsAggregates(base + flushed, rows);
    }

    /** One batch of a file, of which `flushed` rows are already in the partition; `dates0` and `files0` begin the file. */
    method Flush(
      key: Key, rows: seq<Row>, ghost base: seq<Row>, ghost flushed: seq<Row>, ghost since: Time,
      ghost dates0: multiset<DateState>, ghost files0: multiset<FileState>)
      returns (ok: bool)
      requires store.Valid() && PartitionAt(store.parts, key) == PartitionOf(base + flushed)
      requires forall r <- rows :: r.key == key
      requires ImportingSince(dates0, key, since) && MergedFrom(dates0, store.dates) && MergedFrom(files0, store.files)
      modifies store
      ensures !ok ==> Upset()
      ensures store.Valid() && Inserts(key)
      ensures MergedFrom(dates0, store.dates) && MergedFrom(files0, store.files)
      ensures ok ==> PartitionAt(store.parts, key) == PartitionOf(base + (flushed + rows))
    {
      MergeFacts(dates0, store.dates, key);
      ok := AppendBatch(key, rows, since);
      MergeTransitive(dates0, old(store.dates), store.dates);
      MergeTransitive(files0, old(store.files), store.files);
      InsertAfter(base, flushed, rows);
    }

    /** The row that a line adds to the pending ones, if it is recognised. */
    method ParseLine(key: Key, logTag: string, file: string, lines: seq<string>, i: nat, offset: nat, rows: seq<Row>, ghost flushed: seq<Row>)
      returns (added: bool, pending: seq<Row>)
      requires i < |lines| && offset == OffsetAfter(lines[..i])
      requires flushed + rows == RowsOfLines(parser, key, logTag, file, lines[..i])
      ensures flushed + pending == RowsOfLines(parser, key, logTag, file, lines[..i + 1])
    {
      NextLine(parser, key, logTag, file, lines, i);
      Regroup(flushed, rows, RowsOfLine(parser, key, logTag, file, lines[i], offset));
      var parsed := parser.payload(lines[i], key.date);
      added := parsed.Some?;
      pending := if added then rows + [Row(key, logTag, file, offset, parsed.value)] else rows;
      Regroup(flushed, rows, []);
    }

    /** After `i` lines: the flushed rows are in the partition, and with the pending ones they are the rows of those lines. */
    ghost predicate Scanned(
      key: Key, logTag: string, file: string, lines: seq<string>, i: nat, base: seq<Row>,
      result: FileResult, rows: seq<Row>, flushed: seq<Row>)
      requires i <= |lines|
      reads store
    {
      && flushed + rows == RowsOfLines(parser, key, logTag, file, lines[..i])
      && PartitionAt(store.parts, key) == PartitionOf(base + flushed)
      && result == FileResult(|flushed|, NonEmptyLines(parser, lines[..i]))
    }

    /** One line of the scan; the batch is inserted when it is full. */
    method ScanLine(
      key: Key, logTag: string, file: string, lines: seq<string>, i: nat, offset: nat, size: nat,
      result: FileResult, rows: seq<Row>,
      ghost base: seq<Row>, ghost flushed: seq<Row>, ghost since: Time,
      ghost dates0: multiset<DateState>, ghost files0: multiset<FileState>)
      returns (ok: bool, result': FileResult, rows': seq<Row>, ghost flushed': seq<Row>)
      requires store.Valid() && i < |lines| && offset == OffsetAfter(lines[..i])
      requires Scanned(key, logTag, file, lines, i, base, result, rows, flushed)
      requires ImportingSince(dates0, key, since) && MergedFrom(dates0, store.dates) && MergedFrom(files0, store.files)
      modifies store
      ensures !ok ==> Upset()
      ensures store.Valid() && Inserts(key)
      ensures MergedFrom(dates0, store.dates) && MergedFrom(files0, store.files)
      ensures ok ==> Scanned(key, logTag, file, lines, i + 1, base, result', rows', flushed')
    {
      NoMerge(store.dates);
      NoMerge(store.files);
      result', rows', flushed' := result, rows, flushed;
      ok := Proceed();  // the context may be cancelled
      if !ok {
        return;
      }
      NextLine(parser, key, logTag, file, lines, i);
      var nonEmpty := if parser.blank(lines[i]) then result.nonEmpty else result.nonEmpty + 1;
      var added;
      result' := FileResult(result.rows, nonEmpty);
      added, rows' := ParseLine(key, logTag, file, lines, i, offset, rows, flushed);
      if added && |rows'| >= size {
        RowsAreKeyed(key, logTag, file, lines[..i + 1], flushed, rows');
        ok := Flush(key, rows', base, flushed, since, dates0, files0);
        result' := FileResult(result.rows + |rows'|, nonEmpty);
        flushed', rows' := flushed + rows', [];
        AllFlushed(flushed');
      }
    }

    lemma RowsAreKeyed(key: Key, logTag: string, file: string, lines: seq<string>, flushed: seq<Row>, rows: seq<Row>)
      requires flushed + rows == RowsOfLines(parser, key, logTag, file, lines)
      ensures forall r <- rows :: r.key == key
    {
      OffsetsGrow(parser, key, logTag, file, lines);
      forall r | r in rows
        ensures r.key == key
      {
        assert r in flushed + rows;
      }
    }

    lemma AllFlushed(flushed: seq<Row>)
      ensures flushed + [] == flushed
    {
    }

    /** Reads the lines of a file and inserts every full batch; `rows` is what is left over. */
    method ScanLines(key: Key, logTag: string, file: string, lines: seq<string>, ghost base: seq<Row>, ghost since: Time)
      returns (ok: bool, result: FileResult, rows: seq<Row>, ghost flushed: seq<Row>)
      requires store.Valid() && ImportingSince(store.dates, key, since)
      requires PartitionAt(store.parts, key) == PartitionOf(base)
      modifies store
      ensures !ok ==> Upset()
      ensures store.Valid() && OnlyInserts(key)
      ensures ok ==> Scanned(key, logTag, file, lines, |lines|, base, result, rows, flushed)
    {
      ok, result, rows, flushed := true, FileResult(0, 0), [], [];
      NoMerge(store.dates);
      NoMerge(store.files);
      Regroup(base, [], []);
      var size := if batchSize <= 0 then DEFAULT_BATCH_SIZE else batchSize;
      var offset := 0;
      var i := 0;
      while ok && i < |lines|
        invariant 0 <= i <= |lines|
        invariant store.Valid() && OnlyInserts(key)
        invariant !ok ==> Upset()
        invariant offset == OffsetAfter(lines[..i])
        invariant ok ==> Scanned(key, logTag, file, lines, i, base, result, rows, flushed)
      {
        ghost var before := store.trace;
        ok, result, rows, flushed := ScanLine(
          key, logTag, file, lines, i, offset, size, result, rows, base, flushed, since,
          old(store.dates), old(store.files));
        ThenQuiet(old(store.trace), before, store.trace, key);
        NextLine(parser, key, logTag, file, lines, i);
        offset := offset + |lines[i]| + 1;
        i := i + 1;
      }
    }

    method ImportFile(key: Key, logTag: string, file: Entry, ghost base: seq<Row>, ghost since: Time)
      returns (ok: bool, result: FileResult)
      requires store.Valid() && ImportingSince(store.dates, key, since)
      requires PartitionAt(store.parts, key) == PartitionOf(base)
      modifies store
      ensures !ok ==> Upset()
      ensures store.Valid() && OnlyInserts(key)
      ensures ok ==>
        var rows := RowsOfLines(parser, key, logTag, file.name, contents(file.path));
        && PartitionAt(store.parts, key) == PartitionOf(base + rows)
        && result == FileResult(|rows|, NonEmptyLines(parser, contents(file.path)))
    {
      var readable := Proceed();
      if !readable {
        NoMerge(store.dates);
        NoMerge(store.files);
        return false, FileResult(0, 0);
      }
      var rows;
      ghost var flushed;
      var lines := contents(file.path);
      assert lines[..|lines|] == lines;
      ok, result, rows, flushed := ScanLines(key, logTag, file.name, lines, base, since);
      ghost var scanned := store.trace;
      var whole := Proceed();  // the scanner stops early on a read error
      ok := ok && whole;
      if ok && |rows| > 0 {
        RowsAreKeyed(key, logTag, file.name, lines, flushed, rows);
        ok := Flush(key, rows, base, flushed, since, old(store.dates), old(store.files));
        ThenQuiet(old(store.trace), scanned, store.trace, key);
        result := result.(rows := result.rows + |rows|);
      } else if ok {
        Regroup(flushed, rows, []);
      }
    }

    function Progress(
      logTag: string, filesTotal: nat, filesDone: nat, rows: nat, bytesTotal: nat, bytesDone: nat, file: string): DateDetail
    {
      DateDetail(logTag, filesTotal, filesDone, rows, bytesTotal, bytesDone, file, 0, 0, "")
    }

    function FileProgress(key: Key, logTag: string, rows: nat, bytesTotal: nat, bytesDone: nat): FileDetail {
      FileDetail(key, logTag, rows, bytesTotal, bytesDone, 0, 0, "")
    }

    function NextRetryCount(previous: Option<nat>): (count: nat)
      ensures 1 <= count <= 3
    {
      match previous
      case None => 1
      case Some(retries) => if retries >= 3 then 3 else retries + 1
    }

    function DateRetries(found: Option<DateState>): Option<nat> {
      if found.Some? then Some(found.value.detail.retryCount) else None
    }

    function FileRetries(found: Option<FileState>): Option<nat> {
      if found.Some? then Some(found.value.detail.retryCount) else None
    }

    /** `found` is what a read answers after some merges: a latest row of the key, or none if it has none. */
    ghost predicate MayRead<K(!new), D(!new)>(log: multiset<StateRow<K, D>>, key: K, found: Option<StateRow<K, D>>) {
      exists seen: multiset<StateRow<K, D>> ::
        && MergedFrom(log, seen)
        && (found.Some? ==> found.value.key == key && IsLatest(seen, found.value))
        && (found.None? ==> forall r: StateRow<K, D> :: r in seen ==> r.key != key)
    }

    /** One retry more than before, up to three, and a minute, five or a quarter of an hour until it is due. */
    ghost predicate IsRetry(previous: nat, retryCount: nat, failedAt: Time, nextRetryAt: Time) {
      && retryCount == (if previous < 3 then previous + 1 else 3)
      && nextRetryAt == failedAt + (if retryCount == 1 then 60 else if retryCount == 2 then 300 else 900) * SECOND
    }

    /** The failed row of a date, which counts one retry more than the latest row it follows. */
    ghost predicate IsDateFailure(
      log: multiset<DateState>, key: Key, logTag: string, now: Time, filesDone: nat, error: string, row: DateState)
      reads store
    {
      exists found: Option<DateState>, failedAt: Time, retryCount: nat, nextRetryAt: Time ::
        && MayRead(log, key, found)
        && IsRetry(if found.Some? then found.value.detail.retryCount else 0, retryCount, failedAt, nextRetryAt)
        && row == StateRow(key, Failed, Stored(TerminalStateTimestamp(now, failedAt), store.grain),
                           DateDetail(logTag, 0, filesDone, 0, 0, 0, "", retryCount, nextRetryAt, error))
    }

    function FailedDate(
      key: Key, logTag: string, now: Time, filesDone: nat, error: string, retryCount: nat, failedAt: Time): DateState
      requires retryCount > 0
    {
      StateRow(key, Failed, TerminalStateTimestamp(now, failedAt),
               DateDetail(logTag, 0, filesDone, 0, 0, 0, "", retryCount, NextRetryAt(retryCount - 1, failedAt), error))
    }

    ghost predicate IsFileFailure(
      log: multiset<FileState>, key: Key, logTag: string, file: Entry, now: Time, error: string, row: FileState)
      reads store
    {
      exists found: Option<FileState>, failedAt: Time, retryCount: nat, nextRetryAt: Time ::
        && MayRead(log, file.path, found)
        && IsRetry(if found.Some? then found.value.detail.retryCount else 0, retryCount, failedAt, nextRetryAt)
        && row == StateRow(file.path, Failed, Stored(TerminalStateTimestamp(now, failedAt), store.grain),
                           FileDetail(key, logTag, 0, file.size, 0, retryCount, nextRetryAt, error))
    }

    function FailedFile(
      key: Key, logTag: string, file: Entry, now: Time, error: string, retryCount: nat, failedAt: Time): FileState
      requires retryCount > 0
    {
      StateRow(file.path, Failed, TerminalStateTimestamp(now, failedAt),
               FileDetail(key, logTag, 0, file.size, 0, retryCount, NextRetryAt(retryCount - 1, failedAt), error))
    }

    lemma FailsDate(
      log: multiset<DateState>, key: Key, logTag: string, now: Time, filesDone: nat, error: string,
      found: Option<DateState>, failedAt: Time)
      requires MayRead(log, key, found)
      ensures IsDateFailure(log, key, logTag, now, filesDone, error,
                            store.AsStored(FailedDate(key, logTag, now, filesDone, error, NextRetryCount(DateRetries(found)), failedAt)))
    {
      var row := FailedDate(key, logTag, now, filesDone, error, NextRetryCount(DateRetries(found)), failedAt);
      assert IsRetry(if found.Some? then found.value.detail.retryCount else 0,
                     row.detail.retryCount, failedAt, row.detail.nextRetryAt);
    }

    lemma FailsFile(
      log: multiset<FileState>, key: Key, logTag: string, file: Entry, now: Time, error: string,
      found: Option<FileState>, failedAt: Time)
      requires MayRead(log, file.path, found)
      ensures IsFileFailure(log, key, logTag, file, now, error,
                            store.AsStored(FailedFile(key, logTag, file, now, error, NextRetryCount(FileRetries(found)), failedAt)))
    {
      var row := FailedFile(key, logTag, file, now, error, NextRetryCount(FileRetries(found)), failedAt);
      assert IsRetry(if found.Some? then found.value.detail.retryCount else 0,
                     row.detail.retryCount, failedAt, row.detail.nextRetryAt);
    }

    /** A row with this status and detail was written. */
    ghost predicate HasRow<K(!new), D(!new)>(log: multiset<StateRow<K, D>>, key: K, status: Status, detail: D) {
      exists row :: row in log && row.key == key && row.status == status && row.detail == detail
    }

    /** Between the first importing row of a run and its end; `settled` are the files already dealt with. */
    ghost predicate InRun(key: Key, since: Time, bound: Time, settled: map<string, FileState>)
      reads store
    {
      && store.Valid() && key !in store.open
      && ImportingSince(store.dates, key, since) && Bounded(store.dates, key, bound)
      && FilesSettled(store.files, settled)
    }

    /** Writes a date row that lies in a later second than every row of the date so far, which ends its window. */
    method WriteTerminal(written: DateState, ghost bound: Time, ghost settled: map<string, FileState>)
      returns (ok: bool)
      requires store.Valid() && Bounded(store.dates, written.key, bound) && FilesSettled(store.files, settled)
      requires SecondOf(bound) < SecondOf(written.updatedAt)
      requires written.status == Ready ==> Complete(store.Current(), written)
      modifies store
      ensures !ok ==> Faulted()
      ensures store.Valid() && OnlyTouches(written.key) && FilesSettled(store.files, settled)
      ensures store.OnlyWrites(store.AsStored(written))
      ensures ok ==> StrictlyLatest(store.dates, store.AsStored(written)) && written.key !in store.open
    {
      ghost var merged;
      LaterInEverySecond(store.dates, written);
      ok, merged := store.WriteDateState(written);
      MergeFacts(old(store.dates), merged, written.key);
      MergesKeepSettled(old(store.files), store.files, settled);
      if ok {
        AppendTerminal(merged, store.AsStored(written), bound);
      }
    }

    lemma LaterInEverySecond(log: multiset<DateState>, row: DateState)
      requires SecondsBefore(log, row.key, row.updatedAt)
      ensures forall r <- log :: r.key == row.key ==> r.updatedAt < store.AsStored(row).updatedAt
    {
    }

    /** One write of a row that does not say ready goes on quietly. */
    twostate lemma WritesGoOn(row: DateState)
      requires old(store.Valid()) && store.OnlyWrites(row) && row.status != Ready
      ensures QuietSince(old(store.trace), store.trace, row.key)
    {
    }

    /** Writes a terminal row other than ready, after which the state table tells what became of the date. */
    method RecordOutcome(written: DateState, ghost bound: Time, ghost settled: map<string, FileState>)
      returns (ok: bool)
      requires store.Valid() && Bounded(store.dates, written.key, bound) && FilesSettled(store.files, settled)
      requires SecondOf(bound) < SecondOf(written.updatedAt) && written.status != Ready
      modifies store
      ensures !ok ==> Faulted()
      ensures store.Valid() && GoesOn(written.key) && FilesSettled(store.files, settled)
      ensures store.parts == old(store.parts)
      ensures ok ==> StrictlyLatest(store.dates, store.AsStored(written)) && written.key !in store.open
    {
      ok := WriteTerminal(written, bound, settled);
      WritesGoOn(store.AsStored(written));
    }

    method NextDateRetryCount(key: Key, ghost bound: Time, ghost settled: map<string, FileState>)
      returns (ok: bool, retryCount: nat, found: Option<DateState>)
      requires store.Valid() && Bounded(store.dates, key, bound) && FilesSettled(store.files, settled)
      modifies store
      ensures old(store.faults) <= store.faults
      ensures !ok ==> Faulted()
      ensures store.Valid() && store.OnlyMerges()
      ensures Bounded(store.dates, key, bound) && FilesSettled(store.files, settled)
      ensures retryCount == NextRetryCount(DateRetries(found)) && (ok ==> MayRead(old(store.dates), key, found))
    {
      ok, found := store.LatestDateState(key);
      retryCount := NextRetryCount(DateRetries(found));
      MergeFacts(old(store.dates), store.dates, key);
      MergesKeepSettled(old(store.files), store.files, settled);
    }

    /** Records that the date failed, later than every row of the date so far. */
    method MarkDateFailed(
      key: Key, logTag: string, now: Time, filesDone: nat, error: string, ghost settled: map<string, FileState>)
      returns (ok: bool, ghost row: DateState)
      requires store.Valid() && Bounded(store.dates, key, now) && FilesSettled(store.files, settled)
      modifies store
      ensures !ok ==> Faulted()
      ensures store.Valid() && GoesOn(key) && FilesSettled(store.files, settled)
      ensures store.parts == old(store.parts)
      ensures ok ==> StrictlyLatest(store.dates, row) && row.key == key && row.status == Failed && key !in store.open
      ensures ok ==> IsDateFailure(old(store.dates), key, logTag, now, filesDone, error, row)
    {
      row := StateRow(key, Failed, now, Progress(logTag, 0, filesDone, 0, 0, 0, ""));
      var retryCount, found;
      ok, retryCount, found := NextDateRetryCount(key, now, settled);
      ghost var read := store.trace;
      MergesAreQuiet(old(store.trace), read, key);
      if !ok {
        return;
      }
      var failedAt := Clock();
      var written := FailedDate(key, logTag, now, filesDone, error, retryCount, failedAt);
      FailsDate(old(store.dates), key, logTag, now, filesDone, error, found, failedAt);
      ok := RecordOutcome(written, now, settled);
      MergesThenQuiet(old(store.trace), read, store.trace, key);
      row := store.AsStored(written);
    }

    /** Records that a file failed, later than every row of its path so far. */
    method MarkFileFailed(
      key: Key, logTag: string, file: Entry, now: Time, error: string, ghost settled: map<string, FileState>)
      returns (ok: bool, ghost row: FileState)
      requires store.Valid() && Bounded(store.files, file.path, now)
      requires FilesSettled(store.files, settled) && file.path !in settled
      modifies store
      ensures !ok ==> Faulted()
      ensures store.Valid() && GoesOn(key) && store.open == old(store.open)
      ensures MergedFrom(old(store.dates), store.dates) && store.parts == old(store.parts)
      ensures FilesSettled(store.files, settled)
      ensures ok ==> row.status == Failed && FilesSettled(store.files, settled[file.path := row])
      ensures ok ==> IsFileFailure(old(store.files), key, logTag, file, now, error, row)
    {
      row := StateRow(file.path, Failed, now, FileProgress(key, logTag, 0, 0, 0));
      var found;
      ok, found := store.LatestFileState(file.path);
      MergeFacts(old(store.files), store.files, file.path);
      MergesKeepSettled(old(store.files), store.files, settled);
      ghost var read := store.trace;
      MergesAreQuiet(old(store.trace), read, key);
      if !ok {
        return;
      }
      assert MayRead(old(store.files), file.path, found);
      var failedAt := Clock();
      var written := FailedFile(key, logTag, file, now, error, NextRetryCount(FileRetries(found)), failedAt);
      FailsFile(old(store.files), key, logTag, file, now, error, found, failedAt);
      ghost var dates, files := store.dates, store.files;
      ghost var merged;
      ok, merged := store.WriteFileState(written);
      row := store.AsStored(written);
      MergeTransitive(old(store.dates), dates, store.dates);
      FileRowWritten(files, merged, store.files, row, now, settled);
      MergesAreQuiet(read, store.trace, key);
      ThenQuiet(old(store.trace), read, store.trace, key);
    }

    /** A file row written later than all rows of its path settles the file; any file row leaves the others settled. */
    lemma FileRowWritten(
      before: multiset<FileState>, merged: multiset<FileState>, after: multiset<FileState>,
      row: FileState, bound: Time, settled: map<string, FileState>)
      requires MergedFrom(before, merged) && (after == merged || after == merged + multiset{row})
      requires Bounded(before, row.key, bound)
      requires FilesSettled(before, settled) && row.key !in settled
      ensures FilesSettled(after, settled)
      ensures Bounded(after, row.key, if row.updatedAt > bound then row.updatedAt else bound)
      ensures after == merged + multiset{row} && SecondOf(bound) < SecondOf(row.updatedAt) && Terminal(row.status) ==>
        FilesSettled(after, settled[row.key := row])
    {
      MergeFacts(before, merged, row.key);
      MergesKeepSettled(before, merged, settled);
      AppendKeepsSettled(merged, row, settled);
      if SecondOf(bound) < SecondOf(row.updatedAt) {
        AppendTerminal(merged, row, bound);
      }
    }

    /** A progress row: importing, at whatever time the clock shows. */
    method WriteProgress(
      key: Key, detail: DateDetail, bound: Time, ghost since: Time, ghost settled: map<string, FileState>)
      returns (ok: bool, bound': Time)
      requires InRun(key, since, bound, settled)
      modifies store
      ensures !ok ==> Faulted()
      ensures InRun(key, since, bound', settled) && bound <= bound'
      ensures GoesOn(key) && store.parts == old(store.parts)
      ensures MergedFrom(old(store.files), store.files)
      ensures ok ==> HasRow(store.dates, key, Importing, detail)
    {
      var now := Clock();
      ghost var merged;
      var row := StateRow(key, Importing, now, detail);
      ok, merged := store.WriteDateState(row);
      bound' := if now > bound then now else bound;
      MergeFacts(old(store.dates), merged, key);
      MergesKeepSettled(old(store.files), store.files, settled);
      AppendProgress(merged, store.AsStored(row), since, bound);
      WritesGoOn(store.AsStored(row));
    }

    /** How a run has ended: what it left in the state tables. */
    ghost predicate Ended(key: Key, outcome: Outcome, run: Run)
      reads store
    {
      && store.Valid() && FilesSettled(store.files, run.files)
      && (run.terminal.Some? ==>
            && run.terminal.value.key == key && Terminal(run.terminal.value.status)
            && StrictlyLatest(store.dates, run.terminal.value) && key !in store.open
            && (run.terminal.value.status == Failed <==> outcome.Failure?))
      && (run.terminal.Some? <==> outcome.Imported? || outcome.marked)
    }

    ghost predicate StoppedEarly(key: Key, outcome: Outcome, run: Run)
      reads store
    {
      outcome.Failure? && outcome.cause in {StateStore, FileRead} && Ended(key, outcome, run)
    }

    /** A run that stops at `file` keeps what it knew of the others; the file is failed or recorded, if anything. */
    ghost predicate StopsAt(
      key: Key, logTag: string, file: Entry, outcome: Outcome, before: map<string, FileState>, after: map<string, FileState>)
    {
      && outcome.Failure?
      && after.Keys <= before.Keys + {file.path}
      && (forall p <- before :: p in after && after[p] == before[p])
      && (file.path in after ==> MarkedFailed(file, after) || RecordedFile(key, logTag, file, after))
      && (outcome.cause == FileRead && outcome.marked ==> MarkedFailed(file, after))
    }

    /** The files before the one where a run stopped are recorded; that one is failed or recorded, if anything. */
    ghost predicate StoppedAt(key: Key, logTag: string, outcome: Outcome, run: Run) {
      && outcome.Failure? && run.done <= |run.targets|
      && (forall f <- run.targets[..run.done] :: RecordedFile(key, logTag, f, run.files))
      && (forall p <- run.files :: exists f :: f in run.targets && f.path == p)
      && (forall f <- run.targets :: f.path in run.files ==> MarkedFailed(f, run.files) || RecordedFile(key, logTag, f, run.files))
      && (outcome.cause == FileRead ==> run.done < |run.targets| && (outcome.marked ==> MarkedFailed(run.targets[run.done], run.files)))
    }

    /** The date's progress row and the file's importing row, which opens the file in a later second than its past. */
    method BeginFile(
      key: Key, logTag: string, file: Entry, detail: DateDetail, bound: Time,
      ghost since: Time, ghost settled: map<string, FileState>)
      returns (ok: bool, bound': Time, fileUpdatedAt: Time)
      requires InRun(key, since, bound, settled) && file.path !in settled
      modifies store
      ensures !ok ==> Faulted()
      ensures InRun(key, since, bound', settled) && GoesOn(key) && store.parts == old(store.parts)
      ensures ok ==> Bounded(store.files, file.path, fileUpdatedAt)
    {
      ok, bound' := WriteProgress(key, detail, bound, since, settled);
      ghost var announced := store.trace;
      fileUpdatedAt := Clock();
      if ok {
        ok, fileUpdatedAt := OpenFile(key, logTag, file, fileUpdatedAt, bound', since, settled);
        ThenQuiet(old(store.trace), announced, store.trace, key);
      }
    }

    method OpenFile(
      key: Key, logTag: string, file: Entry, candidate: Time,
      ghost bound: Time, ghost since: Time, ghost settled: map<string, FileState>)
      returns (ok: bool, fileUpdatedAt: Time)
      requires InRun(key, since, bound, settled) && file.path !in settled
      modifies store
      ensures !ok ==> Faulted()
      ensures InRun(key, since, bound, settled) && GoesOn(key) && store.parts == old(store.parts)
      ensures ok ==> Bounded(store.files, file.path, fileUpdatedAt) && SecondsBefore(old(store.files), file.path, fileUpdatedAt)
      ensures ok ==> HasRow(store.files, file.path, Importing, FileDetail(key, logTag, 0, file.size, 0, 0, 0, ""))
    {
      var found;
      fileUpdatedAt := candidate;
      ok, found := store.LatestFileState(file.path);
      ghost var dates, files := store.dates, store.files;
      MergeFacts(old(store.dates), dates, key);
      MergesKeepSettled(old(store.files), files, settled);
      ghost var read := store.trace;
      MergesAreQuiet(old(store.trace), read, key);
      if !ok {
        return;
      }
      if found.Some? {
        fileUpdatedAt := TerminalStateTimestamp(found.value.updatedAt, candidate);
      }
      assert Bounded(files, file.path, fileUpdatedAt);
      LaterThanUnmerged(old(store.files), files, file.path, fileUpdatedAt);
      ok := AnnounceFile(key, logTag, file, fileUpdatedAt, bound, since, settled);
      ThenQuiet(old(store.trace), read, store.trace, key);
    }

    /** Writes the importing row of a file. */
    method AnnounceFile(
      key: Key, logTag: string, file: Entry, at: Time,
      ghost bound: Time, ghost since: Time, ghost settled: map<string, FileState>)
      returns (ok: bool)
      requires InRun(key, since, bound, settled) && file.path !in settled && Bounded(store.files, file.path, at)
      modifies store
      ensures !ok ==> Faulted()
      ensures InRun(key, since, bound, settled) && GoesOn(key) && store.parts == old(store.parts)
      ensures Bounded(store.files, file.path, at)
      ensures ok ==> HasRow(store.files, file.path, Importing, FileDetail(key, logTag, 0, file.size, 0, 0, 0, ""))
    {
      ghost var merged;
      var row := StateRow(file.path, Importing, at, FileProgress(key, logTag, 0, file.size, 0));
      ok, merged := store.WriteFileState(row);
      MergeFacts(old(store.dates), store.dates, key);
      FileRowWritten(old(store.files), merged, store.files, store.AsStored(row), at, settled);
      MergesAreQuiet(old(store.trace), store.trace, key);
    }

    /** Merges leave of every row one that is as new, so what is later than the rest was later than all. */
    lemma LaterThanUnmerged(before: multiset<FileState>, after: multiset<FileState>, path: string, t: Time)
      requires MergedFrom(before, after) && SecondsBefore(after, path, t)
      ensures SecondsBefore(before, path, t)
    {
      forall r | r in before && r.key == path
        ensures SecondOf(r.updatedAt) < SecondOf(t)
      {
        assert Covered(after, r);
      }
    }

    /** Ends a run by a failed row for the date; `settled` are the files it had dealt with. */
    method Abandon(
      key: Key, logTag: string, now: Time, filesDone: nat, error: string, cause: Cause, ghost settled: map<string, FileState>)
      returns (outcome: Outcome, ghost run: Run)
      requires store.Valid() && Bounded(store.dates, key, now) && FilesSettled(store.files, settled)
      modifies store
      ensures Excused(outcome)
      ensures outcome.Failure? && outcome.cause == cause && Ended(key, outcome, run) && GoesOn(key)
      ensures run.targets == [] && run.files == settled && store.parts == old(store.parts)
    {
      var ok;
      ghost var row;
      ok, row := MarkDateFailed(key, logTag, now, filesDone, error, settled);
      outcome := Failure(cause, ok);
      run := Run([], 0, if ok then Some(row) else None, settled);
    }

    /** Both marks that follow a file that could not be read or inserted. */
    method FailFile(
      key: Key, logTag: string, file: Entry, fileUpdatedAt: Time, bound: Time, filesDone: nat, error: string,
      ghost since: Time, ghost settled: map<string, FileState>)
      returns (outcome: Outcome, ghost run: Run)
      requires InRun(key, since, bound, settled) && file.path !in settled
      requires Bounded(store.files, file.path, fileUpdatedAt)
      modifies store
      ensures Excused(outcome)
      ensures outcome.Failure? && outcome.cause == FileRead && Ended(key, outcome, run) && GoesOn(key)
      ensures StopsAt(key, logTag, file, outcome, settled, run.files)
      ensures file.path in run.files ==> MarkedFailed(file, run.files)
    {
      var ok;
      ghost var row;
      ok, row := MarkFileFailed(key, logTag, file, fileUpdatedAt, error, settled);
      ghost var marked := store.trace;
      if ok {
        MergeFacts(old(store.dates), store.dates, key);
        outcome, run := Abandon(key, logTag, bound, filesDone, error, FileRead, settled[file.path := row]);
        ThenQuiet(old(store.trace), marked, store.trace, key);
        StopsAtMarked(key, logTag, file, outcome, settled, row);
      } else {
        outcome, run := Failure(FileRead, false), Run([], 0, None, settled);
      }
    }

    lemma StopsAtMarked(
      key: Key, logTag: string, file: Entry, outcome: Outcome, settled: map<string, FileState>, row: FileState)
      requires outcome.Failure? && row.status == Failed && file.path !in settled
      ensures StopsAt(key, logTag, file, outcome, settled, settled[file.path := row])
    {
    }

    function FileStatus(result: FileResult): Status {
      if result.nonEmpty == 0 || (result.rows == 0 && result.nonEmpty > 0) then NoData else Ready
    }

    /** The file's terminal row. */
    method CloseFile(
      key: Key, logTag: string, file: Entry, result: FileResult, fileUpdatedAt: Time,
      ghost bound: Time, ghost since: Time, ghost settled: map<string, FileState>)
      returns (ok: bool, fileTerminalAt: Time, ghost row: FileState)
      requires InRun(key, since, bound, settled) && file.path !in settled
      requires Bounded(store.files, file.path, fileUpdatedAt)
      modifies store
      ensures !ok ==> Faulted()
      ensures InRun(key, since, bound, settled) && GoesOn(key) && store.parts == old(store.parts)
      ensures ok ==> InRun(key, since, bound, settled[file.path := row])
      ensures row.status == (if result.rows > 0 && result.nonEmpty > 0 then Ready else NoData)
      ensures row.updatedAt <= fileTerminalAt
      ensures row.detail == FileDetail(key, logTag, result.rows, file.size, file.size, 0, 0, "")
    {
      var now := Clock();
      fileTerminalAt := TerminalStateTimestamp(fileUpdatedAt, now);
      var written := StateRow(
        file.path, FileStatus(result), fileTerminalAt, FileProgress(key, logTag, result.rows, file.size, file.size));
      ghost var merged;
      ok, merged := store.WriteFileState(written);
      row := store.AsStored(written);
      MergeFacts(old(store.dates), store.dates, key);
      FileRowWritten(old(store.files), merged, store.files, row, fileUpdatedAt, settled);
      MergesAreQuiet(old(store.trace), store.trace, key);
    }

    function ResultOf(key: Key, logTag: string, file: Entry): FileResult {
      var lines := contents(file.path);
      FileResult(|RowsOfLines(parser, key, logTag, file.name, lines)|, NonEmptyLines(parser, lines))
    }

    /** `file` is settled with the status and the row count of what it contains. */
    ghost predicate RecordedFile(key: Key, logTag: string, file: Entry, settled: map<string, FileState>) {
      && file.path in settled
      && var result := ResultOf(key, logTag, file);
         && settled[file.path].status == (if result.rows > 0 && result.nonEmpty > 0 then Ready else NoData)
         && settled[file.path].detail.rowsImported == result.rows
    }

    /** Exactly the files of `done` are settled, each as it should be. */
    ghost predicate Recorded(key: Key, logTag: string, done: seq<Entry>, settled: map<string, FileState>) {
      && settled.Keys == (set f <- done :: f.path)
      && forall f <- done :: RecordedFile(key, logTag, f, settled)
    }

    /** The progress of the date when `file` is done as well. */
    ghost function DoneDetail(logTag: string, file: Entry, t: Totals, result: FileResult): DateDetail {
      DateDetail(logTag, t.files, t.filesDone + 1, t.rows + result.rows, t.bytes, t.bytesDone + file.size, file.name, 0, 0, "")
    }

    /** One round of the loop over the files: `outcome` is set when the run ends here. */
    method ImportTarget(
      key: Key, logTag: string, file: Entry, t: Totals, bound: Time,
      ghost base: seq<Row>, ghost since: Time, ghost settled: map<string, FileState>)
      returns (outcome: Option<Outcome>, result: FileResult, bound': Time, fileTerminalAt: Time, ghost run: Run)
      requires InRun(key, since, bound, settled) && file.path !in settled
      requires PartitionAt(store.parts, key) == PartitionOf(base)
      modifies store
      ensures outcome.Some? ==> Excused(outcome.value) && Blamed(outcome.value)
      ensures GoesOn(key)
      ensures outcome.Some? ==>
        StoppedEarly(key, outcome.value, run) && StopsAt(key, logTag, file, outcome.value, settled, run.files)
      ensures outcome.None? ==>
        && InRun(key, since, bound', run.files)
        && PartitionAt(store.parts, key) == PartitionOf(base + RowsOfLines(parser, key, logTag, file.name, contents(file.path)))
        && result == ResultOf(key, logTag, file)
        && Settles(file, result, fileTerminalAt, settled, run.files)
    {
      var fileUpdatedAt;
      fileTerminalAt := 0;
      outcome, result, bound', fileUpdatedAt, run := LoadTarget(key, logTag, file, t, bound, base, since, settled);
      ghost var read := store.trace;
      if outcome.None? {
        outcome, bound', fileTerminalAt, run := RecordTarget(key, logTag, file, t, result, fileUpdatedAt, bound', since, settled);
        ThenQuiet(old(store.trace), read, store.trace, key);
      }
    }

    /** `after` extends `before` by the row that a file with this result ends in. */
    ghost predicate Settles(
      file: Entry, result: FileResult, fileTerminalAt: Time, before: map<string, FileState>, after: map<string, FileState>)
    {
      && file.path in after && after == before[file.path := after[file.path]]
      && after[file.path].status == (if result.rows > 0 && result.nonEmpty > 0 then Ready else NoData)
      && after[file.path].detail.rowsImported == result.rows
      && after[file.path].updatedAt <= fileTerminalAt
    }

    /** The first half of a round: announce the file and insert its rows. */
    method LoadTarget(
      key: Key, logTag: string, file: Entry, t: Totals, bound: Time,
      ghost base: seq<Row>, ghost since: Time, ghost settled: map<string, FileState>)
      returns (outcome: Option<Outcome>, result: FileResult, bound': Time, fileUpdatedAt: Time, ghost run: Run)
      requires InRun(key, since, bound, settled) && file.path !in settled
      requires PartitionAt(store.parts, key) == PartitionOf(base)
      modifies store
      ensures outcome.Some? ==> Excused(outcome.value) && Blamed(outcome.value)
      ensures GoesOn(key)
      ensures outcome.Some? ==>
        StoppedEarly(key, outcome.value, run) && StopsAt(key, logTag, file, outcome.value, settled, run.files)
      ensures outcome.None? ==>
        && InRun(key, since, bound', settled) && Bounded(store.files, file.path, fileUpdatedAt)
        && PartitionAt(store.parts, key) == PartitionOf(base + RowsOfLines(parser, key, logTag, file.name, contents(file.path)))
        && result == ResultOf(key, logTag, file)
    {
      outcome, result, run := None, FileResult(0, 0), Run([], 0, None, settled);
      var ok;
      ok, bound', fileUpdatedAt := BeginFile(
        key, logTag, file, Progress(logTag, t.files, t.filesDone, t.rows, t.bytes, t.bytesDone, file.name),
        bound, since, settled);
      ghost var begun := store.trace;
      if !ok {
        outcome := Some(Failure(StateStore, false));
        return;
      }
      ok, result := ReadFile(key, logTag, file, fileUpdatedAt, bound', base, since, settled);
      ghost var read := store.trace;
      ThenQuiet(old(store.trace), begun, read, key);
      if !ok {
        var failed;
        failed, run := FailFile(key, logTag, file, fileUpdatedAt, bound', t.filesDone, "", since, settled);
        ThenQuiet(old(store.trace), read, store.trace, key);
        outcome := Some(failed);
      }
    }

    /** The second half: the file's terminal row and the date's progress. */
    method RecordTarget(
      key: Key, logTag: string, file: Entry, t: Totals, result: FileResult, fileUpdatedAt: Time, bound: Time,
      ghost since: Time, ghost settled: map<string, FileState>)
      returns (outcome: Option<Outcome>, bound': Time, fileTerminalAt: Time, ghost run: Run)
      requires InRun(key, since, bound, settled) && file.path !in settled
      requires Bounded(store.files, file.path, fileUpdatedAt) && result == ResultOf(key, logTag, file)
      modifies store
      ensures outcome.Some? ==> Excused(outcome.value) && Blamed(outcome.value)
      ensures GoesOn(key) && store.parts == old(store.parts)
      ensures outcome.Some? ==>
        && outcome.value == Failure(StateStore, false) && Ended(key, outcome.value, run)
        && StopsAt(key, logTag, file, outcome.value, settled, run.files)
      ensures outcome.None? ==>
        && InRun(key, since, bound', run.files) && Settles(file, result, fileTerminalAt, settled, run.files)
        && HasRow(store.dates, key, Importing, DoneDetail(logTag, file, t, result))
    {
      outcome, bound', run := None, bound, Run([], 0, None, settled);
      var ok;
      ghost var row;
      ok, fileTerminalAt, row := CloseFile(key, logTag, file, result, fileUpdatedAt, bound, since, settled);
      ghost var closed := store.trace;
      if !ok {
        outcome := Some(Failure(StateStore, false));
        return;
      }
      run := Run([], 0, None, settled[file.path := row]);
      StopsAtRecorded(key, logTag, file, settled, row);
      var detail := Progress(
        logTag, t.files, t.filesDone + 1, t.rows + result.rows, t.bytes, t.bytesDone + file.size, file.name);
      assert detail == DoneDetail(logTag, file, t, result);
      ok, bound' := WriteProgress(key, detail, bound, since, run.files);
      ThenQuiet(old(store.trace), closed, store.trace, key);
      if !ok {
        outcome := Some(Failure(StateStore, false));
      }
    }

    lemma StopsAtRecorded(key: Key, logTag: string, file: Entry, settled: map<string, FileState>, row: FileState)
      requires RecordedFile(key, logTag, file, settled[file.path := row]) && file.path !in settled
      ensures StopsAt(key, logTag, file, Failure(StateStore, false), settled, settled)
      ensures StopsAt(key, logTag, file, Failure(StateStore, false), settled, settled[file.path := row])
    {
    }

    /** `ImportFile` within a run: the state tables keep what the run knows about them. */
    method ReadFile(
      key: Key, logTag: string, file: Entry, ghost fileUpdatedAt: Time, ghost bound: Time,
      ghost base: seq<Row>, ghost since: Time, ghost settled: map<string, FileState>)
      returns (ok: bool, result: FileResult)
      requires InRun(key, since, bound, settled) && Bounded(store.files, file.path, fileUpdatedAt)
      requires PartitionAt(store.parts, key) == PartitionOf(base)
      modifies store
      ensures !ok ==> Upset()
      ensures InRun(key, since, bound, settled) && Bounded(store.files, file.path, fileUpdatedAt)
      ensures GoesOn(key)
      ensures ok ==>
        && PartitionAt(store.parts, key) == PartitionOf(base + RowsOfLines(parser, key, logTag, file.name, contents(file.path)))
        && result == ResultOf(key, logTag, file)
    {
      ok, result := ImportFile(key, logTag, file, base, since);
      MergeFacts(old(store.dates), store.dates, key);
      MergeFacts(old(store.files), store.files, file.path);
      MergesKeepSettled(old(store.files), store.files, settled);
    }

    /** A file with content in which nothing was recognised. */
    predicate Unrecognisable(key: Key, logTag: string, file: Entry) {
      ResultOf(key, logTag, file).rows == 0 && ResultOf(key, logTag, file).nonEmpty > 0
    }

    function UnrecognisableOf(key: Key, logTag: string, files: seq<Entry>): seq<Entry> {
      if files == [] then []
      else
        var last := files[|files| - 1];
        UnrecognisableOf(key, logTag, files[..|files| - 1]) + if Unrecognisable(key, logTag, last) then [last] else []
    }

    lemma {:induction false} UnrecognisableAreMembers(key: Key, logTag: string, files: seq<Entry>)
      ensures forall f :: f in UnrecognisableOf(key, logTag, files) <==> f in files && Unrecognisable(key, logTag, f)
    {
      if files != [] {
        var front, last := files[..|files| - 1], files[|files| - 1];
        UnrecognisableAreMembers(key, logTag, front);
        assert files == front + [last];
      }
    }

    lemma {:induction false} UnrecognisableAreDistinct(key: Key, logTag: string, files: seq<Entry>)
      requires DistinctPaths(files)
      ensures DistinctPaths(UnrecognisableOf(key, logTag, files))
    {
      if files != [] {
        var front, last := files[..|files| - 1], files[|files| - 1];
        UnrecognisableAreDistinct(key, logTag, front);
        UnrecognisableAreMembers(key, logTag, front);
        var found := UnrecognisableOf(key, logTag, front);
        forall f | f in found
          ensures f.path != last.path
        {
          var k :| 0 <= k < |front| && front[k] == f;
          assert files[k].path != files[|files| - 1].path;
        }
      }
    }

    /** `found` lists `files` in order, each settled not after the instant noted with it. */
    ghost predicate Noted(files: seq<Entry>, found: seq<(Entry, Time)>, settled: map<string, FileState>) {
      && |found| == |files|
      && forall i {:trigger found[i]} :: 0 <= i < |found| ==>
           found[i].0 == files[i] && NotedFile(found[i], settled)
    }

    ghost predicate NotedFile(u: (Entry, Time), settled: map<string, FileState>) {
      u.0.path in settled && settled[u.0.path].updatedAt <= u.1
    }

    lemma RecordFile(
      key: Key, logTag: string, done: seq<Entry>, file: Entry, at: Time,
      before: map<string, FileState>, after: map<string, FileState>)
      requires Recorded(key, logTag, done, before) && file.path !in before
      requires Settles(file, ResultOf(key, logTag, file), at, before, after)
      ensures Recorded(key, logTag, done + [file], after)
    {
    }

    lemma NoteFile(
      key: Key, logTag: string, done: seq<Entry>, file: Entry, at: Time, found: seq<(Entry, Time)>,
      before: map<string, FileState>, after: map<string, FileState>)
      requires file.path !in before && Settles(file, ResultOf(key, logTag, file), at, before, after)
      requires Noted(UnrecognisableOf(key, logTag, done), found, before)
      ensures Noted(UnrecognisableOf(key, logTag, done + [file]),
                    if Unrecognisable(key, logTag, file) then found + [(file, at)] else found, after)
    {
      var files := UnrecognisableOf(key, logTag, done);
      NotedStays(files, found, before, after);
      NotedMore(files, found, file, at, after);
      LastUnrecognisable(key, logTag, done, file);
    }

    lemma LastUnrecognisable(key: Key, logTag: string, done: seq<Entry>, file: Entry)
      ensures UnrecognisableOf(key, logTag, done + [file])
           == UnrecognisableOf(key, logTag, done) + if Unrecognisable(key, logTag, file) then [file] else []
    {
      assert (done + [file])[..|done|] == done;
    }

    lemma NotedMore(files: seq<Entry>, found: seq<(Entry, Time)>, file: Entry, at: Time, settled: map<string, FileState>)
      requires Noted(files, found, settled)
      ensures Noted(files + [], found, settled)
      ensures NotedFile((file, at), settled) ==> Noted(files + [file], found + [(file, at)], settled)
    {
      assert files + [] == files;
    }

    lemma NotedStays(
      files: seq<Entry>, found: seq<(Entry, Time)>, before: map<string, FileState>, after: map<string, FileState>)
      requires Noted(files, found, before) && forall p <- before :: p in after && after[p] == before[p]
      ensures Noted(files, found, after)
    {
      forall i | 0 <= i < |found|
        ensures NotedFile(found[i], after)
      {
        assert NotedFile(found[i], before);
      }
    }

    /** The state of the loop over the files after `done` of them. */
    ghost predicate Progressed(
      key: Key, logTag: string, done: seq<Entry>, since: Time, bound: Time, t: Totals,
      unrecognised: seq<(Entry, Time)>, settled: map<string, FileState>)
      reads store
    {
      && InRun(key, since, bound, settled)
      && PartitionAt(store.parts, key) == PartitionOf(RowsOfFiles(parser, contents, key, logTag, done))
      && Counted(key, logTag, done, t, unrecognised, settled)
    }

    /** What the loop has counted and noted. */
    ghost predicate Counted(
      key: Key, logTag: string, done: seq<Entry>, t: Totals, unrecognised: seq<(Entry, Time)>, settled: map<string, FileState>)
    {
      && Recorded(key, logTag, done, settled)
      && Noted(UnrecognisableOf(key, logTag, done), unrecognised, settled)
      && t.rows == |RowsOfFiles(parser, contents, key, logTag, done)|
      && t.filesDone == |done| && t.bytesDone == SumOfSizes(done)
    }

    lemma CountedNext(
      key: Key, logTag: string, targets: seq<Entry>, i: nat, result: FileResult, at: Time, t: Totals,
      unrecognised: seq<(Entry, Time)>, before: map<string, FileState>, after: map<string, FileState>)
      requires i < |targets| && targets[i].path !in before
      requires Counted(key, logTag, targets[..i], t, unrecognised, before)
      requires result == ResultOf(key, logTag, targets[i]) && Settles(targets[i], result, at, before, after)
      ensures Counted(key, logTag, targets[..i + 1], NextTotals(t, targets[i], result),
                      NextUnrecognised(unrecognised, targets[i], result, at), after)
    {
      RowsOfNextFile(key, logTag, targets, i);
      RecordFile(key, logTag, targets[..i], targets[i], at, before, after);
      NoteFile(key, logTag, targets[..i], targets[i], at, unrecognised, before, after);
    }

    function NextTotals(t: Totals, file: Entry, result: FileResult): Totals {
      Totals(t.files, t.bytes, t.filesDone + 1, t.bytesDone + file.size, t.rows + result.rows)
    }

    function NextUnrecognised(found: seq<(Entry, Time)>, file: Entry, result: FileResult, at: Time): seq<(Entry, Time)> {
      if result.rows == 0 && result.nonEmpty > 0 then found + [(file, at)] else found
    }

    /** The loop over the files of the date. */
    method ImportTargets(key: Key, logTag: string, targets: seq<Entry>, bytes: nat, now: Time, ghost since: Time)
      returns (outcome: Option<Outcome>, t: Totals, bound: Time, unrecognised: seq<(Entry, Time)>, ghost run: Run)
      requires InRun(key, since, now, map[]) && DistinctPaths(targets)
      requires PartitionAt(store.parts, key) == PartitionOf([])
      modifies store
      ensures outcome.Some? ==> Excused(outcome.value) && Blamed(outcome.value)
      ensures GoesOn(key) && run.targets == targets
      ensures outcome.Some? ==> StoppedEarly(key, outcome.value, run) && StoppedAt(key, logTag, outcome.value, run)
      ensures outcome.None? ==> Progressed(key, logTag, targets, since, bound, t, unrecognised, run.files)
      ensures outcome.None? ==> t.files == |targets| && t.bytes == bytes
    {
      outcome, t, bound, unrecognised := None, Totals(|targets|, bytes, 0, 0, 0), now, [];
      run := Run(targets, 0, None, map[]);
      var i := 0;
      while outcome.None? && i < |targets|
        invariant 0 <= i <= |targets| && run.targets == targets
        invariant store.Valid() && GoesOn(key)
        invariant outcome.Some? ==> Excused(outcome.value) && Blamed(outcome.value)
        invariant outcome.Some? ==> StoppedEarly(key, outcome.value, run) && StoppedAt(key, logTag, outcome.value, run)
        invariant outcome.None? ==> Progressed(key, logTag, targets[..i], since, bound, t, unrecognised, run.files)
        invariant outcome.None? ==> t.files == |targets| && t.bytes == bytes
      {
        ghost var before := store.trace;
        outcome, t, bound, unrecognised, run := NextTarget(key, logTag, targets, i, t, bound, unrecognised, since, run.files);
        ThenQuiet(old(store.trace), before, store.trace, key);
        i := i + 1;
      }
      assert targets[..|targets|] == targets;
    }

    method NextTarget(
      key: Key, logTag: string, targets: seq<Entry>, i: nat, t: Totals, bound: Time,
      unrecognised: seq<(Entry, Time)>, ghost since: Time, ghost settled: map<string, FileState>)
      returns (outcome: Option<Outcome>, t': Totals, bound': Time, unrecognised': seq<(Entry, Time)>, ghost run: Run)
      requires i < |targets| && DistinctPaths(targets)
      requires Progressed(key, logTag, targets[..i], since, bound, t, unrecognised, settled)
      modifies store
      ensures outcome.Some? ==> Excused(outcome.value) && Blamed(outcome.value)
      ensures store.Valid() && GoesOn(key) && run.targets == targets
      ensures outcome.Some? ==> StoppedEarly(key, outcome.value, run) && StoppedAt(key, logTag, outcome.value, run)
      ensures outcome.None? ==> Progressed(key, logTag, targets[..i + 1], since, bound', t', unrecognised', run.files)
      ensures outcome.None? ==> t'.files == t.files && t'.bytes == t.bytes
    {
      var file := targets[i];
      var result, at;
      ghost var done := targets[..i];
      NextIsNew(key, logTag, targets, i, settled);
      ghost var base := RowsOfFiles(parser, contents, key, logTag, done);
      outcome, result, bound', at, run := ImportTarget(key, logTag, file, t, bound, base, since, settled);
      t', unrecognised' := NextTotals(t, file, result), NextUnrecognised(unrecognised, file, result, at);
      run := run.(targets := targets, done := i);
      if outcome.Some? {
        StopsWithinTargets(key, logTag, targets, i, outcome.value, settled, run);
      } else {
        RowsOfNextFile(key, logTag, targets, i);
        CountedNext(key, logTag, targets, i, result, at, t, unrecognised, settled, run.files);
      }
    }

    lemma StopsWithinTargets(
      key: Key, logTag: string, targets: seq<Entry>, i: nat, outcome: Outcome, settled: map<string, FileState>, run: Run)
      requires i < |targets| && run.targets == targets && run.done == i
      requires Recorded(key, logTag, targets[..i], settled)
      requires StopsAt(key, logTag, targets[i], outcome, settled, run.files)
      requires DistinctPaths(targets)
      ensures StoppedAt(key, logTag, outcome, run)
    {
      forall f | f in targets[..i]
        ensures RecordedFile(key, logTag, f, run.files)
      {
        assert f.path in settled;
      }
      forall p | p in run.files
        ensures exists f :: f in targets && f.path == p
      {
        if p in settled {
          var f :| f in targets[..i] && f.path == p;
          assert f in targets;
        } else {
          assert targets[i] in targets;
        }
      }
      forall f | f in targets && f.path in run.files
        ensures MarkedFailed(f, run.files) || RecordedFile(key, logTag, f, run.files)
      {
        StoppedFile(key, logTag, targets, i, outcome, settled, run.files, f);
      }
    }

    lemma StoppedFile(
      key: Key, logTag: string, targets: seq<Entry>, i: nat, outcome: Outcome,
      settled: map<string, FileState>, files: map<string, FileState>, f: Entry)
      requires i < |targets| && Recorded(key, logTag, targets[..i], settled) && DistinctPaths(targets)
      requires StopsAt(key, logTag, targets[i], outcome, settled, files)
      requires f in targets && f.path in files
      ensures MarkedFailed(f, files) || RecordedFile(key, logTag, f, files)
    {
      if f.path in settled {
        var g :| g in targets[..i] && g.path == f.path;
        OneOfEachPath(targets, f, g);
      } else {
        OneOfEachPath(targets, f, targets[i]);
      }
    }

    lemma OneOfEachPath(files: seq<Entry>, f: Entry, g: Entry)
      requires DistinctPaths(files) && f in files && g in files && f.path == g.path
      ensures f == g
    {
    }

    lemma NextIsNew(key: Key, logTag: string, targets: seq<Entry>, i: nat, settled: map<string, FileState>)
      requires i < |targets| && DistinctPaths(targets) && Recorded(key, logTag, targets[..i], settled)
      ensures targets[i].path !in settled
    {
    }

    lemma RowsOfNextFile(key: Key, logTag: string, targets: seq<Entry>, i: nat)
      requires i < |targets|
      ensures targets[..i + 1] == targets[..i] + [targets[i]]
      ensures RowsOfFiles(parser, contents, key, logTag, targets[..i + 1])
           == RowsOfFiles(parser, contents, key, logTag, targets[..i])
              + RowsOfLines(parser, key, logTag, targets[i].name, contents(targets[i].path))
      ensures SumOfSizes(targets[..i + 1]) == SumOfSizes(targets[..i]) + targets[i].size
    {
    }

    /** No row came out of the date although some file had content: those files and the date are failed. */
    method MarkUnrecognised(
      key: Key, logTag: string, unrecognised: seq<(Entry, Time)>, bound: Time, filesDone: nat, error: string,
      ghost files: seq<Entry>, ghost since: Time, ghost settled: map<string, FileState>)
      returns (outcome: Outcome, ghost run: Run)
      requires InRun(key, since, bound, settled)
      requires Noted(files, unrecognised, settled) && DistinctPaths(files)
      modifies store
      ensures Excused(outcome)
      ensures outcome.Failure? && outcome.cause == Unrecognised && Ended(key, outcome, run) && GoesOn(key)
      ensures store.parts == old(store.parts)
      ensures outcome.marked ==> AllMarked(files, |files|, run.files)
      ensures KeepsOthers(files, settled, run.files)
    {
      outcome := Failure(Unrecognised, false);
      var ok;
      ok, run := MarkFiles(key, logTag, unrecognised, bound, error, files, since, settled);
      ghost var marked := store.trace;
      if ok {
        outcome, run := Abandon(key, logTag, bound, filesDone, error, Unrecognised, run.files);
        ThenQuiet(old(store.trace), marked, store.trace, key);
      }
    }

    /** Only the files of `files` may have changed, and each of those is failed if it is settled with a new row. */
    ghost predicate KeepsOthers(files: seq<Entry>, before: map<string, FileState>, after: map<string, FileState>) {
      && after.Keys <= before.Keys
      && (forall p <- after :: after[p] == before[p] || (after[p].status == Failed && exists f :: f in files && f.path == p))
      && (forall p <- before :: p !in after ==> exists f :: f in files && f.path == p)
    }

    method MarkFiles(
      key: Key, logTag: string, unrecognised: seq<(Entry, Time)>, bound: Time, error: string,
      ghost files: seq<Entry>, ghost since: Time, ghost settled: map<string, FileState>)
      returns (ok: bool, ghost run: Run)
      requires InRun(key, since, bound, settled)
      requires Noted(files, unrecognised, settled) && DistinctPaths(files)
      modifies store
      ensures !ok ==> Faulted()
      ensures GoesOn(key) && store.parts == old(store.parts)
      ensures run.terminal == None && InRun(key, since, bound, run.files)
      ensures ok ==> AllMarked(files, |files|, run.files)
      ensures KeepsOthers(files, settled, run.files)
    {
      run := Run([], 0, None, settled);
      ok := true;
      var i := 0;
      while ok && i < |unrecognised|
        invariant 0 <= i <= |unrecognised|
        invariant GoesOn(key) && store.parts == old(store.parts)
        invariant !ok ==> Faulted()
        invariant run.terminal == None && InRun(key, since, bound, run.files)
        invariant ok ==> Noted(files[i..], unrecognised[i..], run.files)
        invariant ok ==> AllMarked(files, i, run.files)
        invariant KeepsOthers(files, settled, run.files)
      {
        ghost var before, seen := run.files, store.trace;
        var (file, at) := unrecognised[i];
        ghost var row;
        assert unrecognised[i..][0] == unrecognised[i] && NotedFile(unrecognised[i], before);
        ok, row := MarkOne(key, logTag, file, at, error, bound, since, before);
        run := Run([], 0, None, if ok then before[file.path := row] else before - {file.path});
        ThenQuiet(old(store.trace), seen, store.trace, key);
        KeepsOthersAfterOne(files, i, settled, before, run.files);
        if ok {
          NotedRest(files, unrecognised, i, before, run.files);
        }
        i := i + 1;
      }
    }

    lemma KeepsOthersAfterOne(
      files: seq<Entry>, i: nat, settled: map<string, FileState>, before: map<string, FileState>, after: map<string, FileState>)
      requires i < |files| && KeepsOthers(files, settled, before) && files[i].path in before
      requires after == before - {files[i].path}
               || (files[i].path in after && after[files[i].path].status == Failed && after == before[files[i].path := after[files[i].path]])
      ensures KeepsOthers(files, settled, after)
    {
      assert files[i] in files;
    }

    lemma NotedRest(
      files: seq<Entry>, found: seq<(Entry, Time)>, i: nat, before: map<string, FileState>, after: map<string, FileState>)
      requires DistinctPaths(files) && i < |files| && |found| == |files|
      requires Noted(files[i..], found[i..], before)
      requires MarkedFailed(files[i], after) && after == before[files[i].path := after[files[i].path]]
      requires AllMarked(files, i, before)
      ensures Noted(files[i + 1..], found[i + 1..], after) && AllMarked(files, i + 1, after)
    {
    }

    /** The first `n` files are failed. */
    ghost predicate AllMarked(files: seq<Entry>, n: nat, settled: map<string, FileState>) {
      n <= |files| && forall i :: 0 <= i < n ==> MarkedFailed(files[i], settled)
    }

    ghost predicate MarkedFailed(file: Entry, settled: map<string, FileState>) {
      file.path in settled && settled[file.path].status == Failed
    }

    /** Replaces the terminal row of a settled file by a failed one. */
    method MarkOne(
      key: Key, logTag: string, file: Entry, at: Time, error: string,
      ghost bound: Time, ghost since: Time, ghost settled: map<string, FileState>)
      returns (ok: bool, ghost row: FileState)
      requires InRun(key, since, bound, settled) && NotedFile((file, at), settled)
      modifies store
      ensures !ok ==> Faulted()
      ensures GoesOn(key) && store.parts == old(store.parts)
      ensures ok ==> row.status == Failed && InRun(key, since, bound, settled[file.path := row])
      ensures !ok ==> InRun(key, since, bound, settled - {file.path})
    {
      ghost var others := settled - {file.path};
      SettledFacts(settled, file.path);
      ok, row := MarkFileFailed(key, logTag, file, at, error, others);
      MergeFacts(old(store.dates), store.dates, key);
      ReplaceValue(settled, file.path, row);
    }

    lemma SettledFacts(settled: map<string, FileState>, path: string)
      requires FilesSettled(store.files, settled) && path in settled
      ensures FilesSettled(store.files, settled - {path})
      ensures Bounded(store.files, path, settled[path].updatedAt)
    {
    }

    lemma ReplaceValue<K, V>(m: map<K, V>, k: K, v: V)
      ensures (m - {k})[k := v] == m[k := v]
    {
    }

    /** Drops the date's partition of all four tables. */
    method ClearPartition(key: Key, ghost bound: Time) returns (ok: bool)
      requires store.Valid() && Bounded(store.dates, key, bound) && SecondsBefore(store.dates, key, bound)
      modifies store
      ensures !ok ==> Upset()
      ensures store.Valid() && OnlyTouches(key) && Accounted(old(store.trace), store.trace, key, [], false)
      ensures store.loaded == old(store.loaded)
      ensures Bounded(store.dates, key, bound) && SecondsBefore(store.dates, key, bound)
      ensures ok ==> PartitionAt(store.parts, key) == EmptyPartition
    {
      store.OpenWindow(key);
      ghost var inWindow := store.trace;
      var tables := [NatLogs, DailyTotals, DailyIPCounts, DailyFlows];
      ghost var p := PartitionAt(store.parts, key);
      ok := DropAll(tables, key, bound);
      OpenedThenQuiet(old(store.trace), inWindow, store.trace, key);
      DropsEverything(p);
    }

    method DropAll(tables: seq<Table>, key: Key, ghost bound: Time) returns (ok: bool)
      requires store.Valid() && key in store.open
      requires Bounded(store.dates, key, bound) && SecondsBefore(store.dates, key, bound)
      modifies store
      ensures !ok ==> Upset()
      ensures store.Valid() && GoesOn(key) && key in store.open
      ensures Bounded(store.dates, key, bound) && SecondsBefore(store.dates, key, bound)
      ensures ok ==> PartitionAt(store.parts, key) == DropTables(PartitionAt(old(store.parts), key), tables)
    {
      ghost var p := PartitionAt(store.parts, key);
      ok := true;
      var i := 0;
      while ok && i < |tables|
        invariant 0 <= i <= |tables|
        invariant store.Valid() && GoesOn(key) && key in store.open
        invariant Bounded(store.dates, key, bound) && SecondsBefore(store.dates, key, bound)
        invariant !ok ==> Upset()
        invariant ok ==> PartitionAt(store.parts, key) == DropTables(p, tables[..i])
      {
        assert tables[..i + 1][..i] == tables[..i];
        ghost var before := store.trace;
        ok := DropOne(tables[i], key, bound);
        ThenQuiet(old(store.trace), before, store.trace, key);
        i := i + 1;
      }
      assert tables[..|tables|] == tables;
    }

    function DropTables(p: Partition, tables: seq<Table>): Partition {
      if tables == [] then p else DropTable(DropTables(p, tables[..|tables| - 1]), tables[|tables| - 1])
    }

    lemma DropsEverything(p: Partition)
      ensures DropTables(p, [NatLogs, DailyTotals, DailyIPCounts, DailyFlows]) == EmptyPartition
    {
      var t1, t2, t3 := [NatLogs], [NatLogs, DailyTotals], [NatLogs, DailyTotals, DailyIPCounts];
      assert t1[..0] == [] && DropTables(p, t1) == DropTable(DropTables(p, []), NatLogs);
      assert t2[..1] == t1 && DropTables(p, t2) == DropTable(DropTables(p, t1), DailyTotals);
      assert t3[..2] == t2 && DropTables(p, t3) == DropTable(DropTables(p, t2), DailyIPCounts);
      assert [NatLogs, DailyTotals, DailyIPCounts, DailyFlows][..3] == t3;
    }

    method DropOne(table: Table, key: Key, ghost bound: Time) returns (ok: bool)
      requires store.Valid() && key in store.open
      requires Bounded(store.dates, key, bound) && SecondsBefore(store.dates, key, bound)
      modifies store
      ensures !ok ==> Upset()
      ensures store.Valid() && GoesOn(key) && key in store.open
      ensures Bounded(store.dates, key, bound) && SecondsBefore(store.dates, key, bound)
      ensures ok ==> PartitionAt(store.parts, key) == DropTable(PartitionAt(old(store.parts), key), table)
    {
      ok := store.DropPartition(table, key);
      MergeFacts(old(store.dates), store.dates, key);
    }

    /** The first importing row: from here on the date reads as importing. */
    method BeginRun(key: Key, detail: DateDetail, now: Time) returns (ok: bool, ghost since: Time)
      requires store.Valid() && SecondsBefore(store.dates, key, now)
      modifies store
      ensures !ok ==> Faulted()
      ensures store.Valid() && GoesOn(key) && store.parts == old(store.parts)
      ensures ok ==> InRun(key, since, now, map[]) && HasRow(store.dates, key, Importing, detail)
    {
      ghost var merged;
      var row := StateRow(key, Importing, now, detail);
      LaterInEverySecond(store.dates, row);
      ok, merged := store.WriteDateState(row);
      WritesGoOn(store.AsStored(row));
      since := store.AsStored(row).updatedAt;
      MergeFacts(old(store.dates), merged, key);
      if ok {
        AppendFirstImporting(merged, store.AsStored(row), now);
      }
    }

    /** The clock reading, or the next second after the latest row of the date if that is later. */
    ghost predicate StartsAt(log: multiset<DateState>, key: Key, clock: Time, now: Time) {
      && clock <= now
      && exists found: Option<DateState> ::
           && MayRead(log, key, found)
           && now == if found.Some? then TerminalStateTimestamp(found.value.updatedAt, clock) else clock
    }

    /** An instant in a later second than the latest date row, and the rows it follows. */
    method StartTime(key: Key, clock: Time) returns (ok: bool, now: Time)
      requires store.Valid()
      modifies store
      ensures old(store.faults) <= store.faults
      ensures if ok then StartsAt(old(store.dates), key, clock, now) else Faulted()
      ensures store.Valid() && store.OnlyMerges()
      ensures ok ==> SecondsBefore(store.dates, key, now) && Bounded(store.dates, key, now)
    {
      now := clock;
      var found;
      ok, found := store.LatestDateState(key);
      assert ok ==> MayRead(old(store.dates), key, found);
      if ok && found.Some? {
        now := TerminalStateTimestamp(found.value.updatedAt, now);
        assert forall r <- store.dates :: r.key == key ==> r.updatedAt <= found.value.updatedAt;
      }
    }

    /** The last write of a run that has read all its files. */
    method FinishRun(
      key: Key, logTag: string, t: Totals, bound: Time,
      ghost rows: seq<Row>, ghost since: Time, ghost settled: map<string, FileState>)
      returns (ok: bool, ghost row: DateState)
      requires InRun(key, since, bound, settled)
      requires PartitionAt(store.parts, key) == PartitionOf(rows) && t.rows == |rows|
      modifies store
      ensures !ok ==> Faulted()
      ensures store.Valid() && OnlyTouches(key) && FilesSettled(store.files, settled)
      ensures store.parts == old(store.parts) && key !in store.open
      ensures Ran(old(store.trace), store.trace, key, rows, true)
      ensures key in store.loaded && store.loaded[key] == rows
      ensures ok ==>
        && StrictlyLatest(store.dates, row) && row.key == key
        && row.status == (if rows == [] then NoData else Ready)
        && row.detail == DateDetail(logTag, t.files, t.filesDone, |rows|, t.bytes, t.bytes, "", 0, 0, "")
    {
      store.NoteLoaded(key, rows, since);
      ghost var noted := store.trace;
      var now := Clock();
      var status := if t.rows == 0 then NoData else Ready;
      var written := StateRow(
        key, status, TerminalStateTimestamp(bound, now), Progress(logTag, t.files, t.filesDone, t.rows, t.bytes, t.bytes, ""));
      ok := WriteTerminal(written, bound, settled);
      row := store.AsStored(written);
      NotedThenWritten(old(store.trace), noted, store.trace, key, rows, row);
    }

    /** The row counts are noted and then perhaps written: every world from there on has the partition loaded. */
    lemma NotedThenWritten(a: seq<World>, b: seq<World>, c: seq<World>, key: Key, rows: seq<Row>, row: DateState)
      requires a != [] && a <= b && |b| == |a| + 1 && b <= c
      requires b[|a|] == a[|a| - 1].(loaded := a[|a| - 1].loaded[key := rows])
      requires key !in a[|a| - 1].open && PartitionAt(a[|a| - 1].parts, key) == PartitionOf(rows)
      requires row.key == key && row.detail.rowsImported == |rows|
      requires forall i :: |b| <= i < |c| ==> Shrunk(b[|a|], c[i]) || Wrote(b[|a|], c[i], row)
      ensures Ran(a, c, key, rows, true)
    {
      forall i | |a| <= i < |c|
        ensures LoadedIn(a[|a| - 1], c[i], key, rows)
      {
        assert i < |b| ==> c[i] == b[|a|];
        WrittenIsLoaded(a[|a| - 1], b[|a|], c[i], key, rows, row);
      }
    }

    lemma WrittenIsLoaded(before: World, noted: World, w: World, key: Key, rows: seq<Row>, row: DateState)
      requires noted == before.(loaded := before.loaded[key := rows])
      requires key !in before.open && PartitionAt(before.parts, key) == PartitionOf(rows)
      requires row.key == key && row.detail.rowsImported == |rows|
      requires w == noted || Shrunk(noted, w) || Wrote(noted, w, row)
      ensures LoadedIn(before, w, key, rows)
    {
      UpdateElsewhere(before.loaded, key, rows);
      if w.open == before.open - {key} {
        RemoveTwice(before.open, key);
      }
    }

    /** A run that succeeded has rebuilt the partition and every aggregate from the date's files. */
    ghost predicate Rebuilt(key: Key, logTag: string, outcome: Outcome, run: Run)
      reads store
    {
      var rows := RowsOfFiles(parser, contents, key, logTag, run.targets);
      && PartitionAt(store.parts, key) == PartitionOf(rows)
      && key in store.loaded && store.loaded[key] == rows
      && outcome == Imported(|rows|) && (rows == [] ==> !HasText(parser, contents, run.targets))
      && run.terminal.Some?
      && run.terminal.value.detail == FinishedDetail(logTag, run.targets, |rows|)
      && run.terminal.value.status == (if rows == [] then NoData else Ready)
      && Recorded(key, logTag, run.targets, run.files)
    }

    /** All files and all bytes are done, and no retry is counted. */
    ghost function FinishedDetail(logTag: string, targets: seq<Entry>, rows: nat): DateDetail {
      DateDetail(logTag, |targets|, |targets|, rows, SumOfSizes(targets), SumOfSizes(targets), "", 0, 0, "")
    }

    /** What a run leaves behind, however it ends. */
    ghost predicate Explained(key: Key, logTag: string, outcome: Outcome, run: Run)
      reads store
    {
      && Ended(key, outcome, run)
      && (outcome.Imported? ==> Rebuilt(key, logTag, outcome, run))
      && (outcome.Failure? && outcome.cause in {StateStore, FileRead} ==> StoppedAt(key, logTag, outcome, run))
      && (outcome.Failure? && outcome.cause == Unrecognised ==> Refused(key, logTag, outcome, run))
    }

    /** No row came out of the files; those that had content are failed, and the others recorded as what they are. */
    ghost predicate Refused(key: Key, logTag: string, outcome: Outcome, run: Run) {
      && !HasLogLine(parser, contents, run.targets, key.date) && HasText(parser, contents, run.targets)
      && (forall f <- run.targets :: f.path in run.files && !Unrecognisable(key, logTag, f) ==> RecordedFile(key, logTag, f, run.files))
      && (forall f <- run.targets :: f.path in run.files || Unrecognisable(key, logTag, f))
      && (forall f <- run.targets :: f.path in run.files ==> MarkedFailed(f, run.files) || RecordedFile(key, logTag, f, run.files))
      && (outcome.Failure? && outcome.marked ==>
            forall f <- UnrecognisableOf(key, logTag, run.targets) :: MarkedFailed(f, run.files))
    }

    /** The rows of the run are noted at its end; they may be by a run whose last write failed. */
    predicate MayHaveLoaded(outcome: Outcome, done: nat, total: nat) {
      outcome.Imported? || (outcome.cause == StateStore && done == total > 0)
    }

    /** The part of a run that comes after the partitions are dropped. */
    method ImportCleared(source: Source, date: int, targets: seq<Entry>, now: Time)
      returns (outcome: Outcome, ghost run: Run)
      requires store.Valid() && DistinctPaths(targets)
      requires SecondsBefore(store.dates, Key(source.id, date), now) && targets != []
      requires PartitionAt(store.parts, Key(source.id, date)) == EmptyPartition
      modifies store
      ensures Excused(outcome) && Blamed(outcome)
      ensures Explained(Key(source.id, date), source.logTag, outcome, run) && OnlyTouches(Key(source.id, date))
      ensures run.targets == targets && RunRan(source, date, outcome, run)
      ensures outcome.Failure? ==> outcome.cause in {StateStore, FileRead, Unrecognised}
    {
      var key := Key(source.id, date);
      var bytes := TotalBytes(targets);
      var ok;
      ghost var since;
      ok, since := BeginRun(key, Progress(source.logTag, |targets|, 0, 0, bytes, 0, ""), now);
      if !ok {
        return Failure(StateStore, false), Run(targets, 0, None, map[]);
      }
      ghost var begun := store.trace;
      assert EmptyPartition == PartitionOf([]) by {
        EmptyIsConsistent();
      }
      var stopped, t, bound, unrecognised;
      stopped, t, bound, unrecognised, run := ImportTargets(key, source.logTag, targets, bytes, now, since);
      ghost var read := store.trace;
      ThenQuiet(old(store.trace), begun, read, key);
      if stopped.Some? {
        return stopped.value, run;
      }
      outcome, run := Conclude(source, date, targets, t, bound, unrecognised, since, run);
      ThenRan(old(store.trace), read, store.trace, key, LoadedRows(source, date, run),
              MayHaveLoaded(outcome, run.done, |run.targets|));
    }

    /** The rows of the files of a run. */
    function LoadedRows(source: Source, date: int, run: Run): seq<Row> {
      RowsOfFiles(parser, contents, Key(source.id, date), source.logTag, run.targets)
    }

    /** Every world since the partitions were dropped is one of a run under way, or of one that has read all its files. */
    twostate predicate RunRan(source: Source, date: int, outcome: Outcome, run: Run)
      reads store
    {
      Ran(old(store.trace), store.trace, Key(source.id, date), LoadedRows(source, date, run),
          MayHaveLoaded(outcome, run.done, |run.targets|))
    }

    /** The end of a run whose files were all read. */
    method Conclude(
      source: Source, date: int, targets: seq<Entry>, t: Totals, bound: Time, unrecognised: seq<(Entry, Time)>,
      ghost since: Time, ghost before: Run)
      returns (outcome: Outcome, ghost run: Run)
      requires DistinctPaths(targets) && before.targets == targets != []
      requires Progressed(Key(source.id, date), source.logTag, targets, since, bound, t, unrecognised, before.files)
      requires t.files == |targets| && t.bytes == SumOfSizes(targets)
      modifies store
      ensures Excused(outcome) && Blamed(outcome)
      ensures Explained(Key(source.id, date), source.logTag, outcome, run) && OnlyTouches(Key(source.id, date))
      ensures run.targets == targets && RunRan(source, date, outcome, run)
      ensures outcome.Failure? ==> outcome.cause in {StateStore, Unrecognised}
    {
      var key := Key(source.id, date);
      ghost var rows := RowsOfFiles(parser, contents, key, source.logTag, targets);
      WhenUnrecognisable(key, source.logTag, targets);
      if t.rows == 0 && |unrecognised| > 0 {
        ghost var refused := UnrecognisableOf(key, source.logTag, targets);
        UnrecognisableAreDistinct(key, source.logTag, targets);
        outcome, run := MarkUnrecognised(
          key, source.logTag, unrecognised, bound, t.filesDone, "", refused, since, before.files);
        run := run.(targets := targets, done := |targets|);
        RefusedAfterMarks(key, source.logTag, outcome, run, before.files);
        return;
      }
      var ok;
      ghost var row;
      ok, row := FinishRun(key, source.logTag, t, bound, rows, since, before.files);
      run := Run(targets, |targets|, if ok then Some(row) else None, before.files);
      outcome := if ok then Imported(t.rows) else Failure(StateStore, false);
      AllDone(key, source.logTag, run);
    }

    /** Of a date without rows some file is unrecognisable exactly if it has text. */
    lemma WhenUnrecognisable(key: Key, logTag: string, files: seq<Entry>)
      ensures RowsOfFiles(parser, contents, key, logTag, files) != [] <==> HasLogLine(parser, contents, files, key.date)
      ensures !HasLogLine(parser, contents, files, key.date) ==>
                (UnrecognisableOf(key, logTag, files) != [] <==> HasText(parser, contents, files))
    {
      RowsOfNoFile(parser, contents, key, logTag, files);
      UnrecognisableAreMembers(key, logTag, files);
      var found := UnrecognisableOf(key, logTag, files);
      if found != [] {
        assert found[0] in found;
        TextOfLines(parser, contents(found[0].path));
      }
      if f, line :| f in files && line in contents(f.path) && !parser.blank(line) {
        TextOfLines(parser, contents(f.path));
        RowsOfNoLine(parser, key, logTag, f.name, contents(f.path));
        assert !HasLogLine(parser, contents, files, key.date) ==> f in found;
      }
    }

    lemma AllDone(key: Key, logTag: string, run: Run)
      requires Recorded(key, logTag, run.targets, run.files) && run.done == |run.targets|
      ensures StoppedAt(key, logTag, Failure(StateStore, false), run)
    {
      assert run.targets[..run.done] == run.targets;
    }

    lemma RefusedAfterMarks(key: Key, logTag: string, outcome: Outcome, run: Run, before: map<string, FileState>)
      requires !HasLogLine(parser, contents, run.targets, key.date) && HasText(parser, contents, run.targets)
      requires Recorded(key, logTag, run.targets, before) && DistinctPaths(run.targets)
      requires KeepsOthers(UnrecognisableOf(key, logTag, run.targets), before, run.files)
      requires outcome.Failure? && outcome.marked ==>
        var refused := UnrecognisableOf(key, logTag, run.targets);
        AllMarked(refused, |refused|, run.files)
      ensures Refused(key, logTag, outcome, run)
    {
      forall f | f in run.targets
        ensures f.path in run.files || Unrecognisable(key, logTag, f)
        ensures f.path in run.files ==> MarkedFailed(f, run.files) || RecordedFile(key, logTag, f, run.files)
        ensures f.path in run.files && !Unrecognisable(key, logTag, f) ==> RecordedFile(key, logTag, f, run.files)
      {
        RefusedFile(key, logTag, run.targets, before, run.files, f);
      }
    }

    lemma RefusedFile(
      key: Key, logTag: string, targets: seq<Entry>, before: map<string, FileState>, after: map<string, FileState>, f: Entry)
      requires Recorded(key, logTag, targets, before) && DistinctPaths(targets) && f in targets
      requires KeepsOthers(UnrecognisableOf(key, logTag, targets), before, after)
      ensures f.path in after || Unrecognisable(key, logTag, f)
      ensures f.path in after ==> MarkedFailed(f, after) || RecordedFile(key, logTag, f, after)
      ensures f.path in after && !Unrecognisable(key, logTag, f) ==> RecordedFile(key, logTag, f, after)
    {
      assert RecordedFile(key, logTag, f, before);
      if g :| g in UnrecognisableOf(key, logTag, targets) && g.path == f.path {
        UnrecognisableAreMembers(key, logTag, targets);
        OneOfEachPath(targets, f, g);
      } else {
        assert f.path in after && after[f.path] == before[f.path];
      }
    }

    lemma EmptyIsConsistent()
      ensures EmptyPartition == PartitionOf([])
    {
    }

    method TotalBytes(files: seq<Entry>) returns (total: nat)
      ensures total == SumOfSizes(files)
    {
      total := 0;
      for i := 0 to |files|
        invariant total == SumOfSizes(files[..i])
      {
        assert files[..i + 1][..i] == files[..i];
        total := total + files[i].size;
      }
      assert files[..|files|] == files;
    }

    function SumOfSizes(files: seq<Entry>): nat {
      if files == [] then 0 else SumOfSizes(files[..|files| - 1]) + files[|files| - 1].size
    }

    /**
      Rebuilds one date of one source from the archives that `dir` lists; `clock` is the first clock
      reading, and `now` the instant that the run takes for its start.
     */
    method ImportDate(source: Source, date: int, dir: seq<Entry>, clock: Time)
      returns (outcome: Outcome, ghost run: Run, ghost now: Time)
      requires store.Valid() && DistinctPaths(dir)
      modifies store
      ensures Excused(outcome) && Blamed(outcome)
      ensures Explained(Key(source.id, date), source.logTag, outcome, run) && OnlyTouches(Key(source.id, date))
      ensures run.targets == TargetFiles(dir, now, date)
              || (outcome.Failure? && outcome.cause in {StateStore, Scan} && run.targets == [])
      ensures StartsAt(old(store.dates), Key(source.id, date), clock, now)
              || (outcome == Failure(StateStore, false) && run.targets == [])
      ensures outcome.Failure? && outcome.cause == NoFiles ==> !HasArchive(dir, now, date)
      ensures outcome.Imported? || outcome.cause in {Drop, FileRead, Unrecognised} ==> HasArchive(dir, now, date)
      ensures RunAccounted(source, date, outcome, run)
      ensures outcome.Failure? && outcome.cause in {Scan, NoFiles} ==>
        store.parts == old(store.parts) && store.loaded == old(store.loaded)
    {
      var key := Key(source.id, date);
      var ok, start := StartTime(key, clock);
      ghost var started := store.trace;
      outcome, run, now := Failure(StateStore, false), Run([], 0, None, map[]), start;
      NotListed(key, source.logTag);
      if ok {
        outcome, run := ListAndImport(source, date, dir, start);
      }
      AfterMerges(old(store.trace), started, store.trace, key, LoadedRows(source, date, run),
                  MayHaveLoaded(outcome, run.done, |run.targets|));
    }

    lemma NotListed(key: Key, logTag: string)
      requires store.Valid()
      ensures Explained(key, logTag, Failure(StateStore, false), Run([], 0, None, map[]))
      ensures Explained(key, logTag, Failure(Scan, false), Run([], 0, None, map[]))
    {
    }

    /** The part of a run that comes after its start time is known. */
    method ListAndImport(source: Source, date: int, dir: seq<Entry>, now: Time) returns (outcome: Outcome, ghost run: Run)
      requires store.Valid() && DistinctPaths(dir)
      requires SecondsBefore(store.dates, Key(source.id, date), now) && Bounded(store.dates, Key(source.id, date), now)
      modifies store
      ensures Excused(outcome) && Blamed(outcome)
      ensures Explained(Key(source.id, date), source.logTag, outcome, run) && OnlyTouches(Key(source.id, date))
      ensures run.targets == TargetFiles(dir, now, date) || (outcome == Failure(Scan, false) && run.targets == [])
      ensures RunAccounted(source, date, outcome, run)
      ensures outcome.Failure? && outcome.cause == NoFiles ==> !HasArchive(dir, now, date)
      ensures outcome.Imported? || outcome.cause in {Drop, FileRead, Unrecognised} ==> HasArchive(dir, now, date)
      ensures outcome.Failure? && outcome.cause in {Scan, NoFiles} ==>
        store.parts == old(store.parts) && store.loaded == old(store.loaded)
    {
      var scanned := Proceed();
      if !scanned {
        NotListed(Key(source.id, date), source.logTag);
        return Failure(Scan, false), Run([], 0, None, map[]);
      }
      var targets := TargetFiles(dir, now, date);
      NoTargets(dir, now, date);
      if |targets| == 0 {
        outcome, run := Abandon(Key(source.id, date), source.logTag, now, 0, "", NoFiles, map[]);
      } else {
        TargetsAreDistinct(dir, now, date);
        outcome, run := ImportListed(source, date, targets, now);
      }
    }

    /** Every world of a run is accounted for, from its first read to its last write. */
    twostate predicate RunAccounted(source: Source, date: int, outcome: Outcome, run: Run)
      reads store
    {
      Accounted(old(store.trace), store.trace, Key(source.id, date), LoadedRows(source, date, run),
                MayHaveLoaded(outcome, run.done, |run.targets|))
    }

    /** Importing a date again from the same files changes neither its rows nor its aggregates. */
    method ImportTwice(source: Source, date: int, dir: seq<Entry>, clock: Time, clock': Time)
      returns (first: Outcome, second: Outcome, ghost run1: Run, ghost run2: Run, ghost between: map<Key, Partition>)
      requires store.Valid() && DistinctPaths(dir)
      modifies store
      ensures store.Valid()
      ensures first.Imported? && second.Imported? && run1.targets == run2.targets ==>
        && first == second
        && PartitionAt(store.parts, Key(source.id, date)) == PartitionAt(between, Key(source.id, date))
      ensures store.parts - {Key(source.id, date)} == between - {Key(source.id, date)}
    {
      ghost var now1, now2;
      first, run1, now1 := ImportDate(source, date, dir, clock);
      between := store.parts;
      second, run2, now2 := ImportDate(source, date, dir, clock');
    }

    method ImportListed(source: Source, date: int, targets: seq<Entry>, now: Time)
      returns (outcome: Outcome, ghost run: Run)
      requires store.Valid() && DistinctPaths(targets) && targets != []
      requires SecondsBefore(store.dates, Key(source.id, date), now) && Bounded(store.dates, Key(source.id, date), now)
      modifies store
      ensures Excused(outcome) && Blamed(outcome)
      ensures Explained(Key(source.id, date), source.logTag, outcome, run) && OnlyTouches(Key(source.id, date))
      ensures run.targets == targets
      ensures outcome.Failure? ==> outcome.cause !in {Scan, NoFiles}
      ensures RunAccounted(source, date, outcome, run)
    {
      var key := Key(source.id, date);
      var ok := ClearPartition(key, now);
      ghost var cleared := store.trace;
      if ok {
        outcome, run := ImportCleared(source, date, targets, now);
      } else {
        outcome, run := Abandon(key, source.logTag, now, 0, "", Drop, map[]);
        run := run.(targets := targets);
      }
      ThenAccounted(old(store.trace), cleared, store.trace, key, LoadedRows(source, date, run),
                    MayHaveLoaded(outcome, run.done, |run.targets|));
    }
  }

  /** One call of `ImportDate`: what to import, and what the disk holds at that moment. */
  datatype Request = Request(
    source: Source, date: int, dir: seq<Entry>, clock: Time, parser: Parser, contents: string -> seq<string>, batchSize: int)

  function KeyOf(q: Request): Key {
    Key(q.source.id, q.date)
  }

  /** An archive of the date was there when the request came, with a line that is recognised. */
  ghost predicate FindsLogLine(q: Request) {
    exists f, line :: f in q.dir && IsArchive(f, q.clock, q.date) && line in q.contents(f.path) && q.parser.payload(line, q.date).Some?
  }

  /** Which failures a request cannot have, and which others it cannot have if no call failed. */
  ghost predicate Justified(q: Request, outcome: Outcome, faultless: bool) {
    match outcome
    case Imported(rows) => FindsLogLine(q) ==> rows > 0
    case Failure(cause, marked) =>
      && (cause == NoFiles ==> !HasArchive(q.dir, q.clock, q.date))
      && (cause == Unrecognised ==> !FindsLogLine(q))
      && (faultless ==> marked && cause in {NoFiles, Unrecognised})
  }

  ghost predicate AllJustified(requests: seq<Request>, outcomes: seq<Outcome>, faultless: bool) {
    |outcomes| == |requests| && forall i :: 0 <= i < |requests| ==> Justified(requests[i], outcomes[i], faultless)
  }

  lemma OneMoreJustified(
    requests: seq<Request>, outcomes: seq<Outcome>, outcome: Outcome, before: bool, since: bool, faultless: bool)
    requires requests != [] && AllJustified(requests[..|requests| - 1], outcomes, before)
    requires Justified(requests[|requests| - 1], outcome, since) && (faultless ==> before && since)
    ensures AllJustified(requests, outcomes + [outcome], faultless)
  {
    var front := requests[..|requests| - 1];
    forall i | 0 <= i < |requests|
      ensures Justified(requests[i], (outcomes + [outcome])[i], faultless)
    {
      assert i < |front| ==> Justified(front[i], outcomes[i], before);
    }
  }

  lemma JustifiedAt(q: Request, outcome: Outcome, now: Time)
    requires q.clock <= now
    requires outcome.Imported? ==> outcome.rows == |RowsAt(q, now)|
    requires outcome.Failure? && outcome.cause == NoFiles ==> !HasArchive(q.dir, now, q.date)
    requires outcome.Failure? && outcome.cause == Unrecognised ==>
               !HasLogLine(q.parser, q.contents, TargetFiles(q.dir, now, q.date), q.date)
    ensures Justified(q, outcome, false)
  {
    FindsTargets(q, now);
    RowsOfNoFile(q.parser, q.contents, KeyOf(q), q.source.logTag, TargetFiles(q.dir, now, q.date));
  }

  /** What was an archive when the request came is among its files later. */
  lemma FindsTargets(q: Request, now: Time)
    requires q.clock <= now
    ensures HasArchive(q.dir, q.clock, q.date) ==> HasArchive(q.dir, now, q.date)
    ensures FindsLogLine(q) ==> HasLogLine(q.parser, q.contents, TargetFiles(q.dir, now, q.date), q.date)
  {
    TargetsAreDistinct(q.dir, now, q.date);
  }

  /** The rows of the files that the listing of `q` has for its date at the moment `now`. */
  function RowsAt(q: Request, now: Time): seq<Row> {
    RowsOfFiles(q.parser, q.contents, KeyOf(q), q.source.logTag, TargetFiles(q.dir, now, q.date))
  }

  /** `rows` is what one of the requests finds in its files. */
  ghost predicate IsFound(requests: seq<Request>, key: Key, rows: seq<Row>) {
    exists q, now :: q in requests && KeyOf(q) == key && q.clock <= now && rows == RowsAt(q, now)
  }

  ghost predicate LoadedByRequests(w: World, requests: seq<Request>) {
    forall key <- w.loaded :: IsFound(requests, key, w.loaded[key])
  }

  ghost predicate AllLoadedByRequests(trace: seq<World>, requests: seq<Request>) {
    forall w <- trace :: LoadedByRequests(w, requests)
  }

  /** The state row says ready, and the partition holds all rows of the files of one request and their aggregates. */
  ghost predicate IsWhole(w: World, row: DateState, requests: seq<Request>) {
    exists rows ::
      && IsFound(requests, row.key, rows)
      && PartitionAt(w.parts, row.key) == PartitionOf(rows)
      && row.detail.rowsImported == |rows|
  }

  lemma MoreRequests(w: World, requests: seq<Request>, more: seq<Request>)
    requires LoadedByRequests(w, requests) && forall q <- requests :: q in more
    ensures LoadedByRequests(w, more)
  {
    forall key | key in w.loaded
      ensures IsFound(more, key, w.loaded[key])
    {
      FoundAmongMore(requests, more, key, w.loaded[key]);
    }
  }

  lemma FoundAmongMore(requests: seq<Request>, more: seq<Request>, key: Key, rows: seq<Row>)
    requires IsFound(requests, key, rows) && forall q <- requests :: q in more
    ensures IsFound(more, key, rows)
  {
    var q, now :| q in requests && KeyOf(q) == key && q.clock <= now && rows == RowsAt(q, now);
    assert q in more;
  }

  /** A run of the last request adds only its own rows to what is noted as loaded. */
  lemma RunLoadsItsRows(
    before: seq<World>, after: seq<World>, requests: seq<Request>, rows: seq<Row>, mayLoad: bool)
    requires requests != [] && AllLoadedByRequests(before, requests[..|requests| - 1])
    requires Accounted(before, after, KeyOf(requests[|requests| - 1]), rows, mayLoad)
    requires mayLoad ==> IsFound([requests[|requests| - 1]], KeyOf(requests[|requests| - 1]), rows)
    ensures AllLoadedByRequests(after, requests)
  {
    var front, q := requests[..|requests| - 1], requests[|requests| - 1];
    forall w | w in after
      ensures LoadedByRequests(w, requests)
    {
      var i :| 0 <= i < |after| && after[i] == w;
      var last := before[|before| - 1];
      MoreRequests(last, front, requests);
      if i < |before| {
        assert w == before[i];
        MoreRequests(w, front, requests);
      } else if !Still(last, w, KeyOf(q)) {
        FoundAmongMore([q], requests, KeyOf(q), rows);
        LoadedAdds(last, w, KeyOf(q), rows, requests);
      }
    }
  }

  lemma LoadedAdds(before: World, w: World, key: Key, rows: seq<Row>, requests: seq<Request>)
    requires LoadedByRequests(before, requests) && IsFound(requests, key, rows) && LoadedIn(before, w, key, rows)
    ensures LoadedByRequests(w, requests)
  {
    forall k | k in w.loaded
      ensures IsFound(requests, k, w.loaded[k])
    {
      if k != key {
        SameElsewhere(before.loaded, w.loaded, key, k);
      }
    }
  }

  /** Request `j` ended with a terminal row, and no later one is for the same source and date. */
  predicate Settled(requests: seq<Request>, outcomes: seq<Outcome>, j: nat) {
    && j < |requests| == |outcomes|
    && (outcomes[j].Imported? || outcomes[j].marked)
    && forall k :: j < k < |requests| ==> KeyOf(requests[k]) != KeyOf(requests[j])
  }

  /** A run that ended in a terminal row, or could not list its directory. */
  predicate IsRecorded(outcome: Outcome) {
    outcome.Imported? || outcome.marked || outcome.cause == Scan
  }

  predicate AllRecorded(outcomes: seq<Outcome>) {
    forall outcome <- outcomes :: IsRecorded(outcome)
  }

  /** The one row of `key` that is newer than all its others has this status, so every read answers with it. */
  ghost predicate ReadsAs(dates: multiset<DateState>, key: Key, status: Status) {
    exists row :: SoleLatest(dates, row) && row.key == key && row.status == status
  }

  /** The partition holds these rows, and the state table says so. */
  ghost predicate Holds(w: World, key: Key, rows: seq<Row>) {
    PartitionAt(w.parts, key) == PartitionOf(rows) && ReadsAs(w.dates, key, if rows == [] then NoData else Ready)
  }

  /** The window of the request's key is closed, and if the request succeeded, the partition holds its rows. */
  ghost predicate Kept(w: World, q: Request, outcome: Outcome) {
    && KeyOf(q) !in w.open
    && (outcome.Imported? ==> exists now ::
          q.clock <= now && outcome.rows == |RowsAt(q, now)| && Holds(w, KeyOf(q), RowsAt(q, now)))
  }

  ghost predicate SettledAreKept(w: World, requests: seq<Request>, outcomes: seq<Outcome>)
    requires |requests| == |outcomes|
  {
    forall j :: 0 <= j < |requests| && Settled(requests, outcomes, j) ==> Kept(w, requests[j], outcomes[j])
  }

  /**
    Any sequence of imports of any sources and dates. In every world on the way, a date that reads as
    ready and is not being dropped holds exactly the rows of the files of one of the requests.
   */
  method ImportMany(store: Store, requests: seq<Request>) returns (outcomes: seq<Outcome>)
    requires store.Valid() && forall w <- store.trace :: w.loaded == map[]
    requires forall q <- requests :: DistinctPaths(q.dir)
    modifies store
    ensures store.Valid() && old(store.trace) <= store.trace
    ensures forall w, row :: w in store.trace && IsLatest(w.dates, row) && row.status == Ready && row.key !in w.open ==>
              IsWhole(w, row, requests)
    ensures AllLoadedByRequests(store.trace, requests)
    ensures |outcomes| == |requests| && SettledAreKept(store.Current(), requests, outcomes)
    ensures old(store.faults) == store.faults ==> AllRecorded(outcomes)
    ensures AllJustified(requests, outcomes, old(store.faults) == store.faults && old(store.upsets) == store.upsets)
  {
    outcomes := [];
    for i := 0 to |requests|
      invariant store.Valid() && old(store.trace) <= store.trace
      invariant AllLoadedByRequests(store.trace, requests[..i])
      invariant |outcomes| == i && SettledAreKept(store.Current(), requests[..i], outcomes)
      invariant old(store.faults) <= store.faults && (old(store.faults) == store.faults ==> AllRecorded(outcomes))
      invariant old(store.upsets) <= store.upsets
      invariant AllJustified(
        requests[..i], outcomes, old(store.faults) == store.faults && old(store.upsets) == store.upsets)
    {
      assert requests[i] in requests && requests[..i + 1][..i] == requests[..i];
      ghost var faults, upsets := store.faults, store.upsets;
      var outcome := ImportOne(store, requests[..i + 1], outcomes);
      OneMoreJustified(requests[..i + 1], outcomes, outcome,
                       old(store.faults) == faults && old(store.upsets) == upsets,
                       faults == store.faults && upsets == store.upsets,
                       old(store.faults) == store.faults && old(store.upsets) == store.upsets);
      outcomes := outcomes + [outcome];
    }
    assert requests[..|requests|] == requests;
    forall w, row | w in store.trace && IsLatest(w.dates, row) && row.status == Ready && row.key !in w.open
      ensures IsWhole(w, row, requests)
    {
      ReadyIsWhole(store.trace, w, row, requests);
    }
  }

  lemma ReadyIsWhole(trace: seq<World>, w: World, row: DateState, requests: seq<Request>)
    requires AllSafe(trace) && AllLoadedByRequests(trace, requests) && w in trace
    requires IsLatest(w.dates, row) && row.status == Ready && row.key !in w.open
    ensures IsWhole(w, row, requests)
  {
    SafeThroughout(trace, w);
    ReadyMeansComplete(w, row);
    assert LoadedByRequests(w, requests);
  }

  lemma {:induction false} SafeThroughout(trace: seq<World>, w: World)
    requires AllSafe(trace) && w in trace
    ensures Safe(w)
  {
    if w != trace[|trace| - 1] {
      SafeThroughout(trace[..|trace| - 1], w);
    }
  }

  /** The last of `requests`, after the others. */
  method ImportOne(store: Store, requests: seq<Request>, ghost outcomes: seq<Outcome>) returns (outcome: Outcome)
    requires requests != [] && |outcomes| == |requests| - 1 && DistinctPaths(requests[|requests| - 1].dir)
    requires store.Valid() && AllLoadedByRequests(store.trace, requests[..|requests| - 1])
    requires SettledAreKept(store.Current(), requests[..|requests| - 1], outcomes)
    modifies store
    ensures store.Valid() && old(store.trace) <= store.trace && AllLoadedByRequests(store.trace, requests)
    ensures SettledAreKept(store.Current(), requests, outcomes + [outcome])
    ensures old(store.faults) <= store.faults && (IsRecorded(outcome) || old(store.faults) < store.faults)
    ensures old(store.upsets) <= store.upsets
    ensures Justified(requests[|requests| - 1], outcome, old(store.faults) == store.faults && old(store.upsets) == store.upsets)
  {
    var q := requests[|requests| - 1];
    ghost var before, newest, rows, mayLoad := store.Current(), store.newest, [], false;
    outcome, rows, mayLoad := ImportRequest(store, q);
    RunLoadsItsRows(old(store.trace), store.trace, requests, rows, mayLoad);
    OthersStayKept(before, newest, store.Current(), store.newest, requests, outcomes, q, outcome);
  }

  /** What one call does, in terms of its request. */
  method ImportRequest(store: Store, q: Request) returns (outcome: Outcome, ghost rows: seq<Row>, ghost mayLoad: bool)
    requires store.Valid() && DistinctPaths(q.dir)
    modifies store
    ensures store.Valid() && Accounted(old(store.trace), store.trace, KeyOf(q), rows, mayLoad)
    ensures store.parts - {KeyOf(q)} == old(store.parts) - {KeyOf(q)}
    ensures store.open - {KeyOf(q)} == old(store.open) - {KeyOf(q)}
    ensures store.newest - {KeyOf(q)} == old(store.newest) - {KeyOf(q)}
    ensures forall r <- store.dates :: r.key != KeyOf(q) ==> r in old(store.dates)
    ensures mayLoad ==> IsFound([q], KeyOf(q), rows)
    ensures SettledAreKept(store.Current(), [q], [outcome])
    ensures old(store.faults) <= store.faults && (IsRecorded(outcome) || old(store.faults) < store.faults)
    ensures old(store.upsets) <= store.upsets
    ensures Justified(q, outcome, old(store.faults) == store.faults && old(store.upsets) == store.upsets)
  {
    var importer := new Importer(store, q.parser, q.contents, q.batchSize);
    ghost var run, now;
    outcome, run, now := importer.ImportDate(q.source, q.date, q.dir, q.clock);
    rows := importer.LoadedRows(q.source, q.date, run);
    mayLoad := importer.MayHaveLoaded(outcome, run.done, |run.targets|);
    if outcome.Imported? || outcome.cause !in {StateStore, Scan} {
      JustifiedAt(q, outcome, now);
    }
    if mayLoad {
      FoundAt(q, now, rows);
    }
    KeptAt(store.Current(), q, outcome, now, run.terminal);
  }

  lemma FoundAt(q: Request, now: Time, rows: seq<Row>)
    requires q.clock <= now && rows == RowsAt(q, now)
    ensures IsFound([q], KeyOf(q), rows)
  {
    assert q in [q];
  }

  lemma KeptAt(w: World, q: Request, outcome: Outcome, now: Time, terminal: Option<DateState>)
    requires outcome.Imported? || outcome.marked ==> KeyOf(q) !in w.open
    requires outcome.Imported? ==>
      var rows := RowsAt(q, now);
      && q.clock <= now && PartitionAt(w.parts, KeyOf(q)) == PartitionOf(rows) && outcome.rows == |rows|
      && terminal.Some? && StrictlyLatest(w.dates, terminal.value) && terminal.value.key == KeyOf(q)
      && terminal.value.status == if rows == [] then NoData else Ready
    ensures SettledAreKept(w, [q], [outcome])
  {
    if outcome.Imported? {
      assert SoleLatest(w.dates, terminal.value);
      assert Holds(w, KeyOf(q), RowsAt(q, now));
    }
  }

  lemma OthersStayKept(
    before: World, newest0: map<Key, Time>, after: World, newest1: map<Key, Time>,
    requests: seq<Request>, outcomes: seq<Outcome>, q: Request, outcome: Outcome)
    requires requests != [] && |outcomes| == |requests| - 1 && q == requests[|requests| - 1]
    requires SettledAreKept(before, requests[..|requests| - 1], outcomes)
    requires IsApart(before, newest0, after, newest1, KeyOf(q))
    requires SettledAreKept(after, [q], [outcome])
    ensures SettledAreKept(after, requests, outcomes + [outcome])
  {
    var front, all := requests[..|requests| - 1], outcomes + [outcome];
    forall j | 0 <= j < |requests| && Settled(requests, all, j)
      ensures Kept(after, requests[j], all[j])
    {
      if j < |front| {
        assert Settled(front, outcomes, j) && front[j] == requests[j];
        StaysKept(before, newest0, after, newest1, KeyOf(q), requests[j], outcomes[j]);
      } else {
        assert Settled([q], [outcome], 0);
      }
    }
  }

  /** Other keys than `key` saw nothing but merges. */
  ghost predicate IsApart(before: World, newest0: map<Key, Time>, after: World, newest1: map<Key, Time>, key: Key) {
    && after.parts - {key} == before.parts - {key} && after.open - {key} == before.open - {key}
    && newest1 - {key} == newest0 - {key} && AreNewest(before.dates, newest0) && AreNewest(after.dates, newest1)
    && forall r <- after.dates :: r.key != key ==> r in before.dates
  }

  lemma StaysKept(
    before: World, newest0: map<Key, Time>, after: World, newest1: map<Key, Time>, key: Key, q: Request, outcome: Outcome)
    requires KeyOf(q) != key && Kept(before, q, outcome) && IsApart(before, newest0, after, newest1, key)
    ensures Kept(after, q, outcome)
  {
    assert KeyOf(q) in after.open <==> KeyOf(q) in after.open - {key};
    assert KeyOf(q) in before.open <==> KeyOf(q) in before.open - {key};
    if outcome.Imported? {
      var now :| q.clock <= now && outcome.rows == |RowsAt(q, now)| && Holds(before, KeyOf(q), RowsAt(q, now));
      StaysHeld(before, newest0, after, newest1, key, KeyOf(q), RowsAt(q, now));
    }
  }

  lemma StaysHeld(
    before: World, newest0: map<Key, Time>, after: World, newest1: map<Key, Time>, key: Key, other: Key, rows: seq<Row>)
    requires other != key && Holds(before, other, rows) && IsApart(before, newest0, after, newest1, key)
    ensures Holds(after, other, rows)
  {
    SameElsewhere(before.parts, after.parts, key, other);
    var status := if rows == [] then NoData else Ready;
    var row :| SoleLatest(before.dates, row) && row.key == other && row.status == status;
    StaysSoleLatest(before.dates, newest0, after.dates, newest1, key, row);
  }
}
