/**
  The database as the importer uses it: two state tables, and four data tables partitioned by
  source and date. Any call may fail, a failed write may still have been applied, and background
  merges may happen before every call.
 */
module IngestStore {
  import opened StateLog
  import opened Aggregates
  import opened Wrappers

  datatype DateDetail = DateDetail(
    logTag: string, filesTotal: nat, filesDone: nat, rowsImported: nat, bytesTotal: nat, bytesDone: nat,
    currentFile: string, retryCount: nat, nextRetryAt: Time, error: string)

  datatype FileDetail = FileDetail(
    partition: Key, logTag: string, rowsImported: nat, bytesTotal: nat, bytesDone: nat,
    retryCount: nat, nextRetryAt: Time, error: string)

  type DateState = StateRow<Key, DateDetail>
  type FileState = StateRow<string, FileDetail>

  datatype Table = NatLogs | DailyTotals | DailyIPCounts | DailyFlows

  function PartitionAt(parts: map<Key, Partition>, key: Key): Partition {
    if key in parts then parts[key] else EmptyPartition
  }

  function DropTable(p: Partition, table: Table): Partition {
    match table
    case NatLogs => p.(rows := [])
    case DailyTotals => p.(totals := multiset{})
    case DailyIPCounts => p.(ipCounts := multiset{})
    case DailyFlows => p.(flows := map[])
  }

  /**
    What the database holds at one moment, with two notes the proof keeps: `loaded` gives the rows
    of the last run of a key that read all its files, and `open` the keys for which a run has begun
    to drop partitions and has not yet recorded that in the state table.
   */
  datatype World = World(
    dates: multiset<DateState>, parts: map<Key, Partition>, open: set<Key>, loaded: map<Key, seq<Row>>)

  ghost predicate Complete(w: World, row: DateState) {
    && row.key in w.loaded
    && PartitionAt(w.parts, row.key) == PartitionOf(w.loaded[row.key])
    && row.detail.rowsImported == |w.loaded[row.key]|
  }

  /** If the state of `key` reads as ready, its partition and its aggregates are complete. */
  ghost predicate SafeAt(w: World, key: Key) {
    forall r <- w.dates :: r.key == key && r.status == Ready && Newest(w.dates, r) ==> Complete(w, r)
  }

  /** What the partition expression of the table means: rows lie in the partition of their source and date. */
  ghost predicate IsKeyed(p: Partition, key: Key) {
    forall r <- p.rows :: r.key == key
  }

  ghost predicate IsPartitioned(parts: map<Key, Partition>) {
    forall key <- parts :: IsKeyed(parts[key], key)
  }

  ghost predicate Safe(w: World) {
    && IsPartitioned(w.parts)
    && forall key {:trigger SafeAt(w, key)} :: key !in w.open ==> SafeAt(w, key)
  }

  ghost predicate AllSafe(trace: seq<World>) {
    trace == [] || (AllSafe(trace[..|trace| - 1]) && Safe(trace[|trace| - 1]))
  }

  /** A row that answers either read of the state table is a newest one, so safety covers what readers see. */
  lemma ReadyMeansComplete(w: World, row: DateState)
    requires Safe(w) && row.key !in w.open
    requires IsLatest(w.dates, row) && row.status == Ready
    ensures Complete(w, row)
  {
    assert SafeAt(w, row.key);
    assert Newest(w.dates, row);
  }

  lemma MergesKeepSafe(w: World, dates: multiset<DateState>)
    requires Safe(w) && MergedFrom(w.dates, dates)
    ensures Safe(w.(dates := dates))
  {
    forall key | key !in w.open
      ensures SafeAt(w.(dates := dates), key)
    {
      MergeFacts(w.dates, dates, key);
      assert SafeAt(w, key);
    }
  }

  lemma AppendKeepsSafe(w: World, row: DateState)
    requires Safe(w) && (row.status == Ready ==> Complete(w, row))
    ensures Safe(w.(dates := w.dates + multiset{row}))
  {
    var after := w.(dates := w.dates + multiset{row});
    forall key | key !in w.open
      ensures SafeAt(after, key)
    {
      assert SafeAt(w, key);
      forall r | r in after.dates && r.key == key && r.status == Ready && Newest(after.dates, r)
        ensures Complete(after, r)
      {
        assert r != row ==> r in w.dates && Newest(w.dates, r);
      }
    }
  }

  /** The data of a key may change while its newest rows say importing, and while its window is open. */
  lemma ChangedDataKeepsSafe(w: World, changed: World, key: Key)
    requires Safe(w)
    requires key in changed.open || exists t :: ImportingSince(w.dates, key, t)
    requires changed.dates == w.dates && w.open - {key} <= changed.open && IsPartitioned(changed.parts)
    requires w.parts - {key} == changed.parts - {key} && w.loaded - {key} == changed.loaded - {key}
    ensures Safe(changed)
  {
    forall k | k !in changed.open
      ensures SafeAt(changed, k)
    {
      if k == key {
        var t :| ImportingSince(w.dates, key, t);
        var s :| s in w.dates && s.key == key && s.updatedAt >= t;
      } else {
        assert SafeAt(w, k);
        SameElsewhere(w.parts, changed.parts, key, k);
        SameElsewhere(w.loaded, changed.loaded, key, k);
      }
    }
  }

  /**
    Dropping one of the tables leaves a ready date safe exactly if the date has no rows: so the window
    has to be excepted for every date with data.
   */
  lemma DropIsSafeIffEmpty(w: World, row: DateState, table: Table)
    requires Newest(w.dates, row) && row.status == Ready && SafeAt(w, row.key)
    ensures var dropped := w.(parts := w.parts[row.key := DropTable(PartitionAt(w.parts, row.key), table)]);
            SafeAt(dropped, row.key) <==> w.loaded[row.key] == []
  {
    var rows := w.loaded[row.key];
    if rows == [] {
      assert DropTable(PartitionOf(rows), table) == PartitionOf(rows) by {
        assert PartitionOf(rows) == EmptyPartition;
      }
    } else {
      DropLosesRows(rows, table);
    }
  }

  lemma DropLosesRows(rows: seq<Row>, table: Table)
    requires rows != []
    ensures DropTable(PartitionOf(rows), table) != PartitionOf(rows)
  {
    match table
    case NatLogs =>
    case DailyTotals => assert Tags(rows)[0] in multiset(Tags(rows));
    case DailyIPCounts =>
      assert IPGroupsOf(rows, SrcIP)[0] in multiset(IPGroupsOf(rows, SrcIP));
      assert IPGroupsOf(rows, SrcIP)[0] in IPCounts(rows);
    case DailyFlows => assert FlowOf(rows[|rows| - 1]) in FlowView(rows);
  }

  /** Why the window has to be excepted: the first drop takes rows away from a date that still reads as ready. */
  lemma DroppedButStillReady(w: World, row: DateState)
    requires Newest(w.dates, row) && row.status == Ready
    requires Complete(w, row) && w.loaded[row.key] != []
    ensures !SafeAt(w.(parts := w.parts[row.key := DropTable(PartitionAt(w.parts, row.key), NatLogs)]), row.key)
  {
  }

  lemma SameElsewhere<K, V>(a: map<K, V>, b: map<K, V>, key: K, k: K)
    requires a - {key} == b - {key} && k != key
    ensures (k in a <==> k in b) && (k in a ==> a[k] == b[k])
  {
    assert k in a <==> k in a - {key};
    assert k in b <==> k in b - {key};
    if k in a {
      assert (a - {key})[k] == a[k] && (b - {key})[k] == b[k];
    }
  }

  lemma StillImporting(before: multiset<DateState>, after: multiset<DateState>, key: Key, since: Time)
    requires MergedFrom(before, after)
    ensures ImportingSince(before, key, since) ==> ImportingSince(after, key, since)
  {
    MergeFacts(before, after, key);
  }

  lemma UpdateElsewhere<K, V>(m: map<K, V>, key: K, v: V)
    ensures m[key := v] - {key} == m - {key}
  {
  }

  lemma RemoveTwice<K>(s: set<K>, key: K)
    ensures s - {key} - {key} == s - {key}
  {
  }

  lemma MergeTransitive<K, D>(a: multiset<StateRow<K, D>>, b: multiset<StateRow<K, D>>, c: multiset<StateRow<K, D>>)
    requires MergedFrom(a, b) && MergedFrom(b, c)
    ensures MergedFrom(a, c)
  {
    forall r | r in a
      ensures Covered(c, r)
    {
      assert Covered(b, r);
      var s :| s in b && s.key == r.key && r.updatedAt <= s.updatedAt;
      assert Covered(c, s);
    }
  }

  /** A row that is later than every row of its key makes the key safe, whatever was dropped before. */
  lemma AppendEndsWindow(w: World, row: DateState)
    requires row.status == Ready ==> Complete(w, row)
    requires Safe(w.(dates := w.dates + multiset{row}))
    requires row.key in w.open ==> forall r <- w.dates :: r.key == row.key ==> r.updatedAt < row.updatedAt
    ensures Safe(w.(dates := w.dates + multiset{row}, open := w.open - {row.key}))
  {
    var before := w.(dates := w.dates + multiset{row});
    var after := before.(open := w.open - {row.key});
    forall key | key !in after.open
      ensures SafeAt(after, key)
    {
      if key !in w.open {
        assert SafeAt(before, key);
      } else {
        assert row in after.dates;
      }
    }
  }

  /** Each table of `p` is as it was or as it should become. */
  predicate IsPartOf(p: Partition, before: Partition, after: Partition) {
    && (p.rows == before.rows || p.rows == after.rows)
    && (p.totals == before.totals || p.totals == after.totals)
    && (p.ipCounts == before.ipCounts || p.ipCounts == after.ipCounts)
    && (p.flows == before.flows || p.flows == after.flows)
  }

  /** `rows` has a latest row of each of these keys, and no other. */
  ghost predicate ListsLatest(log: multiset<DateState>, rows: seq<DateState>, keys: set<Key>) {
    && (forall row <- rows :: IsLatest(log, row) && row.key in keys)
    && (forall i, j :: 0 <= i < j < |rows| ==> rows[i].key != rows[j].key)
    && (forall key <- keys :: exists row :: row in rows && row.key == key)
  }

  lemma ListsOneMore(log: multiset<DateState>, rows: seq<DateState>, keys: set<Key>, row: DateState)
    requires ListsLatest(log, rows, keys) && IsLatest(log, row) && row.key !in keys
    ensures ListsLatest(log, rows + [row], keys + {row.key})
  {
    var more := rows + [row];
    forall key | key in keys + {row.key}
      ensures exists r :: r in more && r.key == key
    {
      if key == row.key {
        assert row in more;
      } else {
        var r :| r in rows && r.key == key;
        assert r in more;
      }
    }
  }

  function KeysFrom(log: multiset<DateState>, since: int): set<Key> {
    set r <- log | r.key.date >= since :: r.key
  }

  method LatestRows(log: multiset<DateState>, keys: set<Key>) returns (rows: seq<DateState>)
    requires forall key <- keys :: exists r <- log :: r.key == key
    ensures ListsLatest(log, rows, keys)
    decreases |keys|
  {
    rows := [];
    if keys != {} {
      var key :| key in keys;
      rows := LatestRows(log, keys - {key});
      var row := LatestRow(log, key);
      ListsOneMore(log, rows, keys - {key}, row);
      assert keys - {key} + {key} == keys;
      rows := rows + [row];
    }
  }

  method LatestRow(log: multiset<DateState>, key: Key) returns (row: DateState)
    requires exists r <- log :: r.key == key
    ensures row.key == key && IsLatest(log, row)
  {
    LatestExists(log, key);
    row :| row in log && row.key == key && IsLatest(log, row);
  }

  /** Any number of background merges of a state table. */
  method MergeRows<K(==), D(==)>(
    log: multiset<StateRow<K, D>>, n: nat, choose: nat -> (StateRow<K, D>, StateRow<K, D>))
    returns (merged: multiset<StateRow<K, D>>)
    ensures MergedFrom(log, merged)
  {
    merged := log;
    NoMerge(log);
    for i := 0 to n
      invariant MergedFrom(log, merged)
    {
      var (keeper, victim) := choose(i);
      if Supersedes(merged, keeper, victim) {
        MergeStep(log, merged, keeper, victim);
        merged := merged - multiset{victim};
      }
    }
  }

  /** Only merges lead from one world to the other. */
  ghost predicate Shrunk(before: World, w: World) {
    && w.parts == before.parts && w.loaded == before.loaded && w.open == before.open
    && forall r <- w.dates :: r in before.dates
  }

  /** Merges, and perhaps `row`, which ends the window of its key. */
  ghost predicate Wrote(before: World, w: World, row: DateState) {
    && w.parts == before.parts && w.loaded == before.loaded && w.open == before.open - {row.key}
    && forall r <- w.dates :: r in before.dates || r == row
  }

  ghost predicate NothingNew(before: World, w: World, key: Key) {
    forall r <- w.dates :: r.key == key ==> r in before.dates
  }

  /**
    A run of `key` has gone on, but has neither read all its files nor said that the date is ready;
    if its window is open, no row of the run is in the table yet. Nothing happened to other keys.
   */
  ghost predicate Still(before: World, w: World, key: Key) {
    && w.parts - {key} == before.parts - {key}
    && w.loaded == before.loaded
    && w.open - {key} == before.open - {key}
    && (forall r <- w.dates :: r.key != key || r.status == Ready ==> r in before.dates)
    && (key in w.open ==> NothingNew(before, w, key))
  }

  /** The same for a part of a run that opens no window. */
  ghost predicate Quiet(before: World, w: World, key: Key) {
    Still(before, w, key) && (key in w.open ==> key in before.open)
  }

  /** A run of `key` has read all its files: the partition holds exactly `rows`, and so says any ready row it wrote. */
  ghost predicate LoadedIn(before: World, w: World, key: Key, rows: seq<Row>) {
    && w.parts - {key} == before.parts - {key}
    && w.loaded - {key} == before.loaded - {key}
    && w.open - {key} == before.open - {key} && key !in w.open
    && key in w.loaded && w.loaded[key] == rows && PartitionAt(w.parts, key) == PartitionOf(rows)
    && forall r <- w.dates :: r in before.dates || (r.key == key && (r.status == Ready ==> r.detail.rowsImported == |rows|))
  }

  ghost predicate ShrunkSince(before: seq<World>, after: seq<World>) {
    && before != [] && before <= after
    && forall i :: |before| <= i < |after| ==> Shrunk(before[|before| - 1], after[i])
  }

  ghost predicate WroteSince(before: seq<World>, after: seq<World>, row: DateState) {
    && before != [] && before <= after
    && forall i :: |before| <= i < |after| ==> Shrunk(before[|before| - 1], after[i]) || Wrote(before[|before| - 1], after[i], row)
  }

  ghost predicate QuietSince(before: seq<World>, after: seq<World>, key: Key) {
    && before != [] && before <= after
    && forall i :: |before| <= i < |after| ==> Quiet(before[|before| - 1], after[i], key)
  }

  ghost predicate Ran(before: seq<World>, after: seq<World>, key: Key, rows: seq<Row>, mayLoad: bool) {
    && before != [] && before <= after
    && forall i :: |before| <= i < |after| ==>
         Quiet(before[|before| - 1], after[i], key) || (mayLoad && LoadedIn(before[|before| - 1], after[i], key, rows))
  }

  /** Every world of a run: either still under way or, if it got that far, with all its rows loaded. */
  ghost predicate Accounted(before: seq<World>, after: seq<World>, key: Key, rows: seq<Row>, mayLoad: bool) {
    && before != [] && before <= after
    && forall i :: |before| <= i < |after| ==>
         Still(before[|before| - 1], after[i], key) || (mayLoad && LoadedIn(before[|before| - 1], after[i], key, rows))
  }

  lemma ThenQuiet(a: seq<World>, b: seq<World>, c: seq<World>, key: Key)
    requires QuietSince(a, b, key) && QuietSince(b, c, key)
    ensures QuietSince(a, c, key)
  {
    forall i | |a| <= i < |c|
      ensures Quiet(a[|a| - 1], c[i], key)
    {
      if i < |b| {
        assert c[i] == b[i];
      } else if |a| < |b| {
        assert Quiet(a[|a| - 1], b[|b| - 1], key) && Quiet(b[|b| - 1], c[i], key);
      } else {
        assert a == b;
      }
    }
  }

  lemma MergesAreQuiet(a: seq<World>, b: seq<World>, key: Key)
    requires ShrunkSince(a, b)
    ensures QuietSince(a, b, key)
  {
  }

  lemma MergesThenQuiet(a: seq<World>, b: seq<World>, c: seq<World>, key: Key)
    requires ShrunkSince(a, b) && QuietSince(b, c, key)
    ensures QuietSince(a, c, key)
  {
    MergesAreQuiet(a, b, key);
    ThenQuiet(a, b, c, key);
  }

  lemma ThenRan(a: seq<World>, b: seq<World>, c: seq<World>, key: Key, rows: seq<Row>, mayLoad: bool)
    requires QuietSince(a, b, key) && Ran(b, c, key, rows, mayLoad)
    ensures Ran(a, c, key, rows, mayLoad)
  {
    forall i | |a| <= i < |c|
      ensures Quiet(a[|a| - 1], c[i], key) || (mayLoad && LoadedIn(a[|a| - 1], c[i], key, rows))
    {
      if i < |b| {
        assert c[i] == b[i];
      } else if |a| < |b| {
        assert Quiet(a[|a| - 1], b[|b| - 1], key);
      } else {
        assert a == b;
      }
    }
  }

  lemma ThenAccounted(a: seq<World>, b: seq<World>, c: seq<World>, key: Key, rows: seq<Row>, mayLoad: bool)
    requires Accounted(a, b, key, [], false) && Ran(b, c, key, rows, mayLoad)
    ensures Accounted(a, c, key, rows, mayLoad)
  {
    forall i | |a| <= i < |c|
      ensures Still(a[|a| - 1], c[i], key) || (mayLoad && LoadedIn(a[|a| - 1], c[i], key, rows))
    {
      if i < |b| {
        assert c[i] == b[i];
      } else if |a| < |b| {
        assert Still(a[|a| - 1], b[|b| - 1], key);
      } else {
        assert a == b;
      }
    }
  }

  lemma AfterMerges(a: seq<World>, b: seq<World>, c: seq<World>, key: Key, rows: seq<Row>, mayLoad: bool)
    requires ShrunkSince(a, b) && Accounted(b, c, key, rows, mayLoad)
    ensures Accounted(a, c, key, rows, mayLoad)
  {
    forall i | |a| <= i < |c|
      ensures Still(a[|a| - 1], c[i], key) || (mayLoad && LoadedIn(a[|a| - 1], c[i], key, rows))
    {
      if i < |b| {
        assert c[i] == b[i];
      } else if |a| < |b| {
        assert Shrunk(a[|a| - 1], b[|b| - 1]);
      } else {
        assert a == b;
      }
    }
  }

  lemma MergedThenWrote(a: seq<World>, b: seq<World>, c: seq<World>, row: DateState)
    requires ShrunkSince(a, b) && |c| == |b| + 1 && b <= c
    requires var w := b[|b| - 1]; c[|b|] == w.(dates := w.dates + multiset{row}, open := w.open - {row.key})
    ensures WroteSince(a, c, row)
  {
    forall i | |a| <= i < |c|
      ensures Shrunk(a[|a| - 1], c[i]) || Wrote(a[|a| - 1], c[i], row)
    {
      assert i < |b| ==> c[i] == b[i];
      assert |a| < |b| ==> Shrunk(a[|a| - 1], b[|b| - 1]);
    }
  }

  /** A window opens and the run goes on quietly. */
  lemma OpenedThenQuiet(a: seq<World>, b: seq<World>, c: seq<World>, key: Key)
    requires a != [] && a <= b && |b| == |a| + 1
    requires b[|a|] == a[|a| - 1].(open := a[|a| - 1].open + {key}) && QuietSince(b, c, key)
    ensures Accounted(a, c, key, [], false)
  {
    var before := a[|a| - 1];
    assert before.open + {key} - {key} == before.open - {key};
    forall i | |a| <= i < |c|
      ensures Still(before, c[i], key)
    {
      assert i < |b| ==> c[i] == b[|a|];
    }
  }

  /** After merges, the partition of one key changes. */
  lemma PartChanges(a: seq<World>, b: seq<World>, c: seq<World>, key: Key)
    requires ShrunkSince(a, b) && |c| == |b| + 1 && b <= c
    requires var w, v := b[|b| - 1], c[|b|];
             v.dates == w.dates && v.open == w.open && v.loaded == w.loaded && v.parts - {key} == w.parts - {key}
    ensures QuietSince(a, c, key)
  {
    forall i | |a| <= i < |c|
      ensures Quiet(a[|a| - 1], c[i], key)
    {
      assert i < |b| ==> c[i] == b[i];
      assert |a| < |b| ==> Shrunk(a[|a| - 1], b[|b| - 1]);
    }
  }

  /** `newest` gives the instant of a newest row of every key that has rows. */
  ghost predicate AreNewest(log: multiset<DateState>, newest: map<Key, Time>) {
    && (forall r <- log {:trigger NotAfter(r, newest)} :: NotAfter(r, newest))
    && (forall key <- newest {:trigger HasRowAt(log, key, newest[key])} :: HasRowAt(log, key, newest[key]))
  }

  ghost predicate NotAfter(row: DateState, newest: map<Key, Time>) {
    row.key in newest && row.updatedAt <= newest[row.key]
  }

  ghost predicate HasRowAt(log: multiset<DateState>, key: Key, t: Time) {
    exists r <- log :: r.key == key && r.updatedAt == t
  }

  ghost function Later(newest: map<Key, Time>, row: DateState): map<Key, Time> {
    newest[row.key := if row.key in newest && newest[row.key] > row.updatedAt then newest[row.key] else row.updatedAt]
  }

  ghost function NewestOf(log: multiset<DateState>): (newest: map<Key, Time>)
    ensures AreNewest(log, newest)
    decreases |log|
  {
    if log == multiset{} then map[]
    else
      var row :| row in log;
      var rest := log - multiset{row};
      AppendIsNewest(rest, NewestOf(rest), row);
      assert rest + multiset{row} == log;
      Later(NewestOf(rest), row)
  }

  lemma MergesKeepNewest(before: multiset<DateState>, after: multiset<DateState>, newest: map<Key, Time>)
    requires AreNewest(before, newest) && MergedFrom(before, after)
    ensures AreNewest(after, newest)
  {
    forall key | key in newest
      ensures HasRowAt(after, key, newest[key])
    {
      assert HasRowAt(before, key, newest[key]);
      var r :| r in before && r.key == key && r.updatedAt == newest[key];
      assert Covered(after, r);
      var s :| s in after && s.key == r.key && r.updatedAt <= s.updatedAt;
      assert s in before && NotAfter(s, newest);
    }
    forall r | r in after
      ensures NotAfter(r, newest)
    {
      assert r in before;
    }
  }

  lemma AppendIsNewest(log: multiset<DateState>, newest: map<Key, Time>, row: DateState)
    requires AreNewest(log, newest)
    ensures AreNewest(log + multiset{row}, Later(newest, row))
    ensures Later(newest, row) - {row.key} == newest - {row.key}
  {
    var after, more := log + multiset{row}, Later(newest, row);
    forall key | key in more
      ensures HasRowAt(after, key, more[key])
    {
      if key in newest && more[key] == newest[key] {
        assert HasRowAt(log, key, newest[key]);
        var r :| r in log && r.key == key && r.updatedAt == newest[key];
        assert r in after;
      } else {
        assert row in after;
      }
    }
    forall r | r in after
      ensures NotAfter(r, more)
    {
      assert r in log ==> NotAfter(r, newest);
    }
    UpdateElsewhere(newest, row.key, more[row.key]);
  }

  /** A row with which any read of its key answers, whatever is merged: all others are older. */
  ghost predicate SoleLatest(log: multiset<DateState>, row: DateState) {
    row in log && forall r <- log :: r.key == row.key && r != row ==> r.updatedAt < row.updatedAt
  }

  /** Such a row stays for as long as nothing but merges happens to its key. */
  lemma StaysSoleLatest(
    before: multiset<DateState>, newest0: map<Key, Time>, after: multiset<DateState>, newest1: map<Key, Time>,
    key: Key, row: DateState)
    requires AreNewest(before, newest0) && AreNewest(after, newest1) && SoleLatest(before, row)
    requires newest1 - {key} == newest0 - {key} && row.key != key
    requires forall r <- after :: r.key != key ==> r in before
    ensures SoleLatest(after, row)
  {
    assert NotAfter(row, newest0);
    SameElsewhere(newest0, newest1, key, row.key);
    assert HasRowAt(after, row.key, newest1[row.key]);
    var r :| r in after && r.key == row.key && r.updatedAt == newest1[row.key];
    assert r == row;
    forall x | x in after && x.key == row.key && x != row
      ensures x.updatedAt < row.updatedAt
    {
      assert x in before;
    }
  }

  class Store {
    const grain: Grain
    var dates: multiset<DateState>
    var files: multiset<FileState>
    var parts: map<Key, Partition>
    ghost var open: set<Key>
    ghost var loaded: map<Key, seq<Row>>
    ghost var trace: seq<World>
    ghost var newest: map<Key, Time>  // the instant of the newest row of each date
    ghost var faults: nat  // how many reads and writes of the state tables have failed
    ghost var upsets: nat  // how many drops, inserts, listings and file reads have failed or were cancelled

    ghost function Current(): World
      reads this
    {
      World(dates, parts, open, loaded)
    }

    /** Every world this database has gone through, up to the present one, is safe. */
    ghost predicate Valid()
      reads this
    {
      && trace != []
      && trace[|trace| - 1] == Current()
      && AllSafe(trace)
      && AreNewest(dates, newest)
    }

    /** Any contents may be left from before; nothing is then claimed of a key until it is imported. */
    constructor (grain: Grain, dates: multiset<DateState>, files: multiset<FileState>, parts: map<Key, Partition>)
      requires IsPartitioned(parts)
      ensures Valid() && fresh(this)
      ensures loaded == map[] && open == (set r <- dates :: r.key) && trace == [Current()]
      ensures this.grain == grain && this.dates == dates && this.files == files && this.parts == parts
    {
      this.grain := grain;
      this.dates, this.files, this.parts := dates, files, parts;
      open := set r <- dates :: r.key;
      loaded := map[];
      trace, faults, upsets := [World(dates, parts, set r <- dates :: r.key, map[])], 0, 0;
      newest := NewestOf(dates);
      new;
      assert Safe(Current());
      assert trace[..|trace| - 1] == [];
    }

    ghost method Record()
      requires AllSafe(trace) && Safe(Current()) && AreNewest(dates, newest)
      modifies this`trace
      ensures Valid() && trace == old(trace) + [Current()]
    {
      trace := trace + [Current()];
    }

    /** Only background merges happened. */
    twostate predicate OnlyMerges()
      reads this
    {
      && MergedFrom(old(dates), dates) && MergedFrom(old(files), files)
      && parts == old(parts) && open == old(open) && loaded == old(loaded) && upsets == old(upsets) && newest == old(newest)
      && ShrunkSince(old(trace), trace)
    }

    /** Merges happened, and each new world may have `row`, which ends the window of its key. */
    twostate predicate OnlyWrites(row: DateState)
      reads this
    {
      && parts == old(parts) && loaded == old(loaded) && upsets == old(upsets) && WroteSince(old(trace), trace, row)
      && newest - {row.key} == old(newest) - {row.key}
    }

    method BackgroundMerges()
      requires Valid()
      modifies this
      ensures Valid() && OnlyMerges() && faults == old(faults)
    {
      var n: nat := *;
      var chooseDates: nat -> (DateState, DateState) := *;
      var chooseFiles: nat -> (FileState, FileState) := *;
      ghost var before := Current();
      var mergedDates := MergeRows(dates, n, chooseDates);
      var mergedFiles := MergeRows(files, n, chooseFiles);
      dates, files := mergedDates, mergedFiles;
      MergesKeepSafe(before, dates);
      MergesKeepNewest(before.dates, dates, newest);
      Record();
    }

    /** What comes before any read or write of the state tables, and whether that will succeed. */
    method CallStateTables() returns (ok: bool)
      requires Valid()
      modifies this
      ensures Valid() && OnlyMerges() && faults == old(faults) + if ok then 0 else 1
    {
      BackgroundMerges();
      ok := *;
      faults := faults + if ok then 0 else 1;
    }

    method LatestDateState(key: Key) returns (ok: bool, found: Option<DateState>)
      requires Valid()
      modifies this
      ensures Valid() && OnlyMerges()
      ensures ok && found.Some? ==> found.value.key == key && IsLatest(dates, found.value)
      ensures ok && found.None? ==> forall r <- dates :: r.key != key
      ensures faults == old(faults) + if ok then 0 else 1
    {
      ok := CallStateTables();
      found := None;
      if ok && exists r <- dates :: r.key == key {
        LatestExists(dates, key);
        var row :| row in dates && row.key == key && IsLatest(dates, row);
        found := Some(row);
      }
    }

    /** The list query: a latest row of every key from day `since` on that has rows. */
    method ListDateStates(since: int) returns (ok: bool, rows: seq<DateState>)
      requires Valid()
      modifies this
      ensures Valid() && OnlyMerges() && faults == old(faults) + if ok then 0 else 1
      ensures ok ==> ListsLatest(dates, rows, KeysFrom(dates, since))
    {
      ok := CallStateTables();
      rows := [];
      if ok {
        rows := LatestRows(dates, KeysFrom(dates, since));
      }
    }

    method LatestFileState(path: string) returns (ok: bool, found: Option<FileState>)
      requires Valid()
      modifies this
      ensures Valid() && OnlyMerges()
      ensures ok && found.Some? ==> found.value.key == path && IsLatest(files, found.value)
      ensures ok && found.None? ==> forall r <- files :: r.key != path
      ensures faults == old(faults) + if ok then 0 else 1
    {
      ok := CallStateTables();
      found := None;
      if ok && exists r <- files :: r.key == path {
        LatestExists(files, path);
        var row :| row in files && row.key == path && IsLatest(files, row);
        found := Some(row);
      }
    }

    function AsStored<K, D>(row: StateRow<K, D>): (r: StateRow<K, D>)
      ensures r.key == row.key && r.status == row.status && r.detail == row.detail
      ensures r.updatedAt <= row.updatedAt && SecondOf(r.updatedAt) == SecondOf(row.updatedAt)
    {
      row.(updatedAt := Stored(row.updatedAt, grain))
    }

    /**
      A write that reports an error may or may not have been applied. A row that is applied ends the
      window of its key, in which case it must be later than every row of the key.
     */
    method WriteDateState(row: DateState) returns (ok: bool, ghost merged: multiset<DateState>)
      requires Valid()
      requires row.status == Ready ==> Complete(Current(), row)
      requires row.key in open ==> forall r <- dates :: r.key == row.key ==> r.updatedAt < AsStored(row).updatedAt
      modifies this
      ensures Valid() && OnlyWrites(AsStored(row))
      ensures MergedFrom(old(dates), merged) && MergedFrom(old(files), files)
      ensures (dates == merged + multiset{AsStored(row)} && open == old(open) - {row.key})
              || (!ok && dates == merged && open == old(open))
      ensures faults == old(faults) + if ok then 0 else 1
    {
      ok := CallStateTables();
      merged := dates;
      var applied: bool := *;
      if ok || applied {
        ghost var shrunk := trace;
        AppendDateState(AsStored(row));
        MergedThenWrote(old(trace), shrunk, trace, AsStored(row));
      }
    }

    method AppendDateState(row: DateState)
      requires Valid()
      requires row.status == Ready ==> Complete(Current(), row)
      requires row.key in open ==> forall r <- dates :: r.key == row.key ==> r.updatedAt < row.updatedAt
      modifies this`dates, this`open, this`newest, this`trace
      ensures Valid() && trace == old(trace) + [Current()]
      ensures dates == old(dates) + multiset{row} && open == old(open) - {row.key}
      ensures newest - {row.key} == old(newest) - {row.key}
    {
      AppendKeepsSafe(Current(), row);
      AppendEndsWindow(Current(), row);
      AppendIsNewest(dates, newest, row);
      dates, open, newest := dates + multiset{row}, open - {row.key}, Later(newest, row);
      Record();
    }

    method WriteFileState(row: FileState) returns (ok: bool, ghost merged: multiset<FileState>)
      requires Valid()
      modifies this
      ensures Valid()
      ensures MergedFrom(old(files), merged) && MergedFrom(old(dates), dates)
      ensures files == merged + multiset{AsStored(row)} || (!ok && files == merged)
      ensures parts == old(parts) && open == old(open) && loaded == old(loaded)
      ensures ShrunkSince(old(trace), trace)
      ensures faults == old(faults) + (if ok then 0 else 1) && upsets == old(upsets) && newest == old(newest)
    {
      ok := CallStateTables();
      merged := files;
      var applied: bool := *;
      if ok || applied {
        files := files + multiset{AsStored(row)};
      }
    }

    method DropPartition(table: Table, key: Key) returns (ok: bool)
      requires Valid() && key in open
      modifies this
      ensures Valid() && QuietSince(old(trace), trace, key)
      ensures MergedFrom(old(dates), dates) && MergedFrom(old(files), files)
      ensures open == old(open) && loaded == old(loaded) && faults == old(faults)
      ensures parts - {key} == old(parts) - {key} && newest == old(newest)
      ensures upsets == old(upsets) + if ok then 0 else 1
      ensures PartitionAt(parts, key) == DropTable(PartitionAt(old(parts), key), table)
              || (!ok && PartitionAt(parts, key) == PartitionAt(old(parts), key))
    {
      ok := *;
      var applied: bool := *;
      var p := PartitionAt(parts, key);
      StoredIsKeyed(key);
      ReplacePartition(key, if ok || applied then DropTable(p, table) else p, 0);
      NoteOutcome(ok);
    }

    /** Counts a call that failed. */
    ghost method NoteOutcome(ok: bool)
      requires Valid()
      modifies this`upsets
      ensures Valid() && upsets == old(upsets) + if ok then 0 else 1
    {
      upsets := upsets + if ok then 0 else 1;
    }

    /** Inserts a block of rows of one partition, which feeds the views. */
    method InsertRows(key: Key, block: seq<Row>, ghost since: Time) returns (ok: bool)
      requires Valid() && ImportingSince(dates, key, since) && forall r <- block :: r.key == key
      modifies this
      ensures Valid() && QuietSince(old(trace), trace, key)
      ensures MergedFrom(old(dates), dates) && MergedFrom(old(files), files)
      ensures open == old(open) && loaded == old(loaded) && faults == old(faults)
      ensures parts - {key} == old(parts) - {key} && newest == old(newest)
      ensures upsets == old(upsets) + if ok then 0 else 1
      ensures ok ==> PartitionAt(parts, key) == InsertBlock(PartitionAt(old(parts), key), block)
      ensures IsPartOf(PartitionAt(parts, key), PartitionAt(old(parts), key), InsertBlock(PartitionAt(old(parts), key), block))
    {
      var q;
      StoredIsKeyed(key);
      ok, q := Insert(PartitionAt(parts, key), block);
      ReplacePartition(key, q, since);
      NoteOutcome(ok);
    }

    lemma StoredIsKeyed(key: Key)
      requires Valid()
      ensures IsKeyed(PartitionAt(parts, key), key)
    {
      assert Safe(Current());
    }

    /** What an insert leaves of a partition; one that fails may have reached any of the tables. */
    static method Insert(p: Partition, block: seq<Row>) returns (ok: bool, r: Partition)
      ensures ok ==> r == InsertBlock(p, block)
      ensures IsPartOf(r, p, InsertBlock(p, block))
    {
      r := InsertBlock(p, block);
      ok := *;
      if !ok {
        var inRows: bool, inTotals: bool, inCounts: bool, inFlows: bool := *, *, *, *;
        r := Partition(
          if inRows then r.rows else p.rows,
          if inTotals then r.totals else p.totals,
          if inCounts then r.ipCounts else p.ipCounts,
          if inFlows then r.flows else p.flows);
      }
    }

    /** After any merges, the partition of `key` becomes `p`. */
    method ReplacePartition(key: Key, p: Partition, ghost since: Time)
      requires Valid() && (key in open || ImportingSince(dates, key, since)) && IsKeyed(p, key)
      modifies this
      ensures Valid() && QuietSince(old(trace), trace, key)
      ensures MergedFrom(old(dates), dates) && MergedFrom(old(files), files)
      ensures open == old(open) && loaded == old(loaded) && faults == old(faults) && upsets == old(upsets)
      ensures newest == old(newest)
      ensures PartitionAt(parts, key) == p && parts - {key} == old(parts) - {key}
    {
      BackgroundMerges();
      StillImporting(old(dates), dates, key, since);
      ghost var merged := trace;
      SetPartition(key, p, since);
      PartChanges(old(trace), merged, trace, key);
    }

    method SetPartition(key: Key, p: Partition, ghost since: Time)
      requires Valid() && (key in open || ImportingSince(dates, key, since)) && IsKeyed(p, key)
      modifies this`parts, this`trace
      ensures Valid() && trace == old(trace) + [Current()]
      ensures PartitionAt(parts, key) == p && parts - {key} == old(parts) - {key}
    {
      ghost var before := Current();
      parts := parts[key := p];
      assert parts - {key} == before.parts - {key};
      ChangedDataKeepsSafe(before, Current(), key);
      Record();
    }

    /** From here until its next row the state table does not tell that the data of `key` is being dropped. */
    ghost method OpenWindow(key: Key)
      requires Valid()
      modifies this`open, this`trace
      ensures Valid() && trace == old(trace) + [Current()] && open == old(open) + {key}
    {
      ghost var before := Current();
      open := open + {key};
      ChangedDataKeepsSafe(before, Current(), key);
      Record();
    }

    /** Notes the rows of a run that has read all its files. */
    ghost method NoteLoaded(key: Key, rows: seq<Row>, since: Time)
      requires Valid() && ImportingSince(dates, key, since)
      modifies this`loaded, this`trace
      ensures Valid() && trace == old(trace) + [Current()]
      ensures loaded == old(loaded)[key := rows] && loaded - {key} == old(loaded) - {key}
    {
      ghost var before := Current();
      loaded := loaded[key := rows];
      assert loaded - {key} == before.loaded - {key};
      ChangedDataKeepsSafe(before, Current(), key);
      Record();
    }
  }
}
