/**
  The ingest state tables: rows that are only ever appended, of which the one with the greatest
  (updated_at, status priority) is the current state, while the storage engine may at any moment
  drop a row that another row of the same key supersedes.
 */
module StateLog {
  /** An instant in nanoseconds. */
  type Time = int

  const SECOND: Time := 1_000_000_000
  const MICROSECOND: Time := 1000

  /** The precision a written instant is stored with: that of the column, or that of the driver's text form. */
  datatype Grain = Microseconds | Seconds

  function Stored(t: Time, grain: Grain): (r: Time)
    ensures r <= t && SecondOf(r) == SecondOf(t)
  {
    match grain
    case Microseconds => t - t % MICROSECOND
    case Seconds => t - t % SECOND
  }

  /** A stored instant is the greatest one of the column's precision that is not after the written one. */
  lemma StoredIsPrecise(t: Time)
    ensures Stored(t, Microseconds) == t / 1000 * 1000
    ensures Stored(t, Seconds) == t / 1_000_000_000 * 1_000_000_000
  {
  }

  function SecondOf(t: Time): int {
    t / SECOND
  }

  /** The least instant that is not before `current` and lies in a later second than `previous`. */
  function TerminalStateTimestamp(previous: Time, current: Time): (r: Time)
    ensures current <= r && SecondOf(previous) < SecondOf(r)
    ensures forall x {:trigger SecondOf(x)} :: current <= x && SecondOf(previous) < SecondOf(x) ==> r <= x
  {
    var minimum := previous - previous % SECOND + SECOND;
    if current < minimum then minimum else current
  }

  datatype Status = Idle | Pending | Scanning | Importing | Ready | NoData | Failed | Succeeded

  function Priority(status: Status): nat {
    match status
    case Failed => 4
    case Ready | Succeeded | NoData => 3
    case Importing => 1
    case Idle | Pending | Scanning => 0
  }

  predicate Terminal(status: Status) {
    status in {Ready, NoData, Failed}
  }

  /** One row of `ingest_dates` (the key is a source and a date) or of `ingest_files` (the key is a path). */
  datatype StateRow<K, D> = StateRow(key: K, status: Status, updatedAt: Time, detail: D)

  predicate AtMost<K, D>(r: StateRow<K, D>, s: StateRow<K, D>) {
    r.updatedAt < s.updatedAt || (r.updatedAt == s.updatedAt && Priority(r.status) <= Priority(s.status))
  }

  /** `row` is an answer of the point query and of the list query: both pick a row that no row of the key exceeds. */
  predicate IsLatest<K(==), D(==)>(log: multiset<StateRow<K, D>>, row: StateRow<K, D>) {
    row in log && forall r <- log :: r.key == row.key ==> AtMost(r, row)
  }

  /** Of two rows with one instant, a failed one answers before all others, then a finished one, then an importing one. */
  lemma TiesAreRead<K, D>(r: StateRow<K, D>, s: StateRow<K, D>)
    requires r.key == s.key && r.updatedAt == s.updatedAt
    ensures IsLatest(multiset{r, s}, r) <==>
      match r.status
      case Failed => true
      case Ready | NoData | Succeeded => s.status != Failed
      case Importing => s.status !in {Failed, Ready, NoData, Succeeded}
      case Idle | Pending | Scanning => s.status in {Idle, Pending, Scanning}
  {
  }

  predicate Newest<K(==), D(==)>(log: multiset<StateRow<K, D>>, row: StateRow<K, D>) {
    row in log && forall r <- log :: r.key == row.key ==> r.updatedAt <= row.updatedAt
  }

  /** `row` occurs once, and every other row of its key lies in an earlier second. */
  ghost predicate StrictlyLatest<K, D>(log: multiset<StateRow<K, D>>, row: StateRow<K, D>) {
    log[row] == 1 && forall r <- log :: r.key == row.key && r != row ==> SecondOf(r.updatedAt) < SecondOf(row.updatedAt)
  }

  /** No row of `key` was written with an instant after `t`. */
  ghost predicate Bounded<K, D>(log: multiset<StateRow<K, D>>, key: K, t: Time) {
    forall r <- log :: r.key == key ==> r.updatedAt <= t
  }

  /** Every row of `key` lies in an earlier second than `t`. */
  ghost predicate SecondsBefore<K, D>(log: multiset<StateRow<K, D>>, key: K, t: Time) {
    forall r <- log :: r.key == key ==> SecondOf(r.updatedAt) < SecondOf(t)
  }

  /** Some row of `key` is at or after `t`, and every such row says importing. */
  ghost predicate ImportingSince<K, D>(log: multiset<StateRow<K, D>>, key: K, t: Time) {
    && (exists r <- log :: r.key == key && r.updatedAt >= t)
    && (forall r <- log :: r.key == key && r.updatedAt >= t ==> r.status == Importing)
  }

  /** What one background merge may do: drop `victim` because `keeper` has its key and is at least as new. */
  predicate Supersedes<K(==), D(==)>(log: multiset<StateRow<K, D>>, keeper: StateRow<K, D>, victim: StateRow<K, D>) {
    && multiset{keeper, victim} <= log
    && keeper.key == victim.key
    && victim.updatedAt <= keeper.updatedAt
  }

  /** A row of the same key that is at least as new as `r` is present. */
  ghost predicate Covered<K, D>(log: multiset<StateRow<K, D>>, r: StateRow<K, D>) {
    exists s <- log :: s.key == r.key && r.updatedAt <= s.updatedAt
  }

  /** What any number of background merges may do. */
  ghost predicate MergedFrom<K, D>(before: multiset<StateRow<K, D>>, after: multiset<StateRow<K, D>>) {
    && after <= before
    && forall r <- before {:trigger Covered(after, r)} :: Covered(after, r)
  }

  lemma NoMerge<K, D>(log: multiset<StateRow<K, D>>)
    ensures MergedFrom(log, log)
  {
  }

  lemma MergeStep<K, D>(
    before: multiset<StateRow<K, D>>, log: multiset<StateRow<K, D>>, keeper: StateRow<K, D>, victim: StateRow<K, D>)
    requires MergedFrom(before, log) && Supersedes(log, keeper, victim)
    ensures MergedFrom(before, log - multiset{victim})
  {
    var after := log - multiset{victim};
    assert keeper in after;
    forall r | r in before
      ensures Covered(after, r)
    {
      assert Covered(log, r);
      var s :| s in log && s.key == r.key && r.updatedAt <= s.updatedAt;
      if s !in after {
        assert s == victim;
      }
    }
  }

  /** A strictly latest row survives every merge, and stays the only possible answer of a read. */
  lemma MergesKeepStrictlyLatest<K, D>(
    before: multiset<StateRow<K, D>>, after: multiset<StateRow<K, D>>, row: StateRow<K, D>)
    requires StrictlyLatest(before, row) && MergedFrom(before, after)
    ensures StrictlyLatest(after, row)
    ensures forall r <- after :: r.key == row.key ==> (IsLatest(after, r) <==> r == row)
  {
    assert row in before && Covered(after, row);
    var s :| s in after && s.key == row.key && row.updatedAt <= s.updatedAt;
    assert s in before && s == row;
    assert after[row] <= before[row];
  }

  /**
    Why the row has to be strictly later: with equal instants the readers prefer the failed row,
    but a merge may keep the other one, and the date then reads as importing.
   */
  lemma TiedRowsCanBeMergedAway<K, D>(key: K, t: Time, d: D)
    ensures var failed := StateRow(key, Failed, t, d);
            var importing := StateRow(key, Importing, t, d);
            var log := multiset{failed, importing};
            && IsLatest(log, failed) && !IsLatest(log, importing)
            && MergedFrom(log, log - multiset{failed})
            && IsLatest(log - multiset{failed}, importing)
  {
  }

  lemma MergesMayTake<K, D>(log: multiset<StateRow<K, D>>, row: StateRow<K, D>, other: StateRow<K, D>)
    requires row in log && other in log && other.key == row.key && other != row && row.updatedAt <= other.updatedAt
    ensures MergedFrom(log, log[row := 0])
  {
    var after := log[row := 0];
    forall r | r in log
      ensures Covered(after, r)
    {
      assert (if r == row then other else r) in after;
    }
  }

  lemma MergesNeverTake<K, D>(log: multiset<StateRow<K, D>>, row: StateRow<K, D>, after: multiset<StateRow<K, D>>)
    requires row in log && MergedFrom(log, after)
    requires forall r <- log :: r.key == row.key && r != row ==> r.updatedAt < row.updatedAt
    ensures row in after
  {
    assert Covered(after, row);
  }

  /** No merge can ever take a row away exactly if every other row of its key is older. */
  lemma SurvivesMergesIffLatest<K(!new), D(!new)>(log: multiset<StateRow<K, D>>, row: StateRow<K, D>)
    requires row in log
    ensures (forall after :: MergedFrom(log, after) ==> row in after)
       <==> (forall r <- log :: r.key == row.key && r != row ==> r.updatedAt < row.updatedAt)
  {
    if other :| other in log && other.key == row.key && other != row && row.updatedAt <= other.updatedAt {
      MergesMayTake(log, row, other);
    } else {
      forall after | MergedFrom(log, after)
        ensures row in after
      {
        MergesNeverTake(log, row, after);
      }
    }
  }

  lemma MergeFacts<K, D>(before: multiset<StateRow<K, D>>, after: multiset<StateRow<K, D>>, key: K)
    requires MergedFrom(before, after)
    ensures forall t :: Bounded(before, key, t) ==> Bounded(after, key, t)
    ensures forall t :: SecondsBefore(before, key, t) ==> SecondsBefore(after, key, t)
    ensures forall t :: ImportingSince(before, key, t) ==> ImportingSince(after, key, t)
    ensures forall r <- before :: StrictlyLatest(before, r) ==> StrictlyLatest(after, r)
    ensures forall r <- after :: Newest(after, r) ==> Newest(before, r)
    ensures (forall r <- before :: r.key != key) ==> forall r <- after :: r.key != key
  {
    forall r | r in before && StrictlyLatest(before, r)
      ensures StrictlyLatest(after, r)
    {
      MergesKeepStrictlyLatest(before, after, r);
    }
    forall t | ImportingSince(before, key, t)
      ensures ImportingSince(after, key, t)
    {
      var r :| r in before && r.key == key && r.updatedAt >= t;
      assert Covered(after, r);
      var s :| s in after && s.key == r.key && r.updatedAt <= s.updatedAt;
    }
    forall r | r in after && Newest(after, r)
      ensures Newest(before, r)
    {
      forall x | x in before && x.key == r.key
        ensures x.updatedAt <= r.updatedAt
      {
        assert Covered(after, x);
        var s :| s in after && s.key == x.key && x.updatedAt <= s.updatedAt;
      }
    }
  }

  /** Appending a row that lies in a later second than every row of its key makes it strictly latest. */
  lemma AppendTerminal<K, D>(log: multiset<StateRow<K, D>>, row: StateRow<K, D>, bound: Time)
    requires Bounded(log, row.key, bound) && SecondOf(bound) < SecondOf(row.updatedAt)
    ensures StrictlyLatest(log + multiset{row}, row)
    ensures Newest(log + multiset{row}, row)
  {
  }

  /** The first importing row of a run, in a later second than all earlier rows, makes the date read as importing. */
  lemma AppendFirstImporting<K, D>(log: multiset<StateRow<K, D>>, row: StateRow<K, D>, now: Time)
    requires SecondsBefore(log, row.key, now) && row.status == Importing
    requires row.updatedAt <= now && SecondOf(row.updatedAt) == SecondOf(now)
    ensures ImportingSince(log + multiset{row}, row.key, row.updatedAt)
    ensures Bounded(log + multiset{row}, row.key, now)
  {
  }

  /** Progress rows keep the date importing whatever instants the clock gives them. */
  lemma AppendProgress<K, D>(log: multiset<StateRow<K, D>>, row: StateRow<K, D>, since: Time, bound: Time)
    requires ImportingSince(log, row.key, since) && Bounded(log, row.key, bound) && row.status == Importing
    ensures ImportingSince(log + multiset{row}, row.key, since)
    ensures Bounded(log + multiset{row}, row.key, if row.updatedAt > bound then row.updatedAt else bound)
  {
  }

  /** A key with rows has a latest one, so a read that finds rows has an answer. */
  lemma {:induction false} LatestExists<K, D>(log: multiset<StateRow<K, D>>, key: K)
    requires exists r <- log :: r.key == key
    ensures exists r <- log :: r.key == key && IsLatest(log, r)
    decreases |log|
  {
    var r :| r in log && r.key == key;
    var rest := log - multiset{r};
    assert log == rest + multiset{r};
    if exists s <- rest :: s.key == key {
      LatestExists(rest, key);
      var s :| s in rest && s.key == key && IsLatest(rest, s);
      assert if AtMost(r, s) then IsLatest(log, s) else IsLatest(log, r);
    } else {
      assert IsLatest(log, r);
    }
  }
}
