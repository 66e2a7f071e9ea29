/**
  The response cache of the dashboard as a step relation: any number of `Get` calls, the ends of
  their loads and `Clear` may interleave in any way, and every clock reading is arbitrary.
 */
module ResponseCache {
  import opened Wrappers

  const DEFAULT_TTL := 300_000_000_000
  const RETRY_DELAY := 1_000_000_000

  /**
    A loaded value. For the statements below it also records which call loaded it and how often
    the cache had been cleared when that load began.
   */
  datatype Stored<V> = Stored(value: V, loadedAt: int, owner: nat, epoch: nat)

  /** `loading` names the call whose channel the entry holds; `created` is the number of clears before the entry was made. */
  datatype Entry<V> = Entry(key: string, created: nat, stored: Option<Stored<V>>, loading: Option<nat>, lastAttempt: int, failed: bool)

  datatype Outcome<V> = Answer(stored: Stored<V>, stale: bool) | Failure | Cancelled

  datatype Pc<V> =
    | Ready                            // at the top of the retry loop
    | Clocked                          // has read the clock, has not locked yet
    | WaitingFor(loader: nat)          // waiting for that call to close its channel
    | Loading(entry: nat, epoch: nat)  // inside the loader, without the lock
    | Finished(outcome: Outcome<V>)

  /** A call of `Get`; `floor` is the number of clears that were complete when it began. */
  datatype Call<V> = Call(key: string, floor: nat, clock: int, pc: Pc<V>)

  datatype State<V> = State(
    ttl: int, staleOnError: bool,
    table: map<string, nat>, entries: seq<Entry<V>>, calls: seq<Call<V>>, clears: nat)

  datatype Action<V> =
    | Begin(key: string)
    | ReadClock(c: nat, now: int)
    | Enter(c: nat)
    | Wake(c: nat) | Cancel(c: nat)
    | Load(c: nat, value: V, at: int) | Fail(c: nat, at: int)
    | Clear

  function New<V>(ttl: int, staleOnError: bool): (s: State<V>)
    ensures Inv(s)
  {
    State(if ttl <= 0 then DEFAULT_TTL else ttl, staleOnError, map[], [], [], 0)
  }

  predicate IsFresh<V>(s: State<V>, entry: Entry<V>, now: int) {
    entry.stored.Some? && now - entry.stored.value.loadedAt < s.ttl
  }

  predicate IsSuppressed<V>(s: State<V>, entry: Entry<V>, now: int) {
    s.staleOnError && entry.failed && entry.stored.Some? && now - entry.lastAttempt < RETRY_DELAY
  }

  predicate Enabled<V>(s: State<V>, a: Action<V>) {
    match a
    case Begin(_) => true
    case ReadClock(c, _) => c < |s.calls| && s.calls[c].pc.Ready?
    case Enter(c) =>
      && c < |s.calls| && s.calls[c].pc.Clocked?
      && (s.calls[c].key in s.table ==> s.table[s.calls[c].key] < |s.entries|)
    case Wake(c) =>
      // A call closes its channel in the step that ends its load.
      && c < |s.calls| && s.calls[c].pc.WaitingFor?
      && s.calls[c].pc.loader < |s.calls| && s.calls[s.calls[c].pc.loader].pc.Finished?
    case Cancel(c) => c < |s.calls| && s.calls[c].pc.WaitingFor?
    case Load(c, _, _) => c < |s.calls| && s.calls[c].pc.Loading? && s.calls[c].pc.entry < |s.entries|
    case Fail(c, _) => c < |s.calls| && s.calls[c].pc.Loading? && s.calls[c].pc.entry < |s.entries|
    case Clear => true
  }

  function SetCall<V>(s: State<V>, c: nat, call: Call<V>): State<V>
    requires c < |s.calls|
  {
    s.(calls := s.calls[c := call])
  }

  function SetEntry<V>(s: State<V>, e: nat, entry: Entry<V>): State<V>
    requires e < |s.entries|
  {
    s.(entries := s.entries[e := entry])
  }

  /** Makes the entry of a key when the table has none. */
  function WithEntry<V>(s: State<V>, key: string): State<V> {
    if key in s.table then s
    else s.(table := s.table[key := |s.entries|], entries := s.entries + [Entry(key, s.clears, None, None, 0, false)])
  }

  function StartLoad<V>(s: State<V>, c: nat, e: nat): State<V>
    requires c < |s.calls| && e < |s.entries|
  {
    SetCall(SetEntry(s, e, s.entries[e].(loading := Some(c))), c, s.calls[c].(pc := Loading(e, s.clears)))
  }

  /** The locked section at the top of the loop. */
  function Decide<V>(s: State<V>, c: nat): State<V>
    requires c < |s.calls| && s.calls[c].key in s.table && s.table[s.calls[c].key] < |s.entries|
  {
    var call := s.calls[c];
    var e := s.table[call.key];
    var entry := s.entries[e];
    if entry.loading.Some? then SetCall(s, c, call.(pc := WaitingFor(entry.loading.value)))
    else if IsFresh(s, entry, call.clock) then SetCall(s, c, call.(pc := Finished(Answer(entry.stored.value, false))))
    else if IsSuppressed(s, entry, call.clock) then SetCall(s, c, call.(pc := Finished(Answer(entry.stored.value, true))))
    else StartLoad(s, c, e)
  }

  /** The locked section after the loader returned. */
  function EndLoad<V>(s: State<V>, c: nat, result: Option<V>, at: int): State<V>
    requires c < |s.calls| && s.calls[c].pc.Loading? && s.calls[c].pc.entry < |s.entries|
  {
    var call := s.calls[c];
    var e := call.pc.entry;
    var entry := s.entries[e].(loading := None, lastAttempt := at, failed := result.None?);
    match result
    case Some(value) =>
      var stored := Stored(value, at, c, call.pc.epoch);
      SetCall(SetEntry(s, e, entry.(stored := Some(stored))), c, call.(pc := Finished(Answer(stored, false))))
    case None =>
      var outcome := if s.staleOnError && entry.stored.Some? then Answer(entry.stored.value, true) else Failure;
      SetCall(SetEntry(s, e, entry), c, call.(pc := Finished(outcome)))
  }

  function Apply<V>(s: State<V>, a: Action<V>): State<V>
    requires Enabled(s, a)
  {
    match a
    case Begin(key) => s.(calls := s.calls + [Call(key, s.clears, 0, Ready)])
    case ReadClock(c, now) => SetCall(s, c, s.calls[c].(clock := now, pc := Clocked))
    case Enter(c) => Decide(WithEntry(s, s.calls[c].key), c)
    case Wake(c) => SetCall(s, c, s.calls[c].(pc := Ready))
    case Cancel(c) => SetCall(s, c, s.calls[c].(pc := Finished(Cancelled)))
    case Load(c, value, at) => EndLoad(s, c, Some(value), at)
    case Fail(c, at) => EndLoad(s, c, None, at)
    case Clear => s.(table := map[], clears := s.clears + 1)
  }

  /** The value was loaded by a call for this key, which returned it as its own answer. */
  ghost predicate LoadedFor<V>(calls: seq<Call<V>>, key: string, stored: Stored<V>) {
    && stored.owner < |calls|
    && calls[stored.owner].key == key
    && calls[stored.owner].pc == Finished(Answer(stored, false))
  }

  ghost predicate EntryOk<V>(s: State<V>, e: nat, entry: Entry<V>) {
    && entry.created <= s.clears
    && (entry.created == s.clears ==> entry.key in s.table && s.table[entry.key] == e)
    && (entry.loading.Some? ==>
          && entry.loading.value < |s.calls|
          && s.calls[entry.loading.value].pc.Loading? && s.calls[entry.loading.value].pc.entry == e)
    && (entry.stored.Some? ==> entry.created <= entry.stored.value.epoch <= s.clears && LoadedFor(s.calls, entry.key, entry.stored.value))
  }

  ghost predicate AnswerOk<V>(s: State<V>, c: nat, call: Call<V>, stored: Stored<V>, stale: bool) {
    && call.floor <= stored.epoch <= s.clears
    && LoadedFor(s.calls, call.key, stored)
    && (stale ==> s.staleOnError)
    && (stale <==> stored.owner != c && call.clock - stored.loadedAt >= s.ttl)
  }

  ghost predicate LoadOk<V>(s: State<V>, c: nat, call: Call<V>, e: nat, epoch: nat) {
    && e < |s.entries|
    && s.entries[e].loading == Some(c) && s.entries[e].key == call.key
    && call.floor <= s.entries[e].created <= epoch <= s.clears
    && !IsFresh(s, s.entries[e], call.clock) && !IsSuppressed(s, s.entries[e], call.clock)
  }

  ghost predicate CallOk<V>(s: State<V>, c: nat, call: Call<V>) {
    && call.floor <= s.clears
    && match call.pc
       case WaitingFor(l) => l < |s.calls| && s.calls[l].key == call.key && (s.calls[l].pc.Loading? || s.calls[l].pc.Finished?)
       case Loading(e, epoch) => LoadOk(s, c, call, e, epoch)
       case Finished(Answer(stored, stale)) => AnswerOk(s, c, call, stored, stale)
       case _ => true
  }

  ghost predicate Inv<V>(s: State<V>) {
    && s.ttl > 0
    && (forall k <- s.table :: s.table[k] < |s.entries| && s.entries[s.table[k]].key == k && s.entries[s.table[k]].created == s.clears)
    && (forall e :: 0 <= e < |s.entries| ==> EntryOk(s, e, s.entries[e]))
    && (forall c :: 0 <= c < |s.calls| ==> CallOk(s, c, s.calls[c]))
    && (forall d, e :: 0 <= d < e < |s.entries| && s.entries[d].key == s.entries[e].key ==> s.entries[d].created != s.entries[e].created)
  }

  /** A step of one call that neither begins nor ends a load. */
  lemma MoveKeepsInv<V>(s: State<V>, c: nat, call: Call<V>)
    requires Inv(s) && c < |s.calls| && CallOk(s, c, call)
    requires !s.calls[c].pc.Loading? && !s.calls[c].pc.Finished? && !call.pc.Loading?
    requires call.key == s.calls[c].key
    ensures Inv(SetCall(s, c, call))
  {
  }

  lemma BeginKeepsInv<V>(s: State<V>, key: string)
    requires Inv(s)
    ensures Inv(Apply(s, Begin(key)))
  {
  }

  lemma ClearKeepsInv<V>(s: State<V>)
    requires Inv(s)
    ensures Inv(Apply(s, Clear))
  {
  }

  lemma WithEntryKeepsInv<V>(s: State<V>, key: string)
    requires Inv(s)
    ensures Inv(WithEntry(s, key)) && key in WithEntry(s, key).table
  {
    var t := WithEntry(s, key);
    forall i | 0 <= i < |t.calls|
      ensures CallOk(t, i, t.calls[i])
    {
      assert CallOk(s, i, s.calls[i]);
    }
    forall e | 0 <= e < |t.entries|
      ensures EntryOk(t, e, t.entries[e])
    {
      assert e < |s.entries| ==> EntryOk(s, e, s.entries[e]);
    }
  }

  lemma StartLoadKeepsCalls<V>(s: State<V>, c: nat, e: nat, i: nat)
    requires Inv(s) && c < |s.calls| && s.calls[c].pc.Clocked? && e < |s.entries| && i < |s.calls|
    requires s.calls[c].key in s.table && s.table[s.calls[c].key] == e && s.entries[e].loading == None
    requires !IsFresh(s, s.entries[e], s.calls[c].clock) && !IsSuppressed(s, s.entries[e], s.calls[c].clock)
    ensures CallOk(StartLoad(s, c, e), i, StartLoad(s, c, e).calls[i])
  {
    assert CallOk(s, c, s.calls[c]) && CallOk(s, i, s.calls[i]);
  }

  lemma StartLoadKeepsInv<V>(s: State<V>, c: nat, e: nat)
    requires Inv(s) && c < |s.calls| && s.calls[c].pc.Clocked? && e < |s.entries|
    requires s.calls[c].key in s.table && s.table[s.calls[c].key] == e && s.entries[e].loading == None
    requires !IsFresh(s, s.entries[e], s.calls[c].clock) && !IsSuppressed(s, s.entries[e], s.calls[c].clock)
    ensures Inv(StartLoad(s, c, e))
  {
    var t := StartLoad(s, c, e);
    forall i | 0 <= i < |t.calls|
      ensures CallOk(t, i, t.calls[i])
    {
      StartLoadKeepsCalls(s, c, e, i);
    }
    forall d | 0 <= d < |t.entries|
      ensures EntryOk(t, d, t.entries[d])
    {
      assert EntryOk(s, d, s.entries[d]);
    }
  }

  lemma DecideKeepsInv<V>(s: State<V>, c: nat)
    requires Inv(s) && c < |s.calls| && s.calls[c].pc.Clocked?
    requires s.calls[c].key in s.table
    ensures Inv(Decide(s, c))
  {
    var call := s.calls[c];
    var e := s.table[call.key];
    var entry := s.entries[e];
    assert EntryOk(s, e, entry) && CallOk(s, c, call);
    if entry.loading.Some? {
      assert CallOk(s, entry.loading.value, s.calls[entry.loading.value]);
      MoveKeepsInv(s, c, call.(pc := WaitingFor(entry.loading.value)));
    } else if IsFresh(s, entry, call.clock) {
      MoveKeepsInv(s, c, call.(pc := Finished(Answer(entry.stored.value, false))));
    } else if IsSuppressed(s, entry, call.clock) {
      MoveKeepsInv(s, c, call.(pc := Finished(Answer(entry.stored.value, true))));
    } else {
      StartLoadKeepsInv(s, c, e);
    }
  }

  lemma EndLoadKeepsOthers<V>(s: State<V>, c: nat, result: Option<V>, at: int, i: nat)
    requires Inv(s) && c < |s.calls| && s.calls[c].pc.Loading? && s.calls[c].pc.entry < |s.entries| && i < |s.calls| && i != c
    ensures var t := EndLoad(s, c, result, at); CallOk(t, i, t.calls[i])
  {
    assert CallOk(s, c, s.calls[c]) && CallOk(s, i, s.calls[i]);
  }

  lemma EndLoadKeepsOwn<V>(s: State<V>, c: nat, result: Option<V>, at: int)
    requires Inv(s) && c < |s.calls| && s.calls[c].pc.Loading? && s.calls[c].pc.entry < |s.entries|
    ensures var t := EndLoad(s, c, result, at); CallOk(t, c, t.calls[c])
  {
    assert CallOk(s, c, s.calls[c]);
    assert EntryOk(s, s.calls[c].pc.entry, s.entries[s.calls[c].pc.entry]);
  }

  lemma EndLoadKeepsEntry<V>(s: State<V>, c: nat, result: Option<V>, at: int, e: nat)
    requires Inv(s) && c < |s.calls| && s.calls[c].pc.Loading? && s.calls[c].pc.entry < |s.entries| && e < |s.entries|
    ensures var t := EndLoad(s, c, result, at); EntryOk(t, e, t.entries[e])
  {
    assert CallOk(s, c, s.calls[c]) && EntryOk(s, e, s.entries[e]);
  }

  lemma EndLoadKeepsInv<V>(s: State<V>, c: nat, result: Option<V>, at: int)
    requires Inv(s) && c < |s.calls| && s.calls[c].pc.Loading? && s.calls[c].pc.entry < |s.entries|
    ensures Inv(EndLoad(s, c, result, at))
  {
    var t := EndLoad(s, c, result, at);
    forall i | 0 <= i < |t.calls|
      ensures CallOk(t, i, t.calls[i])
    {
      if i == c {
        EndLoadKeepsOwn(s, c, result, at);
      } else {
        EndLoadKeepsOthers(s, c, result, at, i);
      }
    }
    forall e | 0 <= e < |t.entries|
      ensures EntryOk(t, e, t.entries[e])
    {
      EndLoadKeepsEntry(s, c, result, at, e);
    }
  }

  lemma StepKeepsInv<V>(s: State<V>, a: Action<V>)
    requires Inv(s) && Enabled(s, a)
    ensures Inv(Apply(s, a))
  {
    match a
    case Begin(key) => BeginKeepsInv(s, key);
    case ReadClock(c, now) =>
      assert CallOk(s, c, s.calls[c]);
      MoveKeepsInv(s, c, s.calls[c].(clock := now, pc := Clocked));
    case Enter(c) =>
      WithEntryKeepsInv(s, s.calls[c].key);
      DecideKeepsInv(WithEntry(s, s.calls[c].key), c);
    case Wake(c) =>
      assert CallOk(s, c, s.calls[c]);
      MoveKeepsInv(s, c, s.calls[c].(pc := Ready));
    case Cancel(c) =>
      assert CallOk(s, c, s.calls[c]);
      MoveKeepsInv(s, c, s.calls[c].(pc := Finished(Cancelled)));
    case Load(c, value, at) => EndLoadKeepsInv(s, c, Some(value), at);
    case Fail(c, at) => EndLoadKeepsInv(s, c, None, at);
    case Clear => ClearKeepsInv(s);
  }

  /** Whether the steps can be taken one after the other from `s`. */
  predicate Possible<V>(s: State<V>, steps: seq<Action<V>>)
    decreases steps
  {
    steps == [] || (Enabled(s, steps[0]) && Possible(Apply(s, steps[0]), steps[1..]))
  }

  function After<V>(s: State<V>, steps: seq<Action<V>>): State<V>
    requires Possible(s, steps)
    decreases steps
  {
    if steps == [] then s else After(Apply(s, steps[0]), steps[1..])
  }

  lemma {:induction false} RunKeepsInv<V>(s: State<V>, steps: seq<Action<V>>)
    requires Inv(s) && Possible(s, steps)
    ensures Inv(After(s, steps)) && After(s, steps).ttl == s.ttl && After(s, steps).staleOnError == s.staleOnError
    decreases steps
  {
    if steps != [] {
      StepKeepsInv(s, steps[0]);
      RunKeepsInv(Apply(s, steps[0]), steps[1..]);
    }
  }

  /**
    Single flight: two calls load at the same time only into different entries, and for the same
    key only when the cache was cleared between the making of those entries.
   */
  lemma LoadsDoNotOverlap<V>(ttl: int, staleOnError: bool, steps: seq<Action<V>>, c: nat, d: nat)
    requires Possible(New(ttl, staleOnError), steps)
    requires var s := After(New(ttl, staleOnError), steps);
             c < |s.calls| && d < |s.calls| && s.calls[c].pc.Loading? && s.calls[d].pc.Loading? && c != d
    ensures var s := After(New(ttl, staleOnError), steps);
            var e, f := s.calls[c].pc.entry, s.calls[d].pc.entry;
            && e < |s.entries| && f < |s.entries| && e != f
            && (s.calls[c].key == s.calls[d].key ==> s.entries[e].created != s.entries[f].created)
  {
    RunKeepsInv(New(ttl, staleOnError), steps);
    var s := After(New(ttl, staleOnError), steps);
    assert CallOk(s, c, s.calls[c]) && CallOk(s, d, s.calls[d]);
  }

  /**
    A call loads only what had expired by its clock, and with `staleOnError` not within a second of
    a failed attempt. While it loads, nobody else touches the entry.
   */
  lemma LoadsAreDue<V>(ttl: int, staleOnError: bool, steps: seq<Action<V>>, c: nat)
    requires Possible(New(ttl, staleOnError), steps)
    requires c < |After(New(ttl, staleOnError), steps).calls| && After(New(ttl, staleOnError), steps).calls[c].pc.Loading?
    ensures var s := After(New(ttl, staleOnError), steps);
            var e := s.calls[c].pc.entry;
            && e < |s.entries| && s.entries[e].key == s.calls[c].key && s.entries[e].loading == Some(c)
            && (s.entries[e].stored.Some? ==>
                  && s.calls[c].clock - s.entries[e].stored.value.loadedAt >= (if ttl <= 0 then DEFAULT_TTL else ttl)
                  && (staleOnError && s.entries[e].failed ==> s.calls[c].clock - s.entries[e].lastAttempt >= RETRY_DELAY))
  {
    RunKeepsInv(New(ttl, staleOnError), steps);
    var s := After(New(ttl, staleOnError), steps);
    assert CallOk(s, c, s.calls[c]);
  }

  /** A stored value changes in one way only: the load of the entry's one loader succeeds. A failed load keeps it. */
  lemma OnlyLoadsStore<V>(s: State<V>, a: Action<V>, e: nat)
    requires Inv(s) && Enabled(s, a) && e < |s.entries|
    ensures e < |Apply(s, a).entries|
    ensures Apply(s, a).entries[e].stored != s.entries[e].stored ==>
              && a.Load? && s.entries[e].loading == Some(a.c) && s.calls[a.c].pc.Loading?
              && Apply(s, a).entries[e].stored == Some(Stored(a.value, a.at, a.c, s.calls[a.c].pc.epoch))
  {
    if a.Load? || a.Fail? {
      assert CallOk(s, a.c, s.calls[a.c]);
    }
  }

  /** The step ends the load of a call into entry `e`. */
  ghost predicate EndsLoad<V>(s: State<V>, a: Action<V>, e: nat) {
    (a.Load? || a.Fail?) && a.c < |s.calls| && s.calls[a.c].pc.Loading? && s.calls[a.c].pc.entry == e
  }

  ghost predicate NoEnd<V>(s: State<V>, steps: seq<Action<V>>, e: nat)
    requires Possible(s, steps)
    decreases steps
  {
    steps == [] || (!EndsLoad(s, steps[0], e) && NoEnd(Apply(s, steps[0]), steps[1..], e))
  }

  /** What an entry knows of its last load stays until the next one ends. */
  lemma {:induction false} LastEndIsRemembered<V>(s: State<V>, steps: seq<Action<V>>, e: nat)
    requires Possible(s, steps) && NoEnd(s, steps, e) && e < |s.entries|
    ensures e < |After(s, steps).entries|
    ensures var was, now := s.entries[e], After(s, steps).entries[e];
            now.stored == was.stored && now.failed == was.failed && now.lastAttempt == was.lastAttempt
    decreases steps
  {
    if steps != [] {
      LastEndIsRemembered(Apply(s, steps[0]), steps[1..], e);
    }
  }

  /**
    When a call loads: nobody else is loading, the value has expired or there is none, and not if the
    last load of the entry failed less than a second before the call's clock and a stale value can
    be given instead. The last load is the step `last`, behind which no other one ended.
   */
  lemma LoadsUnlessJustFailed<V>(
    ttl: int, staleOnError: bool, before: seq<Action<V>>, last: Action<V>, e: nat, since: seq<Action<V>>, c: nat)
    requires Possible(New(ttl, staleOnError), before)
    requires var s := After(New(ttl, staleOnError), before);
             && Enabled(s, last) && EndsLoad(s, last, e)
             && Possible(Apply(s, last), since) && NoEnd(Apply(s, last), since, e)
             && Enabled(After(Apply(s, last), since), Enter(c))
             && Serves(After(Apply(s, last), since), c, e)
    ensures var s := After(New(ttl, staleOnError), before);
            var t := After(Apply(s, last), since);
            var stored := if last.Load? then Some(Stored(last.value, last.at, last.c, s.calls[last.c].pc.epoch)) else s.entries[e].stored;
            && t.entries[e].stored == stored
            && (Apply(t, Enter(c)).calls[c].pc.Loading? <==>
                  && t.entries[e].loading.None?
                  && (stored.None? || t.calls[c].clock - stored.value.loadedAt >= (if ttl <= 0 then 300_000_000_000 else ttl))
                  && !(last.Fail? && staleOnError && stored.Some? && t.calls[c].clock - last.at < 1_000_000_000))
  {
    var start := New<V>(ttl, staleOnError);
    RunKeepsInv(start, before);
    var s := After(start, before);
    StepKeepsInv(s, last);
    RunKeepsInv(Apply(s, last), since);
    LastEndIsNoted(s, last, e);
    LastEndIsRemembered(Apply(s, last), since, e);
    EnterLoads(After(Apply(s, last), since), c, e);
  }

  lemma LastEndIsNoted<V>(s: State<V>, last: Action<V>, e: nat)
    requires Enabled(s, last) && EndsLoad(s, last, e)
    ensures |Apply(s, last).entries| == |s.entries|
    ensures var entry := Apply(s, last).entries[e];
            && entry.failed == last.Fail? && entry.lastAttempt == last.at
            && entry.stored == if last.Load? then Some(Stored(last.value, last.at, last.c, s.calls[last.c].pc.epoch)) else s.entries[e].stored
  {
  }

  lemma EnterLoads<V>(s: State<V>, c: nat, e: nat)
    requires Enabled(s, Enter(c)) && Serves(s, c, e)
    ensures c < |Apply(s, Enter(c)).calls|
    ensures var entry, now := s.entries[e], s.calls[c].clock;
            Apply(s, Enter(c)).calls[c].pc.Loading? <==>
              && entry.loading.None?
              && (entry.stored.None? || now - entry.stored.value.loadedAt >= s.ttl)
              && !(entry.failed && s.staleOnError && entry.stored.Some? && now - entry.lastAttempt < 1_000_000_000)
  {
  }

  /** The table has entry `e` for the key of the call. */
  ghost predicate Serves<V>(s: State<V>, c: nat, e: nat) {
    c < |s.calls| && s.calls[c].key in s.table && s.table[s.calls[c].key] == e && e < |s.entries|
  }

  /** A call whose load failed answers with the stale value where there is one and that is wanted, and fails otherwise. */
  lemma FailedLoadsEnd<V>(s: State<V>, c: nat, at: int)
    requires Inv(s) && Enabled(s, Fail(c, at))
    ensures var e := s.calls[c].pc.entry;
            Apply(s, Fail(c, at)).calls[c].pc ==
            Finished(if s.staleOnError && s.entries[e].stored.Some? then Answer(s.entries[e].stored.value, true) else Failure)
  {
  }

  /**
    What an answer is: a value that a call for the same key loaded and answered itself, whose load
    began after the last clear that preceded this call. It is marked stale exactly when another call
    loaded it and its time to live was over by this call's clock, and such an answer is only given
    when the cache was made to do so.
   */
  lemma AnswersAreCurrent<V>(ttl: int, staleOnError: bool, steps: seq<Action<V>>, c: nat)
    requires Possible(New(ttl, staleOnError), steps)
    requires var s := After(New(ttl, staleOnError), steps);
             c < |s.calls| && s.calls[c].pc.Finished? && s.calls[c].pc.outcome.Answer?
    ensures var s := After(New(ttl, staleOnError), steps);
            var call, stored := s.calls[c], s.calls[c].pc.outcome.stored;
            && call.floor <= stored.epoch
            && LoadedFor(s.calls, call.key, stored)
            && (call.pc.outcome.stale ==> staleOnError)
            && (call.pc.outcome.stale <==>
                  stored.owner != c && call.clock - stored.loadedAt >= (if ttl <= 0 then DEFAULT_TTL else ttl))
  {
    RunKeepsInv(New(ttl, staleOnError), steps);
    var s := After(New(ttl, staleOnError), steps);
    assert CallOk(s, c, s.calls[c]);
  }

  ghost predicate HasValue<V>(s: State<V>, key: string) {
    key in s.table && s.table[key] < |s.entries| && s.entries[s.table[key]].stored.Some?
  }

  /** The calls for `key` from call `n` on load the entry of the table, and none of them has failed. */
  ghost predicate ServedFrom<V>(s: State<V>, key: string, n: nat) {
    && HasValue(s, key)
    && forall c :: n <= c < |s.calls| && s.calls[c].key == key ==> ServedCall(s, s.calls[c])
  }

  ghost predicate ServedCall<V>(s: State<V>, call: Call<V>)
    requires call.key in s.table
  {
    match call.pc
    case Loading(e, _) => e == s.table[call.key]
    case Finished(outcome) => !outcome.Failure?
    case _ => true
  }

  lemma StepKeepsValue<V>(s: State<V>, a: Action<V>, key: string)
    requires Inv(s) && Enabled(s, a) && !a.Clear? && HasValue(s, key)
    ensures HasValue(Apply(s, a), key) && Apply(s, a).table[key] == s.table[key]
  {
  }

  /** A call that enters takes the value, waits for a loader, or loads into the entry of the table. */
  lemma EnterServesCall<V>(s: State<V>, a: Action<V>, c: nat)
    requires Inv(s) && s.staleOnError && Enabled(s, a) && a.Enter?
    requires c < |Apply(s, a).calls| && HasValue(s, Apply(s, a).calls[c].key)
    requires c < |s.calls| ==> s.calls[c].key in s.table && ServedCall(s, s.calls[c])
    ensures var t := Apply(s, a); t.calls[c].key in t.table && ServedCall(t, t.calls[c])
  {
    StepKeepsValue(s, a, Apply(s, a).calls[c].key);
  }

  lemma EndServesCall<V>(s: State<V>, a: Action<V>, c: nat)
    requires Inv(s) && s.staleOnError && Enabled(s, a) && (a.Load? || a.Fail?)
    requires c < |Apply(s, a).calls| && HasValue(s, Apply(s, a).calls[c].key)
    requires c < |s.calls| ==> s.calls[c].key in s.table && ServedCall(s, s.calls[c])
    ensures var t := Apply(s, a); t.calls[c].key in t.table && ServedCall(t, t.calls[c])
  {
    StepKeepsValue(s, a, Apply(s, a).calls[c].key);
    if a.Fail? && a.c == c {
      FailedLoadsEnd(s, c, a.at);
    }
  }

  lemma StepServesCall<V>(s: State<V>, a: Action<V>, c: nat)
    requires Inv(s) && s.staleOnError && Enabled(s, a) && !a.Clear?
    requires c < |Apply(s, a).calls| && HasValue(s, Apply(s, a).calls[c].key)
    requires c < |s.calls| ==> s.calls[c].key in s.table && ServedCall(s, s.calls[c])
    ensures var t := Apply(s, a); t.calls[c].key in t.table && ServedCall(t, t.calls[c])
  {
    match a
    case Enter(_) => EnterServesCall(s, a, c);
    case Load(_, _, _) => EndServesCall(s, a, c);
    case Fail(_, _) => EndServesCall(s, a, c);
    case _ =>
  }

  lemma StepServes<V>(s: State<V>, a: Action<V>, key: string, n: nat)
    requires Inv(s) && s.staleOnError && Enabled(s, a) && !a.Clear? && ServedFrom(s, key, n)
    ensures ServedFrom(Apply(s, a), key, n)
  {
    StepKeepsValue(s, a, key);
    var t := Apply(s, a);
    forall c | n <= c < |t.calls| && t.calls[c].key == key
      ensures ServedCall(t, t.calls[c])
    {
      CallKeepsKey(s, a, c);
      StepServesCall(s, a, c);
    }
  }

  lemma CallKeepsKey<V>(s: State<V>, a: Action<V>, c: nat)
    requires Enabled(s, a)
    ensures |s.calls| <= |Apply(s, a).calls|
    ensures c < |s.calls| ==> Apply(s, a).calls[c].key == s.calls[c].key
  {
  }

  lemma {:induction false} RunServes<V>(s: State<V>, steps: seq<Action<V>>, key: string, n: nat)
    requires Inv(s) && s.staleOnError && Possible(s, steps) && forall a <- steps :: !a.Clear?
    requires ServedFrom(s, key, n)
    ensures ServedFrom(After(s, steps), key, n)
    decreases steps
  {
    if steps != [] {
      StepKeepsInv(s, steps[0]);
      StepServes(s, steps[0], key, n);
      RunServes(Apply(s, steps[0]), steps[1..], key, n);
    }
  }

  /**
    A cache made to answer with stale values does not fail a key that it has loaded: no call that
    begins after that ends in failure until the cache is cleared, however often loading fails.
   */
  lemma LoadedKeysDoNotFail<V>(ttl: int, before: seq<Action<V>>, key: string, after: seq<Action<V>>, c: nat)
    requires Possible(New(ttl, true), before) && HasValue(After(New(ttl, true), before), key)
    requires Possible(After(New(ttl, true), before), after) && forall a <- after :: !a.Clear?
    requires var s := After(New(ttl, true), before);
             |s.calls| <= c < |After(s, after).calls| && After(s, after).calls[c].key == key
    ensures var call := After(After(New(ttl, true), before), after).calls[c];
            call.pc.Finished? ==> !call.pc.outcome.Failure?
  {
    var start := New<V>(ttl, true);
    RunKeepsInv(start, before);
    var s := After(start, before);
    RunServes(s, after, key, |s.calls|);
    assert ServedCall(After(s, after), After(s, after).calls[c]);
  }

  lemma StepKeepsEpoch<V>(s: State<V>, a: Action<V>, l: nat, epoch: nat)
    requires Inv(s) && Enabled(s, a) && LoadBegan(s, l, epoch)
    ensures LoadBegan(Apply(s, a), l, epoch)
  {
    assert CallOk(s, l, s.calls[l]);
  }

  /** Once a call has begun its load, the number of clears that the load is filed under never changes. */
  lemma {:induction false} LoadsKeepTheirEpoch<V>(s: State<V>, steps: seq<Action<V>>, l: nat, epoch: nat)
    requires Inv(s) && Possible(s, steps) && LoadBegan(s, l, epoch)
    ensures LoadBegan(After(s, steps), l, epoch)
    decreases steps
  {
    if steps != [] {
      StepKeepsInv(s, steps[0]);
      StepKeepsEpoch(s, steps[0], l, epoch);
      LoadsKeepTheirEpoch(Apply(s, steps[0]), steps[1..], l, epoch);
    }
  }

  /** Call `l` has begun its load, after at most `epoch` clears, or has ended without one. */
  ghost predicate LoadBegan<V>(s: State<V>, l: nat, epoch: nat) {
    && l < |s.calls|
    && match s.calls[l].pc
       case Loading(_, began) => began <= epoch
       case Finished(Answer(stored, false)) => stored.epoch <= epoch
       case Finished(_) => true
       case _ => false
  }

  lemma {:induction false} CallsKeepTheirFloor<V>(s: State<V>, steps: seq<Action<V>>, c: nat)
    requires Possible(s, steps) && c < |s.calls|
    ensures c < |After(s, steps).calls|
    ensures After(s, steps).calls[c].floor == s.calls[c].floor && After(s, steps).calls[c].key == s.calls[c].key
    decreases steps
  {
    if steps != [] {
      CallsKeepTheirFloor(Apply(s, steps[0]), steps[1..], c);
    }
  }

  lemma {:induction false} ClearsOnlyGrow<V>(s: State<V>, steps: seq<Action<V>>)
    requires Possible(s, steps)
    ensures s.clears <= After(s, steps).clears
    decreases steps
  {
    if steps != [] {
      ClearsOnlyGrow(Apply(s, steps[0]), steps[1..]);
    }
  }

  /**
    A call that begins after a clear never answers with the value of a load that was under way or
    over at that clear, whatever happens before, between and after.
   */
  lemma ClearedValuesAreNotServed<V>(
    ttl: int, staleOnError: bool, before: seq<Action<V>>, between: seq<Action<V>>, key: string, after: seq<Action<V>>, l: nat)
    requires Possible(New(ttl, staleOnError), before)
    requires var s := After(New(ttl, staleOnError), before);
             && l < |s.calls| && (s.calls[l].pc.Loading? || s.calls[l].pc.Finished?)
             && Possible(Apply(s, Clear), between)
             && Possible(Apply(After(Apply(s, Clear), between), Begin(key)), after)
    ensures var t := After(Apply(After(New(ttl, staleOnError), before), Clear), between);
            var u := After(Apply(t, Begin(key)), after);
            var c := |t.calls|;
            && c < |u.calls| && u.calls[c].key == key
            && (u.calls[c].pc.Finished? && u.calls[c].pc.outcome.Answer? ==> u.calls[c].pc.outcome.stored.owner != l)
  {
    var start := New<V>(ttl, staleOnError);
    var s := After(start, before);
    RunKeepsInv(start, before);
    assert CallOk(s, l, s.calls[l]);
    assert LoadBegan(s, l, s.clears);
    StepKeepsInv(s, Clear);
    var cleared := Apply(s, Clear);
    var t := After(cleared, between);
    LoadsKeepTheirEpoch(cleared, between, l, s.clears);
    ClearsOnlyGrow(cleared, between);
    RunKeepsInv(cleared, between);
    StepKeepsInv(t, Begin(key));
    var begun := Apply(t, Begin(key));
    LoadsKeepTheirEpoch(begun, after, l, s.clears);
    CallsKeepTheirFloor(begun, after, |t.calls|);
    RunKeepsInv(begun, after);
    var u := After(begun, after);
    assert CallOk(u, |t.calls|, u.calls[|t.calls|]);
  }

  /** The steps that need neither a new call, nor a clear, nor a cancelled context. */
  predicate Progress<V>(a: Action<V>) {
    !a.Begin? && !a.Clear? && !a.Cancel?
  }

  /**
    No wake-up is lost: a call that waits, waits for another call for its key that is loading or
    has closed its channel; so some call can always move until all have finished.
   */
  lemma NoLostWakeUp<V>(ttl: int, staleOnError: bool, steps: seq<Action<V>>, c: nat, value: V)
    requires Possible(New(ttl, staleOnError), steps)
    requires c < |After(New(ttl, staleOnError), steps).calls|
    ensures var s := After(New(ttl, staleOnError), steps);
            match s.calls[c].pc
            case Finished(_) => true
            case WaitingFor(l) =>
              && l < |s.calls| && l != c && s.calls[l].key == s.calls[c].key
              && (if s.calls[l].pc.Finished? then Enabled(s, Wake(c)) else Enabled(s, Load(l, value, 0)))
            case _ => exists a: Action<V> :: Enabled(s, a) && Progress(a) && a.c == c
  {
    RunKeepsInv(New(ttl, staleOnError), steps);
    var s := After(New(ttl, staleOnError), steps);
    assert CallOk(s, c, s.calls[c]);
    match s.calls[c].pc
    case Ready =>
      var a: Action<V> := ReadClock(c, 0);
      assert Enabled(s, a) && Progress(a);
    case Clocked =>
      var a: Action<V> := Enter(c);
      assert Enabled(s, a) && Progress(a);
    case Loading(_, _) =>
      var a := Load(c, value, 0);
      assert Enabled(s, a) && Progress(a);
    case WaitingFor(l) => assert CallOk(s, l, s.calls[l]);
    case Finished(_) =>
  }
}
