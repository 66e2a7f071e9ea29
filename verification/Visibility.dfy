/**
  Visible ranges: which part of a queried period may be read, given the ingest state of every
  source and day.
 */
module Visibility {
  import opened StateLog
  import opened SqlFilter
  import opened Wrappers

  /** The days of a time zone: the instant each day starts at, and the day of an instant. Days need not be equally long. */
  datatype Calendar = Calendar(startOf: int -> Time, dayOf: Time -> int)

  predicate Earlier(d: int, e: int) {
    d < e
  }

  ghost predicate IsCalendar(c: Calendar) {
    && (forall t :: c.startOf(c.dayOf(t)) <= t < c.startOf(c.dayOf(t) + 1))
    && (forall d, e {:trigger Earlier(d, e)} :: Earlier(d, e) ==> c.startOf(d) < c.startOf(e))
    && (forall d :: c.startOf(d) % SECOND == 0)
  }

  /** The latest state of a source and day; `maxVisible` is absent when the stored time is zero. */
  datatype DayState = DayState(source: string, day: int, status: Status, maxVisible: Option<Time>)

  datatype Reason = MissingState | NotReady | NotQueryable | NoVisibleImport

  /** A skipped day; a missing state has no status. */
  datatype Skipped = Skipped(day: int, status: Option<Status>, reason: Reason)

  datatype Visible = Visible(ranges: seq<Range>, skipped: seq<Skipped>, partial: bool)

  function Max(a: Time, b: Time): Time { if a > b then a else b }
  function Min(a: Time, b: Time): Time { if a < b then a else b }

  function EndOfDay(c: Calendar, day: int): Time { c.startOf(day + 1) - SECOND }
  function RangeStart(c: Calendar, start: Time, day: int): Time { Max(start, c.startOf(day)) }
  function RangeEnd(c: Calendar, end: Time, day: int): Time { Min(end, EndOfDay(c, day)) }

  /** The states of one day, in the order given. */
  function StatesOf(states: seq<DayState>, day: int): seq<DayState> {
    if states == [] then []
    else
      var last := states[|states| - 1];
      StatesOf(states[..|states| - 1], day) + if last.day == day then [last] else []
  }

  function Skip(v: Visible, day: int, status: Status, reason: Reason): Visible {
    Visible(v.ranges, v.skipped + [Skipped(day, Some(status), reason)], true)
  }

  /** What one state adds for a day whose queried part is from `from` to `to`. */
  function AddState(v: Visible, day: int, from: Time, to: Time, state: DayState): Visible {
    match state.status
    case Ready => v.(ranges := v.ranges + [Range(day, state.source, from, to)])
    case Importing =>
      if state.maxVisible.None? || state.maxVisible.value < from then Skip(v, day, state.status, NoVisibleImport)
      else
        var visibleEnd := Min(to, state.maxVisible.value);
        Visible(v.ranges + [Range(day, state.source, from, visibleEnd)], v.skipped, v.partial || visibleEnd < to)
    case Pending | Failed => Skip(v, day, state.status, NotReady)
    case Idle | Scanning | Succeeded | NoData => Skip(v, day, state.status, NotQueryable)
  }

  function AddStates(v: Visible, day: int, from: Time, to: Time, states: seq<DayState>): Visible {
    if states == [] then v
    else AddState(AddStates(v, day, from, to, states[..|states| - 1]), day, from, to, states[|states| - 1])
  }

  function AddDay(v: Visible, c: Calendar, start: Time, end: Time, states: seq<DayState>, day: int): Visible {
    var from, to := RangeStart(c, start, day), RangeEnd(c, end, day);
    var today := StatesOf(states, day);
    if to < from then v
    else if today == [] then v.(skipped := v.skipped + [Skipped(day, None, MissingState)])
    else AddStates(v, day, from, to, today)
  }

  /** The result for the days from that of `start` up to, but not including, `day`. */
  function DaysBefore(c: Calendar, start: Time, end: Time, states: seq<DayState>, day: int): Visible
    decreases day - c.dayOf(start)
  {
    if day <= c.dayOf(start) then Visible([], [], false)
    else AddDay(DaysBefore(c, start, end, states, day - 1), c, start, end, states, day - 1)
  }

  method BuildVisibleRanges(c: Calendar, start: Time, end: Time, states: seq<DayState>) returns (v: Visible)
    requires IsCalendar(c)
    ensures end < start ==> v == Visible([], [], false)
    ensures start <= end ==> v == DaysBefore(c, start, end, states, c.dayOf(end) + 1)
  {
    v := Visible([], [], false);
    if end < start {
      return;
    }
    var byDay := GroupByDay(states);
    var day := c.dayOf(start);
    DayIsReached(c, start, day);
    DayIsReached(c, end, day);
    while c.startOf(day) <= end
      invariant c.dayOf(start) <= day <= c.dayOf(end) + 1
      invariant v == DaysBefore(c, start, end, states, day)
      decreases c.dayOf(end) + 1 - day
    {
      DayIsReached(c, end, day);
      v := VisitDay(c, start, end, states, day, if day in byDay then byDay[day] else [], v);
      day := day + 1;
    }
    DayIsReached(c, end, day);
  }

  method GroupByDay(states: seq<DayState>) returns (byDay: map<int, seq<DayState>>)
    ensures forall d :: (if d in byDay then byDay[d] else []) == StatesOf(states, d)
  {
    byDay := map[];
    for i := 0 to |states|
      invariant forall d :: (if d in byDay then byDay[d] else []) == StatesOf(states[..i], d)
    {
      assert states[..i + 1][..i] == states[..i];
      var d := states[i].day;
      byDay := byDay[d := (if d in byDay then byDay[d] else []) + [states[i]]];
    }
    assert states[..|states|] == states;
  }

  method VisitDay(
    c: Calendar, start: Time, end: Time, ghost states: seq<DayState>, day: int, today: seq<DayState>, v0: Visible)
    returns (v: Visible)
    requires today == StatesOf(states, day)
    ensures v == AddDay(v0, c, start, end, states, day)
  {
    var from, to := RangeStart(c, start, day), RangeEnd(c, end, day);
    if to < from {
      v := v0;
    } else if |today| == 0 {
      v := v0.(skipped := v0.skipped + [Skipped(day, None, MissingState)]);
    } else {
      v := VisitStates(v0, day, from, to, today);
    }
  }

  method VisitStates(v0: Visible, day: int, from: Time, to: Time, states: seq<DayState>) returns (v: Visible)
    ensures v == AddStates(v0, day, from, to, states)
  {
    v := v0;
    for i := 0 to |states|
      invariant v == AddStates(v0, day, from, to, states[..i])
    {
      assert states[..i + 1][..i] == states[..i];
      v := AddState(v, day, from, to, states[i]);
    }
    assert states[..|states|] == states;
  }

  lemma DayIsReached(c: Calendar, t: Time, day: int)
    requires IsCalendar(c)
    ensures c.startOf(day) <= t <==> day <= c.dayOf(t)
  {
    assert Earlier(day, c.dayOf(t)) || day == c.dayOf(t) || day == c.dayOf(t) + 1 || Earlier(c.dayOf(t) + 1, day);
  }

  /** What a state lets be seen of its day. */
  predicate Shows(state: DayState, t: Time) {
    || state.status == Ready
    || (state.status == Importing && state.maxVisible.Some? && t <= state.maxVisible.value)
  }

  ghost predicate Queried(v: Visible, source: string, t: Time) {
    exists r <- v.ranges :: r.source == source && r.start <= t <= r.end
  }

  ghost predicate Shown(states: seq<DayState>, source: string, t: Time) {
    exists s <- states :: s.source == source && Shows(s, t)
  }

  lemma AddStateShows(v: Visible, day: int, from: Time, to: Time, state: DayState, source: string, t: Time)
    ensures Queried(AddState(v, day, from, to, state), source, t) <==>
      Queried(v, source, t) || (state.source == source && from <= t <= to && Shows(state, t))
  {
  }

  lemma {:induction false} AddStatesShow(v: Visible, day: int, from: Time, to: Time, states: seq<DayState>, source: string, t: Time)
    ensures Queried(AddStates(v, day, from, to, states), source, t) <==>
      Queried(v, source, t) || (from <= t <= to && Shown(states, source, t))
  {
    if states != [] {
      var front, last := states[..|states| - 1], states[|states| - 1];
      AddStatesShow(v, day, from, to, front, source, t);
      AddStateShows(AddStates(v, day, from, to, front), day, from, to, last, source, t);
      assert states == front + [last];
      assert forall s :: s in states <==> s in front || s == last;
      if Shown(front, source, t) {
        var s :| s in front && s.source == source && Shows(s, t);
        assert s in states;
      }
    }
  }

  lemma WholeSecondOfDay(c: Calendar, start: Time, end: Time, day: int, t: Time)
    requires IsCalendar(c) && start <= t <= end && t % SECOND == 0
    ensures RangeStart(c, start, day) <= t <= RangeEnd(c, end, day) <==> c.dayOf(t) == day
  {
    DayIsReached(c, t, day);
    DayIsReached(c, t, day + 1);
    assert c.startOf(day + 1) % SECOND == 0;
  }

  lemma {:induction false} DaysShow(c: Calendar, start: Time, end: Time, states: seq<DayState>, day: int, source: string, t: Time)
    requires IsCalendar(c) && start <= t <= end && t % SECOND == 0
    ensures Queried(DaysBefore(c, start, end, states, day), source, t) <==>
      c.dayOf(t) < day && Shown(StatesOf(states, c.dayOf(t)), source, t)
    decreases day - c.dayOf(start)
  {
    DayIsReached(c, t, c.dayOf(start));
    if day > c.dayOf(start) {
      DaysShow(c, start, end, states, day - 1, source, t);
      DayShows(c, start, end, states, day - 1, DaysBefore(c, start, end, states, day - 1), source, t);
    }
  }

  lemma DayShows(c: Calendar, start: Time, end: Time, states: seq<DayState>, day: int, v: Visible, source: string, t: Time)
    requires IsCalendar(c) && start <= t <= end && t % SECOND == 0
    ensures Queried(AddDay(v, c, start, end, states, day), source, t) <==>
      Queried(v, source, t) || (c.dayOf(t) == day && Shown(StatesOf(states, day), source, t))
  {
    WholeSecondOfDay(c, start, end, day, t);
    AddStatesShow(v, day, RangeStart(c, start, day), RangeEnd(c, end, day), StatesOf(states, day), source, t);
  }

  lemma {:induction false} StatesOfAreMembers(states: seq<DayState>, day: int)
    ensures forall s :: s in StatesOf(states, day) <==> s in states && s.day == day
  {
    if states != [] {
      StatesOfAreMembers(states[..|states| - 1], day);
      assert states == states[..|states| - 1] + [states[|states| - 1]];
    }
  }

  /**
    A second of the queried period is in a range of a source exactly if a state of that source and
    day is ready, or is importing and has become visible up to that second.
   */
  lemma QueriedIffShown(c: Calendar, start: Time, end: Time, states: seq<DayState>, source: string, t: Time)
    requires IsCalendar(c) && start <= t <= end && t % SECOND == 0
    ensures Queried(DaysBefore(c, start, end, states, c.dayOf(end) + 1), source, t) <==>
      exists s <- states :: s.source == source && s.day == c.dayOf(t) && Shows(s, t)
  {
    DaysShow(c, start, end, states, c.dayOf(end) + 1, source, t);
    StatesOfAreMembers(states, c.dayOf(t));
    DayIsReached(c, end, c.dayOf(t));
    if exists s <- states :: s.source == source && s.day == c.dayOf(t) && Shows(s, t) {
      var s :| s in states && s.source == source && s.day == c.dayOf(t) && Shows(s, t);
      assert s in StatesOf(states, c.dayOf(t));
    }
  }

  /** No source has two states for one day. */
  ghost predicate OneStateADay(states: seq<DayState>) {
    forall i, j :: 0 <= i < j < |states| ==> states[i].source != states[j].source || states[i].day != states[j].day
  }

  /** The ranges of each source follow one another without overlap, and none is empty. */
  ghost predicate Ascending(ranges: seq<Range>) {
    && (forall r <- ranges :: r.start <= r.end)
    && (forall i, j :: 0 <= i < j < |ranges| && ranges[i].source == ranges[j].source ==> ranges[i].end < ranges[j].start)
  }

  ghost predicate EndBefore(ranges: seq<Range>, limit: Time) {
    forall r <- ranges :: r.end < limit
  }

  ghost predicate NewSource(states: seq<DayState>, source: string) {
    forall s <- states :: s.source != source
  }

  ghost predicate DistinctSources(states: seq<DayState>) {
    forall i, j :: 0 <= i < j < |states| ==> states[i].source != states[j].source
  }

  /** While a day is added: a range ends before the day's part, or belongs to a state already added. */
  ghost predicate WithinDay(ranges: seq<Range>, from: Time, to: Time, states: seq<DayState>) {
    forall r <- ranges :: r.end <= to && (r.end < from || !NewSource(states, r.source))
  }

  lemma {:induction false} AddStatesAscend(v: Visible, day: int, from: Time, to: Time, states: seq<DayState>)
    requires from <= to && Ascending(v.ranges) && EndBefore(v.ranges, from) && DistinctSources(states)
    ensures Ascending(AddStates(v, day, from, to, states).ranges)
    ensures WithinDay(AddStates(v, day, from, to, states).ranges, from, to, states)
  {
    if states != [] {
      var front, last := states[..|states| - 1], states[|states| - 1];
      AddStatesAscend(v, day, from, to, front);
      assert states == front + [last] && NewSource(front, last.source);
      var before := AddStates(v, day, from, to, front);
      var after := AddState(before, day, from, to, last);
      forall source | !NewSource(front, source)
        ensures !NewSource(states, source)
      {
        var s :| s in front && s.source == source;
        assert s in states;
      }
      assert last in states && !NewSource(states, last.source);
      if after.ranges != before.ranges {
        var added := after.ranges[|before.ranges|];
        assert after.ranges == before.ranges + [added];
        forall i | 0 <= i < |before.ranges| && before.ranges[i].source == added.source
          ensures before.ranges[i].end < added.start
        {
          assert before.ranges[i] in before.ranges;
        }
      }
    }
  }

  lemma StatesOfOneDay(states: seq<DayState>, day: int)
    requires OneStateADay(states)
    ensures DistinctSources(StatesOf(states, day))
    decreases |states|
  {
    if states != [] {
      var front, last := states[..|states| - 1], states[|states| - 1];
      StatesOfOneDay(front, day);
      StatesOfAreMembers(front, day);
      forall s | s in StatesOf(front, day) && last.day == day
        ensures s.source != last.source
      {
        var k :| 0 <= k < |front| && front[k] == s;
        assert states[k] == s;
      }
    }
  }

  /** With one state for each source and day, the queried ranges of a source are disjoint and ascending. */
  lemma {:induction false} RangesAscend(c: Calendar, start: Time, end: Time, states: seq<DayState>, day: int)
    requires IsCalendar(c) && OneStateADay(states)
    ensures Ascending(DaysBefore(c, start, end, states, day).ranges)
    ensures day > c.dayOf(start) ==> EndBefore(DaysBefore(c, start, end, states, day).ranges, c.startOf(day))
    ensures day <= c.dayOf(start) ==> DaysBefore(c, start, end, states, day).ranges == []
    decreases day - c.dayOf(start)
  {
    if day > c.dayOf(start) {
      RangesAscend(c, start, end, states, day - 1);
      StatesOfOneDay(states, day - 1);
      assert Earlier(day - 1, day);
      var from, to := RangeStart(c, start, day - 1), RangeEnd(c, end, day - 1);
      if from <= to {
        AddStatesAscend(DaysBefore(c, start, end, states, day - 1), day - 1, from, to, StatesOf(states, day - 1));
      }
    }
  }

  /** The number of entries that the days before `day` account for. */
  function EntriesBefore(c: Calendar, start: Time, states: seq<DayState>, day: int): nat
    decreases day - c.dayOf(start)
  {
    if day <= c.dayOf(start) then 0
    else EntriesBefore(c, start, states, day - 1) +
         (if StatesOf(states, day - 1) == [] then 1 else |StatesOf(states, day - 1)|)
  }

  lemma {:induction false} AddStatesCount(v: Visible, day: int, from: Time, to: Time, states: seq<DayState>)
    ensures var after := AddStates(v, day, from, to, states);
            |after.ranges| + |after.skipped| == |v.ranges| + |v.skipped| + |states|
  {
    if states != [] {
      AddStatesCount(v, day, from, to, states[..|states| - 1]);
    }
  }

  lemma DayHasSeconds(c: Calendar, start: Time, end: Time, day: int)
    requires IsCalendar(c) && start <= end && start % SECOND == 0 && end % SECOND == 0
    requires c.dayOf(start) <= day <= c.dayOf(end)
    ensures RangeStart(c, start, day) <= RangeEnd(c, end, day)
  {
    DayIsReached(c, end, day);
    DayIsReached(c, start, day + 1);
    assert Earlier(day, day + 1);
    ASecondApart(start, c.startOf(day + 1));
    ASecondApart(c.startOf(day), c.startOf(day + 1));
  }

  lemma ASecondApart(a: Time, b: Time)
    requires a % SECOND == 0 && b % SECOND == 0
    ensures a < b ==> a <= b - SECOND
  {
  }

  /** For bounds on whole seconds, every state of a queried day is either queried or skipped, and a day without one is skipped. */
  lemma {:induction false} EveryStateCounts(c: Calendar, start: Time, end: Time, states: seq<DayState>, day: int)
    requires IsCalendar(c) && start <= end && start % SECOND == 0 && end % SECOND == 0
    requires day <= c.dayOf(end) + 1
    ensures var v := DaysBefore(c, start, end, states, day);
            |v.ranges| + |v.skipped| == EntriesBefore(c, start, states, day)
    decreases day - c.dayOf(start)
  {
    if day > c.dayOf(start) {
      EveryStateCounts(c, start, end, states, day - 1);
      DayHasSeconds(c, start, end, day - 1);
      var from, to := RangeStart(c, start, day - 1), RangeEnd(c, end, day - 1);
      AddStatesCount(DaysBefore(c, start, end, states, day - 1), day - 1, from, to, StatesOf(states, day - 1));
    }
  }

  /** A state shows all of its day's queried part. */
  predicate ShowsAll(state: DayState, from: Time, to: Time) {
    || state.status == Ready
    || (state.status == Importing && state.maxVisible.Some? && from <= state.maxVisible.value && to <= state.maxVisible.value)
  }

  ghost predicate AllShown(states: seq<DayState>, from: Time, to: Time) {
    forall s <- states :: ShowsAll(s, from, to)
  }

  lemma AllShownOfMore(front: seq<DayState>, last: DayState, from: Time, to: Time)
    ensures AllShown(front + [last], from, to) <==> AllShown(front, from, to) && ShowsAll(last, from, to)
  {
  }

  lemma {:induction false} AddStatesPartial(v: Visible, day: int, from: Time, to: Time, states: seq<DayState>)
    ensures AddStates(v, day, from, to, states).partial <==> v.partial || !AllShown(states, from, to)
  {
    if states != [] {
      var front, last := states[..|states| - 1], states[|states| - 1];
      assert states == front + [last];
      AddStatesPartial(v, day, from, to, front);
      AllShownOfMore(front, last, from, to);
    }
  }

  /** A state of a queried day that hides a part of what was asked for. */
  ghost predicate Hides(c: Calendar, start: Time, end: Time, s: DayState) {
    var from, to := RangeStart(c, start, s.day), RangeEnd(c, end, s.day);
    from <= to && !ShowsAll(s, from, to)
  }

  ghost predicate SomeHides(c: Calendar, start: Time, end: Time, states: seq<DayState>, day: int) {
    exists s <- states :: c.dayOf(start) <= s.day < day && Hides(c, start, end, s)
  }

  lemma OneMoreDay(c: Calendar, start: Time, end: Time, states: seq<DayState>, day: int)
    requires c.dayOf(start) <= day
    ensures SomeHides(c, start, end, states, day + 1) <==>
      SomeHides(c, start, end, states, day) || exists s <- StatesOf(states, day) :: Hides(c, start, end, s)
  {
    StatesOfAreMembers(states, day);
  }

  /** The result is called partial exactly if some state of a queried day hides a part of what was asked for. */
  lemma {:induction false} PartialIffHidden(c: Calendar, start: Time, end: Time, states: seq<DayState>, day: int)
    ensures DaysBefore(c, start, end, states, day).partial <==> SomeHides(c, start, end, states, day)
    decreases day - c.dayOf(start)
  {
    if day > c.dayOf(start) {
      PartialIffHidden(c, start, end, states, day - 1);
      OneMoreDay(c, start, end, states, day - 1);
      StatesOfAreMembers(states, day - 1);
      var from, to := RangeStart(c, start, day - 1), RangeEnd(c, end, day - 1);
      AddStatesPartial(DaysBefore(c, start, end, states, day - 1), day - 1, from, to, StatesOf(states, day - 1));
    }
  }

  /** Every queried range stands for a state of its source and day that shows something. */
  ghost predicate Backed(ranges: seq<Range>, states: seq<DayState>) {
    forall r <- ranges :: exists s <- states :: BacksRange(s, r)
  }

  predicate BacksRange(s: DayState, r: Range) {
    && s.source == r.source && s.day == r.logDate
    && (s.status == Ready || (s.status == Importing && s.maxVisible.Some?))
  }

  lemma {:induction false} AddStatesBacked(
    v: Visible, day: int, from: Time, to: Time, today: seq<DayState>, states: seq<DayState>)
    requires Backed(v.ranges, states) && forall s <- today :: s in states && s.day == day
    ensures Backed(AddStates(v, day, from, to, today).ranges, states)
  {
    if today != [] {
      var last := today[|today| - 1];
      AddStatesBacked(v, day, from, to, today[..|today| - 1], states);
      var before := AddStates(v, day, from, to, today[..|today| - 1]);
      var after := AddState(before, day, from, to, last);
      forall r | r in after.ranges
        ensures exists s <- states :: BacksRange(s, r)
      {
        if r !in before.ranges {
          assert BacksRange(last, r);
        }
      }
    }
  }

  lemma {:induction false} RangesAreBacked(c: Calendar, start: Time, end: Time, states: seq<DayState>, day: int)
    ensures Backed(DaysBefore(c, start, end, states, day).ranges, states)
    decreases day - c.dayOf(start)
  {
    if day > c.dayOf(start) {
      RangesAreBacked(c, start, end, states, day - 1);
      StatesOfAreMembers(states, day - 1);
      AddStatesBacked(DaysBefore(c, start, end, states, day - 1), day - 1,
                      RangeStart(c, start, day - 1), RangeEnd(c, end, day - 1), StatesOf(states, day - 1), states);
    }
  }

  /** A range covers seconds of its own day and of the queried period only. */
  ghost predicate LiesInDay(c: Calendar, start: Time, end: Time, r: Range) {
    && start <= r.start && r.end <= end
    && c.startOf(r.logDate) <= r.start && r.end <= c.startOf(r.logDate + 1) - SECOND
  }

  ghost predicate AllLieInDays(c: Calendar, start: Time, end: Time, ranges: seq<Range>) {
    forall r <- ranges :: LiesInDay(c, start, end, r)
  }

  lemma {:induction false} AddStatesLieInDay(c: Calendar, start: Time, end: Time, v: Visible, day: int, today: seq<DayState>)
    requires AllLieInDays(c, start, end, v.ranges)
    ensures AllLieInDays(c, start, end, AddStates(v, day, RangeStart(c, start, day), RangeEnd(c, end, day), today).ranges)
  {
    if today != [] {
      AddStatesLieInDay(c, start, end, v, day, today[..|today| - 1]);
    }
  }

  lemma {:induction false} RangesLieInDays(c: Calendar, start: Time, end: Time, states: seq<DayState>, day: int)
    ensures AllLieInDays(c, start, end, DaysBefore(c, start, end, states, day).ranges)
    decreases day - c.dayOf(start)
  {
    if day > c.dayOf(start) {
      RangesLieInDays(c, start, end, states, day - 1);
      AddStatesLieInDay(c, start, end, DaysBefore(c, start, end, states, day - 1), day - 1, StatesOf(states, day - 1));
    }
  }

  /** So an instant in a range of some day is an instant of that day. */
  lemma InRangeIsOnDay(c: Calendar, start: Time, end: Time, r: Range, t: Time)
    requires IsCalendar(c) && LiesInDay(c, start, end, r) && r.start <= t <= r.end
    ensures c.dayOf(t) == r.logDate && start <= t <= end
  {
    DayIsReached(c, t, r.logDate);
    DayIsReached(c, t, r.logDate + 1);
  }

  /** Why an entry was skipped: its day has no state, or the state it names shows nothing from the day's queried part on. */
  ghost predicate Explains(states: seq<DayState>, from: Time, k: Skipped) {
    match k.reason
    case MissingState => k.status == None && forall s <- states :: s.day != k.day
    case NotReady => HasState(states, k) && k.status in {Some(Pending), Some(Failed)}
    case NotQueryable => HasState(states, k) && k.status in {Some(Idle), Some(Scanning), Some(Succeeded), Some(NoData)}
    case NoVisibleImport =>
      && k.status == Some(Importing)
      && exists s <- states :: s.day == k.day && s.status == Importing && (s.maxVisible.None? || s.maxVisible.value < from)
  }

  ghost predicate HasState(states: seq<DayState>, k: Skipped) {
    exists s <- states :: s.day == k.day && k.status == Some(s.status)
  }

  ghost predicate AllExplained(c: Calendar, start: Time, skipped: seq<Skipped>, states: seq<DayState>) {
    forall k <- skipped :: Explains(states, RangeStart(c, start, k.day), k)
  }

  lemma AddStateExplained(c: Calendar, start: Time, v: Visible, day: int, to: Time, state: DayState, states: seq<DayState>)
    requires AllExplained(c, start, v.skipped, states) && state in states && state.day == day
    ensures AllExplained(c, start, AddState(v, day, RangeStart(c, start, day), to, state).skipped, states)
  {
    var after := AddState(v, day, RangeStart(c, start, day), to, state);
    forall k | k in after.skipped
      ensures Explains(states, RangeStart(c, start, k.day), k)
    {
      if k !in v.skipped {
        assert k == after.skipped[|after.skipped| - 1];
        assert k.day == day && k.status == Some(state.status);
      }
    }
  }

  lemma {:induction false} AddStatesExplained(
    c: Calendar, start: Time, v: Visible, day: int, to: Time, today: seq<DayState>, states: seq<DayState>)
    requires AllExplained(c, start, v.skipped, states) && forall s <- today :: s in states && s.day == day
    ensures AllExplained(c, start, AddStates(v, day, RangeStart(c, start, day), to, today).skipped, states)
  {
    if today != [] {
      var front, last := today[..|today| - 1], today[|today| - 1];
      AddStatesExplained(c, start, v, day, to, front, states);
      AddStateExplained(c, start, AddStates(v, day, RangeStart(c, start, day), to, front), day, to, last, states);
    }
  }

  /** Every skipped entry gives the reason that the states of its day bear out. */
  lemma {:induction false} SkipsAreExplained(c: Calendar, start: Time, end: Time, states: seq<DayState>, day: int)
    ensures AllExplained(c, start, DaysBefore(c, start, end, states, day).skipped, states)
    decreases day - c.dayOf(start)
  {
    if day > c.dayOf(start) {
      SkipsAreExplained(c, start, end, states, day - 1);
      StatesOfAreMembers(states, day - 1);
      AddStatesExplained(c, start, DaysBefore(c, start, end, states, day - 1), day - 1, RangeEnd(c, end, day - 1), StatesOf(states, day - 1), states);
    }
  }
}
