/**
  The pool that imports several dates at once, as a step relation: the goroutine that hands out the
  dates and the workers may interleave in any way. What importing one date gives is a function of
  the date, because no two dates share partitions or state rows.
 */
module WorkerPool {
  import opened Wrappers

  datatype DateResult = DateResult(imported: seq<string>, skipped: seq<string>, error: Option<string>)

  datatype Pc = Idle | Importing(index: nat) | Exited

  datatype State = State(next: nat, closed: bool, workers: seq<Pc>, results: seq<Option<DateResult>>)

  datatype Action = Take(w: nat) | Finish(w: nat) | Close | Exit(w: nat)

  /** The size of the pool: what was asked for, but no more than there are dates and at least one. */
  function PoolSize(workers: int, dates: nat): (size: nat)
    ensures 1 <= size && (size <= dates || size == 1) && (size <= workers || size == 1)
  {
    var capped := if workers > dates then dates else workers;
    if capped < 1 then 1 else capped
  }

  function Start(dates: nat, workers: int): State {
    State(0, false, seq(PoolSize(workers, dates), _ => Idle), seq(dates, _ => None))
  }

  predicate Enabled(s: State, a: Action) {
    match a
    case Take(w) => w < |s.workers| && s.workers[w].Idle? && s.next < |s.results|
    case Finish(w) => w < |s.workers| && s.workers[w].Importing? && s.workers[w].index < |s.results|
    case Close => !s.closed && s.next == |s.results|
    case Exit(w) => w < |s.workers| && s.workers[w].Idle? && s.closed
  }

  function Apply<T>(s: State, a: Action, dates: seq<T>, importDate: T -> DateResult): State
    requires Enabled(s, a) && |dates| == |s.results|
  {
    match a
    case Take(w) => s.(next := s.next + 1, workers := s.workers[w := Importing(s.next)])
    case Finish(w) =>
      var i := s.workers[w].index;
      s.(workers := s.workers[w := Idle], results := s.results[i := Some(importDate(dates[i]))])
    case Close => s.(closed := true)
    case Exit(w) => s.(workers := s.workers[w := Exited])
  }

  /**
    A date that was handed out is being imported by exactly one worker or has its result; one that
    was not has neither. A worker leaves only after the last date was handed out.
   */
  ghost predicate Inv<T>(s: State, dates: seq<T>, importDate: T -> DateResult) {
    && |s.results| == |dates| && s.next <= |dates| && |s.workers| > 0
    && (s.closed ==> s.next == |dates|)
    && (forall w :: 0 <= w < |s.workers| && s.workers[w].Exited? ==> s.closed)
    && (forall w :: 0 <= w < |s.workers| && s.workers[w].Importing? ==>
          s.workers[w].index < s.next && s.results[s.workers[w].index] == None)
    && (forall v, w :: 0 <= v < w < |s.workers| && s.workers[v].Importing? && s.workers[w].Importing? ==>
          s.workers[v].index != s.workers[w].index)
    && (forall i :: 0 <= i < |dates| && s.results[i].Some? ==> i < s.next && s.results[i] == Some(importDate(dates[i])))
    && (forall i :: 0 <= i < s.next && s.results[i].None? ==> IsImported(s.workers, i))
  }

  ghost predicate IsImported(workers: seq<Pc>, i: nat) {
    exists w :: 0 <= w < |workers| && workers[w] == Importing(i)
  }

  lemma StepKeepsInv<T>(s: State, a: Action, dates: seq<T>, importDate: T -> DateResult)
    requires Inv(s, dates, importDate) && Enabled(s, a)
    ensures Inv(Apply(s, a, dates, importDate), dates, importDate)
  {
    var t := Apply(s, a, dates, importDate);
    forall i | 0 <= i < t.next && t.results[i].None?
      ensures IsImported(t.workers, i)
    {
      if a.Take? && i == s.next {
        assert t.workers[a.w] == Importing(i);
      } else {
        assert IsImported(s.workers, i);
        var w :| 0 <= w < |s.workers| && s.workers[w] == Importing(i);
        assert t.workers[w] == Importing(i);
      }
    }
  }

  predicate Possible<T>(s: State, steps: seq<Action>, dates: seq<T>, importDate: T -> DateResult)
    decreases |steps|
  {
    steps == [] ||
    (Enabled(s, steps[0]) && |dates| == |s.results| && Possible(Apply(s, steps[0], dates, importDate), steps[1..], dates, importDate))
  }

  function After<T>(s: State, steps: seq<Action>, dates: seq<T>, importDate: T -> DateResult): State
    requires Possible(s, steps, dates, importDate)
    decreases |steps|
  {
    if steps == [] then s else After(Apply(s, steps[0], dates, importDate), steps[1..], dates, importDate)
  }

  lemma {:induction false} RunKeepsInv<T>(s: State, steps: seq<Action>, dates: seq<T>, importDate: T -> DateResult)
    requires Inv(s, dates, importDate) && Possible(s, steps, dates, importDate)
    ensures Inv(After(s, steps, dates, importDate), dates, importDate)
    ensures |After(s, steps, dates, importDate).workers| == |s.workers|
    decreases |steps|
  {
    if steps != [] {
      StepKeepsInv(s, steps[0], dates, importDate);
      RunKeepsInv(Apply(s, steps[0], dates, importDate), steps[1..], dates, importDate);
    }
  }

  /** The pool has ended when every worker has left. */
  ghost predicate HasEnded(s: State) {
    forall w :: 0 <= w < |s.workers| ==> s.workers[w].Exited?
  }

  /** What the results come to, in the order of the dates. */
  datatype Report = Report(imported: seq<string>, skipped: seq<string>, errors: seq<(int, string)>)

  function AddResult(report: Report, index: int, r: DateResult): Report {
    Report(report.imported + r.imported, report.skipped + r.skipped,
           if r.error.Some? then report.errors + [(index, r.error.value)] else report.errors)
  }

  /** Importing the dates one after another. */
  function Sequential<T>(dates: seq<T>, importDate: T -> DateResult): Report {
    if dates == [] then Report([], [], [])
    else AddResult(Sequential(dates[..|dates| - 1], importDate), |dates| - 1, importDate(dates[|dates| - 1]))
  }

  function AllImported<T>(dates: seq<T>, importDate: T -> DateResult): seq<string> {
    if dates == [] then [] else AllImported(dates[..|dates| - 1], importDate) + importDate(dates[|dates| - 1]).imported
  }

  function AllSkipped<T>(dates: seq<T>, importDate: T -> DateResult): seq<string> {
    if dates == [] then [] else AllSkipped(dates[..|dates| - 1], importDate) + importDate(dates[|dates| - 1]).skipped
  }

  /** `errors` names every date that failed, with its error, and no other, in the order of the dates. */
  ghost predicate AreErrorsOf<T>(errors: seq<(int, string)>, dates: seq<T>, importDate: T -> DateResult) {
    && (forall i, message :: (i, message) in errors <==> 0 <= i < |dates| && importDate(dates[i]).error == Some(message))
    && (forall j, k :: 0 <= j < k < |errors| ==> errors[j].0 < errors[k].0)
  }

  /** What the report says: the lists of the dates one after another, and the errors of those that failed. */
  lemma {:induction false} ReportMeaning<T>(dates: seq<T>, importDate: T -> DateResult)
    ensures Sequential(dates, importDate).imported == AllImported(dates, importDate)
    ensures Sequential(dates, importDate).skipped == AllSkipped(dates, importDate)
    ensures AreErrorsOf(Sequential(dates, importDate).errors, dates, importDate)
  {
    if dates != [] {
      var n := |dates| - 1;
      ReportMeaning(dates[..n], importDate);
      ErrorsSnoc(Sequential(dates[..n], importDate).errors, dates, importDate);
    }
  }

  lemma ErrorsSnoc<T>(errors: seq<(int, string)>, dates: seq<T>, importDate: T -> DateResult)
    requires dates != [] && AreErrorsOf(errors, dates[..|dates| - 1], importDate)
    ensures var n := |dates| - 1;
            var error := importDate(dates[n]).error;
            AreErrorsOf(if error.Some? then errors + [(n, error.value)] else errors, dates, importDate)
  {
    var n := |dates| - 1;
    forall k | 0 <= k < |errors|
      ensures 0 <= errors[k].0 < n
    {
      var e := errors[k];
      assert (e.0, e.1) in errors;
    }
    forall i, message
      ensures (i, message) in errors <==> 0 <= i < n && importDate(dates[i]).error == Some(message)
    {
      assert 0 <= i < n ==> dates[..n][i] == dates[i];
    }
  }

  /** The loop over the results after all workers have left; a date without a result counts as nothing. */
  method Collect(results: seq<Option<DateResult>>) returns (report: Report)
    ensures report == Collected(results)
  {
    report := Report([], [], []);
    for i := 0 to |results|
      invariant report == Collected(results[..i])
    {
      assert results[..i + 1][..i] == results[..i];
      report := AddResult(report, i, if results[i].Some? then results[i].value else DateResult([], [], None));
    }
    assert results[..|results|] == results;
  }

  function Collected(results: seq<Option<DateResult>>): Report {
    if results == [] then Report([], [], [])
    else
      var last := results[|results| - 1];
      AddResult(Collected(results[..|results| - 1]), |results| - 1, if last.Some? then last.value else DateResult([], [], None))
  }

  lemma {:induction false} CompleteIsSequential<T>(results: seq<Option<DateResult>>, dates: seq<T>, importDate: T -> DateResult)
    requires |results| == |dates| && forall i :: 0 <= i < |dates| ==> results[i] == Some(importDate(dates[i]))
    ensures Collected(results) == Sequential(dates, importDate)
  {
    if dates != [] {
      CompleteIsSequential(results[..|results| - 1], dates[..|dates| - 1], importDate);
    }
  }

  /** However the workers are scheduled, once all have left the report is that of importing the dates one after another. */
  lemma ReportIsSequential<T>(dates: seq<T>, workers: int, importDate: T -> DateResult, steps: seq<Action>)
    requires Possible(Start(|dates|, workers), steps, dates, importDate)
    requires HasEnded(After(Start(|dates|, workers), steps, dates, importDate))
    ensures Collected(After(Start(|dates|, workers), steps, dates, importDate).results) == Sequential(dates, importDate)
  {
    var s := After(Start(|dates|, workers), steps, dates, importDate);
    RunKeepsInv(Start(|dates|, workers), steps, dates, importDate);
    assert s.workers[0].Exited?;
    forall i | 0 <= i < |dates|
      ensures s.results[i] == Some(importDate(dates[i]))
    {
      assert s.results[i].None? ==> IsImported(s.workers, i);
    }
    CompleteIsSequential(s.results, dates, importDate);
  }

  /** At most so many dates are imported at once, and no two workers import the same one. */
  lemma InFlight<T>(dates: seq<T>, workers: int, importDate: T -> DateResult, steps: seq<Action>)
    requires Possible(Start(|dates|, workers), steps, dates, importDate)
    ensures var s := After(Start(|dates|, workers), steps, dates, importDate);
            && |s.workers| == PoolSize(workers, |dates|)
            && forall v, w :: 0 <= v < w < |s.workers| && s.workers[v].Importing? ==> s.workers[v] != s.workers[w]
  {
    RunKeepsInv(Start(|dates|, workers), steps, dates, importDate);
  }

  /** The number of steps in which a worker was handed date `i`. */
  function Handed<T>(s: State, steps: seq<Action>, dates: seq<T>, importDate: T -> DateResult, i: nat): nat
    requires Possible(s, steps, dates, importDate)
    decreases |steps|
  {
    if steps == [] then 0
    else (if steps[0].Take? && s.next == i then 1 else 0)
         + Handed(Apply(s, steps[0], dates, importDate), steps[1..], dates, importDate, i)
  }

  lemma {:induction false} HandedOut<T>(s: State, steps: seq<Action>, dates: seq<T>, importDate: T -> DateResult, i: nat)
    requires Possible(s, steps, dates, importDate)
    ensures Handed(s, steps, dates, importDate, i) + (if i < s.next then 1 else 0)
         == if i < After(s, steps, dates, importDate).next then 1 else 0
    decreases |steps|
  {
    if steps != [] {
      HandedOut(Apply(s, steps[0], dates, importDate), steps[1..], dates, importDate, i);
    }
  }

  /** Every date is handed to a worker exactly once by the time all workers have left, and never twice before. */
  lemma EveryDateOnce<T>(dates: seq<T>, workers: int, importDate: T -> DateResult, steps: seq<Action>, i: nat)
    requires Possible(Start(|dates|, workers), steps, dates, importDate) && i < |dates|
    ensures Handed(Start(|dates|, workers), steps, dates, importDate, i) <= 1
    ensures HasEnded(After(Start(|dates|, workers), steps, dates, importDate)) ==>
              Handed(Start(|dates|, workers), steps, dates, importDate, i) == 1
  {
    HandedOut(Start(|dates|, workers), steps, dates, importDate, i);
    RunKeepsInv(Start(|dates|, workers), steps, dates, importDate);
    var s := After(Start(|dates|, workers), steps, dates, importDate);
    if HasEnded(s) {
      assert s.workers[0].Exited?;
    }
  }

  function Weight(pc: Pc): nat {
    match pc case Importing(_) => 2 case Idle => 1 case Exited => 0
  }

  function Weights(workers: seq<Pc>): nat {
    if workers == [] then 0 else Weights(workers[..|workers| - 1]) + Weight(workers[|workers| - 1])
  }

  lemma {:induction false} WeightsUpdate(workers: seq<Pc>, w: nat, pc: Pc)
    requires w < |workers|
    ensures Weights(workers[w := pc]) + Weight(workers[w]) == Weights(workers) + Weight(pc)
  {
    var n := |workers| - 1;
    if w == n {
      assert workers[w := pc][..n] == workers[..n];
    } else {
      assert workers[w := pc][..n] == workers[..n][w := pc];
      WeightsUpdate(workers[..n], w, pc);
    }
  }

  /** What is left to do. */
  function Remaining(s: State): int {
    3 * (|s.results| - s.next) + Weights(s.workers) + if s.closed then 0 else 1
  }

  lemma StepMakesProgress<T>(s: State, a: Action, dates: seq<T>, importDate: T -> DateResult)
    requires Inv(s, dates, importDate) && Enabled(s, a)
    ensures 0 <= Remaining(Apply(s, a, dates, importDate)) < Remaining(s)
  {
    match a
    case Take(w) => WeightsUpdate(s.workers, w, Importing(s.next));
    case Finish(w) => WeightsUpdate(s.workers, w, Idle);
    case Exit(w) => WeightsUpdate(s.workers, w, Exited);
    case Close =>
  }

  lemma {:induction false} RunsAreBounded<T>(s: State, steps: seq<Action>, dates: seq<T>, importDate: T -> DateResult)
    requires Inv(s, dates, importDate) && Possible(s, steps, dates, importDate)
    ensures |steps| <= Remaining(s)
    decreases |steps|
  {
    if steps != [] {
      StepMakesProgress(s, steps[0], dates, importDate);
      StepKeepsInv(s, steps[0], dates, importDate);
      RunsAreBounded(Apply(s, steps[0], dates, importDate), steps[1..], dates, importDate);
    }
  }

  lemma {:induction false} IdleWeights(n: nat)
    ensures Weights(seq(n, _ => Idle)) == n
  {
    if n > 0 {
      IdleWeights(n - 1);
      assert seq(n, _ => Idle)[..n - 1] == seq(n - 1, _ => Idle);
    }
  }

  lemma NeverStuck<T>(s: State, dates: seq<T>, importDate: T -> DateResult)
    requires Inv(s, dates, importDate) && !HasEnded(s)
    ensures exists a :: Enabled(s, a)
  {
    var w :| 0 <= w < |s.workers| && !s.workers[w].Exited?;
    match s.workers[w]
    case Importing(_) => assert Enabled(s, Finish(w));
    case Idle =>
      if s.next < |s.results| {
        assert Enabled(s, Take(w));
      } else if s.closed {
        assert Enabled(s, Exit(w));
      } else {
        assert Enabled(s, Close);
      }
  }

  lemma StartRemaining(dates: nat, workers: int)
    ensures Remaining(Start(dates, workers)) == 3 * dates + PoolSize(workers, dates) + 1
  {
    IdleWeights(PoolSize(workers, dates));
  }

  /** The pool does not run for ever: every run is bounded. */
  lemma RunsAreShort<T>(dates: seq<T>, workers: int, importDate: T -> DateResult, steps: seq<Action>)
    requires Possible(Start(|dates|, workers), steps, dates, importDate)
    ensures |steps| <= 3 * |dates| + PoolSize(workers, |dates|) + 1
  {
    var start := Start(|dates|, workers);
    StartRemaining(|dates|, workers);
    assert Inv(start, dates, importDate);
    RunsAreBounded(start, steps, dates, importDate);
  }

  /** The pool does not deadlock: until all workers have left some step is possible. */
  lemma PoolNeverDeadlocks<T>(dates: seq<T>, workers: int, importDate: T -> DateResult, steps: seq<Action>)
    requires Possible(Start(|dates|, workers), steps, dates, importDate)
    ensures var s := After(Start(|dates|, workers), steps, dates, importDate); HasEnded(s) || exists a :: Enabled(s, a)
  {
    RunKeepsInv(Start(|dates|, workers), steps, dates, importDate);
    var s := After(Start(|dates|, workers), steps, dates, importDate);
    if !HasEnded(s) {
      NeverStuck(s, dates, importDate);
    }
  }
}
