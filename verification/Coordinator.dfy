/**
  The import coordinator as a step relation. Every `Start` spawns a worker goroutine for each
  accepted source and one goroutine that collects their results; the steps of all of them may
  interleave in any way.
 */
module Coordinator {
  import opened Wrappers

  /** Where a worker is within a write: outside, asking for a write slot, or holding one. */
  datatype Write = NoWrite | Asking | Writing

  /** Where a worker goroutine is; `ok` is the result it is going to report. */
  datatype Pc =
    | Waiting               // selecting between a source slot and cancellation
    | Working(write: Write)  // inside the worker function, holding a source slot
    | Ended(ok: bool)       // the worker function returned, failed or panicked
    | SlotFreed(ok: bool)   // no source slot is held any more
    | Released(ok: bool)    // the source is no longer marked as running
    | Sent(ok: bool)        // the result is in the channel

  datatype Worker = Worker(run: nat, source: string, pc: Pc)

  /** The channel of results of one `Start`, and the goroutine that collects them. */
  datatype Run = Run(total: nat, cancelled: bool, queue: seq<bool>, received: nat, allOk: bool, succeeded: Option<bool>)

  datatype State = State(
    maxSources: nat, maxWrites: nat,
    running: set<string>, slots: nat, writes: nat, workers: seq<Worker>, runs: seq<Run>)

  datatype Action =
    | Start(sources: seq<string>)
    | Cancel(run: nat)
    | TakeSlot(w: nat) | GiveUp(w: nat)
    | AskWrite(w: nat) | BeginWrite(w: nat) | AbortWrite(w: nat) | EndWrite(w: nat)
    | Finish(w: nat, ok: bool)
    | FreeSlot(w: nat) | Release(w: nat) | Send(w: nat)
    | Receive(run: nat) | Deliver(run: nat)

  /** A limit as the constructor takes it: one when it is not positive. */
  function Limit(configured: int): nat {
    if configured <= 0 then 1 else configured
  }

  function New(maxSources: int, maxWrites: int): (s: State)
    ensures Inv(s)
  {
    State(Limit(maxSources), Limit(maxWrites), {}, 0, 0, [], [])
  }

  /** The sources that `Start` accepts and those it reports as busy, in the order given. */
  datatype Admission = Admission(accepted: seq<string>, busy: seq<string>, running: set<string>)

  function Admit(running: set<string>, sources: seq<string>): Admission {
    if sources == [] then Admission([], [], running)
    else
      var before := Admit(running, sources[..|sources| - 1]);
      var last := sources[|sources| - 1];
      if last in before.running then before.(busy := before.busy + [last])
      else Admission(before.accepted + [last], before.busy, before.running + {last})
  }

  method AdmitSources(running: set<string>, sources: seq<string>) returns (a: Admission)
    ensures a == Admit(running, sources)
  {
    a := Admission([], [], running);
    for i := 0 to |sources|
      invariant a == Admit(running, sources[..i])
    {
      assert sources[..i + 1][..i] == sources[..i];
      if sources[i] in a.running {
        a := a.(busy := a.busy + [sources[i]]);
      } else {
        a := Admission(a.accepted + [sources[i]], a.busy, a.running + {sources[i]});
      }
    }
    assert sources[..|sources|] == sources;
  }

  ghost predicate Distinct(names: seq<string>) {
    forall i, j :: 0 <= i < j < |names| ==> names[i] != names[j]
  }

  lemma {:induction false} AdmissionFacts(running: set<string>, sources: seq<string>)
    ensures var a := Admit(running, sources);
            && Distinct(a.accepted)
            && (forall x <- a.accepted :: x !in running)
            && (forall x :: x in a.running <==> x in running || x in a.accepted)
            && (forall x :: x in a.accepted <==> x in sources && x !in running)
  {
    if sources != [] {
      var front, last := sources[..|sources| - 1], sources[|sources| - 1];
      AdmissionFacts(running, front);
      assert sources == front + [last];
    }
  }

  lemma {:induction false} AdmissionIsPartition(running: set<string>, sources: seq<string>)
    ensures var a := Admit(running, sources); multiset(a.accepted) + multiset(a.busy) == multiset(sources)
  {
    if sources != [] {
      AdmissionIsPartition(running, sources[..|sources| - 1]);
      assert sources == sources[..|sources| - 1] + [sources[|sources| - 1]];
    }
  }

  /**
    Accepted and busy partition the request; a source is accepted once, and exactly when it was
    requested and was not running.
   */
  lemma AdmissionPartitions(running: set<string>, sources: seq<string>)
    ensures var a := Admit(running, sources);
            && multiset(a.accepted) + multiset(a.busy) == multiset(sources)
            && Distinct(a.accepted)
            && (forall x :: x in a.accepted <==> x in sources && x !in running)
            && (forall x :: x in a.running <==> x in running || x in sources)
  {
    AdmissionFacts(running, sources);
    AdmissionIsPartition(running, sources);
  }

  function NewWorkers(run: nat, accepted: seq<string>): seq<Worker> {
    seq(|accepted|, i requires 0 <= i < |accepted| => Worker(run, accepted[i], Waiting))
  }

  predicate At(s: State, w: nat, pc: Pc) {
    w < |s.workers| && s.workers[w].pc == pc
  }

  predicate IsCancelled(s: State, w: nat) {
    w < |s.workers| && s.workers[w].run < |s.runs| && s.runs[s.workers[w].run].cancelled
  }

  predicate Enabled(s: State, a: Action) {
    match a
    case Start(_) => true
    case Cancel(r) => r < |s.runs|
    case TakeSlot(w) => At(s, w, Waiting) && s.slots < s.maxSources
    case GiveUp(w) => At(s, w, Waiting) && IsCancelled(s, w)
    case AskWrite(w) => At(s, w, Working(NoWrite))
    case BeginWrite(w) => At(s, w, Working(Asking)) && s.writes < s.maxWrites
    case AbortWrite(w) => At(s, w, Working(Asking))
    case EndWrite(w) => At(s, w, Working(Writing)) && s.writes > 0
    case Finish(w, _) => At(s, w, Working(NoWrite))
    case FreeSlot(w) => w < |s.workers| && s.workers[w].pc.Ended? && s.slots > 0
    case Release(w) => w < |s.workers| && s.workers[w].pc.SlotFreed?
    case Send(w) =>
      // The channel holds as many results as sources were accepted.
      && w < |s.workers| && s.workers[w].pc.Released? && s.workers[w].run < |s.runs|
      && |s.runs[s.workers[w].run].queue| < s.runs[s.workers[w].run].total
    case Receive(r) => r < |s.runs| && s.runs[r].queue != [] && s.runs[r].received < s.runs[r].total
    case Deliver(r) => r < |s.runs| && s.runs[r].received == s.runs[r].total && s.runs[r].succeeded == None
  }

  function SetPc(s: State, w: nat, pc: Pc): State
    requires w < |s.workers|
  {
    s.(workers := s.workers[w := s.workers[w].(pc := pc)])
  }

  function SetRun(s: State, r: nat, run: Run): State
    requires r < |s.runs|
  {
    s.(runs := s.runs[r := run])
  }

  function Apply(s: State, a: Action): State
    requires Enabled(s, a)
  {
    match a
    case Start(sources) =>
      var admission := Admit(s.running, sources);
      s.(running := admission.running,
         workers := s.workers + NewWorkers(|s.runs|, admission.accepted),
         runs := s.runs + [Run(|admission.accepted|, false, [], 0, true, None)])
    case Cancel(r) => SetRun(s, r, s.runs[r].(cancelled := true))
    case TakeSlot(w) => SetPc(s, w, Working(NoWrite)).(slots := s.slots + 1)
    case GiveUp(w) => SetPc(s, w, SlotFreed(false))
    case AskWrite(w) => SetPc(s, w, Working(Asking))
    case BeginWrite(w) => SetPc(s, w, Working(Writing)).(writes := s.writes + 1)
    case AbortWrite(w) => SetPc(s, w, Working(NoWrite))
    case EndWrite(w) => SetPc(s, w, Working(NoWrite)).(writes := s.writes - 1)
    case Finish(w, ok) => SetPc(s, w, Ended(ok))
    case FreeSlot(w) => SetPc(s, w, SlotFreed(s.workers[w].pc.ok)).(slots := s.slots - 1)
    case Release(w) => SetPc(s, w, Released(s.workers[w].pc.ok)).(running := s.running - {s.workers[w].source})
    case Send(w) =>
      var r := s.workers[w].run;
      SetRun(SetPc(s, w, Sent(s.workers[w].pc.ok)), r, s.runs[r].(queue := s.runs[r].queue + [s.workers[w].pc.ok]))
    case Receive(r) =>
      var run := s.runs[r];
      SetRun(s, r, run.(queue := run.queue[1..], received := run.received + 1, allOk := run.queue[0] && run.allOk))
    case Deliver(r) => SetRun(s, r, s.runs[r].(succeeded := Some(s.runs[r].allOk)))
  }

  /** The groups of workers that the invariant counts. */
  datatype Kind = HoldingSlot | InWrite | InRun(run: nat) | SentIn(run: nat)

  predicate Is(kind: Kind, w: Worker) {
    match kind
    case HoldingSlot => w.pc.Working? || w.pc.Ended?
    case InWrite => w.pc == Working(Writing)
    case InRun(r) => w.run == r
    case SentIn(r) => w.run == r && w.pc.Sent?
  }

  function Count(workers: seq<Worker>, kind: Kind): nat {
    if workers == [] then 0
    else Count(workers[..|workers| - 1], kind) + if Is(kind, workers[|workers| - 1]) then 1 else 0
  }

  lemma {:induction false} CountUpdate(workers: seq<Worker>, i: nat, w: Worker, kind: Kind)
    requires i < |workers|
    ensures Count(workers[i := w], kind) + (if Is(kind, workers[i]) then 1 else 0)
         == Count(workers, kind) + if Is(kind, w) then 1 else 0
  {
    var n := |workers| - 1;
    var updated := workers[i := w];
    if i == n {
      assert updated[..n] == workers[..n];
    } else {
      assert updated[..n] == workers[..n][i := w];
      CountUpdate(workers[..n], i, w, kind);
    }
  }

  lemma {:induction false} CountAppend(a: seq<Worker>, b: seq<Worker>, kind: Kind)
    ensures Count(a + b, kind) == Count(a, kind) + Count(b, kind)
  {
    if b == [] {
      assert a + b == a;
    } else {
      assert (a + b)[..|a + b| - 1] == a + b[..|b| - 1];
      CountAppend(a, b[..|b| - 1], kind);
    }
  }

  lemma {:induction false} CountNone(workers: seq<Worker>, kind: Kind)
    ensures Count(workers, kind) == 0 <==> forall w <- workers :: !Is(kind, w)
  {
    if workers != [] {
      CountNone(workers[..|workers| - 1], kind);
      assert workers == workers[..|workers| - 1] + [workers[|workers| - 1]];
    }
  }

  lemma {:induction false} CountAll(workers: seq<Worker>, kind: Kind)
    requires forall w <- workers :: Is(kind, w)
    ensures Count(workers, kind) == |workers|
  {
    if workers != [] {
      CountAll(workers[..|workers| - 1], kind);
    }
  }

  /** If as many workers of a run have sent as the run has, all have. */
  lemma {:induction false} CountSent(workers: seq<Worker>, r: nat)
    ensures Count(workers, SentIn(r)) <= Count(workers, InRun(r))
    ensures Count(workers, SentIn(r)) == Count(workers, InRun(r)) ==> forall w <- workers :: w.run == r ==> w.pc.Sent?
  {
    if workers != [] {
      CountSent(workers[..|workers| - 1], r);
      assert workers == workers[..|workers| - 1] + [workers[|workers| - 1]];
    }
  }

  predicate Unreleased(pc: Pc) {
    !pc.Released? && !pc.Sent?
  }

  predicate Holds(w: Worker, source: string) {
    Unreleased(w.pc) && w.source == source
  }

  ghost predicate RunningIffHeld(running: set<string>, workers: seq<Worker>) {
    forall x :: x in running <==> exists i :: 0 <= i < |workers| && Holds(workers[i], x)
  }

  ghost predicate HeldOnce(workers: seq<Worker>) {
    forall i, j :: 0 <= i < j < |workers| && Unreleased(workers[i].pc) && Unreleased(workers[j].pc) ==>
      workers[i].source != workers[j].source
  }

  ghost predicate SourcesOwned(s: State) {
    RunningIffHeld(s.running, s.workers) && HeldOnce(s.workers)
  }

  ghost predicate AllTrue(results: seq<bool>) {
    forall i :: 0 <= i < |results| ==> results[i]
  }

  /** All results of run `r` that were sent are successes. */
  ghost predicate AllSentOk(workers: seq<Worker>, r: nat) {
    forall w <- workers :: w.run == r && w.pc.Sent? ==> w.pc.ok
  }

  ghost predicate RunInv(workers: seq<Worker>, r: nat, run: Run) {
    && Count(workers, InRun(r)) == run.total
    && Count(workers, SentIn(r)) == run.received + |run.queue|
    && (run.allOk && AllTrue(run.queue) <==> AllSentOk(workers, r))
    && (run.succeeded.Some? ==> run.received == run.total && run.succeeded.value == run.allOk)
  }

  ghost predicate RunsInv(s: State) {
    && (forall w <- s.workers :: w.run < |s.runs|)
    && (forall r :: 0 <= r < |s.runs| ==> RunInv(s.workers, r, s.runs[r]))
  }

  ghost predicate Inv(s: State) {
    && s.maxSources > 0 && s.maxWrites > 0
    && s.slots == Count(s.workers, HoldingSlot) <= s.maxSources
    && s.writes == Count(s.workers, InWrite) <= s.maxWrites
    && SourcesOwned(s)
    && RunsInv(s)
  }

  lemma SourcesKept(s: State, w: nat, pc: Pc)
    requires w < |s.workers| && SourcesOwned(s) && Unreleased(s.workers[w].pc) == Unreleased(pc)
    ensures SourcesOwned(SetPc(s, w, pc))
  {
    var t := SetPc(s, w, pc);
    forall x
      ensures x in t.running <==> exists i :: 0 <= i < |t.workers| && Holds(t.workers[i], x)
    {
      assert forall i :: 0 <= i < |t.workers| ==> Holds(t.workers[i], x) == Holds(s.workers[i], x);
    }
  }

  lemma SourcesReleased(s: State, w: nat, pc: Pc)
    requires w < |s.workers| && SourcesOwned(s) && Unreleased(s.workers[w].pc) && !Unreleased(pc)
    ensures SourcesOwned(SetPc(s, w, pc).(running := s.running - {s.workers[w].source}))
  {
    var t := SetPc(s, w, pc).(running := s.running - {s.workers[w].source});
    forall x
      ensures x in t.running <==> exists i :: 0 <= i < |t.workers| && Holds(t.workers[i], x)
    {
      assert forall i :: 0 <= i < |t.workers| && i != w ==> Holds(t.workers[i], x) == Holds(s.workers[i], x);
    }
  }

  lemma RunsKept(s: State, w: nat, pc: Pc)
    requires w < |s.workers| && RunsInv(s) && !s.workers[w].pc.Sent? && !pc.Sent?
    ensures RunsInv(SetPc(s, w, pc))
  {
    var t := SetPc(s, w, pc);
    forall v | v in t.workers
      ensures v.run < |t.runs|
    {
      assert v in s.workers || v == t.workers[w];
      assert s.workers[w] in s.workers;
    }
    forall r | 0 <= r < |t.runs|
      ensures RunInv(t.workers, r, t.runs[r])
    {
      CountUpdate(s.workers, w, t.workers[w], InRun(r));
      CountUpdate(s.workers, w, t.workers[w], SentIn(r));
      SentOkKept(s.workers, w, t.workers[w], r);
    }
  }

  lemma SentOkKept(workers: seq<Worker>, i: nat, w: Worker, r: nat)
    requires i < |workers|
    requires !(workers[i].run == r && workers[i].pc.Sent?)
    ensures AllSentOk(workers[i := w], r) <==> AllSentOk(workers, r) && (w.run == r && w.pc.Sent? ==> w.pc.ok)
  {
    var updated := workers[i := w];
    if AllSentOk(updated, r) {
      assert updated[i] in updated;
      forall v | v in workers && v.run == r && v.pc.Sent?
        ensures v.pc.ok
      {
        var j :| 0 <= j < |workers| && workers[j] == v;
        assert updated[j] in updated;
      }
    }
  }

  /** A step of one worker between program points where its source stays marked as running. */
  lemma MoveKeepsInv(s: State, w: nat, pc: Pc, t: State)
    requires Inv(s) && w < |s.workers|
    requires Unreleased(s.workers[w].pc) && Unreleased(pc)
    requires t == SetPc(s, w, pc).(slots := t.slots, writes := t.writes)
    requires t.slots <= s.maxSources && t.writes <= s.maxWrites
    requires var was, now := s.workers[w], t.workers[w];
             && t.slots - s.slots == (if Is(HoldingSlot, now) then 1 else 0) - (if Is(HoldingSlot, was) then 1 else 0)
             && t.writes - s.writes == (if Is(InWrite, now) then 1 else 0) - (if Is(InWrite, was) then 1 else 0)
    ensures Inv(t)
  {
    CountUpdate(s.workers, w, t.workers[w], HoldingSlot);
    CountUpdate(s.workers, w, t.workers[w], InWrite);
    SourcesKept(s, w, pc);
    RunsKept(s, w, pc);
  }

  lemma ReleaseKeepsInv(s: State, w: nat)
    requires Inv(s) && Enabled(s, Release(w))
    ensures Inv(Apply(s, Release(w)))
  {
    var t := Apply(s, Release(w));
    var name := s.workers[w].source;
    CountUpdate(s.workers, w, t.workers[w], HoldingSlot);
    CountUpdate(s.workers, w, t.workers[w], InWrite);
    RunsKept(s, w, t.workers[w].pc);
    SourcesReleased(s, w, t.workers[w].pc);
  }

  lemma SendKeepsInv(s: State, w: nat)
    requires Inv(s) && Enabled(s, Send(w))
    ensures Inv(Apply(s, Send(w)))
  {
    var t := Apply(s, Send(w));
    var r := s.workers[w].run;
    CountUpdate(s.workers, w, t.workers[w], HoldingSlot);
    CountUpdate(s.workers, w, t.workers[w], InWrite);
    SourcesKept(s, w, t.workers[w].pc);
    forall v | v in t.workers
      ensures v.run < |t.runs|
    {
      assert v in s.workers || v == t.workers[w];
    }
    forall q | 0 <= q < |t.runs|
      ensures RunInv(t.workers, q, t.runs[q])
    {
      SendKeepsRun(s, w, q);
    }
  }

  lemma SendKeepsRun(s: State, w: nat, q: nat)
    requires q < |s.runs| && RunInv(s.workers, q, s.runs[q]) && Enabled(s, Send(w))
    ensures var t := Apply(s, Send(w)); RunInv(t.workers, q, t.runs[q])
  {
    var was := s.workers[w];
    var now := was.(pc := Sent(was.pc.ok));
    CountUpdate(s.workers, w, now, InRun(q));
    CountUpdate(s.workers, w, now, SentIn(q));
    SentOkKept(s.workers, w, now, q);
    if q == was.run {
      CountSent(s.workers[w := now], q);
      AllTrueAppend(s.runs[q].queue, was.pc.ok);
    }
  }

  lemma AllTrueAppend(results: seq<bool>, ok: bool)
    ensures AllTrue(results + [ok]) <==> AllTrue(results) && ok
  {
    if AllTrue(results + [ok]) {
      assert (results + [ok])[|results|] == ok;
      forall i | 0 <= i < |results|
        ensures results[i]
      {
        assert (results + [ok])[i] == results[i];
      }
    }
  }

  lemma CollectKeepsInv(s: State, a: Action)
    requires Inv(s) && Enabled(s, a) && (a.Receive? || a.Deliver? || a.Cancel?)
    ensures Inv(Apply(s, a))
  {
  }

  lemma StartKeepsRuns(s: State, sources: seq<string>)
    requires Inv(s)
    ensures RunsInv(Apply(s, Start(sources)))
  {
    var t := Apply(s, Start(sources));
    var added := NewWorkers(|s.runs|, Admit(s.running, sources).accepted);
    forall v | v in t.workers
      ensures v.run < |t.runs|
    {
      assert v in s.workers || v in added;
    }
    forall q | 0 <= q < |t.runs|
      ensures RunInv(t.workers, q, t.runs[q])
    {
      StartKeepsRun(s, sources, q);
    }
  }

  lemma StartKeepsRun(s: State, sources: seq<string>, q: nat)
    requires Inv(s) && q < |Apply(s, Start(sources)).runs|
    ensures var t := Apply(s, Start(sources)); RunInv(t.workers, q, t.runs[q])
  {
    var t := Apply(s, Start(sources));
    var added := NewWorkers(|s.runs|, Admit(s.running, sources).accepted);
    CountAppend(s.workers, added, InRun(q));
    CountAppend(s.workers, added, SentIn(q));
    CountNone(added, SentIn(q));
    assert AllSentOk(t.workers, q) <==> AllSentOk(s.workers, q);
    if q < |s.runs| {
      assert RunInv(s.workers, q, s.runs[q]);
      CountNone(added, InRun(q));
    } else {
      CountNone(s.workers, InRun(q));
      CountNone(s.workers, SentIn(q));
      CountAll(added, InRun(q));
    }
  }

  lemma StartKeepsSources(s: State, sources: seq<string>)
    requires SourcesOwned(s)
    ensures SourcesOwned(Apply(s, Start(sources)))
  {
    var t := Apply(s, Start(sources));
    var accepted := Admit(s.running, sources).accepted;
    AdmissionFacts(s.running, sources);
    var n := |s.workers|;
    assert forall i :: 0 <= i < n ==> t.workers[i] == s.workers[i];
    assert forall k :: 0 <= k < |accepted| ==> t.workers[n + k] == Worker(|s.runs|, accepted[k], Waiting) && accepted[k] in accepted;
    forall x
      ensures x in t.running <==> exists i :: 0 <= i < |t.workers| && Holds(t.workers[i], x)
    {
      if x in accepted {
        var k :| 0 <= k < |accepted| && accepted[k] == x;
        assert Holds(t.workers[n + k], x);
      } else if x in s.running {
        var i :| 0 <= i < n && Holds(s.workers[i], x);
        assert Holds(t.workers[i], x);
      } else {
        forall i | 0 <= i < |t.workers|
          ensures !Holds(t.workers[i], x)
        {
          if n <= i {
            assert t.workers[n + (i - n)].source == accepted[i - n];
          }
        }
      }
    }
    NewSourcesHeldOnce(s, accepted, t.workers);
  }

  lemma NewSourcesHeldOnce(s: State, accepted: seq<string>, workers: seq<Worker>)
    requires SourcesOwned(s) && Distinct(accepted) && (forall x <- accepted :: x !in s.running)
    requires workers == s.workers + NewWorkers(|s.runs|, accepted)
    ensures HeldOnce(workers)
  {
    var n := |s.workers|;
    forall i, j | 0 <= i < j < |workers| && Unreleased(workers[i].pc) && Unreleased(workers[j].pc)
      ensures workers[i].source != workers[j].source
    {
      if n <= j {
        assert workers[j].source == accepted[j - n] && accepted[j - n] in accepted;
        if i < n {
          assert Holds(s.workers[i], workers[i].source);
        } else {
          assert workers[i].source == accepted[i - n];
        }
      } else {
        assert workers[i] == s.workers[i] && workers[j] == s.workers[j];
      }
    }
  }

  lemma StartKeepsInv(s: State, sources: seq<string>)
    requires Inv(s)
    ensures Inv(Apply(s, Start(sources)))
  {
    var accepted := NewWorkers(|s.runs|, Admit(s.running, sources).accepted);
    CountAppend(s.workers, accepted, HoldingSlot);
    CountAppend(s.workers, accepted, InWrite);
    CountNone(accepted, HoldingSlot);
    CountNone(accepted, InWrite);
    StartKeepsRuns(s, sources);
    StartKeepsSources(s, sources);
  }

  lemma MoveStepKeepsInv(s: State, a: Action)
    requires Inv(s) && Enabled(s, a)
    requires a.TakeSlot? || a.GiveUp? || a.AskWrite? || a.BeginWrite? || a.AbortWrite? || a.EndWrite? || a.Finish? || a.FreeSlot?
    ensures Inv(Apply(s, a))
  {
    var t := Apply(s, a);
    MoveKeepsInv(s, a.w, t.workers[a.w].pc, t);
  }

  /** Every step of every goroutine keeps the invariant. */
  lemma StepKeepsInv(s: State, a: Action)
    requires Inv(s) && Enabled(s, a)
    ensures Inv(Apply(s, a))
  {
    match a
    case Start(sources) => StartKeepsInv(s, sources);
    case Release(w) => ReleaseKeepsInv(s, w);
    case Send(w) => SendKeepsInv(s, w);
    case Cancel(_) => CollectKeepsInv(s, a);
    case Receive(_) => CollectKeepsInv(s, a);
    case Deliver(_) => CollectKeepsInv(s, a);
    case _ => MoveStepKeepsInv(s, a);
  }

  /** Whether the steps can be taken one after the other from `s`, in any interleaving of the goroutines. */
  predicate Possible(s: State, steps: seq<Action>)
    decreases steps
  {
    steps == [] || (Enabled(s, steps[0]) && Possible(Apply(s, steps[0]), steps[1..]))
  }

  function After(s: State, steps: seq<Action>): State
    requires Possible(s, steps)
    decreases steps
  {
    if steps == [] then s else After(Apply(s, steps[0]), steps[1..])
  }

  lemma {:induction false} RunKeepsInv(s: State, steps: seq<Action>)
    requires Inv(s) && Possible(s, steps)
    ensures Inv(After(s, steps)) && After(s, steps).maxSources == s.maxSources && After(s, steps).maxWrites == s.maxWrites
    decreases steps
  {
    if steps != [] {
      StepKeepsInv(s, steps[0]);
      RunKeepsInv(Apply(s, steps[0]), steps[1..]);
    }
  }

  /**
    Under every interleaving of starts, cancellations, failures and panics: the two limits hold, no
    source is imported by two workers at once, and a source is busy exactly while a worker has it.
   */
  lemma LimitsAndExclusion(maxSources: int, maxWrites: int, steps: seq<Action>)
    requires Possible(New(maxSources, maxWrites), steps)
    ensures var s := After(New(maxSources, maxWrites), steps);
            && Count(s.workers, HoldingSlot) <= Limit(maxSources)
            && Count(s.workers, InWrite) <= Limit(maxWrites)
            && HeldOnce(s.workers)
            && RunningIffHeld(s.running, s.workers)
  {
    RunKeepsInv(New(maxSources, maxWrites), steps);
  }

  /** A run delivers its value after every one of its workers released its source, and the value is the conjunction of their results. */
  lemma DeliveredIsConjunction(maxSources: int, maxWrites: int, steps: seq<Action>, r: nat)
    requires Possible(New(maxSources, maxWrites), steps)
    requires var s := After(New(maxSources, maxWrites), steps); r < |s.runs| && s.runs[r].succeeded.Some?
    ensures var s := After(New(maxSources, maxWrites), steps);
            && (forall w <- s.workers :: w.run == r ==> !Unreleased(w.pc))
            && (s.runs[r].succeeded.value <==> forall w <- s.workers :: w.run == r ==> w.pc == Sent(true))
  {
    RunKeepsInv(New(maxSources, maxWrites), steps);
    var s := After(New(maxSources, maxWrites), steps);
    assert RunInv(s.workers, r, s.runs[r]);
    CountSent(s.workers, r);
    assert s.runs[r].queue == [];
    assert AllTrue(s.runs[r].queue);
  }

  function Occurrences(steps: seq<Action>, a: Action): nat {
    if steps == [] then 0 else (if steps[0] == a then 1 else 0) + Occurrences(steps[1..], a)
  }

  predicate HasReleased(s: State, w: nat) {
    w < |s.workers| && !Unreleased(s.workers[w].pc)
  }

  predicate HasDelivered(s: State, r: nat) {
    r < |s.runs| && s.runs[r].succeeded.Some?
  }

  lemma {:induction false} CountsReleases(s: State, steps: seq<Action>, w: nat)
    requires Possible(s, steps)
    ensures Occurrences(steps, Release(w)) + (if HasReleased(s, w) then 1 else 0) == if HasReleased(After(s, steps), w) then 1 else 0
    decreases steps
  {
    if steps != [] {
      var t := Apply(s, steps[0]);
      CountsReleases(t, steps[1..], w);
      assert HasReleased(t, w) <==> HasReleased(s, w) || steps[0] == Release(w);
    }
  }

  lemma {:induction false} CountsDeliveries(s: State, steps: seq<Action>, r: nat)
    requires Possible(s, steps)
    ensures Occurrences(steps, Deliver(r)) + (if HasDelivered(s, r) then 1 else 0) == if HasDelivered(After(s, steps), r) then 1 else 0
    decreases steps
  {
    if steps != [] {
      var t := Apply(s, steps[0]);
      CountsDeliveries(t, steps[1..], r);
      assert HasDelivered(t, r) <==> HasDelivered(s, r) || steps[0] == Deliver(r);
    }
  }

  /** No source is released twice and no run delivers twice; once a run has delivered, each of its sources was released exactly once. */
  lemma ReleasedAndDeliveredOnce(maxSources: int, maxWrites: int, steps: seq<Action>, w: nat, r: nat)
    requires Possible(New(maxSources, maxWrites), steps)
    ensures Occurrences(steps, Release(w)) <= 1 && Occurrences(steps, Deliver(r)) <= 1
    ensures var s := After(New(maxSources, maxWrites), steps);
            w < |s.workers| && s.workers[w].run == r && Occurrences(steps, Deliver(r)) == 1 ==> Occurrences(steps, Release(w)) == 1
  {
    var s := After(New(maxSources, maxWrites), steps);
    CountsReleases(New(maxSources, maxWrites), steps, w);
    CountsDeliveries(New(maxSources, maxWrites), steps, r);
    if HasDelivered(s, r) {
      DeliveredIsConjunction(maxSources, maxWrites, steps, r);
      assert w < |s.workers| ==> s.workers[w] in s.workers;
    }
  }

  /** The worker goroutine has ended its work with this result, whether or not it has reported it yet. */
  predicate HasResult(s: State, w: nat, ok: bool) {
    && w < |s.workers|
    && match s.workers[w].pc
       case Waiting | Working(_) => false
       case Ended(r) => r == ok
       case SlotFreed(r) => r == ok
       case Released(r) => r == ok
       case Sent(r) => r == ok
  }

  lemma {:induction false} CountsSuccesses(s: State, steps: seq<Action>, w: nat)
    requires Possible(s, steps)
    ensures Occurrences(steps, Finish(w, true)) + (if HasResult(s, w, true) then 1 else 0)
         == if HasResult(After(s, steps), w, true) then 1 else 0
    decreases steps
  {
    if steps != [] {
      var t := Apply(s, steps[0]);
      CountsSuccesses(t, steps[1..], w);
      assert HasResult(t, w, true) <==> HasResult(s, w, true) || steps[0] == Finish(w, true);
    }
  }

  lemma {:induction false} CountsFailures(s: State, steps: seq<Action>, w: nat)
    requires Possible(s, steps)
    ensures Occurrences(steps, Finish(w, false)) + Occurrences(steps, GiveUp(w)) + (if HasResult(s, w, false) then 1 else 0)
         == if HasResult(After(s, steps), w, false) then 1 else 0
    decreases steps
  {
    if steps != [] {
      var t := Apply(s, steps[0]);
      CountsFailures(t, steps[1..], w);
      assert HasResult(t, w, false) <==> HasResult(s, w, false) || steps[0] == Finish(w, false) || steps[0] == GiveUp(w);
    }
  }

  /** Worker `w` was started by run `r`. */
  predicate IsOf(s: State, w: nat, r: nat) {
    w < |s.workers| && s.workers[w].run == r
  }

  /**
    What a run delivers, told by the steps that were taken: success exactly if the worker function
    returned well for every one of its workers, that is, if it failed or panicked for none of them
    and none of them gave up waiting.
   */
  lemma DeliveredTellsHowWorkersEnded(maxSources: int, maxWrites: int, steps: seq<Action>, r: nat)
    requires Possible(New(maxSources, maxWrites), steps)
    requires HasDelivered(After(New(maxSources, maxWrites), steps), r)
    ensures var s := After(New(maxSources, maxWrites), steps);
            && (s.runs[r].succeeded.value <==> forall w: nat :: IsOf(s, w, r) ==> Occurrences(steps, Finish(w, true)) == 1)
            && (s.runs[r].succeeded.value <==>
                  forall w: nat :: IsOf(s, w, r) ==> Occurrences(steps, Finish(w, false)) == 0 && Occurrences(steps, GiveUp(w)) == 0)
  {
    var s := After(New(maxSources, maxWrites), steps);
    DeliveredIsConjunction(maxSources, maxWrites, steps, r);
    forall w: nat | IsOf(s, w, r)
      ensures s.workers[w].pc == Sent(true) <==> Occurrences(steps, Finish(w, true)) == 1
      ensures s.workers[w].pc == Sent(true) <==> Occurrences(steps, Finish(w, false)) == 0 && Occurrences(steps, GiveUp(w)) == 0
    {
      EndsOneWay(maxSources, maxWrites, steps, w);
      assert s.workers[w] in s.workers;
      AllSent(maxSources, maxWrites, steps, r);
    }
    assert (forall w <- s.workers :: w.run == r ==> w.pc == Sent(true))
      <==> forall w: nat :: IsOf(s, w, r) ==> s.workers[w].pc == Sent(true);
  }

  /** By the time a run has delivered, all its workers have reported. */
  lemma AllSent(maxSources: int, maxWrites: int, steps: seq<Action>, r: nat)
    requires Possible(New(maxSources, maxWrites), steps)
    requires HasDelivered(After(New(maxSources, maxWrites), steps), r)
    ensures forall w <- After(New(maxSources, maxWrites), steps).workers :: w.run == r ==> w.pc.Sent?
  {
    RunKeepsInv(New(maxSources, maxWrites), steps);
    var s := After(New(maxSources, maxWrites), steps);
    assert RunInv(s.workers, r, s.runs[r]);
    CountSent(s.workers, r);
  }

  /** Every worker ends in at most one of the three ways, and its result is true for the first of them only. */
  lemma EndsOneWay(maxSources: int, maxWrites: int, steps: seq<Action>, w: nat)
    requires Possible(New(maxSources, maxWrites), steps)
    ensures var s := After(New(maxSources, maxWrites), steps);
            && Occurrences(steps, Finish(w, true)) == (if HasResult(s, w, true) then 1 else 0)
            && Occurrences(steps, Finish(w, false)) + Occurrences(steps, GiveUp(w)) == (if HasResult(s, w, false) then 1 else 0)
  {
    CountsSuccesses(New(maxSources, maxWrites), steps, w);
    CountsFailures(New(maxSources, maxWrites), steps, w);
  }

  lemma StepKeepsWorker(s: State, a: Action, w: nat)
    requires Enabled(s, a) && w < |s.workers|
    ensures w < |Apply(s, a).workers|
    ensures Apply(s, a).workers[w].run == s.workers[w].run && Apply(s, a).workers[w].source == s.workers[w].source
  {
  }

  lemma {:induction false} WorkersKeepTheirRun(s: State, steps: seq<Action>, w: nat)
    requires Possible(s, steps) && w < |s.workers|
    ensures w < |After(s, steps).workers| && After(s, steps).workers[w].run == s.workers[w].run
    decreases steps
  {
    if steps != [] {
      StepKeepsWorker(s, steps[0], w);
      WorkersKeepTheirRun(Apply(s, steps[0]), steps[1..], w);
    }
  }

  lemma CancelledByStep(s: State, a: Action, r: nat)
    requires Enabled(s, a) && r < |Apply(s, a).runs| && Apply(s, a).runs[r].cancelled
    ensures a == Cancel(r) || (r < |s.runs| && s.runs[r].cancelled)
  {
  }

  lemma {:induction false} GiveUpNeedsCancel(s: State, steps: seq<Action>, w: nat)
    requires Possible(s, steps) && Occurrences(steps, GiveUp(w)) > 0
    ensures w < |After(s, steps).workers|
    ensures var r := After(s, steps).workers[w].run; Occurrences(steps, Cancel(r)) > 0 || (r < |s.runs| && s.runs[r].cancelled)
    decreases steps
  {
    if steps[0] == GiveUp(w) {
      WorkersKeepTheirRun(s, steps, w);
    } else {
      var t := Apply(s, steps[0]);
      GiveUpNeedsCancel(t, steps[1..], w);
      var r := After(s, steps).workers[w].run;
      if Occurrences(steps[1..], Cancel(r)) == 0 {
        CancelledByStep(s, steps[0], r);
      }
    }
  }

  /** A worker gives up waiting for its slot only when its own run was cancelled. */
  lemma OnlyCancelledRunsGiveUp(maxSources: int, maxWrites: int, steps: seq<Action>, w: nat, r: nat)
    requires Possible(New(maxSources, maxWrites), steps)
    requires IsOf(After(New(maxSources, maxWrites), steps), w, r) && Occurrences(steps, Cancel(r)) == 0
    ensures Occurrences(steps, GiveUp(w)) == 0
  {
    if Occurrences(steps, GiveUp(w)) > 0 {
      GiveUpNeedsCancel(New(maxSources, maxWrites), steps, w);
    }
  }

  /** A request spawns one waiting worker of the new run for each source that was not running, and touches no other. */
  lemma StartSpawns(s: State, sources: seq<string>)
    ensures var t := Apply(s, Start(sources)); |t.runs| == |s.runs| + 1 && s.workers <= t.workers
    ensures var added := Apply(s, Start(sources)).workers[|s.workers|..];
            && (forall v <- added :: v.run == |s.runs| && v.pc == Waiting && v.source in sources && v.source !in s.running)
            && (forall x <- sources :: x !in s.running ==> Worker(|s.runs|, x, Waiting) in added)
            && (forall i, j :: 0 <= i < j < |added| ==> added[i].source != added[j].source)
  {
    AdmissionFacts(s.running, sources);
    var accepted := Admit(s.running, sources).accepted;
    var added := NewWorkers(|s.runs|, accepted);
    assert Apply(s, Start(sources)).workers[|s.workers|..] == added;
    NewWorkersAre(|s.runs|, accepted);
  }

  lemma NewWorkersAre(run: nat, accepted: seq<string>)
    ensures forall v <- NewWorkers(run, accepted) :: v.run == run && v.pc == Waiting && v.source in accepted
    ensures forall x <- accepted :: Worker(run, x, Waiting) in NewWorkers(run, accepted)
  {
    forall x | x in accepted
      ensures Worker(run, x, Waiting) in NewWorkers(run, accepted)
    {
      var k :| 0 <= k < |accepted| && accepted[k] == x;
      assert NewWorkers(run, accepted)[k] == Worker(run, x, Waiting);
    }
  }

  /** The steps that need neither a new request nor a cancellation. */
  predicate Progress(a: Action) {
    !a.Start? && !a.Cancel? && !a.GiveUp? && !a.AbortWrite?
  }

  ghost predicate Quiet(s: State) {
    && (forall w <- s.workers :: w.pc.Sent?)
    && (forall r :: 0 <= r < |s.runs| ==> s.runs[r].succeeded.Some?)
  }

  ghost predicate CanProgress(s: State) {
    exists a :: Enabled(s, a) && Progress(a)
  }

  lemma HolderCanProgress(s: State, w: nat)
    requires Inv(s) && w < |s.workers| && s.workers[w].pc != Waiting && !s.workers[w].pc.Sent?
    ensures CanProgress(s)
  {
    var worker := s.workers[w];
    assert worker in s.workers;
    CountNone(s.workers, HoldingSlot);
    CountNone(s.workers, InWrite);
    match worker.pc
    case Working(NoWrite) => assert Enabled(s, Finish(w, true));
    case Working(Writing) => assert Enabled(s, EndWrite(w));
    case Working(Asking) =>
      if s.writes < s.maxWrites {
        assert Enabled(s, BeginWrite(w));
      } else {
        var v :| v in s.workers && Is(InWrite, v);
        var i :| 0 <= i < |s.workers| && s.workers[i] == v;
        assert Enabled(s, EndWrite(i));
      }
    case Ended(_) => assert Enabled(s, FreeSlot(w));
    case SlotFreed(_) => assert Enabled(s, Release(w));
    case Released(_) =>
      CountSent(s.workers, worker.run);
      assert RunInv(s.workers, worker.run, s.runs[worker.run]);
      assert Enabled(s, Send(w));
  }

  lemma WaiterCanProgress(s: State, w: nat)
    requires Inv(s) && w < |s.workers| && s.workers[w].pc == Waiting
    ensures CanProgress(s)
  {
    if s.slots < s.maxSources {
      assert Enabled(s, TakeSlot(w));
    } else {
      CountNone(s.workers, HoldingSlot);
      var v :| v in s.workers && Is(HoldingSlot, v);
      var i :| 0 <= i < |s.workers| && s.workers[i] == v;
      HolderCanProgress(s, i);
    }
  }

  lemma CollectorCanProgress(s: State, r: nat)
    requires Inv(s) && (forall w <- s.workers :: w.pc.Sent?)
    requires r < |s.runs| && s.runs[r].succeeded == None
    ensures CanProgress(s)
  {
    var run := s.runs[r];
    assert RunInv(s.workers, r, run);
    SentIsAll(s.workers, r);
    if run.received < run.total {
      assert Enabled(s, Receive(r));
    } else {
      assert Enabled(s, Deliver(r));
    }
  }

  lemma {:induction false} SentIsAll(workers: seq<Worker>, r: nat)
    requires forall w <- workers :: w.pc.Sent?
    ensures Count(workers, SentIn(r)) == Count(workers, InRun(r))
  {
    if workers != [] {
      SentIsAll(workers[..|workers| - 1], r);
    }
  }

  /** No reachable state is deadlocked: until everything was sent and delivered, some goroutine can move without outside help. */
  lemma NeverDeadlocked(maxSources: int, maxWrites: int, steps: seq<Action>)
    requires Possible(New(maxSources, maxWrites), steps)
    ensures var s := After(New(maxSources, maxWrites), steps); Quiet(s) || CanProgress(s)
  {
    RunKeepsInv(New(maxSources, maxWrites), steps);
    var s := After(New(maxSources, maxWrites), steps);
    if w :| 0 <= w < |s.workers| && !s.workers[w].pc.Sent? {
      if s.workers[w].pc == Waiting {
        WaiterCanProgress(s, w);
      } else {
        HolderCanProgress(s, w);
      }
    } else if r :| 0 <= r < |s.runs| && s.runs[r].succeeded == None {
      CollectorCanProgress(s, r);
    }
  }
}
