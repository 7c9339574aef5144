/** Semaphore-bounded workers as a state machine (core/engine/dispatcher.go, core/engine/parallel.go). */
module Dispatch {

  // ConcurrentDispatcher.Dispatch and Pool.Run are steps of a launcher, its workers and a context that may be
  // cancelled at any time. Pool.Run is the machine whose context is never cancelled.

  /** Worker `i` performs the visible actions `work[i]`, in order. */
  datatype Config<E> = Config(capacity: nat, work: seq<seq<E>>)

  datatype Worker<E> =
    | Started
    | Running(left: seq<E>)
    | Releasing
    | Leaving
    | Exited

  /** Where the launching loop stands. `got` tells whether the select took a slot. */
  datatype Launcher = LoopTop | Select | Check(got: bool) | WaitAll | Returned

  /** `workers[i]` is the goroutine of index i; `trace` lists all actions with the index that did them;
      `stolen` remembers that the drain took a slot which the launcher did not hold. */
  datatype State<E> = State(
    launcher: Launcher,
    sem: nat,
    workers: seq<Worker<E>>,
    cancelled: bool,
    trace: seq<(nat, E)>,
    panicked: seq<nat>,
    stolen: bool)

  function Init<E>(): State<E> {
    State(LoopTop, 0, [], false, [], [], false)
  }

  datatype Step =
    | Cancel
    | Enter
    | Acquire
    | TakeDone
    | Drain
    | Launch
    | Begin(i: nat)
    | Act(i: nat)
    | Panic(i: nat)
    | Finish(i: nat)
    | Release(i: nat)
    | SignalDone(i: nat)
    | Return

  predicate AllExited<E>(ws: seq<Worker<E>>) {
    forall i :: 0 <= i < |ws| ==> ws[i].Exited?
  }

  predicate Enabled<E>(k: Config<E>, s: State<E>, t: Step) {
    match t
    case Cancel => !s.cancelled
    case Enter => s.launcher.LoopTop?
    case Acquire => s.launcher.Select? && s.sem < k.capacity
    case TakeDone => s.launcher.Select? && s.cancelled
    case Drain => s.launcher.Check? && s.cancelled
    case Launch => s.launcher.Check? && !s.cancelled && |s.workers| < |k.work|
    case Begin(i) => i < |s.workers| && i < |k.work| && s.workers[i].Started?
    case Act(i) => i < |s.workers| && s.workers[i].Running? && s.workers[i].left != []
    case Panic(i) => i < |s.workers| && s.workers[i].Running?
    case Finish(i) => i < |s.workers| && s.workers[i].Running? && s.workers[i].left == []
    case Release(i) => i < |s.workers| && s.workers[i].Releasing? && s.sem > 0
    case SignalDone(i) => i < |s.workers| && s.workers[i].Leaving?
    case Return => s.launcher.WaitAll? && AllExited(s.workers)
  }

  function Apply<E>(k: Config<E>, s: State<E>, t: Step): State<E>
    requires Enabled(k, s, t)
  {
    match t
    case Cancel => s.(cancelled := true)
    case Enter => s.(launcher := if |s.workers| >= |k.work| || s.cancelled then WaitAll else Select)
    case Acquire => s.(launcher := Check(true), sem := s.sem + 1)
    case TakeDone => s.(launcher := Check(false))
    case Drain =>
      s.(launcher := WaitAll, sem := if s.sem > 0 then s.sem - 1 else 0,
         stolen := !s.launcher.got && s.sem > 0)
    case Launch => s.(launcher := LoopTop, workers := s.workers + [Started])
    case Begin(i) => s.(workers := s.workers[i := if s.cancelled then Releasing else Running(k.work[i])])
    case Act(i) =>
      var left := s.workers[i].left;
      s.(workers := s.workers[i := Running(left[1..])], trace := s.trace + [(i, left[0])])
    case Panic(i) => s.(workers := s.workers[i := Releasing], panicked := s.panicked + [i])
    case Finish(i) => s.(workers := s.workers[i := Releasing])
    case Release(i) => s.(workers := s.workers[i := Leaving], sem := s.sem - 1)
    case SignalDone(i) => s.(workers := s.workers[i := Exited])
    case Return => s.(launcher := Returned)
  }

  ghost predicate IsRun<E>(k: Config<E>, ss: seq<State<E>>, ts: seq<Step>) {
    && |ss| == |ts| + 1
    && ss[0] == Init()
    && forall n :: 0 <= n < |ts| ==> Enabled(k, ss[n], ts[n]) && ss[n + 1] == Apply(k, ss[n], ts[n])
  }

  // ---- Slots ------------------------------------------------------------

  /** A worker holds a slot from its launch until its deferred receive from the semaphore. */
  predicate Holds<E>(w: Worker<E>) {
    w.Started? || w.Running? || w.Releasing?
  }

  function Holders<E>(ws: seq<Worker<E>>): nat {
    if ws == [] then 0 else Holders(ws[..|ws| - 1]) + (if Holds(ws[|ws| - 1]) then 1 else 0)
  }

  lemma {:induction false} HoldersUpdate<E>(ws: seq<Worker<E>>, i: nat, w: Worker<E>)
    requires i < |ws|
    ensures Holders(ws[i := w]) ==
            Holders(ws) - (if Holds(ws[i]) then 1 else 0) + (if Holds(w) then 1 else 0)
    decreases |ws|
  {
    var n := |ws| - 1;
    if i == n {
      assert ws[i := w][..n] == ws[..n];
    } else {
      assert ws[i := w][..n] == ws[..n][i := w];
      HoldersUpdate(ws[..n], i, w);
    }
  }

  lemma HoldersAppend<E>(ws: seq<Worker<E>>, w: Worker<E>)
    ensures Holders(ws + [w]) == Holders(ws) + (if Holds(w) then 1 else 0)
  {
    assert (ws + [w])[..|ws|] == ws;
  }

  lemma {:induction false} HoldersZero<E>(ws: seq<Worker<E>>)
    ensures Holders(ws) == 0 <==> forall i :: 0 <= i < |ws| ==> !Holds(ws[i])
  {
    if ws != [] {
      HoldersZero(ws[..|ws| - 1]);
      assert forall i :: 0 <= i < |ws| - 1 ==> ws[..|ws| - 1][i] == ws[i];
    }
  }

  function Own(s: Launcher): nat {
    if s == Check(true) then 1 else 0
  }

  /** The semaphore accounts for every slot in use, less the stolen one. */
  ghost predicate Slots<E>(k: Config<E>, s: State<E>) {
    && s.sem + (if s.stolen then 1 else 0) == Holders(s.workers) + Own(s.launcher)
    && s.sem <= k.capacity
    && Holders(s.workers) + Own(s.launcher) <= k.capacity
    && (s.stolen ==> s.cancelled && (s.launcher.WaitAll? || s.launcher.Returned?))
    && (s.launcher == Check(false) ==> s.cancelled)
    && |s.workers| <= |k.work|
    && (s.launcher.Select? || s.launcher == Check(true) ==> |s.workers| < |k.work|)
    && (s.launcher.WaitAll? || s.launcher.Returned? ==> s.cancelled || |s.workers| == |k.work|)
    && (s.launcher.Returned? ==> AllExited(s.workers))
  }

  lemma StepKeepsSlots<E>(k: Config<E>, s: State<E>, t: Step)
    requires Slots(k, s) && Enabled(k, s, t)
    ensures Slots(k, Apply(k, s, t))
  {
    hide Holders;
    var s' := Apply(k, s, t);
    match t
    case Launch => HoldersAppend(s.workers, Started);
    case Begin(i) => HoldersUpdate(s.workers, i, s'.workers[i]);
    case Act(i) => HoldersUpdate(s.workers, i, s'.workers[i]);
    case Panic(i) => HoldersUpdate(s.workers, i, Releasing);
    case Finish(i) => HoldersUpdate(s.workers, i, Releasing);
    case Release(i) => HoldersUpdate(s.workers, i, Leaving);
    case SignalDone(i) => HoldersUpdate(s.workers, i, Exited);
    case _ =>
  }

  lemma {:induction false} RunKeepsSlots<E>(k: Config<E>, ss: seq<State<E>>, ts: seq<Step>, n: nat)
    requires IsRun(k, ss, ts) && n < |ss|
    ensures Slots(k, ss[n])
  {
    if n > 0 {
      RunKeepsSlots(k, ss, ts, n - 1);
      StepKeepsSlots(k, ss[n - 1], ts[n - 1]);
    }
  }

  /** At most `capacity` workers are in flight, in every state of every run, cancelled or not. */
  lemma BoundedConcurrency<E>(k: Config<E>, ss: seq<State<E>>, ts: seq<Step>, n: nat)
    requires IsRun(k, ss, ts) && n < |ss|
    ensures Holders(ss[n].workers) <= k.capacity
  {
    RunKeepsSlots(k, ss, ts, n);
  }

  // ---- Termination and completion ---------------------------------------

  function WorkerRank<E>(w: Worker<E>, work: nat): nat {
    match w
    case Started => work + 4
    case Running(left) => |left| + 3
    case Releasing => 2
    case Leaving => 1
    case Exited => 0
  }

  /** What the workers launched so far, and those still to launch, can do. */
  function Ahead<E>(k: Config<E>, ws: seq<Worker<E>>, n: nat): nat
    requires n <= |k.work|
    decreases |k.work| - n
  {
    if n == |k.work| then 0
    else (if n < |ws| then WorkerRank(ws[n], |k.work[n]|) else |k.work[n]| + 10) + Ahead(k, ws, n + 1)
  }

  function Measure<E>(k: Config<E>, s: State<E>): nat {
    Ahead(k, s.workers, 0)
    + (match s.launcher
       case LoopTop => 4 case Select => 3 case Check(_) => 2 case WaitAll => 1 case Returned => 0)
    + (if s.cancelled then 0 else 1)
  }

  ghost predicate SameAt<E>(ws: seq<Worker<E>>, ws': seq<Worker<E>>, m: nat) {
    (m < |ws| <==> m < |ws'|) && (m < |ws| ==> ws[m] == ws'[m])
  }

  lemma {:induction false} AheadChanges<E>(k: Config<E>, ws: seq<Worker<E>>, ws': seq<Worker<E>>, i: nat, n: nat)
    requires n <= |k.work| && i < |k.work|
    requires forall m: nat :: m < |k.work| && m != i ==> SameAt(ws, ws', m)
    ensures n > i ==> Ahead(k, ws', n) == Ahead(k, ws, n)
    ensures n <= i ==> Ahead(k, ws', n) - Ahead(k, ws, n) ==
                       (if i < |ws'| then WorkerRank(ws'[i], |k.work[i]|) else |k.work[i]| + 10) -
                       (if i < |ws| then WorkerRank(ws[i], |k.work[i]|) else |k.work[i]| + 10)
    decreases |k.work| - n
  {
    if n < |k.work| {
      AheadChanges(k, ws, ws', i, n + 1);
      assert n != i ==> SameAt(ws, ws', n);
    }
  }

  /** A worker that moves on brings the measure down. */
  lemma AheadDrops<E>(k: Config<E>, ws: seq<Worker<E>>, i: nat, w: Worker<E>)
    requires i < |ws| <= |k.work| && WorkerRank(w, |k.work[i]|) < WorkerRank(ws[i], |k.work[i]|)
    ensures Ahead(k, ws[i := w], 0) < Ahead(k, ws, 0)
  {
    hide Ahead;
    AheadChanges(k, ws, ws[i := w], i, 0);
  }

  /** Launching a worker makes room for the launcher to come round again. */
  lemma AheadLaunch<E>(k: Config<E>, ws: seq<Worker<E>>)
    requires |ws| < |k.work|
    ensures Ahead(k, ws + [Started], 0) + 6 == Ahead(k, ws, 0)
  {
    hide Ahead;
    AheadChanges(k, ws, ws + [Started], |ws|, 0);
  }

  lemma StepDecreases<E>(k: Config<E>, s: State<E>, t: Step)
    requires |s.workers| <= |k.work| && Enabled(k, s, t)
    ensures Measure(k, Apply(k, s, t)) < Measure(k, s)
  {
    hide Ahead;
    var s' := Apply(k, s, t);
    match t
    case Launch => AheadLaunch(k, s.workers);
    case Begin(i) => AheadDrops(k, s.workers, i, s'.workers[i]);
    case Act(i) => AheadDrops(k, s.workers, i, s'.workers[i]);
    case Panic(i) => AheadDrops(k, s.workers, i, Releasing);
    case Finish(i) => AheadDrops(k, s.workers, i, Releasing);
    case Release(i) => AheadDrops(k, s.workers, i, Leaving);
    case SignalDone(i) => AheadDrops(k, s.workers, i, Exited);
    case _ =>
  }

  /** No run is longer than the measure of its first state. */
  lemma {:induction false} RunsAreBounded<E>(k: Config<E>, ss: seq<State<E>>, ts: seq<Step>, n: nat)
    requires IsRun(k, ss, ts) && n < |ss|
    ensures n + Measure(k, ss[n]) <= Measure(k, Init<E>())
  {
    if n > 0 {
      RunsAreBounded(k, ss, ts, n - 1);
      RunKeepsSlots(k, ss, ts, n - 1);
      StepDecreases(k, ss[n - 1], ts[n - 1]);
    }
  }

  /** Nothing but a cancellation can happen any more. */
  ghost predicate Stuck<E>(k: Config<E>, s: State<E>) {
    forall t :: Enabled(k, s, t) ==> t.Cancel?
  }

  lemma BusyWorkerSteps<E>(k: Config<E>, s: State<E>, i: nat)
    requires Slots(k, s) && i < |s.workers| && !s.workers[i].Exited? && !s.workers[i].Releasing?
    ensures !Stuck(k, s)
  {
    match s.workers[i]
    case Started => assert Enabled(k, s, Begin(i));
    case Running(left) =>
      if left == [] {
        assert Enabled(k, s, Finish(i));
      } else {
        assert Enabled(k, s, Act(i));
      }
    case Leaving => assert Enabled(k, s, SignalDone(i));
  }

  lemma LauncherSteps<E>(k: Config<E>, s: State<E>)
    requires Slots(k, s) && k.capacity > 0 && Stuck(k, s)
    ensures s.launcher.Select? ==> s.sem == k.capacity
    ensures s.launcher.Select? || s.launcher.WaitAll? || s.launcher.Returned?
  {
    assert !Enabled(k, s, Enter) && !Enabled(k, s, Acquire) && !Enabled(k, s, Drain) && !Enabled(k, s, Launch);
  }

  lemma RestingState<E>(k: Config<E>, s: State<E>)
    requires Slots(k, s) && k.capacity > 0 && Stuck(k, s)
    ensures s.launcher.Returned? <==> !s.stolen
    ensures s.stolen ==> s.sem == 0 && Holders(s.workers) == 1 && s.launcher.WaitAll?
  {
    LauncherSteps(k, s);
    HoldersZero(s.workers);
    if i: nat :| i < |s.workers| && !s.workers[i].Exited? && !s.workers[i].Releasing? {
      BusyWorkerSteps(k, s, i);
    } else if i: nat :| i < |s.workers| && s.workers[i].Releasing? {
      assert !Enabled(k, s, Release(i));
      assert Holds(s.workers[i]);
    } else {
      assert AllExited(s.workers);
      assert !Enabled(k, s, Return);
    }
  }

  /** When a run has come to rest, either Dispatch has returned, or the drain stole a slot and one worker
      waits for ever to give back the slot it no longer has. */
  lemma RestIsReturnOrTheft<E>(k: Config<E>, ss: seq<State<E>>, ts: seq<Step>)
    requires IsRun(k, ss, ts) && k.capacity > 0 && Stuck(k, ss[|ss| - 1])
    ensures var s := ss[|ss| - 1];
            && (s.launcher.Returned? <==> !s.stolen)
            && (s.stolen ==> s.sem == 0 && Holders(s.workers) == 1 && s.launcher.WaitAll?)
  {
    RunKeepsSlots(k, ss, ts, |ts|);
    RestingState(k, ss[|ss| - 1]);
  }

  // ---- What the workers did ---------------------------------------------

  /** The actions of index `i` in a tagged trace. */
  function Project<E>(trace: seq<(nat, E)>, i: nat): seq<E> {
    if trace == [] then []
    else
      var n := |trace| - 1;
      Project(trace[..n], i) + (if trace[n].0 == i then [trace[n].1] else [])
  }

  lemma ProjectAppend<E>(trace: seq<(nat, E)>, e: (nat, E), i: nat)
    ensures Project(trace + [e], i) == Project(trace, i) + (if e.0 == i then [e.1] else [])
  {
    assert (trace + [e])[..|trace|] == trace;
  }

  /** `trace` is an interleaving of the works: each index did exactly its own actions, in order. */
  ghost predicate Interleaved<E>(trace: seq<(nat, E)>, work: seq<seq<E>>) {
    && (forall n :: 0 <= n < |trace| ==> trace[n].0 < |work|)
    && (forall i: nat :: i < |work| ==> Project(trace, i) == work[i])
  }

  /** How what an index did (`p`) compares with its work. `clean` runs have no cancellation and no panic. */
  ghost predicate Progress<E>(w: Worker<E>, p: seq<E>, work: seq<E>, clean: bool) {
    match w
    case Started => p == []
    case Running(left) => p + left == work
    case _ => p <= work && (clean ==> p == work)
  }

  ghost predicate Clean<E>(s: State<E>) {
    !s.cancelled && s.panicked == []
  }

  ghost predicate AccountedAt<E>(k: Config<E>, s: State<E>, i: nat)
    requires i < |k.work|
  {
    if i < |s.workers| then Progress(s.workers[i], Project(s.trace, i), k.work[i], Clean(s))
    else Project(s.trace, i) == []
  }

  ghost predicate Accounted<E>(k: Config<E>, s: State<E>) {
    && |s.workers| <= |k.work|
    && (forall n :: 0 <= n < |s.trace| ==> s.trace[n].0 < |s.workers|)
    && (forall i: nat :: i < |k.work| ==> AccountedAt(k, s, i))
  }

  lemma ActKeepsAccount<E>(k: Config<E>, s: State<E>, t: Step, i: nat)
    requires t.Act? && Accounted(k, s) && Enabled(k, s, t) && i < |k.work|
    ensures AccountedAt(k, Apply(k, s, t), i)
  {
    var left := s.workers[t.i].left;
    assert AccountedAt(k, s, i);
    ProjectAppend(s.trace, (t.i, left[0]), i);
    if i == t.i {
      assert (Project(s.trace, i) + [left[0]]) + left[1..] == Project(s.trace, i) + ([left[0]] + left[1..]);
      assert [left[0]] + left[1..] == left;
    } else {
      assert Project(s.trace, i) + [] == Project(s.trace, i);
    }
  }

  lemma StepKeepsAccount<E>(k: Config<E>, s: State<E>, t: Step)
    requires Accounted(k, s) && Enabled(k, s, t)
    ensures Accounted(k, Apply(k, s, t))
  {
    var s' := Apply(k, s, t);
    forall i: nat | i < |k.work| ensures AccountedAt(k, s', i) {
      assert AccountedAt(k, s, i);
      if t.Act? {
        ActKeepsAccount(k, s, t, i);
      }
    }
  }

  lemma {:induction false} RunKeepsAccount<E>(k: Config<E>, ss: seq<State<E>>, ts: seq<Step>, n: nat)
    requires IsRun(k, ss, ts) && n < |ss|
    ensures Accounted(k, ss[n])
  {
    if n > 0 {
      RunKeepsAccount(k, ss, ts, n - 1);
      StepKeepsAccount(k, ss[n - 1], ts[n - 1]);
    }
  }

  /** In every state of every run, cancelled or not, an index has done a prefix of its work: nothing is
      launched twice and nothing is repeated. */
  lemma NothingRunsTwice<E>(k: Config<E>, ss: seq<State<E>>, ts: seq<Step>, n: nat, i: nat)
    requires IsRun(k, ss, ts) && n < |ss| && i < |k.work|
    ensures Project(ss[n].trace, i) <= k.work[i]
  {
    RunKeepsAccount(k, ss, ts, n);
    assert AccountedAt(k, ss[n], i);
  }

  /** An uncancelled run without panics that has come to rest has returned, and every index has run
      exactly once, whatever the interleaving. */
  lemma UncancelledRunsComplete<E>(k: Config<E>, ss: seq<State<E>>, ts: seq<Step>)
    requires IsRun(k, ss, ts) && k.capacity > 0
    requires var s := ss[|ss| - 1]; Stuck(k, s) && Clean(s)
    ensures var s := ss[|ss| - 1]; s.launcher.Returned? && Interleaved(s.trace, k.work)
  {
    var s := ss[|ss| - 1];
    RunKeepsSlots(k, ss, ts, |ts|);
    RunKeepsAccount(k, ss, ts, |ts|);
    RestIsReturnOrTheft(k, ss, ts);
    forall i: nat | i < |k.work| ensures Project(s.trace, i) == k.work[i] {
      assert AccountedAt(k, s, i) && s.workers[i].Exited?;
    }
  }

  // ---- The theft happens ------------------------------------------------

  lemma Extend<E>(k: Config<E>, ss: seq<State<E>>, ts: seq<Step>, t: Step)
    returns (ss': seq<State<E>>, ts': seq<Step>)
    requires IsRun(k, ss, ts) && Enabled(k, ss[|ss| - 1], t)
    ensures IsRun(k, ss', ts') && ss'[|ss'| - 1] == Apply(k, ss[|ss| - 1], t)
  {
    ss', ts' := ss + [Apply(k, ss[|ss| - 1], t)], ts + [t];
  }

  /** A run at rest whose Dispatch never returns. */
  ghost predicate Hangs<E>(k: Config<E>, ss: seq<State<E>>, ts: seq<Step>) {
    IsRun(k, ss, ts) && Stuck(k, ss[|ss| - 1]) && !ss[|ss| - 1].launcher.Returned?
  }

  /** Cancelling while the launcher waits for the slot of its second item: the drain takes the first worker's. */
  lemma TheftRun<E>(k: Config<E>) returns (ss: seq<State<E>>, ts: seq<Step>)
    requires k.capacity > 0 && |k.work| >= 2
    ensures IsRun(k, ss, ts)
    ensures ss[|ss| - 1] == State(WaitAll, 0, [Releasing], true, [], [], true)
  {
    var none: seq<Step> := [];
    assert IsRun(k, [Init<E>()], none);
    ss, ts := Extend(k, [Init<E>()], none, Enter);
    ss, ts := Extend(k, ss, ts, Acquire);
    ss, ts := Extend(k, ss, ts, Launch);
    ss, ts := Extend(k, ss, ts, Enter);
    ss, ts := Extend(k, ss, ts, Cancel);
    ss, ts := Extend(k, ss, ts, TakeDone);
    ss, ts := Extend(k, ss, ts, Drain);
    ss, ts := Extend(k, ss, ts, Begin(0));
  }

  /** With one item at most, the launcher never meets a slot that is not its own. */
  lemma {:induction false} NoTheft<E>(k: Config<E>, ss: seq<State<E>>, ts: seq<Step>, n: nat)
    requires IsRun(k, ss, ts) && n < |ss| && |k.work| <= 1
    ensures !ss[n].stolen && (ss[n].launcher.Select? || ss[n].launcher.Check? ==> ss[n].workers == [])
  {
    if n > 0 {
      NoTheft(k, ss, ts, n - 1);
      RunKeepsSlots(k, ss, ts, n - 1);
    }
  }

  /** A dispatch can hang exactly when it has two items or more, whatever its concurrency. */
  lemma CanHangIffTwo<E(!new)>(k: Config<E>)
    requires k.capacity > 0
    ensures (exists ss: seq<State<E>>, ts: seq<Step> :: Hangs(k, ss, ts)) <==> |k.work| >= 2
  {
    if |k.work| >= 2 {
      var ss, ts := TheftRun(k);
      var s := ss[|ss| - 1];
      assert !AllExited(s.workers) by { assert !s.workers[0].Exited?; }
      assert Stuck(k, s);
      assert Hangs(k, ss, ts);
    } else {
      forall ss: seq<State<E>>, ts: seq<Step> | IsRun(k, ss, ts) && Stuck(k, ss[|ss| - 1])
        ensures ss[|ss| - 1].launcher.Returned?
      {
        NoTheft(k, ss, ts, |ts|);
        RestIsReturnOrTheft(k, ss, ts);
      }
    }
  }

  // ---- What a cancellation stops ----------------------------------------

  predicate Working<E>(s: State<E>, n: nat) {
    n < |s.workers| && s.workers[n].Running?
  }

  lemma CancelledStep<E>(k: Config<E>, s: State<E>, t: Step, n: nat)
    requires Enabled(k, s, t) && s.cancelled && !Working(s, n)
    ensures var s' := Apply(k, s, t);
            && s'.cancelled && |s'.workers| == |s.workers| && !Working(s', n)
            && Project(s'.trace, n) == Project(s.trace, n)
  {
    hide Project;
    if t.Act? {
      ProjectAppend(s.trace, (t.i, s.workers[t.i].left[0]), n);
      assert Project(s.trace, n) + [] == Project(s.trace, n);
    }
  }

  /** Once the context is cancelled no worker is launched any more, and one that is not at work does nothing more. */
  lemma {:induction false} NothingBeginsAfterCancel<E>(k: Config<E>, ss: seq<State<E>>, ts: seq<Step>, i: nat, j: nat,
                                                       n: nat)
    requires IsRun(k, ss, ts) && i <= j < |ss| && ss[i].cancelled && !Working(ss[i], n)
    ensures ss[j].cancelled && |ss[j].workers| == |ss[i].workers| && !Working(ss[j], n)
    ensures Project(ss[j].trace, n) == Project(ss[i].trace, n)
    decreases j - i
  {
    hide Apply;
    hide Enabled;
    hide Project;
    hide Working;
    if i < j {
      NothingBeginsAfterCancel(k, ss, ts, i, j - 1, n);
      assert Enabled(k, ss[j - 1], ts[j - 1]) && ss[j - 1 + 1] == Apply(k, ss[j - 1], ts[j - 1]);
      CancelledStep(k, ss[j - 1], ts[j - 1], n);
    }
  }

  /** A cancelled launcher that has its slot, or needs none. */
  predicate NoTheftLeft<E>(s: State<E>) {
    && s.cancelled && !s.stolen
    && (s.launcher.LoopTop? || s.launcher == Check(true) || s.launcher.WaitAll? || s.launcher.Returned?)
  }

  lemma NoTheftStep<E>(k: Config<E>, s: State<E>, t: Step)
    requires Enabled(k, s, t) && NoTheftLeft(s)
    ensures NoTheftLeft(Apply(k, s, t))
  {
  }

  /** The drain takes a worker's slot only when the cancellation arrives while the launcher waits for a slot. */
  lemma {:induction false} TheftNeedsWaitingLauncher<E>(k: Config<E>, ss: seq<State<E>>, ts: seq<Step>, i: nat, j: nat)
    requires IsRun(k, ss, ts) && i < j < |ss| && ts[i] == Cancel && !ss[i].launcher.Select?
    ensures NoTheftLeft(ss[j])
    decreases j
  {
    hide Apply;
    hide Enabled;
    hide NoTheftLeft;
    assert Enabled(k, ss[j - 1], ts[j - 1]) && ss[j - 1 + 1] == Apply(k, ss[j - 1], ts[j - 1]);
    if j == i + 1 {
      RunKeepsSlots(k, ss, ts, i);
      CancelStarts(k, ss[i]);
    } else {
      TheftNeedsWaitingLauncher(k, ss, ts, i, j - 1);
      NoTheftStep(k, ss[j - 1], ts[j - 1]);
    }
  }

  lemma CancelStarts<E>(k: Config<E>, s: State<E>)
    requires Slots(k, s) && Enabled(k, s, Cancel) && !s.launcher.Select?
    ensures NoTheftLeft(Apply(k, s, Cancel))
  {
  }
}
