/** Suite execution (core/engine/engine.go, dispatcher.go, loop.go, suite.go). */
module Engine {
  import opened Wrappers
  import opened Dispatch
  import opened Weight

  datatype Mode = Sequential | Random | Concurrent | Weighted

  datatype Verdict = Passed | Failed | Skipped

  datatype Test = Test(name: string, skip: bool, weight: int)

  datatype Interaction = Interaction(mode: Mode, weight: int, tests: seq<Test>)

  /** An execution block without a duration; a repeat of 0 stands for 1. */
  datatype Execution = Execution(mode: Mode, repeat: nat, interval: int)

  datatype Suite = Suite(tests: seq<Test>, interactions: seq<Interaction>, execution: Option<Execution>)

  // ---- Orders of calls --------------------------------------------------

  function Numbers(from: int, n: nat): (r: seq<int>)
    ensures |r| == n && forall i :: 0 <= i < n ==> r[i] == from + i
  {
    seq(n, i => from + i)
  }

  /** The indices a dispatcher of each mode calls when it is not cancelled. A weighted dispatcher
      makes `count` draws among `n` items, and none when there are no items. */
  ghost predicate IsOrder(mode: Mode, n: nat, count: nat, order: seq<int>) {
    match mode
    case Random => count == n && multiset(order) == multiset(Numbers(0, n))
    case Weighted =>
      (if n == 0 then order == [] else |order| == count) && forall i :: 0 <= i < |order| ==> 0 <= order[i] < n
    case _ => count == n && order == Numbers(0, n)
  }

  /** The part of an order that is called before the `k`-th look at the context reports a cancellation. */
  ghost predicate CalledUntil(order: seq<int>, cancelled: nat -> bool, calls: seq<int>) {
    && calls <= order
    && (forall k: nat :: k < |calls| ==> !cancelled(k))
    && (|calls| < |order| ==> cancelled(|calls|))
  }

  /** A dispatcher that never sees a cancellation calls its whole order. */
  lemma UncancelledCallsAll(order: seq<int>, cancelled: nat -> bool, calls: seq<int>)
    requires CalledUntil(order, cancelled, calls) && forall k: nat :: k < |order| ==> !cancelled(k)
    ensures calls == order
  {
    assert order[..|calls|] == calls;
    assert order[..|order|] == order;
  }

  /** Some shuffle was called, up to a cancellation. */
  ghost predicate ShuffleCalled(count: nat, cancelled: nat -> bool, calls: seq<int>) {
    exists order :: IsOrder(Random, count, count, order) && CalledUntil(order, cancelled, calls)
  }

  method SequentialDispatch(count: nat, cancelled: nat -> bool) returns (calls: seq<int>)
    ensures CalledUntil(Numbers(0, count), cancelled, calls)
  {
    calls := [];
    for i := 0 to count
      invariant calls == Numbers(0, count)[..i] && forall k: nat :: k < i ==> !cancelled(k)
    {
      if cancelled(i) {
        return;
      }
      calls := calls + [i];
    }
  }

  method Swap(a: array<int>, i: nat, j: nat)
    requires i < a.Length && j < a.Length
    modifies a
    ensures multiset(a[..]) == multiset(old(a[..]))
  {
    a[i], a[j] := a[j], a[i];
  }

  /** `draw(m)` is a random number below `m`. */
  method RandomDispatch(count: nat, draw: nat -> nat, cancelled: nat -> bool)
    returns (calls: seq<int>)
    requires forall m :: m > 0 ==> draw(m) < m
    ensures ShuffleCalled(count, cancelled, calls)
  {
    var indices := new int[count](i => i);
    assert indices[..] == Numbers(0, count);
    var i := count - 1;
    while i > 0
      invariant -1 <= i < count
      invariant multiset(indices[..]) == multiset(Numbers(0, count))
    {
      Swap(indices, i, draw(i + 1));
      i := i - 1;
    }
    ghost var order := indices[..];
    PermutationLength(order, Numbers(0, count));
    calls := [];
    for n := 0 to count
      invariant indices[..] == order
      invariant calls == order[..n] && forall k: nat :: k < n ==> !cancelled(k)
    {
      if cancelled(n) {
        assert CalledUntil(order, cancelled, calls);
        return;
      }
      calls := calls + [indices[n]];
    }
    assert CalledUntil(order, cancelled, calls);
  }

  lemma PermutationLength(a: seq<int>, b: seq<int>)
    requires multiset(a) == multiset(b)
    ensures |a| == |b|
  {
    assert |multiset(a)| == |a| && |multiset(b)| == |b|;
  }

  /** The weights the engine hands to a weighted dispatcher: anything not positive counts as 1. */
  function DispatchWeights(given: seq<int>): (weights: seq<int>)
    ensures |weights| == |given|
  {
    seq(|given|, i requires 0 <= i < |given| => if given[i] <= 0 then 1 else given[i])
  }

  /** `draws` are the random numbers, each below its argument. */
  method WeightedDispatch(weights: seq<int>, count: nat, draws: (nat, nat) -> nat, cancelled: nat -> bool)
    returns (calls: seq<int>)
    requires NonNegative(weights) && forall i, m :: m > 0 ==> draws(i, m) < m
    ensures Sum(weights) == 0 ==> calls == []
    ensures Sum(weights) > 0 ==>
              && |calls| <= count && (|calls| < count ==> cancelled(|calls|))
              && forall i: nat :: i < |calls| ==>
                   !cancelled(i) && calls[i] >= 0 && Covers(weights, calls[i], draws(i, Sum(weights)))
  {
    SumMonotone(weights, 0, |weights|);
    assert weights[..|weights|] == weights;
    var total := Total(weights);
    calls := [];
    if total == 0 {
      return;
    }
    for i := 0 to count
      invariant |calls| == i
      invariant forall k: nat :: k < i ==>
                  !cancelled(k) && calls[k] >= 0 && Covers(weights, calls[k], draws(k, total))
    {
      if cancelled(i) {
        return;
      }
      var idx := SelectByDraw(weights, draws(i, total));
      calls := calls + [idx];
    }
  }

  /** LoopController.Run. `cancelled(k)` is the context seen before pass k + 1, `interrupted(k)` whether the
      pause after pass k is cut short. Without a repeat bound some cancellation must come, at `limit`. */
  method LoopRun(repeat: int, interval: int, cancelled: nat -> bool, interrupted: nat -> bool, ghost limit: nat)
    returns (passes: seq<int>)
    requires repeat <= 0 ==> cancelled(limit)
    ensures passes == Numbers(1, |passes|)
    ensures repeat > 0 ==> |passes| <= repeat
    ensures forall k: nat :: k < |passes| ==> !cancelled(k)
    ensures interval > 0 ==> forall k: nat :: 0 < k < |passes| ==> !interrupted(k)
    ensures repeat <= 0 || |passes| < repeat ==>
              cancelled(|passes|) || (interval > 0 && |passes| > 0 && interrupted(|passes|))
  {
    passes := [];
    var passNum := 0;
    while true
      invariant passNum == |passes| && passes == Numbers(1, passNum)
      invariant repeat > 0 ==> passNum < repeat
      invariant forall k: nat :: k < passNum ==> !cancelled(k)
      invariant interval > 0 ==> forall k: nat :: 0 < k <= passNum ==> !interrupted(k)
      invariant repeat <= 0 ==> passNum <= limit
      decreases if repeat > 0 then repeat - passNum else limit - passNum
    {
      if cancelled(passNum) {
        return;
      }
      passNum := passNum + 1;
      if repeat > 0 && passNum > repeat {
        return;
      }
      passes := passes + [passNum];
      if repeat > 0 && passNum >= repeat {
        return;
      }
      if interval > 0 {
        if interrupted(passNum) {
          return;
        }
      }
    }
  }

  // ---- The suite result -------------------------------------------------

  function Count(t: seq<Verdict>, v: Verdict): nat {
    if t == [] then 0 else Count(t[..|t| - 1], v) + (if t[|t| - 1] == v then 1 else 0)
  }

  lemma {:induction false} CountAll(t: seq<Verdict>)
    ensures Count(t, Passed) + Count(t, Failed) + Count(t, Skipped) == |t|
  {
    if t != [] {
      CountAll(t[..|t| - 1]);
    }
  }

  class SuiteResult {
    var results: seq<Verdict>
    var passed: nat
    var failed: nat
    var skipped: nat

    /** What the critical sections have recorded so far. */
    ghost predicate Holds(t: seq<Verdict>)
      reads this
    {
      && passed == failed == 0
      && skipped == Count(t, Skipped)
      && (forall i :: 0 <= i < |results| ==> !results[i].Skipped?)
      && Count(results, Passed) == Count(t, Passed) && Count(results, Failed) == Count(t, Failed)
    }

    constructor ()
      ensures Holds([])
    {
      results, passed, failed, skipped := [], 0, 0, 0;
    }

    /** One locked section of a test: a skip is counted, a result is appended. */
    method Record(v: Verdict, ghost t: seq<Verdict>)
      requires Holds(t)
      modifies this
      ensures Holds(t + [v])
    {
      assert (t + [v])[..|t|] == t;
      if v.Skipped? {
        skipped := skipped + 1;
      } else {
        assert (results + [v])[..|results|] == results;
        results := results + [v];
      }
    }

    method Summarise(ghost t: seq<Verdict>)
      requires Holds(t)
      modifies this
      ensures passed == Count(t, Passed) && failed == Count(t, Failed) && skipped == Count(t, Skipped)
      ensures passed + failed + skipped == |t|
      ensures results == old(results)
    {
      for i := 0 to |results|
        invariant results == old(results) && skipped == old(skipped)
        invariant passed == Count(results[..i], Passed) && failed == Count(results[..i], Failed)
      {
        assert results[..i + 1][..i] == results[..i];
        if results[i].Passed? {
          passed := passed + 1;
        } else {
          failed := failed + 1;
        }
      }
      assert results[..|results|] == results;
      CountAll(t);
    }
  }

  // ---- What may happen in a suite ---------------------------------------

  function Concat<E>(runs: seq<seq<E>>): seq<E> {
    if runs == [] then [] else runs[0] + Concat(runs[1..])
  }

  function Untag<E>(trace: seq<(nat, E)>): seq<E> {
    seq(|trace|, i requires 0 <= i < |trace| => trace[i].1)
  }

  /** The runs one after the other, or, under a concurrent dispatcher, in any interleaving. */
  ghost predicate Merged<E(!new)>(mode: Mode, runs: seq<seq<E>>, t: seq<E>) {
    if mode.Concurrent? then exists tagged :: Interleaved(tagged, runs) && t == Untag(tagged)
    else t == Concat(runs)
  }

  /** What a completed uncancelled run of the concurrent dispatcher leaves behind is such an interleaving. */
  lemma ConcurrentRunsMerge<E(!new)>(k: Config<E>, ss: seq<State<E>>, ts: seq<Step>)
    requires IsRun(k, ss, ts) && k.capacity > 0
    requires var s := ss[|ss| - 1]; Stuck(k, s) && Clean(s)
    ensures var s := ss[|ss| - 1]; s.launcher.Returned? && Merged(Concurrent, k.work, Untag(s.trace))
  {
    UncancelledRunsComplete(k, ss, ts);
  }

  /** Where in a suite something happens: a pass, a call in it, and a test of that call. */
  type Place = seq<nat>

  /** What the code cannot decide: random numbers, the outcomes of tests, and how the records of concurrent
      workers fall together. */
  datatype World = World(
    draw: (Place, nat, nat) -> nat,
    passes: (Test, Place) -> bool,
    schedule: (Place, seq<seq<Verdict>>) -> seq<(nat, Verdict)>)
  {
    ghost predicate Valid() {
      && (forall p, i, m :: m > 0 ==> draw(p, i, m) < m)
      && (forall p, runs :: Interleaved(schedule(p, runs), runs))
    }
  }

  /** What one call of a test records. */
  function Outcome(w: World, test: Test, place: Place): Verdict {
    if test.skip then Skipped else if w.passes(test, place) then Passed else Failed
  }

  /** A weighted order: each call is the index whose stretch of the weights covers its draw. */
  ghost predicate PickedBy(given: seq<int>, w: World, place: Place, order: seq<int>) {
    var weights := DispatchWeights(given);
    Sum(weights) > 0 ==>
      forall i :: 0 <= i < |order| ==> order[i] >= 0 && Covers(weights, order[i], w.draw(place, i, Sum(weights)))
  }

  function TestWeights(tests: seq<Test>): seq<int> {
    seq(|tests|, i requires 0 <= i < |tests| => tests[i].weight)
  }

  function InteractionWeights(inters: seq<Interaction>): seq<int> {
    seq(|inters|, i requires 0 <= i < |inters| => inters[i].weight)
  }

  ghost predicate InteractionRunBy(w: World, inter: Interaction, place: Place, order: seq<int>,
                                   runs: seq<seq<Verdict>>, t: seq<Verdict>) {
    && IsOrder(inter.mode, |inter.tests|, |inter.tests|, order)
    && (inter.mode.Weighted? ==> PickedBy(TestWeights(inter.tests), w, place, order))
    && |runs| == |order|
    && (forall j :: 0 <= j < |runs| ==>
          0 <= order[j] < |inter.tests| && runs[j] == [Outcome(w, inter.tests[order[j]], place + [j])])
    && Merged(inter.mode, runs, t)
  }

  /** The verdicts one runInteraction may record, in the order of recording. */
  ghost predicate InteractionRun(w: World, inter: Interaction, place: Place, t: seq<Verdict>) {
    exists order, runs :: InteractionRunBy(w, inter, place, order, runs, t)
  }

  ghost predicate PassRunBy(w: World, mode: Mode, inters: seq<Interaction>, pass: nat, order: seq<int>,
                            runs: seq<seq<Verdict>>, t: seq<Verdict>) {
    && IsOrder(mode, |inters|, if mode.Weighted? then 1 else |inters|, order)
    && (mode.Weighted? ==> PickedBy(InteractionWeights(inters), w, [pass], order))
    && |runs| == |order|
    && (forall j :: 0 <= j < |runs| ==>
          0 <= order[j] < |inters| && InteractionRun(w, inters[order[j]], [pass, j], runs[j]))
    && Merged(mode, runs, t)
  }

  /** One pass of the outer dispatcher. */
  ghost predicate PassRun(w: World, mode: Mode, inters: seq<Interaction>, pass: nat, t: seq<Verdict>) {
    exists order, runs :: PassRunBy(w, mode, inters, pass, order, runs, t)
  }

  /** The passes of the loop controller, numbered from 1. */
  ghost predicate SuiteRun(w: World, mode: Mode, inters: seq<Interaction>, passes: seq<seq<Verdict>>, t: seq<Verdict>) {
    && (forall p :: 0 <= p < |passes| ==> PassRun(w, mode, inters, p + 1, passes[p]))
    && t == Concat(passes)
  }

  // ---- What merging keeps -----------------------------------------------

  function Lengths<E>(runs: seq<seq<E>>): nat {
    if runs == [] then 0 else |runs[0]| + Lengths(runs[1..])
  }

  /** All actions of the runs together. */
  ghost function Bag<E>(runs: seq<seq<E>>): multiset<E> {
    if runs == [] then multiset{} else multiset(runs[0]) + Bag(runs[1..])
  }

  lemma {:induction false} BagSize<E>(runs: seq<seq<E>>)
    ensures |Bag(runs)| == Lengths(runs)
  {
    if runs != [] {
      BagSize(runs[1..]);
    }
  }

  lemma {:induction false} ConcatBag<E>(runs: seq<seq<E>>)
    ensures multiset(Concat(runs)) == Bag(runs)
  {
    if runs != [] {
      ConcatBag(runs[1..]);
    }
  }

  /** Every action of a tagged trace belongs to one projection. */
  lemma {:induction false} ProjectionsCover<E>(trace: seq<(nat, E)>, n: nat)
    requires forall i :: 0 <= i < |trace| ==> trace[i].0 < n
    ensures multiset(Untag(trace)) == ProjectedBag(trace, n)
    decreases |trace|
  {
    hide ProjectedBag;
    if trace == [] {
      EmptyBag<E>(n);
      assert Untag(trace) == [];
    } else {
      var m := |trace| - 1;
      ProjectionsCover(trace[..m], n);
      BagAppend(trace[..m], trace[m], n);
      UntagAppend(trace, m);
    }
  }

  lemma UntagAppend<E>(trace: seq<(nat, E)>, m: nat)
    requires m + 1 == |trace|
    ensures trace == trace[..m] + [trace[m]]
    ensures multiset(Untag(trace)) == multiset(Untag(trace[..m])) + multiset{trace[m].1}
  {
    assert Untag(trace) == Untag(trace[..m]) + [trace[m].1];
  }

  ghost function ProjectedBag<E>(trace: seq<(nat, E)>, n: nat): multiset<E> {
    if n == 0 then multiset{} else ProjectedBag(trace, n - 1) + multiset(Project(trace, n - 1))
  }

  lemma {:induction false} EmptyBag<E>(n: nat)
    ensures ProjectedBag<E>([], n) == multiset{}
  {
    if n > 0 {
      EmptyBag<E>(n - 1);
    }
  }

  lemma BagUnfolds<E>(trace: seq<(nat, E)>, n: nat)
    ensures ProjectedBag(trace, 0) == multiset{}
    ensures n > 0 ==> ProjectedBag(trace, n) == ProjectedBag(trace, n - 1) + multiset(Project(trace, n - 1))
  {
    hide Project;
  }

  lemma {:induction false} BagAppend<E>(trace: seq<(nat, E)>, e: (nat, E), n: nat)
    ensures ProjectedBag(trace + [e], n) == ProjectedBag(trace, n) + (if e.0 < n then multiset{e.1} else multiset{})
  {
    hide ProjectedBag;
    hide Project;
    BagUnfolds(trace, n);
    BagUnfolds(trace + [e], n);
    if n > 0 {
      BagAppend(trace, e, n - 1);
      ProjectAppend(trace, e, n - 1);
      var earlier, here := e.0 < n - 1, e.0 == n - 1;
      OneInOneBag(ProjectedBag(trace, n - 1), Project(trace, n - 1), e.1, earlier, here);
      assert earlier || here <==> e.0 < n;
    }
  }

  /** An action joins the bag of the earlier projections, the projection itself, or neither. */
  lemma OneInOneBag<E>(bag: multiset<E>, p: seq<E>, x: E, earlier: bool, here: bool)
    requires !(earlier && here)
    ensures (bag + (if earlier then multiset{x} else multiset{})) + multiset(p + if here then [x] else []) ==
            (bag + multiset(p)) + (if earlier || here then multiset{x} else multiset{})
  {
    if here {
      assert multiset(p + [x]) == multiset(p) + multiset{x};
    } else {
      assert p + [] == p;
    }
  }

  lemma {:induction false} ProjectedIsBag<E>(trace: seq<(nat, E)>, runs: seq<seq<E>>, n: nat)
    requires Interleaved(trace, runs) && n <= |runs|
    ensures ProjectedBag(trace, n) == Bag(runs[..n])
  {
    hide Project;
    hide Bag;
    if n == 0 {
      assert runs[..0] == [];
      NoBag<E>();
    } else {
      ProjectedIsBag(trace, runs, n - 1);
      assert Project(trace, n - 1) == runs[n - 1];
      assert runs[..n] == runs[..n - 1] + [runs[n - 1]];
      BagOfMore(runs[..n - 1], runs[n - 1]);
    }
  }

  lemma NoBag<E>()
    ensures Bag<E>([]) == multiset{}
  {
  }

  lemma {:induction false} BagOfMore<E>(runs: seq<seq<E>>, r: seq<E>)
    ensures Bag(runs + [r]) == Bag(runs) + multiset(r)
  {
    if runs == [] {
      assert runs + [r] == [r];
      assert Bag([r]) == multiset(r) + Bag<E>([]);
    } else {
      BagOfMore(runs[1..], r);
      assert (runs + [r])[1..] == runs[1..] + [r];
    }
  }

  lemma InterleavedKeepsAll<E>(trace: seq<(nat, E)>, runs: seq<seq<E>>)
    requires Interleaved(trace, runs)
    ensures multiset(Untag(trace)) == Bag(runs) && |trace| == Lengths(runs)
  {
    ProjectionsCover(trace, |runs|);
    ProjectedIsBag(trace, runs, |runs|);
    assert runs[..|runs|] == runs;
    BagSize(runs);
    assert |multiset(Untag(trace))| == |trace|;
  }

  /** However the runs are merged, nothing is lost, nothing is doubled and nothing is changed. */
  lemma MergedKeepsAll<E(!new)>(mode: Mode, runs: seq<seq<E>>, t: seq<E>)
    requires Merged(mode, runs, t)
    ensures multiset(t) == Bag(runs) && |t| == Lengths(runs)
  {
    BagSize(runs);
    if mode.Concurrent? {
      var tagged :| Interleaved(tagged, runs) && t == Untag(tagged);
      InterleavedKeepsAll(tagged, runs);
    } else {
      ConcatBag(runs);
    }
    assert |multiset(t)| == |t|;
  }

  // ---- Sums over an order -----------------------------------------------

  function SizeAt(sizes: seq<nat>, x: int): nat {
    if 0 <= x < |sizes| then sizes[x] else 0
  }

  function SumAt(sizes: seq<nat>, order: seq<int>): nat {
    if order == [] then 0 else SizeAt(sizes, order[0]) + SumAt(sizes, order[1..])
  }

  lemma SumAtHead(sizes: seq<nat>, x: int, rest: seq<int>)
    ensures SumAt(sizes, [x] + rest) == SizeAt(sizes, x) + SumAt(sizes, rest)
  {
    assert ([x] + rest)[1..] == rest;
  }

  lemma {:induction false} SumAtSplit(sizes: seq<nat>, a: seq<int>, x: int, b: seq<int>)
    ensures SumAt(sizes, a + [x] + b) == SumAt(sizes, a + b) + SizeAt(sizes, x)
    decreases a
  {
    hide SizeAt;
    if a == [] {
      assert a + [x] + b == [x] + b && a + b == b;
      SumAtHead(sizes, x, b);
    } else {
      hide SumAt;
      var y, rest := a[0], a[1..];
      SumAtSplit(sizes, rest, x, b);
      assert a + [x] + b == [y] + (rest + [x] + b);
      SumAtHead(sizes, y, rest + [x] + b);
      assert a + b == [y] + (rest + b);
      SumAtHead(sizes, y, rest + b);
    }
  }

  /** Taking one element out of a sequence takes it out of its multiset. */
  lemma TakeOut<T>(b: seq<T>, k: nat)
    requires k < |b|
    ensures b == b[..k] + [b[k]] + b[k + 1..]
    ensures multiset(b[..k] + b[k + 1..]) == multiset(b) - multiset{b[k]}
  {
    assert b == b[..k] + [b[k]] + b[k + 1..];
    assert multiset(b) == multiset(b[..k]) + multiset{b[k]} + multiset(b[k + 1..]);
  }

  lemma Locate<T>(a: seq<T>, b: seq<T>) returns (k: nat)
    requires multiset(a) == multiset(b) && a != []
    ensures k < |b| && b[k] == a[0]
    ensures multiset(a[1..]) == multiset(b[..k] + b[k + 1..])
  {
    assert a[0] in multiset(b);
    k :| 0 <= k < |b| && b[k] == a[0];
    TakeOut(a, 0);
    TakeOut(b, k);
    assert a[..0] + a[1..] == a[1..];
  }

  /** A sum over indices does not depend on their order. */
  lemma {:induction false} SumAtPermutes(sizes: seq<nat>, a: seq<int>, b: seq<int>)
    requires multiset(a) == multiset(b)
    ensures SumAt(sizes, a) == SumAt(sizes, b)
    decreases |a|
  {
    hide SumAt;
    PermutationLength(a, b);
    if a == [] {
      assert b == a;
    } else {
      var k := Locate(a, b);
      SumAtPermutes(sizes, a[1..], b[..k] + b[k + 1..]);
      assert a == [a[0]] + a[1..];
      SumAtHead(sizes, a[0], a[1..]);
      assert b == b[..k] + [b[k]] + b[k + 1..];
      SumAtSplit(sizes, b[..k], a[0], b[k + 1..]);
    }
  }

  lemma {:induction false} LengthsAreSizes<E>(sizes: seq<nat>, order: seq<int>, runs: seq<seq<E>>)
    requires |runs| == |order|
    requires forall j :: 0 <= j < |runs| ==> 0 <= order[j] < |sizes| && |runs[j]| == sizes[order[j]]
    ensures Lengths(runs) == SumAt(sizes, order)
    decreases |runs|
  {
    if runs != [] {
      LengthsAreSizes(sizes, order[1..], runs[1..]);
    }
  }

  // ---- Conservation -----------------------------------------------------

  lemma InteractionConserves(w: World, inter: Interaction, place: Place, t: seq<Verdict>)
    requires InteractionRun(w, inter, place, t)
    ensures |t| == |inter.tests|
  {
    var order, runs :| InteractionRunBy(w, inter, place, order, runs, t);
    MergedKeepsAll(inter.mode, runs, t);
    OnesLength(runs);
    if inter.mode.Random? {
      PermutationLength(order, Numbers(0, |inter.tests|));
    }
  }

  lemma {:induction false} OnesLength<E>(runs: seq<seq<E>>)
    requires forall j :: 0 <= j < |runs| ==> |runs[j]| == 1
    ensures Lengths(runs) == |runs|
  {
    if runs != [] {
      OnesLength(runs[1..]);
    }
  }

  function Sizes(inters: seq<Interaction>): (r: seq<nat>)
    ensures |r| == |inters|
  {
    seq(|inters|, i requires 0 <= i < |inters| => |inters[i].tests|)
  }

  /** The total that runSuiteWithExecution reports. */
  function TotalTests(inters: seq<Interaction>): nat {
    SumAt(Sizes(inters), Numbers(0, |inters|))
  }

  lemma PassConserves(w: World, mode: Mode, inters: seq<Interaction>, pass: nat, t: seq<Verdict>)
    requires PassRun(w, mode, inters, pass, t) && !mode.Weighted?
    ensures |t| == TotalTests(inters)
  {
    hide InteractionRun;
    var order, runs :| PassRunBy(w, mode, inters, pass, order, runs, t);
    MergedKeepsAll(mode, runs, t);
    forall j | 0 <= j < |runs| ensures |runs[j]| == Sizes(inters)[order[j]] {
      InteractionConserves(w, inters[order[j]], [pass, j], runs[j]);
    }
    LengthsAreSizes(Sizes(inters), order, runs);
    if mode.Random? {
      SumAtPermutes(Sizes(inters), order, Numbers(0, |inters|));
    }
  }

  /** A weighted pass runs the tests of one interaction: the one whose stretch of the weights covers the draw. */
  lemma WeightedPassRunsOne(w: World, inters: seq<Interaction>, pass: nat, t: seq<Verdict>)
    requires w.Valid() && PassRun(w, Weighted, inters, pass, t) && inters != []
    ensures var weights := DispatchWeights(InteractionWeights(inters));
            Sum(weights) > 0 && exists i: nat ::
              i < |inters| && |t| == |inters[i].tests| && InteractionRun(w, inters[i], [pass, 0], t)
              && Covers(weights, i, w.draw([pass], 0, Sum(weights)))
  {
    hide InteractionRun;
    var weights := DispatchWeights(InteractionWeights(inters));
    var order, runs :| PassRunBy(w, Weighted, inters, pass, order, runs, t);
    assert 0 <= order[0] < |inters| && InteractionRun(w, inters[order[0]], [pass, 0], runs[0]);
    InteractionConserves(w, inters[order[0]], [pass, 0], runs[0]);
    assert runs == [runs[0]] && Concat(runs) == runs[0] + Concat<Verdict>([]);
    assert t == runs[0];
    PositiveSum(InteractionWeights(inters));
    var i: nat := order[0] as nat;
    assert Covers(weights, i, w.draw([pass], 0, Sum(weights)));
  }

  /** The weights a dispatcher works with never sum to zero, unless there are no items. */
  lemma PositiveSum(given: seq<int>)
    ensures NonNegative(DispatchWeights(given))
    ensures given != [] ==> Sum(DispatchWeights(given)) > 0
  {
    var weights := DispatchWeights(given);
    if weights != [] {
      SumMonotone(weights, 0, |weights| - 1);
      assert weights[..0] == [];
    }
  }

  /** Of the equally likely draws of a dispatcher exactly as many select an item as its weight says; a weight that is
      not positive counts as 1. */
  lemma DrawsFollowWeights(given: seq<int>, i: nat)
    requires i < |given|
    ensures var weights := DispatchWeights(given);
            && |Draws(weights, i)| == (if given[i] > 0 then given[i] else 1)
            && forall r :: r in Draws(weights, i) <==> Covers(weights, i, r)
  {
    PositiveSum(given);
    SelectionIsExact(DispatchWeights(given), i);
  }

  lemma {:induction false} PassesConserve(w: World, mode: Mode, inters: seq<Interaction>, passes: seq<seq<Verdict>>,
                                          from: nat)
    requires !mode.Weighted? && forall p :: 0 <= p < |passes| ==> PassRun(w, mode, inters, from + p, passes[p])
    ensures |Concat(passes)| == |passes| * TotalTests(inters)
    decreases |passes|
  {
    hide PassRun;
    hide TotalTests;
    if passes != [] {
      assert PassRun(w, mode, inters, from + 0, passes[0]);
      PassConserves(w, mode, inters, from, passes[0]);
      forall p | 0 <= p < |passes[1..]| ensures PassRun(w, mode, inters, from + 1 + p, passes[1..][p]) {
        assert PassRun(w, mode, inters, from + (p + 1), passes[p + 1]);
      }
      PassesConserve(w, mode, inters, passes[1..], from + 1);
      var n, total := |passes| - 1, TotalTests(inters);
      assert (n + 1) * total == n * total + total;
    }
  }

  /** Passed, failed and skipped add up to the passes times the tests, for every inner mode, every order,
      every draw and every interleaving. */
  lemma SuiteConserves(w: World, mode: Mode, inters: seq<Interaction>, passes: seq<seq<Verdict>>, t: seq<Verdict>)
    requires SuiteRun(w, mode, inters, passes, t) && !mode.Weighted?
    ensures Count(t, Passed) + Count(t, Failed) + Count(t, Skipped) == |passes| * TotalTests(inters)
  {
    CountAll(t);
    forall p | 0 <= p < |passes| ensures PassRun(w, mode, inters, 1 + p, passes[p]) {
      assert PassRun(w, mode, inters, p + 1, passes[p]);
    }
    PassesConserve(w, mode, inters, passes, 1);
  }

  // ---- Each verdict under its own heading -------------------------------

  function Marks(tests: seq<Test>, p: Test -> bool): (r: seq<nat>)
    ensures |r| == |tests|
  {
    seq(|tests|, i requires 0 <= i < |tests| => if p(tests[i]) then 1 else 0)
  }

  /** The number of tests of an interaction with a property. */
  function HowManyIn(inter: Interaction, p: Test -> bool): nat {
    SumAt(Marks(inter.tests, p), Numbers(0, |inter.tests|))
  }

  function HowManyEach(inters: seq<Interaction>, p: Test -> bool): (r: seq<nat>)
    ensures |r| == |inters|
  {
    seq(|inters|, i requires 0 <= i < |inters| => HowManyIn(inters[i], p))
  }

  /** The number of tests of a suite with a property. */
  function HowMany(inters: seq<Interaction>, p: Test -> bool): nat {
    SumAt(HowManyEach(inters, p), Numbers(0, |inters|))
  }

  /** No dispatcher of the suite leaves out tests and repeats others. */
  predicate Unweighted(mode: Mode, inters: seq<Interaction>) {
    !mode.Weighted? && forall i :: 0 <= i < |inters| ==> !inters[i].mode.Weighted?
  }

  /** Whether a call of a test records `v` is decided by the test. */
  ghost predicate Decides(w: World, p: Test -> bool, v: Verdict) {
    forall test, place :: Outcome(w, test, place) == v <==> p(test)
  }

  lemma {:induction false} CountIsMultiplicity(t: seq<Verdict>, v: Verdict)
    ensures Count(t, v) == multiset(t)[v]
  {
    if t != [] {
      CountIsMultiplicity(t[..|t| - 1], v);
      assert t == t[..|t| - 1] + [t[|t| - 1]];
    }
  }

  lemma {:induction false} BagIsSum(sizes: seq<nat>, order: seq<int>, runs: seq<seq<Verdict>>, v: Verdict)
    requires |runs| == |order|
    requires forall j :: 0 <= j < |runs| ==> 0 <= order[j] < |sizes| && multiset(runs[j])[v] == sizes[order[j]]
    ensures Bag(runs)[v] == SumAt(sizes, order)
    decreases |runs|
  {
    if runs != [] {
      BagIsSum(sizes, order[1..], runs[1..], v);
    }
  }

  lemma InteractionTallies(w: World, inter: Interaction, place: Place, t: seq<Verdict>, p: Test -> bool, v: Verdict)
    requires InteractionRun(w, inter, place, t) && !inter.mode.Weighted? && Decides(w, p, v)
    ensures multiset(t)[v] == HowManyIn(inter, p)
  {
    hide Merged;
    hide Outcome;
    var order, runs :| InteractionRunBy(w, inter, place, order, runs, t);
    MergedKeepsAll(inter.mode, runs, t);
    var marks := Marks(inter.tests, p);
    forall j | 0 <= j < |runs| ensures multiset(runs[j])[v] == marks[order[j]] {
      var test := inter.tests[order[j]];
      assert Outcome(w, test, place + [j]) == v <==> p(test);
    }
    BagIsSum(marks, order, runs, v);
    if inter.mode.Random? {
      SumAtPermutes(marks, order, Numbers(0, |inter.tests|));
    }
  }

  lemma PassTallies(w: World, mode: Mode, inters: seq<Interaction>, pass: nat, t: seq<Verdict>,
                    p: Test -> bool, v: Verdict)
    requires PassRun(w, mode, inters, pass, t) && Unweighted(mode, inters) && Decides(w, p, v)
    ensures multiset(t)[v] == HowMany(inters, p)
  {
    hide Merged;
    hide InteractionRun;
    hide Decides;
    hide HowManyIn;
    var order, runs :| PassRunBy(w, mode, inters, pass, order, runs, t);
    MergedKeepsAll(mode, runs, t);
    var each := HowManyEach(inters, p);
    forall j | 0 <= j < |runs| ensures multiset(runs[j])[v] == each[order[j]] {
      InteractionTallies(w, inters[order[j]], [pass, j], runs[j], p, v);
    }
    BagIsSum(each, order, runs, v);
    if mode.Random? {
      SumAtPermutes(each, order, Numbers(0, |inters|));
    }
  }

  lemma {:induction false} PassesTally(w: World, mode: Mode, inters: seq<Interaction>, passes: seq<seq<Verdict>>,
                                       from: nat, p: Test -> bool, v: Verdict)
    requires Unweighted(mode, inters) && Decides(w, p, v)
    requires forall k :: 0 <= k < |passes| ==> PassRun(w, mode, inters, from + k, passes[k])
    ensures Bag(passes)[v] == |passes| * HowMany(inters, p)
    decreases |passes|
  {
    hide PassRun;
    hide HowMany;
    hide Decides;
    hide Unweighted;
    if passes != [] {
      assert PassRun(w, mode, inters, from + 0, passes[0]);
      PassTallies(w, mode, inters, from, passes[0], p, v);
      forall k | 0 <= k < |passes[1..]| ensures PassRun(w, mode, inters, from + 1 + k, passes[1..][k]) {
        assert PassRun(w, mode, inters, from + (k + 1), passes[k + 1]);
      }
      PassesTally(w, mode, inters, passes[1..], from + 1, p, v);
      OnePassMore(passes, v, |passes| - 1, HowMany(inters, p));
    }
  }

  lemma OnePassMore(passes: seq<seq<Verdict>>, v: Verdict, n: nat, total: nat)
    requires passes != [] && multiset(passes[0])[v] == total && Bag(passes[1..])[v] == n * total
    ensures Bag(passes)[v] == (n + 1) * total
  {
    assert (n + 1) * total == n * total + total;
  }

  lemma SuiteTally(w: World, mode: Mode, inters: seq<Interaction>, passes: seq<seq<Verdict>>, t: seq<Verdict>,
                   p: Test -> bool, v: Verdict)
    requires SuiteRun(w, mode, inters, passes, t) && Unweighted(mode, inters) && Decides(w, p, v)
    ensures Count(t, v) == |passes| * HowMany(inters, p)
  {
    hide Count;
    hide Decides;
    hide Unweighted;
    forall k | 0 <= k < |passes| ensures PassRun(w, mode, inters, 1 + k, passes[k]) {
      assert PassRun(w, mode, inters, k + 1, passes[k]);
    }
    PassesTally(w, mode, inters, passes, 1, p, v);
    ConcatBag(passes);
    CountIsMultiplicity(t, v);
  }

  /** Without weighted dispatchers every pass skips exactly the tests marked so, whatever the others do. */
  lemma SkipsAreExact(w: World, mode: Mode, inters: seq<Interaction>, passes: seq<seq<Verdict>>, t: seq<Verdict>)
    requires SuiteRun(w, mode, inters, passes, t) && Unweighted(mode, inters)
    ensures Count(t, Skipped) == |passes| * HowMany(inters, (test: Test) => test.skip)
  {
    SuiteTally(w, mode, inters, passes, t, (test: Test) => test.skip, Skipped);
  }

  /** Where the outcome of a test is its own (`good`), the passed and the failed are counted as such. */
  lemma VerdictsAreTheTests(w: World, mode: Mode, inters: seq<Interaction>, passes: seq<seq<Verdict>>, t: seq<Verdict>,
                            good: Test -> bool)
    requires SuiteRun(w, mode, inters, passes, t) && Unweighted(mode, inters)
    requires forall test, place :: w.passes(test, place) <==> good(test)
    ensures Count(t, Passed) == |passes| * HowMany(inters, (test: Test) => !test.skip && good(test))
    ensures Count(t, Failed) == |passes| * HowMany(inters, (test: Test) => !test.skip && !good(test))
  {
    hide SuiteRun;
    hide Unweighted;
    hide Count;
    hide HowMany;
    SuiteTally(w, mode, inters, passes, t, (test: Test) => !test.skip && good(test), Passed);
    SuiteTally(w, mode, inters, passes, t, (test: Test) => !test.skip && !good(test), Failed);
  }

  // ---- Running a suite --------------------------------------------------

  /** NewDispatcher and an uncancelled Dispatch: the indices it calls. The concurrent one launches all of them. */
  method Dispatched(mode: Mode, given: seq<int>, count: nat, w: World, place: Place) returns (calls: seq<int>)
    requires w.Valid() && (mode.Weighted? || count == |given|)
    ensures IsOrder(mode, |given|, count, calls)
    ensures mode.Weighted? ==> PickedBy(given, w, place, calls)
  {
    match mode
    case Random =>
      calls := RandomDispatch(count, m => w.draw(place, 0, m), _ => false);
      ghost var order :| IsOrder(Random, count, count, order) && CalledUntil(order, _ => false, calls);
      UncancelledCallsAll(order, _ => false, calls);
    case Weighted =>
      calls := WeightedDispatch(DispatchWeights(given), count, (i, m) => w.draw(place, i, m), _ => false);
      PositiveSum(given);
    case _ =>
      calls := SequentialDispatch(count, _ => false);
      UncancelledCallsAll(Numbers(0, count), _ => false, calls);
  }

  /** What the calls record, together: in the order of the calls, or as the schedule has it. */
  method Together(mode: Mode, runs: seq<seq<Verdict>>, w: World, place: Place) returns (t: seq<Verdict>)
    requires w.Valid()
    ensures Merged(mode, runs, t)
  {
    if mode.Concurrent? {
      var tagged := w.schedule(place, runs);
      assert Interleaved(tagged, runs);
      t := Untag(tagged);
    } else {
      t := Concat(runs);
    }
  }

  method RunTest(test: Test, w: World, place: Place) returns (v: Verdict)
    ensures v == Outcome(w, test, place)
  {
    if test.skip {
      return Skipped;
    }
    return if w.passes(test, place) then Passed else Failed;
  }

  /** runInteraction: its own dispatcher over its tests. */
  method RunInteraction(inter: Interaction, w: World, place: Place) returns (t: seq<Verdict>)
    requires w.Valid()
    ensures InteractionRun(w, inter, place, t)
  {
    hide Outcome;
    hide PickedBy;
    hide Merged;
    var calls := Dispatched(inter.mode, TestWeights(inter.tests), |inter.tests|, w, place);
    CallsInRange(inter.mode, |inter.tests|, |inter.tests|, calls);
    var runs: seq<seq<Verdict>> := [];
    for j := 0 to |calls|
      invariant |runs| == j
      invariant forall i :: 0 <= i < j ==> runs[i] == [Outcome(w, inter.tests[calls[i]], place + [i])]
    {
      var v := RunTest(inter.tests[calls[j]], w, place + [j]);
      runs := runs + [[v]];
    }
    t := Together(inter.mode, runs, w, place);
    assert InteractionRunBy(w, inter, place, calls, runs, t);
  }

  lemma CallsInRange(mode: Mode, n: nat, count: nat, order: seq<int>)
    requires IsOrder(mode, n, count, order)
    ensures forall i :: 0 <= i < |order| ==> 0 <= order[i] < n
  {
    if mode.Random? {
      forall i | 0 <= i < |order| ensures 0 <= order[i] < n {
        assert order[i] in multiset(order);
        assert order[i] in multiset(Numbers(0, n));
      }
    }
  }

  /** One pass: the outer dispatcher over the interactions, or over one draw of them. */
  method RunPass(mode: Mode, inters: seq<Interaction>, w: World, pass: nat) returns (t: seq<Verdict>)
    requires w.Valid()
    ensures PassRun(w, mode, inters, pass, t)
  {
    hide InteractionRun;
    hide PickedBy;
    hide Merged;
    var count := if mode.Weighted? then 1 else |inters|;
    var calls := Dispatched(mode, InteractionWeights(inters), count, w, [pass]);
    CallsInRange(mode, |inters|, count, calls);
    var runs: seq<seq<Verdict>> := [];
    for j := 0 to |calls|
      invariant |runs| == j
      invariant forall i :: 0 <= i < j ==> InteractionRun(w, inters[calls[i]], [pass, i], runs[i])
    {
      var run := RunInteraction(inters[calls[j]], w, [pass, j]);
      runs := runs + [run];
    }
    t := Together(mode, runs, w, [pass]);
    assert PassRunBy(w, mode, inters, pass, calls, runs, t);
  }

  /** The locked sections of a pass, one record after the other. */
  method RecordAll(sr: SuiteResult, t: seq<Verdict>, ghost before: seq<Verdict>)
    requires sr.Holds(before)
    modifies sr
    ensures sr.Holds(before + t)
  {
    assert before + t[..0] == before;
    for i := 0 to |t|
      invariant sr.Holds(before + t[..i])
    {
      sr.Record(t[i], before + t[..i]);
      assert (before + t[..i]) + [t[i]] == before + t[..i + 1];
    }
    assert t[..|t|] == t;
  }

  /** Tests without interactions are one sequential interaction. */
  function Interactions(suite: Suite): seq<Interaction> {
    if suite.interactions == [] && suite.tests != [] then [Interaction(Sequential, 0, suite.tests)]
    else suite.interactions
  }

  function ExecutionOf(suite: Suite): Execution {
    if suite.execution.Some? then suite.execution.value else Execution(Sequential, 1, 0)
  }

  function Repeats(suite: Suite): nat {
    if ExecutionOf(suite).repeat == 0 then 1 else ExecutionOf(suite).repeat
  }

  lemma ConcatAppend<E>(runs: seq<seq<E>>, r: seq<E>)
    ensures Concat(runs + [r]) == Concat(runs) + r
  {
    if runs == [] {
      assert runs + [r] == [r];
      assert Concat([r]) == r + Concat<E>([]);
    } else {
      ConcatAppend(runs[1..], r);
      assert (runs + [r])[1..] == runs[1..] + [r];
      assert runs[0] + (Concat(runs[1..]) + r) == (runs[0] + Concat(runs[1..])) + r;
    }
  }

  /** runSuiteWithExecution, uncancelled and without a duration. The three counters add up to the repeats times
      the tests unless the outer mode is weighted; in every mode they count what the passes recorded. */
  method RunSuiteWithExecution(suite: Suite, w: World)
    returns (sr: SuiteResult, ghost passes: seq<seq<Verdict>>)
    requires w.Valid()
    ensures fresh(sr) && |passes| == Repeats(suite)
    ensures SuiteRun(w, ExecutionOf(suite).mode, Interactions(suite), passes, Concat(passes))
    ensures sr.passed == Count(Concat(passes), Passed) && sr.failed == Count(Concat(passes), Failed)
    ensures sr.skipped == Count(Concat(passes), Skipped)
    ensures !ExecutionOf(suite).mode.Weighted? ==>
              sr.passed + sr.failed + sr.skipped == Repeats(suite) * TotalTests(Interactions(suite))
  {
    hide PassRun;
    hide TotalTests;
    var exec, inters, repeat := ExecutionOf(suite), Interactions(suite), Repeats(suite);
    sr := new SuiteResult();
    passes := [];
    var numbers := LoopRun(repeat, exec.interval, _ => false, _ => false, 0);
    for i := 0 to |numbers|
      invariant fresh(sr) && |passes| == i && sr.Holds(Concat(passes))
      invariant forall p :: 0 <= p < i ==> PassRun(w, exec.mode, inters, p + 1, passes[p])
    {
      var t := RunPass(exec.mode, inters, w, numbers[i]);
      RecordAll(sr, t, Concat(passes));
      ConcatAppend(passes, t);
      passes := passes + [t];
    }
    sr.Summarise(Concat(passes));
    if !exec.mode.Weighted? {
      SuiteConserves(w, exec.mode, inters, passes, Concat(passes));
    }
  }

  /** runSuiteSimple: every test in order, once. */
  method RunSuiteSimple(tests: seq<Test>, w: World) returns (sr: SuiteResult, ghost t: seq<Verdict>)
    ensures fresh(sr) && sr.passed + sr.failed + sr.skipped == |tests|
    ensures |t| == |tests| && forall i :: 0 <= i < |t| ==> t[i] == Outcome(w, tests[i], [i])
    ensures sr.passed == Count(t, Passed) && sr.failed == Count(t, Failed) && sr.skipped == Count(t, Skipped)
  {
    hide Outcome;
    sr := new SuiteResult();
    t := [];
    for i := 0 to |tests|
      invariant fresh(sr) && |t| == i && sr.Holds(t)
      invariant forall k :: 0 <= k < i ==> t[k] == Outcome(w, tests[k], [k])
    {
      var v := RunTest(tests[i], w, [i]);
      sr.Record(v, t);
      t := t + [v];
    }
    sr.Summarise(t);
  }

  lemma TotalOfOne(inter: Interaction)
    ensures TotalTests([inter]) == |inter.tests| && TotalTests([]) == 0
  {
    assert Numbers(0, 1) == [0] && Numbers(0, 0) == [];
    assert SumAt(Sizes([inter]), [0]) == |inter.tests| + SumAt(Sizes([inter]), []);
  }

  /** runSuite: whichever path it takes, a suite whose outer mode is not weighted reports every test once per
      repeat, as passed, failed or skipped. */
  method RunSuite(suite: Suite, w: World) returns (sr: SuiteResult)
    requires w.Valid()
    ensures fresh(sr)
    ensures var e := suite.execution;
            var times := if e.Some? && e.value.repeat > 0 then e.value.repeat else 1;
            e.None? || !e.value.mode.Weighted? ==>
              sr.passed + sr.failed + sr.skipped ==
              times * if suite.interactions == [] then |suite.tests| else TotalTests(suite.interactions)
  {
    TotalOfOne(Interaction(Sequential, 0, suite.tests));
    if suite.execution.None? && suite.interactions == [] {
      ghost var t;
      sr, t := RunSuiteSimple(suite.tests, w);
    } else {
      ghost var passes;
      sr, passes := RunSuiteWithExecution(suite, w);
    }
  }

  // ---- Engine.Run -------------------------------------------------------

  /** The results slice after the writes of a trace, in the order of the writes. */
  function Written<E>(n: nat, trace: seq<(nat, E)>): (r: seq<Option<E>>)
    ensures |r| == n
  {
    if trace == [] then seq(n, i => None)
    else
      var m := |trace| - 1;
      var r := Written(n, trace[..m]);
      if trace[m].0 < n then r[trace[m].0 := Some(trace[m].1)] else r
  }

  lemma {:induction false} WrittenIsLast<E>(n: nat, trace: seq<(nat, E)>, i: nat)
    requires i < n
    ensures var p := Project(trace, i); Written(n, trace)[i] == if p == [] then None else Some(p[|p| - 1])
    decreases |trace|
  {
    if trace != [] {
      WrittenIsLast(n, trace[..|trace| - 1], i);
    }
  }

  /** Every completed uncancelled run of the pool leaves the results that a sequential map would have produced:
      suite i's result in slot i, for any parallelism. */
  lemma ParallelRunIsSequentialMap<E>(k: Config<E>, results: seq<E>, ss: seq<State<E>>, ts: seq<Step>)
    requires IsRun(k, ss, ts) && k.capacity > 0
    requires |k.work| == |results| && forall i :: 0 <= i < |results| ==> k.work[i] == [results[i]]
    requires var s := ss[|ss| - 1]; Stuck(k, s) && Clean(s)
    ensures var s := ss[|ss| - 1];
            && s.launcher.Returned? && |s.trace| == |results|
            && forall i :: 0 <= i < |results| ==> Written(|results|, s.trace)[i] == Some(results[i])
  {
    UncancelledRunsComplete(k, ss, ts);
    var trace := ss[|ss| - 1].trace;
    forall i: nat | i < |results| ensures Written(|results|, trace)[i] == Some(results[i]) {
      WrittenIsLast(|results|, trace, i);
      assert Project(trace, i) == k.work[i];
    }
    InterleavedKeepsAll(trace, k.work);
    OnesLength(k.work);
  }
}
