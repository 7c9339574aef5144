/** Weighted selection and proportional distribution (core/fleet/weight.go; core/engine/dispatcher.go). */
module Weight {

  function Sum(xs: seq<int>): int {
    if xs == [] then 0 else Sum(xs[..|xs| - 1]) + xs[|xs| - 1]
  }

  ghost predicate NonNegative(xs: seq<int>) {
    forall i :: 0 <= i < |xs| ==> xs[i] >= 0
  }

  lemma SumPrefix(xs: seq<int>, i: nat)
    requires i < |xs|
    ensures Sum(xs[..i + 1]) == Sum(xs[..i]) + xs[i]
  {
    assert xs[..i + 1][..i] == xs[..i];
  }

  lemma {:induction false} SumMonotone(xs: seq<int>, i: nat, j: nat)
    requires NonNegative(xs) && i <= j <= |xs|
    ensures Sum(xs[..i]) <= Sum(xs[..j])
    decreases j - i
  {
    if i < j {
      SumMonotone(xs, i, j - 1);
      SumPrefix(xs, j - 1);
    }
  }

  method Total(weights: seq<int>) returns (total: int)
    ensures total == Sum(weights)
  {
    total := 0;
    for i := 0 to |weights|
      invariant total == Sum(weights[..i])
    {
      SumPrefix(weights, i);
      total := total + weights[i];
    }
    assert weights[..|weights|] == weights;
  }

  // ---- Selection --------------------------------------------------------

  /** The draw falls into the stretch of index `i`. */
  ghost predicate Covers(weights: seq<int>, i: nat, r: int) {
    i < |weights| && Sum(weights[..i]) <= r < Sum(weights[..i + 1])
  }

  lemma CoverUnique(weights: seq<int>, i: nat, j: nat, r: int)
    requires NonNegative(weights) && Covers(weights, i, r) && Covers(weights, j, r)
    ensures i == j
  {
    if i < j {
      SumMonotone(weights, i + 1, j);
    } else if j < i {
      SumMonotone(weights, j + 1, i);
    }
  }

  /** selectByWeight of the engine: `r` is the draw from [0, total). The last-index fallback is unreachable. */
  method SelectByDraw(weights: seq<int>, r: int) returns (index: int)
    requires NonNegative(weights) && 0 <= r < Sum(weights)
    ensures 0 <= index && Covers(weights, index, r)
  {
    assert weights[..|weights|] == weights;
    var cumulative := 0;
    for i := 0 to |weights|
      invariant cumulative == Sum(weights[..i]) <= r
    {
      SumPrefix(weights, i);
      cumulative := cumulative + weights[i];
      if r < cumulative {
        return i;
      }
    }
    return |weights| - 1;
  }

  /** SelectByWeight of the fleet: `draw` is the random source. */
  method SelectByWeight(weights: seq<int>, draw: nat -> nat) returns (index: nat)
    requires NonNegative(weights) && forall n :: n > 0 ==> draw(n) < n
    ensures Sum(weights) > 0 ==> Covers(weights, index, draw(Sum(weights)))
    ensures Sum(weights) == 0 ==> index == 0
  {
    SumMonotone(weights, 0, |weights|);
    assert weights[..|weights|] == weights;
    var total := Total(weights);
    if total == 0 {
      return 0;
    }
    index := SelectByDraw(weights, draw(total));
  }

  function Interval(lo: int, hi: int): set<int>
    decreases hi - lo
  {
    if lo >= hi then {} else Interval(lo, hi - 1) + {hi - 1}
  }

  lemma {:induction false} IntervalSize(lo: int, hi: int)
    requires lo <= hi
    ensures |Interval(lo, hi)| == hi - lo
    ensures forall r :: r in Interval(lo, hi) <==> lo <= r < hi
    decreases hi - lo
  {
    if lo < hi {
      IntervalSize(lo, hi - 1);
    }
  }

  /** The draws that fall into the stretch of index `i`. */
  function Draws(weights: seq<int>, i: nat): set<int>
    requires i < |weights|
  {
    Interval(Sum(weights[..i]), Sum(weights[..i + 1]))
  }

  /** Exactly `weights[i]` of the draws select index `i`, and these are draws below the sum. */
  lemma SelectionIsExact(weights: seq<int>, i: nat)
    requires NonNegative(weights) && i < |weights|
    ensures |Draws(weights, i)| == weights[i]
    ensures forall r :: r in Draws(weights, i) ==> 0 <= r < Sum(weights)
    ensures forall r :: r in Draws(weights, i) <==> Covers(weights, i, r)
  {
    SumPrefix(weights, i);
    IntervalSize(Sum(weights[..i]), Sum(weights[..i + 1]));
    SumMonotone(weights, 0, i);
    SumMonotone(weights, i + 1, |weights|);
    assert weights[..|weights|] == weights;
  }

  // ---- Distribution -----------------------------------------------------

  function Floors(weights: seq<int>, total: int, sum: int): (fs: seq<int>)
    requires sum > 0
    ensures |fs| == |weights|
  {
    seq(|weights|, i requires 0 <= i < |weights| => total * weights[i] / sum)
  }

  /** Bins with a positive weight among the first ones. */
  function Positive(weights: seq<int>): nat {
    if weights == [] then 0
    else Positive(weights[..|weights| - 1]) + (if weights[|weights| - 1] > 0 then 1 else 0)
  }

  lemma PositivePrefix(weights: seq<int>, i: nat)
    requires i < |weights|
    ensures Positive(weights[..i + 1]) == Positive(weights[..i]) + (if weights[i] > 0 then 1 else 0)
  {
    assert weights[..i + 1][..i] == weights[..i];
  }

  /** What remains after the floors, scaled by the weight sum, is less than one per positive bin. */
  lemma {:induction false} RemainderBound(weights: seq<int>, total: int, sum: int, n: nat)
    requires NonNegative(weights) && total >= 0 && sum > 0 && n <= |weights|
    ensures var rest := total * Sum(weights[..n]) - sum * Sum(Floors(weights, total, sum)[..n]);
            0 <= rest && (rest <= (sum - 1) * Positive(weights[..n]))
    decreases n
  {
    var fs := Floors(weights, total, sum);
    if n > 0 {
      RemainderBound(weights, total, sum, n - 1);
      SumPrefix(weights, n - 1);
      SumPrefix(fs, n - 1);
      PositivePrefix(weights, n - 1);
      var w, p := weights[n - 1], Positive(weights[..n - 1]);
      var s, f := Sum(weights[..n - 1]), Sum(fs[..n - 1]);
      RestStep(total, sum, s, f, w, p);
    }
  }

  lemma RestStep(total: int, sum: int, s: int, f: int, w: int, p: nat)
    requires total >= 0 && sum > 0 && w >= 0
    requires 0 <= total * s - sum * f <= (sum - 1) * p
    ensures var q := total * w / sum;
            0 <= total * (s + w) - sum * (f + q) <= (sum - 1) * (p + if w > 0 then 1 else 0)
  {
    var q := total * w / sum;
    MulNonNegative(total, w);
    assert total * (s + w) == total * s + total * w;
    assert sum * (f + q) == sum * f + sum * q;
    assert (sum - 1) * (p + 1) == (sum - 1) * p + (sum - 1);
  }

  lemma MulNonNegative(a: int, b: int)
    requires a >= 0
    ensures b >= 0 ==> a * b >= 0
    ensures b == 0 ==> a * b == 0
    ensures b < 0 ==> a * b <= -a
  {
  }

  /** The remainder is not negative and there is a positive bin for each unit of it, with one to spare. */
  lemma RemainderFits(weights: seq<int>, total: int)
    requires NonNegative(weights) && total >= 0 && Sum(weights) > 0
    ensures var r := total - Sum(Floors(weights, total, Sum(weights)));
            0 <= r && (r > 0 ==> r < Positive(weights))
  {
    hide Positive;
    hide Floors;
    hide Sum;
    var sum, n := Sum(weights), |weights|;
    var fs := Floors(weights, total, sum);
    RemainderBound(weights, total, sum, n);
    assert weights[..n] == weights && fs[..n] == fs;
    Cancel(sum, total - Sum(fs), Positive(weights));
  }

  lemma Cancel(d: int, r: int, p: nat)
    requires d > 0 && 0 <= d * r <= (d - 1) * p
    ensures 0 <= r && (r > 0 ==> r < p)
  {
    MulNonNegative(d, r);
    MulNonNegative(d - 1, r - p);
    assert (d - 1) * (r - p) == d * r - r - (d - 1) * p;
  }

  /** Each share is its floor, plus one for the first `r` bins of positive weight. */
  ghost predicate IsShare(weights: seq<int>, floors: seq<int>, r: int, i: nat, share: int)
    requires i < |weights| == |floors|
  {
    share == floors[i] + (if weights[i] > 0 && Positive(weights[..i]) < r then 1 else 0)
  }

  /** The floor of the exact share or one more, and nothing for weight zero. */
  ghost predicate IsProportional(weights: seq<int>, total: int, i: nat, share: int)
    requires i < |weights| && Sum(weights) > 0
  {
    && total * weights[i] / Sum(weights) <= share <= total * weights[i] / Sum(weights) + 1
    && (weights[i] == 0 ==> share == 0)
  }

  lemma EmptySum(xs: seq<int>)
    ensures Sum(xs[..0]) == 0
  {
  }

  lemma FloorAt(weights: seq<int>, total: int, sum: int, i: nat)
    requires sum > 0 && i < |weights|
    ensures Floors(weights, total, sum)[i] == total * weights[i] / sum
  {
  }

  /** A total of zero is shared by zeros. */
  lemma NothingToShare(weights: seq<int>, shares: seq<int>)
    requires NonNegative(weights) && Sum(weights) > 0
    requires |shares| == |weights| && forall i :: 0 <= i < |shares| ==> shares[i] == 0
    ensures Sum(shares) == 0
    ensures var floors := Floors(weights, 0, Sum(weights));
            forall i: nat :: i < |weights| ==> IsShare(weights, floors, 0 - Sum(floors), i, shares[i])
    ensures forall i :: 0 <= i < |weights| ==> IsProportional(weights, 0, i, shares[i])
  {
    ZeroSum(shares);
    var floors := Floors(weights, 0, Sum(weights));
    forall i | 0 <= i < |floors| ensures floors[i] == 0 == 0 * weights[i] / Sum(weights) {
      ZeroShare(weights[i], Sum(weights));
    }
    ZeroSum(floors);
    hide Floors;
    hide Sum;
    hide Positive;
  }

  lemma ZeroShare(w: int, sum: int)
    requires sum > 0
    ensures 0 * w / sum == 0
  {
    assert 0 * w == 0;
  }

  lemma {:induction false} ZeroSum(xs: seq<int>)
    requires forall i :: 0 <= i < |xs| ==> xs[i] == 0
    ensures Sum(xs) == 0
    decreases xs
  {
    if xs != [] {
      ZeroSum(xs[..|xs| - 1]);
    }
  }

  /** The doc comment promises the remainders to the highest weights; the loop hands them out in bin order. */
  method DistributeByWeight(weights: seq<int>, total: int) returns (result: array<int>)
    requires NonNegative(weights) && total >= 0
    ensures fresh(result) && result.Length == |weights|
    ensures Sum(weights) == 0 ==> forall i :: 0 <= i < |weights| ==> result[i] == 0
    ensures Sum(weights) > 0 ==>
              var floors := Floors(weights, total, Sum(weights));
              forall i: nat :: i < |weights| ==> IsShare(weights, floors, total - Sum(floors), i, result[i])
    ensures Sum(weights) > 0 ==> Sum(result[..]) == total
    ensures Sum(weights) > 0 ==> forall i :: 0 <= i < |weights| ==> IsProportional(weights, total, i, result[i])
    ensures Sum(weights) > 0 ==>
              var floors := Floors(weights, total, Sum(weights));
              HeaviestFirst(weights, floors, result[..]) <==> LeadersAreHeaviest(weights, total - Sum(floors))
  {
    hide HeaviestFirst;
    hide LeadersAreHeaviest;
    hide IsShare;
    hide IsProportional;
    hide Floors;
    hide Sum;
    EmptySum(weights);
    result := new int[|weights|](i => 0);
    SumMonotone(weights, 0, |weights|);
    assert weights[..|weights|] == weights;
    if |weights| == 0 || total == 0 {
      if Sum(weights) > 0 {
        NothingToShare(weights, result[..]);
        var floors := Floors(weights, total, Sum(weights));
        HeaviestFirstIff(weights, floors, result[..], total - Sum(floors));
      }
      return;
    }
    var weightSum := Total(weights);
    if weightSum == 0 {
      return;
    }
    ghost var floors := Floors(weights, total, weightSum);
    EmptySum(floors);
    var given := 0;
    for i := 0 to |weights|
      invariant given == Sum(floors[..i])
      invariant forall j :: 0 <= j < i ==> result[j] == floors[j]
    {
      SumPrefix(floors, i);
      FloorAt(weights, total, weightSum, i);
      result[i] := total * weights[i] / weightSum;
      given := given + result[i];
    }
    assert floors[..|weights|] == floors;
    RemainderFits(weights, total);
    HandOut(weights, floors, result, total - given);
    DistributionIsProportional(weights, total, result[..]);
    HeaviestFirstIff(weights, floors, result[..], total - Sum(floors));
  }

  /** The remainder loop. Its index never wraps around: it ends within the first pass over the bins. */
  method HandOut(weights: seq<int>, ghost floors: seq<int>, result: array<int>, extra: int)
    requires |weights| == |floors| == result.Length > 0
    requires forall j :: 0 <= j < |weights| ==> result[j] == floors[j]
    requires 0 <= extra && (extra > 0 ==> extra < Positive(weights))
    modifies result
    ensures forall i: nat :: i < |weights| ==> IsShare(weights, floors, extra, i, result[i])
  {
    hide Positive;
    PositiveStarts(weights);
    var remainder := extra;
    var i := 0;
    assert weights[..|weights|] == weights;
    PositiveGrows(weights, 0, |weights|);
    while remainder > 0
      invariant 0 <= i <= |weights| && 0 <= remainder <= extra
      invariant remainder > 0 ==> extra - remainder == Positive(weights[..i])
      invariant remainder == 0 ==> Positive(weights[..i]) >= extra
      invariant forall j: nat :: j < i ==> IsShare(weights, floors, extra, j, result[j])
      invariant forall j :: i <= j < |weights| ==> result[j] == floors[j]
      decreases |weights| - i
    {
      PositivePrefix(weights, i);
      SmallMod(i, |weights|);
      var idx := i % |weights|;
      if weights[idx] > 0 {
        result[idx] := result[idx] + 1;
        remainder := remainder - 1;
      }
      i := i + 1;
    }
    forall j: nat | i <= j < |weights| ensures IsShare(weights, floors, extra, j, result[j]) {
      PositiveGrows(weights, i, j);
    }
  }

  lemma PositiveStarts(weights: seq<int>)
    ensures Positive(weights[..0]) == 0
  {
  }

  lemma SmallMod(i: nat, n: nat)
    requires i < n
    ensures i % n == i
  {
  }

  lemma {:induction false} PositiveGrows(weights: seq<int>, i: nat, j: nat)
    requires i <= j <= |weights|
    ensures Positive(weights[..i]) <= Positive(weights[..j])
    decreases j - i
  {
    if i < j {
      PositiveGrows(weights, i, j - 1);
      PositivePrefix(weights, j - 1);
    }
  }

  /** How much more than the floors the first `n` shares hold. */
  lemma {:induction false} SharesPrefix(weights: seq<int>, floors: seq<int>, shares: seq<int>, r: nat, n: nat)
    requires |weights| == |floors| == |shares| && n <= |weights|
    requires forall i: nat :: i < |weights| ==> IsShare(weights, floors, r, i, shares[i])
    ensures Sum(shares[..n]) == Sum(floors[..n]) +
                                (if Positive(weights[..n]) < r then Positive(weights[..n]) else r)
    decreases n
  {
    if n > 0 {
      SharesPrefix(weights, floors, shares, r, n - 1);
      SumPrefix(shares, n - 1);
      SumPrefix(floors, n - 1);
      PositivePrefix(weights, n - 1);
      assert IsShare(weights, floors, r, n - 1, shares[n - 1]);
    }
  }

  /** The shares add up to the total, each is its floor or one more, and a bin of weight zero gets nothing. */
  lemma {:induction false} DistributionIsProportional(weights: seq<int>, total: int, shares: seq<int>)
    requires NonNegative(weights) && total >= 0 && Sum(weights) > 0 && |shares| == |weights|
    requires var floors := Floors(weights, total, Sum(weights));
             forall i: nat :: i < |weights| ==> IsShare(weights, floors, total - Sum(floors), i, shares[i])
    ensures Sum(shares) == total
    ensures forall i :: 0 <= i < |weights| ==> IsProportional(weights, total, i, shares[i])
  {
    var n, floors := |weights|, Floors(weights, total, Sum(weights));
    RemainderFits(weights, total);
    SharesPrefix(weights, floors, shares, total - Sum(floors), n);
    assert weights[..n] == weights && floors[..n] == floors && shares[..n] == shares;
    hide Sum;
    hide Positive;
    hide Floors;
    hide IsShare;
    forall i: nat | i < n ensures IsProportional(weights, total, i, shares[i]) {
      ShareRange(weights, total, Sum(weights), total - Sum(floors), i, shares[i]);
    }
  }

  lemma ShareRange(weights: seq<int>, total: int, sum: int, r: int, i: nat, share: int)
    requires NonNegative(weights) && total >= 0 && sum > 0 && i < |weights|
    requires IsShare(weights, Floors(weights, total, sum), r, i, share)
    ensures total * weights[i] / sum <= share <= total * weights[i] / sum + 1
    ensures weights[i] == 0 ==> share == 0
  {
    hide Positive;
    assert Floors(weights, total, sum)[i] == total * weights[i] / sum;
    MulNonNegative(total, weights[i]);
  }

  // ---- Which bins get the remainder -------------------------------------

  /** Bin `i` is among the first `r` bins of positive weight. */
  ghost predicate Leads(weights: seq<int>, r: int, i: nat)
    requires i < |weights|
  {
    weights[i] > 0 && Positive(weights[..i]) < r
  }

  /** The doc comment's promise: a bin that gets one of the remainder is at least as heavy as one that gets none. */
  ghost predicate HeaviestFirst(weights: seq<int>, floors: seq<int>, shares: seq<int>)
    requires |weights| == |floors| == |shares|
  {
    forall i, j :: 0 <= i < |weights| && 0 <= j < |weights| && weights[i] < weights[j] && weights[j] > 0 ==>
      !(shares[i] > floors[i] && shares[j] == floors[j])
  }

  /** Each of the first `r` positive weights is at least every later positive weight. */
  ghost predicate LeadersAreHeaviest(weights: seq<int>, r: int) {
    forall i, j :: 0 <= i < j < |weights| && weights[i] < weights[j] && weights[j] > 0 ==>
      !(Leads(weights, r, i) && !Leads(weights, r, j))
  }

  lemma LeadersComeFirst(weights: seq<int>, r: int, i: nat, j: nat)
    requires i < |weights| && j < |weights| && weights[j] > 0
    requires Leads(weights, r, i) && !Leads(weights, r, j)
    ensures i < j
  {
    if j <= i {
      PositiveGrows(weights, j, i);
    }
  }

  /** The remainder goes to the heaviest bins exactly when the first positive weights are the heaviest. */
  lemma HeaviestFirstIff(weights: seq<int>, floors: seq<int>, shares: seq<int>, r: int)
    requires |weights| == |floors| == |shares|
    requires forall i: nat :: i < |weights| ==> IsShare(weights, floors, r, i, shares[i])
    ensures HeaviestFirst(weights, floors, shares) <==> LeadersAreHeaviest(weights, r)
  {
    forall i: nat | i < |weights| ensures shares[i] == floors[i] + if Leads(weights, r, i) then 1 else 0 {
      assert IsShare(weights, floors, r, i, shares[i]);
    }
    hide Positive;
    forall i: nat, j: nat |
      && i < |weights| && j < |weights| && weights[j] > 0
      && Leads(weights, r, i) && !Leads(weights, r, j)
      ensures i < j
    {
      LeadersComeFirst(weights, r, i, j);
    }
    hide Leads;
    hide IsShare;
  }

  /** Sharing 2 by the weights 1 and 2 gives the lighter bin the remainder. */
  lemma LighterBinIsFavoured(shares: seq<int>)
    requires |shares| == 2
    requires forall i: nat :: i < 2 ==> IsShare([1, 2], Floors([1, 2], 2, 3), 1, i, shares[i])
    ensures Sum([1, 2]) == 3 && 2 - Sum(Floors([1, 2], 2, 3)) == 1
    ensures shares == [1, 1] && !HeaviestFirst([1, 2], Floors([1, 2], 2, 3), shares)
  {
    var weights := [1, 2];
    assert weights[..1] == [1] && weights[..0] == [];
    assert Sum(weights) == 3 by {
      assert Sum([1]) == 1;
    }
    var floors := Floors(weights, 2, 3);
    assert floors == [0, 1];
    assert floors[..1] == [0] && floors[..0] == [];
    assert Sum(floors) == 1 by {
      assert Sum([0]) == 0;
    }
    assert Positive(weights[..0]) == 0 && Positive(weights[..1]) == 1;
    assert IsShare(weights, floors, 1, 0, shares[0]) && IsShare(weights, floors, 1, 1, shares[1]);
  }
}
