/**
 The weighted random selector (internal/strategy/weighted_random.go): a draw below
 the total weight of the eligible upstreams is walked down their weights. The draw
 is a parameter, so "proportional" is a counting theorem over all draws.
 */
module WeightedRandom {
  import opened Counting
  import opened Selection
  import Int64

  /** `eligible` of internal/strategy/base.go. */
  function Candidates(pool: seq<Snapshot>, maxPer: int): seq<Snapshot> {
    if pool == [] then []
    else
      var before, u := Candidates(pool[..|pool| - 1], maxPer), pool[|pool| - 1];
      if Eligible(u, maxPer) then before + [u] else before
  }

  /** The candidates are the eligible upstreams. */
  lemma {:induction false} CandidatesAreEligible(pool: seq<Snapshot>, maxPer: int, u: Snapshot)
    ensures u in Candidates(pool, maxPer) <==> u in pool && u.healthy && u.active < maxPer
  {
    if pool != [] {
      var n := |pool| - 1;
      assert pool == pool[..n] + [pool[n]];
      CandidatesAreEligible(pool[..n], maxPer, u);
    }
  }

  /** They keep the order of the pool. */
  lemma {:induction false} CandidatesInOrder(pool: seq<Snapshot>, maxPer: int, i: nat, j: nat) returns (p: nat, q: nat)
    requires i < j < |Candidates(pool, maxPer)|
    ensures p < q < |pool| && pool[p] == Candidates(pool, maxPer)[i] && pool[q] == Candidates(pool, maxPer)[j]
  {
    var n := |pool| - 1;
    var before := Candidates(pool[..n], maxPer);
    if j < |before| {
      p, q := CandidatesInOrder(pool[..n], maxPer, i, j);
    } else {
      CandidatesAreEligible(pool[..n], maxPer, before[i]);
      p :| 0 <= p < n && pool[..n][p] == before[i];
      q := n;
    }
  }

  /** The total weight of the first `k` candidates. */
  function Prefix(cands: seq<Snapshot>, k: nat): (w: nat)
    requires k <= |cands|
    ensures w >= k
  {
    if k == 0 then 0 else Prefix(cands, k - 1) + WeightOf(cands[k - 1])
  }

  function Total(cands: seq<Snapshot>): nat {
    Prefix(cands, |cands|)
  }

  lemma {:induction false} PrefixIncreases(cands: seq<Snapshot>, i: nat, j: nat)
    requires i < j <= |cands|
    ensures Prefix(cands, i) < Prefix(cands, j)
    decreases j
  {
    if i < j - 1 {
      PrefixIncreases(cands, i, j - 1);
    }
  }

  method EligibleOf(pool: seq<Snapshot>, maxPer: int) returns (out: seq<Snapshot>)
    ensures out == Candidates(pool, maxPer)
    ensures forall u :: u in out <==> u in pool && u.healthy && u.active < maxPer
  {
    out := [];
    for i := 0 to |pool|
      invariant out == Candidates(pool[..i], maxPer)
    {
      assert pool[..i + 1][..i] == pool[..i];
      if pool[i].healthy && pool[i].active < maxPer {
        out := out + [pool[i]];
      }
    }
    assert pool[..|pool|] == pool;
    forall u ensures u in out <==> u in pool && u.healthy && u.active < maxPer {
      CandidatesAreEligible(pool, maxPer, u);
    }
  }

  /** The draw `r` falls on candidate `k`. */
  ghost predicate FallsOn(cands: seq<Snapshot>, r: int, k: nat) {
    k < |cands| && Prefix(cands, k) <= r < Prefix(cands, k + 1)
  }

  /** The total as the code computes it, in 64 bits. */
  function WrappedTotal(cands: seq<Snapshot>): int {
    Int64.Wrap(Total(cands))
  }

  /** Weights are machine integers. */
  ghost predicate Machine(pool: seq<Snapshot>) {
    forall i :: 0 <= i < |pool| ==> Int64.InRange(pool[i].weight)
  }

  /** The draws that `Pick` can be answered with: below the total, or any candidate when that is not positive. */
  function DrawCount(cands: seq<Snapshot>): (n: int) {
    if WrappedTotal(cands) > 0 then WrappedTotal(cands) else |cands|
  }

  /** Candidate `k` is the one that the answer `draw` selects. */
  ghost predicate Selects(cands: seq<Snapshot>, draw: int, k: nat) {
    if WrappedTotal(cands) > 0 then FallsOn(cands, draw, k) else k < |cands| && draw == k
  }

  lemma NoPick(pool: seq<Snapshot>, maxPer: int)
    requires Candidates(pool, maxPer) == []
    ensures IsHealthyPick(pool, maxPer, "")
  {
    forall k | 0 <= k < |pool| ensures !(pool[k].healthy && pool[k].active < maxPer) {
      CandidatesAreEligible(pool, maxPer, pool[k]);
    }
  }

  lemma PickFrom(pool: seq<Snapshot>, maxPer: int, u: Snapshot)
    requires u in pool && u.healthy && u.active < maxPer
    ensures ValidPool(pool) ==> IsHealthyPick(pool, maxPer, u.id)
  {
    var k :| 0 <= k < |pool| && pool[k] == u;
  }

  /**
   `Pick` with `draw` as the answer of `Int64N(total)`, or of `IntN(len(cands))` when
   the total has wrapped around to a value that is not positive. The walk returns
   inside the list, so the fallback to the last candidate is never reached.
   */
  method Pick(pool: seq<Snapshot>, maxPer: int, draw: nat) returns (id: string, ghost k: nat)
    requires Candidates(pool, maxPer) != [] ==> draw < DrawCount(Candidates(pool, maxPer))
    ensures Candidates(pool, maxPer) == [] ==> id == ""
    ensures Candidates(pool, maxPer) != [] ==>
              Selects(Candidates(pool, maxPer), draw, k) && id == Candidates(pool, maxPer)[k].id
    ensures Candidates(pool, maxPer) != [] && WrappedTotal(Candidates(pool, maxPer)) <= 0 ==> k == draw
    ensures ValidPool(pool) ==> IsHealthyPick(pool, maxPer, id)
  {
    var cands := EligibleOf(pool, maxPer);
    k := 0;
    if |cands| == 0 {
      NoPick(pool, maxPer);
      return "", 0;
    }
    forall i | 0 <= i < |cands| ensures ValidPool(pool) ==> IsHealthyPick(pool, maxPer, cands[i].id) {
      assert cands[i] in cands;
      PickFrom(pool, maxPer, cands[i]);
    }
    var total := 0;
    Int64.WrapExact(0);
    for i := 0 to |cands|
      invariant total == Int64.Wrap(Prefix(cands, i))
    {
      Int64.WrapAdd(Prefix(cands, i), WeightOf(cands[i]));
      total := Int64.Wrap(total + WeightOf(cands[i]));
    }
    if total <= 0 {
      return cands[draw].id, draw;
    }

    var r := draw;
    Int64.WrapBelow(Total(cands));
    for i := 0 to |cands|
      invariant r == draw - Prefix(cands, i) && r >= 0
    {
      var w := WeightOf(cands[i]);
      if r < w {
        return cands[i].id, i;
      }
      r := r - w;
    }
    assert false;  // the fallback to the last candidate
  }

  /** A draw falls on one candidate only. */
  lemma FallsOnOne(cands: seq<Snapshot>, r: int, j: nat, k: nat)
    requires FallsOn(cands, r, j) && FallsOn(cands, r, k)
    ensures j == k
  {
    if j < k {
      if j + 1 < k {
        PrefixIncreases(cands, j + 1, k);
      }
    } else if k < j {
      if k + 1 < j {
        PrefixIncreases(cands, k + 1, j);
      }
    }
  }

  /** The answers that select candidate `k`. */
  ghost function Draws(cands: seq<Snapshot>, k: nat): set<nat> {
    set r: nat | r < DrawCount(cands) && Selects(cands, r, k)
  }

  function Min(a: int, b: int): int {
    if a < b then a else b
  }

  function Max(a: int, b: int): int {
    if a > b then a else b
  }

  lemma SameSet(a: set<nat>, b: set<nat>)
    requires forall r: nat :: r in a <==> r in b
    ensures a == b
  {
  }

  /** How many answers select candidate `k`, wrapped or not: its stretch, as far as the total reaches. */
  lemma DrawsCounted(cands: seq<Snapshot>, k: nat)
    requires k < |cands|
    ensures |Draws(cands, k)| ==
            if WrappedTotal(cands) > 0
            then Max(0, Min(Prefix(cands, k + 1), WrappedTotal(cands)) - Prefix(cands, k))
            else 1
  {
    if WrappedTotal(cands) > 0 {
      var lo := Prefix(cands, k);
      var hi := Max(lo, Min(Prefix(cands, k + 1), WrappedTotal(cands)));
      forall r: nat ensures r in Draws(cands, k) <==> r in Range(lo, hi) {
        assert Selects(cands, r, k) <==> lo <= r < Prefix(cands, k + 1);
      }
      SameSet(Draws(cands, k), Range(lo, hi));
    } else {
      forall r: nat ensures r in Draws(cands, k) <==> r in Range(k, k + 1) {
        assert Selects(cands, r, k) <==> r == k;
      }
      SameSet(Draws(cands, k), Range(k, k + 1));
    }
  }

  /** The weights add up to less than 2^63. */
  predicate SumFits(cands: seq<Snapshot>) {
    Total(cands) < Int64.HALF
  }

  /** While the weights fit, exactly the candidate's weight of the `Total` answers select it. */
  lemma ExactlyProportional(cands: seq<Snapshot>, k: nat)
    requires k < |cands| && SumFits(cands)
    ensures DrawCount(cands) == Total(cands)
    ensures |Draws(cands, k)| == if cands[k].weight > 0 then cands[k].weight else 1
  {
    Int64.WrapExact(Total(cands));
    if k + 1 < |cands| {
      PrefixIncreases(cands, k + 1, |cands|);
    }
    DrawsCounted(cands, k);
  }

  /** Every candidate's share of the answers is its share of the weight. */
  ghost predicate Proportional(cands: seq<Snapshot>) {
    forall k: nat :: k < |cands| ==> ShareIsRight(cands, k)
  }

  ghost predicate ShareIsRight(cands: seq<Snapshot>, k: nat)
    requires k < |cands|
  {
    |Draws(cands, k)| * Total(cands) == WeightOf(cands[k]) * DrawCount(cands)
  }

  ghost predicate AllEqual(cands: seq<Snapshot>) {
    forall i, j :: 0 <= i < j < |cands| ==> WeightOf(cands[i]) == WeightOf(cands[j])
  }

  lemma {:induction false} EqualTotal(cands: seq<Snapshot>, k: nat, w: int)
    requires k <= |cands| && forall i :: 0 <= i < k ==> WeightOf(cands[i]) == w
    ensures Prefix(cands, k) == w * k
  {
    if k > 0 {
      EqualTotal(cands, k - 1, w);
    }
  }

  /** In the uniform branch the shares are right for equal weights only. */
  lemma UniformIff(cands: seq<Snapshot>)
    requires cands != [] && WrappedTotal(cands) <= 0
    ensures Proportional(cands) <==> AllEqual(cands)
  {
    forall k: nat | k < |cands| ensures |Draws(cands, k)| == 1 {
      DrawsCounted(cands, k);
    }
    if AllEqual(cands) {
      var w := WeightOf(cands[0]);
      assert forall i :: 0 <= i < |cands| ==> WeightOf(cands[i]) == w;
      EqualTotal(cands, |cands|, w);
      assert forall k: nat :: k < |cands| ==> ShareIsRight(cands, k);
    }
    if Proportional(cands) {
      forall i, j | 0 <= i < j < |cands| ensures WeightOf(cands[i]) == WeightOf(cands[j]) {
        assert ShareIsRight(cands, i) && ShareIsRight(cands, j);
        SameFactor(WeightOf(cands[i]), WeightOf(cands[j]), |cands|);
      }
    }
  }

  lemma SameFactor(a: int, b: int, n: int)
    requires n > 0 && a * n == b * n
    ensures a == b
  {
  }

  lemma LessTimes(a: int, b: int, w: int)
    requires a < b && w > 0
    ensures w * a < w * b && a * w < b * w
  {
  }

  /** When the total wraps to a positive value, the first candidate's share is wrong. */
  lemma WrappedPositive(cands: seq<Snapshot>)
    requires cands != [] && !SumFits(cands) && WrappedTotal(cands) > 0 && Int64.InRange(cands[0].weight)
    ensures !ShareIsRight(cands, 0)
  {
    var w, total, wrapped := WeightOf(cands[0]), Total(cands), WrappedTotal(cands);
    Int64.WrapBelow(total);
    DrawsCounted(cands, 0);
    assert Prefix(cands, 1) == Prefix(cands, 0) + w;
    if w <= wrapped {
      LessTimes(wrapped, total, w);
    } else {
      LessTimes(w, total, wrapped);
    }
  }

  /**
   The law holds if and only if the weights add up to less than 2^63, or the total has
   wrapped around to a value that is not positive and all weights are equal.
   */
  lemma ProportionalIff(cands: seq<Snapshot>)
    requires cands != [] && Machine(cands)
    ensures Proportional(cands) <==> SumFits(cands) || (WrappedTotal(cands) <= 0 && AllEqual(cands))
  {
    if SumFits(cands) {
      forall k: nat | k < |cands| ensures ShareIsRight(cands, k) {
        ExactlyProportional(cands, k);
      }
    } else if WrappedTotal(cands) <= 0 {
      UniformIff(cands);
    } else {
      WrappedPositive(cands);
    }
  }

  /** Weights that validation accepts and that break the law: 2^63 - 1 and 1 are drawn equally often. */
  lemma HugeWeights() returns (cands: seq<Snapshot>)
    ensures Machine(cands) && forall i :: 0 <= i < |cands| ==> cands[i].weight > 0
    ensures WrappedTotal(cands) <= 0 && !Proportional(cands)
  {
    cands := [Snapshot("a", Int64.HALF - 1, 0, true), Snapshot("b", 1, 0, true)];
    assert Prefix(cands, 1) == Int64.HALF - 1 && Total(cands) == Prefix(cands, 1) + 1;
    assert WeightOf(cands[0]) != WeightOf(cands[1]);
    ProportionalIff(cands);
  }
}
