/**
 The least-active selector (internal/strategy/least_active.go): one scan for the
 fewest active sessions, ties broken by reservoir sampling. The random draws are a
 parameter, so "uniform" is a counting theorem over all draw vectors.
 */
module LeastActive {
  import opened Counting
  import opened Selection

  /** What the scan knows that no draw influences; `bounds` are the arguments of its `IntN` calls. */
  datatype Shape = Shape(found: bool, best: int, ties: nat, bounds: seq<nat>)

  predicate Wins(sh: Shape, u: Snapshot) {
    !sh.found || u.active < sh.best
  }

  predicate Ties(sh: Shape, u: Snapshot) {
    sh.found && u.active == sh.best
  }

  function ShapeOf(pool: seq<Snapshot>, maxPer: int): Shape {
    if pool == [] then Shape(false, -1, 0, [])
    else
      var sh, u := ShapeOf(pool[..|pool| - 1], maxPer), pool[|pool| - 1];
      if !Eligible(u, maxPer) then sh
      else if Wins(sh, u) then Shape(true, u.active, 1, sh.bounds)
      else if Ties(sh, u) then sh.(ties := sh.ties + 1, bounds := sh.bounds + [sh.ties + 1])
      else sh
  }

  function Bounds(pool: seq<Snapshot>, maxPer: int): seq<nat> {
    ShapeOf(pool, maxPer).bounds
  }

  /** The ID the scan returns with the given draws. */
  function Winner(pool: seq<Snapshot>, maxPer: int, draws: seq<nat>): string
    requires |draws| == |Bounds(pool, maxPer)|
  {
    if pool == [] then ""
    else
      var init, u := pool[..|pool| - 1], pool[|pool| - 1];
      var sh := ShapeOf(init, maxPer);
      var w := Winner(init, maxPer, draws[..|sh.bounds|]);
      if !Eligible(u, maxPer) then w
      else if Wins(sh, u) then u.id
      else if Ties(sh, u) && draws[|sh.bounds|] == 0 then u.id
      else w
  }

  method Pick(pool: seq<Snapshot>, maxPer: int, draws: seq<nat>) returns (id: string)
    requires forall i :: 0 <= i < |pool| ==> pool[i].id != ""
    requires Answers(draws, Bounds(pool, maxPer))
    ensures id == Winner(pool, maxPer, draws)
    ensures IsHealthyPick(pool, maxPer, id) && (id != "" ==> IsMinimum(pool, maxPer, id))
  {
    var bestID := "";
    var bestActive := -1;
    var tieCount := 0;
    var used := 0;
    assert pool[..|pool|] == pool;
    for i := 0 to |pool|
      invariant var sh := ShapeOf(pool[..i], maxPer);
                && used == |sh.bounds| <= |draws|
                && bestID == Winner(pool[..i], maxPer, draws[..used])
                && (bestID != "" <==> sh.found) && bestActive == sh.best && tieCount == sh.ties
    {
      var u := pool[i];
      assert pool[..i + 1][..i] == pool[..i];
      assert draws[..used][..used] == draws[..used];
      BoundsGrow(pool, maxPer, i + 1);
      if !u.healthy || u.active >= maxPer {
        continue;
      }
      if bestID == "" || u.active < bestActive {
        bestID := u.id;
        bestActive := u.active;
        tieCount := 1;
      } else if u.active == bestActive {
        tieCount := tieCount + 1;
        used := used + 1;
        assert draws[..used][..used - 1] == draws[..used - 1];
        if draws[used - 1] == 0 {
          bestID := u.id;
        }
      }
    }
    assert draws[..used] == draws;
    WinnerIsMinimum(pool, maxPer, draws);
    AtBestIsMinimum(pool, maxPer, bestID);
    BestIsLeast(pool, maxPer);
    return bestID;
  }

  lemma {:induction false} BoundsGrow(pool: seq<Snapshot>, maxPer: int, i: nat)
    requires i <= |pool|
    ensures Bounds(pool[..i], maxPer) <= Bounds(pool, maxPer)
    decreases |pool| - i
  {
    if i < |pool| {
      BoundsGrow(pool, maxPer, i + 1);
      assert pool[..i + 1][..i] == pool[..i];
    } else {
      assert pool[..i] == pool;
    }
  }

  // --- The winner is a minimum ------------------------------------------------

  /** `id` is an eligible upstream with the fewest active sessions. */
  ghost predicate IsMinimum(pool: seq<Snapshot>, maxPer: int, id: string) {
    exists k ::
      && 0 <= k < |pool| && pool[k].id == id && pool[k].healthy && pool[k].active < maxPer
      && forall i :: 0 <= i < |pool| && pool[i].healthy && pool[i].active < maxPer ==> pool[k].active <= pool[i].active
  }

  /** `best` is the least active count of an eligible upstream. */
  lemma {:induction false} BestIsLeast(pool: seq<Snapshot>, maxPer: int)
    ensures var sh := ShapeOf(pool, maxPer);
            && (forall i :: 0 <= i < |pool| && Eligible(pool[i], maxPer) ==> sh.found && sh.best <= pool[i].active)
            && (sh.found ==> exists k :: 0 <= k < |pool| && Eligible(pool[k], maxPer) && pool[k].active == sh.best)
            && (sh.found <==> sh.ties > 0)
  {
    if pool != [] {
      var n := |pool| - 1;
      var sh := ShapeOf(pool[..n], maxPer);
      BestIsLeast(pool[..n], maxPer);
      assert forall i :: 0 <= i < n ==> pool[i] == pool[..n][i];
      if sh.found {
        var k :| 0 <= k < n && Eligible(pool[..n][k], maxPer) && pool[..n][k].active == sh.best;
        assert Eligible(pool[k], maxPer) && pool[k].active == sh.best;
      }
    }
  }

  /** The positions of the minima. */
  ghost function Minima(pool: seq<Snapshot>, maxPer: int): set<int> {
    set k | 0 <= k < |pool| && Eligible(pool[k], maxPer) && pool[k].active == ShapeOf(pool, maxPer).best
  }

  /** `ties` is the number of minima. */
  lemma {:induction false} TiesCountMinima(pool: seq<Snapshot>, maxPer: int)
    ensures |Minima(pool, maxPer)| == ShapeOf(pool, maxPer).ties
  {
    if pool != [] {
      var n := |pool| - 1;
      var sh, u := ShapeOf(pool[..n], maxPer), pool[n];
      TiesCountMinima(pool[..n], maxPer);
      BestIsLeast(pool[..n], maxPer);
      assert forall i :: 0 <= i < n ==> pool[i] == pool[..n][i];
      if Eligible(u, maxPer) && Wins(sh, u) {
        assert Minima(pool, maxPer) == {n};
      } else if Eligible(u, maxPer) && Ties(sh, u) {
        assert Minima(pool, maxPer) == Minima(pool[..n], maxPer) + {n};
      } else {
        assert Minima(pool, maxPer) == Minima(pool[..n], maxPer);
      }
    }
  }

  /** A position that holds `id`, eligible and with `best` active sessions. */
  ghost predicate AtBest(pool: seq<Snapshot>, maxPer: int, id: string) {
    exists k :: 0 <= k < |pool| && pool[k].id == id && Eligible(pool[k], maxPer) && pool[k].active == ShapeOf(pool, maxPer).best
  }

  lemma AtBestIsMinimum(pool: seq<Snapshot>, maxPer: int, id: string)
    ensures AtBest(pool, maxPer, id) <==> IsMinimum(pool, maxPer, id)
  {
    BestIsLeast(pool, maxPer);
    if IsMinimum(pool, maxPer, id) {
      var k :| 0 <= k < |pool| && pool[k].id == id && pool[k].healthy && pool[k].active < maxPer
        && forall i :: 0 <= i < |pool| && pool[i].healthy && pool[i].active < maxPer ==> pool[k].active <= pool[i].active;
      assert pool[k].active == ShapeOf(pool, maxPer).best;
    }
  }

  /** How `AtBest` changes when one more upstream is scanned. */
  lemma AtBestStep(pool: seq<Snapshot>, maxPer: int, id: string)
    requires pool != []
    ensures var init, u := pool[..|pool| - 1], pool[|pool| - 1];
            var sh := ShapeOf(init, maxPer);
            AtBest(pool, maxPer, id) <==>
              if !Eligible(u, maxPer) then AtBest(init, maxPer, id)
              else if Wins(sh, u) then id == u.id
              else if Ties(sh, u) then id == u.id || AtBest(init, maxPer, id)
              else AtBest(init, maxPer, id)
  {
    var n := |pool| - 1;
    var init, u := pool[..n], pool[n];
    BestIsLeast(init, maxPer);
    assert forall i :: 0 <= i < n ==> pool[i] == init[i];
    if AtBest(init, maxPer, id) {
      var k :| 0 <= k < n && init[k].id == id && Eligible(init[k], maxPer) && init[k].active == ShapeOf(init, maxPer).best;
      assert pool[k].id == id;
    }
    if Eligible(u, maxPer) && id == u.id {
      assert pool[n].id == id;
    }
  }

  /** Whatever is drawn, the pick is a minimum; it is empty only when nothing is eligible. */
  lemma {:induction false} WinnerIsMinimum(pool: seq<Snapshot>, maxPer: int, draws: seq<nat>)
    requires |draws| == |Bounds(pool, maxPer)|
    ensures if ShapeOf(pool, maxPer).found then AtBest(pool, maxPer, Winner(pool, maxPer, draws))
            else Winner(pool, maxPer, draws) == ""
  {
    if pool != [] {
      var init := pool[..|pool| - 1];
      WinnerIsMinimum(init, maxPer, draws[..|Bounds(init, maxPer)|]);
      AtBestStep(pool, maxPer, Winner(pool, maxPer, draws));
    }
  }

  // --- Ties are broken uniformly ----------------------------------------------

  /** The draw vectors that make the scan return `id`. */
  ghost function Hits(pool: seq<Snapshot>, maxPer: int, id: string): set<seq<nat>> {
    set v | v in Vectors(Bounds(pool, maxPer)) && |v| == |Bounds(pool, maxPer)| && Winner(pool, maxPer, v) == id
  }

  lemma InHits(pool: seq<Snapshot>, maxPer: int, id: string, v: seq<nat>)
    ensures v in Hits(pool, maxPer, id) <==>
            Answers(v, Bounds(pool, maxPer)) && Winner(pool, maxPer, v) == id
  {
    InVectors(Bounds(pool, maxPer), v);
  }

  /** An upstream that makes no draw leaves the winner as it was, or wins outright. */
  lemma HitsWithoutDraw(pool: seq<Snapshot>, maxPer: int, id: string)
    requires pool != [] && Bounds(pool, maxPer) == Bounds(pool[..|pool| - 1], maxPer)
    ensures var init, u := pool[..|pool| - 1], pool[|pool| - 1];
            Hits(pool, maxPer, id) ==
              if Eligible(u, maxPer) && Wins(ShapeOf(init, maxPer), u)
              then (if id == u.id then Vectors(Bounds(pool, maxPer)) else {})
              else Hits(init, maxPer, id)
  {
    var init, u := pool[..|pool| - 1], pool[|pool| - 1];
    forall v | v in Vectors(Bounds(pool, maxPer)) ensures |v| == |Bounds(pool, maxPer)| && v[..|v|] == v {
      InVectors(Bounds(pool, maxPer), v);
    }
  }

  lemma WinnerWithDraw(pool: seq<Snapshot>, maxPer: int, x: seq<nat>)
    requires ValidPool(pool) && pool != [] && x != []
    requires Eligible(pool[|pool| - 1], maxPer) && Ties(ShapeOf(pool[..|pool| - 1], maxPer), pool[|pool| - 1])
    requires |x| == |Bounds(pool, maxPer)|
    ensures var init, u, v := pool[..|pool| - 1], pool[|pool| - 1], x[..|x| - 1];
            && |v| == |Bounds(init, maxPer)|
            && Winner(pool, maxPer, x) == (if x[|x| - 1] == 0 then u.id else Winner(init, maxPer, v))
            && Winner(init, maxPer, v) != u.id
  {
    WinnerIsMinimum(pool[..|pool| - 1], maxPer, x[..|x| - 1]);
  }

  /** One of `hits` with one more answer, which is not 0. */
  ghost predicate NonZeroOf(x: seq<nat>, hits: set<seq<nat>>, ties: nat) {
    x != [] && 1 <= x[|x| - 1] <= ties && x[..|x| - 1] in hits
  }

  /** Which vectors select `id` after an upstream that ties. */
  lemma HitsMean(pool: seq<Snapshot>, maxPer: int, id: string, x: seq<nat>)
    requires ValidPool(pool) && pool != []
    requires Eligible(pool[|pool| - 1], maxPer) && Ties(ShapeOf(pool[..|pool| - 1], maxPer), pool[|pool| - 1])
    ensures var init, u := pool[..|pool| - 1], pool[|pool| - 1];
            var sh := ShapeOf(init, maxPer);
            x in Hits(pool, maxPer, id) <==>
              if id == u.id then x != [] && x[..|x| - 1] in Vectors(sh.bounds) && x[|x| - 1] == 0
              else NonZeroOf(x, Hits(init, maxPer, id), sh.ties)
  {
    var init := pool[..|pool| - 1];
    var sh := ShapeOf(init, maxPer);
    InHits(pool, maxPer, id, x);
    AnswersAppend(x, sh.bounds, sh.ties + 1);
    if x != [] {
      InVectors(sh.bounds, x[..|x| - 1]);
      InHits(init, maxPer, id, x[..|x| - 1]);
      if Answers(x, Bounds(pool, maxPer)) {
        WinnerWithDraw(pool, maxPer, x);
      }
    }
  }

  /** An upstream that ties takes over the vectors that draw 0. */
  lemma HitsOfTying(pool: seq<Snapshot>, maxPer: int)
    requires ValidPool(pool) && pool != []
    requires Eligible(pool[|pool| - 1], maxPer) && Ties(ShapeOf(pool[..|pool| - 1], maxPer), pool[|pool| - 1])
    ensures Hits(pool, maxPer, pool[|pool| - 1].id) == Extend(Vectors(Bounds(pool[..|pool| - 1], maxPer)), Range(0, 1))
  {
    var sh := ShapeOf(pool[..|pool| - 1], maxPer);
    forall x
      ensures x in Hits(pool, maxPer, pool[|pool| - 1].id) <==> x in Extend(Vectors(sh.bounds), Range(0, 1))
    {
      HitsMean(pool, maxPer, pool[|pool| - 1].id, x);
      InExtend(Vectors(sh.bounds), Range(0, 1), x);
    }
  }

  /** It leaves the other vectors to the winner so far. */
  lemma HitsOfOthers(pool: seq<Snapshot>, maxPer: int, id: string)
    requires ValidPool(pool) && pool != [] && id != pool[|pool| - 1].id
    requires Eligible(pool[|pool| - 1], maxPer) && Ties(ShapeOf(pool[..|pool| - 1], maxPer), pool[|pool| - 1])
    ensures var init := pool[..|pool| - 1];
            Hits(pool, maxPer, id) == Extend(Hits(init, maxPer, id), Range(1, ShapeOf(init, maxPer).ties + 1))
  {
    var init := pool[..|pool| - 1];
    var sh := ShapeOf(init, maxPer);
    var other := Extend(Hits(init, maxPer, id), Range(1, sh.ties + 1));
    forall x ensures x in Hits(pool, maxPer, id) <==> x in other {
      HitsOfOther(pool, maxPer, id, x);
    }
  }

  lemma HitsOfOther(pool: seq<Snapshot>, maxPer: int, id: string, x: seq<nat>)
    requires ValidPool(pool) && pool != [] && id != pool[|pool| - 1].id
    requires Eligible(pool[|pool| - 1], maxPer) && Ties(ShapeOf(pool[..|pool| - 1], maxPer), pool[|pool| - 1])
    ensures var init := pool[..|pool| - 1];
            x in Hits(pool, maxPer, id) <==> x in Extend(Hits(init, maxPer, id), Range(1, ShapeOf(init, maxPer).ties + 1))
  {
    var init := pool[..|pool| - 1];
    HitsMean(pool, maxPer, id, x);
    NonZeroExtend(x, Hits(init, maxPer, id), ShapeOf(init, maxPer).ties);
  }

  lemma NonZeroExtend(x: seq<nat>, hits: set<seq<nat>>, ties: nat)
    ensures x in Extend(hits, Range(1, ties + 1)) <==> NonZeroOf(x, hits, ties)
  {
    InExtend(hits, Range(1, ties + 1), x);
  }

  /** How many vectors select `id` after an upstream that ties. */
  lemma TieCounts(pool: seq<Snapshot>, maxPer: int, id: string)
    requires ValidPool(pool) && pool != []
    requires Eligible(pool[|pool| - 1], maxPer) && Ties(ShapeOf(pool[..|pool| - 1], maxPer), pool[|pool| - 1])
    ensures var init := pool[..|pool| - 1];
            var sh := ShapeOf(init, maxPer);
            |Hits(pool, maxPer, id)| ==
              if id == pool[|pool| - 1].id then |Vectors(sh.bounds)| else |Hits(init, maxPer, id)| * sh.ties
  {
    var init := pool[..|pool| - 1];
    var sh := ShapeOf(init, maxPer);
    if id == pool[|pool| - 1].id {
      HitsOfTying(pool, maxPer);
      ExtendCard(Vectors(sh.bounds), Range(0, 1));
    } else {
      HitsOfOthers(pool, maxPer, id);
      ExtendCard(Hits(init, maxPer, id), Range(1, sh.ties + 1));
    }
  }

  lemma UniformStep(hits: nat, ties: nat, vectors: nat, hits': nat)
    requires hits' == vectors || (hits' == hits * ties && hits * ties == vectors)
    ensures hits' * (ties + 1) == vectors * (ties + 1)
  {
  }

  /**
   Reservoir sampling is uniform: of all the draw vectors, the same number select
   each tied minimum, namely all of them divided by the number of minima.
   */
  lemma {:induction false} TiesBrokenUniformly(pool: seq<Snapshot>, maxPer: int, id: string)
    requires ValidPool(pool) && AtBest(pool, maxPer, id)
    ensures |Hits(pool, maxPer, id)| * ShapeOf(pool, maxPer).ties == |Vectors(Bounds(pool, maxPer))|
  {
    var init, u := pool[..|pool| - 1], pool[|pool| - 1];
    var sh := ShapeOf(init, maxPer);
    AtBestStep(pool, maxPer, id);
    if !Eligible(u, maxPer) || !Ties(sh, u) {
      HitsWithoutDraw(pool, maxPer, id);
      if !Eligible(u, maxPer) || !Wins(sh, u) {
        TiesBrokenUniformly(init, maxPer, id);
      }
    } else {
      TieCounts(pool, maxPer, id);
      VectorsAppend(sh.bounds, sh.ties + 1);
      if id != u.id {
        TiesBrokenUniformly(init, maxPer, id);
      }
      UniformStep(|Hits(init, maxPer, id)|, sh.ties, |Vectors(sh.bounds)|, |Hits(pool, maxPer, id)|);
    }
  }

  /** The bounds 2, 3, ..., k. */
  function ShuffleBounds(k: nat): seq<nat> {
    if k <= 1 then [] else ShuffleBounds(k - 1) + [k]
  }

  /** The bounds of the draws made before the last upstream that won outright. */
  function Earlier(pool: seq<Snapshot>, maxPer: int): seq<nat> {
    if pool == [] then []
    else
      var init, u := pool[..|pool| - 1], pool[|pool| - 1];
      if Eligible(u, maxPer) && Wins(ShapeOf(init, maxPer), u) then Bounds(init, maxPer) else Earlier(init, maxPer)
  }

  /** After that upstream the draws are those of a shuffle of the tied ones. */
  lemma {:induction false} BoundsSplit(pool: seq<Snapshot>, maxPer: int)
    ensures Bounds(pool, maxPer) == Earlier(pool, maxPer) + ShuffleBounds(ShapeOf(pool, maxPer).ties)
  {
    if pool != [] {
      var init, u := pool[..|pool| - 1], pool[|pool| - 1];
      var sh := ShapeOf(init, maxPer);
      BoundsSplit(init, maxPer);
      BestIsLeast(init, maxPer);
      if Eligible(u, maxPer) && Ties(sh, u) {
        assert ShuffleBounds(sh.ties + 1) == ShuffleBounds(sh.ties) + [sh.ties + 1];
      }
    }
  }

  /** `m` times the factorial of `k`. */
  ghost function Ways(m: nat, k: nat): nat {
    if k <= 1 then m else Ways(m, k - 1) * k
  }

  lemma MulAssoc(a: nat, b: nat, c: nat)
    ensures (a * b) * c == a * (b * c)
  {
  }

  lemma {:induction false} WaysIs(m: nat, k: nat)
    ensures Ways(m, k) == m * Factorial(k)
  {
    if k > 1 {
      WaysIs(m, k - 1);
      MulAssoc(m, Factorial(k - 1), k);
    }
  }

  lemma OneMoreTie(longer: seq<nat>, shorter: seq<nat>, m: nat, k: nat)
    requires k > 1 && longer == shorter + [k] && |Vectors(shorter)| == Ways(m, k - 1)
    ensures |Vectors(longer)| == Ways(m, k)
  {
    VectorsAppend(shorter, k);
  }

  lemma LastBound(before: seq<nat>, k: nat)
    requires k > 1
    ensures before + ShuffleBounds(k) == (before + ShuffleBounds(k - 1)) + [k]
  {
  }

  lemma NoTie(before: seq<nat>, k: nat)
    requires k <= 1
    ensures |Vectors(before + ShuffleBounds(k))| == Ways(|Vectors(before)|, k)
  {
    assert before + ShuffleBounds(k) == before;
  }

  lemma {:induction false} ShuffleCount(before: seq<nat>, m: nat, k: nat, all: seq<nat>)
    requires m == |Vectors(before)| && all == before + ShuffleBounds(k)
    ensures |Vectors(all)| == Ways(m, k)
  {
    if k <= 1 {
      NoTie(before, k);
    } else {
      var shorter := before + ShuffleBounds(k - 1);
      ShuffleCount(before, m, k - 1, shorter);
      LastBound(before, k);
      OneMoreTie(all, shorter, m, k);
    }
  }

  lemma WaysShare(hits: nat, m: nat, k: nat)
    requires k > 0 && hits * k == Ways(m, k)
    ensures hits == Ways(m, k - 1)
  {
    if k > 1 {
      CancelFactor(hits, Ways(m, k - 1), k);
    }
  }

  lemma CancelFactor(a: nat, b: nat, k: nat)
    requires k > 0 && a * k == b * k
    ensures a == b
  {
    if a < b {
      MulStrict(a, b, k);
    } else if b < a {
      MulStrict(b, a, k);
    }
  }

  lemma MulStrict(a: nat, b: nat, k: nat)
    requires a < b && k > 0
    ensures a * k < b * k
  {
  }

  lemma TiedWays(pool: seq<Snapshot>, maxPer: int, id: string)
    requires ValidPool(pool) && AtBest(pool, maxPer, id)
    ensures var k, before := ShapeOf(pool, maxPer).ties, |Vectors(Earlier(pool, maxPer))|;
            && k > 0 && |Vectors(Bounds(pool, maxPer))| == Ways(before, k)
            && |Hits(pool, maxPer, id)| == Ways(before, k - 1)
  {
    var k := ShapeOf(pool, maxPer).ties;
    BestIsLeast(pool, maxPer);
    TiesBrokenUniformly(pool, maxPer, id);
    BoundsSplit(pool, maxPer);
    ShuffleCount(Earlier(pool, maxPer), |Vectors(Earlier(pool, maxPer))|, k, Bounds(pool, maxPer));
    WaysShare(|Hits(pool, maxPer, id)|, |Vectors(Earlier(pool, maxPer))|, k);
  }

  lemma BothAre(vectors: nat, hits: nat, m: nat, k: nat)
    requires k > 0 && vectors == Ways(m, k) && hits == Ways(m, k - 1)
    ensures vectors == m * Factorial(k) && hits == m * Factorial(k - 1)
  {
    WaysIs(m, k);
    WaysIs(m, k - 1);
  }

  /**
   For every pool with k tied minima: each of them is the result for (k-1)! of the k!
   ways to answer the draws among the tied ones, whatever the draws before were.
   */
  lemma TiedShares(pool: seq<Snapshot>, maxPer: int, id: string)
    requires ValidPool(pool) && AtBest(pool, maxPer, id)
    ensures var k, before := ShapeOf(pool, maxPer).ties, |Vectors(Earlier(pool, maxPer))|;
            && k > 0 && |Vectors(Bounds(pool, maxPer))| == before * Factorial(k)
            && |Hits(pool, maxPer, id)| == before * Factorial(k - 1)
  {
    var k, before := ShapeOf(pool, maxPer).ties, |Vectors(Earlier(pool, maxPer))|;
    TiedWays(pool, maxPer, id);
    BothAre(|Vectors(Bounds(pool, maxPer))|, |Hits(pool, maxPer, id)|, before, k);
  }

  /** When all eligible upstreams are equally loaded, no draw is made before. */
  lemma {:induction false} NothingEarlier(pool: seq<Snapshot>, maxPer: int, load: int)
    requires forall i :: 0 <= i < |pool| && Eligible(pool[i], maxPer) ==> pool[i].active == load
    ensures Earlier(pool, maxPer) == []
    ensures var sh := ShapeOf(pool, maxPer); if sh.found then sh.best == load else sh.bounds == []
  {
    if pool != [] {
      var n := |pool| - 1;
      assert forall i :: 0 <= i < n ==> pool[..n][i] == pool[i];
      NothingEarlier(pool[..n], maxPer, load);
    }
  }

  lemma OneBefore(vectors: nat, hits: nat, m: nat, k: nat)
    requires k > 0 && m == |Vectors([])| && vectors == Ways(m, k) && hits == Ways(m, k - 1)
    ensures vectors == Factorial(k) && hits == Factorial(k - 1)
  {
    assert m == 1;
    BothAre(vectors, hits, m, k);
  }

  /** Then each of the k tied upstreams is the result for exactly (k-1)! of the k! draw vectors. */
  lemma AllTiedShares(pool: seq<Snapshot>, maxPer: int, load: int, id: string)
    requires ValidPool(pool) && AtBest(pool, maxPer, id)
    requires forall i :: 0 <= i < |pool| && Eligible(pool[i], maxPer) ==> pool[i].active == load
    ensures var k := ShapeOf(pool, maxPer).ties;
            && k > 0 && |Vectors(Bounds(pool, maxPer))| == Factorial(k)
            && |Hits(pool, maxPer, id)| == Factorial(k - 1)
  {
    var k := ShapeOf(pool, maxPer).ties;
    NothingEarlier(pool, maxPer, load);
    TiedWays(pool, maxPer, id);
    OneBefore(|Vectors(Bounds(pool, maxPer))|, |Hits(pool, maxPer, id)|, |Vectors(Earlier(pool, maxPer))|, k);
  }
}
