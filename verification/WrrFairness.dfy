/** What a smooth weighted round-robin pick means, and that it is exactly fair. */
module WrrFairness {
  import opened Selection
  import opened Sums
  import opened Wrr

  /** The eligible upstreams and their weights. */
  function Weights(pool: seq<Snapshot>, maxPer: int): Credits {
    if pool == [] then map[]
    else
      var u, before := pool[|pool| - 1], Weights(pool[..|pool| - 1], maxPer);
      if Eligible(u, maxPer) then before[u.id := WeightOf(u)] else before
  }

  lemma {:induction false} WeightsMean(pool: seq<Snapshot>, maxPer: int, id: string)
    requires ValidPool(pool)
    ensures id in Weights(pool, maxPer) <==> exists u :: u in pool && u.id == id && u.healthy && u.active < maxPer
    ensures forall u :: u in pool && u.id == id && u.healthy && u.active < maxPer ==>
              Weights(pool, maxPer)[id] == if u.weight > 0 then u.weight else 1
    ensures id in Weights(pool, maxPer) ==> Weights(pool, maxPer)[id] >= 1 && id in Ids(pool) && id != ""
  {
    if pool != [] {
      var init, last := pool[..|pool| - 1], pool[|pool| - 1];
      WeightsMean(init, maxPer, id);
      assert forall u :: u in pool <==> u in init || u == last;
      if id in Weights(pool, maxPer) {
        assert exists u :: u in pool && u.id == id && u.healthy && u.active < maxPer;
      }
    }
  }

  /** `pool[k]` is eligible, richer than the eligible upstreams before it, and none after it is richer. */
  ghost predicate RichestAt(credits: Credits, pool: seq<Snapshot>, maxPer: int, k: nat) {
    && k < |pool| && pool[k].healthy && pool[k].active < maxPer
    && (forall i :: 0 <= i < k && pool[i].healthy && pool[i].active < maxPer ==>
          Get(credits, pool[i].id) < Get(credits, pool[k].id))
    && (forall i :: k < i < |pool| && pool[i].healthy && pool[i].active < maxPer ==>
          Get(credits, pool[i].id) <= Get(credits, pool[k].id))
  }

  lemma LastIsNew(pool: seq<Snapshot>, maxPer: int)
    requires ValidPool(pool) && pool != []
    ensures pool[|pool| - 1].id !in Weights(pool[..|pool| - 1], maxPer)
  {
    WeightsMean(pool[..|pool| - 1], maxPer, pool[|pool| - 1].id);
  }

  /** Adding a new key to a map adds its value to the sum. */
  lemma SumNewKey(m: Credits, x: string, v: int)
    requires x !in m
    ensures Sum(m[x := v].Keys, m[x := v]) == Sum(m.Keys, m) + v
  {
    var r := m[x := v];
    SumRemove(r.Keys, r, x);
    assert r.Keys - {x} == m.Keys;
    SumSame(m.Keys, m, r);
  }

  /** After the scan every eligible upstream has its weight added, and `total` is what was added. */
  lemma {:induction false} ScanAdds(current: Credits, pool: seq<Snapshot>, maxPer: int)
    requires ValidPool(pool)
    ensures var sc, e := VisitAll(current, pool, maxPer), Weights(pool, maxPer);
            && sc.current.Keys == current.Keys + e.Keys
            && (forall x :: Get(sc.current, x) == Get(current, x) + Get(e, x))
            && sc.total == Sum(e.Keys, e)
  {
    if pool != [] {
      var init, last := pool[..|pool| - 1], pool[|pool| - 1];
      ScanAdds(current, init, maxPer);
      LastIsNew(pool, maxPer);
      SumNewKey(Weights(init, maxPer), last.id, WeightOf(last));
    }
  }

  /** Scanning one more upstream keeps the position of the richest up to date. */
  lemma RichestSoFar(before: Credits, after: Credits, pool: seq<Snapshot>, maxPer: int, k: nat)
    requires ValidPool(pool) && pool != []
    requires RichestAt(before, pool[..|pool| - 1], maxPer, k)
    requires forall x :: x != pool[|pool| - 1].id ==> Get(after, x) == Get(before, x)
    ensures var n := |pool| - 1;
            RichestAt(after, pool, maxPer,
                      if Eligible(pool[n], maxPer) && Get(after, pool[n].id) > Get(after, pool[k].id) then n else k)
  {
    var n := |pool| - 1;
    assert forall i :: 0 <= i < n ==> pool[i] == pool[..n][i] && pool[i].id != pool[n].id;
  }

  /** The first eligible upstream is the richest so far. */
  lemma FirstIsRichest(credits: Credits, pool: seq<Snapshot>, maxPer: int)
    requires pool != [] && Weights(pool[..|pool| - 1], maxPer) == map[]
    ensures Eligible(pool[|pool| - 1], maxPer) ==> RichestAt(credits, pool, maxPer, |pool| - 1)
  {
    NoneEligible(pool[..|pool| - 1], maxPer);
    assert forall i :: 0 <= i < |pool| - 1 ==> pool[i] == pool[..|pool| - 1][i];
  }

  /** The scan ends on the richest eligible upstream, the first one in pool order on a tie. */
  lemma {:induction false} ScanFindsRichest(current: Credits, pool: seq<Snapshot>, maxPer: int) returns (k: nat)
    requires ValidPool(pool)
    ensures var sc, e := VisitAll(current, pool, maxPer), Weights(pool, maxPer);
            && (sc.bestID == "" <==> e == map[])
            && (e != map[] ==>
                  && RichestAt(sc.current, pool, maxPer, k)
                  && pool[k].id == sc.bestID && sc.bestCur == Get(sc.current, sc.bestID))
  {
    k := 0;
    if pool != [] {
      var n := |pool| - 1;
      var init, last := pool[..n], pool[n];
      k := ScanFindsRichest(current, init, maxPer);
      LastIsNew(pool, maxPer);
      var before, after := VisitAll(current, init, maxPer), VisitAll(current, pool, maxPer);
      if before.bestID == "" {
        FirstIsRichest(after.current, pool, maxPer);
        k := n;
      } else {
        RichestSoFar(before.current, after.current, pool, maxPer, k);
        k := if Eligible(last, maxPer) && Get(after.current, last.id) > before.bestCur then n else k;
      }
    }
  }

  lemma {:induction false} NoneEligible(pool: seq<Snapshot>, maxPer: int)
    requires Weights(pool, maxPer) == map[]
    ensures forall i :: 0 <= i < |pool| ==> !Eligible(pool[i], maxPer)
  {
    if pool != [] {
      var last := pool[|pool| - 1];
      assert last.id !in Weights(pool, maxPer);
      NoneEligible(pool[..|pool| - 1], maxPer);
      assert forall i :: 0 <= i < |pool| - 1 ==> pool[i] == pool[..|pool| - 1][i];
    }
  }

  // --- One pick -------------------------------------------------------------

  ghost function Total(m: Credits): int {
    Sum(m.Keys, m)
  }

  /** The charge of a pick: the total eligible weight for the chosen ID, nothing for the others. */
  ghost function Charge(e: Credits, id: string, x: string): int {
    if x == id && id != "" then Total(e) else 0
  }

  /**
   What a pick does to a pool with unique IDs: every credit still in the pool
   gains its eligible weight and the chosen one is charged the total; the chosen
   one was the richest after the gains.
   */
  lemma PickMeans(current: Credits, pool: seq<Snapshot>, maxPer: int) returns (k: nat)
    requires ValidPool(pool)
    ensures var e, kept, (after, id) := Weights(pool, maxPer), Prune(current, pool), PickResult(current, pool, maxPer);
            && (forall x :: Get(after, x) == Get(kept, x) + Get(e, x) - Charge(e, id, x))
            && after.Keys == kept.Keys + e.Keys
            && (id == "" <==> e == map[])
            && (id != "" ==>
                  && id in e && k < |pool| && pool[k].id == id
                  && RichestAt(VisitAll(kept, pool, maxPer).current, pool, maxPer, k))
  {
    var kept := Prune(current, pool);
    ScanAdds(kept, pool, maxPer);
    k := ScanFindsRichest(kept, pool, maxPer);
    WeightsMean(pool, maxPer, PickResult(current, pool, maxPer).1);
  }

  /** Every ID of the pool with the same credit, and no other key, is what pruning keeps. */
  lemma PruneRemoves(current: Credits, pool: seq<Snapshot>)
    ensures Total(current) == Total(Prune(current, pool)) + Sum(current.Keys - Ids(pool), current)
  {
    var kept := Prune(current, pool);
    SumUnion(kept.Keys, current.Keys - Ids(pool), current);
    assert kept.Keys + (current.Keys - Ids(pool)) == current.Keys;
    SumSame(kept.Keys, kept, current);
  }

  /** The sum after the scan: what was kept plus the weights added. */
  lemma ScanTotals(kept: Credits, pool: seq<Snapshot>, maxPer: int)
    requires ValidPool(pool)
    ensures var gained, e := VisitAll(kept, pool, maxPer).current, Weights(pool, maxPer);
            Total(gained) == Total(kept) + Total(e)
  {
    var gained, e := VisitAll(kept, pool, maxPer).current, Weights(pool, maxPer);
    ScanAdds(kept, pool, maxPer);
    SumAdd(gained.Keys, kept, e, gained);
    SumOver(gained.Keys, kept);
    SumOver(gained.Keys, e);
  }

  /**
   Credit conservation: a pick changes the sum of all credits by exactly the
   credits it prunes, whatever the health, load and weights it sees.
   */
  lemma PickConserves(current: Credits, pool: seq<Snapshot>, maxPer: int)
    requires ValidPool(pool)
    ensures Total(PickResult(current, pool, maxPer).0) == Total(current) - Sum(current.Keys - Ids(pool), current)
  {
    var kept := Prune(current, pool);
    PruneRemoves(current, pool);
    ScanTotals(kept, pool, maxPer);
    ChargeUndoesGain(kept, pool, maxPer);
  }

  lemma {:induction false} BestHasCredit(current: Credits, pool: seq<Snapshot>, maxPer: int)
    ensures var sc := VisitAll(current, pool, maxPer);
            sc.bestID != "" ==> sc.bestID in sc.current
  {
    if pool != [] {
      BestHasCredit(current, pool[..|pool| - 1], maxPer);
    }
  }

  /** The charge takes away exactly what the scan added. */
  lemma ChargeUndoesGain(kept: Credits, pool: seq<Snapshot>, maxPer: int)
    requires ValidPool(pool)
    ensures var sc := VisitAll(kept, pool, maxPer);
            if sc.bestID == "" then Total(Weights(pool, maxPer)) == 0
            else Total(sc.current[sc.bestID := sc.bestCur - sc.total]) == Total(sc.current) - Total(Weights(pool, maxPer))
  {
    var sc := VisitAll(kept, pool, maxPer);
    ScanAdds(kept, pool, maxPer);
    var k := ScanFindsRichest(kept, pool, maxPer);
    BestHasCredit(kept, pool, maxPer);
    if sc.bestID != "" {
      assert sc.current[sc.bestID := sc.bestCur - sc.total].Keys == sc.current.Keys;
      SumUpdate(sc.current.Keys, sc.current, sc.bestID, sc.bestCur - sc.total);
    }
  }

  /** Keys that are missing from the map add nothing. */
  lemma SumOver(s: set<string>, m: Credits)
    requires m.Keys <= s
    ensures Sum(s, m) == Total(m)
  {
    SumUnion(m.Keys, s - m.Keys, m);
    assert m.Keys + (s - m.Keys) == s;
    SumZeros(s - m.Keys, m);
  }

  // --- Runs -----------------------------------------------------------------

  /** What one `Pick` call is given. */
  datatype Call = Call(pool: seq<Snapshot>, maxPer: int)

  /** The credits after the calls, and the IDs they returned. */
  function Play(current: Credits, calls: seq<Call>): (Credits, seq<string>) {
    if calls == [] then (current, [])
    else
      var n := |calls| - 1;
      var (c, ids) := Play(current, calls[..n]);
      var (c', id) := PickResult(c, calls[n].pool, calls[n].maxPer);
      (c', ids + [id])
  }

  /** While the pool keeps the same IDs, the sum of all credits never changes. */
  lemma {:induction false} PlayConserves(current: Credits, calls: seq<Call>, ids: set<string>)
    requires forall i :: 0 <= i < |calls| ==> ValidPool(calls[i].pool) && Ids(calls[i].pool) == ids
    requires current.Keys <= ids
    ensures Play(current, calls).0.Keys <= ids
    ensures Total(Play(current, calls).0) == Total(current)
  {
    if calls != [] {
      var n := |calls| - 1;
      PlayConserves(current, calls[..n], ids);
      var c, call := Play(current, calls[..n]).0, calls[n];
      PickConserves(c, call.pool, call.maxPer);
      assert c.Keys - ids == {};
      var k := PickMeans(c, call.pool, call.maxPer);
      forall x | x in Weights(call.pool, call.maxPer) ensures x in ids {
        WeightsMean(call.pool, call.maxPer, x);
      }
    }
  }

  function Count(ids: seq<string>, id: string): nat {
    if ids == [] then 0 else Count(ids[..|ids| - 1], id) + (if ids[|ids| - 1] == id then 1 else 0)
  }

  /** Every call sees the same eligible upstreams with the same weights; the rest of the pool is free. */
  ghost predicate Steady(calls: seq<Call>, e: Credits) {
    forall i :: 0 <= i < |calls| ==> ValidPool(calls[i].pool) && Weights(calls[i].pool, calls[i].maxPer) == e
  }

  /** A non-empty set of eligible upstreams with their weights. */
  ghost predicate WeightMap(e: Credits) {
    e != map[] && forall x :: x in e ==> e[x] >= 1
  }

  /** After t picks, times chosen times W plus the credit is t times the weight. */
  ghost predicate Book(e: Credits, t: nat, c: Credits, ids: seq<string>, x: string)
    requires x in e
  {
    Count(ids, x) * Total(e) == t * e[x] - Get(c, x) && -Total(e) < Get(c, x)
  }

  ghost predicate Books(e: Credits, t: nat, c: Credits, ids: seq<string>) {
    && |ids| == t
    && (forall x :: x in e ==> Book(e, t, c, ids, x))
    && Sum(e.Keys, c) == 0
  }

  /** Pruning leaves the eligible credits alone. */
  lemma EligibleKept(c: Credits, call: Call)
    requires ValidPool(call.pool)
    ensures var e := Weights(call.pool, call.maxPer);
            forall x :: x in e ==> e[x] >= 1 && x != "" && Get(Prune(c, call.pool), x) == Get(c, x)
  {
    forall x | x in Weights(call.pool, call.maxPer)
      ensures Weights(call.pool, call.maxPer)[x] >= 1 && x != "" && Get(Prune(c, call.pool), x) == Get(c, x)
    {
      WeightsMean(call.pool, call.maxPer, x);
    }
  }

  /** The gain before the charge: the sum becomes the total weight, and the chosen credit is positive. */
  lemma SteadyGain(c: Credits, call: Call, e: Credits)
    requires ValidPool(call.pool) && Weights(call.pool, call.maxPer) == e && e != map[]
    requires Sum(e.Keys, c) == 0
    ensures var (gained, id) := (VisitAll(Prune(c, call.pool), call.pool, call.maxPer).current,
                                 PickResult(c, call.pool, call.maxPer).1);
            && Sum(e.Keys, gained) == Total(e)
            && id in e && Get(gained, id) > 0
  {
    var k := PickMeans(c, call.pool, call.maxPer);
    var kept := Prune(c, call.pool);
    EligibleKept(c, call);
    var gained := VisitAll(kept, call.pool, call.maxPer).current;
    ScanAdds(kept, call.pool, call.maxPer);
    SumAdd(e.Keys, c, e, gained);
    RichestIsPositive(gained, call, e, k);
  }

  /** What a pick does to the eligible credits when it is given the weights `e`. */
  lemma SteadyPick(c: Credits, call: Call, e: Credits)
    requires ValidPool(call.pool) && Weights(call.pool, call.maxPer) == e && e != map[]
    requires Sum(e.Keys, c) == 0
    ensures var (c', id) := PickResult(c, call.pool, call.maxPer);
            && id in e
            && (forall x :: x in e ==> Get(c', x) == Get(c, x) + e[x] - (if x == id then Total(e) else 0))
            && Get(c', id) > -Total(e)
            && Sum(e.Keys, c') == 0
  {
    var k := PickMeans(c, call.pool, call.maxPer);
    EligibleKept(c, call);
    SteadyGain(c, call, e);
    var sc := VisitAll(Prune(c, call.pool), call.pool, call.maxPer);
    ScanAdds(Prune(c, call.pool), call.pool, call.maxPer);
    SumUpdate(e.Keys, sc.current, sc.bestID, sc.bestCur - sc.total);
  }

  /** Credits with a positive sum have a positive maximum. */
  lemma RichestIsPositive(gained: Credits, call: Call, e: Credits, k: nat)
    requires ValidPool(call.pool) && Weights(call.pool, call.maxPer) == e && e != map[]
    requires RichestAt(gained, call.pool, call.maxPer, k) && Sum(e.Keys, gained) == Total(e)
    ensures Get(gained, call.pool[k].id) > 0 && Total(e) > 0
  {
    forall x | x in e ensures e[x] >= 1 && Get(gained, x) <= Get(gained, call.pool[k].id) {
      WeightsMean(call.pool, call.maxPer, x);
    }
    SumAtLeast(e.Keys, e, 1);
    if Get(gained, call.pool[k].id) <= 0 {
      SumAtMostZero(e.Keys, gained);
    }
  }

  /** One more pick in one upstream's books. */
  lemma BooksStep(count: nat, total: int, n: nat, weight: int, credit: int, credit': int, chosen: bool)
    requires count * total == n * weight - credit
    requires credit' == credit + weight - (if chosen then total else 0)
    ensures (count + if chosen then 1 else 0) * total == (n + 1) * weight - credit'
  {
  }

  /** One more pick in everybody's books. */
  lemma BooksAfterPick(c: Credits, ids: seq<string>, call: Call, e: Credits)
    requires WeightMap(e) && ValidPool(call.pool) && Weights(call.pool, call.maxPer) == e
    requires Books(e, |ids|, c, ids)
    ensures var (c', id) := PickResult(c, call.pool, call.maxPer); Books(e, |ids| + 1, c', ids + [id])
  {
    SteadyPick(c, call, e);
    var (c', id) := PickResult(c, call.pool, call.maxPer);
    assert (ids + [id])[..|ids|] == ids;
    forall x | x in e ensures Book(e, |ids| + 1, c', ids + [id], x) {
      assert Book(e, |ids|, c, ids, x);
      BooksStep(Count(ids, x), Total(e), |ids|, e[x], Get(c, x), Get(c', x), x == id);
    }
  }

  lemma {:induction false} PlayKeepsBooks(current: Credits, calls: seq<Call>, e: Credits)
    requires Steady(calls, e) && WeightMap(e)
    requires forall x :: x in e ==> Get(current, x) == 0
    ensures var (c, ids) := Play(current, calls); Books(e, |calls|, c, ids)
  {
    if calls == [] {
      SumZeros(e.Keys, current);
      SumAtLeast(e.Keys, e, 1);
    } else {
      var n := |calls| - 1;
      PlayKeepsBooks(current, calls[..n], e);
      var (c, ids) := Play(current, calls[..n]);
      BooksAfterPick(c, ids, calls[n], e);
    }
  }

  lemma MulNegated(a: int, n: int)
    ensures (-a) * n == -(a * n)
  {
  }

  lemma ShareFromBooks(count: nat, w: int, t: nat, weight: int, credit: int, top: int)
    requires count * w == t * weight - credit && -w < credit <= top
    ensures t * weight - top <= count * w < t * weight + w
  {
  }

  /** Credits that sum to zero and never fall below `-low` are bounded above. */
  lemma CreditCeiling(s: set<string>, c: Credits, x: string, low: int)
    requires x in s && Sum(s, c) == 0
    requires forall y :: y in s ==> Get(c, y) >= -low
    ensures Get(c, x) <= low * (|s| - 1)
  {
    SumRemove(s, c, x);
    SumAtLeast(s - {x}, c, -low);
    MulNegated(low, |s - {x}|);
  }

  ghost function Ceiling(e: Credits): int {
    (Total(e) - 1) * (|e.Keys| - 1)
  }

  /**
   From zero credits, with the same eligible upstreams at every call, credits sum
   to zero and none leaves (-W, (W-1)(n-1)].
   */
  lemma CreditBounds(current: Credits, calls: seq<Call>, e: Credits, x: string)
    requires Steady(calls, e) && WeightMap(e) && x in e
    requires forall y :: y in e ==> Get(current, y) == 0
    ensures var c := Play(current, calls).0;
            Sum(e.Keys, c) == 0 && -Total(e) < Get(c, x) <= Ceiling(e)
  {
    PlayKeepsBooks(current, calls, e);
    var (c, ids) := Play(current, calls);
    forall y | y in e ensures Get(c, y) >= -(Total(e) - 1) {
      assert Book(e, |calls|, c, ids, y);
    }
    CreditCeiling(e.Keys, c, x, Total(e) - 1);
  }

  /** After t picks every upstream's share is within those bounds of t times its weight over W. */
  lemma ShareBounds(current: Credits, calls: seq<Call>, e: Credits, x: string)
    requires Steady(calls, e) && WeightMap(e) && x in e
    requires forall y :: y in e ==> Get(current, y) == 0
    ensures var count, t := Count(Play(current, calls).1, x), |calls|;
            t * e[x] - Ceiling(e) <= count * Total(e) < t * e[x] + Total(e)
  {
    PlayKeepsBooks(current, calls, e);
    CreditBounds(current, calls, e, x);
    var (c, ids) := Play(current, calls);
    assert Book(e, |calls|, c, ids, x);
    ShareFromBooks(Count(ids, x), Total(e), |calls|, e[x], Get(c, x), Ceiling(e));
  }

  /** A credit that is a multiple of W and above -W is not negative. */
  lemma MultipleAbove(w: int, d: int)
    requires w > 0 && w * d > -w
    ensures d >= 0 && w * d >= 0
  {
  }

  lemma CycleCredit(count: nat, w: int, cycles: nat, weight: int, credit: int)
    requires w > 0 && count * w == cycles * w * weight - credit && credit > -w
    ensures credit >= 0
    ensures credit == 0 ==> count == cycles * weight
  {
    assert credit == w * (cycles * weight - count);
    MultipleAbove(w, cycles * weight - count);
  }

  /**
   Exact fairness: after any whole number of cycles of W picks every upstream has
   been chosen exactly its weight times the number of cycles, and all credits are
   zero again.
   */
  lemma ExactShare(current: Credits, calls: seq<Call>, e: Credits, cycles: nat, x: string)
    requires Steady(calls, e) && WeightMap(e) && x in e
    requires forall y :: y in e ==> Get(current, y) == 0
    requires |calls| == cycles * Total(e)
    ensures var (c, ids) := Play(current, calls);
            Get(c, x) == 0 && Count(ids, x) == cycles * e[x]
  {
    PlayKeepsBooks(current, calls, e);
    SumAtLeast(e.Keys, e, 1);
    var (c, ids) := Play(current, calls);
    forall y | y in e ensures Get(c, y) >= 0 && (Get(c, y) == 0 ==> Count(ids, y) == cycles * e[y]) {
      assert Book(e, |calls|, c, ids, y);
      CycleCredit(Count(ids, y), Total(e), cycles, e[y], Get(c, y));
    }
    ZeroTerms(e.Keys, c, x);
  }
}
