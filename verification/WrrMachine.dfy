/**
 When the int64 arithmetic of smooth weighted round-robin (internal/strategy/wrr.go)
 is as good as exact arithmetic. The total may wrap around; the credits must fit.
 */
module WrrMachine {
  import opened Selection
  import opened Sums
  import opened Wrr
  import opened WrrFairness
  import opened Int64

  /** The credit of every eligible upstream fits when its weight has been added. */
  ghost predicate GainsFit(current: Credits, e: Credits) {
    forall x :: x in e ==> InRange(Get(current, x) + e[x])
  }

  /** What the machine stores for an eligible upstream is the exact credit, wrapped. */
  lemma {:induction false} ScanWraps(current: Credits, pool: seq<Snapshot>, maxPer: int, x: string)
    requires ValidPool(pool)
    ensures var e := Weights(pool, maxPer);
            Get(MachineScan(current, pool, maxPer).current, x) ==
            if x in e then Wrap(Get(current, x) + e[x]) else Get(current, x)
  {
    if pool != [] {
      ScanWraps(current, pool[..|pool| - 1], maxPer, x);
      LastIsNew(pool, maxPer);
    }
  }

  lemma VisitFits(sc: Scan, u: Snapshot, maxPer: int)
    requires Eligible(u, maxPer) ==> InRange(Get(sc.current, u.id) + WeightOf(u))
    ensures var next := Visit(sc, u, maxPer);
            MachineVisit(sc.(total := Wrap(sc.total)), u, maxPer) == next.(total := Wrap(next.total))
  {
    WrapExact(Get(sc.current, u.id) + WeightOf(u));
    WrapAdd(sc.total, WeightOf(u));
  }

  /** Of a scan whose gains fit, so do the gains before the last upstream, and the last gain. */
  lemma GainsFitBefore(current: Credits, pool: seq<Snapshot>, maxPer: int)
    requires ValidPool(pool) && pool != [] && GainsFit(current, Weights(pool, maxPer))
    ensures var init, last := pool[..|pool| - 1], pool[|pool| - 1];
            && GainsFit(current, Weights(init, maxPer))
            && (Eligible(last, maxPer) ==> InRange(Get(VisitAll(current, init, maxPer).current, last.id) + WeightOf(last)))
  {
    var init, last := pool[..|pool| - 1], pool[|pool| - 1];
    LastIsNew(pool, maxPer);
    ScanAdds(current, init, maxPer);
    assert Eligible(last, maxPer) ==> last.id in Weights(pool, maxPer);
    assert forall x :: x in Weights(init, maxPer) ==> x in Weights(pool, maxPer);
  }

  lemma {:induction false} ScanFits(current: Credits, pool: seq<Snapshot>, maxPer: int)
    requires ValidPool(pool) && GainsFit(current, Weights(pool, maxPer))
    ensures var sc := VisitAll(current, pool, maxPer); MachineScan(current, pool, maxPer) == sc.(total := Wrap(sc.total))
  {
    if pool == [] {
      WrapExact(0);
    } else {
      GainsFitBefore(current, pool, maxPer);
      ScanFits(current, pool[..|pool| - 1], maxPer);
      VisitFits(VisitAll(current, pool[..|pool| - 1], maxPer), pool[|pool| - 1], maxPer);
    }
  }

  /** The scan stores the exact credits if and only if they fit. */
  lemma ScanFitsIff(current: Credits, pool: seq<Snapshot>, maxPer: int)
    requires ValidPool(pool)
    ensures MachineScan(current, pool, maxPer).current == VisitAll(current, pool, maxPer).current <==>
            GainsFit(current, Weights(pool, maxPer))
  {
    var e := Weights(pool, maxPer);
    var machine, exact := MachineScan(current, pool, maxPer).current, VisitAll(current, pool, maxPer).current;
    if GainsFit(current, e) {
      ScanFits(current, pool, maxPer);
    } else {
      var x :| x in e && !InRange(Get(current, x) + e[x]);
      ScanWraps(current, pool, maxPer, x);
      ScanAdds(current, pool, maxPer);
      WrapExact(Get(current, x) + e[x]);
    }
  }

  lemma ChargeWraps(best: int, total: int)
    ensures Wrap(best - Wrap(total)) == Wrap(best - total)
  {
    var q := WrapBy(total);
    var p := WrapBy(best - Wrap(total));
    assert WrapsBy(Wrap(best - Wrap(total)), best - total, p - q);
    OnlyOne(Wrap(best - Wrap(total)), best - total, p - q);
  }

  /** When the credits fit, before and after the charge, a pick is exact, even if the total wraps around. */
  lemma PickFits(current: Credits, pool: seq<Snapshot>, maxPer: int)
    requires ValidPool(pool) && GainsFit(Prune(current, pool), Weights(pool, maxPer))
    requires var (after, id) := PickResult(current, pool, maxPer); id in after ==> InRange(after[id])
    ensures MachinePick(current, pool, maxPer) == PickResult(current, pool, maxPer)
  {
    var sc := VisitAll(Prune(current, pool), pool, maxPer);
    ScanFits(Prune(current, pool), pool, maxPer);
    if sc.bestID != "" {
      ChargeWraps(sc.bestCur, sc.total);
      WrapExact(sc.bestCur - sc.total);
    }
  }

  function MachinePlay(current: Credits, calls: seq<Call>): (Credits, seq<string>) {
    if calls == [] then (current, [])
    else
      var n := |calls| - 1;
      var (c, ids) := MachinePlay(current, calls[..n]);
      var (c', id) := MachinePick(c, calls[n].pool, calls[n].maxPer);
      (c', ids + [id])
  }

  /** The weights leave room for every credit: (W-1)(n-1) + W is below 2^63. */
  ghost predicate Roomy(e: Credits) {
    Ceiling(e) + Total(e) < HALF
  }

  lemma CeilingIsNatural(e: Credits)
    requires WeightMap(e)
    ensures Ceiling(e) >= 0 && forall x :: x in e ==> 1 <= e[x] <= Total(e)
  {
    forall x | x in e ensures 1 <= e[x] <= Total(e) {
      SumRemove(e.Keys, e, x);
      SumAtLeast(e.Keys - {x}, e, 0);
    }
    var x :| x in e;
    assert e.Keys != {} && |e.Keys| >= 1;
    NoNegative(Total(e) - 1, |e.Keys| - 1);
  }

  lemma NoNegative(a: int, b: int)
    requires a >= 0 && b >= 0
    ensures a * b >= 0
  {
  }

  /** One pick with credits inside the bounds of exact arithmetic. */
  lemma RoomyPick(c: Credits, call: Call, e: Credits)
    requires ValidPool(call.pool) && Weights(call.pool, call.maxPer) == e && WeightMap(e) && Roomy(e)
    requires Sum(e.Keys, c) == 0 && forall x :: x in e ==> -Total(e) < Get(c, x) <= Ceiling(e)
    ensures MachinePick(c, call.pool, call.maxPer) == PickResult(c, call.pool, call.maxPer)
  {
    CeilingIsNatural(e);
    EligibleKept(c, call);
    SteadyPick(c, call, e);
    PickFits(c, call.pool, call.maxPer);
  }

  /**
   From zero credits, with the same eligible upstreams at every call and weights that
   leave room, the machine makes the same picks as exact arithmetic for ever.
   */
  lemma {:induction false} MachineIsExact(current: Credits, calls: seq<Call>, e: Credits)
    requires Steady(calls, e) && WeightMap(e) && Roomy(e)
    requires forall x :: x in e ==> Get(current, x) == 0
    ensures MachinePlay(current, calls) == Play(current, calls)
  {
    if calls != [] {
      var n := |calls| - 1;
      MachineIsExact(current, calls[..n], e);
      var c := Play(current, calls[..n]).0;
      forall x | x in e ensures Sum(e.Keys, c) == 0 && -Total(e) < Get(c, x) <= Ceiling(e) {
        CreditBounds(current, calls[..n], e, x);
      }
      RoomyPick(c, calls[n], e);
    }
  }

  /** Exact fairness, for the arithmetic of the code. */
  lemma MachineShare(current: Credits, calls: seq<Call>, e: Credits, cycles: nat, x: string)
    requires Steady(calls, e) && WeightMap(e) && Roomy(e) && x in e
    requires forall y :: y in e ==> Get(current, y) == 0
    requires |calls| == cycles * Total(e)
    ensures var (c, ids) := MachinePlay(current, calls);
            Get(c, x) == 0 && Count(ids, x) == cycles * e[x]
  {
    MachineIsExact(current, calls, e);
    ExactShare(current, calls, e, cycles, x);
  }

  // --- Conservation, for any weights -----------------------------------------------

  /** Values that differ by multiples of 2^64 have sums that do. */
  lemma {:induction false} SumWraps(s: set<string>, r: Credits, m: Credits) returns (q: int)
    requires forall x :: x in s ==> Congruent(Get(r, x), Get(m, x))
    ensures WrapsBy(Sum(s, r), Sum(s, m), q)
    decreases |s|
  {
    q := 0;
    if s != {} {
      var x :| x in s;
      SumRemove(s, r, x);
      SumRemove(s, m, x);
      var rest := SumWraps(s - {x}, r, m);
      var p :| WrapsBy(Get(r, x), Get(m, x), p);
      q := rest + p;
    }
  }

  lemma {:induction false} MachineTotal(current: Credits, pool: seq<Snapshot>, maxPer: int)
    requires ValidPool(pool)
    ensures MachineScan(current, pool, maxPer).total == Wrap(Total(Weights(pool, maxPer)))
  {
    if pool == [] {
      WrapExact(0);
    } else {
      var init, last := pool[..|pool| - 1], pool[|pool| - 1];
      MachineTotal(current, init, maxPer);
      LastIsNew(pool, maxPer);
      SumNewKey(Weights(init, maxPer), last.id, WeightOf(last));
      WrapAdd(Total(Weights(init, maxPer)), WeightOf(last));
    }
  }

  /** What the machine's scan finds best has the credit it says, and it finds one if any is eligible. */
  lemma {:induction false} MachineBest(current: Credits, pool: seq<Snapshot>, maxPer: int)
    requires ValidPool(pool)
    ensures var sc, e := MachineScan(current, pool, maxPer), Weights(pool, maxPer);
            && sc.current.Keys == current.Keys + e.Keys
            && (sc.bestID == "" <==> e == map[])
            && (sc.bestID != "" ==> sc.bestID in e && sc.bestCur == Get(sc.current, sc.bestID))
  {
    if pool != [] {
      MachineBest(current, pool[..|pool| - 1], maxPer);
      LastIsNew(pool, maxPer);
    }
  }

  /** What a pick makes of a stored credit. */
  function AfterCharge(stored: int, total: int, chosen: bool): int {
    if chosen then Wrap(stored - total) else stored
  }

  lemma MachineCharges(current: Credits, pool: seq<Snapshot>, maxPer: int, x: string)
    requires ValidPool(pool)
    ensures var sc, (after, id) := MachineScan(Prune(current, pool), pool, maxPer), MachinePick(current, pool, maxPer);
            Get(after, x) == AfterCharge(Get(sc.current, x), sc.total, x == id && id != "")
  {
    MachineBest(Prune(current, pool), pool, maxPer);
  }

  /** A charge of wrapped values gives the wrapped value of the exact charge. */
  lemma CongruentCharge(stored: int, exact: int, t: int, total: int, chosen: bool)
    requires Congruent(stored, exact) && Congruent(t, total)
    ensures Congruent(AfterCharge(stored, t, chosen), exact - if chosen then total else 0)
  {
    var p :| WrapsBy(stored, exact, p);
    var q :| WrapsBy(t, total, q);
    if chosen {
      var r := WrapBy(stored - t);
      assert WrapsBy(Wrap(stored - t), exact - total, p - q + r);
    }
  }

  lemma ScanCongruent(current: Credits, pool: seq<Snapshot>, maxPer: int, x: string)
    requires ValidPool(pool)
    ensures var sc, e := MachineScan(current, pool, maxPer), Weights(pool, maxPer);
            Congruent(Get(sc.current, x), Get(current, x) + Get(e, x)) && Congruent(sc.total, Total(e))
  {
    ScanWraps(current, pool, maxPer, x);
    MachineTotal(current, pool, maxPer);
    var exact := Get(current, x) + Get(Weights(pool, maxPer), x);
    var p := WrapBy(exact);
    var q := WrapBy(Total(Weights(pool, maxPer)));
    assert WrapsBy(exact, exact, 0);
  }

  /** Every credit after a machine pick is, wrapped, what it was plus its weight, less the total for the chosen ID. */
  lemma MachinePickMeans(current: Credits, pool: seq<Snapshot>, maxPer: int, x: string)
    requires ValidPool(pool)
    ensures var e, kept, (after, id) := Weights(pool, maxPer), Prune(current, pool), MachinePick(current, pool, maxPer);
            Congruent(Get(after, x), Get(kept, x) + Get(e, x) - Charge(e, id, x))
  {
    var e, kept, id := Weights(pool, maxPer), Prune(current, pool), MachinePick(current, pool, maxPer).1;
    var sc := MachineScan(kept, pool, maxPer);
    MachineCharges(current, pool, maxPer, x);
    ScanCongruent(kept, pool, maxPer, x);
    CongruentCharge(Get(sc.current, x), Get(kept, x) + Get(e, x), sc.total, Total(e), x == id && id != "");
  }

  /** Which keys a machine pick leaves, and whom it may choose. */
  lemma MachinePickKeys(current: Credits, pool: seq<Snapshot>, maxPer: int)
    requires ValidPool(pool)
    ensures var e, kept, (after, id) := Weights(pool, maxPer), Prune(current, pool), MachinePick(current, pool, maxPer);
            after.Keys == kept.Keys + e.Keys && if id == "" then e == map[] else id in e
  {
    MachineBest(Prune(current, pool), pool, maxPer);
  }

  /** The credits of an exact pick that charges `id`. */
  function Charged(kept: Credits, e: Credits, id: string, total: int): Credits {
    map x | x in kept.Keys + e.Keys :: Get(kept, x) + Get(e, x) - (if x == id && id != "" then total else 0)
  }

  /** Whoever is charged, the charge takes away what the gains added. */
  lemma ChargedTotal(kept: Credits, e: Credits, id: string)
    requires if id == "" then e == map[] else id in e
    ensures Total(Charged(kept, e, id, Total(e))) == Total(kept)
  {
    var all := kept.Keys + e.Keys;
    var gained := map x | x in all :: Get(kept, x) + Get(e, x);
    var charged := Charged(kept, e, id, Total(e));
    assert charged.Keys == gained.Keys == all;
    SumAdd(all, kept, e, gained);
    SumOver(all, kept);
    SumOver(all, e);
    if id == "" {
      SumSame(all, gained, charged);
    } else {
      var less := gained[id := gained[id] - Total(e)];
      SumUpdate(all, gained, id, gained[id] - Total(e));
      assert forall x :: x in all ==> Get(charged, x) == Get(less, x);
      SumSame(all, less, charged);
    }
  }

  /**
   Credit conservation for the machine, for any weights: a pick changes the sum of all
   credits by the credits it prunes, up to a multiple of 2^64.
   */
  lemma MachineConserves(current: Credits, pool: seq<Snapshot>, maxPer: int) returns (q: int)
    requires ValidPool(pool)
    ensures WrapsBy(Total(MachinePick(current, pool, maxPer).0), Total(current) - Sum(current.Keys - Ids(pool), current), q)
  {
    var e, kept := Weights(pool, maxPer), Prune(current, pool);
    var (after, id) := MachinePick(current, pool, maxPer);
    var charged := Charged(kept, e, id, Total(e));
    MachinePickKeys(current, pool, maxPer);
    forall x | x in after ensures Congruent(Get(after, x), Get(charged, x)) {
      MachinePickMeans(current, pool, maxPer, x);
    }
    q := SumWraps(after.Keys, after, charged);
    assert after.Keys == charged.Keys;
    ChargedTotal(kept, e, id);
    PruneRemoves(current, pool);
  }

  /** While the pool keeps the same IDs, the sum of the machine's credits never changes, up to a multiple of 2^64. */
  lemma {:induction false} MachinePlayConserves(current: Credits, calls: seq<Call>, ids: set<string>) returns (q: int)
    requires forall i :: 0 <= i < |calls| ==> ValidPool(calls[i].pool) && Ids(calls[i].pool) == ids
    requires current.Keys <= ids
    ensures MachinePlay(current, calls).0.Keys <= ids
    ensures WrapsBy(Total(MachinePlay(current, calls).0), Total(current), q)
  {
    q := 0;
    if calls != [] {
      var n := |calls| - 1;
      var before := MachinePlayConserves(current, calls[..n], ids);
      var c, call := MachinePlay(current, calls[..n]).0, calls[n];
      var more := MachineConserves(c, call.pool, call.maxPer);
      assert c.Keys - ids == {};
      MachinePickKeys(c, call.pool, call.maxPer);
      forall x | x in Weights(call.pool, call.maxPer) ensures x in ids {
        WeightsMean(call.pool, call.maxPer, x);
      }
      q := before + more;
    }
  }

  // --- Two upstreams of the same weight ------------------------------------------

  /** Two eligible upstreams of weight `w`. */
  ghost predicate Twins(pool: seq<Snapshot>, maxPer: int, w: int) {
    && |pool| == 2 && ValidPool(pool) && 1 <= w < HALF
    && (forall i :: 0 <= i < 2 ==> Eligible(pool[i], maxPer) && pool[i].weight == w)
  }

  lemma TwinScan(c: Credits, pool: seq<Snapshot>, maxPer: int, w: int)
    requires Twins(pool, maxPer, w)
    ensures var a, b := Wrap(Get(c, pool[0].id) + w), Wrap(Get(c, pool[1].id) + w);
            MachineScan(c, pool, maxPer) ==
            Scan(c[pool[0].id := a][pool[1].id := b], Wrap(2 * w),
                 if b > a then pool[1].id else pool[0].id, if b > a then b else a)
  {
    var one := pool[..1];
    assert pool[..2] == pool && one[..0] == [] && pool[..|pool| - 1] == one;
    WrapAdd(w, w);
    assert MachineScan(c, one, maxPer) == MachineVisit(Scan(c, 0, "", 0), pool[0], maxPer);
  }

  lemma TwinsFirst(pool: seq<Snapshot>, maxPer: int, w: int)
    requires Twins(pool, maxPer, w)
    ensures MachinePick(map[], pool, maxPer) == (map[pool[0].id := -w, pool[1].id := w], pool[0].id)
  {
    WrapExact(w);
    WrapExact(-w);
    ChargeWraps(w, 2 * w);
    TwinScan(map[], pool, maxPer, w);
    assert Prune(map[], pool) == map[];
    assert map[pool[0].id := w, pool[1].id := w][pool[0].id := -w] == map[pool[0].id := -w, pool[1].id := w];
  }

  lemma TwinsSecond(c: Credits, pool: seq<Snapshot>, maxPer: int, w: int)
    requires Twins(pool, maxPer, w) && c == map[pool[0].id := -w, pool[1].id := w]
    ensures MachinePick(c, pool, maxPer).1 == if Wrap(2 * w) > 0 then pool[1].id else pool[0].id
  {
    assert pool[0] in pool && pool[1] in pool;
    assert Prune(c, pool) == c;
    TwinScan(c, pool, maxPer, w);
    WrapExact(0);
  }

  lemma DoubleFits(w: int)
    requires 1 <= w < HALF
    ensures Wrap(2 * w) > 0 <==> 2 * w < HALF
  {
    WrapExact(2 * w);
    if 2 * w >= HALF {
      OnlyOne(2 * w - FULL, 2 * w, 1);
    }
  }

  /**
   Where it goes wrong: two upstreams of the same weight take turns if and only if
   the weight is below 2^62; otherwise the first one is picked twice in a row.
   */
  lemma TwinsTakeTurnsIff(pool: seq<Snapshot>, maxPer: int, w: int)
    requires Twins(pool, maxPer, w)
    ensures var (c, first) := MachinePick(map[], pool, maxPer);
            var second := MachinePick(c, pool, maxPer).1;
            && first == pool[0].id
            && (if 2 * w < HALF then second == pool[1].id else second == pool[0].id)
  {
    TwinsFirst(pool, maxPer, w);
    TwinsSecond(MachinePick(map[], pool, maxPer).0, pool, maxPer, w);
    DoubleFits(w);
  }
}
