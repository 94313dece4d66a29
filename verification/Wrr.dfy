/**
 Smooth weighted round-robin (internal/strategy/wrr.go).

 `WRRSelector.Pick` keeps a credit per upstream ID. One pick drops the credits of
 IDs that left the pool, adds its weight to the credit of every eligible
 upstream, and charges the richest one the total weight added.

 `PickResult` is a pick in exact arithmetic, which is what WrrFairness is about;
 `MachinePick` is the pick of the code, whose int64 additions wrap around.
 WrrMachine says when the two are the same.
 */
module Wrr {
  import Int64
  import opened Selection
  import opened Sums

  function Ids(pool: seq<Snapshot>): set<string> {
    set u | u in pool :: u.id
  }

  function Prune(current: Credits, pool: seq<Snapshot>): Credits {
    map id | id in current && id in Ids(pool) :: current[id]
  }

  /** The local variables of the scan. */
  datatype Scan = Scan(current: Credits, total: int, bestID: string, bestCur: int)

  function Visit(sc: Scan, u: Snapshot, maxPer: int): Scan {
    if !Eligible(u, maxPer) then sc
    else
      var cur := Get(sc.current, u.id) + WeightOf(u);
      var better := sc.bestID == "" || cur > sc.bestCur;
      Scan(sc.current[u.id := cur],
           sc.total + WeightOf(u),
           if better then u.id else sc.bestID,
           if better then cur else sc.bestCur)
  }

  function VisitAll(current: Credits, pool: seq<Snapshot>, maxPer: int): Scan {
    if pool == [] then Scan(current, 0, "", 0)
    else Visit(VisitAll(current, pool[..|pool| - 1], maxPer), pool[|pool| - 1], maxPer)
  }

  /** The credits after a pick and the ID picked. */
  function PickResult(current: Credits, pool: seq<Snapshot>, maxPer: int): (Credits, string) {
    var sc := VisitAll(Prune(current, pool), pool, maxPer);
    if sc.bestID == "" then (sc.current, "")
    else (sc.current[sc.bestID := sc.bestCur - sc.total], sc.bestID)
  }

  function MachineVisit(sc: Scan, u: Snapshot, maxPer: int): Scan {
    if !Eligible(u, maxPer) then sc
    else
      var cur := Int64.Wrap(Get(sc.current, u.id) + WeightOf(u));
      var better := sc.bestID == "" || cur > sc.bestCur;
      Scan(sc.current[u.id := cur],
           Int64.Wrap(sc.total + WeightOf(u)),
           if better then u.id else sc.bestID,
           if better then cur else sc.bestCur)
  }

  function MachineScan(current: Credits, pool: seq<Snapshot>, maxPer: int): Scan {
    if pool == [] then Scan(current, 0, "", 0)
    else MachineVisit(MachineScan(current, pool[..|pool| - 1], maxPer), pool[|pool| - 1], maxPer)
  }

  function MachinePick(current: Credits, pool: seq<Snapshot>, maxPer: int): (Credits, string) {
    var sc := MachineScan(Prune(current, pool), pool, maxPer);
    if sc.bestID == "" then (sc.current, "")
    else (sc.current[sc.bestID := Int64.Wrap(sc.bestCur - sc.total)], sc.bestID)
  }

  lemma {:induction false} MachineScanFinds(current: Credits, pool: seq<Snapshot>, maxPer: int)
    requires ValidPool(pool)
    ensures IsHealthyPick(pool, maxPer, MachineScan(current, pool, maxPer).bestID)
  {
    if pool != [] {
      var n := |pool| - 1;
      MachineScanFinds(current, pool[..n], maxPer);
      assert forall i :: 0 <= i < n ==> pool[i] == pool[..n][i];
      var before := MachineScan(current, pool[..n], maxPer).bestID;
      if before != "" {
        var k :| 0 <= k < n && pool[..n][k].id == before && pool[..n][k].healthy && pool[..n][k].active < maxPer;
        assert pool[k].id == before;
      }
    }
  }

  class WRRSelector {
    var current: Credits

    constructor ()
      ensures current == map[]
    {
      current := map[];
    }

    /** Deletes the keys that are not IDs of the pool, in any order. */
    method DropStale(pool: seq<Snapshot>)
      modifies this
      ensures current == Prune(old(current), pool)
    {
      if |current| > 0 {
        var active: set<string> := {};
        for i := 0 to |pool|
          invariant active == Ids(pool[..i])
        {
          active := active + {pool[i].id};
          assert pool[..i + 1] == pool[..i] + [pool[i]];
        }
        assert pool[..|pool|] == pool;

        var todo := current.Keys;
        while todo != {}
          invariant todo <= old(current).Keys
          invariant current == map id | id in old(current) && (id in todo || id in active) :: old(current)[id]
        {
          var id :| id in todo;
          todo := todo - {id};
          if id !in active {
            current := current - {id};
          }
        }
      }
    }

    /** The body of the scan. */
    method Look(u: Snapshot, maxPer: int, total0: int, bestID0: string, bestCur0: int)
      returns (total: int, bestID: string, bestCur: int)
      modifies this
      ensures Scan(current, total, bestID, bestCur) == MachineVisit(Scan(old(current), total0, bestID0, bestCur0), u, maxPer)
      ensures !(u.healthy && u.active < maxPer) ==>
                unchanged(this) && total == total0 && bestID == bestID0 && bestCur == bestCur0
      ensures u.healthy && u.active < maxPer ==>
                var w := if u.weight > 0 then u.weight else 1;
                && total == Int64.Wrap(total0 + w) && u.id in current
                && current == old(current)[u.id := Int64.Wrap(Get(old(current), u.id) + w)]
                && bestID == (if bestID0 == "" || current[u.id] > bestCur0 then u.id else bestID0)
                && bestCur == (if bestID0 == "" || current[u.id] > bestCur0 then current[u.id] else bestCur0)
    {
      total, bestID, bestCur := total0, bestID0, bestCur0;
      if !u.healthy || u.active >= maxPer {
        return;
      }
      var w := u.weight;
      if w <= 0 {
        w := 1;
      }
      var cur := Int64.Wrap(Get(current, u.id) + w);
      current := current[u.id := cur];
      total := Int64.Wrap(total + w);
      if bestID == "" || cur > bestCur {
        bestID := u.id;
        bestCur := cur;
      }
    }

    method Pick(pool: seq<Snapshot>, maxPer: int) returns (id: string)
      modifies this
      ensures (current, id) == MachinePick(old(current), pool, maxPer)
      ensures ValidPool(pool) ==> IsHealthyPick(pool, maxPer, id)
    {
      DropStale(pool);
      ghost var pruned := current;

      var total := 0;
      var bestID := "";
      var bestCur := 0;
      for i := 0 to |pool|
        invariant Scan(current, total, bestID, bestCur) == MachineScan(pruned, pool[..i], maxPer)
      {
        assert pool[..i + 1][..i] == pool[..i];
        total, bestID, bestCur := Look(pool[i], maxPer, total, bestID, bestCur);
      }
      assert pool[..|pool|] == pool;
      if ValidPool(pool) {
        MachineScanFinds(pruned, pool, maxPer);
      }
      if bestID == "" {
        return "";
      }
      current := current[bestID := Int64.Wrap(bestCur - total)];
      return bestID;
    }
  }
}
