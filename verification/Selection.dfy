/** What every selector of internal/strategy sees: snapshots of the pool. */
module Selection {

  /** The fields of `upstream.Snapshot` that the modelled selectors read. */
  datatype Snapshot = Snapshot(id: string, weight: int, active: int, healthy: bool)

  predicate Eligible(u: Snapshot, maxPer: int) {
    u.healthy && u.active < maxPer
  }

  /** A weight that is not positive counts as one. */
  function WeightOf(u: Snapshot): (w: int)
    ensures w >= 1
  {
    if u.weight <= 0 then 1 else u.weight
  }

  /**
   What every selector promises: it returns the ID of a healthy upstream below the
   cap, and nothing only when there is none.
   */
  ghost predicate IsHealthyPick(pool: seq<Snapshot>, maxPer: int, id: string) {
    && (id == "" <==> forall k :: 0 <= k < |pool| ==> !(pool[k].healthy && pool[k].active < maxPer))
    && (id != "" ==> exists k :: 0 <= k < |pool| && pool[k].id == id && pool[k].healthy && pool[k].active < maxPer)
  }

  /** What `setUpstreams` establishes: IDs are non-empty and unique. */
  ghost predicate ValidPool(pool: seq<Snapshot>) {
    && (forall i :: 0 <= i < |pool| ==> pool[i].id != "")
    && (forall i, j :: 0 <= i < j < |pool| ==> pool[i].id != pool[j].id)
  }
}
