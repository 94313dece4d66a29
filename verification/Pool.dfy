/**
 The upstream pool and its hot reload (`setUpstreams` in
 internal/balancer/balancer.go): new upstream objects take over the runtime state
 of the old ones with the same ID.
 */
module Pool {
  import opened Common
  import opened StableSort
  import Upstream

  /** `upstream.Upstream`. */
  class Backend {
    var id: string
    const addr: string
    const priority: int
    var state: Upstream.State?

    constructor (id: string, addr: string, priority: int, state: Upstream.State?)
      ensures this.id == id && this.addr == addr && this.priority == priority && this.state == state
    {
      this.id, this.addr, this.priority, this.state := id, addr, priority, state;
    }
  }

  function Priority(u: Backend): int {
    u.priority
  }

  /** `NormalizeID`; `derive` stands for the digest of the address. */
  function Normal(id: string, addr: string, derive: string -> string): string {
    if id != "" then id else derive(addr)
  }

  // --- Generations of the pool ----------------------------------------------

  /** A successful reload: the IDs of its upstreams, and the states built for the new ones. */
  datatype Reload<S> = Reload(ids: set<string>, own: map<string, S>)

  /** The states of the next pool: kept for IDs that stay, `own` for new ones. */
  function Reconcile<S>(before: map<string, S>, r: Reload<S>): map<string, S> {
    map id | id in r.ids && (id in before || id in r.own) :: if id in before then before[id] else r.own[id]
  }

  lemma ReconcileByKey<S>(before: map<string, S>, after: map<string, S>, r: Reload<S>)
    requires after.Keys == r.ids && r.own.Keys == r.ids - before.Keys
    requires forall id :: id in after ==> after[id] == if id in before then before[id] else r.own[id]
    ensures after == Reconcile(before, r)
  {
  }

  /** The pool after the first `k` reloads. */
  function Generation<S>(rs: seq<Reload<S>>, k: nat): map<string, S>
    requires k <= |rs|
  {
    if k == 0 then map[] else Reconcile(Generation(rs, k - 1), rs[k - 1])
  }

  ghost predicate Injective<S>(m: map<string, S>) {
    forall x, y :: x in m && y in m && m[x] == m[y] ==> x == y
  }

  /** Every reload builds its own states: none occurs twice, in one reload or in two. */
  ghost predicate BuiltFresh<S>(rs: seq<Reload<S>>) {
    && (forall i :: 0 <= i < |rs| ==> Injective(rs[i].own))
    && (forall i, j :: 0 <= i < j < |rs| ==> rs[i].own.Values !! rs[j].own.Values)
  }

  lemma {:induction false} GenerationAppend<S>(rs: seq<Reload<S>>, r: Reload<S>, k: nat)
    requires k <= |rs|
    ensures Generation(rs + [r], k) == Generation(rs, k)
  {
    if k > 0 {
      GenerationAppend(rs, r, k - 1);
    }
  }

  /** `used` has every state the reloads built, and none was built twice. */
  ghost predicate Recorded<S>(rs: seq<Reload<S>>, used: set<S>) {
    BuiltFresh(rs) && forall i :: 0 <= i < |rs| ==> rs[i].own.Values <= used
  }

  lemma Record<S>(rs: seq<Reload<S>>, used: set<S>, r: Reload<S>)
    requires Recorded(rs, used) && r.own.Values !! used && Injective(r.own)
    ensures Recorded(rs + [r], used + r.own.Values)
    ensures Generation(rs + [r], |rs| + 1) == Reconcile(Generation(rs, |rs|), r)
  {
    GenerationAppend(rs, r, |rs|);
  }

  /** Two generations' states are the same only if one reload built them for one ID. */
  lemma BuiltOnce<S>(rs: seq<Reload<S>>, i: nat, j: nat, x: string, y: string)
    requires BuiltFresh(rs) && i < |rs| && j < |rs|
    requires x in rs[i].own && y in rs[j].own && rs[i].own[x] == rs[j].own[y]
    ensures i == j && x == y
  {
    assert rs[i].own[x] in rs[i].own.Values && rs[j].own[y] in rs[j].own.Values;
  }

  /** The reload that built the state `id` has in generation `k`. */
  function Birth<S>(rs: seq<Reload<S>>, k: nat, id: string): (b: nat)
    requires k <= |rs| && id in Generation(rs, k)
    ensures b < k && id in rs[b].own && Generation(rs, k)[id] == rs[b].own[id]
  {
    if id in Generation(rs, k - 1) then Birth(rs, k - 1, id) else k - 1
  }

  /** `id` is in every generation from `i` to `j`. */
  ghost predicate Throughout<S>(rs: seq<Reload<S>>, i: nat, j: nat, id: string)
    requires i <= j <= |rs|
  {
    forall k :: i <= k <= j ==> id in Generation(rs, k)
  }

  lemma {:induction false} BirthThroughout<S>(rs: seq<Reload<S>>, i: nat, j: nat, id: string)
    requires i <= j <= |rs| && id in Generation(rs, i) && id in Generation(rs, j)
    ensures Throughout(rs, i, j, id) <==> Birth(rs, i, id) == Birth(rs, j, id)
    ensures !Throughout(rs, i, j, id) ==> Birth(rs, j, id) >= i
    decreases j
  {
    if i < j {
      if id in Generation(rs, j - 1) {
        BirthThroughout(rs, i, j - 1, id);
        if Throughout(rs, i, j - 1, id) {
          assert Throughout(rs, i, j, id);
        }
      } else {
        assert !Throughout(rs, i, j, id);
      }
    }
  }

  /**
   Over any sequence of reloads a state never changes hands: if two generations
   show the same state, it is under the same ID.
   */
  lemma StateNeverShared<S>(rs: seq<Reload<S>>, i: nat, j: nat, x: string, y: string)
    requires BuiltFresh(rs) && i <= |rs| && j <= |rs|
    requires x in Generation(rs, i) && y in Generation(rs, j)
    requires Generation(rs, i)[x] == Generation(rs, j)[y]
    ensures x == y
  {
    var b, c := Birth(rs, i, x), Birth(rs, j, y);
    BuiltOnce(rs, b, c, x, y);
  }

  /**
   An ID keeps its state exactly as long as it stays: two generations give it the
   same state if and only if it was in every generation between them.
   */
  lemma StateKeptIff<S>(rs: seq<Reload<S>>, i: nat, j: nat, id: string)
    requires BuiltFresh(rs) && i <= j <= |rs|
    requires id in Generation(rs, i) && id in Generation(rs, j)
    ensures Generation(rs, i)[id] == Generation(rs, j)[id] <==> Throughout(rs, i, j, id)
  {
    BirthThroughout(rs, i, j, id);
    var b, c := Birth(rs, i, id), Birth(rs, j, id);
    if rs[b].own[id] == rs[c].own[id] {
      BuiltOnce(rs, b, c, id, id);
    }
  }

  /** No two places of `ups` carry the same ID. */
  ghost predicate UniqueIds(ups: seq<Backend>)
    reads ups
  {
    forall i, j :: 0 <= i < j < |ups| ==> ups[i].id != ups[j].id
  }

  lemma {:induction false} CountAtMostOne<T>(s: seq<T>)
    requires Distinct(s)
    ensures forall x :: multiset(s)[x] <= 1
  {
    if s != [] {
      assert s == [s[0]] + s[1..];
      CountAtMostOne(s[1..]);
      assert s[0] !in s[1..];
    }
  }

  /** Sorting moves upstreams only, so their IDs stay unique. */
  lemma SameElements(sorted: seq<Backend>, ups: seq<Backend>)
    requires multiset(sorted) == multiset(ups) && UniqueIds(ups)
    ensures UniqueIds(sorted)
    ensures forall u :: u in sorted <==> u in ups
    ensures forall i :: 0 <= i < |sorted| ==> sorted[i] in ups
  {
    CountAtMostOne(ups);
    forall u ensures u in sorted <==> u in ups {
      assert u in sorted <==> u in multiset(sorted);
    }
    forall i, j | 0 <= i < j < |sorted| ensures sorted[i].id != sorted[j].id {
      assert sorted == sorted[..i] + [sorted[i]] + sorted[i + 1..j] + [sorted[j]] + sorted[j + 1..];
      assert multiset(sorted)[sorted[i]] <= 1;
      assert sorted[i] in ups && sorted[j] in ups;
    }
  }

  /** The upstreams of priority `k`, in their order in `s`. */
  ghost function OfPriority(s: seq<Backend>, k: int): seq<Backend> {
    if s == [] then [] else (if s[0].priority == k then [s[0]] else []) + OfPriority(s[1..], k)
  }

  lemma {:induction false} OfPriorityIs(s: seq<Backend>, k: int)
    ensures OfKey(s, Priority, k) == OfPriority(s, k)
  {
    if s != [] {
      OfPriorityIs(s[1..], k);
    }
  }

  /** `sorted` is `ups` by priority, upstreams of the same priority in their old order. */
  ghost predicate ByPriority(sorted: seq<Backend>, ups: seq<Backend>) {
    && (forall i, j :: 0 <= i < j < |sorted| ==> sorted[i].priority <= sorted[j].priority)
    && (forall k :: OfPriority(sorted, k) == OfPriority(ups, k))
  }

  lemma StableMeansByPriority(sorted: seq<Backend>, ups: seq<Backend>)
    requires IsStableSort(sorted, ups, Priority)
    ensures ByPriority(sorted, ups)
  {
    forall i, j | 0 <= i < j < |sorted| ensures sorted[i].priority <= sorted[j].priority {
      assert Priority(sorted[i]) <= Priority(sorted[j]);
    }
    forall k ensures OfPriority(sorted, k) == OfPriority(ups, k) {
      assert SameAt(sorted, ups, Priority, k);
      OfPriorityIs(sorted, k);
      OfPriorityIs(ups, k);
    }
  }

  // --- The pool in place ------------------------------------------------------

  ghost predicate HaveStates(idx: map<string, Backend>)
    reads idx.Values
  {
    forall id :: id in idx ==> idx[id].state != null
  }

  ghost function StatesOf(idx: map<string, Backend>): map<string, Upstream.State>
    reads idx.Values
    requires HaveStates(idx)
  {
    map id | id in idx :: idx[id].state
  }

  class Balancer {
    var upstreams: seq<Backend>
    var byID: map<string, Backend>

    /** The list and the index hold the same upstreams, each under its ID and with a state. */
    ghost predicate Valid()
      reads this, upstreams, byID.Values
    {
      && HaveStates(byID)
      && (forall id :: id in byID ==> id != "" && byID[id].id == id && byID[id] in upstreams)
      && (forall u :: u in upstreams ==> u.id in byID && byID[u.id] == u)
    }

    /** The runtime state of each ID. */
    ghost function States(): map<string, Upstream.State>
      reads this, byID.Values
      requires HaveStates(byID)
    {
      StatesOf(byID)
    }

    constructor ()
      ensures Valid() && upstreams == [] && byID == map[]
    {
      upstreams, byID := [], map[];
    }

    /** `NormalizeID` on every upstream. */
    static method NormalizeAll(ups: seq<Backend>, derive: string -> string)
      modifies ups`id
      ensures forall u :: u in ups ==> u.id == Normal(old(u.id), u.addr, derive)
      ensures forall u :: u in ups ==> u.id == if old(u.id) == "" then derive(u.addr) else old(u.id)
    {
      for k := 0 to |ups|
        invariant forall i :: 0 <= i < k ==> ups[i].id == Normal(old(ups[i].id), ups[i].addr, derive)
        invariant forall i :: k <= i < |ups| ==>
          ups[i].id == old(ups[i].id) || ups[i].id == Normal(old(ups[i].id), ups[i].addr, derive)
      {
        if ups[k].id == "" {
          ups[k].id := derive(ups[k].addr);
        }
      }
    }

    static method HasDuplicate(ups: seq<Backend>) returns (dup: bool)
      ensures dup <==> !UniqueIds(ups)
    {
      var seen: set<string> := {};
      for k := 0 to |ups|
        invariant seen == set i | 0 <= i < k :: ups[i].id
        invariant forall i, j :: 0 <= i < j < k ==> ups[i].id != ups[j].id
      {
        if ups[k].id in seen {
          return true;
        }
        seen := seen + {ups[k].id};
      }
      return false;
    }

    /** `u` has the state its ID had in the old pool, or else the one it came with, or a new one. */
    method AdoptState(u: Backend)
      requires Valid()
      modifies u`state
      ensures forall id :: id in byID ==> byID[id].state == old(byID[id].state)
      ensures u.state != null
      ensures u.id in byID ==> u.state == byID[u.id].state
      ensures u.id !in byID ==> if old(u.state) == null then fresh(u.state) else u.state == old(u.state)
    {
      if u.id in byID && byID[u.id].state != null {
        u.state := byID[u.id].state;
      }
      if u.state == null {
        u.state := new Upstream.State();
      }
    }

    /** The loop that hands states over and builds the new index. */
    method Adopt(sorted: seq<Backend>, ghost all: set<Backend>) returns (idx: map<string, Backend>)
      requires Valid() && UniqueIds(sorted)
      requires forall i :: 0 <= i < |sorted| ==> sorted[i] in all
      modifies all`state
      ensures forall id :: id in byID ==> byID[id].state == old(byID[id].state)
      ensures forall id :: id in idx ==> idx[id] in sorted && idx[id].id == id
      ensures forall u :: u in sorted ==> u.id in idx && idx[u.id] == u && u.state != null
      ensures forall u :: u in sorted && u.id in byID ==> u.state == byID[u.id].state
      ensures forall u :: u in sorted && u.id !in byID ==>
                if old(u.state) == null then fresh(u.state) else u.state == old(u.state)
    {
      idx := map[];
      for k := 0 to |sorted|
        invariant forall id :: id in byID ==> byID[id].state == old(byID[id].state)
        invariant forall i :: k <= i < |sorted| ==> sorted[i].state == old(sorted[i].state)
        invariant forall id :: id in idx ==> idx[id] in sorted && idx[id].id == id
        invariant forall i :: 0 <= i < k ==>
          var u := sorted[i];
          && u.id in idx && idx[u.id] == u && u.state != null
          && (u.id in byID ==> u.state == byID[u.id].state)
          && (u.id !in byID ==> if old(u.state) == null then fresh(u.state) else u.state == old(u.state))
      {
        var u := sorted[k];
        AdoptState(u);
        idx := idx[u.id := u];
      }
    }

    /** `sort.SliceStable` on a copy of the slice. */
    static method SortByPriority(ups: seq<Backend>) returns (sorted: seq<Backend>)
      requires UniqueIds(ups)
      ensures IsStableSort(sorted, ups, Priority) && ByPriority(sorted, ups)
      ensures UniqueIds(sorted)
      ensures forall u :: u in sorted <==> u in ups
      ensures forall i :: 0 <= i < |sorted| ==> sorted[i] in ups
    {
      sorted := StableSorted(ups, Priority);
      StableSortedIsStable(ups, Priority);
      StableMeansByPriority(sorted, ups);
      SameElements(sorted, ups);
    }

    /** The second half of `setUpstreams`, once the IDs are known to be unique. */
    method Install(ups: seq<Backend>)
      requires Valid() && UniqueIds(ups) && forall u :: u in ups ==> u.id != ""
      modifies this, (set u | u in ups)`state
      ensures Valid() && IsStableSort(upstreams, ups, Priority) && ByPriority(upstreams, ups)
      ensures forall u :: u in upstreams <==> u in ups
      ensures forall id :: id in old(byID) ==> old(byID)[id].state == old(byID[id].state)
      ensures forall u :: u in ups && u.id in old(byID) ==> u.state == old(byID)[u.id].state
      ensures forall u :: u in ups && u.id !in old(byID) ==>
                if old(u.state) == null then fresh(u.state) else u.state == old(u.state)
    {
      var sorted := SortByPriority(ups);
      var idx := Adopt(sorted, set u | u in ups);
      upstreams := sorted;
      byID := idx;
    }

    /**
     `setUpstreams`. On success the pool is the stable sort of `ups`, IDs that stay
     keep their state and new ones have their own; on a duplicate ID nothing of the
     pool changes.
     */
    method SetUpstreams(ups: seq<Backend>, derive: string -> string) returns (ok: bool)
      requires Valid() && forall a :: derive(a) != ""
      modifies this, ups`id, (set u | u in ups)`state
      ensures Valid()
      ensures forall u :: u in ups ==> u.id == Normal(old(u.id), u.addr, derive)
      ensures forall u :: u in ups ==> u.id == if old(u.id) == "" then derive(u.addr) else old(u.id)
      ensures ok <==> UniqueIds(ups)
      ensures forall id :: id in old(byID) ==> old(byID)[id].state == old(byID[id].state)
      ensures !ok ==> upstreams == old(upstreams) && byID == old(byID)
      ensures !ok ==> forall u :: u in ups ==> u.state == old(u.state)
      ensures ok ==> IsStableSort(upstreams, ups, Priority) && ByPriority(upstreams, ups)
      ensures ok ==> forall u :: u in upstreams <==> u in ups
      ensures ok ==> forall u :: u in ups && u.id in old(byID) ==> u.state == old(byID)[u.id].state
      ensures ok ==> forall u :: u in ups && u.id !in old(byID) ==>
                if old(u.state) == null then fresh(u.state) else u.state == old(u.state)
    {
      NormalizeAll(ups, derive);
      var dup := HasDuplicate(ups);
      if dup {
        return false;
      }
      Install(ups);
      return true;
    }

    /** What `upstream.New` guarantees: every upstream comes with a state of its own, not seen before. */
    static ghost predicate OwnStates(ups: seq<Backend>, used: set<Upstream.State>)
      reads ups
    {
      && (forall u :: u in ups ==> u.state != null && u.state !in used)
      && (forall u, v :: u in ups && v in ups && u.state == v.state ==> u == v)
    }

    /** `SetUpstreams` as a step between generations; `used` are the states built before. */
    method Replace(ups: seq<Backend>, derive: string -> string, ghost used: set<Upstream.State>)
      returns (ok: bool, ghost r: Reload<Upstream.State>)
      requires Valid() && OwnStates(ups, used) && forall a :: derive(a) != ""
      modifies this, ups`id, (set u | u in ups)`state
      ensures Valid()
      ensures ok <==> UniqueIds(ups)
      ensures !ok ==> upstreams == old(upstreams) && byID == old(byID) && States() == old(States())
      ensures ok ==> IsStableSort(upstreams, ups, Priority) && States() == Reconcile(old(States()), r)
      ensures r.own.Values !! used && Injective(r.own)
    {
      ghost var before := States();
      r := Reload({}, map[]);
      ok := SetUpstreams(ups, derive);
      if ok {
        forall id | id in byID
          ensures byID[id] in ups
          ensures id in before ==> byID[id].state == before[id]
          ensures id !in before ==> var u := byID[id]; u.state == old(u.state)
        {
          assert byID[id] in upstreams;
        }
        r := Reload(byID.Keys, map id | id in byID && id !in before :: byID[id].state);
        ReconcileByKey(before, States(), r);
      }
    }
  }
}
