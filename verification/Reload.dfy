/**
 Hot reload of one balancer (internal/balancer/reload.go): all artefacts are built
 first and committed together, and the pool's runtime states follow their IDs over
 any number of reloads.

 The gate is the exception. It is kept in an `atomic.Value`, which takes values of
 one concrete type only: storing a gate of another type panics, when everything else
 has been committed already.

 What validation, the upstream builder and the transport factory answer is a
 parameter, and so is the session count read from the tracker.
 */
module Reload {
  import opened Common
  import opened Pool
  import opened StableSort
  import Upstream

  /** Fields a running group cannot change. */
  datatype Fixed = Fixed(listen: string, admin: string, strategy: string, hashKey: string, maxClients: int, otel: nat)

  datatype Config = Config(
    fixed: Fixed,
    backpressure: string,
    admissionWait: int,
    upstreams: seq<string>,
    others: nat)              // every other reloadable field

  predicate GateChanges(before: Config, after: Config) {
    before.backpressure != after.backpressure || before.admissionWait != after.admissionWait
  }

  /** The concrete types of gates; both ways of evicting share one. */
  datatype GateKind = Rejecting | Waiting | Evicting

  function KindOf(backpressure: string): GateKind {
    if backpressure == "wait" then Waiting
    else if backpressure == "drop-oldest" || backpressure == "drop-lowest-priority" then Evicting
    else Rejecting
  }

  /** The four ways of backpressure and their three types of gates. */
  lemma Kinds()
    ensures KindOf("reject") == Rejecting && KindOf("wait") == Waiting
    ensures KindOf("drop-oldest") == KindOf("drop-lowest-priority") == Evicting
  {
    assert "reject"[0] != "wait"[0] && "reject"[0] != "drop-oldest"[0] && "reject"[0] != "drop-lowest-priority"[0];
  }

  datatype Gate = Gate(serial: nat, kind: GateKind)

  /** The configuration a reload commits. */
  function Merged(before: Config, after: Config, activeSessions: nat): Config {
    var kept := after.(fixed := before.fixed);
    if GateChanges(before, kept) && activeSessions != 0
    then kept.(backpressure := before.backpressure, admissionWait := before.admissionWait)
    else kept
  }

  /** A pool together with the history of its generations. */
  class TrackedPool {
    const pool: Balancer
    ghost var reloads: seq<Pool.Reload<Upstream.State>>   // the pools set so far
    ghost var used: set<Upstream.State>                   // the states built so far

    /** The pool is the last generation of its history, and no state was ever built twice. */
    ghost predicate Valid()
      reads this, pool, pool.upstreams, pool.byID.Values
    {
      && pool.Valid()
      && Recorded(reloads, used)
      && pool.States() == Generation(reloads, |reloads|)
    }

    constructor ()
      ensures Valid() && fresh(pool)
      ensures pool.byID == map[] && reloads == [] && used == {}
    {
      reloads, used := [], {};
      pool := new Balancer();
    }

    /** Enter a reload that the pool has just gone through. */
    ghost method Note(r: Pool.Reload<Upstream.State>)
      requires pool.Valid() && Recorded(reloads, used)
      requires pool.States() == Reconcile(Generation(reloads, |reloads|), r)
      requires r.own.Values !! used && Injective(r.own)
      modifies this
      ensures Valid() && reloads == old(reloads) + [r]
    {
      Record(reloads, used, r);
      reloads, used := reloads + [r], used + r.own.Values;
    }

    /** `setUpstreams`, recorded in the history. */
    method Set(ups: seq<Backend>, derive: string -> string) returns (ok: bool)
      requires Valid() && pool.OwnStates(ups, used) && forall a :: derive(a) != ""
      modifies this, pool, ups`id, (set u | u in ups)`state
      ensures Valid()
      ensures ok <==> UniqueIds(ups)
      ensures !ok ==> pool.upstreams == old(pool.upstreams) && pool.byID == old(pool.byID)
      ensures !ok ==> pool.States() == old(pool.States()) && reloads == old(reloads)
      ensures ok ==> IsStableSort(pool.upstreams, ups, Priority)
      ensures ok ==> |reloads| == |old(reloads)| + 1 && reloads[..|old(reloads)|] == old(reloads)
    {
      ghost var r;
      ok, r := pool.Replace(ups, derive, used);
      if ok {
        Note(r);
      }
    }
  }

  class LoadBalancer {
    const tracked: TrackedPool
    var cfg: Config
    var dialer: nat
    var gate: Gate

    constructor (cfg: Config, dialer: nat, serial: nat)
      ensures tracked.Valid() && fresh(tracked) && fresh(tracked.pool)
      ensures this.cfg == cfg && this.dialer == dialer && gate == Gate(serial, KindOf(cfg.backpressure))
      ensures tracked.reloads == [] && tracked.used == {}
    {
      this.cfg, this.dialer, gate := cfg, dialer, Gate(serial, KindOf(cfg.backpressure));
      tracked := new TrackedPool();
    }

    /** `New`: the first pool is installed, or there is no balancer. */
    static method New(cfg: Config, ups: seq<Backend>, dialer: nat, serial: nat, derive: string -> string)
      returns (r: Option<LoadBalancer>)
      requires Balancer.OwnStates(ups, {}) && forall a :: derive(a) != ""
      modifies ups`id, (set u | u in ups)`state
      ensures r.Some? <==> UniqueIds(ups)
      ensures r.Some? ==> r.value.tracked.Valid() && fresh(r.value) && fresh(r.value.tracked) && fresh(r.value.tracked.pool)
      ensures r.Some? ==> r.value.cfg == cfg && r.value.dialer == dialer
      ensures r.Some? ==> r.value.gate == Gate(serial, KindOf(cfg.backpressure))
      ensures r.Some? ==> IsStableSort(r.value.tracked.pool.upstreams, ups, Priority) && |r.value.tracked.reloads| == 1
    {
      var lb := new LoadBalancer(cfg, dialer, serial);
      var ok := lb.tracked.Set(ups, derive);
      if !ok {
        return None;
      }
      return Some(lb);
    }

    /** The merged configuration and, when the gate is to be replaced, the new gate. */
    method Prepare(newCfg: Config, activeSessions: nat, serial: nat) returns (next: Config, newGate: Option<Gate>)
      ensures next == Merged(cfg, newCfg, activeSessions)
      ensures next.fixed == cfg.fixed && next.upstreams == newCfg.upstreams && next.others == newCfg.others
      ensures var from := if activeSessions == 0 then newCfg else cfg;
              next.backpressure == from.backpressure && next.admissionWait == from.admissionWait
      ensures newGate.Some? <==>
                (newCfg.backpressure != cfg.backpressure || newCfg.admissionWait != cfg.admissionWait) && activeSessions == 0
      ensures newGate == if GateChanges(cfg, newCfg) && activeSessions == 0
                         then Some(Gate(serial, KindOf(newCfg.backpressure))) else None
    {
      next := newCfg.(fixed := cfg.fixed);
      newGate := None;
      if GateChanges(cfg, next) {
        if activeSessions != 0 {
          next := next.(backpressure := cfg.backpressure, admissionWait := cfg.admissionWait);
        } else {
          newGate := Some(Gate(serial, KindOf(next.backpressure)));
        }
      }
    }

    /** `setGate`: the store panics when the gate in place has another type. */
    method SetGate(g: Gate) returns (panics: bool)
      requires tracked.Valid()
      modifies this`gate
      ensures tracked.Valid() && gate == (if panics then old(gate) else g)
      ensures panics <==> g.kind != old(gate).kind
    {
      panics := g.kind != gate.kind;
      if !panics {
        gate := g;
      }
    }

    /** Everything after the pool: configuration and dialer, and then the gate. */
    method Commit(next: Config, newDialer: nat, newGate: Option<Gate>) returns (panics: bool)
      requires tracked.Valid()
      modifies this
      ensures tracked.Valid() && cfg == next && dialer == newDialer
      ensures panics <==> newGate.Some? && newGate.value.kind != old(gate).kind
      ensures gate == if newGate.Some? && !panics then newGate.value else old(gate)
    {
      cfg, dialer, panics := next, newDialer, false;
      if newGate.Some? {
        panics := SetGate(newGate.value);
      }
    }

    /**
     `reloadFromConfig`. On an error nothing of the pool, the configuration, the dialer
     and the gate changes; on success everything is committed. When a new gate is of
     another type than the one in place, everything but the gate is committed, and the
     call panics.
     */
    method ReloadFromConfig(newCfg: Config, valid: bool, built: Option<seq<Backend>>, activeSessions: nat,
                            newDialer: Option<nat>, serial: nat, derive: string -> string)
      returns (out: Ended)
      requires tracked.Valid() && (forall a :: derive(a) != "")
      requires built.Some? ==> tracked.pool.OwnStates(built.value, tracked.used)
      modifies this, tracked, tracked.pool
      modifies if built.Some? then set u | u in built.value else {}
      ensures tracked.Valid()
      ensures !out.Errored? <==> valid && newCfg.upstreams != [] && built.Some? && newDialer.Some? && UniqueIds(built.value)
      ensures out.Errored? ==> tracked.pool.upstreams == old(tracked.pool.upstreams)
      ensures out.Errored? ==> tracked.pool.byID == old(tracked.pool.byID)
      ensures out.Errored? ==> tracked.pool.States() == old(tracked.pool.States()) && tracked.reloads == old(tracked.reloads)
      ensures out.Errored? ==> cfg == old(cfg) && dialer == old(dialer) && gate == old(gate)
      ensures !out.Errored? ==> IsStableSort(tracked.pool.upstreams, built.value, Priority)
      ensures !out.Errored? ==> |tracked.reloads| == |old(tracked.reloads)| + 1
      ensures !out.Errored? ==> tracked.reloads[..|old(tracked.reloads)|] == old(tracked.reloads)
      ensures !out.Errored? ==> cfg == Merged(old(cfg), newCfg, activeSessions) && dialer == newDialer.value
      ensures !out.Errored? ==>
                && cfg.fixed == old(cfg).fixed && cfg.upstreams == newCfg.upstreams && cfg.others == newCfg.others
                && var from := if activeSessions == 0 then newCfg else old(cfg);
                   cfg.backpressure == from.backpressure && cfg.admissionWait == from.admissionWait
      ensures !out.Errored? ==>
                var swaps := GateChanges(old(cfg), newCfg) && activeSessions == 0;
                && (out.Panicked? <==> swaps && KindOf(newCfg.backpressure) != old(gate).kind)
                && gate == if swaps && out.Succeeded? then Gate(serial, KindOf(newCfg.backpressure)) else old(gate)
      ensures gate.kind == old(gate).kind
    {
      if !valid || |newCfg.upstreams| == 0 || built.None? {
        return Errored;
      }
      var next, newGate := Prepare(newCfg, activeSessions, serial);
      if newDialer.None? {
        return Errored;
      }
      var ok := tracked.Set(built.value, derive);
      if !ok {
        return Errored;
      }
      var panics := Commit(next, newDialer.value, newGate);
      return if panics then Panicked else Succeeded;
    }
  }

  /** The configuration after a sequence of reloads, each with the session count it read. */
  function AfterReloads(cfg: Config, rs: seq<(Config, nat)>): Config {
    if rs == [] then cfg
    else Merged(AfterReloads(cfg, rs[..|rs| - 1]), rs[|rs| - 1].0, rs[|rs| - 1].1)
  }

  lemma AfterReloadsNext(cfg: Config, rs: seq<(Config, nat)>, i: nat)
    requires i < |rs|
    ensures AfterReloads(cfg, rs[..i + 1]) == Merged(AfterReloads(cfg, rs[..i]), rs[i].0, rs[i].1)
  {
    assert rs[..i + 1][..i] == rs[..i];
  }

  lemma {:induction false} FixedSoFar(cfg: Config, rs: seq<(Config, nat)>, i: nat)
    requires i <= |rs|
    ensures AfterReloads(cfg, rs[..i]).fixed == cfg.fixed
  {
    if i > 0 {
      FixedSoFar(cfg, rs, i - 1);
      AfterReloadsNext(cfg, rs, i - 1);
    }
  }

  /**
   No reload of any sequence changes a fixed field, and the backpressure fields move
   exactly in those reloads that ask for it and see no session.
   */
  lemma FixedForever(cfg: Config, rs: seq<(Config, nat)>, i: nat)
    requires i < |rs|
    ensures AfterReloads(cfg, rs).fixed == AfterReloads(cfg, rs[..i]).fixed == cfg.fixed
    ensures GateChanges(AfterReloads(cfg, rs[..i]), AfterReloads(cfg, rs[..i + 1])) <==>
            rs[i].1 == 0 && GateChanges(AfterReloads(cfg, rs[..i]), rs[i].0)
  {
    FixedSoFar(cfg, rs, i);
    FixedSoFar(cfg, rs, |rs|);
    assert rs[..|rs|] == rs;
    AfterReloadsNext(cfg, rs, i);
  }

  /** So in a run in which they have moved, some reload saw no session. */
  lemma {:induction false} MovedWhenIdle(cfg: Config, rs: seq<(Config, nat)>)
    requires GateChanges(cfg, AfterReloads(cfg, rs))
    ensures exists i :: 0 <= i < |rs| && rs[i].1 == 0
  {
    var n := |rs| - 1;
    if rs[n].1 != 0 {
      MovedWhenIdle(cfg, rs[..n]);
      var i :| 0 <= i < n && rs[..n][i].1 == 0;
      assert rs[i].1 == 0;
    }
  }
}
