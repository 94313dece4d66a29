/**
 Reloads of one balancer that overlap (internal/balancer/reload.go).

 `ReloadGroup` in internal/balancer/manager.go gives the manager's lock up before it
 calls `reloadFromConfig`, and the admin server calls it from concurrent handlers, so
 several reloads of one balancer can be under way at once. One step is the reading of
 the configuration, the replacement of the pool, of the configuration and of the gate;
 everything built in between is a parameter.

 A gate of another type than the one in place cannot be stored: the call panics with
 everything else committed. The admin server's handlers survive that.
 */
module Overlap {
  import opened Common
  import opened R = Reload
  import P = Pool

  /** One call of `reloadFromConfig`. */
  type Call = nat
  type StateId = nat

  /** What a gate was built for. */
  datatype Built = Built(backpressure: string, admissionWait: int, maxClients: int)

  function GateOf(cfg: Config): Built {
    Built(cfg.backpressure, cfg.admissionWait, cfg.fixed.maxClients)
  }

  /** The concrete type of a gate. */
  function Kind(g: Built): GateKind {
    KindOf(g.backpressure)
  }

  /** What is in place after `newGate` has been stored, or storing it has panicked. */
  function Stored(gate: Built, newGate: Built): Built {
    if Kind(newGate) == Kind(gate) then newGate else gate
  }

  datatype Phase =
    | Began(next: Config, newGate: Option<Built>)      // configuration read, everything built
    | PoolSet(next: Config, newGate: Option<Built>)    // pool replaced
    | CfgSet(gate: Built)                              // configuration replaced, gate not yet
    | Over

  datatype Sys = Sys(
    cfg: Config,
    poolOf: seq<string>,                 // the upstreams the pool was built from
    gate: Built,
    pools: seq<P.Reload<StateId>>,       // history: the pools set
    calls: map<Call, Phase>)

  datatype Action =
    | Begin(t: Call, newCfg: Config, active: nat)
    | SetPool(t: Call, r: P.Reload<StateId>)
    | FailPool(t: Call)                  // duplicate IDs
    | SetCfg(t: Call)
    | SetGate(t: Call)

  predicate In(st: Sys, t: Call) {
    t in st.calls
  }

  /** The states of `r` are distinct and were built for no earlier pool. */
  ghost predicate Unused(pools: seq<P.Reload<StateId>>, r: P.Reload<StateId>) {
    P.Injective(r.own) && forall i :: 0 <= i < |pools| ==> pools[i].own.Values !! r.own.Values
  }

  ghost predicate Enabled(st: Sys, a: Action) {
    match a
    case Begin(t, newCfg, _) => t !in st.calls && newCfg.upstreams != []
    case SetPool(t, r) => In(st, t) && st.calls[t].Began? && Unused(st.pools, r)
    case FailPool(t) => In(st, t) && st.calls[t].Began?
    case SetCfg(t) => In(st, t) && st.calls[t].PoolSet?
    case SetGate(t) => In(st, t) && st.calls[t].CfgSet?
  }

  /** The gate a reload builds: only if it asks for other fields and sees no session. */
  function NewGate(cfg: Config, newCfg: Config, active: nat): Option<Built> {
    if GateChanges(cfg, newCfg) && active == 0 then Some(GateOf(Merged(cfg, newCfg, active))) else None
  }

  function Go(st: Sys, t: Call, p: Phase): Sys {
    st.(calls := st.calls[t := p])
  }

  function Next(st: Sys, a: Action): Sys
    requires Enabled(st, a)
  {
    match a
    case Begin(t, newCfg, active) =>
      Go(st, t, Began(Merged(st.cfg, newCfg, active), NewGate(st.cfg, newCfg, active)))
    case SetPool(t, r) =>
      var p := st.calls[t];
      Go(st, t, PoolSet(p.next, p.newGate)).(poolOf := p.next.upstreams, pools := st.pools + [r])
    case FailPool(t) => Go(st, t, Over)
    case SetCfg(t) =>
      var p := st.calls[t];
      Go(st, t, if p.newGate.Some? then CfgSet(p.newGate.value) else Over).(cfg := p.next)
    case SetGate(t) => Go(st, t, Over).(gate := Stored(st.gate, st.calls[t].gate))
  }

  ghost predicate Steps(st: Sys, st': Sys) {
    exists a :: Enabled(st, a) && st' == Next(st, a)
  }

  ghost predicate StepAt(run: seq<Sys>, i: int) {
    0 <= i < |run| - 1 ==> Steps(run[i], run[i + 1])
  }

  /** A balancer that `New` has built. */
  ghost predicate Initial(st: Sys) {
    st.poolOf == st.cfg.upstreams && st.gate == GateOf(st.cfg) && st.pools == [] && st.calls == map[]
  }

  ghost predicate IsRun(run: seq<Sys>) {
    run != [] && Initial(run[0]) && forall i :: StepAt(run, i)
  }

  predicate UnderWay(st: Sys, t: Call) {
    t in st.calls && !st.calls[t].Over?
  }

  ghost predicate Quiet(st: Sys) {
    forall t :: !UnderWay(st, t)
  }

  // --- What survives any overlap ----------------------------------------------

  ghost predicate CallFixed(st: Sys, t: Call, fixed: Fixed) {
    t in st.calls && (st.calls[t].Began? || st.calls[t].PoolSet?) ==> st.calls[t].next.fixed == fixed
  }

  ghost predicate Survives(st: Sys, fixed: Fixed, kind: GateKind) {
    && st.cfg.fixed == fixed && (forall t :: CallFixed(st, t, fixed))
    && P.BuiltFresh(st.pools) && Kind(st.gate) == kind
  }

  lemma SurvivesStep(st: Sys, a: Action, fixed: Fixed, kind: GateKind)
    requires Survives(st, fixed, kind) && Enabled(st, a)
    ensures Survives(Next(st, a), fixed, kind)
  {
    forall t ensures CallFixed(Next(st, a), t, fixed) {
      assert CallFixed(st, t, fixed);
    }
    if a.SetCfg? {
      assert CallFixed(st, a.t, fixed);
    }
  }

  /** However reloads overlap, no fixed field changes, no state is built twice, and the type of the gate stays. */
  lemma {:induction false} SurvivesOverlap(run: seq<Sys>, i: nat)
    requires IsRun(run) && i < |run|
    ensures Survives(run[i], run[0].cfg.fixed, KindOf(run[0].cfg.backpressure))
    decreases i
  {
    if i > 0 {
      SurvivesOverlap(run, i - 1);
      assert StepAt(run, i - 1);
      var a :| Enabled(run[i - 1], a) && run[i] == Next(run[i - 1], a);
      SurvivesStep(run[i - 1], a, run[0].cfg.fixed, KindOf(run[0].cfg.backpressure));
    }
  }

  /** And states follow their IDs through the pools in the order in which they were set. */
  lemma StatesSurvive(run: seq<Sys>, i: nat, a: nat, b: nat, id: string)
    requires IsRun(run) && i < |run| && a <= b <= |run[i].pools|
    requires id in P.Generation(run[i].pools, a) && id in P.Generation(run[i].pools, b)
    ensures P.Generation(run[i].pools, a)[id] == P.Generation(run[i].pools, b)[id] <==> P.Throughout(run[i].pools, a, b, id)
  {
    SurvivesOverlap(run, i);
    P.StateKeptIff(run[i].pools, a, b, id);
  }

  // --- What needs reloads that do not overlap -----------------------------------

  /** A call that brings a gate of its own. */
  predicate Moves(st: Sys, t: Call) {
    UnderWay(st, t) && (st.calls[t].CfgSet? || st.calls[t].newGate.Some?)
  }

  /** While a call that brings a gate is under way, no other is. */
  ghost predicate MoversAlone(st: Sys) {
    forall t, u :: Moves(st, t) && UnderWay(st, u) ==> t == u
  }

  /** The gate is the one the configuration names, if that is of the type of the gate in place. */
  ghost predicate GateFits(st: Sys) {
    Kind(GateOf(st.cfg)) == Kind(st.gate) ==> st.gate == GateOf(st.cfg)
  }

  /** What one call under way knows about configuration and gate. */
  ghost predicate GateCall(st: Sys, t: Call) {
    UnderWay(st, t) ==>
      if st.calls[t].CfgSet? then st.calls[t].gate == GateOf(st.cfg)
      else
        && GateFits(st)
        && GateOf(st.calls[t].next) == if st.calls[t].newGate.Some? then st.calls[t].newGate.value else GateOf(st.cfg)
  }

  ghost predicate GateInv(st: Sys) {
    && (forall t :: GateCall(st, t))
    && ((forall t :: !Moves(st, t)) ==> GateFits(st))
  }

  lemma GateCallStep(st: Sys, a: Action, t: Call)
    requires GateInv(st) && Enabled(st, a) && MoversAlone(st) && MoversAlone(Next(st, a))
    ensures GateCall(Next(st, a), t)
  {
    assert GateCall(st, t) && GateCall(st, a.t);
    assert UnderWay(st, t) && Moves(st, a.t) ==> t == a.t;
    assert UnderWay(st, a.t) && Moves(st, t) ==> t == a.t;
    if a.Begin? && t == a.t {
      assert forall u :: Moves(st, u) ==> Moves(Next(st, a), u);
    }
  }

  lemma GateInvStep(st: Sys, a: Action)
    requires GateInv(st) && Enabled(st, a) && MoversAlone(st) && MoversAlone(Next(st, a))
    ensures GateInv(Next(st, a))
  {
    var st' := Next(st, a);
    forall t ensures GateCall(st', t) {
      GateCallStep(st, a, t);
    }
    if forall t :: !Moves(st', t) {
      assert GateCall(st, a.t) && !Moves(st', a.t);
      forall t | Moves(st, t) ensures t == a.t {
        assert t != a.t ==> Moves(st', t);
      }
    }
  }

  lemma {:induction false} GateInvRun(run: seq<Sys>, i: nat)
    requires IsRun(run) && i < |run| && forall k :: 0 <= k <= i ==> MoversAlone(run[k])
    ensures GateInv(run[i])
    decreases i
  {
    if i > 0 {
      GateInvRun(run, i - 1);
      assert StepAt(run, i - 1);
      var a :| Enabled(run[i - 1], a) && run[i] == Next(run[i - 1], a);
      GateInvStep(run[i - 1], a);
    }
  }

  /** The configuration in force names the type of gate that the first one named. */
  ghost predicate SameKind(run: seq<Sys>, i: nat)
    requires i < |run|
  {
    KindOf(run[i].cfg.backpressure) == KindOf(run[0].cfg.backpressure)
  }

  /** In every run, a configuration that names another type of gate than the first one does not have its gate. */
  lemma OtherKindDisagrees(run: seq<Sys>, i: nat)
    requires IsRun(run) && i < |run| && !SameKind(run, i)
    ensures run[i].gate != GateOf(run[i].cfg)
  {
    SurvivesOverlap(run, i);
  }

  /**
   In every run in which calls that bring a gate overlap no other: whenever no such
   call is under way, the gate in place is the one the configuration names, if and only
   if that is of the type that the first configuration named.
   */
  lemma GateAgreesIff(run: seq<Sys>, i: nat)
    requires IsRun(run) && i < |run| && forall k :: 0 <= k <= i ==> MoversAlone(run[k])
    ensures (forall t :: !Moves(run[i], t)) ==> (run[i].gate == GateOf(run[i].cfg) <==> SameKind(run, i))
  {
    GateInvRun(run, i);
    SurvivesOverlap(run, i);
  }

  /** At most one call is under way. */
  ghost predicate Serial(st: Sys) {
    forall t, u :: UnderWay(st, t) && UnderWay(st, u) ==> t == u
  }

  ghost predicate PoolCall(st: Sys, t: Call) {
    UnderWay(st, t) ==> st.poolOf == if st.calls[t].PoolSet? then st.calls[t].next.upstreams else st.cfg.upstreams
  }

  ghost predicate PoolInv(st: Sys) {
    (forall t :: PoolCall(st, t)) && (Quiet(st) ==> st.poolOf == st.cfg.upstreams)
  }

  lemma PoolInvStep(st: Sys, a: Action)
    requires PoolInv(st) && Enabled(st, a) && Serial(st) && Serial(Next(st, a))
    ensures PoolInv(Next(st, a))
  {
    var st' := Next(st, a);
    assert PoolCall(st, a.t);
    if a.Begin? {
      forall u ensures !UnderWay(st, u) {
        assert UnderWay(st, u) ==> UnderWay(st', u) && UnderWay(st', a.t);
      }
    }
    forall t ensures PoolCall(st', t) {
      assert PoolCall(st, t);
      assert UnderWay(st, t) && UnderWay(st, a.t) ==> t == a.t;
    }
    if Quiet(st') {
      assert !UnderWay(st', a.t);
    }
  }

  lemma {:induction false} PoolInvRun(run: seq<Sys>, i: nat)
    requires IsRun(run) && i < |run| && forall k :: 0 <= k <= i ==> Serial(run[k])
    ensures PoolInv(run[i])
    decreases i
  {
    if i > 0 {
      PoolInvRun(run, i - 1);
      assert StepAt(run, i - 1);
      var a :| Enabled(run[i - 1], a) && run[i] == Next(run[i - 1], a);
      PoolInvStep(run[i - 1], a);
    }
  }

  /**
   When reloads do not overlap, a balancer at rest has the pool its configuration
   names, and it has the gate its configuration names if and only if that is of the
   type that the first configuration named.
   */
  lemma SerialAgreesIff(run: seq<Sys>, i: nat)
    requires IsRun(run) && i < |run| && (forall k :: 0 <= k <= i ==> Serial(run[k])) && Quiet(run[i])
    ensures run[i].poolOf == run[i].cfg.upstreams
    ensures run[i].gate == GateOf(run[i].cfg) <==> SameKind(run, i)
  {
    PoolInvRun(run, i);
    GateAgreesIff(run, i);
  }

  // --- What overlapping reloads do ------------------------------------------------

  /** The steps `acts` are possible from `st`, one after the other. */
  ghost predicate Possible(st: Sys, acts: seq<Action>)
    decreases |acts|
  {
    acts == [] || (Enabled(st, acts[0]) && Possible(Next(st, acts[0]), acts[1..]))
  }

  ghost function After(st: Sys, acts: seq<Action>): Sys
    requires Possible(st, acts)
    decreases |acts|
  {
    if acts == [] then st else After(Next(st, acts[0]), acts[1..])
  }

  /** One step, then the rest. */
  lemma Then(st: Sys, a: Action, rest: seq<Action>)
    requires Enabled(st, a) && Possible(Next(st, a), rest)
    ensures Possible(st, [a] + rest) && After(st, [a] + rest) == After(Next(st, a), rest)
  {
    assert ([a] + rest)[0] == a && ([a] + rest)[1..] == rest;
  }

  /** The rest of a call that has read the configuration, with nothing in between. */
  lemma Completes(st: Sys, t: Call, r: P.Reload<StateId>) returns (acts: seq<Action>)
    requires In(st, t) && st.calls[t].Began? && Unused(st.pools, r)
    ensures Possible(st, acts)
    ensures var p, st' := st.calls[t], After(st, acts);
            && st'.cfg == p.next && st'.poolOf == p.next.upstreams
            && st'.gate == (if p.newGate.Some? then Stored(st.gate, p.newGate.value) else st.gate)
            && st'.pools == st.pools + [r] && st'.calls == st.calls[t := Over]
  {
    var p := st.calls[t];
    var st1 := Next(st, SetPool(t, r));
    var st2 := Next(st1, SetCfg(t));
    if p.newGate.Some? {
      Then(st2, SetGate(t), []);
      Then(st1, SetCfg(t), [SetGate(t)] + []);
      Then(st, SetPool(t, r), [SetCfg(t)] + ([SetGate(t)] + []));
      acts := [SetPool(t, r)] + ([SetCfg(t)] + ([SetGate(t)] + []));
    } else {
      Then(st1, SetCfg(t), []);
      Then(st, SetPool(t, r), [SetCfg(t)] + []);
      acts := [SetPool(t, r)] + ([SetCfg(t)] + []);
    }
  }

  lemma {:induction false} Chain(st: Sys, first: seq<Action>, second: seq<Action>)
    requires Possible(st, first) && Possible(After(st, first), second)
    ensures Possible(st, first + second) && After(st, first + second) == After(After(st, first), second)
    decreases |first|
  {
    if first == [] {
      assert first + second == second;
    } else {
      assert (first + second)[0] == first[0] && (first + second)[1..] == first[1..] + second;
      Chain(Next(st, first[0]), first[1..], second);
    }
  }

  /** A call, with nothing in between. */
  lemma Reloads(st: Sys, t: Call, newCfg: Config, active: nat, r: P.Reload<StateId>) returns (acts: seq<Action>)
    requires t !in st.calls && newCfg.upstreams != [] && Unused(st.pools, r)
    ensures Possible(st, acts)
    ensures var newGate, st' := NewGate(st.cfg, newCfg, active), After(st, acts);
            && st'.cfg == Merged(st.cfg, newCfg, active) && st'.poolOf == newCfg.upstreams
            && st'.gate == (if newGate.Some? then Stored(st.gate, newGate.value) else st.gate)
            && st'.pools == st.pools + [r] && st'.calls == st.calls[t := Over]
  {
    var st1 := Next(st, Begin(t, newCfg, active));
    var rest := Completes(st1, t, r);
    Then(st, Begin(t, newCfg, active), rest);
    acts := [Begin(t, newCfg, active)] + rest;
    assert st1.calls[t := Over] == st.calls[t := Over];
  }

  /**
   One reload is enough. From every state, a reload that no other overlaps, that sees
   no session and that asks for another type of gate than the one in place puts its
   pool and its configuration in place and leaves the old gate; and no reload of the
   same fields will ever build the gate that is missing.
   */
  lemma OneReloadDisagrees(st: Sys, t: Call, newCfg: Config, r: P.Reload<StateId>) returns (acts: seq<Action>)
    requires t !in st.calls && newCfg.upstreams != [] && Unused(st.pools, r)
    requires GateChanges(st.cfg, newCfg) && KindOf(newCfg.backpressure) != Kind(st.gate)
    ensures Possible(st, acts)
    ensures var st' := After(st, acts);
            && st'.calls == st.calls[t := Over] && st'.poolOf == newCfg.upstreams
            && st'.cfg == newCfg.(fixed := st.cfg.fixed)
            && st'.gate == st.gate != GateOf(st'.cfg)
            && forall again, active :: !GateChanges(newCfg, again) ==> NewGate(st'.cfg, again, active).None?
  {
    acts := Reloads(st, t, newCfg, 0, r);
  }

  /** A reload that sees a session builds no gate and keeps the fields of the old one. */
  lemma BusyKeepsGate(cfg: Config, newCfg: Config, active: nat)
    requires active > 0
    ensures NewGate(cfg, newCfg, active).None? && GateOf(Merged(cfg, newCfg, active)) == GateOf(cfg)
  {
  }

  /** A pool that cannot be set ends the call with everything as it was. */
  lemma FailedPoolChangesNothing(st: Sys, t: Call)
    requires In(st, t) && st.calls[t].Began?
    ensures Enabled(st, FailPool(t))
    ensures Next(st, FailPool(t)) == st.(calls := st.calls[t := Over])
  {
  }

  /** Two calls that are about to read the configuration. */
  ghost predicate TwoComing(st: Sys, t: Call, u: Call, first: Config, second: Config) {
    t != u && t !in st.calls && u !in st.calls && first.upstreams != [] && second.upstreams != []
  }

  lemma BothBegin(st: Sys, t: Call, u: Call, first: Config, second: Config, active: nat, active': nat)
    requires TwoComing(st, t, u, first, second)
    ensures Possible(st, [Begin(t, first, active)] + ([Begin(u, second, active')] + []))
    ensures After(st, [Begin(t, first, active)] + ([Begin(u, second, active')] + [])) ==
            st.(calls := st.calls
                         [t := Began(Merged(st.cfg, first, active), NewGate(st.cfg, first, active))]
                         [u := Began(Merged(st.cfg, second, active'), NewGate(st.cfg, second, active'))])
  {
    var st1 := Next(st, Begin(t, first, active));
    Then(st1, Begin(u, second, active'), []);
    Then(st, Begin(t, first, active), [Begin(u, second, active')] + []);
  }

  /**
   From every state: a reload that keeps the backpressure fields, overlapped by one
   that changes them, puts the old fields back into the configuration and leaves the
   new gate in place, if that could be stored.
   */
  lemma GateDisagrees(st: Sys, t: Call, u: Call, first: Config, active: nat, second: Config,
                      r: P.Reload<StateId>, r': P.Reload<StateId>)
    returns (acts: seq<Action>)
    requires TwoComing(st, t, u, first, second) && Unused(st.pools, r') && Unused(st.pools + [r'], r)
    requires NewGate(st.cfg, first, active).None? && GateChanges(st.cfg, second)
    ensures Possible(st, acts)
    ensures var st' := After(st, acts);
            && st'.calls == st.calls[t := Over][u := Over]
            && GateOf(st'.cfg) == GateOf(st.cfg) != GateOf(Merged(st.cfg, second, 0))
            && st'.gate == if KindOf(second.backpressure) == Kind(st.gate) then GateOf(Merged(st.cfg, second, 0)) else st.gate
  {
    var begin := [Begin(t, first, active)] + ([Begin(u, second, 0)] + []);
    BothBegin(st, t, u, first, second, active, 0);
    var both := After(st, begin);
    var other := Completes(both, u, r');
    var mid := After(both, other);
    assert mid.calls[t] == both.calls[t];
    var own := Completes(mid, t, r);
    Chain(both, other, own);
    Chain(st, begin, other + own);
    acts := begin + (other + own);
    assert After(mid, own).calls == st.calls[t := Over][u := Over];
  }

  /** From every state: two reloads that keep the gate may leave the pool of the one and the configuration of the other. */
  lemma PoolDisagrees(st: Sys, t: Call, u: Call, first: Config, active: nat, second: Config, active': nat,
                      r: P.Reload<StateId>, r': P.Reload<StateId>)
    returns (acts: seq<Action>)
    requires TwoComing(st, t, u, first, second) && Unused(st.pools, r) && Unused(st.pools + [r], r')
    requires NewGate(st.cfg, first, active).None? && NewGate(st.cfg, second, active').None?
    ensures Possible(st, acts)
    ensures var st' := After(st, acts);
            && !UnderWay(st', t) && !UnderWay(st', u)
            && st'.poolOf == second.upstreams && st'.cfg.upstreams == first.upstreams
  {
    var begin := [Begin(t, first, active)] + ([Begin(u, second, active')] + []);
    BothBegin(st, t, u, first, second, active, active');
    var both := After(st, begin);
    var st1 := Next(both, SetPool(t, r));
    var st2 := Next(st1, SetPool(u, r'));
    var st3 := Next(st2, SetCfg(u));
    Then(st3, SetCfg(t), []);
    Then(st2, SetCfg(u), [SetCfg(t)] + []);
    Then(st1, SetPool(u, r'), [SetCfg(u)] + ([SetCfg(t)] + []));
    var rest := [SetPool(u, r')] + ([SetCfg(u)] + ([SetCfg(t)] + []));
    Then(both, SetPool(t, r), rest);
    Chain(st, begin, [SetPool(t, r)] + rest);
    acts := begin + ([SetPool(t, r)] + rest);
  }
}
