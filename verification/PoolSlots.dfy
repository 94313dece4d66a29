/**
 Slots across hot reloads: the slot protocol of internal/balancer/queue.go and the
 pool generations of internal/balancer/balancer.go together.

 A session holds a pointer to an upstream of the pool it was picked from, which a
 reload may have replaced since. Every slot in the air carries its origin, the ID
 and the generation of that pool, as a history.
 */
module PoolSlots {
  import opened Common
  import opened WaitQueue
  import P = Pool
  import S = SlotProtocol

  /** An upstream object: an ID in one generation of the pool. */
  datatype Origin = Origin(id: string, gen: nat)

  datatype Sys = Sys(
    s: S.Sys,
    pools: seq<P.Reload<StateId>>,     // the reloads so far
    from: map<Caller, Origin>,         // history: the upstream a thread picked or was handed
    ticket: map<Caller, Origin>)       // history: the upstream in a ticket channel

  datatype Action =
    | Slot(a: S.Action, o: Origin)     // a step of the slot protocol; a pick picks `o`
    | SetPool(r: P.Reload<StateId>)    // setUpstreams succeeds

  function Current(pools: seq<P.Reload<StateId>>): map<string, StateId> {
    P.Generation(pools, |pools|)
  }

  /** The runtime state an upstream object points at. */
  function StateOf(pools: seq<P.Reload<StateId>>, o: Origin): Option<StateId> {
    if o.gen <= |pools| && o.id in P.Generation(pools, o.gen) then Some(P.Generation(pools, o.gen)[o.id]) else None
  }

  predicate Picks(a: S.Action) {
    a.FirstPick? || a.PickForHead?
  }

  /** A pick is from the pool of some moment up to now; a reload brings newly built states. */
  predicate Enabled(st: Sys, act: Action) {
    match act
    case Slot(a, o) =>
      S.Enabled(st.s, a) && (Picks(a) && a.choice.Some? ==> StateOf(st.pools, o) == a.choice)
    case SetPool(r) => r.own.Values <= st.s.ups.Keys && Unused(st.pools, r)
  }

  /** The states of `r` are distinct and were built for no earlier pool. */
  predicate Unused(pools: seq<P.Reload<StateId>>, r: P.Reload<StateId>) {
    && (forall x, y :: x in r.own && y in r.own && r.own[x] == r.own[y] ==> x == y)
    && forall i :: 0 <= i < |pools| ==> pools[i].own.Values !! r.own.Values
  }

  /** The pointer goes where the slot goes. */
  function Next(st: Sys, act: Action): Sys
    requires Enabled(st, act)
  {
    match act
    case SetPool(r) => st.(pools := st.pools + [r])
    case Slot(a, o) =>
      var s' := S.Next(st.s, a);
      if Picks(a) then st.(s := s', from := st.from[a.t := o])
      else if (a.TakeTicket? || a.GiveUp?) && a.t in st.ticket then st.(s := s', from := st.from[a.t := st.ticket[a.t]])
      else if a.HandOver? && s'.threads[a.t].AtTop? && a.t in st.from then
        st.(s := s', ticket := st.ticket[st.s.threads[a.t].head := st.from[a.t]])
      else st.(s := s')
  }

  ghost predicate Steps(st: Sys, st': Sys) {
    exists act :: Enabled(st, act) && st' == Next(st, act)
  }

  ghost predicate StepAt(run: seq<Sys>, i: int) {
    0 <= i < |run| - 1 ==> Steps(run[i], run[i + 1])
  }

  ghost predicate IsRun(run: seq<Sys>) {
    && run != []
    && S.Init(run[0].s) && run[0].pools == [] && run[0].from == map[] && run[0].ticket == map[]
    && forall i :: StepAt(run, i)
  }

  // --- The invariant --------------------------------------------------------

  /** Whatever `t` carries or finds in its channel is the state its pointer points at. */
  ghost predicate OriginOk(st: Sys, t: Caller) {
    && (t in st.s.threads && S.Carried(st.s.threads[t]).Some? ==>
          t in st.from && StateOf(st.pools, st.from[t]) == S.Carried(st.s.threads[t]))
    && (t in st.s.q.tickets ==> t in st.ticket && StateOf(st.pools, st.ticket[t]) == Some(st.s.q.tickets[t]))
  }

  ghost predicate PoolsOk(st: Sys) {
    P.BuiltFresh(st.pools) && forall i :: 0 <= i < |st.pools| ==> st.pools[i].own.Values <= st.s.ups.Keys
  }

  ghost predicate Inv(st: Sys) {
    S.Inv(st.s) && PoolsOk(st) && forall t :: OriginOk(st, t)
  }

  /** A later pool does not change what an upstream object points at. */
  lemma StateStays(pools: seq<P.Reload<StateId>>, r: P.Reload<StateId>, o: Origin)
    requires StateOf(pools, o).Some?
    ensures StateOf(pools + [r], o) == StateOf(pools, o)
  {
    P.GenerationAppend(pools, r, o.gen);
  }

  lemma SetPoolStep(st: Sys, r: P.Reload<StateId>)
    requires Inv(st) && Enabled(st, SetPool(r))
    ensures Inv(Next(st, SetPool(r)))
  {
    var st' := Next(st, SetPool(r));
    forall t ensures OriginOk(st', t) {
      assert OriginOk(st, t);
      if t in st.from && StateOf(st.pools, st.from[t]).Some? {
        StateStays(st.pools, r, st.from[t]);
      }
      if t in st.ticket && StateOf(st.pools, st.ticket[t]).Some? {
        StateStays(st.pools, r, st.ticket[t]);
      }
    }
  }

  lemma UpsStay(s: S.Sys, a: S.Action)
    requires S.Enabled(s, a)
    ensures s.ups.Keys <= S.Next(s, a).ups.Keys
  {
  }

  /** The action is not one of `t`, and hands it no ticket. */
  predicate Foreign(s: S.Sys, a: S.Action, t: Caller)
    requires S.Enabled(s, a)
  {
    a.AddState? || a.ChangeState? || a.Configure? || (t != a.t && !(a.HandOver? && s.threads[a.t].head == t))
  }

  lemma ForeignStep(s: S.Sys, a: S.Action, t: Caller)
    requires S.Enabled(s, a) && Foreign(s, a, t)
    ensures var s' := S.Next(s, a);
            && (t in s'.threads <==> t in s.threads) && (t in s.threads ==> s'.threads[t] == s.threads[t])
            && (t in s'.q.tickets <==> t in s.q.tickets) && (t in s.q.tickets ==> s'.q.tickets[t] == s.q.tickets[t])
  {
    match a
    case HandOver(_) =>
    case GiveUp(_) =>
    case TakeTicket(_) =>
    case _ =>
  }

  /** Nobody else's slot moves, but for the waiter that is handed a ticket. */
  lemma OtherOrigin(st: Sys, a: S.Action, o: Origin, t: Caller)
    requires Inv(st) && Enabled(st, Slot(a, o))
    requires Foreign(st.s, a, t)
    ensures OriginOk(Next(st, Slot(a, o)), t)
  {
    assert OriginOk(st, t);
    ForeignStep(st.s, a, t);
  }

  /** What the acting thread carries afterwards, and what is left in its channel. */
  lemma OwnStep(s: S.Sys, a: S.Action)
    requires S.Enabled(s, a) && !a.AddState? && !a.ChangeState? && !a.Configure? && !a.HandOver?
    ensures var s' := S.Next(s, a);
            var c := S.Carried(s'.threads[a.t]);
            && (c.Some? ==> if Picks(a) then c == a.choice else a.t in s.q.tickets && c == Some(s.q.tickets[a.t]))
            && (c.Some? ==> Picks(a) || a.TakeTicket? || a.GiveUp?)
            && (a.t in s'.q.tickets ==> a.t in s.q.tickets && s'.q.tickets[a.t] == s.q.tickets[a.t])
  {
    match a
    case FirstPick(_, _, _) =>
    case PickForHead(_, _, _) =>
    case TakeTicket(_) =>
    case GiveUp(_) =>
    case LookAtHead(_) =>
    case _ =>
  }

  lemma OwnOrigin(st: Sys, a: S.Action, o: Origin)
    requires Inv(st) && Enabled(st, Slot(a, o)) && !a.AddState? && !a.ChangeState? && !a.Configure? && !a.HandOver?
    ensures OriginOk(Next(st, Slot(a, o)), a.t)
  {
    assert OriginOk(st, a.t);
    OwnStep(st.s, a);
  }

  lemma HandOverMoves(s: S.Sys, t: Caller)
    requires S.Enabled(s, S.HandOver(t))
    ensures var p, s' := s.threads[t], S.Next(s, S.HandOver(t));
            && s'.threads == s.threads[t := s'.threads[t]]
            && if s'.threads[t].AtTop? then s'.q.tickets == s.q.tickets[p.head := p.u]
               else s'.q.tickets == s.q.tickets && s'.threads[t] == S.Undelivered(p.u, p.depth)
  {
  }

  lemma HandOverOrigin(st: Sys, t: Caller, o: Origin, w: Caller)
    requires Inv(st) && Enabled(st, Slot(S.HandOver(t), o)) && (w == t || w == st.s.threads[t].head)
    ensures OriginOk(Next(st, Slot(S.HandOver(t), o)), w)
  {
    assert OriginOk(st, t) && OriginOk(st, w);
    HandOverMoves(st.s, t);
  }

  lemma SlotStep(st: Sys, a: S.Action, o: Origin)
    requires Inv(st) && Enabled(st, Slot(a, o))
    ensures Inv(Next(st, Slot(a, o)))
  {
    S.WaiterInvStep(st.s, a);
    S.SlotInvStep(st.s, a);
    S.CappedStep(st.s, a);
    UpsStay(st.s, a);
    forall t ensures OriginOk(Next(st, Slot(a, o)), t) {
      if a.HandOver? && (t == a.t || t == st.s.threads[a.t].head) {
        HandOverOrigin(st, a.t, o, t);
      } else if a.AddState? || a.ChangeState? || a.Configure? || t != a.t {
        OtherOrigin(st, a, o, t);
      } else {
        OwnOrigin(st, a, o);
      }
    }
  }

  lemma StartOk(s: S.Sys)
    requires S.Init(s)
    ensures S.Inv(s)
  {
    assert forall w :: S.WaiterOk(s, w);
    assert forall u :: S.Balanced(s, u);
  }

  lemma {:induction false} RunInv(run: seq<Sys>, i: nat)
    requires IsRun(run) && i < |run|
    ensures Inv(run[i])
    decreases i
  {
    if i == 0 {
      StartOk(run[0].s);
    } else {
      RunInv(run, i - 1);
      assert StepAt(run, i - 1);
      var act :| Enabled(run[i - 1], act) && run[i] == Next(run[i - 1], act);
      match act
      case SetPool(r) => SetPoolStep(run[i - 1], r);
      case Slot(a, o) => SlotStep(run[i - 1], a, o);
    }
  }

  // --- Main results ---------------------------------------------------------

  /** The upstream object `o` stands for ID `x`, and `x` has been in every pool since its own. */
  ghost predicate Stayed(pools: seq<P.Reload<StateId>>, o: Origin, x: string) {
    o.id == x && o.gen <= |pools| && P.Throughout(pools, o.gen, |pools|, x)
  }

  /** An old pointer points at the state new picks of `x` see if and only if it is one of `x` and `x` has stayed. */
  lemma StalePointerIff(pools: seq<P.Reload<StateId>>, o: Origin, x: string)
    requires P.BuiltFresh(pools) && StateOf(pools, o).Some? && x in Current(pools)
    ensures StateOf(pools, o).value == Current(pools)[x] <==> Stayed(pools, o, x)
  {
    if StateOf(pools, o).value == Current(pools)[x] {
      P.StateNeverShared(pools, o.gen, |pools|, o.id, x);
    }
    if o.id == x {
      P.StateKeptIff(pools, o.gen, |pools|, x);
    }
  }

  /** The threads that carry a slot of `x` picked since `x` is in the pool. */
  ghost function HoldersOf(st: Sys, x: string): set<Caller> {
    set t | t in st.s.threads && S.Carried(st.s.threads[t]).Some? && t in st.from && Stayed(st.pools, st.from[t], x)
  }

  /** The waiters that find such a slot in their channel. */
  ghost function TicketsOf(st: Sys, x: string): set<Caller> {
    set w | w in st.s.q.tickets && w in st.ticket && Stayed(st.pools, st.ticket[w], x)
  }

  lemma SameSlots(st: Sys, x: string)
    requires Inv(st) && x in Current(st.pools)
    ensures S.Holders(st.s.threads, Current(st.pools)[x]) == HoldersOf(st, x)
    ensures S.Tickets(st.s.q.tickets, Current(st.pools)[x]) == TicketsOf(st, x)
  {
    var u := Current(st.pools)[x];
    forall t ensures t in S.Holders(st.s.threads, u) <==> t in HoldersOf(st, x) {
      assert OriginOk(st, t);
      if t in st.s.threads && S.Carried(st.s.threads[t]).Some? {
        StalePointerIff(st.pools, st.from[t], x);
      }
    }
    forall w ensures w in S.Tickets(st.s.q.tickets, u) <==> w in TicketsOf(st, x) {
      assert OriginOk(st, w);
      if w in st.s.q.tickets {
        StalePointerIff(st.pools, st.ticket[w], x);
      }
    }
  }

  lemma CurrentIsKnown(st: Sys, x: string)
    requires PoolsOk(st) && x in Current(st.pools)
    ensures Current(st.pools)[x] in st.s.ups
  {
    var b := P.Birth(st.pools, |st.pools|, x);
    assert st.pools[b].own[x] in st.pools[b].own.Values;
  }

  /**
   Slot conservation across reloads: in every state of every run, the counter that
   new picks of an ID see is the number of slots in the air that were picked under
   that ID, through whatever upstream object, since the ID is in the pool.
   */
  lemma CounterCountsStayers(run: seq<Sys>, i: nat, x: string)
    requires IsRun(run) && i < |run| && x in Current(run[i].pools)
    ensures var st := run[i];
            && Current(st.pools)[x] in st.s.ups
            && st.s.ups[Current(st.pools)[x]].active == |HoldersOf(st, x)| + |TicketsOf(st, x)|
  {
    RunInv(run, i);
    var st := run[i];
    CurrentIsKnown(st, x);
    SameSlots(st, x);
    assert S.Balanced(st.s, Current(st.pools)[x]);
  }

  /**
   A release through an old pointer lowers exactly the counter that new picks of its
   ID see, never from zero, if and only if the ID has been in every pool since.
   */
  lemma StaleReleaseBalances(run: seq<Sys>, i: nat, t: Caller, x: string)
    requires IsRun(run) && i < |run| && S.Enabled(run[i].s, S.Release(t)) && x in Current(run[i].pools)
    ensures var st := run[i];
            var u, s' := Current(st.pools)[x], S.Next(st.s, S.Release(t));
            && t in st.from && u in st.s.ups && u in s'.ups
            && (Stayed(st.pools, st.from[t], x) ==> st.s.ups[u].active > 0)
            && (s'.ups[u].active == st.s.ups[u].active - 1 <==> Stayed(st.pools, st.from[t], x))
            && (s'.ups[u].active == st.s.ups[u].active <==> !Stayed(st.pools, st.from[t], x))
  {
    RunInv(run, i);
    var st := run[i];
    CurrentIsKnown(st, x);
    var u := Current(st.pools)[x];
    assert OriginOk(st, t) && S.KnownSlots(st.s, t) && S.Balanced(st.s, u);
    StalePointerIff(st.pools, st.from[t], x);
    if st.s.threads[t].u == u {
      assert t in S.Holders(st.s.threads, u);
    }
  }

  /** After a reload new picks see the states of its pool: kept for the IDs that stay, new for the others. */
  lemma NewPicksSee(st: Sys, r: P.Reload<StateId>, id: string)
    requires Enabled(st, SetPool(r))
    ensures var before, after := Current(st.pools), Current(Next(st, SetPool(r)).pools);
            && (id in after <==> id in r.ids && (id in before || id in r.own))
            && (id in after ==> after[id] == if id in before then before[id] else r.own[id])
            && Next(st, SetPool(r)).s == st.s
  {
    P.GenerationAppend(st.pools, r, |st.pools|);
  }
}
