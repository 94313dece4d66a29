/**
 The slot and waiter protocol of internal/balancer/queue.go as a transition system.

 Any number of callers run `acquireSlot` and `releaseSlot` at once, and health
 probes run `dispatch`. One step is one `IncActive` or `DecActive`, one critical
 section under `qmu`, or one read of a ticket channel; steps of different threads
 interleave freely. The selector works on stale snapshots, so its choice is
 arbitrary. Configuration reloads add caps and upstream states at any time.
 */
module SlotProtocol {
  import opened Common
  import opened Upstream
  import opened WaitQueue

  /**
   Where a thread is. `depth` counts the `dispatch` calls suspended below the
   running one: an undelivered pick is released from inside the loop, and that
   release dispatches again.
   */
  datatype Phase =
    | Picking                                        // acquireSlot, before its own pick
    | Unqueued                                       // pick failed, not in the queue yet
    | Waiting                                        // in the select on its ticket
    | Holding(u: StateId)                            // acquireSlot returned u
    | Retracted(u: StateId)                          // cancelWaiter took the ticket back
    | AtTop(depth: nat)                              // head of the dispatch loop
    | AtHead(head: Caller, depth: nat)               // saw the head, about to pick for it
    | Picked(head: Caller, u: StateId, depth: nat)   // picked u for that head
    | Undelivered(u: StateId, depth: nat)            // must give u back
    | Done

  datatype Sys = Sys(
    ups: map<StateId, UpState>,
    q: Queue,
    threads: map<Caller, Phase>,
    caps: set<int>,               // every MaxPerProxy configured so far
    arrivals: seq<Caller>,        // history: waiters in the order they joined
    stamp: map<Caller, nat>,      // history: each waiter's place in `arrivals`
    delivered: seq<Caller>,       // history: waiters in the order tickets were sent
    received: set<Caller>)        // history: waiters that read their ticket

  datatype Action =
    | Acquire(t: Caller)
    | Probe(t: Caller)
    | FirstPick(t: Caller, choice: Option<StateId>, max: int)
    | Enqueue(t: Caller)
    | TakeTicket(t: Caller)
    | GiveUp(t: Caller)
    | Release(t: Caller)
    | LookAtHead(t: Caller)
    | PickForHead(t: Caller, choice: Option<StateId>, max: int)
    | HandOver(t: Caller)
    | AddState(u: StateId)
    | ChangeState(u: StateId, s: UpState)
    | Configure(max: int)

  predicate Init(s: Sys) {
    s == Sys(map[], EMPTY, map[], {}, [], map[], [], {})
  }

  /** The slot a thread carries between two steps. */
  function Carried(p: Phase): Option<StateId> {
    match p
    case Holding(u) => Some(u)
    case Retracted(u) => Some(u)
    case Picked(_, u, _) => Some(u)
    case Undelivered(u, _) => Some(u)
    case _ => None
  }

  predicate Runs(s: Sys, t: Caller) {
    t in s.threads
  }

  predicate Enabled(s: Sys, a: Action) {
    match a
    case Acquire(t) => t !in s.threads
    case Probe(t) => t !in s.threads
    case FirstPick(t, _, max) => Runs(s, t) && s.threads[t].Picking? && max in s.caps
    case Enqueue(t) => Runs(s, t) && s.threads[t].Unqueued?
    case TakeTicket(t) => Runs(s, t) && s.threads[t].Waiting? && t in s.q.tickets
    case GiveUp(t) => Runs(s, t) && s.threads[t].Waiting?
    case Release(t) => Runs(s, t) && (s.threads[t].Holding? || s.threads[t].Retracted? || s.threads[t].Undelivered?)
    case LookAtHead(t) => Runs(s, t) && s.threads[t].AtTop?
    case PickForHead(t, _, max) => Runs(s, t) && s.threads[t].AtHead? && max in s.caps
    case HandOver(t) => Runs(s, t) && s.threads[t].Picked?
    case AddState(u) => u !in s.ups
    case ChangeState(u, up) => u in s.ups && up.active == s.ups[u].active
    case Configure(_) => true
  }

  function Go(s: Sys, t: Caller, p: Phase): Sys {
    s.(threads := s.threads[t := p])
  }

  /** `pick`: the selector's choice, if it is in the pool and has room. */
  function Pick(s: Sys, choice: Option<StateId>, max: int): (Sys, Option<StateId>) {
    if choice.None? || choice.value !in s.ups then (s, None)
    else
      var (up, ok) := s.ups[choice.value].IncActive(max);
      if ok then (s.(ups := s.ups[choice.value := up]), choice) else (s, None)
  }

  /** A `dispatch` call returns: to the suspended one below it, if any. */
  function Return(depth: nat): Phase {
    if depth == 0 then Done else AtTop(depth - 1)
  }

  /** `DecActive`, the first half of `releaseSlot`; a `dispatch` call follows. */
  function Free(s: Sys, u: StateId): Sys {
    if u in s.ups then s.(ups := s.ups[u := s.ups[u].DecActive()]) else s
  }

  function Next(s: Sys, a: Action): Sys
    requires Enabled(s, a)
  {
    match a
    case Acquire(t) => Go(s, t, Picking)
    case Probe(t) => Go(s, t, AtTop(0))
    case FirstPick(t, choice, max) =>
      var (s', picked) := Pick(s, choice, max);
      Go(s', t, if picked.Some? then Holding(picked.value) else Unqueued)
    case Enqueue(t) =>
      Go(s, t, Waiting).(q := s.q.Join(t), arrivals := s.arrivals + [t], stamp := s.stamp[t := |s.arrivals|])
    case TakeTicket(t) =>
      var (q, u) := s.q.Receive(t);
      Go(s, t, Holding(u)).(q := q, received := s.received + {t})
    case GiveUp(t) =>
      var (q, ticket) := s.q.Cancel(t);
      Go(s, t, if ticket.Some? then Retracted(ticket.value) else Done).(q := q)
    case Release(t) =>
      var p := s.threads[t];
      Go(Free(s, p.u), t, AtTop(if p.Undelivered? then p.depth + 1 else 0))
    case LookAtHead(t) =>
      var d := s.threads[t].depth;
      var (q, look) := s.q.Inspect();
      Go(s, t, match look
               case NoWaiter => Return(d)
               case SkippedCanceled => AtTop(d)
               case Head(head) => AtHead(head, d)).(q := q)
    case PickForHead(t, choice, max) =>
      var p := s.threads[t];
      var (s', picked) := Pick(s, choice, max);
      Go(s', t, if picked.Some? then Picked(p.head, picked.value, p.depth) else Return(p.depth))
    case HandOver(t) =>
      var p := s.threads[t];
      var (q, ok) := s.q.Deliver(p.head, p.u);
      Go(s, t, if ok then AtTop(p.depth) else Undelivered(p.u, p.depth))
        .(q := q, delivered := if ok then s.delivered + [p.head] else s.delivered)
    case AddState(u) => s.(ups := s.ups[u := FRESH])
    case ChangeState(u, up) => s.(ups := s.ups[u := up])
    case Configure(max) => s.(caps := s.caps + {max})
  }

  /** `run` is a sequence of states from an initial one, each the result of an enabled step. */
  ghost predicate IsRun(run: seq<Sys>) {
    && run != []
    && Init(run[0])
    && forall i :: StepAt(run, i)
  }

  ghost predicate StepAt(run: seq<Sys>, i: int) {
    0 <= i < |run| - 1 ==> Steps(run[i], run[i + 1])
  }

  ghost predicate Steps(s: Sys, s': Sys) {
    exists a :: Enabled(s, a) && s' == Next(s, a)
  }

  // --- The waiter invariant -------------------------------------------------

  /** `arrivals` and `stamp` are the same history. */
  ghost predicate History(s: Sys) {
    && (forall w :: w in s.stamp ==> s.stamp[w] < |s.arrivals| && s.arrivals[s.stamp[w]] == w)
    && (forall i :: 0 <= i < |s.arrivals| ==> s.arrivals[i] in s.stamp && s.stamp[s.arrivals[i]] == i)
  }

  /**
   Where one waiter is. A waiter that joined is queued, ticketed, served or
   canceled, and never two of these; it waits in its select exactly while it is
   queued or ticketed.
   */
  ghost predicate WaiterOk(s: Sys, w: Caller) {
    && (w in s.stamp ==>
          && w in s.threads && !s.threads[w].Picking? && !s.threads[w].Unqueued?
          && (w in s.q.queue || w in s.q.tickets || w in s.received || w in s.q.canceled))
    && (w in s.threads && s.threads[w].Waiting? <==> w in s.q.queue || w in s.q.tickets)
    && (w in s.q.queue ==>
          w in s.stamp && w !in s.q.canceled && w !in s.q.tickets && w !in s.received && w !in s.delivered)
    && (w in s.q.tickets ==> w in s.stamp && w !in s.q.canceled && w !in s.received && w in s.delivered)
    && (w in s.received ==> w in s.stamp && w !in s.q.canceled && w in s.delivered)
    && (w in s.q.canceled || w in s.delivered ==> w in s.stamp)
    && (w in s.threads && w in s.q.canceled ==> !s.threads[w].Holding?)
  }

  ghost predicate Places(s: Sys) {
    forall w :: WaiterOk(s, w)
  }

  /** `xs` is in arrival order. */
  ghost predicate Increasing(xs: seq<Caller>, stamp: map<Caller, nat>) {
    && (forall i :: 0 <= i < |xs| ==> xs[i] in stamp)
    && (forall i, j :: 0 <= i < j < |xs| ==> stamp[xs[i]] < stamp[xs[j]])
  }

  predicate Earlier(x: Caller, y: Caller, stamp: map<Caller, nat>) {
    x in stamp && y in stamp && stamp[x] < stamp[y]
  }

  /** All of `xs` arrived before all of `ys`. */
  ghost predicate Precede(xs: seq<Caller>, ys: seq<Caller>, stamp: map<Caller, nat>) {
    forall i, j {:trigger xs[i], ys[j]} :: 0 <= i < |xs| && 0 <= j < |ys| ==> Earlier(xs[i], ys[j], stamp)
  }

  /** The queue and the deliveries are both in arrival order, deliveries first. */
  ghost predicate Ordered(s: Sys) {
    && Increasing(s.q.queue, s.stamp)
    && Increasing(s.delivered, s.stamp)
    && Precede(s.delivered, s.q.queue, s.stamp)
  }

  ghost predicate WaiterInv(s: Sys) {
    History(s) && Places(s) && Ordered(s)
  }

  /** A step that leaves the queue and the history alone and does not start or end a wait. */
  lemma QuietStep(s: Sys, s': Sys, t: Caller, p: Phase)
    requires WaiterInv(s)
    requires s' == s.(ups := s'.ups, threads := s.threads[t := p])
    requires !p.Waiting? && (t in s.threads ==> !s.threads[t].Waiting?)
    requires t in s.stamp ==> !p.Picking? && !p.Unqueued? && !p.Holding?
    ensures WaiterInv(s')
  {
    forall w ensures WaiterOk(s', w) {
      assert WaiterOk(s, w);
    }
  }

  lemma EnqueueOrdered(s: Sys, t: Caller)
    requires History(s) && Ordered(s) && t !in s.stamp
    ensures Ordered(s.(q := s.q.Join(t), stamp := s.stamp[t := |s.arrivals|]))
  {
  }

  lemma EnqueueStep(s: Sys, t: Caller)
    requires WaiterInv(s) && Enabled(s, Enqueue(t))
    ensures WaiterInv(Next(s, Enqueue(t)))
  {
    var s' := Next(s, Enqueue(t));
    assert WaiterOk(s, t);
    EnqueueOrdered(s, t);
    forall w ensures WaiterOk(s', w) {
      assert WaiterOk(s, w);
      assert w in s'.q.queue <==> w in s.q.queue || w == t;
    }
  }

  /** A ticket leaves its channel, read by its waiter or taken back by its cancellation. */
  lemma TicketGone(s: Sys, s': Sys, t: Caller)
    requires WaiterInv(s) && t in s.q.tickets
    requires t in s'.threads && Carried(s'.threads[t]).Some?
    requires s' == s.(threads := s.threads[t := s'.threads[t]], q := s'.q, received := s'.received)
    requires s'.q == s.q.(tickets := s.q.tickets - {t}, canceled := s'.q.canceled)
    requires || (s'.received == s.received + {t} && s'.q.canceled == s.q.canceled)
             || (s'.received == s.received && s'.q.canceled == s.q.canceled + {t} && s'.threads[t].Retracted?)
    ensures WaiterInv(s')
  {
    forall w ensures WaiterOk(s', w) {
      assert WaiterOk(s, w);
    }
  }

  lemma WithoutOrdered(s: Sys, t: Caller)
    requires Ordered(s) && t in s.q.queue
    ensures var rest := Without(s.q.queue, t);
            && Increasing(rest, s.stamp) && Precede(s.delivered, rest, s.stamp)
            && forall w :: w in rest <==> w in s.q.queue && w != t
  {
    WithoutIncreasing(s.q.queue, t, s.stamp);
    WithoutPreceded(s.delivered, s.q.queue, t, s.stamp);
    WithoutKeeps(s.q.queue, t);
  }

  lemma WithoutIncreasing(xs: seq<Caller>, t: Caller, stamp: map<Caller, nat>)
    requires Increasing(xs, stamp) && t in xs
    ensures Increasing(Without(xs, t), stamp)
  {
    WithoutIndex(xs, t);
    ShiftIncreasing(xs, Without(xs, t), FirstIndex(xs, t), stamp);
  }

  lemma ShiftIncreasing(xs: seq<Caller>, r: seq<Caller>, k: nat, stamp: map<Caller, nat>)
    requires Increasing(xs, stamp) && |r| < |xs|
    requires forall i :: 0 <= i < |r| ==> r[i] == xs[if i < k then i else i + 1]
    ensures Increasing(r, stamp)
  {
  }

  lemma WithoutPreceded(xs: seq<Caller>, ys: seq<Caller>, t: Caller, stamp: map<Caller, nat>)
    requires Precede(xs, ys, stamp) && t in ys
    ensures Precede(xs, Without(ys, t), stamp)
  {
    WithoutIndex(ys, t);
    PrecedeSome(xs, ys, Without(ys, t), stamp);
  }

  lemma PrecedeSome(xs: seq<Caller>, ys: seq<Caller>, r: seq<Caller>, stamp: map<Caller, nat>)
    requires Precede(xs, ys, stamp) && forall j :: 0 <= j < |r| ==> r[j] in ys
    ensures Precede(xs, r, stamp)
  {
    forall i, j | 0 <= i < |xs| && 0 <= j < |r| ensures Earlier(xs[i], r[j], stamp) {
      assert r[j] in ys;
      var k :| 0 <= k < |ys| && ys[k] == r[j];
    }
  }

  lemma GiveUpStep(s: Sys, t: Caller)
    requires WaiterInv(s) && Enabled(s, GiveUp(t))
    ensures WaiterInv(Next(s, GiveUp(t)))
  {
    var s' := Next(s, GiveUp(t));
    assert WaiterOk(s, t);
    if t in s.q.queue {
      WithoutOrdered(s, t);
      forall w ensures WaiterOk(s', w) {
        assert WaiterOk(s, w);
      }
    } else {
      TicketGone(s, s', t);
    }
  }

  lemma LookAtHeadStep(s: Sys, t: Caller)
    requires WaiterInv(s) && Enabled(s, LookAtHead(t))
    ensures WaiterInv(Next(s, LookAtHead(t)))
  {
    var s' := Next(s, LookAtHead(t));
    if s.q.queue != [] {
      assert WaiterOk(s, s.q.queue[0]);
    }
    QuietStep(s, s', t, s'.threads[t]);
  }

  lemma PopOrdered(s: Sys)
    requires Ordered(s) && s.q.queue != []
    ensures var head, rest := s.q.queue[0], s.q.queue[1..];
            && Increasing(rest, s.stamp) && Increasing(s.delivered + [head], s.stamp)
            && Precede(s.delivered + [head], rest, s.stamp)
            && forall w :: w in rest <==> w in s.q.queue && w != head
  {
    assert s.q.queue == [s.q.queue[0]] + s.q.queue[1..];
  }

  lemma HandOverStep(s: Sys, t: Caller)
    requires WaiterInv(s) && Enabled(s, HandOver(t))
    ensures WaiterInv(Next(s, HandOver(t)))
  {
    var s', p := Next(s, HandOver(t)), s.threads[t];
    if s.q.queue != [] && s.q.queue[0] == p.head {
      assert WaiterOk(s, p.head);
      PopOrdered(s);
      forall w ensures WaiterOk(s', w) {
        assert WaiterOk(s, w);
      }
    } else {
      QuietStep(s, s', t, s'.threads[t]);
    }
  }

  lemma WaiterInvStep(s: Sys, a: Action)
    requires WaiterInv(s) && Enabled(s, a)
    ensures WaiterInv(Next(s, a))
  {
    var s' := Next(s, a);
    match a
    case Enqueue(t) => EnqueueStep(s, t);
    case TakeTicket(t) => TicketGone(s, s', t);
    case GiveUp(t) => GiveUpStep(s, t);
    case LookAtHead(t) => LookAtHeadStep(s, t);
    case HandOver(t) => HandOverStep(s, t);
    case AddState(_) => forall w ensures WaiterOk(s', w) { assert WaiterOk(s, w); }
    case ChangeState(_, _) => forall w ensures WaiterOk(s', w) { assert WaiterOk(s, w); }
    case Configure(_) => forall w ensures WaiterOk(s', w) { assert WaiterOk(s, w); }
    case _ =>
      assert WaiterOk(s, a.t);
      QuietStep(s, s', a.t, s'.threads[a.t]);
  }

  // --- The slot invariant ---------------------------------------------------

  /** The threads that carry a slot of `u`. */
  ghost function Holders(threads: map<Caller, Phase>, u: StateId): set<Caller> {
    set t | t in threads && Carried(threads[t]) == Some(u)
  }

  /** The waiters whose channel holds a ticket for `u`. */
  ghost function Tickets(tickets: map<Caller, StateId>, u: StateId): set<Caller> {
    set w | w in tickets && tickets[w] == u
  }

  /** The slots of `u` in the air: carried by a thread or lying in a ticket channel. */
  ghost function InTheAir(s: Sys, u: StateId): nat {
    |Holders(s.threads, u)| + |Tickets(s.q.tickets, u)|
  }

  /** The counter of `u` is the number of its slots in the air. */
  ghost predicate Balanced(s: Sys, u: StateId) {
    u in s.ups ==> s.ups[u].active == InTheAir(s, u)
  }

  /** Whatever `t` carries or finds in its channel is a slot of a known upstream. */
  ghost predicate KnownSlots(s: Sys, t: Caller) {
    && (t in s.threads && Carried(s.threads[t]).Some? ==> Carried(s.threads[t]).value in s.ups)
    && (t in s.q.tickets ==> s.q.tickets[t] in s.ups)
  }

  ghost predicate SlotInv(s: Sys) {
    (forall u :: Balanced(s, u)) && (forall t :: KnownSlots(s, t))
  }

  /** A thread's new phase changes the holders of `u` by that thread alone. */
  lemma HoldersChange(threads: map<Caller, Phase>, t: Caller, p: Phase, u: StateId)
    ensures |Holders(threads[t := p], u)| ==
            |Holders(threads, u)| - Unit(t in threads && Carried(threads[t]) == Some(u)) + Unit(Carried(p) == Some(u))
  {
    CardChange(Holders(threads, u), Holders(threads[t := p], u), t);
  }

  lemma TicketsAdded(tickets: map<Caller, StateId>, w: Caller, v: StateId, u: StateId)
    requires w !in tickets
    ensures |Tickets(tickets[w := v], u)| == |Tickets(tickets, u)| + Unit(v == u)
  {
    CardChange(Tickets(tickets, u), Tickets(tickets[w := v], u), w);
  }

  lemma TicketsRemoved(tickets: map<Caller, StateId>, w: Caller, u: StateId)
    requires w in tickets
    ensures |Tickets(tickets - {w}, u)| == |Tickets(tickets, u)| - Unit(tickets[w] == u)
  {
    CardChange(Tickets(tickets, u), Tickets(tickets - {w}, u), w);
  }

  /** `IncActive` and `DecActive`: the counter moves with the acting thread's hold. */
  lemma CountStep(s: Sys, a: Action, u: StateId)
    requires Balanced(s, u) && Enabled(s, a)
    requires a.FirstPick? || a.PickForHead? || a.Release?
    requires KnownSlots(s, a.t)
    ensures Balanced(Next(s, a), u)
  {
    HoldersChange(s.threads, a.t, Next(s, a).threads[a.t], u);
  }

  /** A slot moves between a thread and a ticket channel. */
  lemma TicketStep(s: Sys, a: Action, u: StateId)
    requires Balanced(s, u) && Enabled(s, a)
    requires a.TakeTicket? || a.GiveUp? || a.HandOver?
    ensures Balanced(Next(s, a), u)
  {
    var s', p := Next(s, a), s.threads[a.t];
    HoldersChange(s.threads, a.t, s'.threads[a.t], u);
    if a.HandOver? && s'.threads[a.t].AtTop? {
      TicketsAdded(s.q.tickets, p.head, p.u, u);
    } else if Carried(s'.threads[a.t]).Some? && !a.HandOver? {
      TicketsRemoved(s.q.tickets, a.t, u);
    }
  }

  lemma NoSlotsOfUnknown(s: Sys, u: StateId)
    requires SlotInv(s) && u !in s.ups
    ensures Holders(s.threads, u) == {} && Tickets(s.q.tickets, u) == {}
  {
    forall t ensures t !in Holders(s.threads, u) && t !in Tickets(s.q.tickets, u) {
      assert KnownSlots(s, t);
    }
  }

  lemma BalancedStep(s: Sys, a: Action, u: StateId)
    requires SlotInv(s) && Enabled(s, a)
    ensures Balanced(Next(s, a), u)
  {
    assert Balanced(s, u);
    match a
    case FirstPick(_, _, _) => CountStep(s, a, u);
    case PickForHead(_, _, _) => CountStep(s, a, u);
    case Release(t) => assert KnownSlots(s, t); CountStep(s, a, u);
    case TakeTicket(_) => TicketStep(s, a, u);
    case GiveUp(_) => TicketStep(s, a, u);
    case HandOver(_) => TicketStep(s, a, u);
    case AddState(v) =>
      if v == u {
        NoSlotsOfUnknown(s, u);
      }
    case ChangeState(_, _) =>
    case Configure(_) =>
    case _ => HoldersChange(s.threads, a.t, Next(s, a).threads[a.t], u);
  }

  lemma SlotInvStep(s: Sys, a: Action)
    requires SlotInv(s) && Enabled(s, a)
    ensures SlotInv(Next(s, a))
  {
    var s' := Next(s, a);
    forall u ensures Balanced(s', u) {
      BalancedStep(s, a, u);
    }
    forall t ensures KnownSlots(s', t) {
      assert KnownSlots(s, t);
      if a.HandOver? {
        assert KnownSlots(s, a.t);
      }
    }
  }

  /** `c` is at least every cap ever configured. */
  ghost predicate CapBound(s: Sys, c: int) {
    c >= 0 && forall m :: m in s.caps ==> m <= c
  }

  ghost predicate Capped(s: Sys) {
    forall u, c :: u in s.ups && CapBound(s, c) ==> s.ups[u].active <= c
  }

  lemma CappedStep(s: Sys, a: Action)
    requires Capped(s) && Enabled(s, a)
    ensures Capped(Next(s, a))
  {
    var s' := Next(s, a);
    forall u, c | u in s'.ups && CapBound(s', c)
      ensures s'.ups[u].active <= c
    {
      assert CapBound(s, c);
    }
  }

  ghost predicate Inv(s: Sys) {
    WaiterInv(s) && SlotInv(s) && Capped(s)
  }

  /** Every state of every run satisfies the invariant. */
  lemma {:induction false} RunInv(run: seq<Sys>, i: nat)
    requires IsRun(run) && i < |run|
    ensures Inv(run[i])
    decreases i
  {
    if i == 0 {
      assert forall w :: WaiterOk(run[0], w);
      assert forall u :: Balanced(run[0], u);
    } else {
      RunInv(run, i - 1);
      assert StepAt(run, i - 1);
      var a :| Enabled(run[i - 1], a) && run[i] == Next(run[i - 1], a);
      WaiterInvStep(run[i - 1], a);
      SlotInvStep(run[i - 1], a);
      CappedStep(run[i - 1], a);
    }
  }

  // --- Main results ---------------------------------------------------------

  /** Callers to whom `acquireSlot` returned `u` and that have not released it. */
  ghost function Sessions(s: Sys, u: StateId): set<Caller> {
    set t | t in s.threads && s.threads[t] == Holding(u)
  }

  /** Threads whose `dispatch` picked `u` and has not delivered or released it. */
  ghost function DispatchPicks(s: Sys, u: StateId): set<Caller> {
    set t | t in s.threads && (s.threads[t].Picked? || s.threads[t].Undelivered?) && s.threads[t].u == u
  }

  /** Canceled waiters that took their ticket back and have not released it. */
  ghost function Retractions(s: Sys, u: StateId): set<Caller> {
    set t | t in s.threads && s.threads[t] == Retracted(u)
  }

  /** Slot conservation, in every state of every interleaving. */
  lemma SlotConservation(run: seq<Sys>, i: nat, u: StateId, cap: int)
    requires IsRun(run) && i < |run| && u in run[i].ups
    ensures var s := run[i];
            && s.ups[u].active ==
               |Sessions(s, u)| + |Tickets(s.q.tickets, u)| + |DispatchPicks(s, u)| + |Retractions(s, u)|
            && (CapBound(s, cap) ==> 0 <= s.ups[u].active <= cap)
  {
    RunInv(run, i);
    var s := run[i];
    assert Balanced(s, u);
    assert Holders(s.threads, u) == Sessions(s, u) + DispatchPicks(s, u) + Retractions(s, u);
    assert Sessions(s, u) !! DispatchPicks(s, u) !! Retractions(s, u);
  }

  /** No release ever meets a counter at zero: the clamp in `DecActive` never fires. */
  lemma ReleaseNeverClamps(run: seq<Sys>, i: nat, t: Caller)
    requires IsRun(run) && i < |run| && Enabled(run[i], Release(t))
    ensures run[i].threads[t].u in run[i].ups
    ensures run[i].ups[run[i].threads[t].u].active > 0
  {
    RunInv(run, i);
    var s, u := run[i], run[i].threads[t].u;
    assert KnownSlots(s, t) && Balanced(s, u);
    assert t in Holders(s.threads, u);
  }

  lemma QueuedWaits(s: Sys, w: Caller)
    requires WaiterInv(s) && w in s.q.queue
    ensures w in s.threads && s.threads[w].Waiting?
  {
    assert WaiterOk(s, w);
  }

  /** When every thread has finished, no upstream has an active slot left. */
  lemma AllDoneMeansIdle(run: seq<Sys>, i: nat, u: StateId)
    requires IsRun(run) && i < |run| && u in run[i].ups
    requires forall t :: t in run[i].threads ==> run[i].threads[t].Done?
    ensures run[i].ups[u].active == 0 && run[i].q.tickets == map[] && run[i].q.queue == []
  {
    RunInv(run, i);
    var s := run[i];
    if s.q.queue != [] {
      QueuedWaits(s, s.q.queue[0]);
    }
    forall w ensures w !in s.q.tickets {
      assert WaiterOk(s, w);
    }
    assert Balanced(s, u);
    assert Holders(s.threads, u) == {} && Tickets(s.q.tickets, u) == {};
  }

  /**
   The defensive branches are dead: `dispatch` never finds a canceled head or a
   full ticket channel, and `cancelWaiter` never finds neither queue entry nor ticket.
   */
  lemma DeadBranches(run: seq<Sys>, i: nat, t: Caller)
    requires IsRun(run) && i < |run|
    ensures var s := run[i];
            && !s.q.Inspect().1.SkippedCanceled?
            && (Enabled(s, HandOver(t)) ==>
                  var p := s.threads[t];
                  s.q.Deliver(p.head, p.u).1 <==> s.q.queue != [] && s.q.queue[0] == p.head)
            && (Enabled(s, GiveUp(t)) ==> (t in s.q.queue <==> s.q.Cancel(t).1.None?))
  {
    RunInv(run, i);
    var s := run[i];
    if s.q.queue != [] {
      assert WaiterOk(s, s.q.queue[0]);
    }
    assert WaiterOk(s, t);
  }

  /**
   Exactly once: a waiter that left its select either read the one ticket ever
   sent to it and was not canceled, or was canceled, read none and was never
   handed a slot.
   */
  lemma ExactlyOnce(run: seq<Sys>, i: nat, w: Caller)
    requires IsRun(run) && i < |run| && w in run[i].stamp
    ensures var s := run[i];
            && w in s.threads
            && Distinct(s.delivered)
            && !(w in s.received && w in s.q.canceled)
            && (w in s.received ==> w in s.delivered && w !in s.q.tickets)
            && (!s.threads[w].Waiting? <==> w in s.received || w in s.q.canceled)
            && (s.threads[w].Waiting? ==> (w in s.q.queue <==> w !in s.delivered))
            && (w in s.q.canceled ==> w !in s.q.queue && w !in s.q.tickets && !s.threads[w].Holding?)
  {
    RunInv(run, i);
    assert WaiterOk(run[i], w);
  }

  ghost predicate Grows(s: Sys, s': Sys) {
    && s.arrivals <= s'.arrivals && s.delivered <= s'.delivered
    && s.received <= s'.received && s.q.canceled <= s'.q.canceled
  }

  lemma GrowsNext(s: Sys, a: Action)
    requires Enabled(s, a)
    ensures Grows(s, Next(s, a))
  {
    match a
    case Enqueue(_) =>
    case TakeTicket(_) =>
    case GiveUp(_) =>
    case HandOver(_) =>
    case _ =>
  }

  lemma GrowsStep(run: seq<Sys>, k: nat)
    requires IsRun(run) && k + 1 < |run|
    ensures Grows(run[k], run[k + 1])
  {
    assert StepAt(run, k);
    var a :| Enabled(run[k], a) && run[k + 1] == Next(run[k], a);
    GrowsNext(run[k], a);
  }

  lemma GrowsTransitive(s: Sys, s': Sys, s'': Sys)
    requires Grows(s, s') && Grows(s', s'')
    ensures Grows(s, s'')
  {
  }

  /** What happened stays so: histories only grow along a run. */
  lemma HistoryGrows(run: seq<Sys>, i: nat, j: nat)
    requires IsRun(run) && i <= j < |run|
    ensures Grows(run[i], run[j])
  {
    for k := i to j
      invariant Grows(run[i], run[k])
    {
      GrowsStep(run, k);
      GrowsTransitive(run[i], run[k], run[k + 1]);
    }
  }

  lemma DeliveredBeforeQueued(s: Sys, d: Caller, w: Caller)
    requires Ordered(s) && d in s.delivered && w in s.q.queue
    ensures d in s.stamp && w in s.stamp && s.stamp[d] < s.stamp[w]
  {
  }

  /**
   FIFO among waiters: whoever got a ticket, everybody who joined the queue
   before has had a ticket or been canceled; and tickets were sent in the order
   in which their waiters joined.
   */
  lemma Fifo(run: seq<Sys>, i: nat, a: nat, b: nat)
    requires IsRun(run) && i < |run|
    requires a < b < |run[i].arrivals| && run[i].arrivals[b] in run[i].delivered
    ensures run[i].arrivals[a] in run[i].delivered || run[i].arrivals[a] in run[i].q.canceled
    ensures Increasing(run[i].delivered, run[i].stamp)
  {
    RunInv(run, i);
    var s := run[i];
    var early, late := s.arrivals[a], s.arrivals[b];
    assert WaiterOk(s, early);
    if early in s.q.queue {
      DeliveredBeforeQueued(s, late, early);
    }
  }

  /**
   FIFO at the moment of delivery, however many dispatches hold the same head:
   when `HandOver` sends a ticket, everybody who joined earlier already had one
   or was canceled.
   */
  lemma DeliveryIsFifo(run: seq<Sys>, i: nat, t: Caller, a: nat, b: nat)
    requires IsRun(run) && i + 1 < |run|
    requires Enabled(run[i], HandOver(t)) && run[i + 1] == Next(run[i], HandOver(t))
    requires run[i + 1].delivered == run[i].delivered + [run[i].threads[t].head]
    requires a < b < |run[i].arrivals| && run[i].arrivals[b] == run[i].threads[t].head
    ensures run[i].arrivals[a] in run[i].delivered || run[i].arrivals[a] in run[i].q.canceled
  {
    RunInv(run, i);
    var s := run[i];
    assert s.arrivals[b] in run[i + 1].delivered;
    Fifo(run, i + 1, a, b);
    assert s.arrivals[a] != s.arrivals[b];
  }

  // --- Who gets a slot, and when -----------------------------------------------

  /** Upstream `u` is in the pool, healthy, not draining and below `max`. */
  predicate HasRoom(s: Sys, u: StateId, max: int) {
    u in s.ups && s.ups[u].healthy && !s.ups[u].draining && s.ups[u].active < max
  }

  /** Step `a` picks `u`, and `u` has room for it. */
  predicate Gives(s: Sys, a: Action, u: StateId) {
    (a.FirstPick? || a.PickForHead?) && a.choice == Some(u) && HasRoom(s, u, a.max)
  }

  /** Step `a` gives a slot of `u` back. */
  predicate Frees(s: Sys, a: Action, u: StateId)
    requires Enabled(s, a)
  {
    a.Release? && s.threads[a.t].u == u
  }

  /** A thread leaves its own pick, or its pick for the head, with a slot if and only if its choice has room. */
  lemma PickIff(s: Sys, a: Action)
    requires Enabled(s, a) && (a.FirstPick? || a.PickForHead?)
    ensures var p, p' := s.threads[a.t], Next(s, a).threads[a.t];
            if a.choice.Some? && HasRoom(s, a.choice.value, a.max)
            then p' == if a.FirstPick? then Holding(a.choice.value) else Picked(p.head, a.choice.value, p.depth)
            else Carried(p').None? && (a.FirstPick? ==> p'.Unqueued?)
  {
  }

  /**
   Over every run: a counter goes up by one exactly in the steps that pick its
   upstream while that is healthy, not draining and below the cap, goes down by one
   exactly in the steps that give a slot of it back, and moves in no other step.
   */
  lemma CounterMovesIff(run: seq<Sys>, i: nat, a: Action, u: StateId)
    requires IsRun(run) && i < |run| && Enabled(run[i], a) && u in run[i].ups
    ensures var s, s' := run[i], Next(run[i], a);
            && u in s'.ups
            && s'.ups[u].active == s.ups[u].active + Unit(Gives(s, a, u)) - Unit(Frees(s, a, u))
  {
    if a.Release? {
      ReleaseNeverClamps(run, i, a.t);
    }
  }

  /** No step raises the counter of an upstream that is unhealthy or draining. */
  lemma NeverRaisedWhenDown(run: seq<Sys>, i: nat, u: StateId)
    requires IsRun(run) && i + 1 < |run| && u in run[i].ups
    requires !run[i].ups[u].healthy || run[i].ups[u].draining
    ensures u in run[i + 1].ups && run[i + 1].ups[u].active <= run[i].ups[u].active
  {
    assert StepAt(run, i);
    var a :| Enabled(run[i], a) && run[i + 1] == Next(run[i], a);
    CounterMovesIff(run, i, a, u);
  }

  /** The steps of the slot protocol change nothing else of an upstream. */
  lemma OnlyCounts(s: Sys, a: Action, u: StateId)
    requires Enabled(s, a) && u in s.ups && !(a.ChangeState? && a.u == u)
    ensures u in Next(s, a).ups
    ensures Next(s, a).ups[u] == s.ups[u].(active := Next(s, a).ups[u].active)
  {
  }

  /**
   What a dispatch finds: the waiter it sees is queued, and everybody who joined
   before it has had a ticket or been canceled; it sees none only if none is queued.
   */
  lemma HeadIsEarliest(run: seq<Sys>, i: nat, t: Caller, k: nat)
    requires IsRun(run) && i < |run| && Enabled(run[i], LookAtHead(t))
    ensures var s, s' := run[i], Next(run[i], LookAtHead(t));
            var p, p' := s.threads[t], s'.threads[t];
            && s'.q == s.q
            && (p'.AtHead? <==> s.q.queue != [])
            && (p'.AtHead? ==>
                  && p'.head in s.q.queue && p'.head in s.stamp && p'.depth == p.depth
                  && (k < s.stamp[p'.head] && k < |s.arrivals| ==> s.arrivals[k] in s.delivered || s.arrivals[k] in s.q.canceled))
  {
    RunInv(run, i);
    var s := run[i];
    if s.q.queue != [] {
      assert WaiterOk(s, s.q.queue[0]);
      if k < s.stamp[s.q.queue[0]] && k < |s.arrivals| {
        assert WaiterOk(s, s.arrivals[k]);
        HeadIsFirst(s.q.queue, s.stamp, s.arrivals[k]);
      }
    }
  }

  lemma HeadIsFirst(xs: seq<Caller>, stamp: map<Caller, nat>, w: Caller)
    requires Increasing(xs, stamp) && xs != [] && w in stamp && stamp[w] < stamp[xs[0]]
    ensures w !in xs
  {
  }

  /** A thread inside `dispatch`, and how many calls are suspended below. */
  predicate Dispatching(p: Phase) {
    p.AtTop? || p.AtHead? || p.Picked? || p.Undelivered?
  }

  /**
   Every release is followed by a dispatch, and a dispatch returns only when it has
   seen an empty queue or its pick for the head has failed.
   */
  lemma DispatchGoesOn(run: seq<Sys>, i: nat, a: Action)
    requires IsRun(run) && i < |run| && Enabled(run[i], a)
    requires a.Release? || a.LookAtHead? || a.PickForHead? || a.HandOver?
    ensures var s, p, p' := run[i], run[i].threads[a.t], Next(run[i], a).threads[a.t];
            var over := (a.LookAtHead? && s.q.queue == [])
                           || (a.PickForHead? && (a.choice.None? || !HasRoom(s, a.choice.value, a.max)));
            && (!over ==> Dispatching(p') && (a.Release? || p'.depth == p.depth))
            && (a.Release? ==> p' == AtTop(if p.Undelivered? then p.depth + 1 else 0))
            && (over ==> if p.depth == 0 then p'.Done? else p' == AtTop(p.depth - 1))
  {
    RunInv(run, i);
    if run[i].q.queue != [] {
      assert WaiterOk(run[i], run[i].q.queue[0]);
    }
  }

  /** No thread is ever stuck: in every phase but `Done` it has a step it can take. */
  lemma NeverStuck(s: Sys, t: Caller, max: int)
    requires t in s.threads && max in s.caps
    ensures match s.threads[t]
            case Picking => forall choice :: Enabled(s, FirstPick(t, choice, max))
            case Unqueued => Enabled(s, Enqueue(t))
            case Waiting => Enabled(s, GiveUp(t)) && (t in s.q.tickets ==> Enabled(s, TakeTicket(t)))
            case AtTop(_) => Enabled(s, LookAtHead(t))
            case AtHead(_, _) => forall choice :: Enabled(s, PickForHead(t, choice, max))
            case Picked(_, _, _) => Enabled(s, HandOver(t))
            case Done => true
            case _ => Enabled(s, Release(t))
  {
  }

  /**
   Callers start with a pick, probes with a dispatch, and a new upstream is idle and
   healthy; a reload adds a cap, and health and draining may change to anything.
   */
  lemma Beginnings(s: Sys, t: Caller, u: StateId)
    requires t !in s.threads && u !in s.ups
    ensures Next(s, Acquire(t)).threads[t] == Picking && Next(s, Probe(t)).threads[t] == AtTop(0)
    ensures var up := Next(s, AddState(u)).ups[u]; up.healthy && !up.draining && up.active == 0
    ensures forall v, up :: Enabled(s, ChangeState(v, up)) ==> Next(s, ChangeState(v, up)).ups[v] == up
    ensures forall max :: max in Next(s, Configure(max)).caps && s.caps <= Next(s, Configure(max)).caps
  {
  }
}
