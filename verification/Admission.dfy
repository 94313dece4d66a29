/**
 Admission of client sessions as a transition system: the accept loop of
 internal/balancer/balancer.go, the gates of internal/admission/gate.go and the
 gate swap of internal/balancer/reload.go.

 A session takes its token from the gate that was current when it was accepted
 and gives it back to that same gate, while reloads install new gates at any
 moment. Sending or receiving a token and updating `inflight` are separate steps.
 */
module Admission {
  import opened Common
  import opened Gate
  import T = Tracker

  type Sid = nat
  type Gid = nat

  datatype Reason = AdmissionFull | Canceled | WaitTimeout | NoVictim | EvictTimeout

  datatype Phase =
    | Accepted                              // connection accepted
    | Captured(g: Gid)                      // currentGate loaded
    | Full(g: Gid)                          // evict gate: tryAcquire failed, no victim chosen yet
    | Waiting(g: Gid, evicting: bool)       // in waitAcquire
    | Sent(g: Gid)                          // token in the channel, not yet counted
    | Counted(g: Gid)                       // Acquire returned Admitted or Evicted
    | Tracked(g: Gid)                       // in the tracker, being served
    | Untracked(g: Gid)                     // left the tracker, token not yet given back
    | Received(g: Gid)                      // token given back, not yet uncounted
    | Refused(reason: Reason)
    | Ended

  datatype Assignment = Assignment(upstreamID: string, prio: int)

  datatype Sys = Sys(
    gates: seq<Gate>,                       // every gate ever installed; the last is current
    sessions: map<Sid, Phase>,
    tracker: seq<Sid>,                      // oldest first
    given: map<Sid, Assignment>,         // the upstream a session was given last
    victims: seq<Sid>)                      // history: sessions closed by an eviction

  datatype Action =
    | Accept(s: Sid)
    | LoadGate(s: Sid)
    | TryAcquire(s: Sid)
    | ChooseVictim(s: Sid, k: nat)
    | WaitOver(s: Sid, timedOut: bool, canceled: bool)
    | Count(s: Sid)
    | Track(s: Sid)
    | Assign(s: Sid, to: Assignment)
    | Untrack(s: Sid)
    | GiveBack(s: Sid)
    | Uncount(s: Sid)
    | Swap(cap: nat, kind: Kind)

  predicate In(st: Sys, s: Sid) {
    s in st.sessions
  }

  /** The gate a session refers to exists. */
  predicate KnownGate(st: Sys, p: Phase) {
    p.Accepted? || p.Refused? || p.Ended? || p.g < |st.gates|
  }

  /** What the tracker has on session `s`. */
  function AssignmentOf(st: Sys, s: Sid): Assignment {
    if s in st.given then st.given[s] else Assignment("", 0)
  }

  /** The tracker's list. */
  function View(st: Sys): seq<T.Victim> {
    seq(|st.tracker|, i requires 0 <= i < |st.tracker| =>
      var a := AssignmentOf(st, st.tracker[i]); T.Victim(st.tracker[i], a.upstreamID, a.prio, 0))
  }

  /** The choice of the gate: the oldest session, or the one of lowest priority. */
  ghost predicate Chooses(st: Sys, kind: Kind, k: nat) {
    if kind.DropOldest? then k == 0 else T.IsWorst(View(st), k)
  }

  ghost predicate Enabled(st: Sys, a: Action) {
    match a
    case Accept(s) => s !in st.sessions
    case LoadGate(s) => In(st, s) && st.sessions[s].Accepted? && st.gates != []
    case TryAcquire(s) => In(st, s) && st.sessions[s].Captured? && KnownGate(st, st.sessions[s])
    case ChooseVictim(s, k) =>
      && In(st, s) && st.sessions[s].Full? && KnownGate(st, st.sessions[s])
      && (st.tracker == [] || (k < |st.tracker| && Chooses(st, st.gates[st.sessions[s].g].kind, k)))
    case WaitOver(s, timedOut, _) =>
      && In(st, s) && st.sessions[s].Waiting? && KnownGate(st, st.sessions[s])
      && (timedOut || st.gates[st.sessions[s].g].HasRoom())
    case Count(s) => In(st, s) && st.sessions[s].Sent? && KnownGate(st, st.sessions[s])
    case Track(s) => In(st, s) && st.sessions[s].Counted?
    case Assign(s, _) => In(st, s) && st.sessions[s].Tracked?
    case Untrack(s) => In(st, s) && st.sessions[s].Tracked?
    case GiveBack(s) => In(st, s) && st.sessions[s].Untracked? && KnownGate(st, st.sessions[s])
    case Uncount(s) => In(st, s) && st.sessions[s].Received? && KnownGate(st, st.sessions[s])
    case Swap(_, _) => true
  }

  function Go(st: Sys, s: Sid, p: Phase): Sys {
    st.(sessions := st.sessions[s := p])
  }

  function SetGate(st: Sys, g: Gid, gate: Gate): Sys
    requires g < |st.gates|
  {
    st.(gates := st.gates[g := gate])
  }

  /** Where a session goes when `tryAcquire` finds the gate full. */
  function WhenFull(g: Gid, kind: Kind): Phase {
    match kind
    case Reject => Refused(AdmissionFull)
    case Wait => Waiting(g, false)
    case _ => Full(g)
  }

  /** The reason given when `waitAcquire` fails. */
  function WaitReason(kind: Kind, evicting: bool, canceled: bool): Reason {
    if kind.Wait? then (if canceled then Canceled else WaitTimeout)
    else if evicting then EvictTimeout
    else NoVictim
  }

  function Next(st: Sys, a: Action): Sys
    requires Enabled(st, a)
  {
    match a
    case Accept(s) => Go(st, s, Accepted)
    case LoadGate(s) => Go(st, s, Captured(|st.gates| - 1))
    case TryAcquire(s) =>
      var g := st.sessions[s].g;
      if st.gates[g].HasRoom() then SetGate(Go(st, s, Sent(g)), g, st.gates[g].Send())
      else Go(st, s, WhenFull(g, st.gates[g].kind))
    case ChooseVictim(s, k) =>
      var g := st.sessions[s].g;
      if st.tracker == [] then Go(st, s, Waiting(g, false))
      else Go(st, s, Waiting(g, true)).(victims := st.victims + [st.tracker[k]])
    case WaitOver(s, timedOut, canceled) =>
      var p := st.sessions[s];
      if timedOut then Go(st, s, Refused(WaitReason(st.gates[p.g].kind, p.evicting, canceled)))
      else SetGate(Go(st, s, Sent(p.g)), p.g, st.gates[p.g].Send())
    case Count(s) =>
      var g := st.sessions[s].g;
      SetGate(Go(st, s, Counted(g)), g, st.gates[g].Add(1))
    case Track(s) =>
      Go(st, s, Tracked(st.sessions[s].g)).(tracker := T.Apply(st.tracker, T.Added(s)))
    case Assign(s, to) => st.(given := st.given[s := to])
    case Untrack(s) =>
      Go(st, s, Untracked(st.sessions[s].g)).(tracker := T.Apply(st.tracker, T.Released(s)))
    case GiveBack(s) =>
      var g := st.sessions[s].g;
      var (gate, ok) := st.gates[g].Receive();
      SetGate(Go(st, s, if ok then Received(g) else Ended), g, gate)
    case Uncount(s) =>
      var g := st.sessions[s].g;
      SetGate(Go(st, s, Ended), g, st.gates[g].Add(-1))
    case Swap(cap, kind) => st.(gates := st.gates + [NewGate(cap, kind)])
  }

  ghost predicate Steps(st: Sys, st': Sys) {
    exists a :: Enabled(st, a) && st' == Next(st, a)
  }

  ghost predicate IsRun(run: seq<Sys>) {
    && run != []
    && run[0] == Sys([], map[], [], map[], [])
    && forall i :: StepAt(run, i)
  }

  ghost predicate StepAt(run: seq<Sys>, i: int) {
    0 <= i < |run| - 1 ==> Steps(run[i], run[i + 1])
  }

  // --- The invariant --------------------------------------------------------

  /** The gate whose token the session holds. */
  function Token(p: Phase): Option<Gid> {
    match p
    case Sent(g) => Some(g)
    case Counted(g) => Some(g)
    case Tracked(g) => Some(g)
    case Untracked(g) => Some(g)
    case _ => None
  }

  /** The gate in whose `inflight` the session is counted. */
  function Counts(p: Phase): Option<Gid> {
    match p
    case Counted(g) => Some(g)
    case Tracked(g) => Some(g)
    case Untracked(g) => Some(g)
    case Received(g) => Some(g)
    case _ => None
  }

  /** The sessions that hold a token of `g`. */
  ghost function Holders(m: map<Sid, Phase>, g: Gid): set<Sid> {
    set s | s in m && Token(m[s]) == Some(g)
  }

  /** The sessions counted in `inflight` of `g`. */
  ghost function InFlight(m: map<Sid, Phase>, g: Gid): set<Sid> {
    set s | s in m && Counts(m[s]) == Some(g)
  }

  lemma HoldersChange(m: map<Sid, Phase>, g: Gid, s: Sid, p: Phase)
    ensures |Holders(m[s := p], g)| ==
            |Holders(m, g)| - Unit(s in m && Token(m[s]) == Some(g)) + Unit(Token(p) == Some(g))
  {
    CardChange(Holders(m, g), Holders(m[s := p], g), s);
  }

  lemma CountedChange(m: map<Sid, Phase>, g: Gid, s: Sid, p: Phase)
    ensures |InFlight(m[s := p], g)| ==
            |InFlight(m, g)| - Unit(s in m && Counts(m[s]) == Some(g)) + Unit(Counts(p) == Some(g))
  {
    CardChange(InFlight(m, g), InFlight(m[s := p], g), s);
  }

  /** The books of one gate. */
  ghost predicate Balanced(st: Sys, g: Gid) {
    g < |st.gates| ==> SlotsOk(st, g) && InflightOk(st, g)
  }

  ghost predicate SlotsOk(st: Sys, g: Gid)
    requires g < |st.gates|
  {
    st.gates[g].slots == |Holders(st.sessions, g)| <= st.gates[g].cap
  }

  ghost predicate InflightOk(st: Sys, g: Gid)
    requires g < |st.gates|
  {
    st.gates[g].inflight == |InFlight(st.sessions, g)|
  }

  ghost predicate SessionOk(st: Sys, s: Sid) {
    && (s in st.sessions ==> KnownGate(st, st.sessions[s]))
    && (s in st.tracker <==> s in st.sessions && st.sessions[s].Tracked?)
    && (s in st.given ==> s in st.sessions && (st.sessions[s].Tracked? || Left(st, s)))
  }

  /** `s` was tracked and has left the tracker for good. */
  predicate Left(st: Sys, s: Sid) {
    s in st.sessions && (st.sessions[s].Untracked? || st.sessions[s].Received? || st.sessions[s].Ended?)
  }

  ghost predicate Inv(st: Sys) {
    && (forall g :: Balanced(st, g))
    && (forall s :: SessionOk(st, s))
    && Distinct(st.tracker)
  }

  predicate MovesToken(a: Action) {
    a.TryAcquire? || a.WaitOver? || a.GiveBack?
  }

  /** A token moves with the session's hold on it. */
  lemma TokenStep(st: Sys, a: Action, g: Gid)
    requires g < |st.gates| && SlotsOk(st, g) && InflightOk(st, g) && Enabled(st, a) && MovesToken(a)
    ensures SlotsOk(Next(st, a), g) && InflightOk(Next(st, a), g)
  {
    var p := Next(st, a).sessions[a.s];
    HoldersChange(st.sessions, g, a.s, p);
    CountedChange(st.sessions, g, a.s, p);
    assert a.GiveBack? && st.sessions[a.s].g == g ==> a.s in Holders(st.sessions, g);
  }

  /** `inflight` moves with the session's count. */
  lemma CountStep(st: Sys, a: Action, g: Gid)
    requires g < |st.gates| && SlotsOk(st, g) && InflightOk(st, g) && Enabled(st, a) && (a.Count? || a.Uncount?)
    ensures SlotsOk(Next(st, a), g) && InflightOk(Next(st, a), g)
  {
    var p := Next(st, a).sessions[a.s];
    HoldersChange(st.sessions, g, a.s, p);
    CountedChange(st.sessions, g, a.s, p);
  }

  lemma BalancedStep(st: Sys, a: Action, g: Gid)
    requires Inv(st) && Enabled(st, a)
    ensures Balanced(Next(st, a), g)
  {
    assert Balanced(st, g);
    if a.Swap? {
      if g == |st.gates| {
        FreshGateUnused(st, g);
      }
    } else if a.Assign? || g >= |st.gates| {
    } else if MovesToken(a) {
      TokenStep(st, a, g);
    } else if a.Count? || a.Uncount? {
      CountStep(st, a, g);
    } else {
      HoldersChange(st.sessions, g, a.s, Next(st, a).sessions[a.s]);
      CountedChange(st.sessions, g, a.s, Next(st, a).sessions[a.s]);
    }
  }

  lemma FreshGateUnused(st: Sys, g: Gid)
    requires Inv(st) && g >= |st.gates|
    ensures Holders(st.sessions, g) == {} && InFlight(st.sessions, g) == {}
  {
    forall s ensures s !in Holders(st.sessions, g) && s !in InFlight(st.sessions, g) {
      assert SessionOk(st, s);
    }
  }

  lemma TrackerStep(st: Sys, a: Action)
    requires Inv(st) && Enabled(st, a)
    ensures Distinct(Next(st, a).tracker)
    ensures forall s :: SessionOk(Next(st, a), s)
  {
    var st' := Next(st, a);
    if a.Untrack? {
      WithoutKeeps(st.tracker, a.s);
    } else if a.Track? {
      assert SessionOk(st, a.s);
    }
    forall s ensures SessionOk(st', s) {
      SessionStep(st, a, s);
    }
  }

  lemma SessionStep(st: Sys, a: Action, s: Sid)
    requires Inv(st) && Enabled(st, a)
    ensures SessionOk(Next(st, a), s)
  {
    assert SessionOk(st, s);
    match a
    case Untrack(t) => WithoutKeeps(st.tracker, t);
    case Swap(_, _) =>
    case Assign(_, _) =>
    case _ => assert a.s != s ==> s in st.sessions ==> Next(st, a).sessions[s] == st.sessions[s];
  }

  lemma InvStep(st: Sys, a: Action)
    requires Inv(st) && Enabled(st, a)
    ensures Inv(Next(st, a))
  {
    forall g ensures Balanced(Next(st, a), g) {
      BalancedStep(st, a, g);
    }
    TrackerStep(st, a);
  }

  lemma {:induction false} RunInv(run: seq<Sys>, i: nat)
    requires IsRun(run) && i < |run|
    ensures Inv(run[i])
    decreases i
  {
    if i == 0 {
      assert forall s :: SessionOk(run[0], s);
    } else {
      RunInv(run, i - 1);
      assert StepAt(run, i - 1);
      var a :| Enabled(run[i - 1], a) && run[i] == Next(run[i - 1], a);
      InvStep(run[i - 1], a);
    }
  }

  // --- Main results ---------------------------------------------------------

  /** Sessions between taking a token of `g` and counting it. */
  ghost function JustSent(m: map<Sid, Phase>, g: Gid): set<Sid> {
    set s | s in m && m[s] == Sent(g)
  }

  /** Sessions between giving a token of `g` back and uncounting it. */
  ghost function JustReceived(m: map<Sid, Phase>, g: Gid): set<Sid> {
    set s | s in m && m[s] == Received(g)
  }

  lemma InFlightIs(m: map<Sid, Phase>, g: Gid)
    ensures InFlight(m, g) == Holders(m, g) - JustSent(m, g) + JustReceived(m, g)
    ensures JustSent(m, g) <= Holders(m, g) && JustReceived(m, g) !! Holders(m, g)
  {
  }

  lemma CountedSessions(m: map<Sid, Phase>, g: Gid)
    ensures |InFlight(m, g)| == |Holders(m, g)| - |JustSent(m, g)| + |JustReceived(m, g)|
  {
    InFlightIs(m, g);
    CardExchange(Holders(m, g), JustSent(m, g), JustReceived(m, g));
  }

  /**
   Gate conservation across hot swaps: for every gate ever installed, its tokens
   are exactly the sessions it admitted that have not released it, never more
   than its cap, and `inflight` differs only by operations that are mid-step.
   */
  lemma GateConservation(run: seq<Sys>, i: nat, g: Gid)
    requires IsRun(run) && i < |run| && g < |run[i].gates|
    ensures var st, gate := run[i], run[i].gates[g];
            && 0 <= gate.slots == |Holders(st.sessions, g)| <= gate.cap
            && gate.inflight == gate.slots - |JustSent(st.sessions, g)| + |JustReceived(st.sessions, g)|
  {
    RunInv(run, i);
    assert Balanced(run[i], g);
    CountedSessions(run[i].sessions, g);
  }

  /** The over-release branch of `Release` is dead: the channel always holds the session's token. */
  lemma NeverOverReleased(run: seq<Sys>, i: nat, s: Sid)
    requires IsRun(run) && i < |run| && Enabled(run[i], GiveBack(s))
    ensures run[i].gates[run[i].sessions[s].g].Receive().1
  {
    RunInv(run, i);
    var g := run[i].sessions[s].g;
    assert Balanced(run[i], g);
    assert s in Holders(run[i].sessions, g);
  }

  lemma OldestIsTracked(st: Sys)
    requires Inv(st) && st.tracker != []
    ensures st.tracker[0] in st.sessions && st.sessions[st.tracker[0]].Tracked?
  {
    assert SessionOk(st, st.tracker[0]);
  }

  /** When every session was refused or has ended, every gate is empty and the tracker too. */
  lemma AllOverMeansEmpty(run: seq<Sys>, i: nat, g: Gid)
    requires IsRun(run) && i < |run| && g < |run[i].gates|
    requires forall s :: s in run[i].sessions ==> run[i].sessions[s].Refused? || run[i].sessions[s].Ended?
    ensures run[i].gates[g].slots == 0 && run[i].gates[g].inflight == 0 && run[i].tracker == []
  {
    RunInv(run, i);
    var st := run[i];
    assert Balanced(st, g);
    assert Holders(st.sessions, g) == {} && InFlight(st.sessions, g) == {};
    if st.tracker != [] {
      OldestIsTracked(st);
    }
  }

  /** The tracker lists exactly the sessions being served, each holding a token of some gate. */
  lemma TrackedHoldTokens(run: seq<Sys>, i: nat, s: Sid)
    requires IsRun(run) && i < |run|
    ensures Distinct(run[i].tracker)
    ensures s in run[i].tracker <==> s in run[i].sessions && run[i].sessions[s].Tracked?
    ensures s in run[i].tracker ==>
              run[i].sessions[s].g < |run[i].gates| && s in Holders(run[i].sessions, run[i].sessions[s].g)
  {
    RunInv(run, i);
    assert SessionOk(run[i], s);
  }

  /** The session at `s` refers to gate `g`, or is over. */
  ghost predicate Bound(st: Sys, s: Sid, g: Gid) {
    && s in st.sessions && !st.sessions[s].Accepted?
    && (st.sessions[s].Refused? || st.sessions[s].Ended? || st.sessions[s].g == g)
  }

  lemma BoundStep(run: seq<Sys>, k: nat, s: Sid, g: Gid)
    requires IsRun(run) && k + 1 < |run| && Bound(run[k], s, g)
    ensures Bound(run[k + 1], s, g)
  {
    var st, st' := run[k], run[k + 1];
    assert StepAt(run, k);
    var a :| Enabled(st, a) && st' == Next(st, a);
    match a
    case Swap(_, _) =>
    case Assign(_, _) =>
    case _ => assert a.s != s ==> st'.sessions[s] == st.sessions[s];
  }

  /** A session deals with the gate it captured to its end, whatever is installed meanwhile. */
  lemma SessionKeepsGate(run: seq<Sys>, i: nat, j: nat, s: Sid, g: Gid)
    requires IsRun(run) && i <= j < |run|
    requires s in run[i].sessions && run[i].sessions[s] == Captured(g)
    ensures Bound(run[j], s, g)
  {
    for k := i to j
      invariant Bound(run[k], s, g)
    {
      BoundStep(run, k, s, g);
    }
  }

  // --- Who is admitted, who waits and who is refused ---------------------------

  /** A swap installs an empty gate with the cap and the kind asked for, and leaves the others. */
  lemma SwapInstalls(st: Sys, cap: nat, kind: Kind)
    ensures var gates := Next(st, Swap(cap, kind)).gates;
            && |gates| == |st.gates| + 1 && gates[..|st.gates|] == st.gates
            && var g := gates[|st.gates|]; g.cap == cap && g.kind == kind && g.slots == g.inflight == 0
  {
  }

  /** The tracker's list shows each session with the upstream it was given last, and none before the first. */
  lemma AssignIsSeen(run: seq<Sys>, i: nat, s: Sid, to: Assignment, k: nat)
    requires IsRun(run) && i < |run| && Enabled(run[i], Assign(s, to)) && k < |run[i].tracker|
    ensures var st' := Next(run[i], Assign(s, to));
            && st'.tracker == run[i].tracker && View(st')[k].conn == st'.tracker[k]
            && (st'.tracker[k] == s ==> View(st')[k].upstreamID == to.upstreamID && View(st')[k].prio == to.prio)
            && (st'.tracker[k] != s ==> View(st')[k] == View(run[i])[k])
            && (st'.tracker[k] !in st'.given ==> View(st')[k].upstreamID == "")
  {
  }

  /**
   No session is stuck: whatever it has got to, it has a step it can take; and one that
   waits can take a token as soon as fewer sessions than the cap hold one.
   */
  lemma NeverStuck(run: seq<Sys>, i: nat, s: Sid)
    requires IsRun(run) && i < |run| && s in run[i].sessions
    ensures var st, p := run[i], run[i].sessions[s];
            match p
            case Accepted => st.gates != [] ==> Enabled(st, LoadGate(s))
            case Captured(_) => Enabled(st, TryAcquire(s))
            case Full(_) => exists k :: Enabled(st, ChooseVictim(s, k))
            case Waiting(g, _) =>
              && Enabled(st, WaitOver(s, true, false)) && Enabled(st, WaitOver(s, true, true))
              && (Enabled(st, WaitOver(s, false, false)) <==> |Holders(st.sessions, g)| < st.gates[g].cap)
            case Sent(_) => Enabled(st, Count(s))
            case Counted(_) => Enabled(st, Track(s))
            case Tracked(_) => Enabled(st, Untrack(s)) && forall to :: Enabled(st, Assign(s, to))
            case Untracked(_) => Enabled(st, GiveBack(s))
            case Received(_) => Enabled(st, Uncount(s))
            case _ => true
  {
    RunInv(run, i);
    assert SessionOk(run[i], s);
    if run[i].sessions[s].Waiting? {
      assert Balanced(run[i], run[i].sessions[s].g);
    } else if run[i].sessions[s].Full? {
      var k := VictimExists(run[i], run[i].gates[run[i].sessions[s].g].kind);
      assert Enabled(run[i], ChooseVictim(s, k));
    }
  }

  lemma VictimExists(st: Sys, kind: Kind) returns (k: nat)
    ensures st.tracker != [] ==> k < |st.tracker| && Chooses(st, kind, k)
  {
    k := 0;
    if st.tracker != [] && !kind.DropOldest? {
      k := T.WorstExists(View(st));
    }
  }

  /** A session captures the gate installed last. */
  lemma CapturesCurrent(run: seq<Sys>, i: nat, s: Sid)
    requires IsRun(run) && i < |run| && Enabled(run[i], LoadGate(s))
    ensures var p := Next(run[i], LoadGate(s)).sessions[s]; p.Captured? && p.g + 1 == |run[i].gates|
  {
  }

  /**
   The first try takes a token if and only if fewer sessions than the cap hold one.
   Otherwise a rejecting gate refuses, a waiting gate waits, and an evicting gate
   goes on to choose a victim.
   */
  lemma FirstTryIff(run: seq<Sys>, i: nat, s: Sid)
    requires IsRun(run) && i < |run| && Enabled(run[i], TryAcquire(s))
    ensures var st, g := run[i], run[i].sessions[s].g;
            var p := Next(st, TryAcquire(s)).sessions[s];
            && (p == Sent(g) <==> |Holders(st.sessions, g)| < st.gates[g].cap)
            && (p != Sent(g) ==>
                  && (st.gates[g].kind == Reject <==> p == Refused(AdmissionFull))
                  && (st.gates[g].kind == Wait <==> p == Waiting(g, false))
                  && (st.gates[g].kind == DropOldest || st.gates[g].kind == DropLowestPriority <==> p == Full(g)))
  {
    RunInv(run, i);
    assert Balanced(run[i], run[i].sessions[s].g);
  }

  /** An evicting gate closes one tracked session if there is one, and then waits either way. */
  lemma VictimIff(run: seq<Sys>, i: nat, s: Sid, k: nat)
    requires IsRun(run) && i < |run| && Enabled(run[i], ChooseVictim(s, k))
    ensures var st, st' := run[i], Next(run[i], ChooseVictim(s, k));
            && st'.sessions[s] == Waiting(st.sessions[s].g, st.tracker != [])
            && |st'.victims| == |st.victims| + Unit(st.tracker != [])
            && (st.tracker != [] ==> st'.victims[|st.victims|] in st.tracker && st'.victims[..|st.victims|] == st.victims)
            && (st.tracker != [] && st.gates[st.sessions[s].g].kind == DropOldest ==>
                  st'.victims[|st.victims|] == st.tracker[0])
            && st'.tracker == st.tracker && st'.gates == st.gates
  {
  }

  /** A wait ends with a token that the cap allows, or with the refusal that its gate gives. */
  lemma WaitEndsIff(run: seq<Sys>, i: nat, s: Sid, timedOut: bool, canceled: bool)
    requires IsRun(run) && i < |run| && Enabled(run[i], WaitOver(s, timedOut, canceled))
    ensures var st, p := run[i], run[i].sessions[s];
            var p', evicts := Next(st, WaitOver(s, timedOut, canceled)).sessions[s], !st.gates[p.g].kind.Wait?;
            && (p' == Sent(p.g) <==> !timedOut) && (timedOut <==> p'.Refused?)
            && (!timedOut ==> |Holders(st.sessions, p.g)| < st.gates[p.g].cap)
            && (timedOut ==>
                  && (p'.reason == Canceled <==> !evicts && canceled)
                  && (p'.reason == WaitTimeout <==> !evicts && !canceled)
                  && (p'.reason == EvictTimeout <==> evicts && p.evicting)
                  && (p'.reason == NoVictim <==> evicts && !p.evicting))
  {
    RunInv(run, i);
    assert Balanced(run[i], run[i].sessions[s].g);
  }

  // --- Which session an eviction closes ---------------------------------------

  /** Step `i` is an eviction under a gate of kind `kind` that closes `v`. */
  ghost predicate Evicts(run: seq<Sys>, i: nat, kind: Kind, v: Sid) {
    && i + 1 < |run| && run[i].tracker != []
    && exists s, k :: EvictsBy(run, i, kind, v, s, k)
  }

  ghost predicate EvictsBy(run: seq<Sys>, i: nat, kind: Kind, v: Sid, s: Sid, k: nat)
    requires i + 1 < |run|
  {
    && Enabled(run[i], ChooseVictim(s, k)) && run[i + 1] == Next(run[i], ChooseVictim(s, k))
    && run[i].gates[run[i].sessions[s].g].kind == kind
    && k < |run[i].tracker| && run[i].tracker[k] == v
  }

  /** An eviction is what the history of victims records. */
  lemma EvictionIsRecorded(run: seq<Sys>, i: nat, kind: Kind, v: Sid)
    requires IsRun(run) && Evicts(run, i, kind, v)
    ensures run[i + 1].victims == run[i].victims + [v]
    ensures v in run[i].tracker
  {
    var s, k :| EvictsBy(run, i, kind, v, s, k);
  }

  /** `u` comes before `v` in the tracker. */
  ghost predicate Older(tracker: seq<Sid>, u: Sid, v: Sid) {
    exists i, j :: 0 <= i < j < |tracker| && tracker[i] == u && tracker[j] == v
  }

  /** `u` goes before `v` as a drop-lowest-priority victim. */
  ghost predicate Outranks(st: Sys, u: Sid, v: Sid) {
    var a, b := AssignmentOf(st, u), AssignmentOf(st, v);
    if a.upstreamID == "" then b.upstreamID == "" && Older(st.tracker, u, v)
    else b.upstreamID == "" || a.prio > b.prio || (a.prio == b.prio && Older(st.tracker, u, v))
  }

  /** Nobody in the tracker goes before `v`. */
  ghost predicate Unmatched(st: Sys, v: Sid) {
    v in st.tracker && forall u :: u in st.tracker && u != v ==> !Outranks(st, u, v)
  }

  lemma OlderIs(tracker: seq<Sid>, i: nat, k: nat)
    requires Distinct(tracker) && i < |tracker| && k < |tracker|
    ensures Older(tracker, tracker[i], tracker[k]) <==> i < k
  {
  }

  lemma WorstIsUnmatched(st: Sys, k: nat)
    requires Distinct(st.tracker) && k < |st.tracker|
    ensures T.IsWorst(View(st), k) <==> Unmatched(st, st.tracker[k])
  {
    var vs, v := View(st), st.tracker[k];
    forall i | 0 <= i < |vs| && i != k ensures T.Beats(vs, i, k) <==> Outranks(st, st.tracker[i], v) {
      OlderIs(st.tracker, i, k);
    }
    T.WorstIffUnbeaten(vs, k);
    if Unmatched(st, v) {
      forall i | 0 <= i < |vs| && i != k ensures !T.Beats(vs, i, k) {
        assert st.tracker[i] in st.tracker && st.tracker[i] != v;
      }
    }
  }

  /** The victim of an eviction, by kind. */
  lemma VictimIs(run: seq<Sys>, i: nat, kind: Kind, v: Sid)
    requires IsRun(run) && Evicts(run, i, kind, v)
    ensures if kind.DropOldest? then v == run[i].tracker[0] else Unmatched(run[i], v)
  {
    RunInv(run, i);
    var s, k :| EvictsBy(run, i, kind, v, s, k);
    WorstIsUnmatched(run[i], k);
  }

  /** Two sessions that nobody goes before are the same. */
  lemma UnmatchedIsUnique(st: Sys, v: Sid, w: Sid)
    requires Distinct(st.tracker) && Unmatched(st, v) && Unmatched(st, w)
    ensures v == w
  {
    var i :| 0 <= i < |st.tracker| && st.tracker[i] == v;
    var j :| 0 <= j < |st.tracker| && st.tracker[j] == w;
    OlderIs(st.tracker, i, j);
    OlderIs(st.tracker, j, i);
  }

  // --- How the tracker changes --------------------------------------------------

  /** Along a step: whoever comes before a session that stays came before it already. */
  ghost predicate KeepsElders(st: Sys, st': Sys) {
    forall u, v :: v in st.tracker && Older(st'.tracker, u, v) ==> Older(st.tracker, u, v)
  }

  lemma AddKeepsElders(tracker: seq<Sid>, s: Sid, u: Sid, v: Sid)
    requires s !in tracker && v in tracker && Older(tracker + [s], u, v)
    ensures Older(tracker, u, v)
  {
    var i, j :| 0 <= i < j < |tracker + [s]| && (tracker + [s])[i] == u && (tracker + [s])[j] == v;
  }

  lemma RemoveKeepsElders(tracker: seq<Sid>, s: Sid, u: Sid, v: Sid)
    requires Distinct(tracker) && s in tracker && Older(Without(tracker, s), u, v)
    ensures Older(tracker, u, v)
  {
    var r := Without(tracker, s);
    var i, j :| 0 <= i < j < |r| && r[i] == u && r[j] == v;
    var i', j' := T.StaysInOrder(tracker, s, i, j);
    assert tracker[i'] == u && tracker[j'] == v;
  }

  lemma StepKeepsElders(st: Sys, a: Action)
    requires Inv(st) && Enabled(st, a)
    ensures KeepsElders(st, Next(st, a))
  {
    var st' := Next(st, a);
    forall u, v | v in st.tracker && Older(st'.tracker, u, v) ensures Older(st.tracker, u, v) {
      if a.Track? {
        assert SessionOk(st, a.s);
        AddKeepsElders(st.tracker, a.s, u, v);
      } else if a.Untrack? {
        assert SessionOk(st, a.s);
        RemoveKeepsElders(st.tracker, a.s, u, v);
      }
    }
  }

  /** Who left the tracker does not come back. */
  lemma LeftForGood(run: seq<Sys>, i: nat, j: nat, v: Sid)
    requires IsRun(run) && i <= j < |run| && Left(run[i], v)
    ensures Left(run[j], v)
  {
    for k := i to j
      invariant Left(run[k], v)
    {
      LeftStep(run, k, v);
    }
  }

  lemma LeftStep(run: seq<Sys>, k: nat, v: Sid)
    requires IsRun(run) && k + 1 < |run| && Left(run[k], v)
    ensures Left(run[k + 1], v)
  {
    var st, st' := run[k], run[k + 1];
    assert StepAt(run, k);
    var a :| Enabled(st, a) && st' == Next(st, a);
    match a
    case Swap(_, _) =>
    case Assign(_, _) =>
    case _ => assert a.s != v ==> st'.sessions[v] == st.sessions[v];
  }

  /** A session tracked at `i` and at `j` was tracked all the time, and has no new elders. */
  lemma EldersBefore(run: seq<Sys>, i: nat, j: nat, u: Sid, v: Sid)
    requires IsRun(run) && i <= j < |run| && v in run[i].tracker && Older(run[j].tracker, u, v)
    ensures Older(run[i].tracker, u, v)
    decreases j - i
  {
    if i < j {
      RunInv(run, i);
      assert StepAt(run, i);
      var a :| Enabled(run[i], a) && run[i + 1] == Next(run[i], a);
      StaysTracked(run, i, j, v);
      EldersBefore(run, i + 1, j, u, v);
      StepKeepsElders(run[i], a);
    }
  }

  lemma StaysTracked(run: seq<Sys>, i: nat, j: nat, v: Sid)
    requires IsRun(run) && i < j < |run| && v in run[i].tracker && v in run[j].tracker
    ensures v in run[i + 1].tracker
  {
    RunInv(run, i);
    RunInv(run, i + 1);
    RunInv(run, j);
    assert SessionOk(run[i], v) && SessionOk(run[i + 1], v) && SessionOk(run[j], v);
    TrackedOrLeft(run, i, v);
    if Left(run[i + 1], v) {
      LeftForGood(run, i + 1, j, v);
    }
  }

  lemma TrackedOrLeft(run: seq<Sys>, i: nat, v: Sid)
    requires IsRun(run) && i + 1 < |run| && v in run[i].sessions && run[i].sessions[v].Tracked?
    ensures v in run[i + 1].sessions && (run[i + 1].sessions[v].Tracked? || Left(run[i + 1], v))
  {
    var st, st' := run[i], run[i + 1];
    assert StepAt(run, i);
    var a :| Enabled(st, a) && st' == Next(st, a);
    match a
    case Swap(_, _) =>
    case Assign(_, _) =>
    case _ => assert a.s != v ==> st'.sessions[v] == st.sessions[v];
  }

  // --- When an eviction repeats -------------------------------------------------

  /**
   The source says that evictions never pick and close the same session twice. They
   do. Under drop-oldest, a later eviction closes the same session if and only if it
   is still in the tracker.
   */
  lemma OldestVictimRepeatsIff(run: seq<Sys>, i: nat, j: nat, v: Sid, w: Sid)
    requires IsRun(run) && i < j && Evicts(run, i, DropOldest, v) && Evicts(run, j, DropOldest, w)
    ensures w == v <==> v in run[j].tracker
  {
    VictimIs(run, i, DropOldest, v);
    VictimIs(run, j, DropOldest, w);
    RunInv(run, i);
    EvictionIsRecorded(run, j, DropOldest, w);
    if v in run[j].tracker && w != v {
      var k :| 0 <= k < |run[j].tracker| && run[j].tracker[k] == v;
      OlderIs0(run, j, k, w, v);
      EldersBefore(run, i, j, w, v);
      NobodyOlder(run[i].tracker, w, v);
    }
  }

  lemma OlderIs0(run: seq<Sys>, j: nat, k: nat, w: Sid, v: Sid)
    requires j < |run| && 0 < k < |run[j].tracker| && run[j].tracker[0] == w && run[j].tracker[k] == v
    ensures Older(run[j].tracker, w, v)
  {
  }

  lemma NobodyOlder(tracker: seq<Sid>, u: Sid, v: Sid)
    requires Distinct(tracker) && tracker != [] && tracker[0] == v
    ensures !Older(tracker, u, v)
  {
  }

  /** `u` or `v` has been given another upstream between `st` and `st'`. */
  predicate Reassigned(st: Sys, st': Sys, u: Sid, v: Sid) {
    AssignmentOf(st, u) != AssignmentOf(st', u) || AssignmentOf(st, v) != AssignmentOf(st', v)
  }

  /** Between two sessions whose assignments stay, the ranking stays. */
  lemma RankStays(run: seq<Sys>, i: nat, j: nat, u: Sid, v: Sid)
    requires IsRun(run) && i <= j < |run| && Unmatched(run[i], v) && v in run[j].tracker
    requires u in run[j].tracker && u != v && !Reassigned(run[i], run[j], u, v)
    ensures !Outranks(run[j], u, v)
  {
    if Older(run[j].tracker, u, v) {
      EldersBefore(run, i, j, u, v);
    }
    if u !in run[i].tracker {
      NewIsUnassigned(run, i, j, u);
    }
  }

  /**
   Under drop-lowest-priority a later eviction closes the same session if and only if
   it is still in the tracker and none of those that were given another upstream since,
   if it was not itself, goes before it now.
   */
  lemma WorstVictimRepeatsIff(run: seq<Sys>, i: nat, j: nat, v: Sid, w: Sid)
    requires IsRun(run) && i < j && Evicts(run, i, DropLowestPriority, v) && Evicts(run, j, DropLowestPriority, w)
    ensures w == v <==>
            && v in run[j].tracker
            && forall u :: u in run[j].tracker && u != v && Reassigned(run[i], run[j], u, v) ==> !Outranks(run[j], u, v)
  {
    VictimIs(run, i, DropLowestPriority, v);
    VictimIs(run, j, DropLowestPriority, w);
    RunInv(run, j);
    if v in run[j].tracker
       && forall u :: u in run[j].tracker && u != v && Reassigned(run[i], run[j], u, v) ==> !Outranks(run[j], u, v) {
      forall u | u in run[j].tracker && u != v ensures !Outranks(run[j], u, v) {
        if !Reassigned(run[i], run[j], u, v) {
          RankStays(run, i, j, u, v);
        }
      }
      UnmatchedIsUnique(run[j], v, w);
    }
  }

  lemma NewIsUnassigned(run: seq<Sys>, i: nat, j: nat, u: Sid)
    requires IsRun(run) && i <= j < |run| && u !in run[i].tracker && u in run[j].tracker
    ensures u !in run[i].given
  {
    RunInv(run, i);
    RunInv(run, j);
    assert SessionOk(run[i], u) && SessionOk(run[j], u);
    if u in run[i].given {
      LeftForGood(run, i, j, u);
    }
  }

  /**
   So under either kind, as long as no session is given another upstream in between,
   a later eviction closes the same session if and only if it is still in the tracker.
   */
  lemma VictimRepeatsIff(run: seq<Sys>, i: nat, j: nat, kind: Kind, v: Sid, w: Sid)
    requires IsRun(run) && i < j && Evicts(run, i, kind, v) && Evicts(run, j, kind, w)
    requires kind.DropOldest? || (kind.DropLowestPriority? && run[j].given == run[i].given)
    ensures w == v <==> v in run[j].tracker
  {
    if kind.DropOldest? {
      OldestVictimRepeatsIff(run, i, j, v, w);
    } else {
      WorstVictimRepeatsIff(run, i, j, v, w);
    }
  }

  // --- A run of the accept loop in which it repeats -------------------------------

  /** The accept loop is in `Acquire` for at most one session at a time. */
  ghost predicate Serial(st: Sys) {
    forall s, t :: s in st.sessions && t in st.sessions && Acquiring(st.sessions[s]) && Acquiring(st.sessions[t]) ==> s == t
  }

  predicate Acquiring(p: Phase) {
    p.Captured? || p.Full? || p.Waiting? || p.Sent?
  }

  ghost predicate IsSerialRun(run: seq<Sys>) {
    IsRun(run) && forall i :: 0 <= i < |run| ==> Serial(run[i])
  }

  lemma AndThen(run: seq<Sys>, a: Action) returns (run': seq<Sys>)
    requires IsSerialRun(run) && Enabled(run[|run| - 1], a) && Serial(Next(run[|run| - 1], a))
    ensures IsSerialRun(run') && |run'| == |run| + 1 && run <= run' && run'[|run|] == Next(run[|run| - 1], a)
  {
    run' := run + [Next(run[|run| - 1], a)];
    assert Steps(run[|run| - 1], Next(run[|run| - 1], a));
    forall i ensures StepAt(run', i) {
      assert StepAt(run, i);
    }
  }

  /** The one gate is full, session 0 is the only one tracked, and nobody but `s` is being admitted. */
  ghost predicate OnlyArrives(st: Sys, kind: Kind, s: Sid) {
    && |st.gates| == 1 && st.gates[0].kind == kind && !st.gates[0].HasRoom()
    && st.tracker == [0] && 0 !in st.given
    && forall t :: t in st.sessions && t != s ==> !Acquiring(st.sessions[t])
  }

  lemma FirstIsVictim(st: Sys, kind: Kind)
    requires st.tracker == [0] && 0 !in st.given
    ensures Chooses(st, kind, 0)
  {
    var vs := View(st);
    assert |vs| == 1 && vs[0].upstreamID == "";
  }

  /** A gate for one session is installed, and session 0 is accepted. */
  lemma FirstArrives(kind: Kind) returns (run: seq<Sys>)
    ensures IsSerialRun(run)
    ensures run[|run| - 1] == Sys([NewGate(1, kind)], map[0 := Accepted], [], map[], [])
  {
    run := [Sys([], map[], [], map[], [])];
    run := AndThen(run, Swap(1, kind));
    assert run[|run| - 1] == Sys([NewGate(1, kind)], map[], [], map[], []);
    run := AndThen(run, Accept(0));
  }

  /** It takes the only token. */
  lemma FirstIsAdmitted(kind: Kind) returns (run: seq<Sys>)
    ensures IsSerialRun(run)
    ensures run[|run| - 1] == Sys([NewGate(1, kind).Send()], map[0 := Sent(0)], [], map[], [])
  {
    run := FirstArrives(kind);
    run := AndThen(run, LoadGate(0));
    assert run[|run| - 1] == Sys([NewGate(1, kind)], map[0 := Captured(0)], [], map[], []);
    run := AndThen(run, TryAcquire(0));
  }

  /** It is counted and tracked. */
  lemma FirstIsServed(kind: Kind) returns (run: seq<Sys>)
    ensures IsSerialRun(run) && OnlyArrives(run[|run| - 1], kind, 1)
    ensures run[|run| - 1].victims == [] && run[|run| - 1].sessions.Keys == {0}
  {
    run := FirstIsAdmitted(kind);
    var gate := NewGate(1, kind).Send().Add(1);
    run := AndThen(run, Count(0));
    assert run[|run| - 1] == Sys([gate], map[0 := Counted(0)], [], map[], []);
    run := AndThen(run, Track(0));
    assert T.Apply([], T.Added(0)) == [0];
    assert run[|run| - 1] == Sys([gate], map[0 := Tracked(0)], [0], map[], []);
  }

  /** The next step of session `s`, from its arrival until it gives up waiting. */
  function NextOf(p: Option<Phase>, s: Sid): Action {
    if p.None? then Accept(s)
    else match p.value
      case Accepted => LoadGate(s)
      case Captured(_) => TryAcquire(s)
      case Full(_) => ChooseVictim(s, 0)
      case _ => WaitOver(s, true, false)
  }

  function PhaseOf(st: Sys, s: Sid): Option<Phase> {
    if s in st.sessions then Some(st.sessions[s]) else None
  }

  function After(p: Option<Phase>): Phase {
    if p.None? then Accepted
    else match p.value
      case Accepted => Captured(0)
      case Captured(_) => Full(0)
      case Full(_) => Waiting(0, true)
      case _ => Refused(EvictTimeout)
  }

  predicate Expected(p: Option<Phase>) {
    p.None? || p.value in {Accepted, Captured(0), Full(0), Waiting(0, true)}
  }

  lemma Proceeds(st: Sys, kind: Kind, s: Sid)
    requires kind.DropOldest? || kind.DropLowestPriority?
    requires OnlyArrives(st, kind, s) && Expected(PhaseOf(st, s))
    ensures var p, a := PhaseOf(st, s), NextOf(PhaseOf(st, s), s);
            && Enabled(st, a) && OnlyArrives(Next(st, a), kind, s) && PhaseOf(Next(st, a), s) == Some(After(p))
            && Next(st, a).sessions.Keys == st.sessions.Keys + {s}
            && Next(st, a).victims == if p == Some(Full(0)) then st.victims + [0] else st.victims
  {
    FirstIsVictim(st, kind);
  }

  lemma ProceedsInRun(run: seq<Sys>, kind: Kind, s: Sid) returns (run': seq<Sys>)
    requires kind.DropOldest? || kind.DropLowestPriority?
    requires IsSerialRun(run) && OnlyArrives(run[|run| - 1], kind, s) && Expected(PhaseOf(run[|run| - 1], s))
    ensures IsSerialRun(run') && run <= run' && |run'| == |run| + 1 && OnlyArrives(run'[|run|], kind, s)
    ensures var st, st' := run[|run| - 1], run'[|run|];
            && st' == Next(st, NextOf(PhaseOf(st, s), s)) && PhaseOf(st', s) == Some(After(PhaseOf(st, s)))
            && st'.sessions.Keys == st.sessions.Keys + {s}
            && Enabled(st, NextOf(PhaseOf(st, s), s))
            && st'.victims == if PhaseOf(st, s) == Some(Full(0)) then st.victims + [0] else st.victims
  {
    Proceeds(run[|run| - 1], kind, s);
    run' := AndThen(run, NextOf(PhaseOf(run[|run| - 1], s), s));
  }

  /** A new session finds the gate full. */
  lemma FindsItFull(run: seq<Sys>, kind: Kind, s: Sid) returns (run': seq<Sys>)
    requires kind.DropOldest? || kind.DropLowestPriority?
    requires IsSerialRun(run) && OnlyArrives(run[|run| - 1], kind, s) && s !in run[|run| - 1].sessions
    ensures IsSerialRun(run') && run <= run' && |run'| == |run| + 3 && OnlyArrives(run'[|run| + 2], kind, s)
    ensures PhaseOf(run'[|run| + 2], s) == Some(Full(0))
    ensures run'[|run| + 2].sessions.Keys == run[|run| - 1].sessions.Keys + {s}
    ensures run'[|run| + 2].victims == run[|run| - 1].victims
  {
    run' := ProceedsInRun(run, kind, s);
    run' := ProceedsInRun(run', kind, s);
    run' := ProceedsInRun(run', kind, s);
  }

  /** It has session 0 closed. */
  lemma HasItClosed(run: seq<Sys>, kind: Kind, s: Sid) returns (run': seq<Sys>)
    requires kind.DropOldest? || kind.DropLowestPriority?
    requires IsSerialRun(run) && OnlyArrives(run[|run| - 1], kind, s) && PhaseOf(run[|run| - 1], s) == Some(Full(0))
    ensures IsSerialRun(run') && run <= run' && |run'| == |run| + 1 && OnlyArrives(run'[|run|], kind, s)
    ensures PhaseOf(run'[|run|], s) == Some(Waiting(0, true)) && Evicts(run', |run| - 1, kind, 0)
    ensures run'[|run|].sessions.Keys == run[|run| - 1].sessions.Keys
    ensures run'[|run|].victims == run[|run| - 1].victims + [0]
  {
    run' := ProceedsInRun(run, kind, s);
    assert EvictsBy(run', |run| - 1, kind, 0, s, 0);
  }

  lemma GivesUp()
    ensures After(Some(Waiting(0, true))) == Refused(EvictTimeout)
  {
  }

  /** And it gives up waiting. */
  lemma ClosesTheFirst(run: seq<Sys>, kind: Kind, s: Sid) returns (run': seq<Sys>)
    requires kind.DropOldest? || kind.DropLowestPriority?
    requires IsSerialRun(run) && OnlyArrives(run[|run| - 1], kind, s) && s !in run[|run| - 1].sessions
    ensures IsSerialRun(run') && run <= run' && |run'| == |run| + 5 && Evicts(run', |run| + 2, kind, 0)
    ensures OnlyArrives(run'[|run| + 4], kind, s) && PhaseOf(run'[|run| + 4], s) == Some(Refused(EvictTimeout))
    ensures run'[|run| + 4].sessions.Keys == run[|run| - 1].sessions.Keys + {s}
    ensures run'[|run| + 4].victims == run[|run| - 1].victims + [0]
  {
    var full := FindsItFull(run, kind, s);
    var closed := HasItClosed(full, kind, s);
    GivesUp();
    run' := ProceedsInRun(closed, kind, s);
    EvictsInPrefix(closed, run', |run| + 2, kind, 0);
  }

  /**
   Two clients after the first: under either kind of eviction both have session 0
   closed, although the accept loop admits one client at a time.
   */
  lemma SameVictimTwice(kind: Kind) returns (run: seq<Sys>, i: nat, j: nat)
    requires kind.DropOldest? || kind.DropLowestPriority?
    ensures IsSerialRun(run) && i < j && Evicts(run, i, kind, 0) && Evicts(run, j, kind, 0)
    ensures run[|run| - 1].victims == [0, 0]
  {
    var served := FirstIsServed(kind);
    var first := ClosesTheFirst(served, kind, 1);
    run := ClosesTheFirst(first, kind, 2);
    i, j := |served| + 2, |first| + 2;
    EvictsInPrefix(first, run, i, kind, 0);
  }

  lemma EvictsInPrefix(run: seq<Sys>, run': seq<Sys>, i: nat, kind: Kind, v: Sid)
    requires run <= run' && Evicts(run, i, kind, v)
    ensures Evicts(run', i, kind, v)
  {
    var s, k :| EvictsBy(run, i, kind, v, s, k);
    assert EvictsBy(run', i, kind, v, s, k);
  }
}
