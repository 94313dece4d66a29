/**
 The supervisor of internal/balancer/manager.go: `Start` waits for reports of
 groups whose `Serve` returned and shuts everything down on the first one that is
 not marked retired. Reloads, exits, reports and calls of `Shutdown` from outside
 interleave freely, and a group may be served by more than one goroutine.
 */
module Supervisor {
  type Group = nat

  /** One goroutine of `startGroupLocked`. */
  type Server = nat

  /** Why a `Serve` returned. */
  datatype Cause = Failed | Removed | GlobalStop

  datatype Life =
    | Serving(g: Group)
    | Returned(g: Group, cause: Cause)
    | Reported(g: Group, cause: Cause, retired: bool)

  datatype Sys = Sys(
    life: map<Server, Life>,
    retired: set<Group>,
    down: set<Group>,        // shut down by a reload
    stopping: bool,          // Shutdown of the whole manager was called
    ctxDone: bool,           // the context of Start ended
    asked: bool)             // history: Shutdown was called from outside

  datatype Action =
    | Launch(t: Server, g: Group)
    | Retire(g: Group)
    | TearDown(g: Group)
    | Fail(t: Server)
    | Stop(t: Server, cause: Cause)
    | Report(t: Server)
    | EndContext
    | AskShutdown            // main calls Shutdown on a signal
    | SupervisorStops        // Start calls Shutdown

  /** A report that makes `Start` stop everything. */
  predicate Alarming(s: Sys, t: Server) {
    t in s.life && s.life[t].Reported? && !s.life[t].retired
  }

  ghost predicate Enabled(s: Sys, a: Action) {
    match a
    case Launch(t, _) => t !in s.life
    case TearDown(g) => g in s.retired            // a removed group is retired first
    case Fail(t) => t in s.life && s.life[t].Serving?
    case Stop(t, cause) =>
      && t in s.life && s.life[t].Serving?
      && ((cause == Removed && s.life[t].g in s.down) || (cause == GlobalStop && s.stopping))
    case Report(t) => t in s.life && s.life[t].Returned?
    case SupervisorStops => s.ctxDone || exists t :: Alarming(s, t)
    case _ => true
  }

  function Next(s: Sys, a: Action): Sys
    requires Enabled(s, a)
  {
    match a
    case Launch(t, g) => s.(life := s.life[t := Serving(g)])
    case Retire(g) => s.(retired := s.retired + {g})
    case TearDown(g) => s.(down := s.down + {g})
    case Fail(t) => s.(life := s.life[t := Returned(s.life[t].g, Failed)])
    case Stop(t, cause) => s.(life := s.life[t := Returned(s.life[t].g, cause)])
    case Report(t) => s.(life := s.life[t := Reported(s.life[t].g, s.life[t].cause, s.life[t].g in s.retired)])
    case EndContext => s.(ctxDone := true)
    case AskShutdown => s.(stopping := true, asked := true)
    case SupervisorStops => s.(stopping := true)
  }

  ghost predicate StepAt(run: seq<Sys>, i: int) {
    0 <= i < |run| - 1 ==> Steps(run[i], run[i + 1])
  }

  ghost predicate Steps(s: Sys, s': Sys) {
    exists a :: Enabled(s, a) && s' == Next(s, a)
  }

  ghost predicate IsRun(run: seq<Sys>) {
    run != [] && run[0] == Sys(map[], {}, {}, false, false, false) && forall i :: StepAt(run, i)
  }

  ghost predicate GroupOk(s: Sys, g: Group) {
    g in s.down ==> g in s.retired
  }

  ghost predicate ServerOk(s: Sys, t: Server) {
    t in s.life && !s.life[t].Serving? ==>
      && (s.life[t].cause == Removed ==> s.life[t].g in s.retired && (s.life[t].Reported? ==> s.life[t].retired))
      && (s.life[t].cause == GlobalStop ==> s.stopping)
  }

  /** Some `Serve` returned on its own. */
  ghost predicate SomeFailed(s: Sys) {
    exists t :: t in s.life && !s.life[t].Serving? && s.life[t].cause == Failed
  }

  /** What can have stopped the manager. */
  ghost predicate Reason(s: Sys) {
    s.ctxDone || s.asked || SomeFailed(s)
  }

  ghost predicate Inv(s: Sys) {
    && (forall g :: GroupOk(s, g))
    && (forall t :: ServerOk(s, t))
    && (s.stopping ==> Reason(s))
  }

  lemma PartsStep(s: Sys, a: Action, g: Group, t: Server)
    requires Inv(s) && Enabled(s, a)
    ensures GroupOk(Next(s, a), g) && ServerOk(Next(s, a), t)
  {
    assert GroupOk(s, g) && ServerOk(s, t);
    if a.Stop? {
      assert GroupOk(s, s.life[a.t].g);
    }
  }

  /** A reason stays a reason. */
  lemma ReasonStays(s: Sys, a: Action)
    requires Reason(s) && Enabled(s, a)
    ensures Reason(Next(s, a))
  {
    if SomeFailed(s) {
      var t :| t in s.life && !s.life[t].Serving? && s.life[t].cause == Failed;
      var s' := Next(s, a);
      assert t in s'.life && !s'.life[t].Serving? && s'.life[t].cause == Failed;
    }
  }

  /** A report that is not marked retired comes from a failure or from a global stop, never from a removal. */
  lemma AlarmMeans(s: Sys, t: Server)
    requires Inv(s) && Alarming(s, t)
    ensures s.life[t].cause != Removed && Reason(s)
  {
    assert ServerOk(s, t);
  }

  lemma StoppingStep(s: Sys, a: Action)
    requires Inv(s) && Enabled(s, a)
    ensures Next(s, a).stopping ==> Reason(Next(s, a))
  {
    if s.stopping {
      ReasonStays(s, a);
    } else if a.SupervisorStops? && !s.ctxDone {
      var t :| Alarming(s, t);
      AlarmMeans(s, t);
      ReasonStays(s, a);
    }
  }

  lemma {:induction false} RunInv(run: seq<Sys>, i: nat)
    requires IsRun(run) && i < |run|
    ensures Inv(run[i])
    decreases i
  {
    if i == 0 {
      assert forall g :: GroupOk(run[0], g);
      assert forall t :: ServerOk(run[0], t);
    } else {
      RunInv(run, i - 1);
      assert StepAt(run, i - 1);
      var a :| Enabled(run[i - 1], a) && run[i] == Next(run[i - 1], a);
      forall g ensures GroupOk(run[i], g) {
        PartsStep(run[i - 1], a, g, 0);
      }
      forall t ensures ServerOk(run[i], t) {
        PartsStep(run[i - 1], a, 0, t);
      }
      StoppingStep(run[i - 1], a);
    }
  }

  /** An exit caused by a removal is always reported as retired. */
  lemma RemovalReportedRetired(run: seq<Sys>, i: nat, t: Server)
    requires IsRun(run) && i < |run| && t in run[i].life
    requires run[i].life[t].Reported? && run[i].life[t].cause == Removed
    ensures run[i].life[t].retired
  {
    RunInv(run, i);
    assert ServerOk(run[i], t);
  }

  /**
   Removing groups never stops the manager: a global shutdown means that the
   context ended, that `Shutdown` was called from outside, or that some `Serve`
   returned on its own.
   */
  lemma RemovalNeverStopsAll(run: seq<Sys>, i: nat)
    requires IsRun(run) && i < |run| && run[i].stopping
    ensures run[i].ctxDone || run[i].asked || SomeFailed(run[i])
  {
    RunInv(run, i);
  }

  /**
   A report that is not retired, which makes `Start` return, comes from a failure
   or from a global stop, never from a removal; and a global stop has a reason.
   */
  lemma AlarmNeverFromRemoval(run: seq<Sys>, i: nat, t: Server)
    requires IsRun(run) && i < |run| && Alarming(run[i], t)
    ensures run[i].life[t].cause == Failed || (run[i].life[t].cause == GlobalStop && run[i].stopping)
    ensures Reason(run[i])
  {
    RunInv(run, i);
    AlarmMeans(run[i], t);
    assert ServerOk(run[i], t);
  }

  /** A call from outside is a reason of its own: nothing failed, and `Start` sees a report that is not retired. */
  lemma OutsideStopAlarms() returns (run: seq<Sys>)
    ensures IsRun(run)
    ensures var s := run[|run| - 1]; s.stopping && !s.ctxDone && !SomeFailed(s) && Alarming(s, 0)
  {
    run := [Sys(map[], {}, {}, false, false, false)];
    run := AndThen(run, Launch(0, 0));
    run := AndThen(run, AskShutdown);
    run := AndThen(run, Stop(0, GlobalStop));
    run := AndThen(run, Report(0));
  }

  lemma AndThen(run: seq<Sys>, a: Action) returns (run': seq<Sys>)
    requires IsRun(run) && Enabled(run[|run| - 1], a)
    ensures IsRun(run') && |run'| == |run| + 1 && run'[|run|] == Next(run[|run| - 1], a)
  {
    run' := run + [Next(run[|run| - 1], a)];
    assert Steps(run[|run| - 1], Next(run[|run| - 1], a));
    forall i ensures StepAt(run', i) {
      assert StepAt(run, i);
    }
  }

  /** What a server that returned reports: that it is retired, if and only if its group was marked by then. */
  lemma ReportIff(run: seq<Sys>, i: nat, t: Server)
    requires IsRun(run) && i < |run| && Enabled(run[i], Report(t))
    ensures var was, now := run[i].life[t], Next(run[i], Report(t)).life[t];
            && now.Reported? && now.g == was.g && now.cause == was.cause
            && (Alarming(Next(run[i], Report(t)), t) <==> was.g !in run[i].retired)
  {
  }

  /** A report that is not retired, or the end of the context, lets `Start` stop everything, and then every server may stop. */
  lemma AlarmStopsAll(s: Sys, t: Server, u: Server)
    requires Alarming(s, t) || s.ctxDone
    ensures Enabled(s, SupervisorStops)
    ensures var s' := Next(s, SupervisorStops);
            && s'.life == s.life && s'.stopping
            && (u in s.life && s.life[u].Serving? ==>
                  && Enabled(s', Stop(u, GlobalStop))
                  && Next(s', Stop(u, GlobalStop)).life[u] == Returned(s.life[u].g, GlobalStop))
  {
  }

  /** What the steps of reloads and callers leave behind: a served group, its mark, its shutdown, the end of the context. */
  lemma MarksStay(s: Sys, t: Server, g: Group)
    requires t !in s.life
    ensures Next(s, Launch(t, g)).life[t] == Serving(g)
    ensures g in Next(s, Retire(g)).retired && s.retired <= Next(s, Retire(g)).retired
    ensures g in s.retired ==> Enabled(s, TearDown(g)) && g in Next(s, TearDown(g)).down
    ensures Next(s, EndContext).ctxDone && Next(s, AskShutdown).stopping && Next(s, AskShutdown).asked
    ensures Enabled(Next(s, Launch(t, g)), Fail(t))
    ensures g in s.down ==> Enabled(Next(s, Launch(t, g)), Stop(t, Removed))
  {
  }
}
