/**
 The life of every group over whole runs of the manager
 (internal/balancer/manager.go): construction, `Start`, any number of reloads and
 of `Shutdown` calls, and the goroutines that reloads and `Shutdown` calls leave
 behind, each of which may finish at any later time.

 Manager says what one reload does; here the scripts of all steps are strung
 together, and what happens to a group is counted over the whole history. `Start`
 is two steps: it publishes the result channel without holding the lock, and starts
 the groups it finds once it has the lock.

 `Shutdown(e)` in the log means that the call has returned. The listener is closed
 by a goroutine that the call does not wait for (internal/balancer/balancer.go), so
 the address may be taken a moment longer.
 */
module GroupHistory {
  import opened Common
  import opened M = Manager

  datatype Step =
    | Published
    | Launched(groups: seq<Entry>)
    | Reloaded(plan: Plan)
    | Finished(e: Entry)               // the goroutine a reload left `e` to
    | StopCalled(groups: seq<Entry>)   // `Manager.Shutdown`, which takes a snapshot
    | Stopped(e: Entry)                // one of the goroutines of such a call

  datatype Sys = Sys(
    published: bool,             // the result channel exists
    launched: bool,              // Start has started the groups it found
    inService: set<Entry>,       // the groups in the manager's list
    stopping: multiset<Entry>,   // the goroutines of Shutdown calls that have not finished
    log: seq<Event>,             // history: everything that happened
    seen: set<Entry>,            // history: the groups that ever were in the list
    early: set<Entry>,           // history: the groups a reload started before the launch
    regular: set<Entry>,         // history: the groups started by the launch, or by a reload after it
    handed: set<Entry>,          // history: the removed groups left to a goroutine
    torn: set<Entry>,            // history: the removed groups whose teardown is over
    stopped: multiset<Entry>)    // history: the goroutines of Shutdown calls that have finished

  const INIT: Sys := Sys(false, false, {}, multiset{}, [], {}, {}, {}, {}, {}, multiset{})

  function Elements(es: seq<Entry>): set<Entry> {
    set e | e in es
  }

  function EventsOf(st: Step): seq<Event> {
    match st
    case Published => []
    case Launched(groups) => Starts(groups)
    case Reloaded(plan) => Script(plan)
    case Finished(e) => [Shutdown(e), Unregister(e)]
    case StopCalled(_) => []
    case Stopped(e) => [Shutdown(e)]
  }

  /**
   `st` is possible: Start runs once, a reload removes groups in service and adds
   newly built ones, a goroutine finishes once, and `Shutdown` may be called at any time.
   */
  ghost predicate Fits(s: Sys, st: Step) {
    match st
    case Published => !s.published
    case Launched(groups) => s.published && !s.launched && Distinct(groups) && Elements(groups) == s.inService
    case Reloaded(plan) =>
      && WellPlanned(plan) && FreesAddresses(plan) && (s.published ==> plan.skipped == 0)
      && Elements(plan.removed) <= s.inService && Elements(plan.added) !! s.seen
    case Finished(e) => e in s.handed - s.torn
    case StopCalled(groups) => Distinct(groups) && Elements(groups) == s.inService
    case Stopped(e) => s.stopping[e] > 0
  }

  /** The channel may also be published in the middle of a reload, which then starts groups. */
  function AfterReload(s: Sys, p: Plan): Sys {
    var started := Elements(Started(p));
    s.(published := s.published || Started(p) != [],
       inService := s.inService - Elements(p.removed) + Elements(p.added),
       log := s.log + Script(p),
       seen := s.seen + Elements(p.added),
       early := if s.launched then s.early else s.early + started,
       regular := if s.launched then s.regular + started else s.regular,
       handed := s.handed + Elements(p.spawned),
       torn := s.torn + Elements(p.drained))
  }

  function Next(s: Sys, st: Step): Sys {
    match st
    case Published => s.(published := true)
    case Launched(groups) =>
      s.(launched := true, log := s.log + Starts(groups), regular := s.regular + Elements(groups))
    case Reloaded(plan) => AfterReload(s, plan)
    case Finished(e) => s.(log := s.log + [Shutdown(e), Unregister(e)], torn := s.torn + {e})
    case StopCalled(groups) => s.(stopping := s.stopping + multiset(groups))
    case Stopped(e) =>
      s.(log := s.log + [Shutdown(e)], stopping := s.stopping - multiset{e}, stopped := s.stopped + multiset{e})
  }

  function After(steps: seq<Step>): Sys {
    if steps == [] then INIT else Next(After(steps[..|steps| - 1]), steps[|steps| - 1])
  }

  ghost predicate StepAt(steps: seq<Step>, k: int) {
    0 <= k < |steps| ==> Fits(After(steps[..k]), steps[k])
  }

  ghost predicate Legal(steps: seq<Step>) {
    forall k :: StepAt(steps, k)
  }

  lemma LegalPrefix(steps: seq<Step>, k: nat)
    requires Legal(steps) && k <= |steps|
    ensures Legal(steps[..k])
  {
    forall i ensures StepAt(steps[..k], i) {
      assert StepAt(steps, i);
      assert 0 <= i < k ==> steps[..k][..i] == steps[..i];
    }
  }

  lemma LegalAppend(steps: seq<Step>, st: Step)
    requires Legal(steps) && Fits(After(steps), st)
    ensures Legal(steps + [st]) && After(steps + [st]) == Next(After(steps), st)
  {
    var all := steps + [st];
    assert all[..|steps|] == steps;
    forall k ensures StepAt(all, k) {
      assert StepAt(steps, k);
      assert 0 <= k < |steps| ==> all[..k] == steps[..k];
    }
  }

  // --- Strings of events ------------------------------------------------------

  /** How often `ev` happens. */
  ghost function Times(events: seq<Event>, ev: Event): nat {
    multiset(events)[ev]
  }

  lemma CountSplit(events: seq<Event>, i: nat, ev: Event)
    requires i < |events| && events[i] == ev
    ensures Times(events, ev) == Times(events[..i], ev) + 1 + Times(events[i + 1..], ev)
  {
    assert events == events[..i] + [events[i]] + events[i + 1..];
  }

  /** Happening once is being counted once. */
  lemma OnceIffCounted(events: seq<Event>, ev: Event)
    ensures Once(events, ev) <==> Times(events, ev) == 1
    ensures ev !in events <==> Times(events, ev) == 0
  {
    assert ev in events <==> ev in multiset(events);
    if ev in events {
      var i :| 0 <= i < |events| && events[i] == ev;
      CountSplit(events, i, ev);
      var a, b := events[..i], events[i + 1..];
      assert ev in a <==> ev in multiset(a);
      assert ev in b <==> ev in multiset(b);
      assert forall j :: 0 <= j < |b| ==> b[j] == events[i + 1 + j];
      if ev !in a && ev !in b {
        assert forall j :: 0 <= j < |events| && events[j] == ev ==> j == i by {
          assert forall j :: 0 <= j < i ==> events[j] == a[j];
          assert forall j :: i < j < |events| ==> events[j] == b[j - i - 1];
        }
      }
    }
  }

  lemma TimesConcat(a: seq<Event>, b: seq<Event>, ev: Event)
    ensures Times(a + b, ev) == Times(a, ev) + Times(b, ev)
    ensures ev !in b <==> Times(b, ev) == 0
    ensures Once(b, ev) <==> Times(b, ev) == 1
  {
    OnceIffCounted(b, ev);
  }

  lemma BeforeConcat(a: seq<Event>, b: seq<Event>, first: Event, second: Event)
    requires Before(a, first, second) && Before(b, first, second)
    requires second !in a || first !in b
    ensures Before(a + b, first, second)
  {
    var all := a + b;
    forall i, j | 0 <= i < |all| && 0 <= j < |all| && all[i] == first && all[j] == second ensures i < j {
      assert i >= |a| ==> b[i - |a|] == first;
      assert j >= |a| ==> b[j - |a|] == second;
    }
  }

  /** No event is about `e`. */
  ghost predicate Silent(events: seq<Event>, e: Entry) {
    forall i :: 0 <= i < |events| ==> events[i].e != e
  }

  /** No event takes `e` out of service. */
  ghost predicate NotRemoved(events: seq<Event>, e: Entry) {
    Retire(e) !in events && Shutdown(e) !in events && Unregister(e) !in events && Spawn(e) !in events
  }

  /** `e` is retired once, and torn down once or left to one goroutine. */
  ghost predicate RemovedOnce(events: seq<Event>, e: Entry) {
    && Once(events, Retire(e))
    && if Spawn(e) in events then Once(events, Spawn(e)) && Shutdown(e) !in events && Unregister(e) !in events
       else Once(events, Shutdown(e)) && Once(events, Unregister(e))
  }

  /** What the removal of `e` does is done in this order, after all its starts. */
  ghost predicate InOrder(events: seq<Event>, e: Entry) {
    && Before(events, Start(e), Retire(e))
    && Before(events, Retire(e), Spawn(e)) && Before(events, Retire(e), Unregister(e))
    && Before(events, Spawn(e), Unregister(e))
  }

  /** And `e` is shut down only as part of it. */
  ghost predicate ShutInOrder(events: seq<Event>, e: Entry) {
    && Before(events, Retire(e), Shutdown(e)) && Before(events, Spawn(e), Shutdown(e))
    && Before(events, Shutdown(e), Unregister(e))
  }

  /** `e` is shut down by the time it is unregistered. */
  ghost predicate ShutFirst(events: seq<Event>, e: Entry) {
    forall j :: 0 <= j < |events| && events[j] == Unregister(e) ==> Shutdown(e) in events[..j]
  }

  lemma OrderConcat(a: seq<Event>, b: seq<Event>, e: Entry)
    requires InOrder(a, e) && InOrder(b, e)
    requires Start(e) in b ==> Retire(e) !in a
    requires Retire(e) in b ==> Spawn(e) !in a && Unregister(e) !in a
    requires Spawn(e) in b ==> Unregister(e) !in a
    ensures InOrder(a + b, e)
  {
    BeforeConcat(a, b, Start(e), Retire(e));
    BeforeConcat(a, b, Retire(e), Spawn(e));
    BeforeConcat(a, b, Retire(e), Unregister(e));
    BeforeConcat(a, b, Spawn(e), Unregister(e));
  }

  lemma ShutConcat(a: seq<Event>, b: seq<Event>, e: Entry)
    requires ShutInOrder(a, e) && ShutInOrder(b, e)
    requires Retire(e) in b || Spawn(e) in b ==> Shutdown(e) !in a
    requires Shutdown(e) in b ==> Unregister(e) !in a
    ensures ShutInOrder(a + b, e)
  {
    BeforeConcat(a, b, Retire(e), Shutdown(e));
    BeforeConcat(a, b, Spawn(e), Shutdown(e));
    BeforeConcat(a, b, Shutdown(e), Unregister(e));
  }

  lemma ShutFirstConcat(a: seq<Event>, b: seq<Event>, e: Entry)
    requires ShutFirst(a, e) && ShutFirst(b, e)
    ensures ShutFirst(a + b, e)
  {
    var all := a + b;
    forall j | 0 <= j < |all| && all[j] == Unregister(e) ensures Shutdown(e) in all[..j] {
      if j < |a| {
        assert all[..j] == a[..j];
      } else {
        assert all[..j] == a + b[..j - |a|] && b[j - |a|] == Unregister(e);
      }
    }
  }

  /** An event that always comes later, of which there is an earlier one, has one before it. */
  lemma ShutFirstFrom(events: seq<Event>, e: Entry)
    requires Before(events, Shutdown(e), Unregister(e)) && (Unregister(e) in events ==> Shutdown(e) in events)
    ensures ShutFirst(events, e)
  {
    forall j | 0 <= j < |events| && events[j] == Unregister(e) ensures Shutdown(e) in events[..j] {
      assert Unregister(e) in events;
      var i :| 0 <= i < |events| && events[i] == Shutdown(e);
      assert events[..j][i] == Shutdown(e);
    }
  }

  // --- One step ---------------------------------------------------------------

  /** A reload does nothing to a group it neither removes nor adds. */
  lemma ReloadSpares(p: Plan, e: Entry)
    requires WellPlanned(p) && e !in p.removed && e !in p.added
    ensures Silent(Script(p), e)
  {
    forall i | 0 <= i < |Script(p)| ensures Script(p)[i].e != e {
      ScriptAt(p, i);
    }
  }

  lemma ReloadRemoves(p: Plan, e: Entry)
    requires WellPlanned(p) && e in p.removed && e !in p.added
    ensures RemovedOnce(Script(p), e) && Start(e) !in Script(p) && (Spawn(e) in Script(p) <==> e in p.spawned)
    ensures InOrder(Script(p), e) && ShutInOrder(Script(p), e)
  {
    RemovedLaws(p, e);
    StagesInOrder(p, Retire(e), Unregister(e));
    ShutdownBeforeUnregister(p, e);
    NotPlaced(p, Start(e));
  }

  lemma ReloadAdds(p: Plan, e: Entry)
    requires WellPlanned(p) && e in p.added && e !in p.removed
    ensures NotRemoved(Script(p), e)
    ensures if e in Started(p) then Once(Script(p), Start(e)) else Start(e) !in Script(p)
  {
    NotPlaced(p, Retire(e));
    NotPlaced(p, Shutdown(e));
    NotPlaced(p, Unregister(e));
    NotPlaced(p, Spawn(e));
    if e in Started(p) {
      StartedOnce(p, e);
    } else {
      NotPlaced(p, Start(e));
    }
  }

  lemma LaunchStarts(groups: seq<Entry>, e: Entry)
    requires Distinct(groups)
    ensures NotRemoved(Starts(groups), e)
    ensures if e in groups then Once(Starts(groups), Start(e)) else Silent(Starts(groups), e)
  {
    if e in groups {
      var i :| 0 <= i < |groups| && groups[i] == e;
      assert Starts(groups)[i] == Start(e);
    }
  }

  /** A list without repetition counts each group once. */
  lemma ListedOnce(groups: seq<Entry>, e: Entry)
    requires Distinct(groups)
    ensures multiset(groups)[e] == Unit(e in groups)
  {
    assert e in groups <==> e in multiset(groups);
    if e in groups {
      var i :| 0 <= i < |groups| && groups[i] == e;
      var a, b := groups[..i], groups[i + 1..];
      assert groups == a + [e] + b;
      assert e !in a && e !in b;
      assert e !in multiset(a) && e !in multiset(b);
    }
  }

  // --- Whole runs -------------------------------------------------------------

  /** Where `e` stands. */
  ghost predicate Placed(s: Sys, e: Entry) {
    && (e in s.inService || e in s.early || e in s.regular || e in s.handed || e in s.torn ==> e in s.seen)
    && (s.stopping[e] > 0 || s.stopped[e] > 0 ==> e in s.seen)
    && (e in s.inService ==> e !in s.handed && e !in s.torn && (e in s.regular <==> s.launched))
    && (e in s.seen - s.inService ==> e in s.handed || e in s.torn)
    && (s.launched ==> s.published)
  }

  /**
   What has happened to `e`, counted: it was started once for each of the two ways in
   which a group can be started, and shut down once by its teardown and once by every
   goroutine of a `Shutdown` call that has finished.
   */
  ghost predicate Tally(s: Sys, e: Entry) {
    && Times(s.log, Start(e)) == Unit(e in s.early) + Unit(e in s.regular)
    && Times(s.log, Retire(e)) == Unit(e in s.seen - s.inService)
    && Times(s.log, Spawn(e)) == Unit(e in s.handed)
    && Times(s.log, Unregister(e)) == Unit(e in s.torn)
    && Times(s.log, Shutdown(e)) == Unit(e in s.torn) + s.stopped[e]
  }

  /** What has happened to `e` so far, and in which order. */
  ghost predicate Life(s: Sys, e: Entry) {
    && Placed(s, e) && Tally(s, e)
    && InOrder(s.log, e) && ShutFirst(s.log, e)
    && (s.stopped[e] == 0 ==> ShutInOrder(s.log, e))
  }

  /** Nothing of a removal has happened to a group that is in service or was never seen. */
  lemma StillWhole(s: Sys, e: Entry)
    requires Life(s, e) && (e in s.inService || e !in s.seen)
    ensures Retire(e) !in s.log && Spawn(e) !in s.log && Unregister(e) !in s.log
    ensures s.stopped[e] == 0 ==> Shutdown(e) !in s.log
  {
    OnceIffCounted(s.log, Retire(e));
    OnceIffCounted(s.log, Spawn(e));
    OnceIffCounted(s.log, Unregister(e));
    OnceIffCounted(s.log, Shutdown(e));
  }

  lemma TallyGrows(s: Sys, s': Sys, b: seq<Event>, e: Entry)
    requires Tally(s, e) && s'.log == s.log + b
    requires Unit(e in s'.early) + Unit(e in s'.regular) == Unit(e in s.early) + Unit(e in s.regular) + Times(b, Start(e))
    requires Unit(e in s'.seen - s'.inService) == Unit(e in s.seen - s.inService) + Times(b, Retire(e))
    requires Unit(e in s'.handed) == Unit(e in s.handed) + Times(b, Spawn(e))
    requires Unit(e in s'.torn) == Unit(e in s.torn) + Times(b, Unregister(e))
    requires Unit(e in s'.torn) + s'.stopped[e] == Unit(e in s.torn) + s.stopped[e] + Times(b, Shutdown(e))
    ensures Tally(s', e)
  {
    TimesConcat(s.log, b, Start(e));
    TimesConcat(s.log, b, Retire(e));
    TimesConcat(s.log, b, Spawn(e));
    TimesConcat(s.log, b, Unregister(e));
    TimesConcat(s.log, b, Shutdown(e));
  }

  /** How often each kind of event happens to `e`. */
  lemma CountAll(b: seq<Event>, e: Entry)
    ensures Start(e) !in b <==> Times(b, Start(e)) == 0
    ensures Once(b, Start(e)) <==> Times(b, Start(e)) == 1
    ensures Retire(e) !in b <==> Times(b, Retire(e)) == 0
    ensures Once(b, Retire(e)) <==> Times(b, Retire(e)) == 1
    ensures Spawn(e) !in b <==> Times(b, Spawn(e)) == 0
    ensures Once(b, Spawn(e)) <==> Times(b, Spawn(e)) == 1
    ensures Unregister(e) !in b <==> Times(b, Unregister(e)) == 0
    ensures Once(b, Unregister(e)) <==> Times(b, Unregister(e)) == 1
    ensures Shutdown(e) !in b <==> Times(b, Shutdown(e)) == 0
    ensures Once(b, Shutdown(e)) <==> Times(b, Shutdown(e)) == 1
  {
    OnceIffCounted(b, Start(e));
    OnceIffCounted(b, Retire(e));
    OnceIffCounted(b, Spawn(e));
    OnceIffCounted(b, Unregister(e));
    OnceIffCounted(b, Shutdown(e));
  }

  /** The sets that say what happened to `e` are the same, as far as `e` is concerned. */
  ghost predicate SameFor(s: Sys, s': Sys, e: Entry) {
    && (e in s'.inService <==> e in s.inService) && (e in s'.seen <==> e in s.seen)
    && (e in s'.handed <==> e in s.handed) && (e in s'.torn <==> e in s.torn)
    && (e in s'.early <==> e in s.early) && (e in s'.regular <==> e in s.regular)
    && s'.stopped[e] == s.stopped[e]
  }

  /** A step that does nothing to `e`. */
  lemma LifeUntouched(s: Sys, s': Sys, b: seq<Event>, e: Entry)
    requires Life(s, e) && s'.log == s.log + b && Silent(b, e) && SameFor(s, s', e) && Placed(s', e)
    ensures Life(s', e)
  {
    CountAll(b, e);
    TallyGrows(s, s', b, e);
    OrderConcat(s.log, b, e);
    ShutFirstConcat(s.log, b, e);
    if s.stopped[e] == 0 {
      ShutConcat(s.log, b, e);
    }
  }

  lemma LifeRemoved(s: Sys, s': Sys, b: seq<Event>, e: Entry)
    requires Life(s, e) && e in s.inService && s'.log == s.log + b && Placed(s', e)
    requires RemovedOnce(b, e) && InOrder(b, e) && ShutInOrder(b, e) && Start(e) !in b
    requires e !in s'.inService && e in s'.seen && (e in s'.handed <==> Spawn(e) in b) && (e in s'.torn <==> Spawn(e) !in b)
    requires (e in s'.early <==> e in s.early) && (e in s'.regular <==> e in s.regular) && s'.stopped[e] == s.stopped[e]
    ensures Life(s', e)
  {
    StillWhole(s, e);
    CountAll(b, e);
    TallyGrows(s, s', b, e);
    OrderConcat(s.log, b, e);
    ShutFirstFrom(b, e);
    ShutFirstConcat(s.log, b, e);
    if s.stopped[e] == 0 {
      ShutConcat(s.log, b, e);
    }
  }

  /** A group that was not removed is started, or enters the list without being started. */
  lemma LifeAdded(s: Sys, s': Sys, b: seq<Event>, e: Entry)
    requires Life(s, e) && (e in s.inService || e !in s.seen) && s'.log == s.log + b && Placed(s', e)
    requires NotRemoved(b, e) && (Start(e) in b ==> Once(b, Start(e)))
    requires e in s'.inService && s'.stopped[e] == s.stopped[e]
    requires Unit(e in s'.early) + Unit(e in s'.regular) == Unit(e in s.early) + Unit(e in s.regular) + Unit(Start(e) in b)
    ensures Life(s', e)
  {
    StillWhole(s, e);
    CountAll(b, e);
    TallyGrows(s, s', b, e);
    OrderConcat(s.log, b, e);
    ShutFirstConcat(s.log, b, e);
    if s.stopped[e] == 0 {
      ShutConcat(s.log, b, e);
    }
  }

  lemma LifeAtLaunch(s: Sys, groups: seq<Entry>, e: Entry)
    requires Life(s, e) && Fits(s, Launched(groups))
    ensures Life(Next(s, Launched(groups)), e)
  {
    var s', b := Next(s, Launched(groups)), Starts(groups);
    LaunchStarts(groups, e);
    assert e in groups <==> e in Elements(groups);
    if e in groups {
      LifeAdded(s, s', b, e);
    } else {
      LifeUntouched(s, s', b, e);
    }
  }

  lemma LifeAtReload(s: Sys, p: Plan, e: Entry)
    requires Life(s, e) && Fits(s, Reloaded(p))
    ensures Life(Next(s, Reloaded(p)), e)
  {
    var s', b := AfterReload(s, p), Script(p);
    assert e in p.removed <==> e in Elements(p.removed);
    assert e in p.added <==> e in Elements(p.added);
    assert e in p.spawned <==> e in Elements(p.spawned);
    assert e in p.drained <==> e in Elements(p.drained);
    assert e in Started(p) <==> e in Elements(Started(p));
    if e in p.removed {
      ReloadRemoves(p, e);
      LifeRemoved(s, s', b, e);
    } else if e in p.added {
      ReloadAdds(p, e);
      LifeAdded(s, s', b, e);
    } else {
      ReloadSpares(p, e);
      LifeUntouched(s, s', b, e);
    }
  }

  /** The goroutine of a reload finishes. */
  lemma LifeFinished(s: Sys, e: Entry)
    requires Life(s, e) && Fits(s, Finished(e))
    ensures Life(Next(s, Finished(e)), e)
  {
    var s', b := Next(s, Finished(e)), [Shutdown(e), Unregister(e)];
    assert b == [Shutdown(e)] + [Unregister(e)];
    OnceIffCounted(s.log, Unregister(e));
    TallyGrows(s, s', b, e);
    OrderConcat(s.log, b, e);
    assert b[..1] == [Shutdown(e)];
    ShutFirstConcat(s.log, b, e);
    if s.stopped[e] == 0 {
      ShutConcat(s.log, b, e);
    }
  }

  /** A goroutine of a `Shutdown` call finishes. */
  lemma LifeStopped(s: Sys, e: Entry)
    requires Life(s, e) && Fits(s, Stopped(e))
    ensures Life(Next(s, Stopped(e)), e)
  {
    var s', b := Next(s, Stopped(e)), [Shutdown(e)];
    TallyGrows(s, s', b, e);
    OrderConcat(s.log, b, e);
    ShutFirstConcat(s.log, b, e);
  }

  lemma LifeAtStopCall(s: Sys, groups: seq<Entry>, e: Entry)
    requires Life(s, e) && Fits(s, StopCalled(groups))
    ensures Life(Next(s, StopCalled(groups)), e)
  {
    ListedOnce(groups, e);
    assert e in groups <==> e in Elements(groups);
    LifeUntouched(s, Next(s, StopCalled(groups)), [], e);
  }

  lemma LifeAtPublish(s: Sys, e: Entry)
    requires Life(s, e) && Fits(s, Published)
    ensures Life(Next(s, Published), e)
  {
    LifeUntouched(s, Next(s, Published), [], e);
  }

  lemma LifeAtFinish(s: Sys, x: Entry, e: Entry)
    requires Life(s, e) && Fits(s, Finished(x)) && x != e
    ensures Life(Next(s, Finished(x)), e)
  {
    LifeUntouched(s, Next(s, Finished(x)), [Shutdown(x), Unregister(x)], e);
  }

  lemma LifeAtStop(s: Sys, x: Entry, e: Entry)
    requires Life(s, e) && Fits(s, Stopped(x)) && x != e
    ensures Life(Next(s, Stopped(x)), e)
  {
    LifeUntouched(s, Next(s, Stopped(x)), [Shutdown(x)], e);
  }

  /** One more step in the life of `e`. */
  lemma LifeStep(s: Sys, st: Step, e: Entry)
    requires Life(s, e) && Fits(s, st)
    ensures Life(Next(s, st), e)
  {
    match st
    case Published => LifeAtPublish(s, e);
    case Launched(groups) => LifeAtLaunch(s, groups, e);
    case Reloaded(p) => LifeAtReload(s, p, e);
    case Finished(x) =>
      if x == e {
        LifeFinished(s, e);
      } else {
        LifeAtFinish(s, x, e);
      }
    case StopCalled(groups) => LifeAtStopCall(s, groups, e);
    case Stopped(x) =>
      if x == e {
        LifeStopped(s, e);
      } else {
        LifeAtStop(s, x, e);
      }
  }

  /**
   Over any run: what happened to a group is counted exactly, and the parts of its
   removal happened in order, after all its starts.
   */
  lemma {:induction false} EveryLife(steps: seq<Step>, e: Entry)
    requires Legal(steps)
    ensures Life(After(steps), e)
  {
    if steps != [] {
      var n := |steps| - 1;
      LegalPrefix(steps, n);
      EveryLife(steps[..n], e);
      assert StepAt(steps, n);
      LifeStep(After(steps[..n]), steps[n], e);
    }
  }

  lemma OnceUnlessEarly(s: Sys, e: Entry)
    requires Life(s, e) && s.launched && e in s.inService
    ensures Once(s.log, Start(e)) <==> e !in s.early
    ensures e in s.early ==> Times(s.log, Start(e)) == 2
  {
    OnceIffCounted(s.log, Start(e));
  }

  /**
   A group in service after the launch was started exactly once if and only if no
   reload started it between the publication of the channel and the launch;
   otherwise it was started twice.
   */
  lemma StartedOnceIff(steps: seq<Step>, e: Entry)
    requires Legal(steps) && After(steps).launched && e in After(steps).inService
    ensures Once(After(steps).log, Start(e)) <==> e !in After(steps).early
    ensures e in After(steps).early ==> Times(After(steps).log, Start(e)) == 2
  {
    EveryLife(steps, e);
    OnceUnlessEarly(After(steps), e);
  }

  /** Step `k` is a reload that starts `e` after the publication and before the launch. */
  ghost predicate StartsEarly(steps: seq<Step>, k: int, e: Entry) {
    && 0 <= k < |steps| && steps[k].Reloaded? && e in Started(steps[k].plan)
    && After(steps[..k + 1]).published && !After(steps[..k]).launched
  }

  lemma EarlyPrefix(steps: seq<Step>, k: int, e: Entry)
    requires steps != [] && k < |steps| - 1
    ensures StartsEarly(steps[..|steps| - 1], k, e) <==> StartsEarly(steps, k, e)
  {
    if 0 <= k {
      assert steps[..|steps| - 1][..k] == steps[..k] && steps[..|steps| - 1][..k + 1] == steps[..k + 1];
    }
  }

  lemma EarlyNext(s: Sys, st: Step, e: Entry)
    ensures e in Next(s, st).early <==> e in s.early || (!s.launched && st.Reloaded? && e in Started(st.plan))
    ensures st.Reloaded? && e in Started(st.plan) ==> Next(s, st).published
  {
    if st.Reloaded? {
      assert e in Elements(Started(st.plan)) <==> e in Started(st.plan);
    }
  }

  /** Which groups are started early. */
  lemma {:induction false} EarlyIff(steps: seq<Step>, e: Entry)
    ensures e in After(steps).early <==> exists k :: StartsEarly(steps, k, e)
  {
    if steps != [] {
      var n := |steps| - 1;
      EarlyIff(steps[..n], e);
      EarlyNext(After(steps[..n]), steps[n], e);
      assert steps[..n + 1] == steps;
      assert StartsEarly(steps, n, e) <==> steps[n].Reloaded? && e in Started(steps[n].plan) && !After(steps[..n]).launched;
      if e in After(steps[..n]).early {
        var k :| StartsEarly(steps[..n], k, e);
        EarlyPrefix(steps, k, e);
      }
      if k :| StartsEarly(steps, k, e) && k != n {
        EarlyPrefix(steps, k, e);
      }
    }
  }

  // --- Teardowns and Shutdown calls ---------------------------------------------

  /** Step `k` is a `Shutdown` call that found `e` in the list. */
  ghost predicate Lists(steps: seq<Step>, k: int, e: Entry) {
    0 <= k < |steps| && steps[k].StopCalled? && e in steps[k].groups
  }

  /** How many `Shutdown` calls found `e` in the list. */
  ghost function Listings(steps: seq<Step>, e: Entry): nat {
    if steps == [] then 0 else Listings(steps[..|steps| - 1], e) + Unit(Lists(steps, |steps| - 1, e))
  }

  lemma {:induction false} NoListing(steps: seq<Step>, e: Entry)
    ensures Listings(steps, e) == 0 <==> forall k :: !Lists(steps, k, e)
  {
    if steps != [] {
      var n := |steps| - 1;
      NoListing(steps[..n], e);
      if k :| Lists(steps[..n], k, e) {
        assert Lists(steps, k, e);
      }
      if k :| Lists(steps, k, e) && k != n {
        assert Lists(steps[..n], k, e);
      }
    }
  }

  lemma StopsNext(s: Sys, st: Step, e: Entry)
    requires Fits(s, st)
    ensures Next(s, st).stopped[e] + Next(s, st).stopping[e] ==
            s.stopped[e] + s.stopping[e] + Unit(st.StopCalled? && e in st.groups)
  {
    if st.StopCalled? {
      ListedOnce(st.groups, e);
    }
  }

  /** Every `Shutdown` call leaves one goroutine for every group it found, which finishes once or has yet to. */
  lemma {:induction false} StopsAreListings(steps: seq<Step>, e: Entry)
    requires Legal(steps)
    ensures After(steps).stopped[e] + After(steps).stopping[e] == Listings(steps, e)
  {
    if steps != [] {
      var n := |steps| - 1;
      LegalPrefix(steps, n);
      StopsAreListings(steps[..n], e);
      assert StepAt(steps, n);
      StopsNext(After(steps[..n]), steps[n], e);
    }
  }

  /**
   How often a group is shut down: once by its teardown, and once for every
   `Shutdown` call that found it in the list and has got to it.
   */
  lemma ShutdownsCounted(steps: seq<Step>, e: Entry)
    requires Legal(steps)
    ensures var s := After(steps);
            Times(s.log, Shutdown(e)) == Unit(e in s.torn) + Listings(steps, e) - s.stopping[e]
  {
    EveryLife(steps, e);
    StopsAreListings(steps, e);
  }

  lemma OneShutdown(s: Sys, e: Entry)
    requires Placed(s, e) && Tally(s, e) && e in s.torn
    ensures Once(s.log, Shutdown(e)) <==> s.stopped[e] == 0
    ensures Once(s.log, Retire(e)) && Once(s.log, Unregister(e))
  {
    OnceIffCounted(s.log, Shutdown(e));
    OnceIffCounted(s.log, Retire(e));
    OnceIffCounted(s.log, Unregister(e));
  }

  /**
   A removed group whose teardown is over was shut down exactly once if and only if
   no goroutine of a `Shutdown` call has got to it, and then it was shut down after
   being retired. Once those goroutines are done, that is: if and only if no such
   call found it in the list.
   */
  lemma OneShutdownIff(steps: seq<Step>, e: Entry)
    requires Legal(steps) && e in After(steps).torn
    ensures var s := After(steps);
            && Once(s.log, Retire(e)) && Once(s.log, Unregister(e))
            && (Once(s.log, Shutdown(e)) && Before(s.log, Retire(e), Shutdown(e)) <==> s.stopped[e] == 0)
            && (s.stopping[e] == 0 ==>
                  (Once(s.log, Shutdown(e)) && Before(s.log, Retire(e), Shutdown(e)) <==> forall k :: !Lists(steps, k, e)))
  {
    EveryLife(steps, e);
    OneShutdown(After(steps), e);
    StopsAreListings(steps, e);
    NoListing(steps, e);
  }

  /**
   A group left to a goroutine: it is torn down at most once, after having been
   handed over, and if no `Shutdown` call got to it this is its one shutdown.
   */
  lemma HandedOver(steps: seq<Step>, e: Entry)
    requires Legal(steps) && e in After(steps).handed
    ensures var s := After(steps);
            && Once(s.log, Retire(e)) && Once(s.log, Spawn(e)) && Before(s.log, Retire(e), Spawn(e))
            && (if e in s.torn then Once(s.log, Unregister(e)) else Unregister(e) !in s.log)
            && Before(s.log, Spawn(e), Unregister(e)) && ShutFirst(s.log, e)
            && (s.stopped[e] == 0 ==>
                  && (if e in s.torn then Once(s.log, Shutdown(e)) else Shutdown(e) !in s.log)
                  && Before(s.log, Spawn(e), Shutdown(e)) && Before(s.log, Shutdown(e), Unregister(e)))
  {
    EveryLife(steps, e);
    CountAll(After(steps).log, e);
  }

  // --- Listen addresses ---------------------------------------------------------

  lemma LogGrows(s: Sys, st: Step)
    ensures Next(s, st).log == s.log + EventsOf(st)
  {
  }

  lemma LogNext(steps: seq<Step>, k: nat)
    requires k < |steps|
    ensures After(steps[..k + 1]).log == After(steps[..k]).log + EventsOf(steps[k])
  {
    assert steps[..k + 1][..k] == steps[..k];
    LogGrows(After(steps[..k]), steps[k]);
  }

  lemma {:induction false} LogPrefix(steps: seq<Step>, k: nat)
    requires k <= |steps|
    ensures After(steps[..k]).log <= After(steps).log
    decreases |steps| - k
  {
    if k == |steps| {
      assert steps[..k] == steps;
    } else {
      LogPrefix(steps, k + 1);
      LogNext(steps, k);
    }
  }

  lemma StepPrefix(steps: seq<Step>, k: nat)
    requires k < |steps|
    ensures After(steps[..k]).log + EventsOf(steps[k]) <= After(steps).log
  {
    LogPrefix(steps, k + 1);
    LogNext(steps, k);
  }

  lemma HappenedInside(a: seq<Event>, b: seq<Event>, all: seq<Event>, ev: Event)
    requires a + b <= all && ev in b
    ensures ev in all
  {
    var i :| 0 <= i < |b| && b[i] == ev;
    assert (a + b)[|a| + i] == ev;
  }

  /** Two events that follow each other inside `b`, the first happening only there and the second not before. */
  lemma OrderInside(a: seq<Event>, b: seq<Event>, all: seq<Event>, first: Event, second: Event)
    requires a + b <= all && first in b && Before(b, first, second)
    requires Once(all, first) && second !in a
    ensures Before(all, first, second)
  {
    var i :| 0 <= i < |b| && b[i] == first;
    assert forall y :: 0 <= y < |a| ==> all[y] == a[y];
    assert forall y :: 0 <= y < |b| ==> all[|a| + y] == (a + b)[|a| + y] == b[y];
    assert forall x :: 0 <= x < |all| && all[x] == first ==> x == |a| + i;
    assert forall y :: |a| <= y < |a| + |b| ==> all[y] == b[y - |a|];
  }

  lemma StepHappened(steps: seq<Step>, k: nat, ev: Event)
    requires k < |steps| && ev in EventsOf(steps[k])
    ensures ev in After(steps).log
  {
    StepPrefix(steps, k);
    HappenedInside(After(steps[..k]).log, EventsOf(steps[k]), After(steps).log, ev);
  }

  /**
   When the reload that removes a group is over, the group has been shut down exactly
   if that reload added a group on its address, or a `Shutdown` call had got to it before.
   */
  lemma WaitedForIff(steps: seq<Step>, gone: Entry)
    requires Legal(steps) && steps != []
    requires var last := steps[|steps| - 1]; last.Reloaded? && gone in last.plan.removed
    ensures var k := |steps| - 1;
            Shutdown(gone) in After(steps).log <==>
            Needs(steps[k].plan.added, gone.listen) || After(steps[..k]).stopped[gone] > 0
  {
    var k := |steps| - 1;
    assert StepAt(steps, k);
    LegalPrefix(steps, k);
    EveryLife(steps[..k], gone);
    EveryLife(steps, gone);
    assert gone in Elements(steps[k].plan.removed);
    assert gone in Elements(steps[k].plan.drained) <==> gone in steps[k].plan.drained;
    OnceIffCounted(After(steps).log, Shutdown(gone));
  }

  /** Nothing happens to a group before the reload that adds it. */
  lemma NotBefore(steps: seq<Step>, k: nat, e: Entry)
    requires Legal(steps) && k < |steps| && steps[k].Reloaded? && e in steps[k].plan.added
    ensures Start(e) !in After(steps[..k]).log
  {
    assert StepAt(steps, k);
    assert e in Elements(steps[k].plan.added);
    LegalPrefix(steps, k);
    EveryLife(steps[..k], e);
    OnceIffCounted(After(steps[..k]).log, Start(e));
  }

  /** Step `m` starts `e`, and `gone` has been shut down by then. */
  ghost predicate ShutBefore(steps: seq<Step>, m: nat, e: Entry, gone: Entry)
    requires m < |steps|
  {
    var log := After(steps).log;
    exists i, j ::
      && 0 <= i < j < |log| && log[i] == Shutdown(gone) && log[j] == Start(e)
      && |After(steps[..m]).log| <= j < |After(steps[..m + 1]).log|
  }

  lemma PrefixAt(a: seq<Event>, b: seq<Event>, all: seq<Event>, i: nat)
    requires a + b <= all && i < |b|
    ensures |a| + i < |all| && all[|a| + i] == b[i]
  {
    assert (a + b)[|a| + i] == b[i];
  }

  /** A shutdown before a step is before everything the step starts. */
  lemma ShutBeforeFrom(steps: seq<Step>, m: nat, i: nat, e: Entry, gone: Entry)
    requires m < |steps| && i < |After(steps[..m]).log| && After(steps[..m]).log[i] == Shutdown(gone)
    requires Start(e) in EventsOf(steps[m])
    ensures ShutBefore(steps, m, e, gone)
  {
    StepPrefix(steps, m);
    LogNext(steps, m);
    var log, a, b := After(steps).log, After(steps[..m]).log, EventsOf(steps[m]);
    var j :| 0 <= j < |b| && b[j] == Start(e);
    PrefixAt(a, b, log, j);
    assert log[i] == a[i];
    assert log[i] == Shutdown(gone) && log[|a| + j] == Start(e);
  }

  lemma ShutBeforeWithin(steps: seq<Step>, m: nat, e: Entry, gone: Entry)
    requires m < |steps| && Shutdown(gone) in EventsOf(steps[m]) && Start(e) in EventsOf(steps[m])
    requires Before(EventsOf(steps[m]), Shutdown(gone), Start(e))
    ensures ShutBefore(steps, m, e, gone)
  {
    StepPrefix(steps, m);
    LogNext(steps, m);
    var log, a, b := After(steps).log, After(steps[..m]).log, EventsOf(steps[m]);
    var i :| 0 <= i < |b| && b[i] == Shutdown(gone);
    var j :| 0 <= j < |b| && b[j] == Start(e);
    PrefixAt(a, b, log, i);
    PrefixAt(a, b, log, j);
    assert log[|a| + i] == Shutdown(gone) && log[|a| + j] == Start(e);
  }

  /** A group that has been shut down, but by no `Shutdown` call, has been shut down once. */
  lemma ShutOnce(s: Sys, gone: Entry)
    requires Tally(s, gone) && s.stopped[gone] == 0 && Shutdown(gone) in s.log
    ensures Once(s.log, Shutdown(gone))
  {
    OnceIffCounted(s.log, Shutdown(gone));
  }

  lemma StartInside(steps: seq<Step>, k: nat, e: Entry, gone: Entry)
    requires Legal(steps) && k < |steps| && steps[k].Reloaded? && e in steps[k].plan.added
    requires Shutdown(gone) in EventsOf(steps[k]) && Before(EventsOf(steps[k]), Shutdown(gone), Start(e))
    requires Once(After(steps).log, Shutdown(gone))
    ensures Before(After(steps).log, Shutdown(gone), Start(e))
  {
    NotBefore(steps, k, e);
    StepPrefix(steps, k);
    OrderInside(After(steps[..k]).log, EventsOf(steps[k]), After(steps).log, Shutdown(gone), Start(e));
  }

  /**
   A group a reload starts is started after that reload has shut down the groups it
   removes from the same address; unless a `Shutdown` call got to them, that is their
   one shutdown.
   */
  lemma StartWaits(steps: seq<Step>, k: nat, e: Entry, gone: Entry)
    requires Legal(steps) && k < |steps| && steps[k].Reloaded?
    requires e in Started(steps[k].plan) && gone in steps[k].plan.removed && gone.listen == e.listen
    ensures ShutBefore(steps, k, e, gone)
    ensures After(steps).stopped[gone] == 0 ==>
              && Once(After(steps).log, Shutdown(gone)) && Start(e) in After(steps).log
              && Before(After(steps).log, Shutdown(gone), Start(e))
  {
    assert StepAt(steps, k);
    AddedLaws(steps[k].plan, e, gone);
    ShutBeforeWithin(steps, k, e, gone);
    if After(steps).stopped[gone] == 0 {
      StepHappened(steps, k, Shutdown(gone));
      StepHappened(steps, k, Start(e));
      EveryLife(steps, gone);
      ShutOnce(After(steps), gone);
      StartInside(steps, k, e, gone);
    }
  }

  /** `all` is one way in which `steps` may go on, and its step `m` then starts `e` on the address of `gone`. */
  ghost predicate LaterStart(steps: seq<Step>, all: seq<Step>, m: int, e: Entry, gone: Entry) {
    && Legal(all) && steps <= all && |steps| <= m < |all|
    && Start(e) in EventsOf(all[m]) && e.listen == gone.listen
  }

  /** A group that has been shut down has been shut down before every later start. */
  lemma ShutStays(steps: seq<Step>, all: seq<Step>, m: int, e: Entry, gone: Entry)
    requires LaterStart(steps, all, m, e, gone) && Shutdown(gone) in After(steps).log
    ensures ShutBefore(all, m, e, gone)
  {
    assert all[..m][..|steps|] == steps;
    LogPrefix(all[..m], |steps|);
    var i :| 0 <= i < |After(steps).log| && After(steps).log[i] == Shutdown(gone);
    ShutBeforeFrom(all, m, i, e, gone);
  }

  /** A reload that only adds `spare`. */
  function Adding(spare: Entry): Plan {
    Plan([], [], [], [spare], 0)
  }

  lemma AddingStarts(spare: Entry)
    ensures Script(Adding(spare)) == [Start(spare)] && WellPlanned(Adding(spare)) && FreesAddresses(Adding(spare))
  {
  }

  /** Any run can go on to start a new group before anything else happens. */
  lemma StartAnother(steps: seq<Step>, spare: Entry) returns (all: seq<Step>)
    requires Legal(steps) && spare !in After(steps).seen
    ensures LaterStart(steps, all, |all| - 1, spare, spare)
    ensures After(all).log == After(steps).log + [Start(spare)]
  {
    var ready := if After(steps).published then steps else steps + [Published];
    if !After(steps).published {
      LegalAppend(steps, Published);
    }
    AddingStarts(spare);
    assert Elements([spare]) == {spare};
    LegalAppend(ready, Reloaded(Adding(spare)));
    all := ready + [Reloaded(Adding(spare))];
  }

  /** The next start on the address of a group that has not been shut down may come too soon. */
  lemma NotShutBefore(steps: seq<Step>, spare: Entry, gone: Entry) returns (all: seq<Step>)
    requires Legal(steps) && spare !in After(steps).seen && spare.listen == gone.listen
    requires Shutdown(gone) !in After(steps).log
    ensures LaterStart(steps, all, |all| - 1, spare, gone) && !ShutBefore(all, |all| - 1, spare, gone)
  {
    all := StartAnother(steps, spare);
  }

  /**
   The law for every later start on the address of a removed group: however the run
   goes on, the group has been shut down by then, if and only if it has been shut down
   already. (`spare` is any group that has not been built yet.)
   */
  lemma ShutBeforeIff(steps: seq<Step>, gone: Entry, spare: Entry)
    requires Legal(steps) && spare !in After(steps).seen && spare.listen == gone.listen
    ensures (forall all, m, e :: LaterStart(steps, all, m, e, gone) ==> ShutBefore(all, m, e, gone)) <==>
            Shutdown(gone) in After(steps).log
  {
    if Shutdown(gone) in After(steps).log {
      forall all, m, e | LaterStart(steps, all, m, e, gone) ensures ShutBefore(all, m, e, gone) {
        ShutStays(steps, all, m, e, gone);
      }
    } else {
      var all := NotShutBefore(steps, spare, gone);
    }
  }

  /**
   So a reload promises free addresses to later reloads exactly for the groups it
   tears down itself: those on the address of a group it adds. (A group may also have
   been shut down by a `Shutdown` call before.)
   */
  lemma AlwaysWaitsIff(steps: seq<Step>, gone: Entry, spare: Entry)
    requires Legal(steps) && steps != []
    requires var last := steps[|steps| - 1]; last.Reloaded? && gone in last.plan.removed
    requires spare !in After(steps).seen && spare.listen == gone.listen
    ensures var k := |steps| - 1;
            (forall all, m, e :: LaterStart(steps, all, m, e, gone) ==> ShutBefore(all, m, e, gone)) <==>
            Needs(steps[k].plan.added, gone.listen) || After(steps[..k]).stopped[gone] > 0
  {
    WaitedForIff(steps, gone);
    ShutBeforeIff(steps, gone, spare);
  }

  lemma LaterFrom(steps: seq<Step>, mid: seq<Step>, all: seq<Step>, m: int, e: Entry, gone: Entry)
    requires steps <= mid && LaterStart(mid, all, m, e, gone)
    ensures LaterStart(steps, all, m, e, gone)
  {
  }

  lemma FinishFirst(steps: seq<Step>, gone: Entry) returns (done: seq<Step>)
    requires Legal(steps) && gone in After(steps).handed - After(steps).torn
    ensures Legal(done) && After(done).seen == After(steps).seen && Shutdown(gone) in After(done).log
    ensures forall all, m, e :: LaterStart(done, all, m, e, gone) ==> LaterStart(steps, all, m, e, gone)
  {
    done := steps + [Finished(gone)];
    LegalAppend(steps, Finished(gone));
    var b := [Shutdown(gone), Unregister(gone)];
    assert b[0] in b;
    forall all, m, e | LaterStart(done, all, m, e, gone) ensures LaterStart(steps, all, m, e, gone) {
      LaterFrom(steps, done, all, m, e, gone);
    }
  }

  lemma ShutThenStart(steps: seq<Step>, spare: Entry, gone: Entry) returns (all: seq<Step>)
    requires Legal(steps) && spare !in After(steps).seen && spare.listen == gone.listen
    requires Shutdown(gone) in After(steps).log
    ensures LaterStart(steps, all, |all| - 1, spare, gone) && ShutBefore(all, |all| - 1, spare, gone)
  {
    all := StartAnother(steps, spare);
    ShutStays(steps, all, |all| - 1, spare, gone);
  }

  /** The goroutine finishes, and then a group starts on the address. */
  lemma GoroutineWins(steps: seq<Step>, gone: Entry, spare: Entry) returns (all: seq<Step>)
    requires Legal(steps) && gone in After(steps).handed - After(steps).torn
    requires spare !in After(steps).seen && spare.listen == gone.listen
    ensures LaterStart(steps, all, |all| - 1, spare, gone) && ShutBefore(all, |all| - 1, spare, gone)
  {
    var done := FinishFirst(steps, gone);
    all := ShutThenStart(done, spare, gone);
  }

  /**
   For a group left to a goroutine it is a race. From any moment before the goroutine
   is done there is a run in which a group starts on its address too soon, and one in
   which the goroutine wins.
   */
  lemma EitherMayWin(steps: seq<Step>, gone: Entry, spare: Entry) returns (lost: seq<Step>, won: seq<Step>)
    requires Legal(steps) && gone in After(steps).handed - After(steps).torn && After(steps).stopped[gone] == 0
    requires spare !in After(steps).seen && spare.listen == gone.listen
    ensures LaterStart(steps, lost, |lost| - 1, spare, gone) && !ShutBefore(lost, |lost| - 1, spare, gone)
    ensures LaterStart(steps, won, |won| - 1, spare, gone) && ShutBefore(won, |won| - 1, spare, gone)
  {
    HandedOver(steps, gone);
    lost := NotShutBefore(steps, spare, gone);
    won := GoroutineWins(steps, gone, spare);
  }

  // --- The manager in place -----------------------------------------------------

  predicate AllBuild(effs: seq<Eff>) {
    forall i :: 0 <= i < |effs| ==> effs[i].builds
  }

  /** No running group panics when it is reloaded. */
  predicate NonePanics(effs: seq<Eff>) {
    forall i :: 0 <= i < |effs| ==> !effs[i].reloads.Panicked?
  }

  function EffNames(effs: seq<Eff>): seq<string> {
    if effs == [] then [] else EffNames(effs[..|effs| - 1]) + [effs[|effs| - 1].name]
  }

  lemma {:induction false} AllLive(effs: seq<Eff>, running: set<string>)
    requires AllBuild(effs)
    ensures LiveNames(effs, running) == EffNames(effs)
  {
    if effs != [] {
      AllLive(effs[..|effs| - 1], running);
    }
  }

  /** A reload before `Start` starts nothing. */
  lemma TooEarly(was: Moment, now: Moment, effs: seq<Eff>, plan: Plan)
    requires Applied(was, now, effs, None, plan) && !was.published
    ensures now.published == was.published && Started(plan) == []
  {
  }

  /** How the list changes when the groups that stay keep their entry. */
  lemma ServiceAfter(groups: seq<Entry>, byName: map<string, Entry>, groups': seq<Entry>, byName': map<string, Entry>, p: Plan)
    requires Agree(groups, byName) && Agree(groups', byName')
    requires forall n :: n in byName' && n in byName ==> byName'[n] == byName[n]
    requires forall e :: e in p.removed <==> e in groups && e.name !in byName'
    requires p.added == NewOnes(groups', byName.Keys)
    ensures Elements(p.removed) <= Elements(groups)
    ensures Elements(groups') == Elements(groups) - Elements(p.removed) + Elements(p.added)
    ensures forall e :: e in p.added ==> e.name in byName' && e.name !in byName && byName'[e.name] == e
  {
    NewOnesDistinct(groups', byName.Keys);
    forall e ensures e in groups' <==> (e in groups && e !in p.removed) || e in p.added {
      if e in groups && e.name in byName' {
        assert byName'[e.name] == byName[e.name] == e;
      }
      if e in groups' && e.name in byName {
        assert byName'[e.name] == byName[e.name] == e;
      }
    }
  }

  /** `es` lists the groups whose goroutine is still at work. */
  ghost predicate AtWork(es: seq<Entry>, handed: set<Entry>, torn: set<Entry>) {
    Distinct(es) && Elements(es) == handed - torn
  }

  lemma AtWorkAfter(es: seq<Entry>, handed: set<Entry>, torn: set<Entry>, inService: set<Entry>, p: Plan)
    requires AtWork(es, handed, torn) && WellPlanned(p) && Elements(p.removed) <= inService && inService !! handed + torn
    ensures AtWork(es + p.spawned, handed + Elements(p.spawned), torn + Elements(p.drained))
  {
    forall e ensures e in p.spawned ==> e !in es && e !in torn {
      assert e in p.spawned ==> e in Elements(p.removed);
      assert e in es <==> e in Elements(es);
    }
    assert forall i :: 0 <= i < |p.spawned| ==> p.spawned[i] in p.spawned;
    DrainedConcat(es, p.spawned);
    forall e ensures e in Elements(es + p.spawned) <==> e in (handed + Elements(p.spawned)) - (torn + Elements(p.drained)) {
      assert e in es <==> e in Elements(es);
      assert e in p.drained ==> e in Elements(p.removed);
    }
  }

  lemma OneLess(es: seq<Entry>, i: nat)
    requires i < |es|
    ensures multiset(es[..i] + es[i + 1..]) == multiset(es) - multiset{es[i]}
  {
    assert es == es[..i] + [es[i]] + es[i + 1..];
    assert multiset(es) == multiset(es[..i]) + multiset{es[i]} + multiset(es[i + 1..]);
  }

  lemma OneDone(es: seq<Entry>, i: nat, handed: set<Entry>, torn: set<Entry>)
    requires i < |es| && AtWork(es, handed, torn)
    ensures AtWork(es[..i] + es[i + 1..], handed, torn + {es[i]}) && es[i] in handed - torn
  {
    assert es[i] in Elements(es);
    var rest := es[..i] + es[i + 1..];
    assert forall k :: 0 <= k < |rest| ==> rest[k] == es[if k < i then k else k + 1];
    forall e ensures e in Elements(rest) <==> e in Elements(es) && e != es[i] {
      assert es == es[..i] + [es[i]] + es[i + 1..];
    }
  }

  /** The manager stands where the history says. */
  ghost predicate Stands(now: Moment, s: Sys) {
    && now.events == s.log && Elements(now.groups) == s.inService
    && now.published == s.published && now.launched == s.launched
    && AtWork(now.teardowns, s.handed, s.torn) && multiset(now.stops) == s.stopping
  }

  /** A reload is a legal step, and leads where it should. */
  lemma ReloadIsStep(s: Sys, was: Moment, now: Moment, effs: seq<Eff>, arrives: Option<nat>, plan: Plan)
    requires Stands(was, s) && Applied(was, now, effs, arrives, plan)
    requires Agree(was.groups, was.byName) && Agree(now.groups, now.byName)
    requires Elements(plan.added) !! s.seen && s.inService !! s.handed + s.torn
    ensures Fits(s, Reloaded(plan)) && Stands(now, Next(s, Reloaded(plan)))
  {
    ServiceAfter(was.groups, was.byName, now.groups, now.byName, plan);
    AtWorkAfter(was.teardowns, s.handed, s.torn, s.inService, plan);
  }

  /** Groups in service have not been handed over or torn down. */
  lemma ServiceIsWhole(steps: seq<Step>)
    requires Legal(steps)
    ensures After(steps).inService !! After(steps).handed + After(steps).torn
  {
    var s := After(steps);
    forall e | e in s.inService ensures e !in s.handed + s.torn {
      EveryLife(steps, e);
    }
    assert s.inService * (s.handed + s.torn) == {};
  }

  /** A manager together with its history. */
  class RecordedManager {
    const manager: M.Manager
    ghost var steps: seq<Step>
    ghost var seen: set<Entry>

    /** The manager is where its history says. */
    ghost predicate Valid()
      reads this, manager, manager.groups
    {
      && manager.Valid() && Legal(steps)
      && seen == After(steps).seen && Stands(manager.View(), After(steps))
    }

    constructor ()
      ensures Valid() && fresh(manager) && steps == []
      ensures manager.View() == Moment([], map[], false, false, [], [], [])
    {
      steps, seen := [], {};
      manager := new M.Manager();
    }

    /** The manager has gone through `st`. */
    ghost method Note(st: Step)
      requires Legal(steps) && Fits(After(steps), st) && manager.Valid()
      requires Stands(manager.View(), Next(After(steps), st))
      modifies this
      ensures Valid() && steps == old(steps) + [st] && After(steps) == Next(After(old(steps)), st)
    {
      LegalAppend(steps, st);
      steps := steps + [st];
      seen := After(steps).seen;
    }

    /** `Start` makes the result channel. */
    method Publish()
      requires Valid() && !manager.published
      modifies this, manager
      ensures Valid() && steps == old(steps) + [Published] && After(steps) == Next(After(old(steps)), Published)
      ensures manager.View() == old(manager.View()).(published := true)
    {
      manager.Publish();
      Note(Published);
    }

    /** `Start` starts the groups it finds. */
    method Launch()
      requires Valid() && manager.published && !manager.launched
      modifies this, manager
      ensures Valid() && steps == old(steps) + [Launched(manager.groups)]
      ensures Fits(After(old(steps)), Launched(manager.groups))
      ensures After(steps) == Next(After(old(steps)), Launched(manager.groups))
      ensures manager.View() == old(manager.View()).(launched := true, events := manager.events)
    {
      manager.Launch();
      Note(Launched(manager.groups));
    }

    /** `Shutdown` is called. */
    method Stop()
      requires Valid()
      modifies this, manager
      ensures Valid() && steps == old(steps) + [StopCalled(manager.groups)]
      ensures After(steps) == Next(After(old(steps)), StopCalled(manager.groups))
      ensures manager.View() == old(manager.View()).(stops := old(manager.stops) + manager.groups)
    {
      manager.Stop();
      Note(StopCalled(manager.groups));
    }

    /** A goroutine of such a call gets to its group. */
    method RunStop(i: nat) returns (e: Entry)
      requires Valid() && i < |manager.stops|
      modifies this, manager
      ensures Valid() && e == old(manager.stops)[i]
      ensures steps == old(steps) + [Stopped(e)] && After(steps) == Next(After(old(steps)), Stopped(e))
      ensures manager.View() == old(manager.View()).(
                stops := old(manager.stops)[..i] + old(manager.stops)[i + 1..], events := manager.events)
    {
      OneLess(manager.stops, i);
      assert manager.stops[i] in multiset(manager.stops);
      e := manager.RunStop(i);
      Note(Stopped(e));
    }

    /** A goroutine of a reload tears its group down. */
    method RunTeardown(i: nat) returns (e: Entry)
      requires Valid() && i < |manager.teardowns|
      modifies this, manager
      ensures Valid() && e == old(manager.teardowns)[i]
      ensures steps == old(steps) + [Finished(e)] && After(steps) == Next(After(old(steps)), Finished(e))
      ensures manager.View() == old(manager.View()).(
                teardowns := old(manager.teardowns)[..i] + old(manager.teardowns)[i + 1..], events := manager.events)
    {
      OneDone(manager.teardowns, i, After(steps).handed, After(steps).torn);
      e := manager.RunTeardown(i);
      Note(Finished(e));
    }

    method Reload(load: Option<seq<Eff>>, arrives: Option<nat>) returns (out: Ended, ghost plan: Plan)
      requires Valid()
      modifies this, manager, manager.groups`retired
      ensures Valid()
      ensures load.None? || !ValidConfig(load.value) ==>
                out.Errored? && steps == old(steps) && manager.View() == old(manager.View())
      ensures load.Some? && ValidConfig(load.value) ==>
                (out.Panicked? <==> AnyPanics(load.value, old(manager.byName).Keys))
      ensures out.Panicked? ==> steps == old(steps) && manager.View() == old(manager.View())
      ensures load.Some? && ValidConfig(load.value) && !out.Panicked? ==>
                && steps == old(steps) + [Reloaded(plan)]
                && Fits(After(old(steps)), Reloaded(plan)) && After(steps) == AfterReload(After(old(steps)), plan)
                && Applied(old(manager.View()), manager.View(), load.value, arrives, plan)
                && (forall n :: n in manager.byName && n !in old(manager.byName) ==> fresh(manager.byName[n]))
    {
      ghost var was := manager.View();
      out, plan := manager.Reload(load, arrives);
      if load.Some? && ValidConfig(load.value) && !out.Panicked? {
        NewOnesDistinct(manager.groups, was.byName.Keys);
        assert forall e :: e in plan.added ==> e !in seen;
        ServiceIsWhole(steps);
        ReloadIsStep(After(steps), was, manager.View(), load.value, arrives, plan);
        Note(Reloaded(plan));
      }
    }

    /** `NewManager`: every group must build. */
    static method New(effs: seq<Eff>) returns (r: Option<RecordedManager>)
      ensures r.Some? <==> ValidConfig(effs) && AllBuild(effs)
      ensures r.Some? ==> r.value.Valid() && fresh(r.value) && fresh(r.value.manager)
      ensures r.Some? ==> !r.value.manager.published && !r.value.manager.launched
      ensures r.Some? ==> Names(r.value.manager.groups) == EffNames(effs)
      ensures r.Some? ==> forall n :: n in r.value.manager.byName ==>
                fresh(r.value.manager.byName[n]) && BuiltFor(r.value.manager.byName[n], effs)
      ensures r.Some? ==> var s := After(r.value.steps); s.early == {} && s.stopping == s.stopped == multiset{}
    {
      if !ValidConfig(effs) || !AllBuild(effs) {
        return None;
      }
      var m := new RecordedManager();
      AllLive(effs, m.manager.byName.Keys);
      ghost var was := m.manager.View();
      var out;
      ghost var plan;
      out, plan := m.Reload(Some(effs), None);
      TooEarly(was, m.manager.View(), effs, plan);
      assert Elements([]) == {};
      return Some(m);
    }
  }

  // --- Three kinds of runs worth knowing ------------------------------------------

  /** A reload while `Start` waits for the lock, and the launch. */
  lemma AroundLaunch(s: Sys, plan: Plan, groups: seq<Entry>, e: Entry)
    requires s.published && !s.launched && s.early == {} && e in groups && Fits(s, Reloaded(plan))
    requires var s' := Next(s, Reloaded(plan)); Fits(s', Launched(groups)) && Life(s', e)
    ensures Times(Next(Next(s, Reloaded(plan)), Launched(groups)).log, Start(e)) == if e in plan.added then 2 else 1
  {
    var s' := Next(s, Reloaded(plan));
    EarlyNext(s, Reloaded(plan), e);
    assert Started(plan) == plan.added;
    LaunchStarts(groups, e);
    assert e in Elements(groups);
    TimesConcat(s'.log, Starts(groups), Start(e));
  }

  /**
   A reload between the two halves of `Start`: with any two configurations whose
   groups build, and none panics, exactly the groups that the reload adds are started twice.
   */
  method ReloadDuringStart(first: seq<Eff>, second: seq<Eff>) returns (m: RecordedManager)
    requires ValidConfig(first) && AllBuild(first) && ValidConfig(second) && AllBuild(second) && NonePanics(second)
    ensures m.Valid() && m.manager.launched && Names(m.manager.groups) == EffNames(second)
    ensures forall e :: e in m.manager.groups ==>
              Times(m.manager.events, Start(e)) == if e.name in EffNames(first) then 1 else 2
  {
    var r := RecordedManager.New(first);
    m := r.value;
    m.Publish();
    ghost var was, s := m.manager.View(), After(m.steps);
    AllLive(second, m.manager.byName.Keys);
    var out;
    ghost var plan;
    out, plan := m.Reload(Some(second), None);
    ghost var steps := m.steps;
    NewOnesDistinct(m.manager.groups, was.byName.Keys);
    m.Launch();
    forall e | e in m.manager.groups
      ensures Times(m.manager.events, Start(e)) == if e.name in EffNames(first) then 1 else 2
    {
      NamesGive(was.groups, was.byName, e.name);
      EveryLife(steps, e);
      AroundLaunch(s, plan, m.manager.groups, e);
    }
  }

  /** A reload of a launched manager. */
  method ReloadAll(m: RecordedManager, effs: seq<Eff>) returns (ghost plan: Plan)
    requires m.Valid() && m.manager.published && ValidConfig(effs) && AllBuild(effs) && NonePanics(effs)
    modifies m, m.manager, m.manager.groups`retired
    ensures m.Valid() && m.manager.published && m.steps == old(m.steps) + [Reloaded(plan)]
    ensures Fits(After(old(m.steps)), Reloaded(plan)) && After(m.steps) == AfterReload(After(old(m.steps)), plan)
    ensures Applied(old(m.manager.View()), m.manager.View(), effs, None, plan)
    ensures Names(m.manager.groups) == EffNames(effs)
    ensures forall e :: e in m.manager.groups ==> fresh(e) || e in old(m.manager.groups)
  {
    ghost var was := m.manager.View();
    AllLive(effs, was.byName.Keys);
    var out;
    out, plan := m.Reload(Some(effs), None);
    forall e | e in m.manager.groups ensures fresh(e) || e in was.groups {
      assert m.manager.byName[e.name] == e;
      if e.name in was.byName {
        assert was.byName[e.name] in was.groups;
      }
    }
  }

  /** A manager that `Start` has launched. */
  method Running(effs: seq<Eff>) returns (m: RecordedManager)
    requires ValidConfig(effs) && AllBuild(effs)
    ensures m.Valid() && fresh(m) && fresh(m.manager) && m.manager.published && m.manager.launched
    ensures Names(m.manager.groups) == EffNames(effs)
    ensures forall e :: e in m.manager.groups ==> fresh(e) && BuiltFor(e, effs)
    ensures var s := After(m.steps); s.stopping == s.stopped == multiset{}
  {
    var r := RecordedManager.New(effs);
    m := r.value;
    m.Publish();
    m.Launch();
  }

  /** Nothing but the teardowns of the groups handed over has happened. */
  ghost predicate OnlyTorn(was: Sys, now: Sys) {
    && now.published == was.published && now.launched == was.launched && now.inService == was.inService
    && now.seen == was.seen && now.handed == was.handed && now.stopping == was.stopping && now.stopped == was.stopped
    && was.torn <= now.torn <= was.torn + was.handed
  }

  lemma OneMoreTorn(was: Sys, now: Sys, e: Entry)
    requires OnlyTorn(was, now) && Fits(now, Finished(e))
    ensures OnlyTorn(was, Next(now, Finished(e)))
  {
  }

  /** All goroutines of reloads finish. */
  method FinishAll(m: RecordedManager)
    requires m.Valid()
    modifies m, m.manager
    ensures m.Valid() && m.manager.View() == old(m.manager.View()).(teardowns := [], events := m.manager.events)
    ensures OnlyTorn(After(old(m.steps)), After(m.steps)) && After(m.steps).handed <= After(m.steps).torn
  {
    ghost var was := After(m.steps);
    while m.manager.teardowns != []
      invariant m.Valid() && OnlyTorn(was, After(m.steps))
      invariant m.manager.View() == old(m.manager.View()).(teardowns := m.manager.teardowns, events := m.manager.events)
      decreases |m.manager.teardowns|
    {
      ghost var s := After(m.steps);
      var e := m.RunTeardown(0);
      OneMoreTorn(was, s, e);
    }
    NoneAtWork(After(m.steps).handed, After(m.steps).torn);
  }

  lemma NoneAtWork(handed: set<Entry>, torn: set<Entry>)
    requires AtWork([], handed, torn)
    ensures handed <= torn
  {
    forall e | e in handed ensures e in torn {
      assert e in Elements([]) || e in torn;
    }
  }

  /** Nothing but the shutdowns of `Shutdown` calls has happened. */
  ghost predicate OnlyStopped(was: Sys, now: Sys) {
    && now.published == was.published && now.launched == was.launched && now.inService == was.inService
    && now.seen == was.seen && now.handed == was.handed && now.torn == was.torn
    && now.stopped + now.stopping == was.stopped + was.stopping
  }

  lemma OneMoreStopped(was: Sys, now: Sys, e: Entry)
    requires OnlyStopped(was, now) && Fits(now, Stopped(e))
    ensures OnlyStopped(was, Next(now, Stopped(e)))
  {
    assert now.stopping == (now.stopping - multiset{e}) + multiset{e};
  }

  /** All goroutines of `Shutdown` calls finish. */
  method StopAll(m: RecordedManager)
    requires m.Valid()
    modifies m, m.manager
    ensures m.Valid() && m.manager.View() == old(m.manager.View()).(stops := [], events := m.manager.events)
    ensures OnlyStopped(After(old(m.steps)), After(m.steps)) && After(m.steps).stopping == multiset{}
  {
    ghost var was := After(m.steps);
    while m.manager.stops != []
      invariant m.Valid() && OnlyStopped(was, After(m.steps))
      invariant m.manager.View() == old(m.manager.View()).(stops := m.manager.stops, events := m.manager.events)
      decreases |m.manager.stops|
    {
      ghost var s := After(m.steps);
      var e := m.RunStop(0);
      OneMoreStopped(was, s, e);
    }
  }

  /** Whether the teardown of a group is over after a reload that removes it, and after another one. */
  lemma LateTorn(s: Sys, remove: Plan, now: Sys, add: Plan, gone: Entry)
    requires Placed(s, gone) && gone in s.inService && gone in remove.removed
    requires Fits(s, Reloaded(remove)) && OnlyTorn(AfterReload(s, remove), now) && Fits(now, Reloaded(add))
    ensures gone in AfterReload(now, add).torn <==> gone in now.torn
    ensures gone in AfterReload(s, remove).torn <==> Needs(remove.added, gone.listen)
    ensures gone in now.handed || gone in now.torn
    ensures gone in AfterReload(now, add).seen - AfterReload(now, add).inService
  {
    assert gone in Elements(remove.removed) && gone in s.seen;
    assert gone in remove.drained <==> gone in Elements(remove.drained);
    assert gone in remove.spawned <==> gone in Elements(remove.spawned);
    assert gone in remove.added <==> gone in Elements(remove.added);
    assert gone in add.removed <==> gone in Elements(add.removed);
    assert gone in add.drained <==> gone in Elements(add.drained);
    assert gone in add.added <==> gone in Elements(add.added);
  }

  lemma TornIsShut(s: Sys, gone: Entry)
    requires Tally(s, gone) && s.stopped[gone] == 0 && gone in s.seen - s.inService
    ensures Once(s.log, Retire(gone)) && (Shutdown(gone) in s.log <==> gone in s.torn)
  {
    OnceIffCounted(s.log, Retire(gone));
    OnceIffCounted(s.log, Shutdown(gone));
  }

  lemma LateRemoval(s: Sys, was: Moment, mid: Moment, effs: seq<Eff>, remove: Plan, now: Sys, add: Plan,
                    finish: bool, gone: Entry)
    requires Placed(s, gone) && s.stopped[gone] == 0 && Elements(was.groups) == s.inService
    requires Agree(was.groups, was.byName) && Agree(mid.groups, mid.byName) && Applied(was, mid, effs, None, remove)
    requires gone in was.groups && gone.name !in Names(mid.groups)
    requires Fits(s, Reloaded(remove)) && OnlyTorn(AfterReload(s, remove), now) && Fits(now, Reloaded(add))
    requires if finish then now.handed <= now.torn else now == AfterReload(s, remove)
    requires Tally(AfterReload(now, add), gone)
    ensures Once(AfterReload(now, add).log, Retire(gone))
    ensures Shutdown(gone) in AfterReload(now, add).log <==>
              finish || exists x :: x in mid.groups && x.name !in Names(was.groups) && x.listen == gone.listen
  {
    NamesGive(mid.groups, mid.byName, gone.name);
    assert gone in Elements(was.groups);
    LateTorn(s, remove, now, add, gone);
    TornIsShut(AfterReload(now, add), gone);
    NeedsNew(was.groups, was.byName, mid.groups, gone.listen);
  }

  lemma LateRemovals(steps: seq<Step>, was: Moment, mid: Moment, effs: seq<Eff>, remove: Plan, now: Sys, add: Plan,
                     steps': seq<Step>, finish: bool)
    requires Legal(steps) && After(steps).stopped == multiset{} && Elements(was.groups) == After(steps).inService
    requires Agree(was.groups, was.byName) && Agree(mid.groups, mid.byName) && Applied(was, mid, effs, None, remove)
    requires Fits(After(steps), Reloaded(remove)) && OnlyTorn(AfterReload(After(steps), remove), now)
    requires if finish then now.handed <= now.torn else now == AfterReload(After(steps), remove)
    requires Fits(now, Reloaded(add)) && Legal(steps') && After(steps') == AfterReload(now, add)
    ensures forall gone :: gone in was.groups && gone.name !in Names(mid.groups) ==>
              && Once(After(steps').log, Retire(gone))
              && (Shutdown(gone) in After(steps').log <==>
                    finish || exists x :: x in mid.groups && x.name !in Names(was.groups) && x.listen == gone.listen)
  {
    forall gone | gone in was.groups && gone.name !in Names(mid.groups)
      ensures Once(After(steps').log, Retire(gone))
      ensures Shutdown(gone) in After(steps').log <==>
                finish || exists x :: x in mid.groups && x.name !in Names(was.groups) && x.listen == gone.listen
    {
      EveryLife(steps, gone);
      EveryLife(steps', gone);
      LateRemoval(After(steps), was, mid, effs, remove, now, add, finish, gone);
    }
  }

  lemma LateStarts(was: Moment, now: Moment, effs: seq<Eff>, plan: Plan)
    requires Agree(was.groups, was.byName) && Agree(now.groups, now.byName) && Applied(was, now, effs, None, plan)
    requires was.published
    ensures forall e :: e in now.groups && e.name !in Names(was.groups) ==> BuiltFor(e, effs) && Start(e) in now.events
  {
    forall e | e in now.groups && e.name !in Names(was.groups) ensures BuiltFor(e, effs) && Start(e) in now.events {
      LateStart(was, now, effs, plan, e);
    }
  }

  lemma LateStart(was: Moment, now: Moment, effs: seq<Eff>, plan: Plan, e: Entry)
    requires Agree(was.groups, was.byName) && Agree(now.groups, now.byName) && Applied(was, now, effs, None, plan)
    requires was.published && e in now.groups && e.name !in Names(was.groups)
    ensures BuiltFor(e, effs) && Start(e) in now.events
  {
    NewIsStarted(was, now, effs, plan, e);
    StartedOnce(plan, e);
    HappenedInside(was.events, Script(plan), now.events, Start(e));
  }

  lemma NewIsStarted(was: Moment, now: Moment, effs: seq<Eff>, plan: Plan, e: Entry)
    requires Agree(was.groups, was.byName) && Agree(now.groups, now.byName) && Applied(was, now, effs, None, plan)
    requires was.published && e in now.groups && e.name !in Names(was.groups)
    ensures e in Started(plan) && BuiltFor(e, effs)
  {
    NamesGive(was.groups, was.byName, e.name);
    NewOnesDistinct(now.groups, was.byName.Keys);
    assert now.byName[e.name] == e;
    assert Started(plan) == plan.added;
  }

  lemma NeedsNew(groups: seq<Entry>, byName: map<string, Entry>, middle: seq<Entry>, listen: string)
    requires Agree(groups, byName) && forall i, j :: 0 <= i < j < |middle| ==> middle[i].name != middle[j].name
    ensures Needs(NewOnes(middle, byName.Keys), listen) <==>
            exists x :: x in middle && x.name !in Names(groups) && x.listen == listen
  {
    var added := NewOnes(middle, byName.Keys);
    NewOnesDistinct(middle, byName.Keys);
    forall x | x in middle ensures x in added <==> x.name !in Names(groups) {
      NamesGive(groups, byName, x.name);
    }
    if Needs(added, listen) {
      var i :| 0 <= i < |added| && added[i].listen == listen;
      assert added[i] in middle;
    }
  }

  /** A launched manager after a reload, before or after its goroutines have finished. */
  method LeaveOut(first: seq<Eff>, second: seq<Eff>, finish: bool)
    returns (m: RecordedManager, before: seq<Entry>, middle: seq<Entry>,
             ghost steps: seq<Step>, ghost was: Moment, ghost mid: Moment, ghost remove: Plan)
    requires ValidConfig(first) && AllBuild(first) && ValidConfig(second) && AllBuild(second) && NonePanics(second)
    ensures m.Valid() && fresh(m) && fresh(m.manager) && m.manager.published
    ensures was.groups == before && Names(before) == EffNames(first) && forall e :: e in before ==> BuiltFor(e, first)
    ensures mid.groups == middle == m.manager.groups && mid.byName == m.manager.byName
    ensures Names(middle) == EffNames(second) && forall e :: e in middle ==> fresh(e)
    ensures Agree(was.groups, was.byName) && Applied(was, mid, second, None, remove)
    ensures Legal(steps) && After(steps).stopped == multiset{} && Elements(was.groups) == After(steps).inService
    ensures Fits(After(steps), Reloaded(remove)) && OnlyTorn(AfterReload(After(steps), remove), After(m.steps))
    ensures var now := After(m.steps); if finish then now.handed <= now.torn else now == AfterReload(After(steps), remove)
  {
    m := Running(first);
    before := m.manager.groups;
    was, steps := m.manager.View(), m.steps;
    remove := ReloadAll(m, second);
    middle := m.manager.groups;
    mid := m.manager.View();
    if finish {
      FinishAll(m);
    }
  }

  /**
   The promise of a free address ends with the reload. With any three configurations
   whose groups build, and none panics, a group that the second leaves out has been shut down when the
   third starts its groups if and only if the goroutines of the second reload have
   finished by then (`finish`) or the second adds a group on its address; what the
   third adds there plays no part.
   */
  method LaterStartMayNotWait(first: seq<Eff>, second: seq<Eff>, third: seq<Eff>, finish: bool)
    returns (m: RecordedManager, before: seq<Entry>, middle: seq<Entry>)
    requires ValidConfig(first) && AllBuild(first) && ValidConfig(second) && AllBuild(second) && NonePanics(second)
    requires ValidConfig(third) && AllBuild(third) && NonePanics(third)
    ensures m.Valid() && Names(before) == EffNames(first) && Names(middle) == EffNames(second)
    ensures Names(m.manager.groups) == EffNames(third)
    ensures forall gone :: gone in before && gone.name !in EffNames(second) ==>
              && BuiltFor(gone, first) && Once(m.manager.events, Retire(gone))
              && (Shutdown(gone) in m.manager.events <==>
                    finish || exists x :: x in middle && x.name !in EffNames(first) && x.listen == gone.listen)
    ensures forall e :: e in m.manager.groups && e.name !in EffNames(second) ==>
              BuiltFor(e, third) && Start(e) in m.manager.events
  {
    ghost var steps, was, mid, remove;
    m, before, middle, steps, was, mid, remove := LeaveOut(first, second, finish);
    ghost var mid', now := m.manager.View(), After(m.steps);
    ghost var add := ReloadAll(m, third);
    LateRemovals(steps, was, mid, second, remove, now, add, m.steps, finish);
    LateStarts(mid', m.manager.View(), third, add);
  }

  /** Such configurations exist: the third takes the address of a group that the second left out. */
  lemma LateConfigs() returns (first: seq<Eff>, second: seq<Eff>, third: seq<Eff>)
    ensures ValidConfig(first) && AllBuild(first) && ValidConfig(second) && AllBuild(second) && NonePanics(second)
    ensures ValidConfig(third) && AllBuild(third) && NonePanics(third)
    ensures |first| == 2 && |second| == 1 && |third| == 2 && second == first[1..] == third[..1]
    ensures first[0].listen == third[1].listen && first[0].name != third[1].name
  {
    var a, b := Eff("a", "127.0.0.1:1080", true, Succeeded, true), Eff("b", "127.0.0.1:1081", true, Succeeded, true);
    first, second, third := [a, b], [b], [b, Eff("c", a.listen, true, Succeeded, true)];
    assert "a"[0] != "b"[0] && "b"[0] != "c"[0] && "a"[0] != "c"[0];
  }

  lemma ShutTwice(s: Sys, was: Moment, mid: Moment, effs: seq<Eff>, plan: Plan, now: Sys, e: Entry)
    requires Placed(s, e) && s.stopped == multiset(was.groups) && Elements(was.groups) == s.inService
    requires Agree(was.groups, was.byName) && Agree(mid.groups, mid.byName) && Applied(was, mid, effs, None, plan)
    requires Fits(s, Reloaded(plan)) && OnlyTorn(AfterReload(s, plan), now) && now.handed <= now.torn
    requires Placed(now, e) && Tally(now, e)
    requires e in was.groups || e in mid.groups
    ensures Times(now.log, Shutdown(e)) == Unit(e in was.groups) + Unit(e !in mid.groups)
  {
    assert e in was.groups <==> e in Elements(was.groups);
    ListedOnce(was.groups, e);
    ServiceAfter(was.groups, was.byName, mid.groups, mid.byName, plan);
    assert e in mid.groups <==> e in Elements(mid.groups);
  }

  /** A group of one list is in another one that keeps entries exactly if its name is. */
  lemma KeptByName(was: Moment, mid: Moment, e: Entry)
    requires Agree(was.groups, was.byName) && Agree(mid.groups, mid.byName)
    requires forall n :: n in mid.byName && n in was.byName ==> mid.byName[n] == was.byName[n]
    ensures e in was.groups ==> (e in mid.groups <==> e.name in Names(mid.groups))
    ensures e in mid.groups ==> (e in was.groups <==> e.name in Names(was.groups))
  {
    NamesGive(was.groups, was.byName, e.name);
    NamesGive(mid.groups, mid.byName, e.name);
  }

  lemma AllStopped(was: Sys, groups: seq<Entry>, now: Sys)
    requires was.stopped == was.stopping == multiset{}
    requires OnlyStopped(Next(was, StopCalled(groups)), now) && now.stopping == multiset{}
    ensures now.stopped == multiset(groups)
  {
    assert now.stopped + multiset{} == now.stopped;
  }

  /** A manager that was started and then shut down. */
  method ShutDown(effs: seq<Eff>) returns (m: RecordedManager)
    requires ValidConfig(effs) && AllBuild(effs)
    ensures m.Valid() && fresh(m) && fresh(m.manager) && m.manager.published && m.manager.stops == []
    ensures Names(m.manager.groups) == EffNames(effs) && forall e :: e in m.manager.groups ==> fresh(e)
    ensures After(m.steps).stopped == multiset(m.manager.groups)
  {
    m := Running(effs);
    ghost var was, s := m.manager.View(), After(m.steps);
    m.Stop();
    StopAll(m);
    AllStopped(s, was.groups, After(m.steps));
  }

  /**
   `Shutdown`, and then a reload before the process ends: with any two configurations
   whose groups build, and none panics, the groups that the reload leaves out are shut down twice, those
   that stay once, and new ones not at all.
   */
  method ReloadAfterShutdown(first: seq<Eff>, second: seq<Eff>) returns (m: RecordedManager, before: seq<Entry>)
    requires ValidConfig(first) && AllBuild(first) && ValidConfig(second) && AllBuild(second) && NonePanics(second)
    ensures m.Valid() && Names(before) == EffNames(first) && Names(m.manager.groups) == EffNames(second)
    ensures m.manager.stops == [] && m.manager.teardowns == []
    ensures forall e :: e in before && e.name !in EffNames(second) ==> Times(m.manager.events, Shutdown(e)) == 2
    ensures forall e :: e in m.manager.groups ==>
              Times(m.manager.events, Shutdown(e)) == if e.name in EffNames(first) then 1 else 0
  {
    m := ShutDown(first);
    before := m.manager.groups;
    ghost var was, steps := m.manager.View(), m.steps;
    ghost var plan := ReloadAll(m, second);
    ghost var mid := m.manager.View();
    FinishAll(m);
    forall e | e in before || e in m.manager.groups
      ensures e in before && e.name !in EffNames(second) ==> Times(m.manager.events, Shutdown(e)) == 2
      ensures e in m.manager.groups ==> Times(m.manager.events, Shutdown(e)) == if e.name in EffNames(first) then 1 else 0
    {
      EveryLife(steps, e);
      EveryLife(m.steps, e);
      ShutTwice(After(steps), was, mid, second, plan, After(m.steps), e);
      KeptByName(was, mid, e);
    }
  }
}
