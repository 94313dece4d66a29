/**
 Group reconciliation (`Manager.Reload` in internal/balancer/manager.go): one pass
 over the new configuration decides which groups stay, start and go; removed groups
 are retired, torn down and unregistered, and new ones started, in a fixed order.
 */
module Manager {
  import opened Common

  /** `groupEntry`; a reload never changes the listen address of a running group. */
  class Entry {
    const name: string
    const listen: string
    var retired: bool

    constructor (name: string, listen: string)
      ensures this.name == name && this.listen == listen && !retired
    {
      this.name, this.listen, retired := name, listen, false;
    }
  }

  /** One effective group of the configuration: what its own validation says, how reloading it ends, and whether it can be built. */
  datatype Eff = Eff(name: string, listen: string, valid: bool, reloads: Ended, builds: bool)

  /** What a reload does to a group, in the order it happens. */
  datatype Event =
    | Retire(e: Entry)
    | Shutdown(e: Entry)      // and wait for it
    | Unregister(e: Entry)
    | Spawn(e: Entry)         // a goroutine that shuts down and unregisters
    | Start(e: Entry)

  /**
   What `MultiConfig.Validate` accepts: names and listen addresses are unique and
   every group is valid. `EffectiveGroups` never gives an empty list.
   */
  predicate ValidConfig(effs: seq<Eff>) {
    && effs != []
    && (forall i :: 0 <= i < |effs| ==> effs[i].name != "" && effs[i].valid)
    && (forall i, j :: 0 <= i < j < |effs| ==> effs[i].name != effs[j].name && effs[i].listen != effs[j].listen)
  }

  // --- What happens to removed and new groups ----------------------------------

  function Retires(es: seq<Entry>): seq<Event> {
    seq(|es|, i requires 0 <= i < |es| => Retire(es[i]))
  }

  function Spawns(es: seq<Entry>): seq<Event> {
    seq(|es|, i requires 0 <= i < |es| => Spawn(es[i]))
  }

  function Starts(es: seq<Entry>): seq<Event> {
    seq(|es|, i requires 0 <= i < |es| => Start(es[i]))
  }

  function Teardowns(es: seq<Entry>): seq<Event> {
    seq(2 * |es|, i requires 0 <= i < 2 * |es| =>
      if i % 2 == 0 then Shutdown(es[i / 2]) else Unregister(es[i / 2]))
  }

  /**
   The groups a reload removes, those of them it tears down itself or leaves to
   goroutines, those it adds, and how many of the latter came too early to start.
   */
  datatype Plan = Plan(removed: seq<Entry>, drained: seq<Entry>, spawned: seq<Entry>, added: seq<Entry>, skipped: nat)

  /** Until `Start` has published the result channel, `startGroupLocked` does nothing. */
  function Started(p: Plan): seq<Entry> {
    if p.skipped <= |p.added| then p.added[p.skipped..] else []
  }

  /**
   How many of `n` groups a start loop skips. `Start` publishes the channel without
   holding the lock, so it can happen in the middle of the loop: `arrives` says
   before which group.
   */
  function Skipped(published: bool, arrives: Option<nat>, n: nat): (k: nat)
    ensures k <= n
  {
    if published then 0
    else if arrives.Some? && arrives.value < n then arrives.value
    else n
  }

  /** Everything a reload does, in order. */
  function Script(p: Plan): seq<Event> {
    Retires(p.removed) + Teardowns(p.drained) + Spawns(p.spawned) + Starts(Started(p))
  }

  /** `ev` happens exactly once. */
  ghost predicate Once(events: seq<Event>, ev: Event) {
    exists i :: 0 <= i < |events| && events[i] == ev && forall j :: 0 <= j < |events| && events[j] == ev ==> j == i
  }

  /** Every `first` comes before every `second`. */
  ghost predicate Before(events: seq<Event>, first: Event, second: Event) {
    forall i, j :: 0 <= i < |events| && 0 <= j < |events| && events[i] == first && events[j] == second ==> i < j
  }

  /** No group is listed twice, and the removed ones are split into those torn down at once and the rest. */
  ghost predicate WellPlanned(p: Plan) {
    && Distinct(p.removed) && Distinct(p.drained) && Distinct(p.spawned) && Distinct(p.added)
    && p.skipped <= |p.added|
    && (forall e :: e in p.removed ==> e in p.drained || e in p.spawned)
    && (forall e :: e in p.drained ==> e in p.removed && e !in p.spawned)
    && (forall e :: e in p.spawned ==> e in p.removed)
  }

  /** Where an event of the script stands. */
  lemma ScriptAt(p: Plan, i: nat)
    requires i < |Script(p)|
    ensures var r, d, s := |p.removed|, 2 * |p.drained|, |p.spawned|;
            var ev := Script(p)[i];
            && (i < r <==> ev.Retire?)
            && (r <= i < r + d <==> ev.Shutdown? || ev.Unregister?)
            && (r + d <= i < r + d + s <==> ev.Spawn?)
            && (r + d + s <= i <==> ev.Start?)
            && (i < r ==> ev == Retire(p.removed[i]))
            && (r <= i < r + d ==> ev == Teardowns(p.drained)[i - r])
            && (r + d <= i < r + d + s ==> ev == Spawn(p.spawned[i - r - d]))
            && (r + d + s <= i ==> ev == Start(Started(p)[i - r - d - s]))
  {
  }

  /** The stages of a reload. */
  function Stage(ev: Event): nat {
    match ev
    case Retire(_) => 0
    case Shutdown(_) => 1
    case Unregister(_) => 1
    case Spawn(_) => 2
    case Start(_) => 3
  }

  /** Stages follow one another: all of an earlier stage comes before all of a later one. */
  lemma StagesInOrder(p: Plan, first: Event, second: Event)
    requires Stage(first) < Stage(second)
    ensures Before(Script(p), first, second)
  {
    var events := Script(p);
    forall i, j | 0 <= i < |events| && 0 <= j < |events| && events[i] == first && events[j] == second ensures i < j {
      ScriptAt(p, i);
      ScriptAt(p, j);
    }
  }

  /** The place of `ev` in the script, when `ev` is about a listed group. */
  ghost predicate PlaceOf(p: Plan, ev: Event, i: int) {
    match ev
    case Retire(e) => 0 <= i < |p.removed| && p.removed[i] == e
    case Shutdown(e) => exists k :: 0 <= k < |p.drained| && p.drained[k] == e && i == |p.removed| + 2 * k
    case Unregister(e) => exists k :: 0 <= k < |p.drained| && p.drained[k] == e && i == |p.removed| + 2 * k + 1
    case Spawn(e) =>
      var k := i - |p.removed| - 2 * |p.drained|;
      0 <= k < |p.spawned| && p.spawned[k] == e
    case Start(e) =>
      var k := i - |p.removed| - 2 * |p.drained| - |p.spawned|;
      0 <= k < |Started(p)| && Started(p)[k] == e
  }

  lemma TeardownAt(es: seq<Entry>, k: nat)
    requires k < |es|
    ensures Teardowns(es)[2 * k] == Shutdown(es[k]) && Teardowns(es)[2 * k + 1] == Unregister(es[k])
  {
    assert (2 * k) / 2 == k && (2 * k + 1) / 2 == k;
  }

  lemma PlaceIsWhere(p: Plan, ev: Event, i: int)
    ensures PlaceOf(p, ev, i) <==> 0 <= i < |Script(p)| && Script(p)[i] == ev
  {
    if 0 <= i < |Script(p)| {
      ScriptAt(p, i);
      var k := (i - |p.removed|) / 2;
      assert i - |p.removed| == 2 * k || i - |p.removed| == 2 * k + 1;
    }
    if PlaceOf(p, ev, i) && (ev.Shutdown? || ev.Unregister?) {
      var k :| 0 <= k < |p.drained| && p.drained[k] == ev.e && (i == |p.removed| + 2 * k || i == |p.removed| + 2 * k + 1);
      TeardownAt(p.drained, k);
    }
  }

  /** With no group listed twice, an event has at most one place. */
  lemma PlaceIsUnique(p: Plan, ev: Event, i: int, j: int)
    requires WellPlanned(p) && PlaceOf(p, ev, i) && PlaceOf(p, ev, j)
    ensures i == j
  {
  }

  /** An event that has a place happens exactly once. */
  lemma PlacedOnce(p: Plan, ev: Event, i: int)
    requires WellPlanned(p) && PlaceOf(p, ev, i)
    ensures Once(Script(p), ev)
  {
    PlaceIsWhere(p, ev, i);
    forall j | 0 <= j < |Script(p)| && Script(p)[j] == ev ensures j == i {
      PlaceIsWhere(p, ev, j);
      PlaceIsUnique(p, ev, i, j);
    }
  }

  /** An event without a place does not happen. */
  lemma NotPlaced(p: Plan, ev: Event)
    requires forall i :: !PlaceOf(p, ev, i)
    ensures ev !in Script(p)
  {
    var events := Script(p);
    forall i | 0 <= i < |events| ensures events[i] != ev {
      PlaceIsWhere(p, ev, i);
    }
  }

  lemma DrainedOnce(p: Plan, e: Entry)
    requires WellPlanned(p) && e in p.drained
    ensures Once(Script(p), Shutdown(e)) && Once(Script(p), Unregister(e)) && Spawn(e) !in Script(p)
  {
    var k :| 0 <= k < |p.drained| && p.drained[k] == e;
    PlacedOnce(p, Shutdown(e), |p.removed| + 2 * k);
    PlacedOnce(p, Unregister(e), |p.removed| + 2 * k + 1);
    NotPlaced(p, Spawn(e));
  }

  lemma SpawnedOnce(p: Plan, e: Entry)
    requires WellPlanned(p) && e in p.spawned
    ensures Once(Script(p), Spawn(e)) && Shutdown(e) !in Script(p) && Unregister(e) !in Script(p)
  {
    var k :| 0 <= k < |p.spawned| && p.spawned[k] == e;
    PlacedOnce(p, Spawn(e), |p.removed| + 2 * |p.drained| + k);
    NotPlaced(p, Shutdown(e));
    NotPlaced(p, Unregister(e));
  }

  /** A removed group is retired once, before its one teardown, by the reload itself or by a goroutine. */
  lemma RemovedLaws(p: Plan, e: Entry)
    requires WellPlanned(p) && e in p.removed
    ensures var events := Script(p);
            && Once(events, Retire(e))
            && (e in p.drained ==> Once(events, Shutdown(e)) && Once(events, Unregister(e)) && Spawn(e) !in events)
            && (e !in p.drained ==> Once(events, Spawn(e)) && Shutdown(e) !in events && Unregister(e) !in events)
            && Before(events, Retire(e), Shutdown(e)) && Before(events, Retire(e), Spawn(e))
  {
    var i :| 0 <= i < |p.removed| && p.removed[i] == e;
    PlacedOnce(p, Retire(e), i);
    StagesInOrder(p, Retire(e), Shutdown(e));
    StagesInOrder(p, Retire(e), Spawn(e));
    if e in p.drained {
      DrainedOnce(p, e);
    } else {
      SpawnedOnce(p, e);
    }
  }

  /** A torn-down group is shut down before it is unregistered. */
  lemma ShutdownBeforeUnregister(p: Plan, e: Entry)
    requires Distinct(p.drained)
    ensures Before(Script(p), Shutdown(e), Unregister(e))
  {
    var events := Script(p);
    forall i, j | 0 <= i < |events| && 0 <= j < |events| && events[i] == Shutdown(e) && events[j] == Unregister(e) ensures i < j {
      PlaceIsWhere(p, Shutdown(e), i);
      PlaceIsWhere(p, Unregister(e), j);
    }
  }

  /** A removed group is torn down at once exactly when a new group needs its listen address. */
  ghost predicate FreesAddresses(p: Plan) {
    forall e :: e in p.removed ==> (e in p.drained <==> Needs(p.added, e.listen))
  }

  /** One of `es` listens on `listen`. */
  ghost predicate Needs(es: seq<Entry>, listen: string) {
    exists i :: 0 <= i < |es| && es[i].listen == listen
  }

  lemma PlanIsSound(p: Plan)
    requires Distinct(p.removed) && Distinct(p.drained) && Distinct(p.spawned) && Distinct(p.added) && p.skipped <= |p.added|
    requires forall e :: e in p.drained <==> e in p.removed && Needs(p.added, e.listen)
    requires forall e :: e in p.spawned <==> e in p.removed && e !in p.drained
    ensures WellPlanned(p) && FreesAddresses(p)
  {
  }

  lemma NeedsNext(es: seq<Entry>, i: nat, listen: string)
    requires i < |es|
    ensures Needs(es[..i + 1], listen) <==> Needs(es[..i], listen) || es[i].listen == listen
  {
    if Needs(es[..i], listen) {
      var k :| 0 <= k < i && es[..i][k].listen == listen;
      assert es[..i + 1][k].listen == listen;
    }
    if es[i].listen == listen {
      assert es[..i + 1][i].listen == listen;
    }
  }

  /**
   A new group that is started is started once, and only after every removed group
   on its listen address was shut down and unregistered.
   */
  lemma AddedLaws(p: Plan, e: Entry, gone: Entry)
    requires WellPlanned(p) && FreesAddresses(p) && e in Started(p) && gone in p.removed
    ensures var events := Script(p);
            && Once(events, Start(e))
            && (gone.listen == e.listen ==>
                  && Once(events, Shutdown(gone)) && Before(events, Shutdown(gone), Start(e))
                  && Once(events, Unregister(gone)) && Before(events, Unregister(gone), Start(e)))
  {
    StartedOnce(p, e);
    StagesInOrder(p, Shutdown(gone), Start(e));
    StagesInOrder(p, Unregister(gone), Start(e));
    if gone.listen == e.listen {
      DrainedOnce(p, gone);
    }
  }

  lemma StartedOnce(p: Plan, e: Entry)
    requires WellPlanned(p) && e in Started(p)
    ensures Once(Script(p), Start(e)) && Needs(p.added, e.listen)
  {
    var k :| 0 <= k < |Started(p)| && Started(p)[k] == e;
    assert p.added[p.skipped + k] == e;
    PlacedOnce(p, Start(e), |p.removed| + 2 * |p.drained| + |p.spawned| + k);
  }

  // --- The manager in place -----------------------------------------------------

  lemma TeardownsAppend(es: seq<Entry>, e: Entry)
    ensures Teardowns(es + [e]) == Teardowns(es) + [Shutdown(e), Unregister(e)]
  {
    var n := 2 * |es|;
    assert forall i :: 0 <= i < n ==> Teardowns(es + [e])[i] == Teardowns(es)[i];
  }

  lemma DrainedConcat(es: seq<Entry>, more: seq<Entry>)
    requires Distinct(es) && Distinct(more) && forall i :: 0 <= i < |more| ==> more[i] !in es
    ensures Distinct(es + more)
    ensures Teardowns(es + more) == Teardowns(es) + Teardowns(more)
  {
    forall i, j | 0 <= i < j < |es + more| ensures (es + more)[i] != (es + more)[j] {
      assert j >= |es| ==> (es + more)[j] == more[j - |es|];
    }
  }

  /** Whether the group is reloaded or built without an error. */
  predicate Succeeds(eff: Eff, running: set<string>) {
    if eff.name in running then eff.reloads.Succeeded? else eff.builds
  }

  /** Whether reloading a running group panics. */
  predicate Panics(eff: Eff, running: set<string>) {
    eff.name in running && eff.reloads.Panicked?
  }

  predicate AnyPanics(effs: seq<Eff>, running: set<string>) {
    exists i :: 0 <= i < |effs| && Panics(effs[i], running)
  }

  /** `e` has the name and the address of one of the groups. */
  ghost predicate BuiltFor(e: Entry, effs: seq<Eff>) {
    exists i :: 0 <= i < |effs| && effs[i].name == e.name && effs[i].listen == e.listen
  }

  /** The effective groups that exist after the reload: those running and those that could be built. */
  function LiveNames(effs: seq<Eff>, running: set<string>): seq<string> {
    if effs == [] then []
    else
      var before, last := LiveNames(effs[..|effs| - 1], running), effs[|effs| - 1];
      if last.name in running || last.builds then before + [last.name] else before
  }

  lemma {:induction false} LiveNamesFrom(effs: seq<Eff>, running: set<string>, name: string)
    requires name in LiveNames(effs, running)
    ensures exists i :: 0 <= i < |effs| && effs[i].name == name
  {
    var n := |effs| - 1;
    if effs[n].name != name {
      LiveNamesFrom(effs[..n], running, name);
      var i :| 0 <= i < n && effs[..n][i].name == name;
      assert effs[i].name == name;
    }
  }

  /** The groups that were not running before, in their order. */
  function NewOnes(groups: seq<Entry>, running: set<string>): seq<Entry> {
    if groups == [] then []
    else
      var before, last := NewOnes(groups[..|groups| - 1], running), groups[|groups| - 1];
      if last.name in running then before else before + [last]
  }

  lemma {:induction false} NewOnesDistinct(groups: seq<Entry>, running: set<string>)
    requires forall i, j :: 0 <= i < j < |groups| ==> groups[i].name != groups[j].name
    ensures Distinct(NewOnes(groups, running))
    ensures forall e :: e in NewOnes(groups, running) <==> e in groups && e.name !in running
  {
    if groups != [] {
      var n := |groups| - 1;
      assert groups == groups[..n] + [groups[n]];
      NewOnesDistinct(groups[..n], running);
    }
  }

  /** The list and the index hold the same groups, each once and under its name. */
  ghost predicate Agree(groups: seq<Entry>, byName: map<string, Entry>) {
    && (forall n :: n in byName ==> byName[n].name == n && byName[n] in groups)
    && (forall i :: 0 <= i < |groups| ==> groups[i].name in byName && byName[groups[i].name] == groups[i])
    && (forall i, j :: 0 <= i < j < |groups| ==> groups[i].name != groups[j].name)
  }

  lemma AgreeAppend(groups: seq<Entry>, byName: map<string, Entry>, e: Entry)
    requires Agree(groups, byName) && e.name !in byName
    ensures Agree(groups + [e], byName[e.name := e])
  {
  }

  function Names(groups: seq<Entry>): seq<string> {
    seq(|groups|, i requires 0 <= i < |groups| => groups[i].name)
  }

  lemma GroupsAppend(groups: seq<Entry>, e: Entry, running: set<string>)
    ensures Names(groups + [e]) == Names(groups) + [e.name]
    ensures NewOnes(groups + [e], running) == NewOnes(groups, running) + (if e.name in running then [] else [e])
  {
    assert (groups + [e])[..|groups|] == groups;
  }

  lemma NamesGive(groups: seq<Entry>, byName: map<string, Entry>, n: string)
    requires Agree(groups, byName)
    ensures n in byName <==> n in Names(groups)
  {
    if n in byName {
      var k :| 0 <= k < |groups| && groups[k] == byName[n];
      assert Names(groups)[k] == n;
    }
    if n in Names(groups) {
      var k :| 0 <= k < |groups| && Names(groups)[k] == n;
    }
  }

  /** A group exists after the reload exactly if it is in the configuration and was running or could be built. */
  lemma {:induction false} LiveNamesAre(effs: seq<Eff>, running: set<string>, name: string)
    ensures name in LiveNames(effs, running) <==>
            exists i :: 0 <= i < |effs| && effs[i].name == name && (name in running || effs[i].builds)
  {
    if effs != [] {
      var n := |effs| - 1;
      LiveNamesAre(effs[..n], running, name);
      if i :| 0 <= i < |effs| && effs[i].name == name && (name in running || effs[i].builds) && i != n {
        assert effs[..n][i] == effs[i];
      }
      if name in LiveNames(effs[..n], running) {
        var i :| 0 <= i < n && effs[..n][i].name == name && (name in running || effs[..n][i].builds);
        assert effs[i] == effs[..n][i];
      }
    }
  }

  /** And groups come in the order of the configuration. */
  lemma {:induction false} LiveNamesInOrder(effs: seq<Eff>, running: set<string>, a: nat, b: nat)
    returns (i: nat, j: nat)
    requires a < b < |LiveNames(effs, running)|
    ensures i < j < |effs| && effs[i].name == LiveNames(effs, running)[a] && effs[j].name == LiveNames(effs, running)[b]
  {
    var n := |effs| - 1;
    var before := LiveNames(effs[..n], running);
    if b < |before| {
      i, j := LiveNamesInOrder(effs[..n], running, a, b);
    } else {
      LiveNamesFrom(effs[..n], running, before[a]);
      i :| 0 <= i < n && effs[..n][i].name == before[a];
      j := n;
    }
  }

  /** Which names the index has after a reload. */
  lemma AppliedNames(was: Moment, now: Moment, effs: seq<Eff>, arrives: Option<nat>, plan: Plan)
    requires ValidConfig(effs) && Agree(now.groups, now.byName) && Applied(was, now, effs, arrives, plan)
    ensures forall i :: 0 <= i < |effs| ==> (effs[i].name in now.byName <==> effs[i].name in was.byName || effs[i].builds)
    ensures forall n :: n in now.byName ==> exists i :: 0 <= i < |effs| && effs[i].name == n
  {
    forall i | 0 <= i < |effs| ensures effs[i].name in now.byName <==> effs[i].name in was.byName || effs[i].builds {
      NamesGive(now.groups, now.byName, effs[i].name);
      LiveNamesAre(effs, was.byName.Keys, effs[i].name);
    }
    forall n | n in now.byName ensures exists i :: 0 <= i < |effs| && effs[i].name == n {
      NamesGive(now.groups, now.byName, n);
      LiveNamesAre(effs, was.byName.Keys, n);
    }
  }

  /** The manager between two critical sections. */
  datatype Moment = Moment(
    groups: seq<Entry>, byName: map<string, Entry>, published: bool, launched: bool,
    teardowns: seq<Entry>, stops: seq<Entry>, events: seq<Event>)

  /**
   What a reload with the groups `effs` makes of the manager: groups follow the
   configuration, survivors keep their entry, and the events are the plan's script.
   */
  ghost predicate Applied(was: Moment, now: Moment, effs: seq<Eff>, arrives: Option<nat>, plan: Plan) {
    && now.launched == was.launched && now.published == (was.published || Started(plan) != [])
    && now.teardowns == was.teardowns + plan.spawned && now.stops == was.stops
    && Names(now.groups) == LiveNames(effs, was.byName.Keys)
    && (forall n :: n in now.byName && n in was.byName ==> now.byName[n] == was.byName[n])
    && (forall n :: n in now.byName && n !in was.byName ==> BuiltFor(now.byName[n], effs))
    && (forall e :: e in plan.removed ==> e in was.groups && e.name !in now.byName)
    && (forall e :: e in was.groups && e.name !in now.byName ==> e in plan.removed)
    && plan.added == NewOnes(now.groups, was.byName.Keys)
    && plan.skipped == Skipped(was.published, arrives, |plan.added|)
    && WellPlanned(plan) && FreesAddresses(plan) && now.events == was.events + Script(plan)
  }

  lemma AppliedFrom(was: Moment, now: Moment, effs: seq<Eff>, arrives: Option<nat>, plan: Plan)
    requires Agree(was.groups, was.byName) && Reconciled(now.groups, now.byName, plan.added, effs, was.byName)
    requires now.launched == was.launched && now.published == (was.published || Started(plan) != [])
    requires now.teardowns == was.teardowns + plan.spawned && now.stops == was.stops
    requires forall e :: e in plan.removed <==> e in was.groups && e.name !in now.byName
    requires plan.skipped == Skipped(was.published, arrives, |plan.added|)
    requires WellPlanned(plan) && FreesAddresses(plan) && now.events == was.events + Script(plan)
    ensures Applied(was, now, effs, arrives, plan)
  {
    ReconciledMeans(was.groups, was.byName, now.groups, now.byName, plan.added, effs);
  }

  lemma ReconciledMeans(groups: seq<Entry>, byName: map<string, Entry>, groups': seq<Entry>, byName': map<string, Entry>,
                        pending: seq<Entry>, effs: seq<Eff>)
    requires Agree(groups, byName) && Reconciled(groups', byName', pending, effs, byName)
    ensures forall n :: n in byName' && n in byName ==> byName'[n] == byName[n]
    ensures forall n :: n in byName' && n !in byName ==> byName'[n] in pending && BuiltFor(byName'[n], effs)
    ensures forall k :: 0 <= k < |groups'| ==> groups'[k] in pending || (groups'[k] in groups && groups'[k].name in byName')
  {
    NewOnesDistinct(groups', byName.Keys);
    forall n | n in byName' ensures RightEntry(byName'[n], effs, byName) {
      var k :| 0 <= k < |groups'| && groups'[k] == byName'[n];
    }
  }

  class Manager {
    var groups: seq<Entry>
    var byName: map<string, Entry>
    var published: bool   // the result channel exists
    var launched: bool    // Start has started the groups it found
    var teardowns: seq<Entry>   // the goroutines of reloads that have not finished
    var stops: seq<Entry>       // the goroutines of Shutdown calls that have not finished
    ghost var events: seq<Event>

    ghost function View(): Moment
      reads this
    {
      Moment(groups, byName, published, launched, teardowns, stops, events)
    }

    /** The index agrees with the list, and no group in service is retired. */
    ghost predicate Valid()
      reads this, groups
    {
      Agree(groups, byName) && forall i :: 0 <= i < |groups| ==> !groups[i].retired
    }

    constructor ()
      ensures Valid() && View() == Moment([], map[], false, false, [], [], [])
    {
      groups, byName, published, launched := [], map[], false, false;
      teardowns, stops, events := [], [], [];
    }

    /** The first half of what `Start` does once, outside the lock. */
    method Publish()
      modifies this`published
      ensures published
    {
      published := true;
    }

    /** The second half, under the lock: every group there is gets started. */
    method Launch()
      requires published
      modifies this`published, this`launched, this`events
      ensures published && launched && events == old(events) + Starts(groups)
    {
      StartAll(groups, None);
      launched := true;
    }

    /** `Shutdown` takes a snapshot of the groups and leaves each to a goroutine. */
    method Stop()
      modifies this`stops
      ensures stops == old(stops) + groups
    {
      stops := stops + groups;
    }

    /** One of those goroutines runs: any of them may be next. */
    method RunStop(i: nat) returns (e: Entry)
      requires i < |stops|
      modifies this`stops, this`events
      ensures e == old(stops)[i] && stops == old(stops)[..i] + old(stops)[i + 1..]
      ensures events == old(events) + [Shutdown(e)]
    {
      e := stops[i];
      stops := stops[..i] + stops[i + 1..];
      events := events + [Shutdown(e)];
    }

    /** A goroutine of a reload runs: it shuts the removed group down and unregisters it. */
    method RunTeardown(i: nat) returns (e: Entry)
      requires i < |teardowns|
      modifies this`teardowns, this`events
      ensures e == old(teardowns)[i] && teardowns == old(teardowns)[..i] + old(teardowns)[i + 1..]
      ensures events == old(events) + [Shutdown(e), Unregister(e)]
    {
      e := teardowns[i];
      teardowns := teardowns[..i] + teardowns[i + 1..];
      events := events + [Shutdown(e), Unregister(e)];
    }

    /** The entry of an effective group: the running one, or a new one if it can be built. */
    method EntryFor(eff: Eff) returns (entry: Option<Entry>)
      requires Valid()
      ensures entry.None? <==> eff.name !in byName && !eff.builds
      ensures entry.Some? ==> entry.value.name == eff.name
      ensures entry.Some? && eff.name in byName ==> entry.value == byName[eff.name]
      ensures entry.Some? && eff.name !in byName ==>
                fresh(entry.value) && entry.value.listen == eff.listen && !entry.value.retired
    {
      if eff.name in byName {
        return Some(byName[eff.name]);
      }
      if !eff.builds {
        return None;
      }
      var built := new Entry(eff.name, eff.listen);
      return Some(built);
    }

    /** The body of the first loop of `Reload`. */
    method ReconcileOne(effs: seq<Eff>, i: nat, groups0: seq<Entry>, byName0: map<string, Entry>, pending0: seq<Entry>)
      returns (newGroups: seq<Entry>, newByName: map<string, Entry>, pending: seq<Entry>, good: bool)
      requires Valid() && ValidConfig(effs) && i < |effs| && !Panics(effs[i], byName.Keys)
      requires Reconciled(groups0, byName0, pending0, effs[..i], byName)
      ensures Reconciled(newGroups, newByName, pending, effs[..i + 1], byName)
      ensures pending == pending0 || exists e: Entry :: pending == pending0 + [e] && fresh(e) && !e.retired
      ensures good == Succeeds(effs[i], byName.Keys)
    {
      var eff := effs[i];
      var entry := EntryFor(eff);
      newGroups, newByName, pending := groups0, byName0, pending0;
      if entry.None? {
        LeaveOut(groups0, byName0, pending0, effs, byName, i);
        return newGroups, newByName, pending, false;
      }
      Enlist(groups0, byName0, pending0, effs, byName, i, entry.value);
      good := true;
      if eff.name in byName {
        good := eff.reloads.Succeeded?;
      } else {
        pending := pending + [entry.value];
      }
      newByName := newByName[eff.name := entry.value];
      newGroups := newGroups + [entry.value];
    }

    /**
     The first loop of `Reload`: which groups exist afterwards, which are new, and how it
     went. The reload of a group that panics ends it.
     */
    method Reconcile(effs: seq<Eff>)
      returns (newGroups: seq<Entry>, newByName: map<string, Entry>, pending: seq<Entry>, out: Ended)
      requires Valid() && ValidConfig(effs)
      ensures out.Panicked? <==> AnyPanics(effs, byName.Keys)
      ensures !out.Panicked? ==> Reconciled(newGroups, newByName, pending, effs, byName)
      ensures forall i :: 0 <= i < |pending| ==> fresh(pending[i]) && !pending[i].retired
      ensures out.Succeeded? <==> forall i :: 0 <= i < |effs| ==> Succeeds(effs[i], byName.Keys)
      ensures out.Succeeded? <==> forall i :: 0 <= i < |effs| ==>
                if effs[i].name in byName then effs[i].reloads == Succeeded else effs[i].builds
      ensures out.Panicked? <==> exists i :: 0 <= i < |effs| && effs[i].name in byName && effs[i].reloads == Panicked
    {
      var ok := true;
      newGroups, newByName, pending := [], map[], [];
      for i := 0 to |effs|
        invariant Reconciled(newGroups, newByName, pending, effs[..i], byName)
        invariant forall k :: 0 <= k < |pending| ==> fresh(pending[k]) && !pending[k].retired
        invariant ok <==> forall k :: 0 <= k < i ==> Succeeds(effs[k], byName.Keys)
        invariant forall k :: 0 <= k < i ==> !Panics(effs[k], byName.Keys)
      {
        if Panics(effs[i], byName.Keys) {
          return newGroups, newByName, pending, Panicked;
        }
        var good;
        newGroups, newByName, pending, good := ReconcileOne(effs, i, newGroups, newByName, pending);
        ok := ok && good;
      }
      assert effs[..|effs|] == effs;
      out := if ok then Succeeded else Errored;
    }

    /** The second loop: retire the groups that are gone, in any order, and file them by listen address. */
    method RetireRemoved(kept: map<string, Entry>) returns (removed: seq<Entry>, byListen: map<string, seq<Entry>>)
      requires Valid()
      modifies this`events, groups`retired
      ensures Distinct(removed) && Filed(byListen, removed)
      ensures forall e :: e in removed <==> e in groups && e.name !in kept
      ensures forall e :: e in groups ==> e.retired == (e in removed)
      ensures events == old(events) + Retires(removed)
    {
      removed, byListen := [], map[];
      var todo := byName.Keys;
      while todo != {}
        invariant Walked(groups, byName, kept, todo, removed) && Filed(byListen, removed)
        invariant forall e :: e in groups ==> e.retired == (e in removed)
        invariant events == old(events) + Retires(removed)
      {
        var name :| name in todo;
        WalkNext(groups, byName, kept, todo, removed, name);
        todo := todo - {name};
        if name !in kept {
          RetiresAppend(removed, byName[name]);
          removed, byListen := RetireOne(byName[name], removed, byListen);
        }
      }
    }

    method RetireOne(e: Entry, before: seq<Entry>, filed: map<string, seq<Entry>>)
      returns (removed: seq<Entry>, byListen: map<string, seq<Entry>>)
      requires Distinct(before) && Filed(filed, before) && e !in before
      modifies this`events, e`retired
      ensures e.retired && events == old(events) + [Retire(e)]
      ensures removed == before + [e] && Distinct(removed) && Filed(byListen, removed)
    {
      e.retired := true;
      events := events + [Retire(e)];
      FileOne(filed, before, e);
      removed, byListen := before + [e], FiledWith(filed, e);
    }

    /** The third loop: tear down at once the removed groups whose listen address a new group needs. */
    method DrainFor(pending: seq<Entry>, byListen: map<string, seq<Entry>>, ghost removed: seq<Entry>)
      returns (drained: seq<Entry>)
      requires Distinct(removed) && Filed(byListen, removed)
      modifies this`events
      ensures Distinct(drained)
      ensures forall e :: e in drained <==> e in removed && Needs(pending, e.listen)
      ensures events == old(events) + Teardowns(drained)
    {
      drained := [];
      var left := byListen;
      for i := 0 to |pending|
        invariant events == old(events) + Teardowns(drained)
        invariant StillFiled(left, byListen, pending[..i])
        invariant TornDown(drained, removed, left)
      {
        StillFiledNext(left, byListen, pending, i);
        drained, left := DrainOne(pending[i].listen, left, drained, byListen, removed, old(events));
      }
      assert pending[..|pending|] == pending;
      AllTornDown(drained, removed, left, byListen, pending);
    }

    /** The body of that loop, for the address of one new group. */
    method DrainOne(listen: string, left: map<string, seq<Entry>>, before: seq<Entry>,
                    ghost byListen: map<string, seq<Entry>>, ghost removed: seq<Entry>, ghost base: seq<Event>)
      returns (drained: seq<Entry>, rest: map<string, seq<Entry>>)
      requires Filed(byListen, removed) && TornDown(before, removed, left)
      requires listen in left ==> listen in byListen && left[listen] == byListen[listen]
      requires events == base + Teardowns(before)
      modifies this`events
      ensures rest == left - {listen} && TornDown(drained, removed, rest)
      ensures events == base + Teardowns(drained)
    {
      drained, rest := before, left - {listen};
      if listen in left {
        TearDownOne(byListen, left, removed, before, listen);
        DrainedConcat(before, left[listen]);
        drained := DrainAll(left[listen], before);
      } else {
        assert rest == left;
      }
    }

    /** Shut down and unregister `olds`, one after the other. */
    method DrainAll(olds: seq<Entry>, before: seq<Entry>) returns (drained: seq<Entry>)
      modifies this`events
      ensures drained == before + olds
      ensures events == old(events) + Teardowns(olds)
    {
      drained := before;
      for k := 0 to |olds|
        invariant drained == before + olds[..k]
        invariant events == old(events) + Teardowns(olds[..k])
      {
        TeardownsAppend(olds[..k], olds[k]);
        assert olds[..k + 1] == olds[..k] + [olds[k]];
        events := events + [Shutdown(olds[k]), Unregister(olds[k])];
        drained := drained + [olds[k]];
      }
      assert olds[..|olds|] == olds;
    }

    /** The fourth loop: the other removed groups are left to goroutines. */
    method SpawnRest(removed: seq<Entry>, drained: seq<Entry>) returns (spawned: seq<Entry>)
      requires Distinct(removed)
      modifies this`events, this`teardowns
      ensures Distinct(spawned) && forall e :: e in spawned <==> e in removed && e !in drained
      ensures events == old(events) + Spawns(spawned) && teardowns == old(teardowns) + spawned
    {
      spawned := [];
      for k := 0 to |removed|
        invariant Distinct(spawned) && forall e :: e in spawned <==> e in removed[..k] && e !in drained
        invariant events == old(events) + Spawns(spawned) && teardowns == old(teardowns) + spawned
      {
        assert removed[..k + 1] == removed[..k] + [removed[k]];
        if removed[k] !in drained {
          spawned := spawned + [removed[k]];
          events := events + [Spawn(removed[k])];
          teardowns := teardowns + [removed[k]];
        }
      }
      assert removed[..|removed|] == removed;
    }

    /** `startGroupLocked` on every group of the list, while `Start` may publish the channel. */
    method StartAll(pending: seq<Entry>, arrives: Option<nat>)
      modifies this`published, this`events
      ensures var skipped := Skipped(old(published), arrives, |pending|);
              && skipped == (if old(published) then 0
                             else if arrives.Some? && arrives.value < |pending| then arrives.value
                             else |pending|)
              && events == old(events) + Starts(pending[skipped..])
              && published == (old(published) || skipped < |pending|)
    {
      ghost var skipped := Skipped(published, arrives, |pending|);
      for k := 0 to |pending|
        invariant published == (old(published) || skipped < k)
        invariant events == old(events) + Starts(if k <= skipped then [] else pending[skipped..k])
      {
        if arrives == Some(k) {
          published := true;
        }
        if published {
          assert pending[skipped..k + 1] == pending[skipped..k] + [pending[k]];
          events := events + [Start(pending[k])];
        }
      }
      assert pending[skipped..|pending|] == pending[skipped..];
    }

    /** Everything `Reload` does to the groups that go. */
    method TakeDown(kept: map<string, Entry>, pending: seq<Entry>)
      returns (removed: seq<Entry>, drained: seq<Entry>, spawned: seq<Entry>)
      requires Valid() && Distinct(pending)
      modifies this`events, this`teardowns, groups`retired
      ensures forall n: nat :: n <= |pending| ==>
                var plan := Plan(removed, drained, spawned, pending, n); WellPlanned(plan) && FreesAddresses(plan)
      ensures forall e :: e in removed <==> e in groups && e.name !in kept
      ensures forall e :: e in groups ==> e.retired == (e.name !in kept)
      ensures events == old(events) + (Retires(removed) + Teardowns(drained) + Spawns(spawned))
      ensures teardowns == old(teardowns) + spawned
    {
      var byListen;
      removed, byListen := RetireRemoved(kept);
      drained := DrainFor(pending, byListen, removed);
      spawned := SpawnRest(removed, drained);
      forall n: nat | n <= |pending| ensures
        var plan := Plan(removed, drained, spawned, pending, n); WellPlanned(plan) && FreesAddresses(plan)
      {
        PlanIsSound(Plan(removed, drained, spawned, pending, n));
      }
    }

    /** Everything `Reload` does to the groups that go and come. */
    method CarryOut(kept: map<string, Entry>, pending: seq<Entry>, arrives: Option<nat>) returns (ghost plan: Plan)
      requires Valid() && Distinct(pending)
      modifies this`published, this`events, this`teardowns, groups`retired
      ensures WellPlanned(plan) && FreesAddresses(plan) && plan.added == pending
      ensures plan.skipped == Skipped(old(published), arrives, |pending|)
      ensures published == (old(published) || Started(plan) != [])
      ensures forall e :: e in plan.removed <==> e in groups && e.name !in kept
      ensures forall e :: e in groups ==> e.retired == (e.name !in kept)
      ensures events == old(events) + Script(plan) && teardowns == old(teardowns) + plan.spawned
    {
      var removed, drained, spawned := TakeDown(kept, pending);
      plan := Plan(removed, drained, spawned, pending, Skipped(published, arrives, |pending|));
      StartAll(pending, arrives);
    }

    method Commit(newGroups: seq<Entry>, newByName: map<string, Entry>)
      requires Agree(newGroups, newByName) && forall k :: 0 <= k < |newGroups| ==> !newGroups[k].retired
      modifies this`groups, this`byName
      ensures Valid() && View() == old(View()).(groups := newGroups, byName := newByName)
    {
      groups, byName := newGroups, newByName;
    }

    /** The rest of `Reload`, when it is known which groups exist afterwards. */
    method Finish(effs: seq<Eff>, arrives: Option<nat>, newGroups: seq<Entry>, newByName: map<string, Entry>,
                  pending: seq<Entry>)
      returns (ghost plan: Plan)
      requires Valid() && Reconciled(newGroups, newByName, pending, effs, byName)
      requires forall i :: 0 <= i < |pending| ==> pending[i] !in groups && !pending[i].retired
      modifies this, groups`retired
      ensures Valid() && Applied(old(View()), View(), effs, arrives, plan)
      ensures groups == newGroups && byName == newByName
      ensures forall e :: e in old(groups) ==> e.retired == (e.name !in byName)
    {
      NewOnesDistinct(newGroups, byName.Keys);
      plan := CarryOut(newByName, pending, arrives);
      ReconciledMeans(groups, byName, newGroups, newByName, pending, effs);
      AppliedFrom(old(View()), View().(groups := newGroups, byName := newByName), effs, arrives, plan);
      Commit(newGroups, newByName);
    }

    /** `Reload` with a configuration that loads and validates. A panic leaves the groups as they are. */
    method Apply(effs: seq<Eff>, arrives: Option<nat>) returns (out: Ended, ghost plan: Plan)
      requires Valid() && ValidConfig(effs)
      modifies this, groups`retired
      ensures Valid()
      ensures out.Panicked? <==> AnyPanics(effs, old(byName).Keys)
      ensures if out.Panicked? then View() == old(View()) else Applied(old(View()), View(), effs, arrives, plan)
      ensures forall n :: n in byName && n !in old(byName) ==> fresh(byName[n])
      ensures forall e :: e in old(groups) ==> e.retired == (e.name !in byName)
      ensures out.Succeeded? <==> forall i :: 0 <= i < |effs| ==> Succeeds(effs[i], old(byName).Keys)
    {
      var newGroups, newByName, pending;
      newGroups, newByName, pending, out := Reconcile(effs);
      if out.Panicked? {
        plan := Plan([], [], [], [], 0);
        return;
      }
      ReconciledMeans(groups, byName, newGroups, newByName, pending, effs);
      plan := Finish(effs, arrives, newGroups, newByName, pending);
    }

    /**
     `Reload`; None stands for a file that does not load. `plan` says which groups
     went and came, and the events are its script. When reloading a group panics, no
     group goes, comes or is retired.
     */
    method Reload(load: Option<seq<Eff>>, arrives: Option<nat>) returns (out: Ended, ghost plan: Plan)
      requires Valid()
      modifies this, groups`retired
      ensures Valid()
      ensures load.None? || !ValidConfig(load.value) ==>
                out.Errored? && View() == old(View())
      ensures load.Some? && ValidConfig(load.value) <==>
                && load.Some? && |load.value| > 0
                && (forall e :: e in load.value ==> e.valid && e.name != "")
                && (forall i, j :: 0 <= i < j < |load.value| ==>
                      load.value[i].name != load.value[j].name && load.value[i].listen != load.value[j].listen)
      ensures load.Some? && ValidConfig(load.value) ==>
                && (out.Panicked? <==> AnyPanics(load.value, old(byName).Keys))
                && (if out.Panicked? then View() == old(View())
                    else Applied(old(View()), View(), load.value, arrives, plan))
                && (forall n :: n in byName && n !in old(byName) ==> fresh(byName[n]))
                && (forall e :: e in old(groups) ==> e.retired == (e.name !in byName))
                && (out.Succeeded? <==> forall i :: 0 <= i < |load.value| ==> Succeeds(load.value[i], old(byName).Keys))
                && (!out.Panicked? ==> forall i :: 0 <= i < |load.value| ==>
                      (load.value[i].name in byName <==> load.value[i].name in old(byName) || load.value[i].builds))
                && (!out.Panicked? ==> forall n :: n in byName ==> exists i :: 0 <= i < |load.value| && load.value[i].name == n)
    {
      plan := Plan([], [], [], [], 0);
      if load.None? || !ValidConfig(load.value) {
        return Errored, plan;
      }
      ghost var was := View();
      out, plan := Apply(load.value, arrives);
      if !out.Panicked? {
        AppliedNames(was, View(), load.value, arrives, plan);
      }
    }
  }

  /** `byListen` holds the removed groups, each once and under its listen address. */
  ghost predicate Filed(byListen: map<string, seq<Entry>>, removed: seq<Entry>) {
    && (forall l :: l in byListen ==> Distinct(byListen[l]))
    && (forall l, e :: l in byListen && e in byListen[l] ==> e in removed && e.listen == l)
    && (forall e :: e in removed ==> e.listen in byListen && e in byListen[e.listen])
  }

  /** `drained` are the removed groups whose address is no longer in `left`. */
  ghost predicate TornDown(drained: seq<Entry>, removed: seq<Entry>, left: map<string, seq<Entry>>) {
    && Distinct(drained)
    && (forall e :: e in drained ==> e in removed && e.listen !in left)
    && (forall e :: e in removed && e.listen !in left ==> e in drained)
  }

  /** `left` is `byListen` without the addresses that `needed` listens on. */
  ghost predicate StillFiled(left: map<string, seq<Entry>>, byListen: map<string, seq<Entry>>, needed: seq<Entry>) {
    && (forall l :: l in left ==> l in byListen && left[l] == byListen[l])
    && (forall l :: l in byListen ==> (l in left <==> !Needs(needed, l)))
  }

  lemma StillFiledNext(left: map<string, seq<Entry>>, byListen: map<string, seq<Entry>>, pending: seq<Entry>, i: nat)
    requires i < |pending| && StillFiled(left, byListen, pending[..i])
    ensures StillFiled(left - {pending[i].listen}, byListen, pending[..i + 1])
  {
    var left' := left - {pending[i].listen};
    forall l | l in byListen ensures l in left' <==> !Needs(pending[..i + 1], l) {
      NeedsNext(pending, i, l);
    }
  }

  lemma TearDownOne(byListen: map<string, seq<Entry>>, left: map<string, seq<Entry>>, removed: seq<Entry>,
                    drained: seq<Entry>, listen: string)
    requires Filed(byListen, removed) && TornDown(drained, removed, left) && listen in left
    requires listen in byListen && left[listen] == byListen[listen]
    ensures Distinct(left[listen]) && forall i :: 0 <= i < |left[listen]| ==> left[listen][i] !in drained
    ensures TornDown(drained + left[listen], removed, left - {listen})
  {
    var olds := left[listen];
    assert forall i :: 0 <= i < |olds| ==> olds[i] in olds;
    DrainedConcat(drained, olds);
    forall e ensures e in drained + olds <==> e in removed && e.listen !in left - {listen} {
      assert e in removed && e.listen == listen <==> e in olds;
    }
  }

  lemma AllTornDown(drained: seq<Entry>, removed: seq<Entry>, left: map<string, seq<Entry>>,
                    byListen: map<string, seq<Entry>>, pending: seq<Entry>)
    requires Filed(byListen, removed) && TornDown(drained, removed, left) && StillFiled(left, byListen, pending)
    ensures forall e :: e in drained <==> e in removed && Needs(pending, e.listen)
  {
  }

  function FiledWith(byListen: map<string, seq<Entry>>, e: Entry): map<string, seq<Entry>> {
    byListen[e.listen := (if e.listen in byListen then byListen[e.listen] else []) + [e]]
  }

  lemma FileOne(byListen: map<string, seq<Entry>>, removed: seq<Entry>, e: Entry)
    requires Filed(byListen, removed) && e !in removed
    ensures Filed(FiledWith(byListen, e), removed + [e])
  {
    var after := FiledWith(byListen, e);
    assert e.listen in byListen ==> e !in byListen[e.listen];
    forall l, x | l in after && x in after[l] ensures x in removed + [e] && x.listen == l {
      if l == e.listen && x != e {
        assert l in byListen && x in byListen[l];
      }
    }
  }

  /** The names outside `todo` have been looked at, and `removed` are the groups among them that are not kept. */
  ghost predicate Walked(groups: seq<Entry>, byName: map<string, Entry>, kept: map<string, Entry>, todo: set<string>, removed: seq<Entry>) {
    && todo <= byName.Keys && Distinct(removed)
    && (forall e :: e in removed ==> e in groups && e.name !in kept && e.name !in todo)
    && (forall n :: n in byName && n !in todo && n !in kept ==> byName[n] in removed)
  }

  lemma WalkNext(groups: seq<Entry>, byName: map<string, Entry>, kept: map<string, Entry>, todo: set<string>,
                 removed: seq<Entry>, name: string)
    requires Agree(groups, byName) && Walked(groups, byName, kept, todo, removed) && name in todo
    ensures name in kept ==> Walked(groups, byName, kept, todo - {name}, removed)
    ensures name !in kept ==>
              byName[name] !in removed && Walked(groups, byName, kept, todo - {name}, removed + [byName[name]])
  {
    assert byName[name].name == name && byName[name] in groups;
  }

  lemma RetiresAppend(es: seq<Entry>, e: Entry)
    ensures Retires(es + [e]) == Retires(es) + [Retire(e)]
  {
  }

  lemma NotYetListed(effs: seq<Eff>, i: nat, groups: seq<Entry>, byName: map<string, Entry>, running: set<string>)
    requires ValidConfig(effs) && i < |effs| && Agree(groups, byName) && Names(groups) == LiveNames(effs[..i], running)
    ensures effs[i].name !in byName
  {
    if effs[i].name in byName {
      var k :| 0 <= k < |groups| && groups[k] == byName[effs[i].name];
      assert Names(groups)[k] == effs[i].name;
      LiveNamesFrom(effs[..i], running, effs[i].name);
    }
  }

  /** `e` is the running group of its name, or was built for one of `effs`. */
  ghost predicate RightEntry(e: Entry, effs: seq<Eff>, running: map<string, Entry>) {
    if e.name in running then e == running[e.name] else BuiltFor(e, effs)
  }

  /** What the first loop has when it has seen `effs`. */
  ghost predicate Reconciled(groups: seq<Entry>, byName: map<string, Entry>, pending: seq<Entry>,
                             effs: seq<Eff>, running: map<string, Entry>) {
    && Agree(groups, byName)
    && Names(groups) == LiveNames(effs, running.Keys)
    && (forall k :: 0 <= k < |groups| ==> RightEntry(groups[k], effs, running))
    && pending == NewOnes(groups, running.Keys)
  }

  lemma BuiltForMore(e: Entry, effs: seq<Eff>, i: nat)
    requires i < |effs| && BuiltFor(e, effs[..i])
    ensures BuiltFor(e, effs[..i + 1])
  {
    var k :| 0 <= k < i && effs[..i][k].name == e.name && effs[..i][k].listen == e.listen;
    assert effs[..i + 1][k] == effs[..i][k];
  }

  lemma RightEntries(groups: seq<Entry>, effs: seq<Eff>, running: map<string, Entry>, i: nat)
    requires i < |effs| && forall k :: 0 <= k < |groups| ==> RightEntry(groups[k], effs[..i], running)
    ensures forall k :: 0 <= k < |groups| ==> RightEntry(groups[k], effs[..i + 1], running)
  {
    forall k | 0 <= k < |groups| ensures RightEntry(groups[k], effs[..i + 1], running) {
      if groups[k].name !in running {
        BuiltForMore(groups[k], effs, i);
      }
    }
  }

  lemma LiveNext(effs: seq<Eff>, running: set<string>, i: nat)
    requires i < |effs|
    ensures LiveNames(effs[..i + 1], running) ==
            LiveNames(effs[..i], running) + if effs[i].name in running || effs[i].builds then [effs[i].name] else []
  {
    assert effs[..i + 1][..i] == effs[..i];
  }

  /** One more effective group that cannot be built is left out. */
  lemma LeaveOut(groups: seq<Entry>, byName: map<string, Entry>, pending: seq<Entry>,
                 effs: seq<Eff>, running: map<string, Entry>, i: nat)
    requires ValidConfig(effs) && i < |effs| && Reconciled(groups, byName, pending, effs[..i], running)
    requires effs[i].name !in running && !effs[i].builds
    ensures Reconciled(groups, byName, pending, effs[..i + 1], running)
  {
    LiveNext(effs, running.Keys, i);
    RightEntries(groups, effs, running, i);
  }

  /** Any other is enlisted with its entry. */
  lemma Enlist(groups: seq<Entry>, byName: map<string, Entry>, pending: seq<Entry>,
               effs: seq<Eff>, running: map<string, Entry>, i: nat, e: Entry)
    requires ValidConfig(effs) && i < |effs| && Reconciled(groups, byName, pending, effs[..i], running)
    requires e.name == effs[i].name && (e.name in running || effs[i].builds)
    requires if e.name in running then e == running[e.name] else e.listen == effs[i].listen
    ensures var isNew := e.name !in running;
            Reconciled(groups + [e], byName[e.name := e], if isNew then pending + [e] else pending, effs[..i + 1], running)
  {
    LiveNext(effs, running.Keys, i);
    NotYetListed(effs, i, groups, byName, running.Keys);
    if e.name !in running {
      assert effs[..i + 1][i] == effs[i];
      assert BuiltFor(e, effs[..i + 1]);
    }
    AgreeAppend(groups, byName, e);
    GroupsAppend(groups, e, running.Keys);
    RightEntries(groups, effs, running, i);
  }
}
