/**
 The session tracker of internal/admission/tracker.go: an intrusive doubly linked
 list of the live sessions, proved to represent a plain sequence in admission
 order. Network connections are opaque numbers.
 */
module Tracker {
  import opened Common

  /** What the tracker copies out of a session. */
  datatype Victim = Victim(conn: nat, upstreamID: string, prio: int, admittedAt: int)

  class Session {
    const conn: nat
    const admittedAt: int
    var upstreamID: string
    var upstreamPrio: int
    var prev: Session?
    var next: Session?
    var released: bool

    constructor (conn: nat, admittedAt: int)
      ensures this.conn == conn && this.admittedAt == admittedAt
      ensures upstreamID == "" && upstreamPrio == 0 && prev == null && next == null && !released
    {
      this.conn, this.admittedAt := conn, admittedAt;
      upstreamID, upstreamPrio, prev, next, released := "", 0, null, null, false;
    }

    function Copy(): Victim
      reads this
    {
      Victim(conn, upstreamID, upstreamPrio, admittedAt)
    }
  }

  // --- The sequence the list stands for --------------------------------------

  datatype Op<S> = Added(s: S) | Released(s: S)

  function Apply<S(==)>(live: seq<S>, op: Op<S>): seq<S> {
    match op
    case Added(s) => live + [s]
    case Released(s) => Without(live, s)
  }

  /** The live sessions after `ops`, starting from none. */
  function Live<S(==)>(ops: seq<Op<S>>): seq<S> {
    if ops == [] then [] else Apply(Live(ops[..|ops| - 1]), ops[|ops| - 1])
  }

  /** The caller's contract: a session is added only while it is not tracked. */
  ghost predicate Legal<S>(ops: seq<Op<S>>) {
    forall i :: 0 <= i < |ops| && ops[i].Added? ==> ops[i].s !in Live(ops[..i])
  }

  /** The operation that admitted `s` and was not undone since; -1 if there is none. */
  function AdmittedBy<S(==)>(ops: seq<Op<S>>, s: S): int {
    if ops == [] then -1
    else
      var last := ops[|ops| - 1];
      if last.s != s then AdmittedBy(ops[..|ops| - 1], s)
      else if last.Added? then |ops| - 1
      else -1
  }

  /** The live sessions are exactly those admitted and not released since, each once, oldest first. */
  ghost predicate InAdmissionOrder<S>(ops: seq<Op<S>>) {
    var live := Live(ops);
    && (forall i :: 0 <= i < |live| ==> AdmittedBy(ops, live[i]) >= 0)
    && (forall i :: 0 <= i < |ops| && AdmittedBy(ops, ops[i].s) >= 0 ==> ops[i].s in live)
    && (forall i, j :: 0 <= i < j < |live| ==> AdmittedBy(ops, live[i]) < AdmittedBy(ops, live[j]))
  }

  lemma {:induction false} AdmittedBefore<S>(ops: seq<Op<S>>, s: S)
    ensures -1 <= AdmittedBy(ops, s) < |ops|
  {
    if ops != [] {
      AdmittedBefore(ops[..|ops| - 1], s);
    }
  }

  lemma AddKeepsOrder<S>(ops: seq<Op<S>>, s: S)
    requires InAdmissionOrder(ops) && s !in Live(ops)
    ensures InAdmissionOrder(ops + [Added(s)])
  {
    var ops' := ops + [Added(s)];
    assert ops'[..|ops|] == ops;
    forall x ensures AdmittedBy(ops', x) == if x == s then |ops| else AdmittedBy(ops, x) {
      AdmittedBefore(ops, x);
    }
    forall i | 0 <= i < |Live(ops)| ensures AdmittedBy(ops, Live(ops)[i]) < |ops| && Live(ops)[i] != s {
      AdmittedBefore(ops, Live(ops)[i]);
    }
  }

  lemma AdmittedAfterRelease<S>(ops: seq<Op<S>>, s: S, x: S)
    ensures AdmittedBy(ops + [Released(s)], x) == if x == s then -1 else AdmittedBy(ops, x)
    ensures Live(ops + [Released(s)]) == Without(Live(ops), s)
  {
    assert (ops + [Released(s)])[..|ops|] == ops;
  }

  /** Every session that stays has a place in the old list, and places keep their order. */
  lemma StaysInOrder<S>(live: seq<S>, s: S, i: nat, j: nat) returns (i': nat, j': nat)
    requires Distinct(live) && i < j < |Without(live, s)|
    ensures i' < j' < |live| && Without(live, s)[i] == live[i'] && Without(live, s)[j] == live[j']
    ensures live[i'] != s && live[j'] != s
  {
    WithoutKeeps(live, s);
    assert Without(live, s)[i] in Without(live, s) && Without(live, s)[j] in Without(live, s);
    i', j' := i, j;
    if s in live {
      WithoutIndex(live, s);
      var k := FirstIndex(live, s);
      i', j' := if i < k then i else i + 1, if j < k then j else j + 1;
    }
  }

  lemma ReleaseKeepsOrder<S>(ops: seq<Op<S>>, s: S)
    requires InAdmissionOrder(ops)
    ensures InAdmissionOrder(ops + [Released(s)])
  {
    var ops' := ops + [Released(s)];
    var before, after := Live(ops), Live(ops');
    assert Distinct(before);
    WithoutKeeps(before, s);
    AdmittedAfterRelease(ops, s, s);
    forall i | 0 <= i < |after| ensures AdmittedBy(ops', after[i]) >= 0 {
      assert after[i] in after && after[i] in before;
      AdmittedAfterRelease(ops, s, after[i]);
    }
    forall i | 0 <= i < |ops'| && AdmittedBy(ops', ops'[i].s) >= 0 ensures ops'[i].s in after {
      AdmittedAfterRelease(ops, s, ops'[i].s);
    }
    forall i, j | 0 <= i < j < |after| ensures AdmittedBy(ops', after[i]) < AdmittedBy(ops', after[j]) {
      var i', j' := StaysInOrder(before, s, i, j);
      AdmittedAfterRelease(ops, s, after[i]);
      AdmittedAfterRelease(ops, s, after[j]);
    }
  }

  /** Every legal run keeps the live sessions in admission order. */
  lemma {:induction false} LiveInAdmissionOrder<S>(ops: seq<Op<S>>)
    requires Legal(ops)
    ensures InAdmissionOrder(ops)
  {
    if ops != [] {
      var n := |ops| - 1;
      assert forall i :: 0 <= i < n ==> ops[..n][..i] == ops[..i];
      LiveInAdmissionOrder(ops[..n]);
      assert ops == ops[..n] + [ops[n]];
      match ops[n]
      case Added(s) => AddKeepsOrder(ops[..n], s);
      case Released(s) => ReleaseKeepsOrder(ops[..n], s);
    }
  }

  /** Releasing twice is releasing once. */
  lemma ReleaseIdempotent<S>(live: seq<S>, s: S)
    requires Distinct(live)
    ensures Apply(Apply(live, Released(s)), Released(s)) == Apply(live, Released(s))
  {
    WithoutKeeps(live, s);
  }

  /**
   `vs[k]` is the drop-lowest-priority victim: the earliest session of the
   greatest priority number among those assigned to an upstream; the oldest one
   when none is assigned.
   */
  ghost predicate IsWorst(vs: seq<Victim>, k: nat) {
    && k < |vs|
    && if exists i :: 0 <= i < |vs| && vs[i].upstreamID != "" then
         && vs[k].upstreamID != ""
         && (forall i :: 0 <= i < k && vs[i].upstreamID != "" ==> vs[i].prio < vs[k].prio)
         && (forall i :: k < i < |vs| && vs[i].upstreamID != "" ==> vs[i].prio <= vs[k].prio)
       else k == 0
  }

  /** Whoever is listed, there is such a victim. */
  lemma {:induction false} WorstExists(vs: seq<Victim>) returns (k: nat)
    requires vs != []
    ensures IsWorst(vs, k)
  {
    var n := |vs| - 1;
    if n == 0 {
      k := 0;
    } else {
      k := WorstExists(vs[..n]);
      assert forall i :: 0 <= i < n ==> vs[..n][i] == vs[i];
      var better := vs[k].upstreamID == "" || vs[n].prio > vs[k].prio;
      if vs[n].upstreamID != "" && better {
        k := n;
      }
    }
  }

  /** There is exactly one such victim. */
  lemma WorstIsUnique(vs: seq<Victim>, k: nat, m: nat)
    requires IsWorst(vs, k) && IsWorst(vs, m)
    ensures k == m
  {
  }

  /** `vs[i]` goes before `vs[k]`: assigned ones first, by priority number, then by age. */
  predicate Beats(vs: seq<Victim>, i: nat, k: nat)
    requires i < |vs| && k < |vs|
  {
    if vs[i].upstreamID == "" then vs[k].upstreamID == "" && i < k
    else vs[k].upstreamID == "" || vs[i].prio > vs[k].prio || (vs[i].prio == vs[k].prio && i < k)
  }

  lemma OldestBeats(vs: seq<Victim>, k: nat)
    requires 0 < k < |vs| && vs[0].upstreamID == "" && vs[k].upstreamID == ""
    ensures Beats(vs, 0, k)
  {
  }

  /** The victim is the session that no other one beats. */
  lemma WorstIffUnbeaten(vs: seq<Victim>, k: nat)
    requires k < |vs|
    ensures IsWorst(vs, k) <==> forall i :: 0 <= i < |vs| && i != k ==> !Beats(vs, i, k)
  {
    if forall i :: 0 <= i < |vs| && i != k ==> !Beats(vs, i, k) {
      if i :| 0 <= i < |vs| && vs[i].upstreamID != "" {
        assert i != k ==> !Beats(vs, i, k);
        forall i | 0 <= i < |vs| && i != k && vs[i].upstreamID != ""
          ensures if i < k then vs[i].prio < vs[k].prio else vs[i].prio <= vs[k].prio
        {
          assert !Beats(vs, i, k);
        }
      } else {
        if k != 0 {
          OldestBeats(vs, k);
        }
      }
    }
  }

  // --- The list ---------------------------------------------------------------

  ghost function At(ns: seq<Session>, i: int): Session? {
    if 0 <= i < |ns| then ns[i] else null
  }

  /** Every session points at its neighbours. */
  ghost predicate Linked(ns: seq<Session>)
    reads ns
  {
    && (forall i {:trigger ns[i].prev} :: 0 <= i < |ns| ==> ns[i].prev == At(ns, i - 1))
    && (forall i {:trigger ns[i].next} :: 0 <= i < |ns| ==> ns[i].next == At(ns, i + 1))
  }

  /** Every session but `ns[k]` points at its neighbours as if `ns[k]` were not there. */
  ghost predicate Skips(ns: seq<Session>, k: nat)
    reads ns
  {
    && (forall i {:trigger ns[i].prev} :: 0 <= i < |ns| && i != k ==>
          ns[i].prev == At(ns, if i == k + 1 then k - 1 else i - 1))
    && (forall i {:trigger ns[i].next} :: 0 <= i < |ns| && i != k ==>
          ns[i].next == At(ns, if i == k - 1 then k + 1 else i + 1))
  }

  lemma SkipsIsLinked(ns: seq<Session>, k: nat)
    requires k < |ns| && Skips(ns, k)
    ensures Linked(ns[..k] + ns[k + 1..])
    ensures At(ns[..k] + ns[k + 1..], 0) == At(ns, if k == 0 then 1 else 0)
    ensures At(ns[..k] + ns[k + 1..], |ns| - 2) == At(ns, if k == |ns| - 1 then |ns| - 2 else |ns| - 1)
  {
    var r := ns[..k] + ns[k + 1..];
    assert forall i {:trigger r[i]} :: 0 <= i < |r| ==> r[i] == if i < k then ns[i] else ns[i + 1];
  }

  /** What is left when `ns[k]` is skipped: a list of the others. */
  lemma AfterRemoval(ns: seq<Session>, s: Session, k: nat)
    requires Distinct(ns) && s in ns && k == FirstIndex(ns, s) && Skips(ns, k)
    ensures var r := Without(ns, s);
            && |r| == |ns| - 1 && Distinct(r) && Linked(r)
            && (forall i :: 0 <= i < |r| ==> r[i] in ns && r[i] != s)
            && At(r, 0) == At(ns, if k == 0 then 1 else 0)
            && At(r, |ns| - 2) == At(ns, if k == |ns| - 1 then |ns| - 2 else |ns| - 1)
  {
    OthersStay(ns, s);
    SkipsIsLinked(ns, k);
  }

  lemma OthersStay<S>(ns: seq<S>, s: S)
    requires Distinct(ns) && s in ns
    ensures var r := Without(ns, s);
            |r| == |ns| - 1 && Distinct(r) && forall i :: 0 <= i < |r| ==> r[i] in ns && r[i] != s
  {
    WithoutKeeps(ns, s);
    WithoutIndex(ns, s);
    var r := Without(ns, s);
    forall i | 0 <= i < |r| ensures r[i] in ns && r[i] != s {
      assert r[i] in r;
    }
  }

  /**
   `ns[k]` is the drop-lowest-priority victim, by the fields of the sessions: the
   earliest of the greatest priority number among those assigned to an upstream, or
   the oldest when none is assigned.
   */
  ghost predicate WorstNode(ns: seq<Session>, k: nat)
    reads ns
  {
    && k < |ns|
    && if exists i :: 0 <= i < |ns| && ns[i].upstreamID != "" then
         && ns[k].upstreamID != ""
         && (forall i :: 0 <= i < k && ns[i].upstreamID != "" ==> ns[i].upstreamPrio < ns[k].upstreamPrio)
         && (forall i :: k < i < |ns| && ns[i].upstreamID != "" ==> ns[i].upstreamPrio <= ns[k].upstreamPrio)
       else k == 0
  }

  class Tracker {
    var head: Session?
    var tail: Session?
    var count: int
    ghost var nodes: seq<Session>

    ghost predicate Valid()
      reads this, nodes
    {
      && count == |nodes|
      && Distinct(nodes)
      && head == At(nodes, 0) && tail == At(nodes, |nodes| - 1)
      && Linked(nodes)
      && (forall i :: 0 <= i < |nodes| ==> !nodes[i].released)
    }

    ghost function View(): seq<Victim>
      reads this, nodes
    {
      seq(|nodes|, i requires 0 <= i < |nodes| reads this, nodes => nodes[i].Copy())
    }

    constructor ()
      ensures Valid() && nodes == []
    {
      head, tail, count, nodes := null, null, 0, [];
    }

    method Add(s: Session)
      requires Valid() && s !in nodes
      modifies this, s`prev, s`next, s`released, nodes`next
      ensures Valid() && nodes == Apply(old(nodes), Added(s))
    {
      s.released := false;
      s.prev := tail;
      s.next := null;
      if tail != null {
        tail.next := s;
      } else {
        head := s;
      }
      tail := s;
      count := count + 1;
      nodes := nodes + [s];
    }

    /** The pointer surgery of `Release`; `k` is the place of `s` in the list. */
    method Unlink(s: Session, ghost k: nat)
      requires Distinct(nodes) && Linked(nodes) && head == At(nodes, 0) && tail == At(nodes, |nodes| - 1)
      requires s in nodes && k == FirstIndex(nodes, s)
      modifies this`head, this`tail, nodes`prev, nodes`next
      ensures Skips(nodes, k)
      ensures head == At(nodes, if k == 0 then 1 else 0)
      ensures tail == At(nodes, if k == |nodes| - 1 then |nodes| - 2 else |nodes| - 1)
      ensures s.prev == null && s.next == null
    {
      assert s.prev == At(nodes, k - 1) && s.next == At(nodes, k + 1);
      if s.prev != null {
        s.prev.next := s.next;
      } else {
        head := s.next;
      }
      if s.next != null {
        s.next.prev := s.prev;
      } else {
        tail := s.prev;
      }
      s.prev, s.next := null, null;
    }

    /** Once the pointers skip `s`, the list stands for the other sessions. */
    ghost method Forget(s: Session, k: nat)
      requires Distinct(nodes) && s in nodes && k == FirstIndex(nodes, s) && Skips(nodes, k)
      requires head == At(nodes, if k == 0 then 1 else 0)
      requires tail == At(nodes, if k == |nodes| - 1 then |nodes| - 2 else |nodes| - 1)
      requires count == |nodes| - 1 && forall i :: 0 <= i < |nodes| && nodes[i] != s ==> !nodes[i].released
      modifies this`nodes
      ensures Valid() && nodes == Without(old(nodes), s)
    {
      AfterRemoval(nodes, s, k);
      nodes := Without(nodes, s);
    }

    /** The rest of `Release`, for a session that is in the list. */
    method Remove(s: Session)
      requires Valid() && s in nodes
      modifies this, s`released, nodes`prev, nodes`next
      ensures Valid() && nodes == Apply(old(nodes), Released(s)) && s.released
      ensures s.prev == null && s.next == null
    {
      ghost var k := FirstIndex(nodes, s);
      s.released := true;
      Unlink(s, k);
      count := count - 1;
      Forget(s, k);
    }

    method Release(s: Session)
      requires Valid()
      requires s in nodes || s.released || count == 0
      modifies this, s`released, nodes`prev, nodes`next
      ensures Valid() && nodes == Apply(old(nodes), Released(s)) && s.released
      ensures s in old(nodes) ==> s.prev == null && s.next == null
    {
      if s.released {
        return;
      }
      if count <= 0 {
        s.released := true;
        return;
      }
      Remove(s);
    }

    method Update(s: Session, upID: string, prio: int)
      requires Valid()
      modifies s`upstreamID, s`upstreamPrio
      ensures Valid()
      ensures s.upstreamID == upID && s.upstreamPrio == prio
      ensures s.Copy() == old(s.Copy()).(upstreamID := upID, prio := prio)
    {
      s.upstreamID := upID;
      s.upstreamPrio := prio;
    }

    method Sessions() returns (out: seq<Victim>)
      requires Valid()
      ensures out == View() && |out| == |nodes|
      ensures forall i :: 0 <= i < |nodes| ==>
                && out[i].conn == nodes[i].conn && out[i].admittedAt == nodes[i].admittedAt
                && out[i].upstreamID == nodes[i].upstreamID && out[i].prio == nodes[i].upstreamPrio
    {
      out := [];
      var s := head;
      ghost var i := 0;
      while s != null
        invariant 0 <= i <= |nodes| && s == (if i == |nodes| then null else nodes[i])
        invariant out == View()[..i]
        decreases |nodes| - i
      {
        out := out + [s.Copy()];
        s := s.next;
        i := i + 1;
      }
    }

    method PickOldestVictim() returns (v: Option<Victim>)
      requires Valid()
      ensures v == if View() == [] then None else Some(View()[0])
      ensures v.None? <==> nodes == []
      ensures v.Some? ==>
                && v.value.conn == nodes[0].conn && v.value.admittedAt == nodes[0].admittedAt
                && v.value.upstreamID == nodes[0].upstreamID && v.value.prio == nodes[0].upstreamPrio
    {
      if head == null {
        return None;
      }
      return Some(head.Copy());
    }

    method PickLowestPriorityVictim() returns (v: Option<Victim>)
      requires Valid()
      ensures v.None? <==> View() == []
      ensures v.Some? ==> exists k: nat :: IsWorst(View(), k) && v.value == View()[k]
      ensures v.None? <==> nodes == []
      ensures v.Some? ==> exists k: nat ::
                && WorstNode(nodes, k)
                && v.value.conn == nodes[k].conn && v.value.admittedAt == nodes[k].admittedAt
                && v.value.upstreamID == nodes[k].upstreamID && v.value.prio == nodes[k].upstreamPrio
    {
      if head == null {
        return None;
      }
      var worst: Session? := null;
      var s := head;
      ghost var i, k := 0, 0;
      while s != null
        invariant 0 <= i <= |nodes| && s == (if i == |nodes| then null else nodes[i])
        invariant worst == null ==> forall j :: 0 <= j < i ==> nodes[j].upstreamID == ""
        invariant worst != null ==>
          && 0 <= k < i && worst == nodes[k] && worst.upstreamID != ""
          && (forall j :: 0 <= j < k && nodes[j].upstreamID != "" ==> nodes[j].upstreamPrio < worst.upstreamPrio)
          && (forall j :: k < j < i && nodes[j].upstreamID != "" ==> nodes[j].upstreamPrio <= worst.upstreamPrio)
        decreases |nodes| - i
      {
        if s.upstreamID != "" && (worst == null || s.upstreamPrio > worst.upstreamPrio) {
          worst := s;
          k := i;
        }
        s := s.next;
        i := i + 1;
      }
      if worst == null {
        worst := head;
        k := 0;
      }
      assert forall j :: 0 <= j < |nodes| ==> View()[j] == nodes[j].Copy();
      assert IsWorst(View(), k) && WorstNode(nodes, k);
      return Some(worst.Copy());
    }
  }
}
