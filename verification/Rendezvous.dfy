/**
 Rendezvous hashing (internal/strategy/consistent_hash.go): one scan for the
 eligible upstream with the greatest hash of (key, ID). The hash function is a
 parameter; nothing is assumed of it unless stated.
 */
module Rendezvous {
  import opened Selection

  /** The hashes of IDs under one key. */
  type Hash = string -> nat

  datatype Best = Best(id: string, h: nat)

  function Visit(b: Best, u: Snapshot, maxPer: int, hash: Hash): Best {
    if Eligible(u, maxPer) && (b.id == "" || hash(u.id) > b.h) then Best(u.id, hash(u.id)) else b
  }

  function Scan(pool: seq<Snapshot>, maxPer: int, hash: Hash): Best {
    if pool == [] then Best("", 0)
    else Visit(Scan(pool[..|pool| - 1], maxPer, hash), pool[|pool| - 1], maxPer, hash)
  }

  function Chosen(pool: seq<Snapshot>, maxPer: int, hash: Hash): string {
    Scan(pool, maxPer, hash).id
  }

  method Pick(pool: seq<Snapshot>, maxPer: int, hash: Hash) returns (id: string)
    ensures id == Chosen(pool, maxPer, hash)
    ensures ValidPool(pool) ==> IsHealthyPick(pool, maxPer, id)
  {
    if |pool| == 0 {
      return "";
    }
    var bestID := "";
    var bestH: nat := 0;
    for i := 0 to |pool|
      invariant Best(bestID, bestH) == Scan(pool[..i], maxPer, hash)
    {
      var u := pool[i];
      assert pool[..i + 1][..i] == pool[..i];
      if !u.healthy || u.active >= maxPer {
        continue;
      }
      var h := hash(u.id);
      if bestID == "" || h > bestH {
        bestID := u.id;
        bestH := h;
      }
    }
    assert pool[..|pool|] == pool;
    if ValidPool(pool) {
      ghost var k := ScanFindsTop(pool, maxPer, hash);
    }
    return bestID;
  }

  /** `pool[k]` is eligible, ahead of the eligible upstreams before it, and none after it is ahead. */
  ghost predicate TopAt(pool: seq<Snapshot>, maxPer: int, hash: Hash, k: nat) {
    && k < |pool| && pool[k].healthy && pool[k].active < maxPer
    && (forall i :: 0 <= i < k && pool[i].healthy && pool[i].active < maxPer ==> hash(pool[i].id) < hash(pool[k].id))
    && (forall i :: k < i < |pool| && pool[i].healthy && pool[i].active < maxPer ==> hash(pool[i].id) <= hash(pool[k].id))
  }

  ghost predicate NoneEligible(pool: seq<Snapshot>, maxPer: int) {
    forall i :: 0 <= i < |pool| ==> !(pool[i].healthy && pool[i].active < maxPer)
  }

  /** Scanning one more upstream keeps the position of the top up to date. */
  lemma TopSoFar(pool: seq<Snapshot>, maxPer: int, hash: Hash, k: nat)
    requires pool != [] && TopAt(pool[..|pool| - 1], maxPer, hash, k)
    ensures var n := |pool| - 1;
            TopAt(pool, maxPer, hash, if Eligible(pool[n], maxPer) && hash(pool[n].id) > hash(pool[k].id) then n else k)
  {
    assert forall i :: 0 <= i < |pool| - 1 ==> pool[i] == pool[..|pool| - 1][i];
  }

  /** The scan returns the first of the greatest, and nothing only when nothing is eligible. */
  lemma {:induction false} ScanFindsTop(pool: seq<Snapshot>, maxPer: int, hash: Hash) returns (k: nat)
    requires ValidPool(pool)
    ensures var b := Scan(pool, maxPer, hash);
            && (b.id == "" <==> NoneEligible(pool, maxPer))
            && (b.id != "" ==> TopAt(pool, maxPer, hash, k) && b == Best(pool[k].id, hash(pool[k].id)))
  {
    k := 0;
    if pool != [] {
      var n := |pool| - 1;
      k := ScanFindsTop(pool[..n], maxPer, hash);
      var b := Scan(pool[..n], maxPer, hash);
      if b.id == "" {
        assert forall i :: 0 <= i < n ==> pool[i] == pool[..n][i];
        k := n;
      } else {
        TopSoFar(pool, maxPer, hash, k);
        k := if Eligible(pool[n], maxPer) && hash(pool[n].id) > b.h then n else k;
      }
    }
  }

  lemma TopIsUnique(pool: seq<Snapshot>, maxPer: int, hash: Hash, j: nat, k: nat)
    requires TopAt(pool, maxPer, hash, j) && TopAt(pool, maxPer, hash, k)
    ensures j == k
  {
  }

  /** Being the top is what makes an upstream the pick. */
  lemma TopIsChosen(pool: seq<Snapshot>, maxPer: int, hash: Hash, k: nat)
    requires ValidPool(pool) && TopAt(pool, maxPer, hash, k)
    ensures Chosen(pool, maxPer, hash) == pool[k].id
  {
    var j := ScanFindsTop(pool, maxPer, hash);
    TopIsUnique(pool, maxPer, hash, j, k);
  }

  function Drop(pool: seq<Snapshot>, j: nat): seq<Snapshot>
    requires j < |pool|
  {
    pool[..j] + pool[j + 1..]
  }

  lemma DropValid(pool: seq<Snapshot>, j: nat)
    requires ValidPool(pool) && j < |pool|
    ensures ValidPool(Drop(pool, j))
    ensures forall i {:trigger Drop(pool, j)[i]} :: 0 <= i < |pool| - 1 ==> Drop(pool, j)[i] == if i < j then pool[i] else pool[i + 1]
  {
  }

  lemma DropKeepsTop(pool: seq<Snapshot>, maxPer: int, hash: Hash, j: nat, k: nat)
    requires ValidPool(pool) && j < |pool| && j != k && TopAt(pool, maxPer, hash, k)
    ensures TopAt(Drop(pool, j), maxPer, hash, if k < j then k else k - 1)
  {
    DropValid(pool, j);
  }

  /** Minimal disruption: removing an upstream that is not the pick changes nothing. */
  lemma RemoveKeepsPick(pool: seq<Snapshot>, maxPer: int, hash: Hash, j: nat)
    requires ValidPool(pool) && j < |pool| && pool[j].id != Chosen(pool, maxPer, hash)
    ensures Chosen(Drop(pool, j), maxPer, hash) == Chosen(pool, maxPer, hash)
  {
    DropValid(pool, j);
    var k := ScanFindsTop(pool, maxPer, hash);
    if Chosen(pool, maxPer, hash) == "" {
      var k' := ScanFindsTop(Drop(pool, j), maxPer, hash);
    } else {
      DropKeepsTop(pool, maxPer, hash, j, k);
      TopIsChosen(Drop(pool, j), maxPer, hash, if k < j then k else k - 1);
    }
  }

  /** An upstream that turns ineligible counts as removed, so disabling one that is not the pick changes nothing. */
  lemma DisableIsRemove(pool: seq<Snapshot>, maxPer: int, hash: Hash, j: nat, down: Snapshot)
    requires ValidPool(pool) && j < |pool| && down.id == pool[j].id && !Eligible(down, maxPer)
    ensures ValidPool(pool[j := down])
    ensures Chosen(pool[j := down], maxPer, hash) == Chosen(Drop(pool, j), maxPer, hash)
    ensures pool[j].id != Chosen(pool, maxPer, hash) ==>
              Chosen(pool[j := down], maxPer, hash) == Chosen(pool, maxPer, hash)
  {
    var p := pool[j := down];
    assert ValidPool(p);
    assert Drop(p, j) == Drop(pool, j);
    var k := ScanFindsTop(p, maxPer, hash);
    assert Chosen(p, maxPer, hash) != down.id;
    RemoveKeepsPick(p, maxPer, hash, j);
    if pool[j].id != Chosen(pool, maxPer, hash) {
      RemoveKeepsPick(pool, maxPer, hash, j);
    }
  }

  /** Adding an upstream anywhere keeps the pick or moves it to the new one. */
  lemma AddKeepsOrTakes(pool: seq<Snapshot>, maxPer: int, hash: Hash, j: nat)
    requires ValidPool(pool) && j < |pool|
    ensures Chosen(pool, maxPer, hash) == Chosen(Drop(pool, j), maxPer, hash) || Chosen(pool, maxPer, hash) == pool[j].id
  {
    if Chosen(pool, maxPer, hash) != pool[j].id {
      RemoveKeepsPick(pool, maxPer, hash, j);
    }
  }

  /** The eligible IDs of the pool. */
  ghost function EligibleIds(pool: seq<Snapshot>, maxPer: int): set<string> {
    set i | 0 <= i < |pool| && Eligible(pool[i], maxPer) :: pool[i].id
  }

  ghost predicate NoCollision(ids: set<string>, hash: Hash) {
    forall x, y :: x in ids && y in ids && hash(x) == hash(y) ==> x == y
  }

  /** Without hash collisions the pick depends on the set of eligible IDs only, not on the pool's order. */
  lemma OrderIrrelevant(p: seq<Snapshot>, q: seq<Snapshot>, maxPer: int, hash: Hash)
    requires ValidPool(p) && ValidPool(q) && EligibleIds(p, maxPer) == EligibleIds(q, maxPer)
    requires NoCollision(EligibleIds(p, maxPer), hash)
    ensures Chosen(p, maxPer, hash) == Chosen(q, maxPer, hash)
  {
    SomeEligibleIsChosen(p, maxPer, hash);
    SomeEligibleIsChosen(q, maxPer, hash);
    if Chosen(p, maxPer, hash) != "" {
      TopOfIds(p, maxPer, hash, Chosen(q, maxPer, hash));
      TopOfIds(q, maxPer, hash, Chosen(p, maxPer, hash));
    }
  }

  lemma SomeEligibleIsChosen(pool: seq<Snapshot>, maxPer: int, hash: Hash)
    requires ValidPool(pool)
    ensures Chosen(pool, maxPer, hash) != "" <==> EligibleIds(pool, maxPer) != {}
    ensures Chosen(pool, maxPer, hash) != "" ==> Chosen(pool, maxPer, hash) in EligibleIds(pool, maxPer)
  {
    var k := ScanFindsTop(pool, maxPer, hash);
    if Chosen(pool, maxPer, hash) == "" {
      assert EligibleIds(pool, maxPer) == {};
    } else {
      assert pool[k].id in EligibleIds(pool, maxPer);
    }
  }

  /** No eligible ID hashes higher than the pick. */
  lemma TopOfIds(pool: seq<Snapshot>, maxPer: int, hash: Hash, id: string)
    requires ValidPool(pool) && id in EligibleIds(pool, maxPer)
    ensures hash(id) <= hash(Chosen(pool, maxPer, hash))
  {
    var k := ScanFindsTop(pool, maxPer, hash);
    var i :| 0 <= i < |pool| && Eligible(pool[i], maxPer) && pool[i].id == id;
  }
}
