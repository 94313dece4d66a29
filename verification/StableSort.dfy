/**
 Stable sorting by an integer key, as `sort.SliceStable` promises it
 (internal/balancer/balancer.go). A stable sort is determined by its input, so
 the insertion sort below stands for whichever algorithm the library runs.
 */
module StableSort {

  ghost predicate Sorted<T>(s: seq<T>, key: T -> int) {
    forall i, j :: 0 <= i < j < |s| ==> key(s[i]) <= key(s[j])
  }

  /** The elements of key `k`, in their order in `s`. */
  ghost function OfKey<T>(s: seq<T>, key: T -> int, k: int): seq<T> {
    if s == [] then []
    else (if key(s[0]) == k then [s[0]] else []) + OfKey(s[1..], key, k)
  }

  ghost predicate SameAt<T>(r: seq<T>, s: seq<T>, key: T -> int, k: int) {
    OfKey(r, key, k) == OfKey(s, key, k)
  }

  /** `r` is `s` sorted, with elements of equal key in their old order. */
  ghost predicate IsStableSort<T>(r: seq<T>, s: seq<T>, key: T -> int) {
    && Sorted(r, key)
    && forall k :: SameAt(r, s, key, k)
  }

  function Insert<T>(x: T, s: seq<T>, key: T -> int): seq<T> {
    if s == [] then [x]
    else if key(x) <= key(s[0]) then [x] + s
    else [s[0]] + Insert(x, s[1..], key)
  }

  function StableSorted<T>(s: seq<T>, key: T -> int): seq<T> {
    if s == [] then [] else Insert(s[0], StableSorted(s[1..], key), key)
  }

  lemma {:induction false} InsertMoves<T>(x: T, s: seq<T>, key: T -> int)
    ensures multiset(Insert(x, s, key)) == multiset(s) + multiset{x}
  {
    if s != [] && key(x) > key(s[0]) {
      InsertMoves(x, s[1..], key);
      assert s == [s[0]] + s[1..];
    }
  }

  lemma {:induction false} InsertAbove<T>(x: T, s: seq<T>, key: T -> int, low: int)
    requires key(x) >= low && forall i :: 0 <= i < |s| ==> key(s[i]) >= low
    ensures forall i :: 0 <= i < |Insert(x, s, key)| ==> key(Insert(x, s, key)[i]) >= low
  {
    if s != [] && key(x) > key(s[0]) {
      InsertAbove(x, s[1..], key, low);
    }
  }

  lemma SortedCons<T>(x: T, s: seq<T>, key: T -> int)
    requires Sorted(s, key) && forall i :: 0 <= i < |s| ==> key(s[i]) >= key(x)
    ensures Sorted([x] + s, key)
  {
  }

  lemma {:induction false} InsertSorts<T>(x: T, s: seq<T>, key: T -> int)
    requires Sorted(s, key)
    ensures Sorted(Insert(x, s, key), key)
  {
    if s == [] {
      assert Insert(x, s, key) == [x];
    } else if key(x) > key(s[0]) {
      InsertSorts(x, s[1..], key);
      InsertAbove(x, s[1..], key, key(s[0]));
      SortedCons(s[0], Insert(x, s[1..], key), key);
    } else {
      SortedCons(x, s, key);
    }
  }

  lemma OfKeyCons<T>(x: T, s: seq<T>, key: T -> int, k: int)
    ensures OfKey([x] + s, key, k) == (if key(x) == k then [x] else []) + OfKey(s, key, k)
  {
    assert ([x] + s)[1..] == s;
  }

  lemma SwapHeads<T>(a: seq<T>, b: seq<T>, c: seq<T>)
    requires a == [] || b == []
    ensures a + (b + c) == b + (a + c)
  {
    assert a + (b + c) == (a + b) + c && b + (a + c) == (b + a) + c;
    assert a + b == b + a;
  }

  lemma {:induction false} InsertIsStable<T>(x: T, s: seq<T>, key: T -> int, k: int)
    ensures OfKey(Insert(x, s, key), key, k) == OfKey([x] + s, key, k)
  {
    if s == [] {
      assert Insert(x, s, key) == [x] + s;
    } else if key(x) > key(s[0]) {
      var hx := if key(x) == k then [x] else [];
      var hs := if key(s[0]) == k then [s[0]] else [];
      var tail := OfKey(s[1..], key, k);
      calc {
        OfKey(Insert(x, s, key), key, k);
        { OfKeyCons(s[0], Insert(x, s[1..], key), key, k); }
        hs + OfKey(Insert(x, s[1..], key), key, k);
        { InsertIsStable(x, s[1..], key, k); OfKeyCons(x, s[1..], key, k); }
        hs + (hx + tail);
        { SwapHeads(hs, hx, tail); }
        hx + (hs + tail);
        { OfKeyCons(x, s, key, k); }
        OfKey([x] + s, key, k);
      }
    }
  }

  /** The insertion sort is a stable sort, and moves elements only. */
  lemma {:induction false} StableSortedIsStable<T>(s: seq<T>, key: T -> int)
    ensures IsStableSort(StableSorted(s, key), s, key)
    ensures multiset(StableSorted(s, key)) == multiset(s)
  {
    if s != [] {
      var rest := StableSorted(s[1..], key);
      StableSortedIsStable(s[1..], key);
      InsertSorts(s[0], rest, key);
      InsertMoves(s[0], rest, key);
      assert s == [s[0]] + s[1..];
      forall k ensures SameAt(StableSorted(s, key), s, key, k) {
        assert SameAt(rest, s[1..], key, k);
        InsertIsStable(s[0], rest, key, k);
        OfKeyCons(s[0], rest, key, k);
        OfKeyCons(s[0], s[1..], key, k);
      }
    } else {
      assert forall k :: SameAt(StableSorted(s, key), s, key, k);
    }
  }

  lemma {:induction false} OfKeyEmpty<T>(s: seq<T>, key: T -> int, k: int)
    requires forall i :: 0 <= i < |s| ==> key(s[i]) != k
    ensures OfKey(s, key, k) == []
  {
    if s != [] {
      OfKeyEmpty(s[1..], key, k);
    }
  }

  /** The smallest key of a sorted sequence is that of its first element. */
  lemma FirstOfKey<T>(r: seq<T>, key: T -> int, k: int)
    requires Sorted(r, key) && r != [] && k <= key(r[0])
    ensures OfKey(r, key, k) != [] <==> k == key(r[0])
    ensures k == key(r[0]) ==> OfKey(r, key, k)[0] == r[0]
  {
    if k < key(r[0]) {
      OfKeyEmpty(r, key, k);
    }
  }

  /** Two stable sorts of the same input start with the same element. */
  lemma SameHead<T>(r: seq<T>, t: seq<T>, key: T -> int)
    requires Sorted(r, key) && Sorted(t, key) && r != [] && t != []
    requires SameAt(r, t, key, key(r[0])) && SameAt(r, t, key, key(t[0]))
    ensures r[0] == t[0]
  {
    var k := if key(r[0]) <= key(t[0]) then key(r[0]) else key(t[0]);
    FirstOfKey(r, key, k);
    FirstOfKey(t, key, k);
  }

  lemma CancelPrefix<T>(h: seq<T>, a: seq<T>, b: seq<T>)
    requires h + a == h + b
    ensures a == b
  {
    assert a == (h + a)[|h|..];
    assert b == (h + b)[|h|..];
  }

  lemma SameEmptiness<T>(r: seq<T>, t: seq<T>, key: T -> int)
    requires r != [] && SameAt(r, t, key, key(r[0]))
    ensures t != []
  {
    assert OfKey(r, key, key(r[0]))[0] == r[0];
  }

  /** There is only one stable sort of a sequence. */
  lemma {:induction false} StableSortIsUnique<T>(r: seq<T>, t: seq<T>, key: T -> int)
    requires Sorted(r, key) && Sorted(t, key)
    requires forall k :: SameAt(r, t, key, k)
    ensures r == t
    decreases |r|
  {
    if r == [] {
      if t != [] {
        assert SameAt(r, t, key, key(t[0]));
        SameEmptiness(t, r, key);
      }
    } else {
      assert SameAt(r, t, key, key(r[0]));
      SameEmptiness(r, t, key);
      assert SameAt(r, t, key, key(t[0]));
      SameHead(r, t, key);
      forall k ensures SameAt(r[1..], t[1..], key, k) {
        assert SameAt(r, t, key, k);
        var h := if key(r[0]) == k then [r[0]] else [];
        CancelPrefix(h, OfKey(r[1..], key, k), OfKey(t[1..], key, k));
      }
      StableSortIsUnique(r[1..], t[1..], key);
      assert r == [r[0]] + r[1..] && t == [t[0]] + t[1..];
    }
  }
}
