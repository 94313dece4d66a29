/** Sums of integer maps over finite sets of keys; a missing key counts as zero. */
module Sums {

  type Credits = map<string, int>

  function Get(m: Credits, k: string): int {
    if k in m then m[k] else 0
  }

  ghost function Sum(s: set<string>, m: Credits): int {
    if s == {} then 0
    else
      var x :| x in s;
      Get(m, x) + Sum(s - {x}, m)
  }

  /** The sum does not depend on which key is taken out first. */
  lemma {:induction false} SumRemove(s: set<string>, m: Credits, x: string)
    requires x in s
    ensures Sum(s, m) == Get(m, x) + Sum(s - {x}, m)
    decreases |s|
  {
    var y :| y in s && Sum(s, m) == Get(m, y) + Sum(s - {y}, m);
    if y != x {
      SumRemove(s - {y}, m, x);
      SumRemove(s - {x}, m, y);
      assert s - {y} - {x} == s - {x} - {y};
    }
  }

  lemma {:induction false} SumAdd(s: set<string>, m: Credits, d: Credits, r: Credits)
    requires forall x :: x in s ==> Get(r, x) == Get(m, x) + Get(d, x)
    ensures Sum(s, r) == Sum(s, m) + Sum(s, d)
    decreases |s|
  {
    if s != {} {
      var x :| x in s;
      SumRemove(s, m, x);
      SumRemove(s, d, x);
      SumRemove(s, r, x);
      SumAdd(s - {x}, m, d, r);
    }
  }

  lemma {:induction false} SumSame(s: set<string>, m: Credits, r: Credits)
    requires forall x :: x in s ==> Get(r, x) == Get(m, x)
    ensures Sum(s, r) == Sum(s, m)
    decreases |s|
  {
    if s != {} {
      var x :| x in s;
      SumRemove(s, m, x);
      SumRemove(s, r, x);
      SumSame(s - {x}, m, r);
    }
  }

  lemma SumUpdate(s: set<string>, m: Credits, x: string, v: int)
    requires x in s
    ensures Sum(s, m[x := v]) == Sum(s, m) - Get(m, x) + v
  {
    SumRemove(s, m, x);
    SumRemove(s, m[x := v], x);
    SumSame(s - {x}, m, m[x := v]);
  }

  lemma {:induction false} SumUnion(s: set<string>, t: set<string>, m: Credits)
    requires s !! t
    ensures Sum(s + t, m) == Sum(s, m) + Sum(t, m)
    decreases |s|
  {
    if s == {} {
      assert s + t == t;
    } else {
      var x :| x in s;
      SumRemove(s, m, x);
      SumRemove(s + t, m, x);
      assert s + t - {x} == (s - {x}) + t;
      SumUnion(s - {x}, t, m);
    }
  }

  lemma MulSucc(a: int, n: nat)
    ensures a * (n + 1) == a * n + a
  {
  }

  lemma {:induction false} SumAtLeast(s: set<string>, m: Credits, low: int)
    requires forall x :: x in s ==> Get(m, x) >= low
    ensures Sum(s, m) >= low * |s|
    decreases |s|
  {
    if s != {} {
      var x :| x in s;
      SumRemove(s, m, x);
      SumAtLeast(s - {x}, m, low);
      MulSucc(low, |s - {x}|);
      assert |s| == |s - {x}| + 1;
    }
  }

  lemma {:induction false} SumAtMostZero(s: set<string>, m: Credits)
    requires forall x :: x in s ==> Get(m, x) <= 0
    ensures Sum(s, m) <= 0
    decreases |s|
  {
    if s != {} {
      var x :| x in s;
      SumRemove(s, m, x);
      SumAtMostZero(s - {x}, m);
    }
  }

  /** Non-negative terms that sum to zero are all zero. */
  lemma ZeroTerms(s: set<string>, m: Credits, x: string)
    requires x in s && Sum(s, m) == 0
    requires forall y :: y in s ==> Get(m, y) >= 0
    ensures Get(m, x) == 0
  {
    SumRemove(s, m, x);
    SumAtLeast(s - {x}, m, 0);
  }

  lemma SumZeros(s: set<string>, m: Credits)
    requires forall x :: x in s ==> Get(m, x) == 0
    ensures Sum(s, m) == 0
  {
    SumAtLeast(s, m, 0);
    SumAtMostZero(s, m);
  }
}
