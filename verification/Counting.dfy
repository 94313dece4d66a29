/** Finite sets of numbers and of draw vectors, with their cardinalities. */
module Counting {

  /** The numbers from `lo` up to, but not including, `hi`. */
  function Range(lo: nat, hi: nat): (r: set<nat>)
    requires lo <= hi
    ensures forall x :: x in r <==> lo <= x < hi
    ensures |r| == hi - lo
    decreases hi - lo
  {
    if lo == hi then {} else Range(lo, hi - 1) + {hi - 1}
  }

  /** `v` with every number of `ds` appended. */
  ghost function AppendEach(v: seq<nat>, ds: set<nat>): set<seq<nat>> {
    if ds == {} then {}
    else
      var d :| d in ds;
      AppendEach(v, ds - {d}) + {v + [d]}
  }

  /** `x` is one of `vs` with one of `ds` appended. */
  ghost predicate Appends(x: seq<nat>, vs: set<seq<nat>>, ds: set<nat>) {
    x != [] && x[..|x| - 1] in vs && x[|x| - 1] in ds
  }

  lemma LastAndInit(x: seq<nat>, v: seq<nat>, d: nat)
    ensures x == v + [d] <==> x != [] && x[..|x| - 1] == v && x[|x| - 1] == d
  {
    if x != [] {
      assert x == x[..|x| - 1] + [x[|x| - 1]];
    }
  }

  lemma {:induction false} InAppendEach(v: seq<nat>, ds: set<nat>, x: seq<nat>)
    ensures x in AppendEach(v, ds) <==> Appends(x, {v}, ds)
    decreases |ds|
  {
    if ds != {} {
      var d :| d in ds && AppendEach(v, ds) == AppendEach(v, ds - {d}) + {v + [d]};
      InAppendEach(v, ds - {d}, x);
      LastAndInit(x, v, d);
    }
  }

  lemma {:induction false} AppendEachCard(v: seq<nat>, ds: set<nat>)
    ensures |AppendEach(v, ds)| == |ds|
    decreases |ds|
  {
    if ds != {} {
      var d :| d in ds && AppendEach(v, ds) == AppendEach(v, ds - {d}) + {v + [d]};
      AppendEachCard(v, ds - {d});
      InAppendEach(v, ds - {d}, v + [d]);
      LastAndInit(v + [d], v, d);
    }
  }

  /** Every vector of `vs` with every number of `ds` appended. */
  ghost function Extend(vs: set<seq<nat>>, ds: set<nat>): set<seq<nat>> {
    if vs == {} then {}
    else
      var v :| v in vs;
      Extend(vs - {v}, ds) + AppendEach(v, ds)
  }

  lemma {:induction false} InExtend(vs: set<seq<nat>>, ds: set<nat>, x: seq<nat>)
    ensures x in Extend(vs, ds) <==> Appends(x, vs, ds)
    decreases |vs|
  {
    if vs != {} {
      var v :| v in vs && Extend(vs, ds) == Extend(vs - {v}, ds) + AppendEach(v, ds);
      InExtend(vs - {v}, ds, x);
      InAppendEach(v, ds, x);
    }
  }

  lemma {:induction false} ExtendCard(vs: set<seq<nat>>, ds: set<nat>)
    ensures |Extend(vs, ds)| == |vs| * |ds|
    decreases |vs|
  {
    if vs != {} {
      var v :| v in vs && Extend(vs, ds) == Extend(vs - {v}, ds) + AppendEach(v, ds);
      ExtendCard(vs - {v}, ds);
      AppendEachCard(v, ds);
      forall x ensures !(x in Extend(vs - {v}, ds) && x in AppendEach(v, ds)) {
        InExtend(vs - {v}, ds, x);
        InAppendEach(v, ds, x);
      }
      assert Extend(vs - {v}, ds) !! AppendEach(v, ds);
      MulSucc(|vs - {v}|, |ds|);
      assert |vs| == |vs - {v}| + 1;
    }
  }

  lemma MulSucc(n: nat, d: nat)
    ensures (n + 1) * d == n * d + d
  {
  }

  /** Every vector whose entries are below the bounds. */
  ghost function Vectors(bounds: seq<nat>): set<seq<nat>> {
    if bounds == [] then {[]}
    else Extend(Vectors(bounds[..|bounds| - 1]), Range(0, bounds[|bounds| - 1]))
  }

  /** One more bound multiplies the number of vectors. */
  lemma VectorsAppend(bounds: seq<nat>, b: nat)
    ensures |Vectors(bounds + [b])| == |Vectors(bounds)| * b
  {
    assert (bounds + [b])[..|bounds|] == bounds;
    ExtendCard(Vectors(bounds), Range(0, b));
  }

  /** The answers of `IntN`: each draw is below its bound. */
  predicate Answers(draws: seq<nat>, bounds: seq<nat>) {
    |draws| == |bounds| && forall i :: 0 <= i < |draws| ==> draws[i] < bounds[i]
  }

  lemma AnswersAppend(x: seq<nat>, bounds: seq<nat>, b: nat)
    ensures Answers(x, bounds + [b]) <==> x != [] && Answers(x[..|x| - 1], bounds) && x[|x| - 1] < b
  {
    if x != [] && |x| == |bounds| + 1 {
      assert forall i :: 0 <= i < |bounds| ==> x[i] == x[..|bounds|][i] && (bounds + [b])[i] == bounds[i];
    }
  }

  /** The vectors are exactly the possible answers. */
  lemma {:induction false} InVectors(bounds: seq<nat>, x: seq<nat>)
    ensures x in Vectors(bounds) <==> Answers(x, bounds)
  {
    if bounds != [] {
      var init, b := bounds[..|bounds| - 1], bounds[|bounds| - 1];
      assert bounds == init + [b];
      AnswersAppend(x, init, b);
      InExtend(Vectors(init), Range(0, b), x);
      if x != [] {
        InVectors(init, x[..|x| - 1]);
      }
    }
  }

  function Factorial(n: nat): (f: nat)
    ensures f > 0
  {
    if n <= 1 then 1 else Factorial(n - 1) * n
  }
}
