/** Datatypes shared by the models. */
module Common {

  datatype Option<+T> = None | Some(value: T)

  datatype Result<+T, +E> = Ok(value: T) | Err(error: E)

  /** How a call ends. */
  datatype Ended = Succeeded | Errored | Panicked

  type byte = x: int | 0 <= x < 256

  /** No value occurs twice in `s`. */
  ghost predicate Distinct<T>(s: seq<T>) {
    forall i, j :: 0 <= i < j < |s| ==> s[i] != s[j]
  }

  /** The position at which a scan from `i` on meets `x`. */
  function FirstFrom<T(==)>(s: seq<T>, x: T, i: nat): (r: nat)
    requires x in s && i <= |s| && x !in s[..i]
    ensures i <= r < |s| && s[r] == x && x !in s[..r]
    decreases |s| - i
  {
    assert i < |s|;
    if s[i] == x then i
    else
      assert s[..i + 1] == s[..i] + [s[i]];
      FirstFrom(s, x, i + 1)
  }

  /** The position at which a scan from the front meets `x`. */
  function FirstIndex<T(==)>(s: seq<T>, x: T): (i: nat)
    requires x in s
    ensures i < |s| && s[i] == x && x !in s[..i]
  {
    FirstFrom(s, x, 0)
  }

  /** `s` without the first occurrence of `x`. */
  function Without<T(==)>(s: seq<T>, x: T): seq<T> {
    if x in s then s[..FirstIndex(s, x)] + s[FirstIndex(s, x) + 1..] else s
  }

  lemma CutIndex<T>(s: seq<T>, i: nat, r: seq<T>)
    requires i < |s| && r == s[..i] + s[i + 1..]
    ensures |r| == |s| - 1 && forall k {:trigger r[k]} :: 0 <= k < |r| ==> r[k] == if k < i then s[k] else s[k + 1]
  {
  }

  /** `Without` shifts what follows by one place. */
  lemma WithoutIndex<T>(s: seq<T>, x: T)
    requires x in s
    ensures var r, i := Without(s, x), FirstIndex(s, x);
            |r| == |s| - 1 && forall k {:trigger r[k]} :: 0 <= k < |r| ==> r[k] == if k < i then s[k] else s[k + 1]
  {
    CutIndex(s, FirstIndex(s, x), Without(s, x));
  }

  /** `Without` takes out one element and nothing else. */
  lemma WithoutKeeps<T>(s: seq<T>, x: T)
    requires Distinct(s)
    ensures Distinct(Without(s, x)) && x !in Without(s, x)
    ensures forall y :: y != x ==> (y in Without(s, x) <==> y in s)
  {
    if x in s {
      var i := FirstIndex(s, x);
      assert s == s[..i] + [x] + s[i + 1..];
    }
  }

  function Unit(b: bool): nat {
    if b then 1 else 0
  }

  /** Two sets that differ at most in `x`. */
  lemma CardChange<T>(before: set<T>, after: set<T>, x: T)
    requires before - {x} == after - {x}
    ensures |after| == |before| - Unit(x in before) + Unit(x in after)
  {
    var rest := before - {x};
    assert x in before ==> before == rest + {x};
    assert x !in before ==> before == rest;
    assert x in after ==> after == rest + {x};
    assert x !in after ==> after == rest;
  }

  /** Some elements leave a set and others join it. */
  lemma CardExchange<T>(before: set<T>, leave: set<T>, join: set<T>)
    requires leave <= before && join !! before
    ensures |before - leave + join| == |before| - |leave| + |join|
  {
    var rest := before - leave;
    assert before == rest + leave;
    assert |before| == |rest| + |leave|;
  }
}
