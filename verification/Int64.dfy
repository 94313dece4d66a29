/** Go's int64 arithmetic, which wraps around. */
module Int64 {

  const HALF: int := 0x8000_0000_0000_0000
  const FULL: int := 0x1_0000_0000_0000_0000

  predicate InRange(x: int) {
    -HALF <= x < HALF
  }

  /** What is stored when the result is `x`. */
  function Wrap(x: int): (r: int)
    ensures InRange(r)
  {
    (x + HALF) % FULL - HALF
  }

  /** `r` and `x` differ by a multiple of 2^64. */
  predicate WrapsBy(r: int, x: int, q: int) {
    r == x - q * FULL
  }

  ghost predicate Congruent(r: int, x: int) {
    exists q :: WrapsBy(r, x, q)
  }

  lemma WrapBy(x: int) returns (q: int)
    ensures WrapsBy(Wrap(x), x, q)
  {
    q := (x + HALF) / FULL;
  }

  /** There is one value in range for each class. */
  lemma OnlyOne(r: int, x: int, q: int)
    requires InRange(r) && WrapsBy(r, x, q)
    ensures r == Wrap(x)
  {
    var p := WrapBy(x);
  }

  lemma WrapExact(x: int)
    ensures InRange(x) <==> Wrap(x) == x
  {
    if InRange(x) {
      OnlyOne(x, x, 0);
    }
  }

  /** Wrapping on the way makes no difference to the end. */
  lemma WrapAdd(x: int, y: int)
    ensures Wrap(Wrap(x) + y) == Wrap(x + y)
  {
    var p := WrapBy(x);
    var q := WrapBy(Wrap(x) + y);
    assert WrapsBy(Wrap(Wrap(x) + y), x + y, p + q);
    OnlyOne(Wrap(Wrap(x) + y), x + y, p + q);
  }

  /** A sum that does not fit comes out smaller. */
  lemma WrapBelow(x: int)
    requires x >= 0
    ensures Wrap(x) <= x && (Wrap(x) < x <==> x >= HALF)
  {
    var q := WrapBy(x);
    WrapExact(x);
  }
}
