/**
 * `Math.random` and the index the source derives from it. The generator is a
 * stream of values in [0, 1) fixed in advance; `Rng.drawn` counts how many of
 * them the program has consumed, so every draw of a run can be named.
 */
module Random {

  /** A value `Math.random()` can return. */
  type Unit = r: real | 0.0 <= r < 1.0

  /**
   * `r * n`, written as the n-fold sum r + ... + r so that reasoning about a
   * draw stays within linear arithmetic; `ScaledIsProduct` shows it is the
   * product.
   */
  function Scaled(r: real, n: nat): real
    decreases n
  {
    if n == 0 then 0.0 else Scaled(r, n - 1) + r
  }

  lemma {:induction false} ScaledIsProduct(r: real, n: nat)
    ensures Scaled(r, n) == r * n as real
    decreases n
  {
    if n > 0 {
      ScaledIsProduct(r, n - 1);
      assert r * (n - 1) as real + r == r * n as real;
    }
  }

  /** A value of `Math.random()` scaled by n lies in [0, n). */
  lemma {:induction false} ScaledBelow(r: Unit, n: nat)
    requires n > 0
    ensures 0.0 <= Scaled(r, n) < n as real
    decreases n
  {
    if n > 1 {
      ScaledBelow(r, n - 1);
    }
  }

  /** `Math.floor(Math.random() * n)`: a uniform draw lands on an index of an n-element range. */
  function RandomIndex(r: Unit, n: nat): (i: nat)
    requires n > 0
    ensures i < n
  {
    ScaledBelow(r, n);
    Scaled(r, n).Floor
  }

  /** No index is out of reach: for every i < n some value of `Math.random()` selects it. */
  lemma EveryIndexReachable(i: nat, n: nat)
    requires i < n
    ensures exists r: Unit :: RandomIndex(r, n) == i
  {
    var r: real := i as real / n as real;
    assert r * n as real == i as real;
    assert 0.0 <= r < 1.0;
    var u: Unit := r;
    ScaledIsProduct(u, n);
    assert RandomIndex(u, n) == i;
  }

  /** The process-wide generator behind `Math.random`. */
  class Rng {
    const source: nat -> Unit
    var drawn: nat

    constructor (source: nat -> Unit)
      ensures this.source == source && drawn == 0
    {
      this.source := source;
      drawn := 0;
    }

    /** One call of `Math.random()`: the next value of the stream. */
    method Next() returns (r: Unit)
      modifies this
      ensures r == source(old(drawn)) && drawn == old(drawn) + 1
    {
      r := source(drawn);
      drawn := drawn + 1;
    }
  }
}
