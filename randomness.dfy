/** The simulation's only source of nondeterminism, `Math.random()`, becomes
    a value the caller supplies: a `Draw` in [0, 1). */
module Randomness {

  type Draw = r: real | 0.0 <= r < 1.0

  /** `randomInt(n)`: the draw scaled to [0, n) and rounded down. */
  function RandomInt(draw: Draw, n: int): (i: int)
    requires n > 0
    ensures 0 <= i < n
  {
    ScaledBelow(draw, n);
    (draw * n as real).Floor
  }

  lemma ScaledBelow(draw: Draw, n: int)
    requires n > 0
    ensures 0.0 <= draw * n as real < n as real
  {
  }

  /** Every index in [0, n) is drawn by some value. */
  lemma RandomIntCoversRange(n: int, i: int)
    requires 0 <= i < n
    ensures exists draw: Draw :: RandomInt(draw, n) == i
  {
    var draw: Draw := i as real / n as real;
    assert draw * n as real == i as real;
    assert RandomInt(draw, n) == i;
  }
}
