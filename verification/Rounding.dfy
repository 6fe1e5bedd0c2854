/** Math.round and Math.floor on exact numbers. */
module Rounding {

  /** The nearest integer, ties going up: what Math.round does on an exact argument. */
  function Round(x: real): (n: int)
    ensures x - 0.5 < n as real <= x + 0.5
  {
    (x + 0.5).Floor
  }

  /** The half-open bracket determines the rounded value. */
  lemma RoundIs(x: real, n: int)
    requires x - 0.5 < n as real <= x + 0.5
    ensures Round(x) == n
  {
    var m := Round(x);
    assert -1.0 < (n - m) as real < 1.0;
  }

  lemma MulMonotone(a: real, b: real, c: real)
    requires a <= b && 0.0 <= c
    ensures a * c <= b * c
  {
  }
}
