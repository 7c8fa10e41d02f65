/** Rounding over exact reals. */
module Numbers {
  /** math.Ceil. */
  function Ceil(x: real): int { -((-x).Floor) }

  lemma CeilIs(x: real)
    ensures Ceil(x) as real - 1.0 < x <= Ceil(x) as real
  {
  }
}
