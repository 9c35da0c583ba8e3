/** A fact of integer arithmetic the solver does not find by itself. */
module Arithmetic {

  /** Multiplying both sides by a non-negative number keeps the order. */
  lemma MultiplyMonotone(a: int, b: int, c: int)
    requires a <= b && 0 <= c
    ensures a * c <= b * c
  {
  }
}
