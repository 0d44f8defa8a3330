/** Facts about products that the solver needs to be told. */
module Arithmetic {

  lemma ProductGrows(a: nat, b: nat, c: nat)
    requires a <= b
    ensures 0 <= a * c <= b * c && 0 <= c * a <= c * b
  {
  }

  lemma ProductOfSum(a: int, b: int, c: int)
    ensures a * (b + c) == a * b + a * c && (b + c) * a == b * a + c * a
  {
  }
}
