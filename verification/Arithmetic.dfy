/** The one fact about products that the solver has to be told. */
module Arithmetic {

  lemma Times(n: nat, k: nat)
    requires n > 0
    ensures n * k == (n - 1) * k + k
  {
  }
}
