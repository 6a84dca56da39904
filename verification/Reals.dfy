// Products and squares of reals, named so that proofs can speak of them as a whole.

module Reals {
  function Times(a: real, b: real): real { a * b }

  function Squared(x: real): real { Times(x, x) }

  lemma ProductSign(x: real, y: real)
    requires x >= 0.0 && y >= 0.0
    ensures Times(x, y) >= 0.0
    ensures x > 0.0 && y > 0.0 ==> Times(x, y) > 0.0
    ensures x == 0.0 || y == 0.0 ==> Times(x, y) == 0.0
  {
  }

  lemma SquareSign(x: real)
    ensures Squared(x) >= 0.0 && Squared(-x) == Squared(x)
    ensures x != 0.0 ==> Squared(x) > 0.0
  {
    ProductSign(if x < 0.0 then -x else x, if x < 0.0 then -x else x);
    assert Squared(x) == Times(-x, -x);
  }
}
