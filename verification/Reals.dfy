/** Order and sign facts about real products, for proofs that name their multiplications. */
module Reals {
  function Max(a: real, b: real): real { if a >= b then a else b }

  function Min(a: real, b: real): real { if a <= b then a else b }

  function Abs(a: real): real { if a >= 0.0 then a else -a }

  lemma MulSign(x: real, y: real)
    ensures y > 0.0 ==> (x * y > 0.0 <==> x > 0.0)
  {
  }

  lemma MulPos(a: real, b: real)
    requires a > 0.0 && b > 0.0
    ensures a * b > 0.0
  {
  }

  lemma MulLe(a: real, b: real, x: real)
    requires a <= b && x >= 0.0
    ensures a * x <= b * x
  {
    assert (b - a) * x >= 0.0;
    assert (b - a) * x == b * x - a * x;
  }
}
