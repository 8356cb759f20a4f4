/** Small facts about multiplication that the solver does not find alone. */
module Arith {
  lemma {:induction false} MulMonotone(a: nat, b: nat, c: nat)
    requires a <= b
    ensures a * c <= b * c
    decreases b - a
  {
    if a < b {
      MulMonotone(a, b - 1, c);
      assert b * c == (b - 1) * c + c;
    }
  }

  /** Multiplication by repeated addition. Proofs about walks that compare
      products step by step use it so that each step is one addition for
      the solver; MulIsProduct ties it to `*`. */
  function Mul(a: nat, b: nat): nat {
    if a == 0 then 0 else Mul(a - 1, b) + b
  }

  lemma {:induction false} MulIsProduct(a: nat, b: nat)
    ensures Mul(a, b) == a * b
  {
    if a > 0 {
      MulIsProduct(a - 1, b);
      assert a * b == (a - 1) * b + b;
    }
  }
}
