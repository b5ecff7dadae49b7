/** 64-bit masks as natural numbers below 2^64, with the C operators written out. */
module Bits {

  function Pow2(k: nat): (p: nat)
    ensures p >= 1
  {
    if k == 0 then 1 else 2 * Pow2(k - 1)
  }

  predicate Test(m: nat, i: nat) {
    if i == 0 then m % 2 == 1 else Test(m / 2, i - 1)
  }

  /** a | b */
  function Or(a: nat, b: nat): nat
    decreases a + b
  {
    if a == 0 && b == 0 then 0
    else (if a % 2 == 1 || b % 2 == 1 then 1 else 0) + 2 * Or(a / 2, b / 2)
  }

  /** a & b */
  function And(a: nat, b: nat): nat
    decreases a + b
  {
    if a == 0 && b == 0 then 0
    else (if a % 2 == 1 && b % 2 == 1 then 1 else 0) + 2 * And(a / 2, b / 2)
  }

  lemma {:induction false} TestZero(i: nat)
    ensures !Test(0, i)
  {
    if i > 0 { TestZero(i - 1); }
  }

  lemma {:induction false} TestOr(a: nat, b: nat, i: nat)
    ensures Test(Or(a, b), i) <==> Test(a, i) || Test(b, i)
    decreases i
  {
    if a == 0 && b == 0 {
      TestZero(i);
    } else if i > 0 {
      assert Or(a, b) / 2 == Or(a / 2, b / 2);
      TestOr(a / 2, b / 2, i - 1);
    }
  }

  lemma {:induction false} TestPow2(k: nat, i: nat)
    ensures Test(Pow2(k), i) <==> i == k
  {
    if k == 0 {
      if i > 0 { TestZero(i - 1); }
    } else if i > 0 {
      assert Pow2(k) / 2 == Pow2(k - 1);
      TestPow2(k - 1, i - 1);
    }
  }

  /** 2^k - 1 has exactly the bits below k. */
  lemma {:induction false} TestLowBits(k: nat, i: nat)
    ensures Test(Pow2(k) - 1, i) <==> i < k
  {
    if k == 0 {
      TestZero(i);
    } else if i > 0 {
      assert (Pow2(k) - 1) / 2 == Pow2(k - 1) - 1;
      TestLowBits(k - 1, i - 1);
    }
  }

  /** Masking with one bit is non-zero exactly when the bit is set. */
  lemma {:induction false} AndPow2(m: nat, k: nat)
    ensures And(m, Pow2(k)) != 0 <==> Test(m, k)
  {
    if k == 0 {
      AndZero(m / 2);
      assert Pow2(0) / 2 == 0;
    } else {
      assert Pow2(k) / 2 == Pow2(k - 1) && Pow2(k) % 2 == 0;
      AndPow2(m / 2, k - 1);
    }
  }

  lemma {:induction false} AndZero(m: nat)
    ensures And(m, 0) == 0
  {
    if m > 0 { AndZero(m / 2); }
  }

  /** | stays within the width of its operands. */
  lemma {:induction false} OrBound(a: nat, b: nat, k: nat)
    requires a < Pow2(k) && b < Pow2(k)
    ensures Or(a, b) < Pow2(k)
  {
    if k > 0 {
      OrBound(a / 2, b / 2, k - 1);
    }
  }

  lemma {:induction false} Pow2Monotone(a: nat, b: nat)
    requires a <= b
    ensures Pow2(a) <= Pow2(b)
    ensures a < b ==> Pow2(a) < Pow2(b)
  {
    if a < b { Pow2Monotone(a, b - 1); }
  }
}
