/** Bitwise or on natural numbers and when it is a sum; quotient and remainder. */
module Bits {
  function Pow2(k: nat): (r: nat)
    ensures r > 0
  {
    if k == 0 then 1 else 2 * Pow2(k - 1)
  }

  function Or(a: nat, b: nat): nat
    decreases a + b
  {
    if a == 0 then b
    else if b == 0 then a
    else (if a % 2 == 1 || b % 2 == 1 then 1 else 0) + 2 * Or(a / 2, b / 2)
  }

  /** No bit is set in both: `a` stays below bit `k`, the other number begins there. */
  lemma {:induction false} OrIsSum(a: nat, c: nat, k: nat)
    requires a < Pow2(k)
    ensures Or(a, c * Pow2(k)) == a + c * Pow2(k) == Or(c * Pow2(k), a)
    decreases k
  {
    if a != 0 && c != 0 {
      var half := c * Pow2(k - 1);
      assert c * Pow2(k) == 2 * half;
      OrIsSum(a / 2, c, k - 1);
      OrOfEven(a, half);
    }
  }

  lemma OrOfEven(a: nat, half: nat)
    requires a > 0 && half > 0
    ensures Or(a, 2 * half) == a % 2 + 2 * Or(a / 2, half)
    ensures Or(2 * half, a) == a % 2 + 2 * Or(half, a / 2)
  {
  }

  lemma DivMod(x: int, m: int, q: int, r: int)
    requires m > 0 && x == m * q + r && 0 <= r < m
    ensures x / m == q && x % m == r
  {
    var d := x / m - q;
    assert x == m * (x / m) + x % m;
    assert m * d == m * (x / m) - m * q == r - x % m;
    assert d >= 1 ==> m * d >= m;
    assert d <= -1 ==> m * d + m <= 0;
  }
}
