/** The few facts about products and quotients that the block arithmetic needs. */
module Arith {
  lemma MulLe(a: int, b: int, k: int)
    requires a <= b && 0 <= k
    ensures a * k <= b * k
  {
  }

  /** Products compare like their factors. */
  lemma MulLtInv(a: int, b: int, k: int)
    requires a * k < b * k && 0 <= k
    ensures a < b
  {
    if b <= a { MulLe(b, a, k); }
  }

  lemma DivMod(a: nat, b: nat)
    requires b > 0
    ensures a == (a / b) * b + a % b
    ensures 0 <= a % b < b
    ensures 0 <= a / b <= a
  {
    var q := a / b;
    assert a == q * b + a % b;
    if q > a { MulLe(a + 1, q, b); MulLe(1, b, a + 1); }
  }

  /** The quotient is the only number whose multiples bracket the dividend. */
  lemma DivUnique(a: nat, b: nat, q: int)
    requires b > 0 && q * b <= a < (q + 1) * b
    ensures a / b == q && a % b == a - q * b
  {
    DivMod(a, b);
    MulLtInv(q, a / b + 1, b);
    MulLtInv(a / b, q + 1, b);
  }

  /** The rounded-up quotient is the least number of b's that reach a. */
  lemma CeilDiv(a: nat, b: nat, n: nat)
    requires b > 0 && n == if a % b == 0 then a / b else a / b + 1
    ensures n * b >= a && n <= a
    ensures n > 0 ==> (n - 1) * b < a
  {
    DivMod(a, b);
    var q := a / b;
    assert (q + 1) * b == q * b + b && (q - 1) * b == q * b - b;
    if a % b != 0 && q == a && a > 0 { MulLe(1, b, q); }
  }

  lemma DivBelow(x: nat, y: nat, b: nat, n: nat)
    requires b > 0 && x < y <= n * b
    ensures x / b < n
  {
    DivMod(x, b);
    if x / b >= n { MulLe(n, x / b, b); }
  }

  lemma MulMod(q: nat, b: nat)
    requires b > 0
    ensures (q * b) % b == 0 && (q * b) / b == q
  {
    DivUnique(q * b, b, q);
  }
}
