/** The few facts of nonlinear arithmetic that the other modules share. */
module Arith {
  lemma {:induction false} MulGe(d: int, m: int)
    requires d >= 1 && m >= 0
    ensures d * m >= m
    decreases d
  {
    if d > 1 {
      MulGe(d - 1, m);
      assert d * m == (d - 1) * m + m;
    }
  }

  /** A product smaller than one of its factors is zero. */
  lemma SmallProduct(d: int, m: int)
    requires -m < d * m < m
    ensures d == 0
  {
    if d >= 1 { MulGe(d, m); }
    if d <= -1 { MulGe(-d, m); }
  }

  lemma DivMod(x: int, m: int)
    requires m > 0
    ensures x == x / m * m + x % m && 0 <= x % m < m
    ensures x >= 0 ==> x / m >= 0
  {
  }

  /** Quotient and remainder are unique. */
  lemma ModUnique(x: int, q: int, m: int, r: int)
    requires 0 <= r < m && x == q * m + r
    ensures x % m == r && x / m == q
  {
    DivMod(x, m);
    var d := x / m - q;
    assert d * m == x / m * m - q * m;
    SmallProduct(d, m);
  }

  lemma MulMono(a: nat, m: nat, s: nat)
    requires a < m && s > 0
    ensures 0 <= a * s && a * s + s <= m * s
  {
    MulGe(m - a, s);
    assert (m - a) * s == m * s - a * s;
  }

  /** Products grow with their factors. */
  lemma MulLe(a: nat, b: nat, m: nat)
    ensures a <= b ==> a * m <= b * m
  {
    if a <= b { MulDistributes(a, b - a, m); }
  }

  lemma MulLt(a: nat, b: nat, m: nat)
    ensures a < b ==> a * m + m <= b * m
  {
    MulLe(a + 1, b, m);
    MulDistributes(a, 1, m);
  }

  lemma MulAssoc(x: int, y: int, z: int)
    ensures (x * y) * z == x * (y * z)
  {
  }

  lemma MulDistributes(x: int, y: int, z: int)
    ensures (x + y) * z == x * z + y * z
  {
  }

  function Pow2(n: nat): (r: nat)
    ensures r > 0
  {
    if n == 0 then 1 else 2 * Pow2(n - 1)
  }

  lemma {:induction false} Pow2Splits(a: nat, b: nat)
    ensures Pow2(a + b) == Pow2(a) * Pow2(b)
  {
    if a > 0 {
      Pow2Splits(a - 1, b);
      MulAssoc(2, Pow2(a - 1), Pow2(b));
    }
  }
}
