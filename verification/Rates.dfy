/** Fractions of counts.  `Scaled(h, n)` is h times n; it is defined by repeated addition so that
    sums of such products stay linear. */
module Rates {
  ghost function Scaled(h: real, n: nat): real {
    if n == 0 then 0.0 else Scaled(h, n - 1) + h
  }

  lemma {:induction false} ScaledIsProduct(h: real, n: nat)
    ensures Scaled(h, n) == h * n as real
  {
    if n > 0 {
      ScaledIsProduct(h, n - 1);
      Distribute(h, (n - 1) as real, 1.0);
    }
  }

  lemma Distribute(h: real, s: real, n: real)
    ensures h * (s + n) == h * s + h * n
  {
  }

  lemma {:induction false} ScaledSum(h: real, m: nat, n: nat)
    ensures Scaled(h, m + n) == Scaled(h, m) + Scaled(h, n)
  {
    if n > 0 {
      ScaledSum(h, m, n - 1);
      assert m + n - 1 == m + (n - 1);
    }
  }

  lemma {:induction false} ScaledMonotone(a: real, b: real, n: nat)
    requires a <= b
    ensures Scaled(a, n) <= Scaled(b, n)
  {
    if n > 0 { ScaledMonotone(a, b, n - 1); }
  }

  /** m / n, times n, is m. */
  lemma RateTimesCount(m: real, n: nat)
    requires n > 0
    ensures Scaled(m / n as real, n) == m
  {
    ScaledIsProduct(m / n as real, n);
  }

  lemma SignOfFactor(x: real, n: real)
    requires n > 0.0 && x * n <= 0.0
    ensures x <= 0.0
  {
  }

  lemma RateAtMost(m: real, n: nat, hi: real)
    requires n > 0 && m <= Scaled(hi, n)
    ensures m / n as real <= hi
  {
    ScaledIsProduct(hi, n);
    ScaledIsProduct(m / n as real, n);
    SignOfFactor(m / n as real - hi, n as real);
  }

  lemma RateAtLeast(m: real, n: nat, lo: real)
    requires n > 0 && Scaled(lo, n) <= m
    ensures lo <= m / n as real
  {
    ScaledIsProduct(lo, n);
    ScaledIsProduct(m / n as real, n);
    SignOfFactor(lo - m / n as real, n as real);
  }

  lemma FractionBounds(m: nat, n: nat)
    requires m <= n && n > 0
    ensures 0.0 <= m as real / n as real <= 1.0
    ensures Scaled(m as real / n as real, n) == m as real
    ensures m as real / n as real == 0.0 <==> m == 0
  {
    ScaledIsProduct(1.0, n);
    ScaledIsProduct(0.0, n);
    RateAtMost(m as real, n, 1.0);
    RateAtLeast(m as real, n, 0.0);
    RateTimesCount(m as real, n);
  }
}
