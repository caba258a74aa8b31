/** Bitwise operations on machine words held as naturals, and the division facts behind them. */
module Bits {

  lemma {:induction false} MultiplyMonotone(a: nat, b: nat, p: nat)
    requires a <= b
    ensures a * p <= b * p
    decreases b
  {
    if a < b {
      MultiplyMonotone(a, b - 1, p);
    }
  }

  lemma QuotientUnique(q: nat, r: nat, d: nat, m: nat, p: nat)
    requires q * p + r == d * p + m && r < p && m < p
    ensures q == d
  {
    if d < q {
      MultiplyMonotone(d + 1, q, p);
    } else if q < d {
      MultiplyMonotone(q + 1, d, p);
    }
  }

  lemma DivideRow(q: nat, p: nat, r: nat)
    requires r < p
    ensures (q * p + r) / p == q && (q * p + r) % p == r
  {
    var x := q * p + r;
    QuotientUnique(q, r, x / p, x % p, p);
  }

  function Pow2(n: nat): (r: nat)
    ensures r > 0
  {
    if n == 0 then 1 else 2 * Pow2(n - 1)
  }

  lemma {:induction false} Pow2Monotone(m: nat, n: nat)
    requires m <= n
    ensures Pow2(m) <= Pow2(n)
    decreases n
  {
    if m < n {
      Pow2Monotone(m, n - 1);
    }
  }

  lemma {:induction false} Pow2Sum(m: nat, n: nat)
    ensures Pow2(m + n) == Pow2(m) * Pow2(n)
  {
    if m > 0 {
      Pow2Sum(m - 1, n);
      assert Pow2(m + n) == 2 * Pow2(m - 1 + n) == 2 * (Pow2(m - 1) * Pow2(n)) == Pow2(m) * Pow2(n);
    }
  }

  lemma Pow2Values()
    ensures Pow2(6) == 0x40 && Pow2(8) == 0x100 && Pow2(16) == 0x1_0000 && Pow2(17) == 0x2_0000
    ensures Pow2(32) == 0x1_0000_0000
  {
    assert Pow2(6) == 0x40 && Pow2(8) == 0x100;
    Pow2Sum(8, 8);
    Pow2Sum(16, 16);
  }

  lemma DivideBasics(a: nat, p: nat)
    requires p > 0
    ensures a == (a / p) * p + a % p && a % p < p && a % p <= a
  {
  }

  /** Two numbers have the same quotient exactly if the second lies in the span of the first. */
  lemma SameQuotient(a: nat, b: nat, p: nat)
    requires p > 0
    ensures a / p == b / p <==> a - a % p <= b < a - a % p + p
  {
    DivideBasics(a, p);
    DivideBasics(b, p);
    var q, start := a / p, a - a % p;
    if start <= b < start + p {
      QuotientUnique(q, b - start, b / p, b % p, p);
    }
  }

  /** Bitwise and. */
  function And(a: nat, b: nat): nat
    decreases a
  {
    if a == 0 || b == 0 then 0
    else 2 * And(a / 2, b / 2) + if a % 2 == 1 && b % 2 == 1 then 1 else 0
  }

  lemma HalveModulo(v: nat, p: nat)
    requires p > 0
    ensures v % (2 * p) == 2 * ((v / 2) % p) + v % 2
  {
    var q := (v / 2) / p;
    var r := (v / 2) % p;
    assert v / 2 == q * p + r;
    assert q * (2 * p) == 2 * (q * p);
    DivideRow(q, 2 * p, 2 * r + v % 2);
  }

  /** Masking with the low `h` bits keeps the remainder modulo 2^h. */
  lemma {:induction false} AndLowMask(v: nat, h: nat)
    ensures And(v, Pow2(h) - 1) == v % Pow2(h)
  {
    if h > 0 {
      var p := Pow2(h - 1);
      AndLowMask(v / 2, h - 1);
      HalveModulo(v, p);
      LowMaskStep(v, p, v % (2 * p), (v / 2) % p);
    } else {
      assert v % 1 == 0;
    }
  }

  lemma LowMaskStep(v: nat, p: nat, r: nat, s: nat)
    requires p > 0 && And(v / 2, p - 1) == s && r == 2 * s + v % 2
    ensures And(v, 2 * p - 1) == r
  {
    assert (2 * p - 1) / 2 == p - 1 && (2 * p - 1) % 2 == 1;
    if v == 0 {
      assert s == And(0, p - 1) == 0;
    }
  }

  lemma SmallModulo(v: nat, p: nat)
    requires v < p
    ensures v % p == v && v % 1 == 0
  {
  }

  /** Masking an n-bit word with ones above bit `h` clears its low `h` bits. */
  lemma {:induction false} AndHighMask(v: nat, h: nat, n: nat)
    requires v < Pow2(n) && h <= n
    ensures Pow2(h) <= Pow2(n) && And(v, Pow2(n) - Pow2(h)) == v - v % Pow2(h)
    decreases h
  {
    Pow2Monotone(h, n);
    if h == 0 {
      AndLowMask(v, n);
      SmallModulo(v, Pow2(n));
    } else {
      var p, q := Pow2(h - 1), Pow2(n - 1);
      assert Pow2(h) == 2 * p && Pow2(n) == 2 * q;
      AndHighMask(v / 2, h - 1, n - 1);
      HalveModulo(v, p);
      HighMaskStep(v, q - p, v % (2 * p), (v / 2) % p);
      assert 2 * q - 2 * p == 2 * (q - p);
    }
  }

  lemma HighMaskStep(v: nat, mask: nat, r: nat, s: nat)
    requires And(v / 2, mask) == v / 2 - s && r == 2 * s + v % 2
    ensures And(v, 2 * mask) == v - r
  {
    assert (2 * mask) / 2 == mask && (2 * mask) % 2 == 0;
  }
}
