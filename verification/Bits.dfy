/** Powers of two and the machine operators that identifiers are packed and unpacked with. */
module Bits {

  function Pow2(n: nat): (p: nat)
    ensures p > 0
  {
    if n == 0 then 1 else 2 * Pow2(n - 1)
  }

  /** Bitwise conjunction, one binary digit at a time. */
  function And(a: nat, b: nat): nat {
    if a == 0 || b == 0 then 0
    else 2 * And(a / 2, b / 2) + (if a % 2 == 1 && b % 2 == 1 then 1 else 0)
  }

  /** Bitwise disjunction, one binary digit at a time. */
  function Or(a: nat, b: nat): nat {
    if a == 0 then b
    else if b == 0 then a
    else 2 * Or(a / 2, b / 2) + (if a % 2 == 1 || b % 2 == 1 then 1 else 0)
  }

  /** The bit pattern of the 64-bit `x << n`: whatever leaves the word is lost. */
  function Shl64(x: int, n: nat): nat {
    (x * Pow2(n)) % Pow2(64)
  }

  /** `x >> n` of a non-negative word. */
  function Shr(x: nat, n: nat): nat {
    DivNonNegative(x, Pow2(n));
    x / Pow2(n)
  }

  /** The int64 whose two's complement bit pattern is `word`. */
  function Signed64(word: nat): int
    requires word < Pow2(64)
  {
    if word < Pow2(63) then word else word - Pow2(64)
  }

  lemma {:induction false} DivNonNegative(x: int, d: int)
    requires x >= 0 && d > 0
    ensures x / d >= 0
  {
  }

  lemma {:induction false} Pow2Add(m: nat, n: nat)
    ensures Pow2(m + n) == Pow2(m) * Pow2(n)
  {
    if m == 0 {
    } else {
      Pow2Add(m - 1, n);
      assert Pow2(m + n) == 2 * (Pow2(m - 1) * Pow2(n));
    }
  }

  lemma {:induction false} Pow2Monotone(m: nat, n: nat)
    requires m <= n
    ensures Pow2(m) <= Pow2(n)
  {
    if m == n {
    } else {
      Pow2Monotone(m, n - 1);
    }
  }

  /** Quotient and remainder are determined by the division equation. */
  lemma {:induction false} DivModUnique(x: int, d: int, q: int, r: int)
    requires d > 0 && x == q * d + r && 0 <= r < d
    ensures x / d == q && x % d == r
  {
    var e := x / d - q;
    assert e * d == r - x % d by {
      assert x == (x / d) * d + x % d;
    }
    assert e >= 1 ==> e * d >= d;
    assert e <= -1 ==> e * d <= -d;
  }

  lemma {:induction false} AndOdd(x: nat, m: nat)
    ensures And(x, 2 * m + 1) == 2 * And(x / 2, m) + x % 2
  {
    assert (2 * m + 1) / 2 == m && (2 * m + 1) % 2 == 1;
  }

  lemma {:induction false} MulDouble(q: int, h: int)
    requires q >= 0 && h >= 0
    ensures q * (2 * h) == 2 * (q * h) >= 0
  {
  }

  /** A number whose part above bit n is `high`, a multiple of 2^n, keeps its low part under the mask. */
  lemma {:induction false} AndMaskLow(q: nat, high: nat, r: nat, n: nat)
    requires high == q * Pow2(n) && r < Pow2(n)
    ensures And(high + r, Pow2(n) - 1) == r
  {
    if n == 0 {
    } else {
      var h := Pow2(n - 1);
      MulDouble(q, h);
      AndMaskLow(q, q * h, r / 2, n - 1);
      AndMaskDoubles(q * h, r, h);
    }
  }

  lemma {:induction false} AndMaskDoubles(high: nat, r: nat, h: nat)
    requires h > 0 && And(high + r / 2, h - 1) == r / 2
    ensures And(2 * high + r, 2 * h - 1) == r
  {
    AndOdd(2 * high + r, h - 1);
    assert (2 * high + r) / 2 == high + r / 2;
    assert 2 * h - 1 == 2 * (h - 1) + 1;
  }

  lemma {:induction false} DivisionEquation(x: int, d: int)
    requires x >= 0 && d > 0
    ensures x == (x / d) * d + x % d && x / d >= 0 && (x / d) * d >= 0 && 0 <= x % d < d
  {
  }

  /** Masking with 2^n - 1 keeps exactly the remainder modulo 2^n. */
  lemma {:induction false} AndMask(x: nat, n: nat)
    ensures And(x, Pow2(n) - 1) == x % Pow2(n)
  {
    var p := Pow2(n);
    DivisionEquation(x, p);
    AndMaskLow(x / p, (x / p) * p, x % p, n);
  }

  /** When the low n bits of one operand are clear and the other fits in them, `|` is `+`. */
  lemma {:induction false} OrDisjoint(high: nat, low: nat, n: nat)
    requires low < Pow2(n)
    ensures Or(high * Pow2(n), low) == high * Pow2(n) + low
  {
    if n == 0 || high == 0 || low == 0 {
    } else {
      var word, half := high * Pow2(n), high * Pow2(n - 1);
      assert word == 2 * half;
      assert half > 0;
      OrDisjoint(high, low / 2, n - 1);
    }
  }

  /** Scaling dividend and divisor alike scales the remainder. */
  lemma {:induction false} ModScale(x: int, m: nat, k: nat)
    requires m > 0 && k > 0
    ensures m * k > 0 && (x * k) % (m * k) == (x % m) * k
  {
    var q, r := x / m, x % m;
    assert m * k > 0;
    assert x * k == q * (m * k) + r * k by {
      assert x == q * m + r;
      assert (q * m) * k == q * (m * k);
    }
    assert (r + 1) * k <= m * k;
    assert (r + 1) * k == r * k + k;
    DivModUnique(x * k, m * k, q, r * k);
  }

  /** A shift keeps the low bits of its operand that still fit in the word. */
  lemma {:induction false} ShlKeepsLowBits(x: int, n: nat)
    requires n <= 64
    ensures Shl64(x, n) == (x % Pow2(64 - n)) * Pow2(n)
  {
    Pow2Add(64 - n, n);
    ModScale(x, Pow2(64 - n), Pow2(n));
  }
}
