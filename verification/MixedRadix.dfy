/** Four digits in mixed radix: the arithmetic behind the fields of an identifier. */
module MixedRadix {
  import opened Bits

  /** `high`, then digits x, y and z in bases d, w and s. */
  function Horner(high: int, d: int, x: int, w: int, y: int, s: int, z: int): int {
    ((high * d + x) * w + y) * s + z
  }

  predicate Digits(d: int, x: int, w: int, y: int, s: int, z: int) {
    0 <= x < d && 0 <= y < w && 0 <= z < s
  }

  lemma {:induction false} MulAssociates(a: int, b: int, c: int)
    ensures (a * b) * c == a * (b * c)
  {
  }

  lemma {:induction false} Distribute(a: int, b: int, c: int)
    ensures (a + b) * c == a * c + b * c
  {
  }

  lemma {:induction false} MulPositive(a: int, b: int)
    requires a > 0 && b > 0
    ensures a * b > 0
  {
  }

  lemma {:induction false} MulMonotone(a: int, b: int, c: int)
    requires a <= b && c >= 0
    ensures a * c <= b * c
  {
  }

  /** A smaller leading part wins over any digit. */
  lemma {:induction false} DigitAscends(a: int, b: int, base: int, x: int, y: int)
    requires a < b && 0 <= x < base && 0 <= y
    ensures a * base + x < b * base + y
  {
    MulMonotone(a + 1, b, base);
    Distribute(a, 1, base);
  }

  lemma {:induction false} DivTwice(x: int, a: int, b: int)
    requires a > 0 && b > 0
    ensures a * b > 0 && x / (a * b) == (x / a) / b
  {
    var q := x / a;
    QuotientOfQuotient(x, a, b, q, x % a, q / b, q % b);
  }

  lemma {:induction false} QuotientOfQuotient(x: int, a: int, b: int, q: int, r: int, q2: int, r2: int)
    requires a > 0 && b > 0
    requires x == q * a + r && 0 <= r < a
    requires q == q2 * b + r2 && 0 <= r2 < b
    ensures a * b > 0 && x / (a * b) == q2
  {
    MulPositive(a, b);
    DigitAscends(r2, b, a, r, 0);
    MulMonotone(0, r2, a);
    Distribute(q2 * b, r2, a);
    MulAssociates(q2, b, a);
    MulCommutes(a, b);
    DivModUnique(x, a * b, q2, r2 * a + r);
  }

  lemma {:induction false} MulCommutes(a: int, b: int)
    ensures a * b == b * a
  {
  }

  /** Horner's form with every digit scaled by the product of the bases below it. */
  lemma {:induction false} HornerScaled(high: int, d: int, x: int, w: int, y: int, s: int, z: int)
    ensures Horner(high, d, x, w, y, s, z) == high * (d * (w * s)) + x * (w * s) + y * s + z
  {
    calc {
      ((high * d + x) * w + y) * s;
      { Distribute((high * d + x) * w, y, s); }
      ((high * d + x) * w) * s + y * s;
      { MulAssociates(high * d + x, w, s); }
      (high * d + x) * (w * s) + y * s;
      { Distribute(high * d, x, w * s); MulAssociates(high, d, w * s); }
      high * (d * (w * s)) + x * (w * s) + y * s;
    }
  }

  /** The digits are what division reads back. */
  lemma {:induction false} HornerDigits(high: int, d: int, x: int, w: int, y: int, s: int, z: int)
    requires Digits(d, x, w, y, s, z)
    ensures w * s > 0 && d * (w * s) > 0
    ensures var n := Horner(high, d, x, w, y, s, z);
            n % s == z && (n / s) % w == y && (n / (w * s)) % d == x && n / (d * (w * s)) == high
  {
    var n := Horner(high, d, x, w, y, s, z);
    DivModUnique(n, s, (high * d + x) * w + y, z);
    DivModUnique((high * d + x) * w + y, w, high * d + x, y);
    DivModUnique(high * d + x, d, high, x);
    BasesMultiply(n, d, w, s);
  }

  lemma {:induction false} BasesMultiply(n: int, d: int, w: int, s: int)
    requires d > 0 && w > 0 && s > 0
    ensures w * s > 0 && d * (w * s) > 0
    ensures n / (w * s) == (n / s) / w && n / (d * (w * s)) == ((n / s) / w) / d
  {
    DivTwice(n, s, w);
    assert s * w == w * s;
    DivTwice(n, w * s, d);
    assert (w * s) * d == d * (w * s);
  }

  /** Reading the digits of a number and putting them together again restores it. */
  lemma {:induction false} HornerRestores(n: int, d: int, w: int, s: int)
    requires d > 0 && w > 0 && s > 0
    ensures w * s > 0 && d * (w * s) > 0
    ensures Horner(n / (d * (w * s)), d, (n / (w * s)) % d, w, (n / s) % w, s, n % s) == n
  {
    BasesMultiply(n, d, w, s);
    var middle := n / s;
    var upper := middle / w;
    assert upper == (upper / d) * d + upper % d;
    assert middle == upper * w + middle % w;
  }

  /** The leading part alone decides on which side of a multiple of all bases a number lies. */
  lemma {:induction false} HornerBound(high: int, d: int, x: int, w: int, y: int, s: int, z: int, m: int)
    requires Digits(d, x, w, y, s, z)
    ensures high < m <==> Horner(high, d, x, w, y, s, z) < m * (d * (w * s))
    ensures high >= 0 ==> Horner(high, d, x, w, y, s, z) >= 0
  {
    var n, t := Horner(high, d, x, w, y, s, z), d * (w * s);
    HornerDigits(high, d, x, w, y, s, z);
    LeadingPart(n, t, high, n % t, m);
  }

  lemma {:induction false} LeadingPart(n: int, t: int, high: int, r: int, m: int)
    requires t > 0 && n == high * t + r && 0 <= r < t
    ensures high < m <==> n < m * t
    ensures high >= 0 ==> n >= 0
  {
    if high < m {
      DigitAscends(high, m, t, r, 0);
    } else {
      MulMonotone(m, high, t);
    }
    if high >= 0 {
      MulMonotone(0, high, t);
    }
  }

  /** Numbers are ordered as their digits are, most significant first. */
  lemma {:induction false} HornerAscends(high: int, x: int, y: int, z: int, high': int, x': int, y': int, z': int,
                                         d: int, w: int, s: int)
    requires Digits(d, x, w, y, s, z) && Digits(d, x', w, y', s, z')
    requires high < high' || (high == high' && (x < x' || (x == x' && (y < y' || (y == y' && z < z')))))
    ensures Horner(high, d, x, w, y, s, z) < Horner(high', d, x', w, y', s, z')
  {
    var upper, upper' := high * d + x, high' * d + x';
    if high < high' {
      DigitAscends(high, high', d, x, x');
    }
    var middle, middle' := upper * w + y, upper' * w + y';
    if upper < upper' {
      DigitAscends(upper, upper', w, y, y');
    }
    if middle < middle' {
      DigitAscends(middle, middle', s, z, z');
    }
  }
}
