/** Remainders and masks, away from everything that uses them. */
module Modular {
  lemma MulAtLeast(m: nat, d: nat)
    requires m >= 1
    ensures m * d >= d
  {
    assert m * d == (m - 1) * d + d;
  }

  /** A quotient and an in-range remainder are the quotient and the remainder. */
  lemma ModUnique(x: int, d: nat, q: int, r: int)
    requires d > 0 && x == q * d + r && 0 <= r < d
    ensures x % d == r
  {
    var q', r' := x / d, x % d;
    assert x == q' * d + r';
    assert (q - q') * d == r' - r && (q' - q) * d == r - r';
    if q > q' {
      MulAtLeast(q - q', d);
    } else if q < q' {
      MulAtLeast(q' - q, d);
    }
  }

  lemma ModOfMod(x: nat, c: nat, d: nat)
    requires c > 0 && d > 0 && c * d > 0
    ensures (x % (c * d)) % c == x % c
  {
    var m := c * d;
    var w, q := x % m, x / m;
    var a, r := w / c, w % c;
    assert x == q * m + w && w == a * c + r;
    assert q * m == (q * d) * c;
    assert (q * d + a) * c == (q * d) * c + a * c;
    ModUnique(x, c, q * d + a, r);
  }

  lemma HalfMod(x: nat, p: nat)
    requires p > 0
    ensures x % (2 * p) == 2 * ((x / 2) % p) + x % 2
  {
    var h := x / 2;
    var q, r := h / p, h % p;
    assert h == q * p + r;
    assert q * (2 * p) == 2 * (q * p);
    ModUnique(x, 2 * p, q, 2 * r + x % 2);
  }

  lemma LastRemainder(c: nat, d: nat)
    requires c > 0 && d > 0
    ensures (c * d - 1) % c == c - 1
  {
    assert (d - 1) * c == c * d - c;
    ModUnique(c * d - 1, c, d - 1, c - 1);
  }

  /** Numbers less than one modulus apart have different remainders. */
  lemma RemaindersDistinct(a: nat, b: nat, d: nat)
    requires a < b < a + d
    ensures a % d != b % d
  {
    if a % d == b % d {
      var q := b / d - a / d;
      assert a == (a / d) * d + a % d && b == (b / d) * d + b % d;
      assert q * d == (b / d) * d - (a / d) * d;
      if q >= 1 {
        MulAtLeast(q, d);
      }
    }
  }
}
