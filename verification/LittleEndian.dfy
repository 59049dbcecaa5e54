/** Fixed-width little-endian numbers, as pages and log records store them. */
module LittleEndian {
  import opened Keys

  function Pow256(w: nat): (p: nat)
    ensures p > 0
  {
    if w == 0 then 1 else 256 * Pow256(w - 1)
  }

  /** The low `w` bytes of `n`, lowest first: a cast to `w` bytes, then a memcpy. */
  function LE(n: nat, w: nat): (b: Bytes)
    ensures |b| == w
  {
    if w == 0 then [] else [(n % 256) as Byte] + LE(n / 256, w - 1)
  }

  /** Byte `i` is the digit of weight 256 to the `i`. */
  lemma {:induction false} DigitOf(n: nat, w: nat, i: nat)
    requires i < w
    ensures LE(n, w)[i] as nat == n / Pow256(i) % 256
  {
    if i > 0 {
      DigitOf(n / 256, w - 1, i - 1);
      DivideTwice(n, 256, Pow256(i - 1));
    }
  }

  lemma DivideTwice(n: nat, a: nat, b: nat)
    requires a > 0 && b > 0
    ensures a * b > 0 && n / a / b == n / (a * b)
  {
    var x := n / a;
    Combine(n, a, b, x, n % a, x / b, x % b);
    Quotient(n, a * b, x / b, a * (x % b) + n % a);
  }

  lemma Combine(n: nat, a: nat, b: nat, x: nat, s: nat, q: nat, r: nat)
    requires n == a * x + s && s < a && x == b * q + r && r < b
    ensures a * b > 0 && a * r + s < a * b && n == a * b * q + (a * r + s)
  {
    Distribute(a, b, q, r);
    Below(a, b, r, s);
  }

  lemma Distribute(a: nat, b: nat, q: nat, r: nat)
    ensures a * (b * q + r) == a * b * q + a * r
  {
  }

  lemma Below(a: nat, b: nat, r: nat, s: nat)
    requires r < b && s < a
    ensures a * r + s < a * b
  {
    assert a * r + a <= a * b by { assert a * (r + 1) <= a * b; }
  }

  lemma Quotient(n: nat, d: nat, q: nat, r: nat)
    requires d > 0 && r < d && n == d * q + r
    ensures n / d == q
  {
    var k := n / d;
    assert n == d * k + n % d;
    assert d * (k - q) == r - n % d;
    Multiples(d, k - q);
  }

  lemma Multiples(d: nat, x: int)
    ensures (x >= 1 ==> d * x >= d) && (x <= -1 ==> d * x + d <= 0)
  {
  }

  function FromLE(b: Bytes): (n: nat)
    ensures n < Pow256(|b|)
  {
    if b == [] then 0 else b[0] as nat + 256 * FromLE(b[1..])
  }

  /** A number that fits in `w` bytes survives them. */
  lemma {:induction false} FromTo(n: nat, w: nat)
    requires n < Pow256(w)
    ensures FromLE(LE(n, w)) == n
  {
    if w > 0 {
      assert n / 256 < Pow256(w - 1);
      FromTo(n / 256, w - 1);
      assert LE(n, w)[1..] == LE(n / 256, w - 1);
    }
  }

  lemma {:induction false} ToFrom(b: Bytes)
    ensures LE(FromLE(b), |b|) == b
  {
    if b != [] {
      ToFrom(b[1..]);
      Digits(b[0] as nat, FromLE(b[1..]));
      assert b == [b[0]] + b[1..];
    }
  }

  lemma Digits(d: nat, m: nat)
    requires d < 256
    ensures (d + 256 * m) % 256 == d && (d + 256 * m) / 256 == m
  {
  }

  lemma Powers()
    ensures Pow256(1) == 0x100 && Pow256(2) == 0x1_0000 && Pow256(4) == 0x1_0000_0000
            && Pow256(8) == 0x1_0000_0000_0000_0000
  {
    assert Pow256(3) == 256 * Pow256(2);
    assert Pow256(5) == 256 * Pow256(4);
    assert Pow256(6) == 256 * Pow256(5);
    assert Pow256(7) == 256 * Pow256(6);
  }

  // ------------------------------------------------------------ bytes as bit vectors

  /** The binary digit of weight `w`, and the bit that stands for it. */
  function Digit(n: nat, w: nat): (d: nat)
    requires w > 0
    ensures d < 2
  {
    n / w % 2
  }

  function Bit(n: nat, w: nat, b: bv8): bv8
    requires w > 0
  {
    if Digit(n, w) == 1 then b else 0
  }

  function BitsOf(n: nat): bv8
  {
    Bit(n, 1, 1) | Bit(n, 2, 2) | Bit(n, 4, 4) | Bit(n, 8, 8) | Bit(n, 16, 16) | Bit(n, 32, 32) | Bit(n, 64, 64)
    | Bit(n, 128, 128)
  }

  lemma CastIsBits(x: Byte)
    ensures x as bv8 == BitsOf(x as nat)
  {
  }

  lemma SameDigits(n: nat, m: nat)
    requires BitsOf(n) == BitsOf(m)
    ensures Digit(n, 1) == Digit(m, 1) && Digit(n, 2) == Digit(m, 2) && Digit(n, 4) == Digit(m, 4)
    ensures Digit(n, 8) == Digit(m, 8) && Digit(n, 16) == Digit(m, 16) && Digit(n, 32) == Digit(m, 32)
    ensures Digit(n, 64) == Digit(m, 64) && Digit(n, 128) == Digit(m, 128)
  {
    hide Digit;
  }

  lemma Halve(n: nat, w: nat)
    requires w > 0
    ensures n / w == 2 * (n / (2 * w)) + Digit(n, w)
  {
    DivideTwice(n, w, 2);
    assert w * 2 == 2 * w;
  }

  lemma DigitsDecide(n: nat, m: nat)
    requires n < 256 && m < 256 && BitsOf(n) == BitsOf(m)
    ensures n == m
  {
    hide Digit, BitsOf;
    SameDigits(n, m);
    OneUp(n, m, 128);
    OneUp(n, m, 64);
    OneUp(n, m, 32);
    OneUp(n, m, 16);
    OneUp(n, m, 8);
    OneUp(n, m, 4);
    OneUp(n, m, 2);
    OneUp(n, m, 1);
  }

  lemma OneUp(n: nat, m: nat, w: nat)
    requires w > 0 && n / (2 * w) == m / (2 * w) && Digit(n, w) == Digit(m, w)
    ensures n / w == m / w
  {
    Halve(n, w);
    Halve(m, w);
  }

  /** The cast of a byte to eight bits loses nothing. */
  lemma CastInjective(x: Byte, y: Byte)
    requires x as bv8 == y as bv8
    ensures x == y
  {
    hide BitsOf;
    CastIsBits(x);
    CastIsBits(y);
    DigitsDecide(x as nat, y as nat);
  }
}
