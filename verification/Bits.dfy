// 32-bit words, truncating division, and the bits of natural numbers.

module Arithmetic {

  const UINT32_MAX: nat := 0xFFFF_FFFF

  type Byte = b: int | 0 <= b < 256

  // Conversion to uint32_t.
  function Wrap(v: int): nat { v % 0x1_0000_0000 }

  lemma MulBounds(m: nat, d: int)
    ensures d > 0 ==> m * d >= m
    ensures d < 0 ==> m * d + m <= 0
  {
  }

  lemma DivisionIs(a: nat, m: nat, q: nat, r: nat)
    requires m > 0 && a == m * q + r && r < m
    ensures a / m == q && a % m == r
  {
    var d := a / m - q;
    assert m * (a / m) + a % m == a;
    assert m * d == m * (a / m) - m * q;
    MulBounds(m, d);
  }

  // Truncating twice is truncating once.
  lemma DivDiv(a: nat, b: nat, c: nat)
    requires b > 0 && c > 0
    ensures b * c > 0 && (a / b) / c == a / (b * c)
  {
    MulBounds(b, c);
    Twice(a, b, c, a / b, a % b, (a / b) / c, (a / b) % c);
  }

  lemma Twice(a: nat, b: nat, c: nat, q: nat, r: nat, p: nat, t: nat)
    requires b * c > 0 && a == b * q + r && r < b && q == c * p + t && t < c
    ensures a / (b * c) == p
  {
    Distribute(b, c, p, t);
    DivDivRemainder(b, c, r, t);
    DivisionIs(a, b * c, p, b * t + r);
  }

  lemma Distribute(b: nat, c: nat, p: nat, t: nat)
    ensures b * (c * p + t) == (b * c) * p + b * t
  {
  }

  lemma DivDivRemainder(b: nat, c: nat, r: nat, t: nat)
    requires r < b && t < c
    ensures b * t + r < b * c
  {
    MulBounds(b, c - t);
    assert b * (c - t) == b * c - b * t;
  }
}

module Bits {
  import opened Arithmetic
  // A word as its bits; index i is bit i.
  type BitWord = w: seq<bool> | |w| == 32 witness seq(32, _ => false)

  datatype BitOp = Or | AndNot | Xor

  function OnBits(op: BitOp, a: bool, b: bool): bool {
    match op
    case Or => a || b
    case AndNot => a && !b
    case Xor => a != b
  }

  function Pow2(n: nat): (r: nat)
    ensures r > 0
  {
    if n == 0 then 1 else 2 * Pow2(n - 1)
  }

  function Bit(x: nat, i: nat): bool { if i == 0 then x % 2 == 1 else Bit(x / 2, i - 1) }

  // The low n bits of x op y.
  function Bitwise(op: BitOp, x: nat, y: nat, n: nat): (r: nat)
    ensures r < Pow2(n)
  {
    if n == 0 then 0
    else 2 * Bitwise(op, x / 2, y / 2, n - 1) + (if OnBits(op, x % 2 == 1, y % 2 == 1) then 1 else 0)
  }

  lemma {:induction false} BitwiseBit(op: BitOp, x: nat, y: nat, n: nat, i: nat)
    requires i < n
    ensures Bit(Bitwise(op, x, y, n), i) == OnBits(op, Bit(x, i), Bit(y, i))
  {
    if i > 0 {
      BitwiseBit(op, x / 2, y / 2, n - 1, i - 1);
      var r := Bitwise(op, x / 2, y / 2, n - 1);
      assert Bitwise(op, x, y, n) / 2 == r;
    }
  }

  lemma Pow2Widths()
    ensures Pow2(8) == 0x100 && Pow2(16) == 0x1_0000 && Pow2(32) == 0x1_0000_0000
  {
    assert Pow2(8) == 0x100;
    assert Pow2(16) == 0x1_0000;
    assert Pow2(24) == 0x100_0000;
  }

  lemma HalfMod(v: nat, m: nat)
    requires m > 0
    ensures (v % (2 * m)) / 2 == (v / 2) % m && (v % (2 * m)) % 2 == v % 2
  {
    var q, r := v / (2 * m), v % (2 * m);
    assert v == 2 * (m * q) + r by { assert (2 * m) * q == 2 * (m * q); }
    assert v / 2 == m * q + r / 2;
    DivisionIs(v / 2, m, q, r / 2);
  }

  lemma {:induction false} LowBits(v: nat, n: nat, i: nat)
    requires i < n
    ensures Bit(v % Pow2(n), i) == Bit(v, i)
  {
    HalfMod(v, Pow2(n - 1));
    if i > 0 { LowBits(v / 2, n - 1, i - 1); }
  }

  lemma ClearStep(x: nat, m: nat)
    requires m > 0
    ensures 2 * (x / 2 - (x / 2) % m) == x - x % (2 * m)
  {
    HalfMod(x, m);
    var low, half := x % (2 * m), (x / 2) % m;
    assert low / 2 == half && low % 2 == x % 2;
  }

  lemma {:induction false} ClearNone(x: nat, n: nat)
    requires x < Pow2(n)
    ensures Bitwise(AndNot, x, 0, n) == x
  {
    if n > 0 { ClearNone(x / 2, n - 1); }
  }

  lemma ClearOdd(x: nat, m: nat, n: nat)
    requires m > 0 && n > 0
    ensures Bitwise(AndNot, x, 2 * m - 1, n) == 2 * Bitwise(AndNot, x / 2, m - 1, n - 1)
  {
    assert (2 * m - 1) / 2 == m - 1 && (2 * m - 1) % 2 == 1;
  }

  // Masking off the low k bits.
  lemma {:induction false} ClearLow(x: nat, k: nat, n: nat)
    requires k <= n && x < Pow2(n)
    ensures Bitwise(AndNot, x, Pow2(k) - 1, n) == x - x % Pow2(k)
  {
    if k == 0 {
      ClearNone(x, n);
    } else {
      var m := Pow2(k - 1);
      assert x / 2 < Pow2(n - 1);
      ClearLow(x / 2, k - 1, n - 1);
      ClearOdd(x, m, n);
      ClearStep(x, m);
    }
  }

  // Masking off any bits: at most the mask is lost, and no bit of the mask is left.
  lemma {:induction false} ClearBounds(x: nat, y: nat, n: nat)
    requires x < Pow2(n) && y < Pow2(n)
    ensures var r := Bitwise(AndNot, x, y, n);
      r <= x <= r + y && r + y < Pow2(n)
  {
    if n > 0 { ClearBounds(x / 2, y / 2, n - 1); }
  }

  lemma {:induction false} ClearSelf(x: nat, n: nat)
    ensures Bitwise(AndNot, x, x, n) == 0
  {
    if n > 0 { ClearSelf(x / 2, n - 1); }
  }

  // a & ~(a - 1) is the lowest bit of a.
  lemma {:induction false} LowestBit(a: nat, n: nat)
    requires 0 < a < Pow2(n)
    ensures var r := Bitwise(AndNot, a, a - 1, n);
      0 < r <= a && (r == a ==> exists k: nat :: k < n && a == Pow2(k))
  {
    var r := Bitwise(AndNot, a, a - 1, n);
    if a % 2 == 1 {
      assert (a - 1) / 2 == a / 2;
      ClearSelf(a / 2, n - 1);
      assert Pow2(0) == 1;
    } else {
      assert (a - 1) / 2 == a / 2 - 1;
      LowestBit(a / 2, n - 1);
      var h := Bitwise(AndNot, a / 2, a / 2 - 1, n - 1);
      assert r == 2 * h;
      if r == a {
        var k: nat :| k < n - 1 && a / 2 == Pow2(k);
        assert Pow2(k + 1) == a;
      }
    }
  }

  // A top bit that is not in the mask stays.
  lemma {:induction false} TopBitStays(x: nat, y: nat, n: nat)
    requires n > 0 && Pow2(n - 1) <= x < Pow2(n) && y < Pow2(n - 1)
    ensures Bitwise(AndNot, x, y, n) >= Pow2(n - 1)
  {
    if n > 1 { TopBitStays(x / 2, y / 2, n - 1); }
  }

  // A top bit that is in both goes.
  lemma {:induction false} TopBitGoes(x: nat, y: nat, n: nat)
    requires n > 0 && Pow2(n - 1) <= x < Pow2(n) && Pow2(n - 1) <= y < Pow2(n)
    ensures Bitwise(AndNot, x, y, n) == Bitwise(AndNot, x - Pow2(n - 1), y - Pow2(n - 1), n - 1)
  {
    if n > 1 {
      var p := Pow2(n - 2);
      assert Pow2(n - 1) == 2 * p;
      TopBitGoes(x / 2, y / 2, n - 1);
      assert (x - 2 * p) / 2 == x / 2 - p && (y - 2 * p) / 2 == y / 2 - p;
      assert (x - 2 * p) % 2 == x % 2 && (y - 2 * p) % 2 == y % 2;
    }
  }
}
