// Polynomials over the field of two elements, as numbers: bit i is the coefficient of x^i.

module BinaryPolynomials {
  import opened Arithmetic
  import opened Bits

  function Plus(a: nat, b: nat): nat
    decreases a + b
  {
    if a + b == 0 then 0 else 2 * Plus(a / 2, b / 2) + (if a % 2 == b % 2 then 0 else 1)
  }

  function Times(q: nat, g: nat): nat { if q == 0 then 0 else Plus(2 * Times(q / 2, g), Term(q % 2 == 1, g)) }

  function Term(present: bool, g: nat): nat { if present then g else 0 }

  // What is left of d by g, which has degree w.
  ghost predicate IsRemainder(d: nat, g: nat, w: nat, r: nat) {
    r < Pow2(w) && exists q: nat :: Divides(d, g, q, r)
  }

  predicate Divides(d: nat, g: nat, q: nat, r: nat) { d == Plus(Times(q, g), r) }

  lemma {:induction false} PlusZero(a: nat)
    ensures Plus(a, 0) == a && Plus(0, a) == a
    decreases a
  {
    if a > 0 { PlusZero(a / 2); }
  }

  lemma {:induction false} PlusComm(a: nat, b: nat)
    ensures Plus(a, b) == Plus(b, a)
    decreases a + b
  {
    if a + b > 0 { PlusComm(a / 2, b / 2); }
  }

  lemma PlusHalves(a: nat, b: nat)
    ensures Plus(a, b) / 2 == Plus(a / 2, b / 2)
    ensures Plus(a, b) % 2 == if a % 2 == b % 2 then 0 else 1
  {
    if a + b == 0 { assert Plus(0, 0) == 0; }
  }

  lemma {:induction false} PlusAssoc(a: nat, b: nat, c: nat)
    ensures Plus(Plus(a, b), c) == Plus(a, Plus(b, c))
    decreases a + b + c
  {
    if a + b + c > 0 {
      PlusAssoc(a / 2, b / 2, c / 2);
      PlusHalves(a, b);
      PlusHalves(b, c);
      PlusHalves(Plus(a, b), c);
      PlusHalves(a, Plus(b, c));
    } else {
      assert Plus(0, 0) == 0;
    }
  }

  lemma {:induction false} PlusSelf(a: nat)
    ensures Plus(a, a) == 0
    decreases a
  {
    if a > 0 { PlusSelf(a / 2); }
  }

  lemma {:induction false} PlusBound(a: nat, b: nat, n: nat)
    requires a < Pow2(n) && b < Pow2(n)
    ensures Plus(a, b) < Pow2(n)
    decreases n
  {
    if n > 0 {
      PlusBound(a / 2, b / 2, n - 1);
      PlusHalves(a, b);
    }
  }

  // A bit that only one of them has stays.
  lemma {:induction false} PlusTop(a: nat, b: nat, n: nat)
    requires b < Pow2(n) <= a
    ensures Plus(a, b) >= Pow2(n)
    decreases n
  {
    if n > 0 {
      PlusTop(a / 2, b / 2, n - 1);
      PlusHalves(a, b);
    } else {
      PlusZero(a);
    }
  }

  lemma {:induction false} PlusNone(a: nat, b: nat)
    requires Plus(a, b) == 0
    ensures a == b
    decreases a + b
  {
    if a + b > 0 {
      PlusHalves(a, b);
      PlusNone(a / 2, b / 2);
    }
  }

  lemma {:induction false} PlusBit(a: nat, b: nat, i: nat)
    ensures Bit(Plus(a, b), i) == (Bit(a, i) != Bit(b, i))
    decreases i
  {
    PlusHalves(a, b);
    if i > 0 { PlusBit(a / 2, b / 2, i - 1); }
  }

  // Multiplication by a power of x.
  function Shift(a: nat, n: nat): nat { if n == 0 then a else 2 * Shift(a, n - 1) }

  lemma {:induction false} ShiftIs(a: nat, n: nat)
    ensures Shift(a, n) == a * Pow2(n)
    decreases n
  {
    if n > 0 {
      ShiftIs(a, n - 1);
      Doubled(a, Pow2(n - 1));
    }
  }

  lemma {:induction false} ShiftPlus(a: nat, b: nat, n: nat)
    ensures Plus(Shift(a, n), Shift(b, n)) == Shift(Plus(a, b), n)
    decreases n
  {
    if n > 0 {
      ShiftPlus(a, b, n - 1);
      PlusDouble(Shift(a, n - 1), Shift(b, n - 1));
    }
  }

  lemma Doubled(a: nat, p: nat)
    ensures a * (2 * p) == 2 * (a * p)
  {
  }

  lemma PlusDouble(a: nat, b: nat)
    ensures Plus(2 * a, 2 * b) == 2 * Plus(a, b)
  {
    PlusHalves(2 * a, 2 * b);
  }

  // Without a common bit it is addition.
  lemma {:induction false} PlusApart(a: nat, b: nat, n: nat)
    requires b < Pow2(n)
    ensures Plus(Shift(a, n), b) == Shift(a, n) + b
    decreases n
  {
    if n == 0 {
      PlusZero(a);
    } else {
      PlusApart(a, b / 2, n - 1);
      PlusHalves(2 * Shift(a, n - 1), b);
    }
  }

  // Four terms, rearranged.
  lemma PlusSwap(a: nat, b: nat, c: nat, d: nat)
    ensures Plus(Plus(a, b), Plus(c, d)) == Plus(Plus(a, c), Plus(b, d))
  {
    PlusAssoc(a, b, Plus(c, d));
    PlusAssoc(b, c, d);
    PlusComm(b, c);
    PlusAssoc(c, b, d);
    PlusAssoc(a, c, Plus(b, d));
  }

  lemma Regroup(a: nat, b: nat, c: nat, d: nat)
    ensures Plus(2 * Plus(a, b), Plus(c, d)) == Plus(Plus(2 * a, c), Plus(2 * b, d))
  {
    PlusDouble(a, b);
    PlusSwap(2 * a, 2 * b, c, d);
  }

  lemma {:induction false} Distributes(p: nat, q: nat, g: nat)
    ensures Times(Plus(p, q), g) == Plus(Times(p, g), Times(q, g))
    decreases p + q
  {
    if p + q > 0 {
      Distributes(p / 2, q / 2, g);
      PlusHalves(p, q);
      TimesIs(p, g);
      TimesIs(q, g);
      TimesIs(Plus(p, q), g);
      OddTerms(p % 2 == 1, q % 2 == 1, g);
      Regroup(Times(p / 2, g), Times(q / 2, g), Term(p % 2 == 1, g), Term(q % 2 == 1, g));
    } else {
      assert Plus(0, 0) == 0;
    }
  }

  lemma TimesIs(q: nat, g: nat)
    ensures Times(q, g) == Plus(2 * Times(q / 2, g), Term(q % 2 == 1, g))
  {
    if q == 0 { assert Plus(0, 0) == 0; }
  }

  lemma OddTerms(a: bool, b: bool, g: nat)
    ensures Plus(Term(a, g), Term(b, g)) == Term(a != b, g)
  {
    PlusSelf(g);
    PlusZero(g);
    PlusZero(0);
  }

  // No multiple has a smaller degree.
  lemma {:induction false} TimesLarge(q: nat, g: nat, w: nat)
    requires q > 0 && Pow2(w) <= g < Pow2(w + 1)
    ensures Times(q, g) >= Pow2(w)
    decreases q
  {
    if q == 1 {
      assert Times(0, g) == 0;
      PlusZero(g);
    } else {
      TimesLarge(q / 2, g, w);
      PlusTop(2 * Times(q / 2, g), Term(q % 2 == 1, g), w + 1);
    }
  }

  // There is only one remainder.
  lemma RemainderUnique(d: nat, g: nat, w: nat, r: nat, s: nat)
    requires Pow2(w) <= g < Pow2(w + 1)
    requires IsRemainder(d, g, w, r) && IsRemainder(d, g, w, s)
    ensures r == s
  {
    var q: nat :| Divides(d, g, q, r);
    var p: nat :| Divides(d, g, p, s);
    PlusSelf(d);
    PlusSwap(Times(q, g), r, Times(p, g), s);
    Distributes(q, p, g);
    PlusNone(Times(Plus(q, p), g), Plus(r, s));
    PlusBound(r, s, w);
    if Plus(q, p) > 0 { TimesLarge(Plus(q, p), g, w); }
    PlusNone(r, s);
  }

  // One more coefficient of the dividend.
  lemma NextRemainder(d: nat, g: nat, q: nat, r: nat, low: nat, f: bool)
    requires Divides(d, g, q, r)
    ensures Divides(Plus(2 * d, low), g, 2 * q + Term(f, 1), Plus(Plus(2 * r, low), Term(f, g)))
  {
    var next := 2 * q + Term(f, 1);
    TimesIs(next, g);
    assert next / 2 == q && (next % 2 == 1) == f;
    Shifted(Times(q, g), r, low, Term(f, g));
  }

  lemma Shifted(t: nat, r: nat, low: nat, e: nat)
    ensures Plus(2 * Plus(t, r), low) == Plus(Plus(2 * t, e), Plus(Plus(2 * r, low), e))
  {
    PlusDouble(t, r);
    PlusAssoc(2 * t, 2 * r, low);
    Cancels(2 * t, e, Plus(2 * r, low));
  }

  lemma Cancels(a: nat, b: nat, c: nat)
    ensures Plus(Plus(a, b), Plus(c, b)) == Plus(a, c)
  {
    PlusSwap(a, b, c, b);
    PlusSelf(b);
    PlusZero(Plus(a, c));
  }

  // Bits as a number, bit 0 first.
  function Value(bits: seq<bool>): nat {
    if bits == [] then 0 else (if bits[0] then 1 else 0) + 2 * Value(bits[1..])
  }

  // Bits as a number, the most significant one first.
  function Reading(bits: seq<bool>): nat {
    if bits == [] then 0 else (if bits[0] then Pow2(|bits| - 1) else 0) + Reading(bits[1..])
  }

  lemma {:induction false} ValueBound(bits: seq<bool>)
    ensures Value(bits) < Pow2(|bits|)
  {
    if bits != [] { ValueBound(bits[1..]); }
  }

  lemma {:induction false} ValueBit(bits: seq<bool>, i: nat)
    ensures Bit(Value(bits), i) == (i < |bits| && bits[i])
    decreases i
  {
    if bits == [] {
      ZeroBit(i);
    } else {
      assert Value(bits) / 2 == Value(bits[1..]);
      if i > 0 { ValueBit(bits[1..], i - 1); }
    }
  }

  lemma {:induction false} ZeroBit(i: nat)
    ensures !Bit(0, i)
    decreases i
  {
    if i > 0 { ZeroBit(i - 1); }
  }

  lemma {:induction false} SameBits(a: nat, b: nat, n: nat)
    requires a < Pow2(n) && b < Pow2(n)
    requires forall i: nat | i < n :: Bit(a, i) == Bit(b, i)
    ensures a == b
    decreases n
  {
    if n > 0 {
      assert Bit(a, 0) == Bit(b, 0);
      forall i: nat | i < n - 1 ensures Bit(a / 2, i) == Bit(b / 2, i) { assert Bit(a, i + 1) == Bit(b, i + 1); }
      SameBits(a / 2, b / 2, n - 1);
    }
  }

  lemma {:induction false} ReadingBound(bits: seq<bool>)
    ensures Reading(bits) < Pow2(|bits|)
  {
    if bits != [] { ReadingBound(bits[1..]); }
  }

  lemma {:induction false} ReadingAppends(a: seq<bool>, b: seq<bool>)
    ensures Reading(a + b) == Reading(a) * Pow2(|b|) + Reading(b)
    decreases |a|
  {
    if a == [] {
      assert a + b == b;
    } else {
      assert (a + b)[1..] == a[1..] + b;
      ReadingAppends(a[1..], b);
      Pow2Sum(|a| - 1, |b|);
      Spread(if a[0] then Pow2(|a| - 1) else 0, Reading(a[1..]), Pow2(|b|));
    }
  }

  lemma Spread(a: nat, b: nat, p: nat)
    ensures (a + b) * p == a * p + b * p
  {
  }

  lemma {:induction false} Pow2Sum(a: nat, b: nat)
    ensures Pow2(a + b) == Pow2(a) * Pow2(b)
  {
    if a > 0 {
      Pow2Sum(a - 1, b);
      Doubled(Pow2(b), Pow2(a - 1));
    }
  }

  // Bits read from the other end.
  lemma {:induction false} Mirrored(s: seq<bool>, t: seq<bool>)
    requires |s| == |t| && forall i | 0 <= i < |s| :: s[i] == t[|t| - 1 - i]
    ensures Value(s) == Reading(t)
    decreases |s|
  {
    if s != [] {
      var n := |s| - 1;
      ValueLast(s);
      Mirrored(s[..n], t[1..]);
    }
  }

  lemma {:induction false} ValueLast(s: seq<bool>)
    requires s != []
    ensures Value(s) == Value(s[..|s| - 1]) + if s[|s| - 1] then Pow2(|s| - 1) else 0
    decreases |s|
  {
    if |s| > 1 {
      ValueLast(s[1..]);
      assert s[1..][..|s| - 2] == s[..|s| - 1][1..];
    }
  }

  // All bits flipped.
  lemma {:induction false} Flipped(s: seq<bool>, t: seq<bool>)
    requires |s| == |t| && forall i | 0 <= i < |s| :: s[i] != t[i]
    ensures Value(s) == Pow2(|s|) - 1 - Value(t)
    decreases |s|
  {
    if s != [] { Flipped(s[1..], t[1..]); }
  }

  lemma {:induction false} ReadingFlipped(s: seq<bool>, t: seq<bool>)
    requires |s| == |t| && forall i | 0 <= i < |s| :: s[i] != t[i]
    ensures Reading(s) == Pow2(|s|) - 1 - Reading(t)
    decreases |s|
  {
    if s != [] { ReadingFlipped(s[1..], t[1..]); }
  }

  // The low n bits of a number.
  function LowBitsOf(b: nat, n: nat): (bits: seq<bool>)
    ensures |bits| == n && forall i: nat | i < n :: bits[i] == Bit(b, i)
  {
    if n == 0 then [] else [b % 2 == 1] + LowBitsOf(b / 2, n - 1)
  }

  // The same read the other way.
  function Turned(b: nat, n: nat): nat {
    if n == 0 then 0 else Term(b % 2 == 1, Pow2(n - 1)) + Turned(b / 2, n - 1)
  }

  lemma {:induction false} LowBitsRead(b: nat, n: nat)
    ensures b < Pow2(n) ==> Value(LowBitsOf(b, n)) == b
    ensures Reading(LowBitsOf(b, n)) == Turned(b, n)
    decreases n
  {
    if n > 0 {
      LowBitsRead(b / 2, n - 1);
      assert LowBitsOf(b, n)[1..] == LowBitsOf(b / 2, n - 1);
    }
  }

  lemma {:induction false} TurnedBound(b: nat, n: nat)
    ensures Turned(b, n) < Pow2(n)
    decreases n
  {
    if n > 0 { TurnedBound(b / 2, n - 1); }
  }
}
