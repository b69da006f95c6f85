// The loop form of __RBIT (CMSIS/cmsis_gcc.h).

module BitReverse {
  import opened Bits

  function ShiftLeft(w: BitWord, n: nat): BitWord { seq(32, i requires 0 <= i < 32 => i >= n && w[i - n]) }

  function ShiftRight(w: BitWord, n: nat): BitWord { seq(32, i requires 0 <= i < 32 => i + n < 32 && w[i + n]) }

  predicate IsZero(w: BitWord) { forall i | 0 <= i < 32 :: !w[i] }

  function Reversed(w: BitWord): BitWord { seq(32, i requires 0 <= i < 32 => w[31 - i]) }

  lemma ReversedTwice(w: BitWord)
    ensures Reversed(Reversed(w)) == w
  {
  }

  // After j rounds: bits j down to 0 of the input, then what is left of the input above them.
  function Partial(w: BitWord, j: nat): BitWord
    requires j < 32
  {
    seq(32, i requires 0 <= i < 32 => if i <= j then w[j - i] else w[i - j])
  }

  lemma PartialStep(w: BitWord, j: nat)
    requires j < 31
    ensures ShiftLeft(Partial(w, j), 1)[0 := w[j + 1]] == Partial(w, j + 1)
  {
  }

  // The loop may stop early: the final shift drops what is left of the input and fills with zeros.
  lemma PartialDone(w: BitWord, j: nat)
    requires j < 32 && IsZero(ShiftRight(w, j + 1))
    ensures ShiftLeft(Partial(w, j), 31 - j) == Reversed(w)
  {
    forall i | j < i < 32 ensures !w[i] {
      assert !ShiftRight(w, j + 1)[i - (j + 1)];
    }
  }

  // Bit i of the result is bit 31 - i of the input.
  method Rbit(input: BitWord) returns (result: BitWord)
    ensures forall i | 0 <= i < 32 :: result[i] == input[31 - i]
    ensures result == Reversed(input)
  {
    var value, s := input, 31;
    result := value;
    value := ShiftRight(value, 1);
    while !IsZero(value)
      invariant 0 <= s <= 31
      invariant value == ShiftRight(input, 32 - s) && result == Partial(input, 31 - s)
      decreases s
    {
      assert s > 0;
      PartialStep(input, 31 - s);
      var bit := value[0];
      result := ShiftLeft(result, 1);
      result := result[0 := result[0] || bit];
      s := s - 1;
      value := ShiftRight(value, 1);
    }
    PartialDone(input, 31 - s);
    result := ShiftLeft(result, s);
  }

  // So it is its own inverse.
  method RbitTwice(input: BitWord) returns (result: BitWord)
    ensures result == input
  {
    result := Rbit(input);
    result := Rbit(result);
    ReversedTwice(input);
  }
}
