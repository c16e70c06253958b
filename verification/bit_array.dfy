/** The 64-bit bit array of src/bit_array.c: a `bitsarr_ty` (a `size_t`,
    64 bits wide) and the four primitives defined there: set every bit,
    reset every bit, turn one bit on, turn one bit off. Bit 0 is the least
    significant bit; bit numbers are `bv8` values below 64. */
module BitArray {

  type Word = bv64

  /** A bit number of a word. */
  type BitNum = i: bv8 | i < 64

  /** The mask the source ORs in to turn every bit on. */
  const MaskOnlyOnes: Word := 0xFFFF_FFFF_FFFF_FFFF

  /** Bit `i` of `w` is on. */
  predicate Bit(w: Word, i: BitNum)
  {
    (w >> i) & 1 == 1
  }

  /** BitArraySetAll: every bit of the result is on, whatever the input. */
  function SetAll(a: Word): (r: Word)
    ensures forall i: BitNum :: Bit(r, i)
  {
    a | MaskOnlyOnes
  }

  /** BitArrayResetAll: every bit of the result is off, whatever the input. */
  function ResetAll(a: Word): (r: Word)
    ensures forall i: BitNum :: !Bit(r, i)
  {
    0
  }

  /** The source builds its one-bit mask by shifting the `int` literal 1
      (32 bits, signed); that shift is defined in C only for bit numbers
      below 31. */
  predicate IntShiftDefined(b: BitNum)
  {
    b < 31
  }

  /** BitArraySetOn as written: `a | (1 << b)` with an `int` mask. Where the
      shift is defined the mask is the positive value 2^b, which widens to
      64 bits unchanged. */
  function SetOn(a: Word, b: BitNum): (r: Word)
    requires IntShiftDefined(b)
    ensures Bit(r, b)
    ensures forall i: BitNum :: i != b ==> Bit(r, i) == Bit(a, i)
  {
    SetBit(a, b);
    forall i: BitNum | i != b
      ensures Bit(a | (1 << b), i) == Bit(a, i)
    {
      SetKeepsOtherBit(a, b, i);
    }
    a | (1 << b)
  }

  /** BitArraySetOff as written: `a & ~(1 << b)` with an `int` mask. Where the
      shift is defined, `~` of the positive mask is a negative `int`, and its
      widening to 64 bits sign-extends to all ones except bit `b`. */
  function SetOff(a: Word, b: BitNum): (r: Word)
    requires IntShiftDefined(b)
    ensures !Bit(r, b)
    ensures forall i: BitNum :: i != b ==> Bit(r, i) == Bit(a, i)
  {
    ClearedBit(a, b);
    forall i: BitNum | i != b
      ensures Bit(a & !(1 << b), i) == Bit(a, i)
    {
      ClearKeepsOtherBit(a, b, i);
    }
    a & !(1 << b)
  }

  lemma SetBit(a: Word, b: BitNum)
    ensures Bit(a | (1 << b), b)
  {
  }

  lemma SetKeepsOtherBit(a: Word, b: BitNum, i: BitNum)
    requires i != b
    ensures Bit(a | (1 << b), i) == Bit(a, i)
  {
  }

  lemma ClearedBit(a: Word, b: BitNum)
    ensures !Bit(a & !(1 << b), b)
  {
  }

  lemma ClearKeepsOtherBit(a: Word, b: BitNum, i: BitNum)
    requires i != b
    ensures Bit(a & !(1 << b), i) == Bit(a, i)
  {
  }

  /** BitArraySetOn with the evidently intended 64-bit mask
      `(bitsarr_ty)1 << b`, defined for every bit of the word. */
  function SetOnWide(a: Word, b: BitNum): (r: Word)
    ensures Bit(r, b)
    ensures forall i: BitNum :: i != b ==> Bit(r, i) == Bit(a, i)
  {
    SetBit(a, b);
    forall i: BitNum | i != b
      ensures Bit(a | (1 << b), i) == Bit(a, i)
    {
      SetKeepsOtherBit(a, b, i);
    }
    a | (1 << b)
  }

  /** Where the source's shift is defined, the as-written SetOn and the
      64-bit one agree. */
  lemma SetOnAgreesWithWide(a: Word, b: BitNum)
    requires IntShiftDefined(b)
    ensures SetOn(a, b) == SetOnWide(a, b)
  {
  }

  /** SetAll ignores its input: its result is the all-ones word. */
  lemma SetAllIgnoresInput(a: Word, a': Word)
    ensures SetAll(a) == SetAll(a') == MaskOnlyOnes
  {
  }

  /** Resetting the all-ones word gives zero, as the test program shows. */
  lemma ResetAllAfterSetAll()
    ensures ResetAll(SetAll(0)) == 0
  {
  }

  lemma SetOnIdempotent(a: Word, b: BitNum)
    requires IntShiftDefined(b)
    ensures SetOn(SetOn(a, b), b) == SetOn(a, b)
  {
  }

  /** Turning a bit on and then off again restores a word in which that bit
      was off (the test program does this with bit 6 of the zero word). */
  lemma SetOffUndoesSetOn(a: Word, b: BitNum)
    requires IntShiftDefined(b)
    requires !Bit(a, b)
    ensures SetOff(SetOn(a, b), b) == a
  {
  }

  /** Turning a bit off and then on again restores a word in which that bit
      was on. */
  lemma SetOnUndoesSetOff(a: Word, b: BitNum)
    requires IntShiftDefined(b)
    requires Bit(a, b)
    ensures SetOn(SetOff(a, b), b) == a
  {
  }
}
