/**
  Signed fields: a field of `width` bits holding a signed integer (`i8`,
  `i16`, ...) stores the low `width` bits of its two's-complement form and
  is read back by sign extension.
*/
module TwosComplement {
  import opened BitRange

  /** The smallest value of a signed `width`-bit integer, -2^(width-1). */
  function MinSigned(width: nat): int
    requires 1 <= width
  {
    -(Pow2(width - 1) as int)
  }

  /** The largest value of a signed `width`-bit integer, 2^(width-1) - 1. */
  function MaxSigned(width: nat): int
    requires 1 <= width
  {
    Pow2(width - 1) - 1
  }

  /** s is a value of the signed `width`-bit integer type. */
  predicate InSignedRange(s: int, width: nat)
    requires 1 <= width
  {
    MinSigned(width) <= s <= MaxSigned(width)
  }

  /** Reinterprets `width` raw bits as a two's-complement number. */
  function SignExtend(bits: nat, width: nat): (r: int)
    requires 1 <= width && bits < Pow2(width)
    ensures InSignedRange(r, width)
    ensures r % Pow2(width) == bits
    ensures r < 0 <==> Bit(bits, width - 1)
  {
    TopBit(bits, width);
    assert Pow2(width) == 2 * Pow2(width - 1);
    if bits < Pow2(width - 1) then
      DivModUnique(bits, Pow2(width), 0, bits);
      bits
    else
      DivModUnique(bits - Pow2(width), Pow2(width), -1, bits);
      bits - Pow2(width)
  }

  /** The low `width` bits of the two's-complement form of s. */
  function ToTwos(s: int, width: nat): (bits: nat)
    ensures bits < Pow2(width)
  {
    s % Pow2(width)
  }

  /** The top bit of a `width`-bit value is set exactly when the value is at least 2^(width-1). */
  lemma TopBit(bits: nat, width: nat)
    requires 1 <= width && bits < Pow2(width)
    ensures Bit(bits, width - 1) <==> bits >= Pow2(width - 1)
  {
    var h := Pow2(width - 1);
    assert Pow2(width) == 2 * h;
    if bits < h {
      DivModUnique(bits, h, 0, bits);
    } else {
      DivModUnique(bits, h, 1, bits - h);
    }
  }

  /** Every value the signed field type can hold survives being stored and read back. */
  lemma SignExtendToTwos(s: int, width: nat)
    requires 1 <= width && InSignedRange(s, width)
    ensures SignExtend(ToTwos(s, width), width) == s
  {
    var h := Pow2(width - 1);
    assert Pow2(width) == 2 * h;
    if s >= 0 {
      DivModUnique(s, 2 * h, 0, s);
    } else {
      DivModUnique(s, 2 * h, -1, s + 2 * h);
    }
  }

  /** Sign extension is the only value in the signed range with the given low bits. */
  lemma SignExtendUnique(bits: nat, width: nat, r: int)
    requires 1 <= width && bits < Pow2(width)
    requires InSignedRange(r, width) && r % Pow2(width) == bits
    ensures r == SignExtend(bits, width)
  {
    var h := Pow2(width - 1);
    assert Pow2(width) == 2 * h;
    if r >= 0 {
      DivModUnique(r, 2 * h, 0, r);
    } else {
      DivModUnique(r, 2 * h, -1, r + 2 * h);
    }
  }

  /** Storing -1 sets every bit of the field. */
  lemma MinusOneIsAllOnes(width: nat)
    ensures ToTwos(-1, width) == Mask(width)
    ensures forall k: nat :: k < width ==> Bit(ToTwos(-1, width), k)
  {
    DivModUnique(-1, Pow2(width), -1, Pow2(width) - 1);
    forall k: nat | k < width
      ensures Bit(Mask(width), k)
    {
      MaskBits(width, k);
    }
  }
}
