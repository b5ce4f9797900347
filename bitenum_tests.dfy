/**
  The `#[bitenum]` declarations of the enum test suite, proved well formed,
  and what their `new_with_raw_value` and `raw_value` give.
*/
module BitenumTests {
  import opened Wrappers
  import opened BitRange
  import opened EnumCodec

  /** `enum Foo` over `u2, exhaustive: true`: Zero, One, Two, Three. */
  const Exhaustive2 := Codec(2, [(0, "Zero"), (1, "One"), (2, "Two"), (3, "Three")], true)

  /** `enum Foo` over `u2, exhaustive: false`: no variant has discriminant 3. */
  const Partial2 := Codec(2, [(0, "Zero"), (1, "One"), (2, "Two")], false)

  /**
    The non-exhaustive enums over `u8`, `u16`, `u32`, `u63` and `u64`:
    `Zero = 0`, `One = one` (the largest value of the width), `Two = 2`, `Three = 3`.
  */
  function Wide(width: nat, one: nat): Codec {
    Codec(width, [(0, "Zero"), (one, "One"), (2, "Two"), (3, "Three")], false)
  }

  /** The exhaustive two-bit enum names all four two-bit values. */
  lemma Exhaustive2WellFormed()
    ensures WellFormed(Exhaustive2)
  {
    assert Pow2(2) == 4;
    forall raw: nat | raw < Pow2(2)
      ensures IsDiscriminant(Exhaustive2, raw)
    {
      assert Exhaustive2.variants[raw].0 == raw;
    }
  }

  /** Decoding every value of the exhaustive two-bit enum, and encoding two of its variants. */
  lemma ExhaustiveTwoBits()
    ensures WellFormed(Exhaustive2)
    ensures DecodeExhaustive(Exhaustive2, 0) == "Zero" && DecodeExhaustive(Exhaustive2, 1) == "One"
    ensures DecodeExhaustive(Exhaustive2, 2) == "Two" && DecodeExhaustive(Exhaustive2, 3) == "Three"
    ensures IsVariant(Exhaustive2, "Zero") && Encode(Exhaustive2, "Zero") == 0
    ensures IsVariant(Exhaustive2, "One") && Encode(Exhaustive2, "One") == 1
  {
    Exhaustive2WellFormed();
    EncodeDeclared(Exhaustive2, 0, "Zero");
    EncodeDeclared(Exhaustive2, 1, "One");
  }

  /** The non-exhaustive two-bit enum is accepted. */
  lemma Partial2WellFormed()
    ensures WellFormed(Partial2)
  {
    assert Pow2(2) == 4;
  }

  /** The non-exhaustive two-bit enum decodes 3 to `Err(3)`. */
  lemma NonExhaustiveTwoBits()
    ensures WellFormed(Partial2)
    ensures DecodePartial(Partial2, 0) == Ok("Zero") && DecodePartial(Partial2, 1) == Ok("One")
    ensures DecodePartial(Partial2, 2) == Ok("Two") && DecodePartial(Partial2, 3) == Err(3)
    ensures IsVariant(Partial2, "Zero") && Encode(Partial2, "Zero") == 0
    ensures IsVariant(Partial2, "One") && Encode(Partial2, "One") == 1
    ensures IsVariant(Partial2, "Two") && Encode(Partial2, "Two") == 2
  {
    Partial2WellFormed();
    EncodeDeclared(Partial2, 0, "Zero");
    EncodeDeclared(Partial2, 1, "One");
    EncodeDeclared(Partial2, 2, "Two");
  }

  /** `raw_value()` of `new_with_raw_value(x)` is x, for the exhaustive two-bit enum. */
  lemma ExhaustiveRawValueRoundTrip()
    ensures WellFormed(Exhaustive2)
    ensures IsVariant(Exhaustive2, DecodeExhaustive(Exhaustive2, 0)) && Encode(Exhaustive2, DecodeExhaustive(Exhaustive2, 0)) == 0
    ensures IsVariant(Exhaustive2, DecodeExhaustive(Exhaustive2, 2)) && Encode(Exhaustive2, DecodeExhaustive(Exhaustive2, 2)) == 2
    ensures IsVariant(Exhaustive2, "Two") && Encode(Exhaustive2, "Two") == 2
    ensures IsVariant(Exhaustive2, "Three") && Encode(Exhaustive2, "Three") == 3
  {
    Exhaustive2WellFormed();
    EncodeDecodeExhaustive(Exhaustive2, 0);
    EncodeDecodeExhaustive(Exhaustive2, 2);
    EncodeDeclared(Exhaustive2, 2, "Two");
    EncodeDeclared(Exhaustive2, 3, "Three");
  }

  /** A wide enum is accepted when `One` lies above 3 and below 2^width. */
  lemma WideWellFormed(width: nat, one: nat)
    requires 4 <= one < Pow2(width)
    ensures WellFormed(Wide(width, one))
  {
  }

  /** A wide enum decodes its four discriminants to their variants. */
  lemma WideDecodes(width: nat, one: nat)
    requires 4 <= one < Pow2(width)
    ensures WellFormed(Wide(width, one))
    ensures DecodePartial(Wide(width, one), 0) == Ok("Zero") && DecodePartial(Wide(width, one), one) == Ok("One")
    ensures DecodePartial(Wide(width, one), 2) == Ok("Two") && DecodePartial(Wide(width, one), 3) == Ok("Three")
  {
    WideWellFormed(width, one);
    var c := Wide(width, one);
    DecodeDeclared(c, 0, "Zero");
    DecodeDeclared(c, one, "One");
    DecodeDeclared(c, 2, "Two");
    DecodeDeclared(c, 3, "Three");
  }

  /** A wide enum encodes `Zero` and `One` to their discriminants. */
  lemma WideEncodes(width: nat, one: nat)
    requires 4 <= one < Pow2(width)
    ensures WellFormed(Wide(width, one))
    ensures IsVariant(Wide(width, one), "Zero") && Encode(Wide(width, one), "Zero") == 0
    ensures IsVariant(Wide(width, one), "One") && Encode(Wide(width, one), "One") == one
  {
    WideWellFormed(width, one);
    EncodeDeclared(Wide(width, one), 0, "Zero");
    EncodeDeclared(Wide(width, one), one, "One");
  }

  /** A wide enum decodes every value it does not declare to `Err` of that value. */
  lemma WideUndeclared(width: nat, one: nat, other: nat)
    requires 4 <= one < Pow2(width) && 4 <= other && other != one
    ensures DecodePartial(Wide(width, one), other) == Err(other)
  {
    var c := Wide(width, one);
    assert !IsDiscriminant(c, other) by {
      forall i | 0 <= i < |c.variants|
        ensures c.variants[i].0 != other
      {
      }
    }
  }

  /** Everything the wide-enum tests state about one wide enum. */
  lemma WideCodec(width: nat, one: nat, other: nat)
    requires 4 <= one < Pow2(width) && 4 <= other && other != one
    ensures WellFormed(Wide(width, one))
    ensures DecodePartial(Wide(width, one), 0) == Ok("Zero") && DecodePartial(Wide(width, one), one) == Ok("One")
    ensures DecodePartial(Wide(width, one), 2) == Ok("Two") && DecodePartial(Wide(width, one), 3) == Ok("Three")
    ensures IsVariant(Wide(width, one), "Zero") && Encode(Wide(width, one), "Zero") == 0
    ensures IsVariant(Wide(width, one), "One") && Encode(Wide(width, one), "One") == one
    ensures DecodePartial(Wide(width, one), other) == Err(other)
  {
    WideDecodes(width, one);
    WideEncodes(width, one);
    WideUndeclared(width, one, other);
  }

  /** The `u8` enum: `One` is the largest 8-bit value; 4 and 254 come back as `Err` unchanged. */
  lemma EightBits()
    ensures WellFormed(Wide(8, 255)) && 255 == Pow2(8) - 1
    ensures DecodePartial(Wide(8, 255), 0) == Ok("Zero") && DecodePartial(Wide(8, 255), 255) == Ok("One")
    ensures DecodePartial(Wide(8, 255), 2) == Ok("Two") && DecodePartial(Wide(8, 255), 3) == Ok("Three")
    ensures DecodePartial(Wide(8, 255), 4) == Err(4) && DecodePartial(Wide(8, 255), 254) == Err(254)
    ensures IsVariant(Wide(8, 255), "Zero") && Encode(Wide(8, 255), "Zero") == 0
    ensures IsVariant(Wide(8, 255), "One") && Encode(Wide(8, 255), "One") == 255
  {
    Pow2Bytes(1);
    WideCodec(8, 255, 4);
    WideCodec(8, 255, 254);
  }

  /** The `u16` enum: `One` is the largest 16-bit value; 4 and 255 come back as `Err` unchanged. */
  lemma SixteenBits()
    ensures WellFormed(Wide(16, 65535)) && 65535 == Pow2(16) - 1
    ensures DecodePartial(Wide(16, 65535), 0) == Ok("Zero") && DecodePartial(Wide(16, 65535), 65535) == Ok("One")
    ensures DecodePartial(Wide(16, 65535), 2) == Ok("Two") && DecodePartial(Wide(16, 65535), 3) == Ok("Three")
    ensures DecodePartial(Wide(16, 65535), 4) == Err(4) && DecodePartial(Wide(16, 65535), 255) == Err(255)
    ensures IsVariant(Wide(16, 65535), "Zero") && Encode(Wide(16, 65535), "Zero") == 0
    ensures IsVariant(Wide(16, 65535), "One") && Encode(Wide(16, 65535), "One") == 65535
  {
    Pow2Bytes(2);
    WideCodec(16, 65535, 4);
    WideCodec(16, 65535, 255);
  }

  /** The `u32` enum: `One` is the largest 32-bit value; 4 and 255 come back as `Err` unchanged. */
  lemma ThirtyTwoBits()
    ensures WellFormed(Wide(32, 0xFFFF_FFFF)) && 0xFFFF_FFFF == Pow2(32) - 1
    ensures DecodePartial(Wide(32, 0xFFFF_FFFF), 0) == Ok("Zero") && DecodePartial(Wide(32, 0xFFFF_FFFF), 0xFFFF_FFFF) == Ok("One")
    ensures DecodePartial(Wide(32, 0xFFFF_FFFF), 2) == Ok("Two") && DecodePartial(Wide(32, 0xFFFF_FFFF), 3) == Ok("Three")
    ensures DecodePartial(Wide(32, 0xFFFF_FFFF), 4) == Err(4) && DecodePartial(Wide(32, 0xFFFF_FFFF), 255) == Err(255)
    ensures IsVariant(Wide(32, 0xFFFF_FFFF), "Zero") && Encode(Wide(32, 0xFFFF_FFFF), "Zero") == 0
    ensures IsVariant(Wide(32, 0xFFFF_FFFF), "One") && Encode(Wide(32, 0xFFFF_FFFF), "One") == 0xFFFF_FFFF
  {
    Pow2Bytes(4);
    WideCodec(32, 0xFFFF_FFFF, 4);
    WideCodec(32, 0xFFFF_FFFF, 255);
  }

  /** The `u63` enum: `One` is the largest 63-bit value; 4 and 255 come back as `Err` unchanged. */
  lemma SixtyThreeBits()
    ensures WellFormed(Wide(63, 0x7FFF_FFFF_FFFF_FFFF)) && 0x7FFF_FFFF_FFFF_FFFF == Pow2(63) - 1
    ensures DecodePartial(Wide(63, 0x7FFF_FFFF_FFFF_FFFF), 0) == Ok("Zero") && DecodePartial(Wide(63, 0x7FFF_FFFF_FFFF_FFFF), 0x7FFF_FFFF_FFFF_FFFF) == Ok("One")
    ensures DecodePartial(Wide(63, 0x7FFF_FFFF_FFFF_FFFF), 2) == Ok("Two") && DecodePartial(Wide(63, 0x7FFF_FFFF_FFFF_FFFF), 3) == Ok("Three")
    ensures DecodePartial(Wide(63, 0x7FFF_FFFF_FFFF_FFFF), 4) == Err(4) && DecodePartial(Wide(63, 0x7FFF_FFFF_FFFF_FFFF), 255) == Err(255)
    ensures IsVariant(Wide(63, 0x7FFF_FFFF_FFFF_FFFF), "Zero") && Encode(Wide(63, 0x7FFF_FFFF_FFFF_FFFF), "Zero") == 0
    ensures IsVariant(Wide(63, 0x7FFF_FFFF_FFFF_FFFF), "One") && Encode(Wide(63, 0x7FFF_FFFF_FFFF_FFFF), "One") == 0x7FFF_FFFF_FFFF_FFFF
  {
    Pow2Of63();
    WideCodec(63, 0x7FFF_FFFF_FFFF_FFFF, 4);
    WideCodec(63, 0x7FFF_FFFF_FFFF_FFFF, 255);
  }

  /** The `u64` enum: `One` is the largest 64-bit value; 4 and 255 come back as `Err` unchanged. */
  lemma SixtyFourBits()
    ensures WellFormed(Wide(64, 0xFFFF_FFFF_FFFF_FFFF)) && 0xFFFF_FFFF_FFFF_FFFF == Pow2(64) - 1
    ensures DecodePartial(Wide(64, 0xFFFF_FFFF_FFFF_FFFF), 0) == Ok("Zero") && DecodePartial(Wide(64, 0xFFFF_FFFF_FFFF_FFFF), 0xFFFF_FFFF_FFFF_FFFF) == Ok("One")
    ensures DecodePartial(Wide(64, 0xFFFF_FFFF_FFFF_FFFF), 2) == Ok("Two") && DecodePartial(Wide(64, 0xFFFF_FFFF_FFFF_FFFF), 3) == Ok("Three")
    ensures DecodePartial(Wide(64, 0xFFFF_FFFF_FFFF_FFFF), 4) == Err(4) && DecodePartial(Wide(64, 0xFFFF_FFFF_FFFF_FFFF), 255) == Err(255)
    ensures IsVariant(Wide(64, 0xFFFF_FFFF_FFFF_FFFF), "Zero") && Encode(Wide(64, 0xFFFF_FFFF_FFFF_FFFF), "Zero") == 0
    ensures IsVariant(Wide(64, 0xFFFF_FFFF_FFFF_FFFF), "One") && Encode(Wide(64, 0xFFFF_FFFF_FFFF_FFFF), "One") == 0xFFFF_FFFF_FFFF_FFFF
  {
    Pow2Bytes(8);
    WideCodec(64, 0xFFFF_FFFF_FFFF_FFFF, 4);
    WideCodec(64, 0xFFFF_FFFF_FFFF_FFFF, 255);
  }
}
