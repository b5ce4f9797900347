/**
  The enum fields of the struct test suite: an exhaustive enum field reads
  as a variant, a non-exhaustive one as `Ok(variant)` or `Err(bits)`, and
  each setter stores its variant's discriminant; also arrays of enums and
  an eight-bit enum away from bit 0. The functions named after a field are
  the getter and the setter the macro generates for it; each vector is
  proved in small steps and the test's lemmas chain them.
*/
module EnumFieldTests {
  import opened Wrappers
  import opened BitRange
  import opened EnumCodec
  import opened Bitfield
  import opened TestSupport

  /** `#[bitenum(u2, exhaustive: true)] enum ExhaustiveEnum`, declared alike by two of the tests. */
  const ExhaustiveEnum := Codec(2, [(0, "Zero"), (1, "One"), (2, "Two"), (3, "Three")], true)

  /** `#[bitenum(u2, exhaustive: false)] enum NonExhaustiveEnum`: nothing is declared with 0b11. */
  const NonExhaustiveEnum := Codec(2, [(0, "Zero"), (1, "One"), (2, "Two")], false)

  /** `#[bitenum(u8, exhaustive: false)] enum NonExhaustiveEnum` of `bitfield_with_u8_enum`: `Two = 0b10000010`. */
  const U8Enum := Codec(8, [(0, "Zero"), (1, "One"), (0x82, "Two")], false)

  /** The exhaustive enum is accepted and declares its four variants. */
  lemma ExhaustiveEnumAccepted()
    ensures WellFormed(ExhaustiveEnum)
    ensures IsVariant(ExhaustiveEnum, "Zero") && IsVariant(ExhaustiveEnum, "One")
    ensures IsVariant(ExhaustiveEnum, "Two") && IsVariant(ExhaustiveEnum, "Three")
  {
    assert Pow2(2) == 4;
    forall raw: nat | raw < Pow2(2)
      ensures IsDiscriminant(ExhaustiveEnum, raw)
    {
      assert ExhaustiveEnum.variants[raw].0 == raw;
    }
    assert ExhaustiveEnum.variants[0].1 == "Zero" && ExhaustiveEnum.variants[1].1 == "One";
    assert ExhaustiveEnum.variants[2].1 == "Two" && ExhaustiveEnum.variants[3].1 == "Three";
  }

  /** The two-bit non-exhaustive enum is accepted and declares its three variants. */
  lemma NonExhaustiveEnumAccepted()
    ensures WellFormed(NonExhaustiveEnum)
    ensures IsVariant(NonExhaustiveEnum, "Zero") && IsVariant(NonExhaustiveEnum, "One") && IsVariant(NonExhaustiveEnum, "Two")
  {
    assert Pow2(2) == 4;
    assert NonExhaustiveEnum.variants[0].1 == "Zero" && NonExhaustiveEnum.variants[1].1 == "One";
    assert NonExhaustiveEnum.variants[2].1 == "Two";
  }

  /** The eight-bit non-exhaustive enum is accepted and declares its three variants. */
  lemma U8EnumAccepted()
    ensures WellFormed(U8Enum)
    ensures IsVariant(U8Enum, "Zero") && IsVariant(U8Enum, "One") && IsVariant(U8Enum, "Two")
  {
    assert Pow2(8) == 0x100 by { PowersTo32(); }
    assert U8Enum.variants[0].1 == "Zero" && U8Enum.variants[1].1 == "One" && U8Enum.variants[2].1 == "Two";
  }

  // ---------------------------------------------------------------------
  // bitfield_with_enum_exhaustive.
  // ---------------------------------------------------------------------

  const E1Field := Field(0, 1, ReadWrite, Single, EnumKind(ExhaustiveEnum))

  /** `#[bitfield(u64, default: 0)] pub struct BitfieldWithEnum`. */
  const BitfieldWithEnum := Layout(64, Some(0), [E1Field])

  /** `e1()`: bits 0..=1 as an `ExhaustiveEnum`. */
  function E1(t: Container): (r: Variant)
    requires Over(t, 64)
    ensures WellFormed(ExhaustiveEnum) && r == DecodeExhaustive(ExhaustiveEnum, Extract(t.rawValue, 0, 2))
  {
    E1Fits(); ExhaustiveEnumAccepted(); Get(t, E1Field, 0).variant
  }

  /** `with_e1(v)`. */
  function WithE1(t: Container, v: Variant): (r: Container)
    requires Over(t, 64) && IsVariant(ExhaustiveEnum, v)
    ensures Over(r, 64) && WellFormed(ExhaustiveEnum) && r.rawValue == Insert(t.rawValue, 0, 2, Encode(ExhaustiveEnum, v))
  {
    E1Fits(); ExhaustiveEnumAccepted(); With(t, E1Field, 0, EnumValue(v))
  }

  /** The declaration of `e1` is accepted in the 64-bit `BitfieldWithEnum`. */
  lemma E1Fits()
    ensures FieldFits(E1Field, 64)
  {
    ExhaustiveEnumAccepted();
  }

  /** Every field of `BitfieldWithEnum` lies inside its 64-bit container. */
  lemma BitfieldWithEnumFieldsFit()
    ensures forall a :: 0 <= a < |BitfieldWithEnum.fields| ==> FieldFits(BitfieldWithEnum.fields[a], BitfieldWithEnum.width)
  {
    E1Fits(); ExhaustiveEnumAccepted();
  }

  /** The struct with an exhaustive enum field is accepted. */
  lemma BitfieldWithEnumAccepted()
    ensures LayoutWellFormed(BitfieldWithEnum)
  {
    BitfieldWithEnumFieldsFit();
  }

  /** The field bits of raw value 12 that `E1OfC` reads. */
  lemma E1OfCBits()
    ensures Extract(12, 0, 2) == 0
  {
    assert Pow2(0) == 1 && Pow2(2) == 4 by { PowersTo32(); }
    ReadAt(12, 0, 2, 3, 0, 0, 1, 4);
  }

  /** The getters of `E1OfC` as bit ranges of raw value 12. */
  lemma E1OfCByRange()
    ensures WellFormed(ExhaustiveEnum)
    ensures Over(Container(64, 12), 64)
    ensures E1(Container(64, 12)) == DecodeExhaustive(ExhaustiveEnum, Extract(12, 0, 2))
  {
    ExhaustiveEnumAccepted();
    Over64(12);
  }

  /** The values the getters of `E1OfC` decode from those bits. */
  lemma E1OfCValues()
    ensures WellFormed(ExhaustiveEnum) && Pow2(2) == 4
    ensures DecodeExhaustive(ExhaustiveEnum, 0) == "Zero"
  {
    assert Pow2(2) == 4 by { PowersTo32(); }
    ExhaustiveEnumAccepted();
  }

  /** `e1()` on raw value 12. */
  lemma E1OfC()
    ensures Over(Container(64, 12), 64)
    ensures E1(Container(64, 12)) == "Zero"
  {
    E1OfCByRange();
    E1OfCBits();
    E1OfCValues();
  }

  /** The field bits of raw value 13 that `E1OfD` reads. */
  lemma E1OfDBits()
    ensures Extract(13, 0, 2) == 1
  {
    assert Pow2(0) == 1 && Pow2(2) == 4 by { PowersTo32(); }
    ReadAt(13, 0, 2, 3, 1, 0, 1, 4);
  }

  /** The getters of `E1OfD` as bit ranges of raw value 13. */
  lemma E1OfDByRange()
    ensures WellFormed(ExhaustiveEnum)
    ensures Over(Container(64, 13), 64)
    ensures E1(Container(64, 13)) == DecodeExhaustive(ExhaustiveEnum, Extract(13, 0, 2))
  {
    ExhaustiveEnumAccepted();
    Over64(13);
  }

  /** The values the getters of `E1OfD` decode from those bits. */
  lemma E1OfDValues()
    ensures WellFormed(ExhaustiveEnum) && Pow2(2) == 4
    ensures DecodeExhaustive(ExhaustiveEnum, 1) == "One"
  {
    assert Pow2(2) == 4 by { PowersTo32(); }
    ExhaustiveEnumAccepted();
  }

  /** `e1()` on raw value 13. */
  lemma E1OfD()
    ensures Over(Container(64, 13), 64)
    ensures E1(Container(64, 13)) == "One"
  {
    E1OfDByRange();
    E1OfDBits();
    E1OfDValues();
  }

  /** The field bits of raw value 14 that `E1OfE` reads. */
  lemma E1OfEBits()
    ensures Extract(14, 0, 2) == 2
  {
    assert Pow2(0) == 1 && Pow2(2) == 4 by { PowersTo32(); }
    ReadAt(14, 0, 2, 3, 2, 0, 1, 4);
  }

  /** The getters of `E1OfE` as bit ranges of raw value 14. */
  lemma E1OfEByRange()
    ensures WellFormed(ExhaustiveEnum)
    ensures Over(Container(64, 14), 64)
    ensures E1(Container(64, 14)) == DecodeExhaustive(ExhaustiveEnum, Extract(14, 0, 2))
  {
    ExhaustiveEnumAccepted();
    Over64(14);
  }

  /** The values the getters of `E1OfE` decode from those bits. */
  lemma E1OfEValues()
    ensures WellFormed(ExhaustiveEnum) && Pow2(2) == 4
    ensures DecodeExhaustive(ExhaustiveEnum, 2) == "Two"
  {
    assert Pow2(2) == 4 by { PowersTo32(); }
    ExhaustiveEnumAccepted();
  }

  /** `e1()` on raw value 14. */
  lemma E1OfE()
    ensures Over(Container(64, 14), 64)
    ensures E1(Container(64, 14)) == "Two"
  {
    E1OfEByRange();
    E1OfEBits();
    E1OfEValues();
  }

  /** The field bits of raw value 15 that `E1OfF` reads. */
  lemma E1OfFBits()
    ensures Extract(15, 0, 2) == 3
  {
    assert Pow2(0) == 1 && Pow2(2) == 4 by { PowersTo32(); }
    ReadAt(15, 0, 2, 3, 3, 0, 1, 4);
  }

  /** The getters of `E1OfF` as bit ranges of raw value 15. */
  lemma E1OfFByRange()
    ensures WellFormed(ExhaustiveEnum)
    ensures Over(Container(64, 15), 64)
    ensures E1(Container(64, 15)) == DecodeExhaustive(ExhaustiveEnum, Extract(15, 0, 2))
  {
    ExhaustiveEnumAccepted();
    Over64(15);
  }

  /** The values the getters of `E1OfF` decode from those bits. */
  lemma E1OfFValues()
    ensures WellFormed(ExhaustiveEnum) && Pow2(2) == 4
    ensures DecodeExhaustive(ExhaustiveEnum, 3) == "Three"
  {
    assert Pow2(2) == 4 by { PowersTo32(); }
    ExhaustiveEnumAccepted();
  }

  /** `e1()` on raw value 15. */
  lemma E1OfF()
    ensures Over(Container(64, 15), 64)
    ensures E1(Container(64, 15)) == "Three"
  {
    E1OfFByRange();
    E1OfFBits();
    E1OfFValues();
  }

  /** The raw value `SetE1TwoOnZero` writes: 2 into bits 0..1 of 0. */
  lemma SetE1TwoOnZeroBits()
    ensures Insert(0, 0, 2, 2) == 2
  {
    assert Pow2(0) == 1 && Pow2(2) == 4 by { PowersTo32(); }
    WriteAt(0, 0, 2, 0, 0, 0, 1, 4, 2);
  }

  /** The setter of `SetE1TwoOnZero` as a bit-range write into raw value 0. */
  lemma SetE1TwoOnZeroByRange()
    ensures WellFormed(ExhaustiveEnum) && IsVariant(ExhaustiveEnum, "Two")
    ensures Over(Container(64, 0), 64) && WithE1(Container(64, 0), "Two").rawValue == Insert(0, 0, 2, Encode(ExhaustiveEnum, "Two"))
  {
    ExhaustiveEnumAccepted();
    Over64(0);
  }

  /** The bits the setter of `SetE1TwoOnZero` stores for "Two". */
  lemma SetE1TwoOnZeroValues()
    ensures WellFormed(ExhaustiveEnum) && IsVariant(ExhaustiveEnum, "Two")
    ensures Encode(ExhaustiveEnum, "Two") == 2
  {
    ExhaustiveEnumAccepted();
  }

  /** `with_e1(Two)` on raw value 0. */
  lemma SetE1TwoOnZero()
    ensures WellFormed(ExhaustiveEnum) && IsVariant(ExhaustiveEnum, "Two")
    ensures Over(Container(64, 0), 64)
    ensures WithE1(Container(64, 0), "Two") == Container(64, 2)
  {
    SetE1TwoOnZeroByRange();
    SetE1TwoOnZeroBits();
    SetE1TwoOnZeroValues();
  }

  /** The raw value `SetE1ThreeOnZero` writes: 3 into bits 0..1 of 0. */
  lemma SetE1ThreeOnZeroBits()
    ensures Insert(0, 0, 2, 3) == 3
  {
    assert Pow2(0) == 1 && Pow2(2) == 4 by { PowersTo32(); }
    WriteAt(0, 0, 2, 0, 0, 0, 1, 4, 3);
  }

  /** The setter of `SetE1ThreeOnZero` as a bit-range write into raw value 0. */
  lemma SetE1ThreeOnZeroByRange()
    ensures WellFormed(ExhaustiveEnum) && IsVariant(ExhaustiveEnum, "Three")
    ensures Over(Container(64, 0), 64) && WithE1(Container(64, 0), "Three").rawValue == Insert(0, 0, 2, Encode(ExhaustiveEnum, "Three"))
  {
    ExhaustiveEnumAccepted();
    Over64(0);
  }

  /** The bits the setter of `SetE1ThreeOnZero` stores for "Three". */
  lemma SetE1ThreeOnZeroValues()
    ensures WellFormed(ExhaustiveEnum) && IsVariant(ExhaustiveEnum, "Three")
    ensures Encode(ExhaustiveEnum, "Three") == 3
  {
    ExhaustiveEnumAccepted();
  }

  /** `with_e1(Three)` on raw value 0. */
  lemma SetE1ThreeOnZero()
    ensures WellFormed(ExhaustiveEnum) && IsVariant(ExhaustiveEnum, "Three")
    ensures Over(Container(64, 0), 64)
    ensures WithE1(Container(64, 0), "Three") == Container(64, 3)
  {
    SetE1ThreeOnZeroByRange();
    SetE1ThreeOnZeroBits();
    SetE1ThreeOnZeroValues();
  }

  /** `e1()` decodes bits 0..=1 whatever bits 2 and 3 hold. */
  lemma BitfieldWithEnumGetters()
    ensures LayoutWellFormed(BitfieldWithEnum) && 12 < Pow2(64) && 13 < Pow2(64) && 14 < Pow2(64) && 15 < Pow2(64)
    ensures E1(NewWithRawValue(BitfieldWithEnum, 12)) == "Zero"
    ensures E1(NewWithRawValue(BitfieldWithEnum, 13)) == "One"
    ensures E1(NewWithRawValue(BitfieldWithEnum, 14)) == "Two"
    ensures E1(NewWithRawValue(BitfieldWithEnum, 15)) == "Three"
  {
    BitfieldWithEnumAccepted();
    E1OfC();
    E1OfD();
    E1OfE();
    E1OfF();
  }

  /** `with_e1` on `new()` stores the variant's discriminant. */
  lemma BitfieldWithEnumSetters()
    ensures LayoutWellFormed(BitfieldWithEnum)
    ensures IsVariant(ExhaustiveEnum, "Two") && WithE1(New(BitfieldWithEnum), "Two").rawValue == 2
    ensures IsVariant(ExhaustiveEnum, "Three") && WithE1(New(BitfieldWithEnum), "Three").rawValue == 3
  {
    BitfieldWithEnumAccepted();
    SetE1TwoOnZero();
    SetE1ThreeOnZero();
  }

  // ---------------------------------------------------------------------
  // bitfield_with_enum_nonexhaustive.
  // ---------------------------------------------------------------------

  const E2Field := Field(2, 3, ReadWrite, Single, EnumKind(NonExhaustiveEnum))

  /** `#[bitfield(u64, default: 0)] pub struct BitfieldWithEnumNonExhaustive`. */
  const BitfieldWithEnumNonExhaustive := Layout(64, Some(0), [E2Field])

  /** `e2()`: bits 2..=3 as `Ok` of a `NonExhaustiveEnum`, or `Err` of the bits. */
  function E2(t: Container): (r: Result<Variant, nat>)
    requires Over(t, 64)
    ensures r == DecodePartial(NonExhaustiveEnum, Extract(t.rawValue, 2, 2))
  {
    E2Fits(); NonExhaustiveEnumAccepted(); Get(t, E2Field, 0).result
  }

  /** `with_e2(v)`: takes a declared variant, never an `Err`. */
  function WithE2(t: Container, v: Variant): (r: Container)
    requires Over(t, 64) && IsVariant(NonExhaustiveEnum, v)
    ensures Over(r, 64) && WellFormed(NonExhaustiveEnum) && r.rawValue == Insert(t.rawValue, 2, 2, Encode(NonExhaustiveEnum, v))
  {
    E2Fits(); NonExhaustiveEnumAccepted(); With(t, E2Field, 0, EnumValue(v))
  }

  /** The declaration of `e2` is accepted in the 64-bit `BitfieldWithEnumNonExhaustive`. */
  lemma E2Fits()
    ensures FieldFits(E2Field, 64)
  {
    NonExhaustiveEnumAccepted();
  }

  /** Every field of `BitfieldWithEnumNonExhaustive` lies inside its 64-bit container. */
  lemma BitfieldWithEnumNonExhaustiveFieldsFit()
    ensures forall a :: 0 <= a < |BitfieldWithEnumNonExhaustive.fields| ==> FieldFits(BitfieldWithEnumNonExhaustive.fields[a], BitfieldWithEnumNonExhaustive.width)
  {
    E2Fits(); NonExhaustiveEnumAccepted();
  }

  /** The struct with a non-exhaustive enum field is accepted. */
  lemma BitfieldWithEnumNonExhaustiveAccepted()
    ensures LayoutWellFormed(BitfieldWithEnumNonExhaustive)
  {
    BitfieldWithEnumNonExhaustiveFieldsFit();
  }

  /** The field bits of raw value 2 that `E2Of2` reads. */
  lemma E2Of2Bits()
    ensures Extract(2, 2, 2) == 0
  {
    assert Pow2(2) == 4 by { PowersTo32(); }
    ReadAt(2, 2, 2, 0, 0, 2, 4, 4);
  }

  /** The getters of `E2Of2` as bit ranges of raw value 2. */
  lemma E2Of2ByRange()
    ensures Over(Container(64, 2), 64)
    ensures E2(Container(64, 2)) == DecodePartial(NonExhaustiveEnum, Extract(2, 2, 2))
  {
    Over64(2);
  }

  /** The values the getters of `E2Of2` decode from those bits. */
  lemma E2Of2Values()
    ensures DecodePartial(NonExhaustiveEnum, 0) == Ok("Zero")
  {
    NonExhaustiveEnumAccepted();
  }

  /** `e2()` on raw value 2. */
  lemma E2Of2()
    ensures Over(Container(64, 2), 64)
    ensures E2(Container(64, 2)) == Ok("Zero")
  {
    E2Of2ByRange();
    E2Of2Bits();
    E2Of2Values();
  }

  /** The field bits of raw value 6 that `E2Of6` reads. */
  lemma E2Of6Bits()
    ensures Extract(6, 2, 2) == 1
  {
    assert Pow2(2) == 4 by { PowersTo32(); }
    ReadAt(6, 2, 2, 0, 1, 2, 4, 4);
  }

  /** The getters of `E2Of6` as bit ranges of raw value 6. */
  lemma E2Of6ByRange()
    ensures Over(Container(64, 6), 64)
    ensures E2(Container(64, 6)) == DecodePartial(NonExhaustiveEnum, Extract(6, 2, 2))
  {
    Over64(6);
  }

  /** The values the getters of `E2Of6` decode from those bits. */
  lemma E2Of6Values()
    ensures DecodePartial(NonExhaustiveEnum, 1) == Ok("One")
  {
    NonExhaustiveEnumAccepted();
  }

  /** `e2()` on raw value 6. */
  lemma E2Of6()
    ensures Over(Container(64, 6), 64)
    ensures E2(Container(64, 6)) == Ok("One")
  {
    E2Of6ByRange();
    E2Of6Bits();
    E2Of6Values();
  }

  /** The field bits of raw value 10 that `E2OfA` reads. */
  lemma E2OfABits()
    ensures Extract(10, 2, 2) == 2
  {
    assert Pow2(2) == 4 by { PowersTo32(); }
    ReadAt(10, 2, 2, 0, 2, 2, 4, 4);
  }

  /** The getters of `E2OfA` as bit ranges of raw value 10. */
  lemma E2OfAByRange()
    ensures Over(Container(64, 10), 64)
    ensures E2(Container(64, 10)) == DecodePartial(NonExhaustiveEnum, Extract(10, 2, 2))
  {
    Over64(10);
  }

  /** The values the getters of `E2OfA` decode from those bits. */
  lemma E2OfAValues()
    ensures DecodePartial(NonExhaustiveEnum, 2) == Ok("Two")
  {
    NonExhaustiveEnumAccepted();
  }

  /** `e2()` on raw value 10. */
  lemma E2OfA()
    ensures Over(Container(64, 10), 64)
    ensures E2(Container(64, 10)) == Ok("Two")
  {
    E2OfAByRange();
    E2OfABits();
    E2OfAValues();
  }

  /** The field bits of raw value 14 that `E2OfE` reads. */
  lemma E2OfEBits()
    ensures Extract(14, 2, 2) == 3
  {
    assert Pow2(2) == 4 by { PowersTo32(); }
    ReadAt(14, 2, 2, 0, 3, 2, 4, 4);
  }

  /** The getters of `E2OfE` as bit ranges of raw value 14. */
  lemma E2OfEByRange()
    ensures Over(Container(64, 14), 64)
    ensures E2(Container(64, 14)) == DecodePartial(NonExhaustiveEnum, Extract(14, 2, 2))
  {
    Over64(14);
  }

  /** The values the getters of `E2OfE` decode from those bits. */
  lemma E2OfEValues()
    ensures DecodePartial(NonExhaustiveEnum, 3) == Err(3)
  {
    NonExhaustiveEnumAccepted();
  }

  /** `e2()` on raw value 14. */
  lemma E2OfE()
    ensures Over(Container(64, 14), 64)
    ensures E2(Container(64, 14)) == Err(3)
  {
    E2OfEByRange();
    E2OfEBits();
    E2OfEValues();
  }

  /** The raw value `SetE2ZeroOnZero` writes: 0 into bits 2..3 of 0. */
  lemma SetE2ZeroOnZeroBits()
    ensures Insert(0, 2, 2, 0) == 0
  {
    assert Pow2(2) == 4 by { PowersTo32(); }
    WriteAt(0, 2, 2, 0, 0, 0, 4, 4, 0);
  }

  /** The setter of `SetE2ZeroOnZero` as a bit-range write into raw value 0. */
  lemma SetE2ZeroOnZeroByRange()
    ensures WellFormed(NonExhaustiveEnum) && IsVariant(NonExhaustiveEnum, "Zero")
    ensures Over(Container(64, 0), 64) && WithE2(Container(64, 0), "Zero").rawValue == Insert(0, 2, 2, Encode(NonExhaustiveEnum, "Zero"))
  {
    NonExhaustiveEnumAccepted();
    Over64(0);
  }

  /** The bits the setter of `SetE2ZeroOnZero` stores for "Zero". */
  lemma SetE2ZeroOnZeroValues()
    ensures WellFormed(NonExhaustiveEnum) && IsVariant(NonExhaustiveEnum, "Zero")
    ensures Encode(NonExhaustiveEnum, "Zero") == 0
  {
    NonExhaustiveEnumAccepted();
  }

  /** `with_e2(Zero)` on raw value 0. */
  lemma SetE2ZeroOnZero()
    ensures WellFormed(NonExhaustiveEnum) && IsVariant(NonExhaustiveEnum, "Zero")
    ensures Over(Container(64, 0), 64)
    ensures WithE2(Container(64, 0), "Zero") == Container(64, 0)
  {
    SetE2ZeroOnZeroByRange();
    SetE2ZeroOnZeroBits();
    SetE2ZeroOnZeroValues();
  }

  /** The raw value `SetE2OneOnZero` writes: 1 into bits 2..3 of 0. */
  lemma SetE2OneOnZeroBits()
    ensures Insert(0, 2, 2, 1) == 4
  {
    assert Pow2(2) == 4 by { PowersTo32(); }
    WriteAt(0, 2, 2, 0, 0, 0, 4, 4, 1);
  }

  /** The setter of `SetE2OneOnZero` as a bit-range write into raw value 0. */
  lemma SetE2OneOnZeroByRange()
    ensures WellFormed(NonExhaustiveEnum) && IsVariant(NonExhaustiveEnum, "One")
    ensures Over(Container(64, 0), 64) && WithE2(Container(64, 0), "One").rawValue == Insert(0, 2, 2, Encode(NonExhaustiveEnum, "One"))
  {
    NonExhaustiveEnumAccepted();
    Over64(0);
  }

  /** The bits the setter of `SetE2OneOnZero` stores for "One". */
  lemma SetE2OneOnZeroValues()
    ensures WellFormed(NonExhaustiveEnum) && IsVariant(NonExhaustiveEnum, "One")
    ensures Encode(NonExhaustiveEnum, "One") == 1
  {
    NonExhaustiveEnumAccepted();
  }

  /** `with_e2(One)` on raw value 0. */
  lemma SetE2OneOnZero()
    ensures WellFormed(NonExhaustiveEnum) && IsVariant(NonExhaustiveEnum, "One")
    ensures Over(Container(64, 0), 64)
    ensures WithE2(Container(64, 0), "One") == Container(64, 4)
  {
    SetE2OneOnZeroByRange();
    SetE2OneOnZeroBits();
    SetE2OneOnZeroValues();
  }

  /** The raw value `SetE2TwoOnZero` writes: 2 into bits 2..3 of 0. */
  lemma SetE2TwoOnZeroBits()
    ensures Insert(0, 2, 2, 2) == 8
  {
    assert Pow2(2) == 4 by { PowersTo32(); }
    WriteAt(0, 2, 2, 0, 0, 0, 4, 4, 2);
  }

  /** The setter of `SetE2TwoOnZero` as a bit-range write into raw value 0. */
  lemma SetE2TwoOnZeroByRange()
    ensures WellFormed(NonExhaustiveEnum) && IsVariant(NonExhaustiveEnum, "Two")
    ensures Over(Container(64, 0), 64) && WithE2(Container(64, 0), "Two").rawValue == Insert(0, 2, 2, Encode(NonExhaustiveEnum, "Two"))
  {
    NonExhaustiveEnumAccepted();
    Over64(0);
  }

  /** The bits the setter of `SetE2TwoOnZero` stores for "Two". */
  lemma SetE2TwoOnZeroValues()
    ensures WellFormed(NonExhaustiveEnum) && IsVariant(NonExhaustiveEnum, "Two")
    ensures Encode(NonExhaustiveEnum, "Two") == 2
  {
    NonExhaustiveEnumAccepted();
  }

  /** `with_e2(Two)` on raw value 0. */
  lemma SetE2TwoOnZero()
    ensures WellFormed(NonExhaustiveEnum) && IsVariant(NonExhaustiveEnum, "Two")
    ensures Over(Container(64, 0), 64)
    ensures WithE2(Container(64, 0), "Two") == Container(64, 8)
  {
    SetE2TwoOnZeroByRange();
    SetE2TwoOnZeroBits();
    SetE2TwoOnZeroValues();
  }

  /** `e2()` gives `Ok` of the declared variants and `Err(3)` for the undeclared 0b11. */
  lemma NonExhaustiveEnumGetters()
    ensures LayoutWellFormed(BitfieldWithEnumNonExhaustive) && 2 < Pow2(64) && 6 < Pow2(64) && 10 < Pow2(64) && 14 < Pow2(64)
    ensures E2(NewWithRawValue(BitfieldWithEnumNonExhaustive, 2)) == Ok("Zero")
    ensures E2(NewWithRawValue(BitfieldWithEnumNonExhaustive, 6)) == Ok("One")
    ensures E2(NewWithRawValue(BitfieldWithEnumNonExhaustive, 10)) == Ok("Two")
    ensures E2(NewWithRawValue(BitfieldWithEnumNonExhaustive, 14)) == Err(3)
  {
    BitfieldWithEnumNonExhaustiveAccepted();
    E2Of2();
    E2Of6();
    E2OfA();
    E2OfE();
  }

  /** `with_e2` on `new()` stores each declared variant's discriminant at bits 2..=3. */
  lemma NonExhaustiveEnumSetters()
    ensures LayoutWellFormed(BitfieldWithEnumNonExhaustive)
    ensures IsVariant(NonExhaustiveEnum, "Zero") && WithE2(New(BitfieldWithEnumNonExhaustive), "Zero").rawValue == 0
    ensures IsVariant(NonExhaustiveEnum, "One") && WithE2(New(BitfieldWithEnumNonExhaustive), "One").rawValue == 4
    ensures IsVariant(NonExhaustiveEnum, "Two") && WithE2(New(BitfieldWithEnumNonExhaustive), "Two").rawValue == 8
  {
    BitfieldWithEnumNonExhaustiveAccepted();
    SetE2ZeroOnZero();
    SetE2OneOnZero();
    SetE2TwoOnZero();
  }

  // ---------------------------------------------------------------------
  // bitfield_with_indexed_exhaustive_enum.
  // ---------------------------------------------------------------------

  const ExhaustiveArrayField := Field(0, 1, ReadWrite, Array(8, None), EnumKind(ExhaustiveEnum))

  /** `#[bitfield(u64, default: 0)] pub struct BitfieldWithIndexedEnums` with `exhaustive: [ExhaustiveEnum; 8]`. */
  const IndexedExhaustive := Layout(64, Some(0), [ExhaustiveArrayField])

  /** `exhaustive(i)`: bits 2i..=2i+1. */
  function Exhaustive(t: Container, i: nat): (r: Variant)
    requires Over(t, 64) && i < 8
    ensures WellFormed(ExhaustiveEnum) && r == DecodeExhaustive(ExhaustiveEnum, Extract(t.rawValue, i * 2, 2))
  {
    ExhaustiveFits(); ExhaustiveEnumAccepted(); Get(t, ExhaustiveArrayField, i).variant
  }

  /** `with_exhaustive(i, v)`. */
  function WithExhaustive(t: Container, i: nat, v: Variant): (r: Container)
    requires Over(t, 64) && i < 8 && IsVariant(ExhaustiveEnum, v)
    ensures Over(r, 64) && WellFormed(ExhaustiveEnum) && r.rawValue == Insert(t.rawValue, i * 2, 2, Encode(ExhaustiveEnum, v))
  {
    ExhaustiveFits(); ExhaustiveEnumAccepted(); With(t, ExhaustiveArrayField, i, EnumValue(v))
  }

  /** The declaration of `exhaustive` is accepted in the 64-bit `BitfieldWithIndexedEnums`. */
  lemma ExhaustiveFits()
    ensures FieldFits(ExhaustiveArrayField, 64)
  {
    ExhaustiveEnumAccepted();
  }

  /** Every field of `BitfieldWithIndexedEnums` lies inside its 64-bit container. */
  lemma IndexedExhaustiveFieldsFit()
    ensures forall a :: 0 <= a < |IndexedExhaustive.fields| ==> FieldFits(IndexedExhaustive.fields[a], IndexedExhaustive.width)
  {
    ExhaustiveFits(); ExhaustiveEnumAccepted();
  }

  /** The struct with an array of exhaustive enums is accepted. */
  lemma IndexedExhaustiveAccepted()
    ensures LayoutWellFormed(IndexedExhaustive)
  {
    IndexedExhaustiveFieldsFit();
  }

  /** The field bits of raw value 2 that `ExhaustiveOf2At0` reads. */
  lemma ExhaustiveOf2At0Bits()
    ensures Extract(2, 0, 2) == 2
  {
    assert Pow2(0) == 1 && Pow2(2) == 4 by { PowersTo32(); }
    ReadAt(2, 0, 2, 0, 2, 0, 1, 4);
  }

  /** The getters of `ExhaustiveOf2At0` as bit ranges of raw value 2. */
  lemma ExhaustiveOf2At0ByRange()
    ensures WellFormed(ExhaustiveEnum)
    ensures Over(Container(64, 2), 64)
    ensures Exhaustive(Container(64, 2), 0) == DecodeExhaustive(ExhaustiveEnum, Extract(2, 0, 2))
  {
    ExhaustiveEnumAccepted();
    Over64(2);
  }

  /** The values the getters of `ExhaustiveOf2At0` decode from those bits. */
  lemma ExhaustiveOf2At0Values()
    ensures WellFormed(ExhaustiveEnum) && Pow2(2) == 4
    ensures DecodeExhaustive(ExhaustiveEnum, 2) == "Two"
  {
    assert Pow2(2) == 4 by { PowersTo32(); }
    ExhaustiveEnumAccepted();
  }

  /** `exhaustive(0)` on raw value 2. */
  lemma ExhaustiveOf2At0()
    ensures Over(Container(64, 2), 64)
    ensures Exhaustive(Container(64, 2), 0) == "Two"
  {
    ExhaustiveOf2At0ByRange();
    ExhaustiveOf2At0Bits();
    ExhaustiveOf2At0Values();
  }

  /** The field bits of raw value 6 that `ExhaustiveOf6At1` reads. */
  lemma ExhaustiveOf6At1Bits()
    ensures Extract(6, 2, 2) == 1
  {
    assert Pow2(2) == 4 by { PowersTo32(); }
    ReadAt(6, 2, 2, 0, 1, 2, 4, 4);
  }

  /** The getters of `ExhaustiveOf6At1` as bit ranges of raw value 6. */
  lemma ExhaustiveOf6At1ByRange()
    ensures WellFormed(ExhaustiveEnum)
    ensures Over(Container(64, 6), 64)
    ensures Exhaustive(Container(64, 6), 1) == DecodeExhaustive(ExhaustiveEnum, Extract(6, 2, 2))
  {
    ExhaustiveEnumAccepted();
    Over64(6);
  }

  /** The values the getters of `ExhaustiveOf6At1` decode from those bits. */
  lemma ExhaustiveOf6At1Values()
    ensures WellFormed(ExhaustiveEnum) && Pow2(2) == 4
    ensures DecodeExhaustive(ExhaustiveEnum, 1) == "One"
  {
    assert Pow2(2) == 4 by { PowersTo32(); }
    ExhaustiveEnumAccepted();
  }

  /** `exhaustive(1)` on raw value 6. */
  lemma ExhaustiveOf6At1()
    ensures Over(Container(64, 6), 64)
    ensures Exhaustive(Container(64, 6), 1) == "One"
  {
    ExhaustiveOf6At1ByRange();
    ExhaustiveOf6At1Bits();
    ExhaustiveOf6At1Values();
  }

  /** The field bits of raw value 6 that `ExhaustiveOf6At2` reads. */
  lemma ExhaustiveOf6At2Bits()
    ensures Extract(6, 4, 2) == 0
  {
    assert Pow2(2) == 4 && Pow2(4) == 0x10 by { PowersTo32(); }
    ReadAt(6, 4, 2, 0, 0, 6, 0x10, 4);
  }

  /** The getters of `ExhaustiveOf6At2` as bit ranges of raw value 6. */
  lemma ExhaustiveOf6At2ByRange()
    ensures WellFormed(ExhaustiveEnum)
    ensures Over(Container(64, 6), 64)
    ensures Exhaustive(Container(64, 6), 2) == DecodeExhaustive(ExhaustiveEnum, Extract(6, 4, 2))
  {
    ExhaustiveEnumAccepted();
    Over64(6);
  }

  /** The values the getters of `ExhaustiveOf6At2` decode from those bits. */
  lemma ExhaustiveOf6At2Values()
    ensures WellFormed(ExhaustiveEnum) && Pow2(2) == 4
    ensures DecodeExhaustive(ExhaustiveEnum, 0) == "Zero"
  {
    assert Pow2(2) == 4 by { PowersTo32(); }
    ExhaustiveEnumAccepted();
  }

  /** `exhaustive(2)` on raw value 6. */
  lemma ExhaustiveOf6At2()
    ensures Over(Container(64, 6), 64)
    ensures Exhaustive(Container(64, 6), 2) == "Zero"
  {
    ExhaustiveOf6At2ByRange();
    ExhaustiveOf6At2Bits();
    ExhaustiveOf6At2Values();
  }

  /** The raw value `SetExhaustiveThreeAt2` writes: 3 into bits 4..5 of 6. */
  lemma SetExhaustiveThreeAt2Bits()
    ensures Insert(6, 4, 2, 3) == 0x36
  {
    assert Pow2(2) == 4 && Pow2(4) == 0x10 by { PowersTo32(); }
    WriteAt(6, 4, 2, 0, 0, 6, 0x10, 4, 3);
  }

  /** The setter of `SetExhaustiveThreeAt2` as a bit-range write into raw value 6. */
  lemma SetExhaustiveThreeAt2ByRange()
    ensures WellFormed(ExhaustiveEnum) && IsVariant(ExhaustiveEnum, "Three")
    ensures Over(Container(64, 6), 64) && WithExhaustive(Container(64, 6), 2, "Three").rawValue == Insert(6, 4, 2, Encode(ExhaustiveEnum, "Three"))
  {
    ExhaustiveEnumAccepted();
    Over64(6);
  }

  /** The bits the setter of `SetExhaustiveThreeAt2` stores for "Three". */
  lemma SetExhaustiveThreeAt2Values()
    ensures WellFormed(ExhaustiveEnum) && IsVariant(ExhaustiveEnum, "Three")
    ensures Encode(ExhaustiveEnum, "Three") == 3
  {
    ExhaustiveEnumAccepted();
  }

  /** `with_exhaustive(2, Three)` on raw value 0b01_10. */
  lemma SetExhaustiveThreeAt2()
    ensures WellFormed(ExhaustiveEnum) && IsVariant(ExhaustiveEnum, "Three")
    ensures Over(Container(64, 6), 64)
    ensures WithExhaustive(Container(64, 6), 2, "Three") == Container(64, 0x36)
  {
    SetExhaustiveThreeAt2ByRange();
    SetExhaustiveThreeAt2Bits();
    SetExhaustiveThreeAt2Values();
  }

  /** Instance i of the enum array decodes bits 2i..=2i+1. */
  lemma IndexedExhaustiveGetters()
    ensures LayoutWellFormed(IndexedExhaustive) && 2 < Pow2(64) && 6 < Pow2(64)
    ensures Exhaustive(NewWithRawValue(IndexedExhaustive, 2), 0) == "Two"
    ensures Exhaustive(NewWithRawValue(IndexedExhaustive, 6), 1) == "One"
    ensures Exhaustive(NewWithRawValue(IndexedExhaustive, 6), 2) == "Zero"
  {
    IndexedExhaustiveAccepted();
    ExhaustiveOf2At0();
    ExhaustiveOf6At1();
    ExhaustiveOf6At2();
  }

  /** `with_exhaustive(2, Three)` on 0b01_10 gives 0b11_01_10. */
  lemma IndexedExhaustiveSetter()
    ensures LayoutWellFormed(IndexedExhaustive) && 6 < Pow2(64) && IsVariant(ExhaustiveEnum, "Three")
    ensures WithExhaustive(NewWithRawValue(IndexedExhaustive, 6), 2, "Three").rawValue == 0x36 // 0b11_01_10
  {
    IndexedExhaustiveAccepted();
    SetExhaustiveThreeAt2();
  }

  // ---------------------------------------------------------------------
  // bitfield_with_indexed_nonexhaustive_enum.
  // ---------------------------------------------------------------------

  const NonexhaustiveArrayField := Field(0, 1, ReadWrite, Array(8, None), EnumKind(NonExhaustiveEnum))

  /** `#[bitfield(u64, default: 0)] pub struct BitfieldWithIndexedEnums` with `nonexhaustive: [Option<NonExhaustiveEnum>; 8]`. */
  const IndexedNonExhaustive := Layout(64, Some(0), [NonexhaustiveArrayField])

  /** `nonexhaustive(i)`: bits 2i..=2i+1. */
  function Nonexhaustive(t: Container, i: nat): (r: Result<Variant, nat>)
    requires Over(t, 64) && i < 8
    ensures r == DecodePartial(NonExhaustiveEnum, Extract(t.rawValue, i * 2, 2))
  {
    NonexhaustiveFits(); NonExhaustiveEnumAccepted(); Get(t, NonexhaustiveArrayField, i).result
  }

  /** `with_nonexhaustive(i, v)`. */
  function WithNonexhaustive(t: Container, i: nat, v: Variant): (r: Container)
    requires Over(t, 64) && i < 8 && IsVariant(NonExhaustiveEnum, v)
    ensures Over(r, 64) && WellFormed(NonExhaustiveEnum) && r.rawValue == Insert(t.rawValue, i * 2, 2, Encode(NonExhaustiveEnum, v))
  {
    NonexhaustiveFits(); NonExhaustiveEnumAccepted(); With(t, NonexhaustiveArrayField, i, EnumValue(v))
  }

  /** The declaration of `nonexhaustive` is accepted in the 64-bit `BitfieldWithIndexedEnums`. */
  lemma NonexhaustiveFits()
    ensures FieldFits(NonexhaustiveArrayField, 64)
  {
    NonExhaustiveEnumAccepted();
  }

  /** Every field of `BitfieldWithIndexedEnums` lies inside its 64-bit container. */
  lemma IndexedNonExhaustiveFieldsFit()
    ensures forall a :: 0 <= a < |IndexedNonExhaustive.fields| ==> FieldFits(IndexedNonExhaustive.fields[a], IndexedNonExhaustive.width)
  {
    NonexhaustiveFits(); NonExhaustiveEnumAccepted();
  }

  /** The struct with an array of non-exhaustive enums is accepted. */
  lemma IndexedNonExhaustiveAccepted()
    ensures LayoutWellFormed(IndexedNonExhaustive)
  {
    IndexedNonExhaustiveFieldsFit();
  }

  /** The field bits of raw value 2 that `NonexhaustiveOf2At0` reads. */
  lemma NonexhaustiveOf2At0Bits()
    ensures Extract(2, 0, 2) == 2
  {
    assert Pow2(0) == 1 && Pow2(2) == 4 by { PowersTo32(); }
    ReadAt(2, 0, 2, 0, 2, 0, 1, 4);
  }

  /** The getters of `NonexhaustiveOf2At0` as bit ranges of raw value 2. */
  lemma NonexhaustiveOf2At0ByRange()
    ensures Over(Container(64, 2), 64)
    ensures Nonexhaustive(Container(64, 2), 0) == DecodePartial(NonExhaustiveEnum, Extract(2, 0, 2))
  {
    Over64(2);
  }

  /** The values the getters of `NonexhaustiveOf2At0` decode from those bits. */
  lemma NonexhaustiveOf2At0Values()
    ensures DecodePartial(NonExhaustiveEnum, 2) == Ok("Two")
  {
    NonExhaustiveEnumAccepted();
  }

  /** `nonexhaustive(0)` on raw value 2. */
  lemma NonexhaustiveOf2At0()
    ensures Over(Container(64, 2), 64)
    ensures Nonexhaustive(Container(64, 2), 0) == Ok("Two")
  {
    NonexhaustiveOf2At0ByRange();
    NonexhaustiveOf2At0Bits();
    NonexhaustiveOf2At0Values();
  }

  /** The field bits of raw value 6 that `NonexhaustiveOf6At1` reads. */
  lemma NonexhaustiveOf6At1Bits()
    ensures Extract(6, 2, 2) == 1
  {
    assert Pow2(2) == 4 by { PowersTo32(); }
    ReadAt(6, 2, 2, 0, 1, 2, 4, 4);
  }

  /** The getters of `NonexhaustiveOf6At1` as bit ranges of raw value 6. */
  lemma NonexhaustiveOf6At1ByRange()
    ensures Over(Container(64, 6), 64)
    ensures Nonexhaustive(Container(64, 6), 1) == DecodePartial(NonExhaustiveEnum, Extract(6, 2, 2))
  {
    Over64(6);
  }

  /** The values the getters of `NonexhaustiveOf6At1` decode from those bits. */
  lemma NonexhaustiveOf6At1Values()
    ensures DecodePartial(NonExhaustiveEnum, 1) == Ok("One")
  {
    NonExhaustiveEnumAccepted();
  }

  /** `nonexhaustive(1)` on raw value 6. */
  lemma NonexhaustiveOf6At1()
    ensures Over(Container(64, 6), 64)
    ensures Nonexhaustive(Container(64, 6), 1) == Ok("One")
  {
    NonexhaustiveOf6At1ByRange();
    NonexhaustiveOf6At1Bits();
    NonexhaustiveOf6At1Values();
  }

  /** The field bits of raw value 6 that `NonexhaustiveOf6At2` reads. */
  lemma NonexhaustiveOf6At2Bits()
    ensures Extract(6, 4, 2) == 0
  {
    assert Pow2(2) == 4 && Pow2(4) == 0x10 by { PowersTo32(); }
    ReadAt(6, 4, 2, 0, 0, 6, 0x10, 4);
  }

  /** The getters of `NonexhaustiveOf6At2` as bit ranges of raw value 6. */
  lemma NonexhaustiveOf6At2ByRange()
    ensures Over(Container(64, 6), 64)
    ensures Nonexhaustive(Container(64, 6), 2) == DecodePartial(NonExhaustiveEnum, Extract(6, 4, 2))
  {
    Over64(6);
  }

  /** The values the getters of `NonexhaustiveOf6At2` decode from those bits. */
  lemma NonexhaustiveOf6At2Values()
    ensures DecodePartial(NonExhaustiveEnum, 0) == Ok("Zero")
  {
    NonExhaustiveEnumAccepted();
  }

  /** `nonexhaustive(2)` on raw value 6. */
  lemma NonexhaustiveOf6At2()
    ensures Over(Container(64, 6), 64)
    ensures Nonexhaustive(Container(64, 6), 2) == Ok("Zero")
  {
    NonexhaustiveOf6At2ByRange();
    NonexhaustiveOf6At2Bits();
    NonexhaustiveOf6At2Values();
  }

  /** The raw value `SetNonexhaustiveTwoAt2` writes: 2 into bits 4..5 of 6. */
  lemma SetNonexhaustiveTwoAt2Bits()
    ensures Insert(6, 4, 2, 2) == 0x26
  {
    assert Pow2(2) == 4 && Pow2(4) == 0x10 by { PowersTo32(); }
    WriteAt(6, 4, 2, 0, 0, 6, 0x10, 4, 2);
  }

  /** The setter of `SetNonexhaustiveTwoAt2` as a bit-range write into raw value 6. */
  lemma SetNonexhaustiveTwoAt2ByRange()
    ensures WellFormed(NonExhaustiveEnum) && IsVariant(NonExhaustiveEnum, "Two")
    ensures Over(Container(64, 6), 64) && WithNonexhaustive(Container(64, 6), 2, "Two").rawValue == Insert(6, 4, 2, Encode(NonExhaustiveEnum, "Two"))
  {
    NonExhaustiveEnumAccepted();
    Over64(6);
  }

  /** The bits the setter of `SetNonexhaustiveTwoAt2` stores for "Two". */
  lemma SetNonexhaustiveTwoAt2Values()
    ensures WellFormed(NonExhaustiveEnum) && IsVariant(NonExhaustiveEnum, "Two")
    ensures Encode(NonExhaustiveEnum, "Two") == 2
  {
    NonExhaustiveEnumAccepted();
  }

  /** `with_nonexhaustive(2, Two)` on raw value 0b01_10. */
  lemma SetNonexhaustiveTwoAt2()
    ensures WellFormed(NonExhaustiveEnum) && IsVariant(NonExhaustiveEnum, "Two")
    ensures Over(Container(64, 6), 64)
    ensures WithNonexhaustive(Container(64, 6), 2, "Two") == Container(64, 0x26)
  {
    SetNonexhaustiveTwoAt2ByRange();
    SetNonexhaustiveTwoAt2Bits();
    SetNonexhaustiveTwoAt2Values();
  }

  /** Instance i of the enum array decodes bits 2i..=2i+1 to `Ok` of its variant. */
  lemma IndexedNonExhaustiveGetters()
    ensures LayoutWellFormed(IndexedNonExhaustive) && 2 < Pow2(64) && 6 < Pow2(64)
    ensures Nonexhaustive(NewWithRawValue(IndexedNonExhaustive, 2), 0) == Ok("Two")
    ensures Nonexhaustive(NewWithRawValue(IndexedNonExhaustive, 6), 1) == Ok("One")
    ensures Nonexhaustive(NewWithRawValue(IndexedNonExhaustive, 6), 2) == Ok("Zero")
  {
    IndexedNonExhaustiveAccepted();
    NonexhaustiveOf2At0();
    NonexhaustiveOf6At1();
    NonexhaustiveOf6At2();
  }

  /** `with_nonexhaustive(2, Two)` on 0b01_10 gives 0b10_01_10. */
  lemma IndexedNonExhaustiveSetter()
    ensures LayoutWellFormed(IndexedNonExhaustive) && 6 < Pow2(64) && IsVariant(NonExhaustiveEnum, "Two")
    ensures WithNonexhaustive(NewWithRawValue(IndexedNonExhaustive, 6), 2, "Two").rawValue == 0x26 // 0b10_01_10
  {
    IndexedNonExhaustiveAccepted();
    SetNonexhaustiveTwoAt2();
  }

  // ---------------------------------------------------------------------
  // bitfield_with_u8_enum.
  // ---------------------------------------------------------------------

  const Val8Field := Field(6, 13, ReadWrite, Single, EnumKind(U8Enum))

  /** `#[bitfield(u64, default: 0)] pub struct BitfieldWithIndexedEnums` with `#[bits(6..=13, rw)] val8: Option<NonExhaustiveEnum>`. */
  const U8EnumStruct := Layout(64, Some(0), [Val8Field])

  /** `val8()`: bits 6..=13. */
  function Val8(t: Container): (r: Result<Variant, nat>)
    requires Over(t, 64)
    ensures r == DecodePartial(U8Enum, Extract(t.rawValue, 6, 8))
  {
    Val8Fits(); U8EnumAccepted(); Get(t, Val8Field, 0).result
  }

  /** The declaration of `val8` is accepted in the 64-bit `BitfieldWithIndexedEnums`. */
  lemma Val8Fits()
    ensures FieldFits(Val8Field, 64)
  {
    U8EnumAccepted();
  }

  /** Every field of `BitfieldWithIndexedEnums` lies inside its 64-bit container. */
  lemma U8EnumStructFieldsFit()
    ensures forall a :: 0 <= a < |U8EnumStruct.fields| ==> FieldFits(U8EnumStruct.fields[a], U8EnumStruct.width)
  {
    Val8Fits(); U8EnumAccepted();
  }

  /** The struct with an eight-bit enum at bits 6..=13 is accepted. */
  lemma U8EnumStructAccepted()
    ensures LayoutWellFormed(U8EnumStruct)
  {
    U8EnumStructFieldsFit();
  }

  /** The field bits of raw value 0 that `Val8Of0` reads. */
  lemma Val8Of0Bits()
    ensures Extract(0, 6, 8) == 0
  {
    assert Pow2(6) == 0x40 && Pow2(8) == 0x100 by { PowersTo32(); }
    ReadAt(0, 6, 8, 0, 0, 0, 0x40, 0x100);
  }

  /** The getters of `Val8Of0` as bit ranges of raw value 0. */
  lemma Val8Of0ByRange()
    ensures Over(Container(64, 0), 64)
    ensures Val8(Container(64, 0)) == DecodePartial(U8Enum, Extract(0, 6, 8))
  {
    Over64(0);
  }

  /** The values the getters of `Val8Of0` decode from those bits. */
  lemma Val8Of0Values()
    ensures DecodePartial(U8Enum, 0) == Ok("Zero")
  {
    U8EnumAccepted();
  }

  /** `val8()` on raw value 0. */
  lemma Val8Of0()
    ensures Over(Container(64, 0), 64)
    ensures Val8(Container(64, 0)) == Ok("Zero")
  {
    Val8Of0ByRange();
    Val8Of0Bits();
    Val8Of0Values();
  }

  /** The field bits of raw value 0x40 that `Val8Of40` reads. */
  lemma Val8Of40Bits()
    ensures Extract(0x40, 6, 8) == 1
  {
    assert Pow2(6) == 0x40 && Pow2(8) == 0x100 by { PowersTo32(); }
    ReadAt(0x40, 6, 8, 0, 1, 0, 0x40, 0x100);
  }

  /** The getters of `Val8Of40` as bit ranges of raw value 0x40. */
  lemma Val8Of40ByRange()
    ensures Over(Container(64, 0x40), 64)
    ensures Val8(Container(64, 0x40)) == DecodePartial(U8Enum, Extract(0x40, 6, 8))
  {
    Over64(0x40);
  }

  /** The values the getters of `Val8Of40` decode from those bits. */
  lemma Val8Of40Values()
    ensures DecodePartial(U8Enum, 1) == Ok("One")
  {
    U8EnumAccepted();
  }

  /** `val8()` on raw value 0x40. */
  lemma Val8Of40()
    ensures Over(Container(64, 0x40), 64)
    ensures Val8(Container(64, 0x40)) == Ok("One")
  {
    Val8Of40ByRange();
    Val8Of40Bits();
    Val8Of40Values();
  }

  /** The field bits of raw value 0x2080 that `Val8Of2080` reads. */
  lemma Val8Of2080Bits()
    ensures Extract(0x2080, 6, 8) == 0x82
  {
    assert Pow2(6) == 0x40 && Pow2(8) == 0x100 by { PowersTo32(); }
    ReadAt(0x2080, 6, 8, 0, 0x82, 0, 0x40, 0x100);
  }

  /** The getters of `Val8Of2080` as bit ranges of raw value 0x2080. */
  lemma Val8Of2080ByRange()
    ensures Over(Container(64, 0x2080), 64)
    ensures Val8(Container(64, 0x2080)) == DecodePartial(U8Enum, Extract(0x2080, 6, 8))
  {
    Over64(0x2080);
  }

  /** The values the getters of `Val8Of2080` decode from those bits. */
  lemma Val8Of2080Values()
    ensures DecodePartial(U8Enum, 0x82) == Ok("Two")
  {
    U8EnumAccepted();
  }

  /** `val8()` on raw value 0x2080. */
  lemma Val8Of2080()
    ensures Over(Container(64, 0x2080), 64)
    ensures Val8(Container(64, 0x2080)) == Ok("Two")
  {
    Val8Of2080ByRange();
    Val8Of2080Bits();
    Val8Of2080Values();
  }

  /** The field bits of raw value 0x800 that `Val8Of800` reads. */
  lemma Val8Of800Bits()
    ensures Extract(0x800, 6, 8) == 0x20
  {
    assert Pow2(6) == 0x40 && Pow2(8) == 0x100 by { PowersTo32(); }
    ReadAt(0x800, 6, 8, 0, 0x20, 0, 0x40, 0x100);
  }

  /** The getters of `Val8Of800` as bit ranges of raw value 0x800. */
  lemma Val8Of800ByRange()
    ensures Over(Container(64, 0x800), 64)
    ensures Val8(Container(64, 0x800)) == DecodePartial(U8Enum, Extract(0x800, 6, 8))
  {
    Over64(0x800);
  }

  /** The values the getters of `Val8Of800` decode from those bits. */
  lemma Val8Of800Values()
    ensures DecodePartial(U8Enum, 0x20) == Err(0x20)
  {
    U8EnumAccepted();
  }

  /** `val8()` on raw value 0x800. */
  lemma Val8Of800()
    ensures Over(Container(64, 0x800), 64)
    ensures Val8(Container(64, 0x800)) == Err(0x20)
  {
    Val8Of800ByRange();
    Val8Of800Bits();
    Val8Of800Values();
  }

  /** `val8()` decodes bits 6..=13: the declared values give `Ok`, and 0b00100000 gives `Err(0b00100000)`. */
  lemma U8EnumGetters()
    ensures LayoutWellFormed(U8EnumStruct) && 0 < Pow2(64) && 0x40 < Pow2(64) && 0x2080 < Pow2(64) && 0x800 < Pow2(64)
    ensures Val8(NewWithRawValue(U8EnumStruct, 0)) == Ok("Zero")
    ensures Val8(NewWithRawValue(U8EnumStruct, 0x40)) == Ok("One")
    ensures Val8(NewWithRawValue(U8EnumStruct, 0x2080)) == Ok("Two")
    ensures Val8(NewWithRawValue(U8EnumStruct, 0x800)) == Err(0x20)
  {
    U8EnumStructAccepted();
    Val8Of0();
    Val8Of40();
    Val8Of2080();
    Val8Of800();
  }
}
