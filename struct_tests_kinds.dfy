/**
  The bool and signed fields of the struct test suite, and a signed field
  that covers its whole container. The functions named after a field are
  the getter and the setter the macro generates for it; each vector is
  proved in small steps (one read range or one write per lemma) and the
  test's lemma chains them.
*/
module FieldKindTests {
  import opened Wrappers
  import opened BitRange
  import opened TwosComplement
  import opened Bitfield
  import opened TestSupport

  // ---------------------------------------------------------------------
  // test_bool.
  // ---------------------------------------------------------------------

  const Bit0Field := Field(0, 0, ReadWrite, Single, BoolKind)
  const Bit1Field := Field(1, 1, ReadWrite, Single, BoolKind)
  const NField := Field(2, 9, ReadOnly, Single, UnsignedKind)
  const MField := Field(10, 12, WriteOnly, Single, UnsignedKind)
  const OField := Field(13, 15, ReadOnly, Single, UnsignedKind)

  /** `#[bitfield(u16, default: 0)] struct Test`: two bools, a read-only, a write-only and a read-only range. */
  const BoolStruct := Layout(16, Some(0), [Bit0Field, Bit1Field, NField, MField, OField])

  /** `bit0()`: bit 0. */
  function Bit0(t: Container): (r: bool)
    requires Over(t, 16)
    ensures r == (Extract(t.rawValue, 0, 1) != 0)
  {
    Bit0Fits(); Get(t, Bit0Field, 0).b
  }

  /** `bit1()`: bit 1. */
  function Bit1(t: Container): (r: bool)
    requires Over(t, 16)
    ensures r == (Extract(t.rawValue, 1, 1) != 0)
  {
    Bit1Fits(); Get(t, Bit1Field, 0).b
  }

  /** `with_bit0(v)`. */
  function WithBit0(t: Container, v: bool): (r: Container)
    requires Over(t, 16)
    ensures Over(r, 16) && r.rawValue == Insert(t.rawValue, 0, 1, if v then 1 else 0)
  {
    Bit0Fits(); With(t, Bit0Field, 0, BoolValue(v))
  }

  /** `with_bit1(v)`. */
  function WithBit1(t: Container, v: bool): (r: Container)
    requires Over(t, 16)
    ensures Over(r, 16) && r.rawValue == Insert(t.rawValue, 1, 1, if v then 1 else 0)
  {
    Bit1Fits(); With(t, Bit1Field, 0, BoolValue(v))
  }

  /** The declaration of `bit0` is accepted in the 16-bit `Test`. */
  lemma Bit0Fits()
    ensures FieldFits(Bit0Field, 16)
  {
  }

  /** The declaration of `bit1` is accepted in the 16-bit `Test`. */
  lemma Bit1Fits()
    ensures FieldFits(Bit1Field, 16)
  {
  }

  /** The declaration of `n` is accepted in the 16-bit `Test`. */
  lemma NFits()
    ensures FieldFits(NField, 16)
  {
  }

  /** The declaration of `m` is accepted in the 16-bit `Test`. */
  lemma MFits()
    ensures FieldFits(MField, 16)
  {
  }

  /** The declaration of `o` is accepted in the 16-bit `Test`. */
  lemma OFits()
    ensures FieldFits(OField, 16)
  {
  }

  /** Fields 0 to 2 of `Test` lie inside its 16-bit container. */
  lemma BoolStructFieldsFit0To2()
    ensures |BoolStruct.fields| == 5
    ensures forall a :: 0 <= a < 3 ==> FieldFits(BoolStruct.fields[a], BoolStruct.width)
  {
    Bit0Fits();
    Bit1Fits();
    NFits();
  }

  /** Fields 3 to 4 of `Test` lie inside its 16-bit container. */
  lemma BoolStructFieldsFit3To4()
    ensures |BoolStruct.fields| == 5
    ensures forall a :: 3 <= a < 5 ==> FieldFits(BoolStruct.fields[a], BoolStruct.width)
  {
    MFits();
    OFits();
  }

  /** The declaration with bool fields is accepted. */
  lemma BoolStructAccepted()
    ensures LayoutWellFormed(BoolStruct)
  {
    BoolStructFieldsFit0To2();
    BoolStructFieldsFit3To4();
  }

  /** The field bits of raw value 0 that `BitsOfZero` reads. */
  lemma BitsOfZeroBits()
    ensures Extract(0, 0, 1) == 0
    ensures Extract(0, 1, 1) == 0
  {
    assert Pow2(0) == 1 && Pow2(1) == 2 by { PowersTo32(); }
    ReadAt(0, 0, 1, 0, 0, 0, 1, 2);
    ReadAt(0, 1, 1, 0, 0, 0, 2, 2);
  }

  /** The getters of `BitsOfZero` as bit ranges of raw value 0. */
  lemma BitsOfZeroByRange()
    ensures Over(Container(16, 0), 16)
    ensures Bit0(Container(16, 0)) == (Extract(0, 0, 1) != 0)
    ensures Bit1(Container(16, 0)) == (Extract(0, 1, 1) != 0)
  {
    Over16(0);
  }

  /** Both bool getters on raw value 0. */
  lemma BitsOfZero()
    ensures Over(Container(16, 0), 16)
    ensures Bit0(Container(16, 0)) == false
    ensures Bit1(Container(16, 0)) == false
  {
    BitsOfZeroByRange();
    BitsOfZeroBits();
  }

  /** The raw value `SetBit0OnZero` writes: 1 into bits 0..0 of 0. */
  lemma SetBit0OnZeroBits()
    ensures Insert(0, 0, 1, 1) == 1
  {
    assert Pow2(0) == 1 && Pow2(1) == 2 by { PowersTo32(); }
    WriteAt(0, 0, 1, 0, 0, 0, 1, 2, 1);
  }

  /** The setter of `SetBit0OnZero` as a bit-range write into raw value 0. */
  lemma SetBit0OnZeroByRange()
    ensures Over(Container(16, 0), 16) && WithBit0(Container(16, 0), true).rawValue == Insert(0, 0, 1, 1)
  {
    Over16(0);
  }

  /** `with_bit0(true)` on raw value 0. */
  lemma SetBit0OnZero()
    ensures Over(Container(16, 0), 16)
    ensures WithBit0(Container(16, 0), true) == Container(16, 1)
  {
    SetBit0OnZeroByRange();
    SetBit0OnZeroBits();
  }

  /** The field bits of raw value 1 that `BitsOfOne` reads. */
  lemma BitsOfOneBits()
    ensures Extract(1, 0, 1) == 1
    ensures Extract(1, 1, 1) == 0
  {
    assert Pow2(0) == 1 && Pow2(1) == 2 by { PowersTo32(); }
    ReadAt(1, 0, 1, 0, 1, 0, 1, 2);
    ReadAt(1, 1, 1, 0, 0, 1, 2, 2);
  }

  /** The getters of `BitsOfOne` as bit ranges of raw value 1. */
  lemma BitsOfOneByRange()
    ensures Over(Container(16, 1), 16)
    ensures Bit0(Container(16, 1)) == (Extract(1, 0, 1) != 0)
    ensures Bit1(Container(16, 1)) == (Extract(1, 1, 1) != 0)
  {
    Over16(1);
  }

  /** Both bool getters on raw value 0b01. */
  lemma BitsOfOne()
    ensures Over(Container(16, 1), 16)
    ensures Bit0(Container(16, 1)) == true
    ensures Bit1(Container(16, 1)) == false
  {
    BitsOfOneByRange();
    BitsOfOneBits();
  }

  /** The raw value `SetBit1OnZero` writes: 1 into bits 1..1 of 0. */
  lemma SetBit1OnZeroBits()
    ensures Insert(0, 1, 1, 1) == 2
  {
    assert Pow2(1) == 2 by { PowersTo32(); }
    WriteAt(0, 1, 1, 0, 0, 0, 2, 2, 1);
  }

  /** The setter of `SetBit1OnZero` as a bit-range write into raw value 0. */
  lemma SetBit1OnZeroByRange()
    ensures Over(Container(16, 0), 16) && WithBit1(Container(16, 0), true).rawValue == Insert(0, 1, 1, 1)
  {
    Over16(0);
  }

  /** `with_bit1(true)` on raw value 0. */
  lemma SetBit1OnZero()
    ensures Over(Container(16, 0), 16)
    ensures WithBit1(Container(16, 0), true) == Container(16, 2)
  {
    SetBit1OnZeroByRange();
    SetBit1OnZeroBits();
  }

  /** The field bits of raw value 2 that `BitsOfTwo` reads. */
  lemma BitsOfTwoBits()
    ensures Extract(2, 0, 1) == 0
    ensures Extract(2, 1, 1) == 1
  {
    assert Pow2(0) == 1 && Pow2(1) == 2 by { PowersTo32(); }
    ReadAt(2, 0, 1, 1, 0, 0, 1, 2);
    ReadAt(2, 1, 1, 0, 1, 0, 2, 2);
  }

  /** The getters of `BitsOfTwo` as bit ranges of raw value 2. */
  lemma BitsOfTwoByRange()
    ensures Over(Container(16, 2), 16)
    ensures Bit0(Container(16, 2)) == (Extract(2, 0, 1) != 0)
    ensures Bit1(Container(16, 2)) == (Extract(2, 1, 1) != 0)
  {
    Over16(2);
  }

  /** Both bool getters on raw value 0b10. */
  lemma BitsOfTwo()
    ensures Over(Container(16, 2), 16)
    ensures Bit0(Container(16, 2)) == false
    ensures Bit1(Container(16, 2)) == true
  {
    BitsOfTwoByRange();
    BitsOfTwoBits();
  }

  /** `new()` reads both bools as false. */
  lemma BoolFieldsNew()
    ensures LayoutWellFormed(BoolStruct)
    ensures var t := New(BoolStruct);
      !Bit0(t) && !Bit1(t) && t.rawValue == 0
  {
    BoolStructAccepted();
    BitsOfZero();
  }

  /** `with_bit0(true)` on `new()` sets exactly bit 0. */
  lemma BoolFieldsWithBit0()
    ensures LayoutWellFormed(BoolStruct)
    ensures var t := WithBit0(New(BoolStruct), true);
      Bit0(t) && !Bit1(t) && t.rawValue == 1 // 0b01
  {
    BoolStructAccepted();
    SetBit0OnZero();
    BitsOfOne();
  }

  /** `with_bit1(true)` on `new()` sets exactly bit 1. */
  lemma BoolFieldsWithBit1()
    ensures LayoutWellFormed(BoolStruct)
    ensures var t := WithBit1(New(BoolStruct), true);
      !Bit0(t) && Bit1(t) && t.rawValue == 2 // 0b10
  {
    BoolStructAccepted();
    SetBit1OnZero();
    BitsOfTwo();
  }

  // ---------------------------------------------------------------------
  // signed_vs_unsigned.
  // ---------------------------------------------------------------------

  const Unsigned1Field := Field(0, 7, ReadWrite, Single, UnsignedKind)
  const Unsigned2Field := Field(8, 15, ReadWrite, Single, UnsignedKind)
  const Signed1Field := Field(16, 23, ReadWrite, Single, SignedKind)
  const Signed2Field := Field(24, 31, ReadWrite, Single, SignedKind)

  /** `#[bitfield(u32)] struct Test`: two `u8` and two `i8` fields, and no default. */
  const SignedStruct := Layout(32, None, [Unsigned1Field, Unsigned2Field, Signed1Field, Signed2Field])

  /** `unsigned1()`: bits 0..=7. */
  function Unsigned1(t: Container): (r: nat)
    requires Over(t, 32)
    ensures r == Extract(t.rawValue, 0, 8)
  {
    Unsigned1Fits(); Get(t, Unsigned1Field, 0).n
  }

  /** `unsigned2()`: bits 8..=15. */
  function Unsigned2(t: Container): (r: nat)
    requires Over(t, 32)
    ensures r == Extract(t.rawValue, 8, 8)
  {
    Unsigned2Fits(); Get(t, Unsigned2Field, 0).n
  }

  /** `signed1()`: bits 16..=23 as an `i8`. */
  function Signed1(t: Container): (r: int)
    requires Over(t, 32)
    ensures r == SignExtend(Extract(t.rawValue, 16, 8), 8)
  {
    Signed1Fits(); Get(t, Signed1Field, 0).s
  }

  /** `signed2()`: bits 24..=31 as an `i8`. */
  function Signed2(t: Container): (r: int)
    requires Over(t, 32)
    ensures r == SignExtend(Extract(t.rawValue, 24, 8), 8)
  {
    Signed2Fits(); Get(t, Signed2Field, 0).s
  }

  /** `with_unsigned1(v)`. */
  function WithUnsigned1(t: Container, v: nat): (r: Container)
    requires Over(t, 32)
    ensures Over(r, 32) && r.rawValue == Insert(t.rawValue, 0, 8, v)
  {
    Unsigned1Fits(); With(t, Unsigned1Field, 0, UnsignedValue(v))
  }

  /** `with_unsigned2(v)`. */
  function WithUnsigned2(t: Container, v: nat): (r: Container)
    requires Over(t, 32)
    ensures Over(r, 32) && r.rawValue == Insert(t.rawValue, 8, 8, v)
  {
    Unsigned2Fits(); With(t, Unsigned2Field, 0, UnsignedValue(v))
  }

  /** `with_signed1(v)`. */
  function WithSigned1(t: Container, v: int): (r: Container)
    requires Over(t, 32)
    ensures Over(r, 32) && r.rawValue == Insert(t.rawValue, 16, 8, ToTwos(v, 8))
  {
    Signed1Fits(); With(t, Signed1Field, 0, SignedValue(v))
  }

  /** `with_signed2(v)`. */
  function WithSigned2(t: Container, v: int): (r: Container)
    requires Over(t, 32)
    ensures Over(r, 32) && r.rawValue == Insert(t.rawValue, 24, 8, ToTwos(v, 8))
  {
    Signed2Fits(); With(t, Signed2Field, 0, SignedValue(v))
  }

  /** The declaration of `unsigned1` is accepted in the 32-bit `Test`. */
  lemma Unsigned1Fits()
    ensures FieldFits(Unsigned1Field, 32)
  {
  }

  /** The declaration of `unsigned2` is accepted in the 32-bit `Test`. */
  lemma Unsigned2Fits()
    ensures FieldFits(Unsigned2Field, 32)
  {
  }

  /** The declaration of `signed1` is accepted in the 32-bit `Test`. */
  lemma Signed1Fits()
    ensures FieldFits(Signed1Field, 32)
  {
  }

  /** The declaration of `signed2` is accepted in the 32-bit `Test`. */
  lemma Signed2Fits()
    ensures FieldFits(Signed2Field, 32)
  {
  }

  /** Fields 0 to 2 of `Test` lie inside its 32-bit container. */
  lemma SignedStructFieldsFit0To2()
    ensures |SignedStruct.fields| == 4
    ensures forall a :: 0 <= a < 3 ==> FieldFits(SignedStruct.fields[a], SignedStruct.width)
  {
    Unsigned1Fits();
    Unsigned2Fits();
    Signed1Fits();
  }

  /** Fields 3 to 3 of `Test` lie inside its 32-bit container. */
  lemma SignedStructFieldsFit3To3()
    ensures |SignedStruct.fields| == 4
    ensures forall a :: 3 <= a < 4 ==> FieldFits(SignedStruct.fields[a], SignedStruct.width)
  {
    Signed2Fits();
  }

  /** The declaration with signed fields is accepted. */
  lemma SignedStructAccepted()
    ensures LayoutWellFormed(SignedStruct)
  {
    SignedStructFieldsFit0To2();
    SignedStructFieldsFit3To3();
  }

  /** The field bits of raw value 0x7FFF_7FFF that `FieldsOf7FFF7FFF` reads. */
  lemma FieldsOf7FFF7FFFBits0()
    ensures Extract(0x7FFF_7FFF, 0, 8) == 0xFF
    ensures Extract(0x7FFF_7FFF, 8, 8) == 0x7F
  {
    assert Pow2(0) == 1 && Pow2(8) == 0x100 by { PowersTo32(); }
    ReadAt(0x7FFF_7FFF, 0, 8, 0x7F_FF7F, 0xFF, 0, 1, 0x100);
    ReadAt(0x7FFF_7FFF, 8, 8, 0x7FFF, 0x7F, 0xFF, 0x100, 0x100);
  }

  /** The field bits of raw value 0x7FFF_7FFF that `FieldsOf7FFF7FFF` reads. */
  lemma FieldsOf7FFF7FFFBits1()
    ensures Extract(0x7FFF_7FFF, 16, 8) == 0xFF
    ensures Extract(0x7FFF_7FFF, 24, 8) == 0x7F
  {
    assert Pow2(8) == 0x100 && Pow2(16) == 0x1_0000 && Pow2(24) == 0x100_0000 by { PowersTo32(); }
    ReadAt(0x7FFF_7FFF, 16, 8, 0x7F, 0xFF, 0x7FFF, 0x1_0000, 0x100);
    ReadAt(0x7FFF_7FFF, 24, 8, 0, 0x7F, 0xFF_7FFF, 0x100_0000, 0x100);
  }

  /** The getters of `FieldsOf7FFF7FFF` as bit ranges of raw value 0x7FFF_7FFF. */
  lemma FieldsOf7FFF7FFFByRange()
    ensures Over(Container(32, 0x7FFF_7FFF), 32)
    ensures Unsigned1(Container(32, 0x7FFF_7FFF)) == Extract(0x7FFF_7FFF, 0, 8)
    ensures Unsigned2(Container(32, 0x7FFF_7FFF)) == Extract(0x7FFF_7FFF, 8, 8)
    ensures Signed1(Container(32, 0x7FFF_7FFF)) == SignExtend(Extract(0x7FFF_7FFF, 16, 8), 8)
    ensures Signed2(Container(32, 0x7FFF_7FFF)) == SignExtend(Extract(0x7FFF_7FFF, 24, 8), 8)
  {
    Over32(0x7FFF_7FFF);
  }

  /** The values the getters of `FieldsOf7FFF7FFF` decode from those bits. */
  lemma FieldsOf7FFF7FFFValues()
    ensures Pow2(8) == 0x100
    ensures SignExtend(0xFF, 8) == -1
    ensures SignExtend(0x7F, 8) == 0x7F
  {
    assert Pow2(7) == 0x80 && Pow2(8) == 0x100 by { PowersTo32(); }
  }

  /** The four getters on raw value 0x7FFF7FFF. */
  lemma FieldsOf7FFF7FFF()
    ensures Over(Container(32, 0x7FFF_7FFF), 32)
    ensures Unsigned1(Container(32, 0x7FFF_7FFF)) == 0xFF
    ensures Unsigned2(Container(32, 0x7FFF_7FFF)) == 0x7F
    ensures Signed1(Container(32, 0x7FFF_7FFF)) == -1
    ensures Signed2(Container(32, 0x7FFF_7FFF)) == 0x7F
  {
    FieldsOf7FFF7FFFByRange();
    FieldsOf7FFF7FFFBits0();
    FieldsOf7FFF7FFFBits1();
    FieldsOf7FFF7FFFValues();
  }

  /** The raw value `SetUnsigned1OnZero` writes: 0x7F into bits 0..7 of 0. */
  lemma SetUnsigned1OnZeroBits()
    ensures Insert(0, 0, 8, 0x7F) == 0x7F
  {
    assert Pow2(0) == 1 && Pow2(8) == 0x100 by { PowersTo32(); }
    WriteAt(0, 0, 8, 0, 0, 0, 1, 0x100, 0x7F);
  }

  /** The setter of `SetUnsigned1OnZero` as a bit-range write into raw value 0. */
  lemma SetUnsigned1OnZeroByRange()
    ensures Over(Container(32, 0), 32) && WithUnsigned1(Container(32, 0), 0x7F).rawValue == Insert(0, 0, 8, 0x7F)
  {
    Over32(0);
  }

  /** `with_unsigned1(0x7F)` on raw value 0. */
  lemma SetUnsigned1OnZero()
    ensures Over(Container(32, 0), 32)
    ensures WithUnsigned1(Container(32, 0), 0x7F) == Container(32, 0x7F)
  {
    SetUnsigned1OnZeroByRange();
    SetUnsigned1OnZeroBits();
  }

  /** The raw value `SetUnsigned2` writes: 0xFF into bits 8..15 of 0x7F. */
  lemma SetUnsigned2Bits()
    ensures Insert(0x7F, 8, 8, 0xFF) == 0xFF7F
  {
    assert Pow2(8) == 0x100 by { PowersTo32(); }
    WriteAt(0x7F, 8, 8, 0, 0, 0x7F, 0x100, 0x100, 0xFF);
  }

  /** The setter of `SetUnsigned2` as a bit-range write into raw value 0x7F. */
  lemma SetUnsigned2ByRange()
    ensures Over(Container(32, 0x7F), 32) && WithUnsigned2(Container(32, 0x7F), 0xFF).rawValue == Insert(0x7F, 8, 8, 0xFF)
  {
    Over32(0x7F);
  }

  /** `with_unsigned2(0xFF)` on raw value 0x7F. */
  lemma SetUnsigned2()
    ensures Over(Container(32, 0x7F), 32)
    ensures WithUnsigned2(Container(32, 0x7F), 0xFF) == Container(32, 0xFF7F)
  {
    SetUnsigned2ByRange();
    SetUnsigned2Bits();
  }

  /** The raw value `SetSigned1` writes: 0x7F into bits 16..23 of 0xFF7F. */
  lemma SetSigned1Bits()
    ensures Insert(0xFF7F, 16, 8, 0x7F) == 0x7F_FF7F
  {
    assert Pow2(8) == 0x100 && Pow2(16) == 0x1_0000 by { PowersTo32(); }
    WriteAt(0xFF7F, 16, 8, 0, 0, 0xFF7F, 0x1_0000, 0x100, 0x7F);
  }

  /** The setter of `SetSigned1` as a bit-range write into raw value 0xFF7F. */
  lemma SetSigned1ByRange()
    ensures Over(Container(32, 0xFF7F), 32) && WithSigned1(Container(32, 0xFF7F), 0x7F).rawValue == Insert(0xFF7F, 16, 8, ToTwos(0x7F, 8))
  {
    Over32(0xFF7F);
  }

  /** The bits the setter of `SetSigned1` stores for 0x7F. */
  lemma SetSigned1Values()
    ensures ToTwos(0x7F, 8) == 0x7F
  {
    assert Pow2(8) == 0x100 by { PowersTo32(); }
  }

  /** `with_signed1(127)` on raw value 0xFF7F. */
  lemma SetSigned1()
    ensures Over(Container(32, 0xFF7F), 32)
    ensures WithSigned1(Container(32, 0xFF7F), 0x7F) == Container(32, 0x7F_FF7F)
  {
    SetSigned1ByRange();
    SetSigned1Bits();
    SetSigned1Values();
  }

  /** The raw value `SetSigned2` writes: 0xFF into bits 24..31 of 0x7F_FF7F. */
  lemma SetSigned2Bits()
    ensures Insert(0x7F_FF7F, 24, 8, 0xFF) == 0xFF7F_FF7F
  {
    assert Pow2(8) == 0x100 && Pow2(24) == 0x100_0000 by { PowersTo32(); }
    WriteAt(0x7F_FF7F, 24, 8, 0, 0, 0x7F_FF7F, 0x100_0000, 0x100, 0xFF);
  }

  /** The setter of `SetSigned2` as a bit-range write into raw value 0x7F_FF7F. */
  lemma SetSigned2ByRange()
    ensures Over(Container(32, 0x7F_FF7F), 32) && WithSigned2(Container(32, 0x7F_FF7F), -1).rawValue == Insert(0x7F_FF7F, 24, 8, ToTwos(-1, 8))
  {
    Over32(0x7F_FF7F);
  }

  /** The bits the setter of `SetSigned2` stores for -1. */
  lemma SetSigned2Values()
    ensures ToTwos(-1, 8) == 0xFF
  {
    assert Pow2(8) == 0x100 by { PowersTo32(); }
  }

  /** `with_signed2(-1)` on raw value 0x7FFF7F: every bit of the field is set. */
  lemma SetSigned2()
    ensures Over(Container(32, 0x7F_FF7F), 32)
    ensures WithSigned2(Container(32, 0x7F_FF7F), -1) == Container(32, 0xFF7F_FF7F)
  {
    SetSigned2ByRange();
    SetSigned2Bits();
    SetSigned2Values();
  }

  /** The same byte reads as 255 through a `u8` getter and as -1 through an `i8` getter. */
  lemma SignedVsUnsignedGetters()
    ensures LayoutWellFormed(SignedStruct) && 0x7FFF_7FFF < Pow2(32)
    ensures var t := NewWithRawValue(SignedStruct, 0x7FFF_7FFF);
      Unsigned1(t) == 255 && Unsigned2(t) == 127 && Signed1(t) == -1 && Signed2(t) == 127
  {
    SignedStructAccepted();
    FieldsOf7FFF7FFF();
  }

  /** Storing 127 and -1 in the signed fields gives their two's-complement bytes. */
  lemma SignedVsUnsignedSetters()
    ensures LayoutWellFormed(SignedStruct)
    ensures var t := WithSigned2(WithSigned1(WithUnsigned2(WithUnsigned1(NewWithRawValue(SignedStruct, 0), 0x7F), 0xFF), 127), -1);
      t.rawValue == 0xFF7F_FF7F
  {
    SignedStructAccepted();
    SetUnsigned1OnZero();
    SetUnsigned2();
    SetSigned1();
    SetSigned2();
  }

  // ---------------------------------------------------------------------
  // just_one_bitrange.
  // ---------------------------------------------------------------------

  const AField := Field(0, 15, ReadWrite, Single, SignedKind)

  /** `#[bitfield(u16, default: 0)] pub struct JustOneBitRange`: one `i16` over all 16 bits. */
  const JustOneBitRange := Layout(16, Some(0), [AField])

  /** `a()`: all 16 bits as an `i16`. */
  function A(t: Container): (r: int)
    requires Over(t, 16)
    ensures r == SignExtend(Extract(t.rawValue, 0, 16), 16)
  {
    AFits(); Get(t, AField, 0).s
  }

  /** `with_a(v)`. */
  function WithA(t: Container, v: int): (r: Container)
    requires Over(t, 16)
    ensures Over(r, 16) && r.rawValue == Insert(t.rawValue, 0, 16, ToTwos(v, 16))
  {
    AFits(); With(t, AField, 0, SignedValue(v))
  }

  /** The declaration of `a` is accepted in the 16-bit `JustOneBitRange`. */
  lemma AFits()
    ensures FieldFits(AField, 16)
  {
  }

  /** Every field of `JustOneBitRange` lies inside its 16-bit container. */
  lemma JustOneBitRangeFieldsFit()
    ensures forall a :: 0 <= a < |JustOneBitRange.fields| ==> FieldFits(JustOneBitRange.fields[a], JustOneBitRange.width)
  {
    AFits();
  }

  /** The one-field declaration is accepted. */
  lemma JustOneBitRangeAccepted()
    ensures LayoutWellFormed(JustOneBitRange)
  {
    JustOneBitRangeFieldsFit();
  }

  /** The raw value `SetAOnZero` writes: 0x738F into bits 0..15 of 0. */
  lemma SetAOnZeroBits()
    ensures Insert(0, 0, 16, 0x738F) == 0x738F
  {
    assert Pow2(0) == 1 && Pow2(16) == 0x1_0000 by { PowersTo32(); }
    WriteAt(0, 0, 16, 0, 0, 0, 1, 0x1_0000, 0x738F);
  }

  /** The setter of `SetAOnZero` as a bit-range write into raw value 0. */
  lemma SetAOnZeroByRange()
    ensures Over(Container(16, 0), 16) && WithA(Container(16, 0), 0x738F).rawValue == Insert(0, 0, 16, ToTwos(0x738F, 16))
  {
    Over16(0);
  }

  /** The bits the setter of `SetAOnZero` stores for 0x738F. */
  lemma SetAOnZeroValues()
    ensures ToTwos(0x738F, 16) == 0x738F
  {
    assert Pow2(16) == 0x1_0000 by { PowersTo32(); }
  }

  /** `with_a(0b0111001110001111)` on raw value 0. */
  lemma SetAOnZero()
    ensures Over(Container(16, 0), 16)
    ensures WithA(Container(16, 0), 0x738F) == Container(16, 0x738F)
  {
    SetAOnZeroByRange();
    SetAOnZeroBits();
    SetAOnZeroValues();
  }

  /** The field bits of raw value 0x738F that `AOf738F` reads. */
  lemma AOf738FBits()
    ensures Extract(0x738F, 0, 16) == 0x738F
  {
    assert Pow2(0) == 1 && Pow2(16) == 0x1_0000 by { PowersTo32(); }
    ReadAt(0x738F, 0, 16, 0, 0x738F, 0, 1, 0x1_0000);
  }

  /** The getters of `AOf738F` as bit ranges of raw value 0x738F. */
  lemma AOf738FByRange()
    ensures Over(Container(16, 0x738F), 16)
    ensures A(Container(16, 0x738F)) == SignExtend(Extract(0x738F, 0, 16), 16)
  {
    Over16(0x738F);
  }

  /** The values the getters of `AOf738F` decode from those bits. */
  lemma AOf738FValues()
    ensures Pow2(16) == 0x1_0000
    ensures SignExtend(0x738F, 16) == 0x738F
  {
    assert Pow2(15) == 0x8000 && Pow2(16) == 0x1_0000 by { PowersTo32(); }
  }

  /** `a()` on raw value 0b0111001110001111. */
  lemma AOf738F()
    ensures Over(Container(16, 0x738F), 16)
    ensures A(Container(16, 0x738F)) == 0x738F
  {
    AOf738FByRange();
    AOf738FBits();
    AOf738FValues();
  }

  /** A field over the whole container stores its value as the raw value and reads it back. */
  lemma JustOneBitRangeRoundTrip()
    ensures LayoutWellFormed(JustOneBitRange)
    ensures var s1 := WithA(New(JustOneBitRange), 0x738F); // 0b0111001110001111
      s1.rawValue == 0x738F && A(s1) == 0x738F
  {
    JustOneBitRangeAccepted();
    SetAOnZero();
    AOf738F();
  }
}
