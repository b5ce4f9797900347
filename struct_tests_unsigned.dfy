/**
  The unsigned-field structs of the struct test suite: construction and
  defaults, the u128 structs with six and with two fields, and the masking
  of a setter. The functions named after a field are the getter and the
  setter the macro generates for it; each vector is proved in small steps
  (one read range or one write per lemma) and the test's lemma chains them.
*/
module UnsignedFieldTests {
  import opened Wrappers
  import opened BitRange
  import opened Bitfield
  import opened TestSupport

  // ---------------------------------------------------------------------
  // test_construction, default_value, default_value_const.
  // ---------------------------------------------------------------------

  /** `#[bitfield(u32, default: 0)] struct Test2 {}`. */
  const EmptyStruct := Layout(32, Some(0), [])

  /** `#[bitfield(u32, default: 0xDEADBEEF)] struct Test {}`. */
  const DeadBeefStruct := Layout(32, Some(0xDEAD_BEEF), [])

  /** `#[bitfield(u32, default: DEFAULT)]` with `const DEFAULT: u32 = 0xBADCAFE`. */
  const BadCafeStruct := Layout(32, Some(0xBAD_CAFE), [])

  /** `new()` gives the default 0 and `new_with_raw_value(45)` gives 45. */
  lemma Construction()
    ensures LayoutWellFormed(EmptyStruct) && 45 < Pow2(32)
    ensures New(EmptyStruct).rawValue == 0
    ensures NewWithRawValue(EmptyStruct, 45).rawValue == 45
  {
    PowersTo32();
  }

  /** `new()` gives the declared default, written as a literal or as a constant. */
  lemma DefaultValue()
    ensures LayoutWellFormed(DeadBeefStruct) && New(DeadBeefStruct).rawValue == 0xDEAD_BEEF
    ensures LayoutWellFormed(BadCafeStruct) && New(BadCafeStruct).rawValue == 0xBAD_CAFE
  {
    PowersTo32();
  }

  // ---------------------------------------------------------------------
  // test_getter_and_setter, test_getter_and_setter_arbitrary_uint.
  // ---------------------------------------------------------------------

  const Val30Field := Field(98, 127, ReadWrite, Single, UnsignedKind)
  const Val57Field := Field(41, 97, ReadWrite, Single, UnsignedKind)
  const Val13Field := Field(28, 40, ReadWrite, Single, UnsignedKind)
  const Val16Field := Field(12, 27, ReadWrite, Single, UnsignedKind)
  const BaudrateField := Field(4, 11, ReadWrite, Single, UnsignedKind)
  const SomeOtherBitsField := Field(0, 3, ReadWrite, Single, UnsignedKind)

  /** `#[bitfield(u128, default: 0)] struct Test2` of `test_getter_and_setter`. */
  const SixFieldStruct := Layout(128, Some(0), [Val30Field, Val57Field, Val13Field, Val16Field, BaudrateField, SomeOtherBitsField])

  /** `#[bitfield(u128, default: 0)] struct Test2` of `test_getter_and_setter_arbitrary_uint`. */
  const TwoFieldStruct := Layout(128, Some(0), [BaudrateField, SomeOtherBitsField])

  /** `val30()`: bits 98..=127. */
  function Val30(t: Container): (r: nat)
    requires Over(t, 128)
    ensures r == Extract(t.rawValue, 98, 30)
  {
    Val30Fits(); Get(t, Val30Field, 0).n
  }

  /** `val57()`: bits 41..=97. */
  function Val57(t: Container): (r: nat)
    requires Over(t, 128)
    ensures r == Extract(t.rawValue, 41, 57)
  {
    Val57Fits(); Get(t, Val57Field, 0).n
  }

  /** `val13()`: bits 28..=40. */
  function Val13(t: Container): (r: nat)
    requires Over(t, 128)
    ensures r == Extract(t.rawValue, 28, 13)
  {
    Val13Fits(); Get(t, Val13Field, 0).n
  }

  /** `val16()`: bits 12..=27. */
  function Val16(t: Container): (r: nat)
    requires Over(t, 128)
    ensures r == Extract(t.rawValue, 12, 16)
  {
    Val16Fits(); Get(t, Val16Field, 0).n
  }

  /** `baudrate()`: bits 4..=11. */
  function Baudrate(t: Container): (r: nat)
    requires Over(t, 128)
    ensures r == Extract(t.rawValue, 4, 8)
  {
    BaudrateFits(); Get(t, BaudrateField, 0).n
  }

  /** `some_other_bits()`: bits 0..=3. */
  function SomeOtherBits(t: Container): (r: nat)
    requires Over(t, 128)
    ensures r == Extract(t.rawValue, 0, 4)
  {
    SomeOtherBitsFits(); Get(t, SomeOtherBitsField, 0).n
  }

  /** `with_baudrate(v)`. */
  function WithBaudrate(t: Container, v: nat): (r: Container)
    requires Over(t, 128)
    ensures Over(r, 128) && r.rawValue == Insert(t.rawValue, 4, 8, v)
  {
    BaudrateFits(); With(t, BaudrateField, 0, UnsignedValue(v))
  }

  /** `with_some_other_bits(v)`. */
  function WithSomeOtherBits(t: Container, v: nat): (r: Container)
    requires Over(t, 128)
    ensures Over(r, 128) && r.rawValue == Insert(t.rawValue, 0, 4, v)
  {
    SomeOtherBitsFits(); With(t, SomeOtherBitsField, 0, UnsignedValue(v))
  }

  /** The declaration of `val30` is accepted in the 128-bit `Test2`. */
  lemma Val30Fits()
    ensures FieldFits(Val30Field, 128)
  {
  }

  /** The declaration of `val57` is accepted in the 128-bit `Test2`. */
  lemma Val57Fits()
    ensures FieldFits(Val57Field, 128)
  {
  }

  /** The declaration of `val13` is accepted in the 128-bit `Test2`. */
  lemma Val13Fits()
    ensures FieldFits(Val13Field, 128)
  {
  }

  /** The declaration of `val16` is accepted in the 128-bit `Test2`. */
  lemma Val16Fits()
    ensures FieldFits(Val16Field, 128)
  {
  }

  /** The declaration of `baudrate` is accepted in the 128-bit `Test2`. */
  lemma BaudrateFits()
    ensures FieldFits(BaudrateField, 128)
  {
  }

  /** The declaration of `some_other_bits` is accepted in the 128-bit `Test2`. */
  lemma SomeOtherBitsFits()
    ensures FieldFits(SomeOtherBitsField, 128)
  {
  }

  /** Fields 0 to 2 of `Test2` lie inside its 128-bit container. */
  lemma SixFieldStructFieldsFit0To2()
    ensures |SixFieldStruct.fields| == 6
    ensures forall a :: 0 <= a < 3 ==> FieldFits(SixFieldStruct.fields[a], SixFieldStruct.width)
  {
    Val30Fits();
    Val57Fits();
    Val13Fits();
  }

  /** Fields 3 to 5 of `Test2` lie inside its 128-bit container. */
  lemma SixFieldStructFieldsFit3To5()
    ensures |SixFieldStruct.fields| == 6
    ensures forall a :: 3 <= a < 6 ==> FieldFits(SixFieldStruct.fields[a], SixFieldStruct.width)
  {
    Val16Fits();
    BaudrateFits();
    SomeOtherBitsFits();
  }

  /** The six-field declaration is accepted. */
  lemma SixFieldStructAccepted()
    ensures LayoutWellFormed(SixFieldStruct)
  {
    SixFieldStructFieldsFit0To2();
    SixFieldStructFieldsFit3To5();
  }

  /** Every field of `Test2` lies inside its 128-bit container. */
  lemma TwoFieldStructFieldsFit()
    ensures forall a :: 0 <= a < |TwoFieldStruct.fields| ==> FieldFits(TwoFieldStruct.fields[a], TwoFieldStruct.width)
  {
    BaudrateFits();
    SomeOtherBitsFits();
  }

  /** The two-field declaration is accepted. */
  lemma TwoFieldStructAccepted()
    ensures LayoutWellFormed(TwoFieldStruct)
  {
    TwoFieldStructFieldsFit();
  }

  /** The field bits of raw value 0xAE42_315A_2134_FE06_3412_345A_2134_FE06 that `SixFieldsOfRawValue` reads. */
  lemma SixFieldsOfRawValueBits0()
    ensures Extract(0xAE42_315A_2134_FE06_3412_345A_2134_FE06, 98, 30) == 0x2B90_8C56
    ensures Extract(0xAE42_315A_2134_FE06_3412_345A_2134_FE06, 41, 57) == 0x110_9A7F_031A_091A
  {
    assert Pow2(30) == 0x4000_0000 && Pow2(41) == 0x200_0000_0000 && Pow2(57) == 0x200_0000_0000_0000 && Pow2(98) == 0x4_0000_0000_0000_0000_0000_0000 by { PowersTo32(); PowersTo64(); PowersTo128(); }
    ReadAt(0xAE42_315A_2134_FE06_3412_345A_2134_FE06, 98, 30, 0, 0x2B90_8C56, 0x2_2134_FE06_3412_345A_2134_FE06, 0x4_0000_0000_0000_0000_0000_0000, 0x4000_0000);
    ReadAt(0xAE42_315A_2134_FE06_3412_345A_2134_FE06, 41, 57, 0x2B90_8C56, 0x110_9A7F_031A_091A, 0x5A_2134_FE06, 0x200_0000_0000, 0x200_0000_0000_0000);
  }

  /** The field bits of raw value 0xAE42_315A_2134_FE06_3412_345A_2134_FE06 that `SixFieldsOfRawValue` reads. */
  lemma SixFieldsOfRawValueBits1()
    ensures Extract(0xAE42_315A_2134_FE06_3412_345A_2134_FE06, 28, 13) == 0x5A2
  {
    assert Pow2(13) == 0x2000 && Pow2(28) == 0x1000_0000 by { PowersTo32(); }
    ReadAt(0xAE42_315A_2134_FE06_3412_345A_2134_FE06, 28, 13, 0x57_2118_AD10_9A7F_031A_091A, 0x5A2, 0x134_FE06, 0x1000_0000, 0x2000);
  }

  /** The getters of `SixFieldsOfRawValue` as bit ranges of raw value 0xAE42_315A_2134_FE06_3412_345A_2134_FE06. */
  lemma SixFieldsOfRawValueByRange()
    ensures Over(Container(128, 0xAE42_315A_2134_FE06_3412_345A_2134_FE06), 128)
    ensures Val30(Container(128, 0xAE42_315A_2134_FE06_3412_345A_2134_FE06)) == Extract(0xAE42_315A_2134_FE06_3412_345A_2134_FE06, 98, 30)
    ensures Val57(Container(128, 0xAE42_315A_2134_FE06_3412_345A_2134_FE06)) == Extract(0xAE42_315A_2134_FE06_3412_345A_2134_FE06, 41, 57)
    ensures Val13(Container(128, 0xAE42_315A_2134_FE06_3412_345A_2134_FE06)) == Extract(0xAE42_315A_2134_FE06_3412_345A_2134_FE06, 28, 13)
  {
    Over128(0xAE42_315A_2134_FE06_3412_345A_2134_FE06);
  }

  /** The six getters on `new_with_raw_value(0xAE42315A_2134FE06_3412345A_2134FE06)`, first three. */
  lemma SixFieldsOfRawValue()
    ensures Over(Container(128, 0xAE42_315A_2134_FE06_3412_345A_2134_FE06), 128)
    ensures Val30(Container(128, 0xAE42_315A_2134_FE06_3412_345A_2134_FE06)) == 0x2B90_8C56
    ensures Val57(Container(128, 0xAE42_315A_2134_FE06_3412_345A_2134_FE06)) == 0x110_9A7F_031A_091A
    ensures Val13(Container(128, 0xAE42_315A_2134_FE06_3412_345A_2134_FE06)) == 0x5A2
  {
    SixFieldsOfRawValueByRange();
    SixFieldsOfRawValueBits0();
    SixFieldsOfRawValueBits1();
  }

  /** The field bits of raw value 0xAE42_315A_2134_FE06_3412_345A_2134_FE06 that `SixFieldsOfRawValueLow` reads. */
  lemma SixFieldsOfRawValueLowBits0()
    ensures Extract(0xAE42_315A_2134_FE06_3412_345A_2134_FE06, 12, 16) == 0x134F
    ensures Extract(0xAE42_315A_2134_FE06_3412_345A_2134_FE06, 4, 8) == 0xE0
  {
    assert Pow2(4) == 0x10 && Pow2(8) == 0x100 && Pow2(12) == 0x1000 && Pow2(16) == 0x1_0000 by { PowersTo32(); }
    ReadAt(0xAE42_315A_2134_FE06_3412_345A_2134_FE06, 12, 16, 0xA_E423_15A2_134F_E063_4123_45A2, 0x134F, 0xE06, 0x1000, 0x1_0000);
    ReadAt(0xAE42_315A_2134_FE06_3412_345A_2134_FE06, 4, 8, 0xA_E423_15A2_134F_E063_4123_45A2_134F, 0xE0, 6, 0x10, 0x100);
  }

  /** The field bits of raw value 0xAE42_315A_2134_FE06_3412_345A_2134_FE06 that `SixFieldsOfRawValueLow` reads. */
  lemma SixFieldsOfRawValueLowBits1()
    ensures Extract(0xAE42_315A_2134_FE06_3412_345A_2134_FE06, 0, 4) == 6
  {
    assert Pow2(0) == 1 && Pow2(4) == 0x10 by { PowersTo32(); }
    ReadAt(0xAE42_315A_2134_FE06_3412_345A_2134_FE06, 0, 4, 0xAE4_2315_A213_4FE0_6341_2345_A213_4FE0, 6, 0, 1, 0x10);
  }

  /** The getters of `SixFieldsOfRawValueLow` as bit ranges of raw value 0xAE42_315A_2134_FE06_3412_345A_2134_FE06. */
  lemma SixFieldsOfRawValueLowByRange()
    ensures Over(Container(128, 0xAE42_315A_2134_FE06_3412_345A_2134_FE06), 128)
    ensures Val16(Container(128, 0xAE42_315A_2134_FE06_3412_345A_2134_FE06)) == Extract(0xAE42_315A_2134_FE06_3412_345A_2134_FE06, 12, 16)
    ensures Baudrate(Container(128, 0xAE42_315A_2134_FE06_3412_345A_2134_FE06)) == Extract(0xAE42_315A_2134_FE06_3412_345A_2134_FE06, 4, 8)
    ensures SomeOtherBits(Container(128, 0xAE42_315A_2134_FE06_3412_345A_2134_FE06)) == Extract(0xAE42_315A_2134_FE06_3412_345A_2134_FE06, 0, 4)
  {
    Over128(0xAE42_315A_2134_FE06_3412_345A_2134_FE06);
  }

  /** The six getters on the same raw value, last three. */
  lemma SixFieldsOfRawValueLow()
    ensures Over(Container(128, 0xAE42_315A_2134_FE06_3412_345A_2134_FE06), 128)
    ensures Val16(Container(128, 0xAE42_315A_2134_FE06_3412_345A_2134_FE06)) == 0x134F
    ensures Baudrate(Container(128, 0xAE42_315A_2134_FE06_3412_345A_2134_FE06)) == 0xE0
    ensures SomeOtherBits(Container(128, 0xAE42_315A_2134_FE06_3412_345A_2134_FE06)) == 6
  {
    SixFieldsOfRawValueLowByRange();
    SixFieldsOfRawValueLowBits0();
    SixFieldsOfRawValueLowBits1();
  }

  /** The raw value `SetBaudrateOnZero` writes: 0x12 into bits 4..11 of 0. */
  lemma SetBaudrateOnZeroBits()
    ensures Insert(0, 4, 8, 0x12) == 0x120
  {
    assert Pow2(4) == 0x10 && Pow2(8) == 0x100 by { PowersTo32(); }
    WriteAt(0, 4, 8, 0, 0, 0, 0x10, 0x100, 0x12);
  }

  /** The setter of `SetBaudrateOnZero` as a bit-range write into raw value 0. */
  lemma SetBaudrateOnZeroByRange()
    ensures Over(Container(128, 0), 128) && WithBaudrate(Container(128, 0), 0x12).rawValue == Insert(0, 4, 8, 0x12)
  {
    Over128(0);
  }

  /** `with_baudrate(0x12)` on raw value 0. */
  lemma SetBaudrateOnZero()
    ensures Over(Container(128, 0), 128)
    ensures WithBaudrate(Container(128, 0), 0x12) == Container(128, 0x120)
  {
    SetBaudrateOnZeroByRange();
    SetBaudrateOnZeroBits();
  }

  /** The raw value `SetSomeOtherBits` writes: 2 into bits 0..3 of 0x120. */
  lemma SetSomeOtherBitsBits()
    ensures Insert(0x120, 0, 4, 2) == 0x122
  {
    assert Pow2(0) == 1 && Pow2(4) == 0x10 by { PowersTo32(); }
    WriteAt(0x120, 0, 4, 0x12, 0, 0, 1, 0x10, 2);
  }

  /** The setter of `SetSomeOtherBits` as a bit-range write into raw value 0x120. */
  lemma SetSomeOtherBitsByRange()
    ensures Over(Container(128, 0x120), 128) && WithSomeOtherBits(Container(128, 0x120), 2).rawValue == Insert(0x120, 0, 4, 2)
  {
    Over128(0x120);
  }

  /** `with_some_other_bits(2)` on raw value 0x120. */
  lemma SetSomeOtherBits()
    ensures Over(Container(128, 0x120), 128)
    ensures WithSomeOtherBits(Container(128, 0x120), 2) == Container(128, 0x122)
  {
    SetSomeOtherBitsByRange();
    SetSomeOtherBitsBits();
  }

  /** The field bits of raw value 0x122 that `BaudAndOtherOf0122` reads. */
  lemma BaudAndOtherOf0122Bits()
    ensures Extract(0x122, 4, 8) == 0x12
    ensures Extract(0x122, 0, 4) == 2
  {
    assert Pow2(0) == 1 && Pow2(4) == 0x10 && Pow2(8) == 0x100 by { PowersTo32(); }
    ReadAt(0x122, 4, 8, 0, 0x12, 2, 0x10, 0x100);
    ReadAt(0x122, 0, 4, 0x12, 2, 0, 1, 0x10);
  }

  /** The getters of `BaudAndOtherOf0122` as bit ranges of raw value 0x122. */
  lemma BaudAndOtherOf0122ByRange()
    ensures Over(Container(128, 0x122), 128)
    ensures Baudrate(Container(128, 0x122)) == Extract(0x122, 4, 8)
    ensures SomeOtherBits(Container(128, 0x122)) == Extract(0x122, 0, 4)
  {
    Over128(0x122);
  }

  /** The two low getters on raw value 0x0122. */
  lemma BaudAndOtherOf0122()
    ensures Over(Container(128, 0x122), 128)
    ensures Baudrate(Container(128, 0x122)) == 0x12
    ensures SomeOtherBits(Container(128, 0x122)) == 2
  {
    BaudAndOtherOf0122ByRange();
    BaudAndOtherOf0122Bits();
  }

  /** The field bits of raw value 0xFE06 that `BaudAndOtherOfFE06` reads. */
  lemma BaudAndOtherOfFE06Bits()
    ensures Extract(0xFE06, 4, 8) == 0xE0
    ensures Extract(0xFE06, 0, 4) == 6
  {
    assert Pow2(0) == 1 && Pow2(4) == 0x10 && Pow2(8) == 0x100 by { PowersTo32(); }
    ReadAt(0xFE06, 4, 8, 15, 0xE0, 6, 0x10, 0x100);
    ReadAt(0xFE06, 0, 4, 0xFE0, 6, 0, 1, 0x10);
  }

  /** The getters of `BaudAndOtherOfFE06` as bit ranges of raw value 0xFE06. */
  lemma BaudAndOtherOfFE06ByRange()
    ensures Over(Container(128, 0xFE06), 128)
    ensures Baudrate(Container(128, 0xFE06)) == Extract(0xFE06, 4, 8)
    ensures SomeOtherBits(Container(128, 0xFE06)) == Extract(0xFE06, 0, 4)
  {
    Over128(0xFE06);
  }

  /** The two low getters on raw value 0xFE06. */
  lemma BaudAndOtherOfFE06()
    ensures Over(Container(128, 0xFE06), 128)
    ensures Baudrate(Container(128, 0xFE06)) == 0xE0
    ensures SomeOtherBits(Container(128, 0xFE06)) == 6
  {
    BaudAndOtherOfFE06ByRange();
    BaudAndOtherOfFE06Bits();
  }

  /** Each getter of the six-field struct reads its own range of a 128-bit raw value. */
  lemma GetterAndSetterGetters()
    ensures LayoutWellFormed(SixFieldStruct) && 0xAE42_315A_2134_FE06_3412_345A_2134_FE06 < Pow2(128)
    ensures var t := NewWithRawValue(SixFieldStruct, 0xAE42_315A_2134_FE06_3412_345A_2134_FE06);
      && Val30(t) == 0x2B90_8C56
      && Val57(t) == 0x110_9A7F_031A_091A
      && Val13(t) == 0x5A2
      && Val16(t) == 0x134F
      && Baudrate(t) == 0xE0
      && SomeOtherBits(t) == 6
  {
    SixFieldStructAccepted();
    SixFieldsOfRawValue();
    SixFieldsOfRawValueLow();
  }

  /** Two chained setters on `new()` give raw value 0x0122, from which the getters read the written values back. */
  lemma GetterAndSetterSetters()
    ensures LayoutWellFormed(SixFieldStruct)
    ensures var t := WithSomeOtherBits(WithBaudrate(New(SixFieldStruct), 0x12), 2);
      t.rawValue == 0x0122 && Baudrate(t) == 0x12 && SomeOtherBits(t) == 2
  {
    SixFieldStructAccepted();
    SetBaudrateOnZero();
    SetSomeOtherBits();
    BaudAndOtherOf0122();
  }

  /** The two-field struct reads 0xE0 and 6 from 0xFE06. */
  lemma GetterAndSetterArbitraryUintGetters()
    ensures LayoutWellFormed(TwoFieldStruct) && 0xFE06 < Pow2(128)
    ensures var t := NewWithRawValue(TwoFieldStruct, 0xFE06);
      Baudrate(t) == 0xE0 && SomeOtherBits(t) == 6
  {
    TwoFieldStructAccepted();
    BaudAndOtherOfFE06();
  }

  /** The same two setters on the two-field struct give 0x0122. */
  lemma GetterAndSetterArbitraryUintSetters()
    ensures LayoutWellFormed(TwoFieldStruct)
    ensures var t := WithSomeOtherBits(WithBaudrate(New(TwoFieldStruct), 0x12), 2);
      t.rawValue == 0x0122 && Baudrate(t) == 0x12 && SomeOtherBits(t) == 2
  {
    TwoFieldStructAccepted();
    SetBaudrateOnZero();
    SetSomeOtherBits();
    BaudAndOtherOf0122();
  }

  // ---------------------------------------------------------------------
  // proper_unmasking.
  // ---------------------------------------------------------------------

  const AField := Field(0, 1, ReadWrite, Single, UnsignedKind)
  const BField := Field(2, 3, ReadWrite, Single, UnsignedKind)
  const CField := Field(4, 5, ReadWrite, Single, UnsignedKind)

  /** `#[bitfield(u16, default: 0)] pub struct TestStruct` with three two-bit fields. */
  const UnmaskingStruct := Layout(16, Some(0), [AField, BField, CField])

  /** `with_a(v)`: bits 0..=1. */
  function WithA(t: Container, v: nat): (r: Container)
    requires Over(t, 16)
    ensures Over(r, 16) && r.rawValue == Insert(t.rawValue, 0, 2, v)
  {
    AFits(); With(t, AField, 0, UnsignedValue(v))
  }

  /** `with_b(v)`: bits 2..=3. */
  function WithB(t: Container, v: nat): (r: Container)
    requires Over(t, 16)
    ensures Over(r, 16) && r.rawValue == Insert(t.rawValue, 2, 2, v)
  {
    BFits(); With(t, BField, 0, UnsignedValue(v))
  }

  /** `with_c(v)`: bits 4..=5. */
  function WithC(t: Container, v: nat): (r: Container)
    requires Over(t, 16)
    ensures Over(r, 16) && r.rawValue == Insert(t.rawValue, 4, 2, v)
  {
    CFits(); With(t, CField, 0, UnsignedValue(v))
  }

  /** The declaration of `a` is accepted in the 16-bit `TestStruct`. */
  lemma AFits()
    ensures FieldFits(AField, 16)
  {
  }

  /** The declaration of `b` is accepted in the 16-bit `TestStruct`. */
  lemma BFits()
    ensures FieldFits(BField, 16)
  {
  }

  /** The declaration of `c` is accepted in the 16-bit `TestStruct`. */
  lemma CFits()
    ensures FieldFits(CField, 16)
  {
  }

  /** Every field of `TestStruct` lies inside its 16-bit container. */
  lemma UnmaskingStructFieldsFit()
    ensures forall a :: 0 <= a < |UnmaskingStruct.fields| ==> FieldFits(UnmaskingStruct.fields[a], UnmaskingStruct.width)
  {
    AFits();
    BFits();
    CFits();
  }

  /** The three-field declaration is accepted. */
  lemma UnmaskingStructAccepted()
    ensures LayoutWellFormed(UnmaskingStruct)
  {
    UnmaskingStructFieldsFit();
  }

  /** The raw value `SetAOnZero` writes: 3 into bits 0..1 of 0. */
  lemma SetAOnZeroBits()
    ensures Insert(0, 0, 2, 3) == 3
  {
    assert Pow2(0) == 1 && Pow2(2) == 4 by { PowersTo32(); }
    WriteAt(0, 0, 2, 0, 0, 0, 1, 4, 3);
  }

  /** The setter of `SetAOnZero` as a bit-range write into raw value 0. */
  lemma SetAOnZeroByRange()
    ensures Over(Container(16, 0), 16) && WithA(Container(16, 0), 3).rawValue == Insert(0, 0, 2, 3)
  {
    Over16(0);
  }

  /** `with_a(0b11)` on raw value 0. */
  lemma SetAOnZero()
    ensures Over(Container(16, 0), 16)
    ensures WithA(Container(16, 0), 3) == Container(16, 3)
  {
    SetAOnZeroByRange();
    SetAOnZeroBits();
  }

  /** The raw value `SetBOn03` writes: 3 into bits 2..3 of 3. */
  lemma SetBOn03Bits()
    ensures Insert(3, 2, 2, 3) == 15
  {
    assert Pow2(2) == 4 by { PowersTo32(); }
    WriteAt(3, 2, 2, 0, 0, 3, 4, 4, 3);
  }

  /** The setter of `SetBOn03` as a bit-range write into raw value 3. */
  lemma SetBOn03ByRange()
    ensures Over(Container(16, 3), 16) && WithB(Container(16, 3), 3).rawValue == Insert(3, 2, 2, 3)
  {
    Over16(3);
  }

  /** `with_b(0b11)` on raw value 0b11. */
  lemma SetBOn03()
    ensures Over(Container(16, 3), 16)
    ensures WithB(Container(16, 3), 3) == Container(16, 15)
  {
    SetBOn03ByRange();
    SetBOn03Bits();
  }

  /** The raw value `SetCOn0F` writes: 3 into bits 4..5 of 15. */
  lemma SetCOn0FBits()
    ensures Insert(15, 4, 2, 3) == 0x3F
  {
    assert Pow2(2) == 4 && Pow2(4) == 0x10 by { PowersTo32(); }
    WriteAt(15, 4, 2, 0, 0, 15, 0x10, 4, 3);
  }

  /** The setter of `SetCOn0F` as a bit-range write into raw value 15. */
  lemma SetCOn0FByRange()
    ensures Over(Container(16, 15), 16) && WithC(Container(16, 15), 3).rawValue == Insert(15, 4, 2, 3)
  {
    Over16(15);
  }

  /** `with_c(0b11)` on raw value 0b1111. */
  lemma SetCOn0F()
    ensures Over(Container(16, 15), 16)
    ensures WithC(Container(16, 15), 3) == Container(16, 0x3F)
  {
    SetCOn0FByRange();
    SetCOn0FBits();
  }

  /** The raw value `ClearBOn3F` writes: 0 into bits 2..3 of 0x3F. */
  lemma ClearBOn3FBits()
    ensures Insert(0x3F, 2, 2, 0) == 0x33
  {
    assert Pow2(2) == 4 by { PowersTo32(); }
    WriteAt(0x3F, 2, 2, 3, 3, 3, 4, 4, 0);
  }

  /** The setter of `ClearBOn3F` as a bit-range write into raw value 0x3F. */
  lemma ClearBOn3FByRange()
    ensures Over(Container(16, 0x3F), 16) && WithB(Container(16, 0x3F), 0).rawValue == Insert(0x3F, 2, 2, 0)
  {
    Over16(0x3F);
  }

  /** `with_b(0b00)` on raw value 0b111111. */
  lemma ClearBOn3F()
    ensures Over(Container(16, 0x3F), 16)
    ensures WithB(Container(16, 0x3F), 0) == Container(16, 0x33)
  {
    ClearBOn3FByRange();
    ClearBOn3FBits();
  }

  /** Setting all three fields to 0b11 gives 0b111111. */
  lemma ProperUnmaskingSetAll()
    ensures LayoutWellFormed(UnmaskingStruct)
    ensures WithC(WithB(WithA(New(UnmaskingStruct), 3), 3), 3).rawValue == 0x3F // 0b111111
  {
    UnmaskingStructAccepted();
    SetAOnZero();
    SetBOn03();
    SetCOn0F();
  }

  /** Clearing the middle field of 0b111111 clears only its bits: 0b110011. */
  lemma ProperUnmaskingClearMiddle()
    ensures LayoutWellFormed(UnmaskingStruct)
    ensures var s1 := WithC(WithB(WithA(New(UnmaskingStruct), 3), 3), 3);
      WithB(s1, 0).rawValue == 0x33 // 0b110011
  {
    UnmaskingStructAccepted();
    SetAOnZero();
    SetBOn03();
    SetCOn0F();
    ClearBOn3F();
  }
}
