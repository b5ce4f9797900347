/**
  The repeated fields of the struct test suite: arrays of bools and of
  unsigned integers, with the stride left out (the instance width), equal
  to the width, and larger than the width. Instance i of a field declared
  at bit lo with stride s covers bits lo + i·s .. lo + i·s + width - 1.
  The functions named after a field are the indexed getter and setter the
  macro generates for it; each vector is proved in small steps and the
  test's lemmas chain them.
*/
module RepeatedFieldTests {
  import opened Wrappers
  import opened BitRange
  import opened Bitfield
  import opened TestSupport

  // ---------------------------------------------------------------------
  // repeated_bitrange_single_bits_with_stride.
  // ---------------------------------------------------------------------

  const NibbleBit0Field := Field(0, 0, ReadWrite, Array(16, Some(4)), BoolKind)
  const NibbleBit1Field := Field(1, 1, ReadWrite, Array(16, Some(4)), BoolKind)
  const NibbleBit2Field := Field(2, 2, ReadWrite, Array(16, Some(4)), BoolKind)
  const NibbleBit3Field := Field(3, 3, ReadWrite, Array(16, Some(4)), BoolKind)

  /** `#[bitfield(u64, default: 0)] pub struct NibbleBits64`: bit j of each of the 16 nibbles, as four arrays with stride 4. */
  const NibbleBits64 := Layout(64, Some(0), [NibbleBit0Field, NibbleBit1Field, NibbleBit2Field, NibbleBit3Field])

  /** `nibble_bit0(i)`: bit 0 + 4i. */
  function NibbleBit0(t: Container, i: nat): (r: bool)
    requires Over(t, 64) && i < 16
    ensures r == (Extract(t.rawValue, i * 4, 1) != 0)
  {
    NibbleBit0Fits(); Get(t, NibbleBit0Field, i).b
  }

  /** `nibble_bit1(i)`: bit 1 + 4i. */
  function NibbleBit1(t: Container, i: nat): (r: bool)
    requires Over(t, 64) && i < 16
    ensures r == (Extract(t.rawValue, 1 + i * 4, 1) != 0)
  {
    NibbleBit1Fits(); Get(t, NibbleBit1Field, i).b
  }

  /** `nibble_bit2(i)`: bit 2 + 4i. */
  function NibbleBit2(t: Container, i: nat): (r: bool)
    requires Over(t, 64) && i < 16
    ensures r == (Extract(t.rawValue, 2 + i * 4, 1) != 0)
  {
    NibbleBit2Fits(); Get(t, NibbleBit2Field, i).b
  }

  /** `nibble_bit3(i)`: bit 3 + 4i. */
  function NibbleBit3(t: Container, i: nat): (r: bool)
    requires Over(t, 64) && i < 16
    ensures r == (Extract(t.rawValue, 3 + i * 4, 1) != 0)
  {
    NibbleBit3Fits(); Get(t, NibbleBit3Field, i).b
  }

  /** `with_nibble_bit0(i, v)`. */
  function WithNibbleBit0(t: Container, i: nat, v: bool): (r: Container)
    requires Over(t, 64) && i < 16
    ensures Over(r, 64) && r.rawValue == Insert(t.rawValue, i * 4, 1, if v then 1 else 0)
  {
    NibbleBit0Fits(); With(t, NibbleBit0Field, i, BoolValue(v))
  }

  /** `with_nibble_bit1(i, v)`. */
  function WithNibbleBit1(t: Container, i: nat, v: bool): (r: Container)
    requires Over(t, 64) && i < 16
    ensures Over(r, 64) && r.rawValue == Insert(t.rawValue, 1 + i * 4, 1, if v then 1 else 0)
  {
    NibbleBit1Fits(); With(t, NibbleBit1Field, i, BoolValue(v))
  }

  /** `with_nibble_bit2(i, v)`. */
  function WithNibbleBit2(t: Container, i: nat, v: bool): (r: Container)
    requires Over(t, 64) && i < 16
    ensures Over(r, 64) && r.rawValue == Insert(t.rawValue, 2 + i * 4, 1, if v then 1 else 0)
  {
    NibbleBit2Fits(); With(t, NibbleBit2Field, i, BoolValue(v))
  }

  /** `with_nibble_bit3(i, v)`. */
  function WithNibbleBit3(t: Container, i: nat, v: bool): (r: Container)
    requires Over(t, 64) && i < 16
    ensures Over(r, 64) && r.rawValue == Insert(t.rawValue, 3 + i * 4, 1, if v then 1 else 0)
  {
    NibbleBit3Fits(); With(t, NibbleBit3Field, i, BoolValue(v))
  }

  /** The declaration of `nibble_bit0` is accepted in the 64-bit `NibbleBits64`. */
  lemma NibbleBit0Fits()
    ensures FieldFits(NibbleBit0Field, 64)
  {
  }

  /** The declaration of `nibble_bit1` is accepted in the 64-bit `NibbleBits64`. */
  lemma NibbleBit1Fits()
    ensures FieldFits(NibbleBit1Field, 64)
  {
  }

  /** The declaration of `nibble_bit2` is accepted in the 64-bit `NibbleBits64`. */
  lemma NibbleBit2Fits()
    ensures FieldFits(NibbleBit2Field, 64)
  {
  }

  /** The declaration of `nibble_bit3` is accepted in the 64-bit `NibbleBits64`. */
  lemma NibbleBit3Fits()
    ensures FieldFits(NibbleBit3Field, 64)
  {
  }

  /** Fields 0 to 2 of `NibbleBits64` lie inside its 64-bit container. */
  lemma NibbleBits64FieldsFit0To2()
    ensures |NibbleBits64.fields| == 4
    ensures forall a :: 0 <= a < 3 ==> FieldFits(NibbleBits64.fields[a], NibbleBits64.width)
  {
    NibbleBit0Fits();
    NibbleBit1Fits();
    NibbleBit2Fits();
  }

  /** Fields 3 to 3 of `NibbleBits64` lie inside its 64-bit container. */
  lemma NibbleBits64FieldsFit3To3()
    ensures |NibbleBits64.fields| == 4
    ensures forall a :: 3 <= a < 4 ==> FieldFits(NibbleBits64.fields[a], NibbleBits64.width)
  {
    NibbleBit3Fits();
  }

  /** The declaration with four strided bool arrays is accepted. */
  lemma NibbleBits64Accepted()
    ensures LayoutWellFormed(NibbleBits64)
  {
    NibbleBits64FieldsFit0To2();
    NibbleBits64FieldsFit3To3();
  }

  /** The field bits of raw value 0x1234_5678_ABCD_EFFF that `NibbleBit0Of0To3` reads. */
  lemma NibbleBit0Of0To3Bits0()
    ensures Extract(0x1234_5678_ABCD_EFFF, 0, 1) == 1
    ensures Extract(0x1234_5678_ABCD_EFFF, 4, 1) == 1
  {
    assert Pow2(0) == 1 && Pow2(1) == 2 && Pow2(4) == 0x10 by { PowersTo32(); }
    ReadAt(0x1234_5678_ABCD_EFFF, 0, 1, 0x91A_2B3C_55E6_F7FF, 1, 0, 1, 2);
    ReadAt(0x1234_5678_ABCD_EFFF, 4, 1, 0x91_A2B3_C55E_6F7F, 1, 15, 0x10, 2);
  }

  /** The field bits of raw value 0x1234_5678_ABCD_EFFF that `NibbleBit0Of0To3` reads. */
  lemma NibbleBit0Of0To3Bits1()
    ensures Extract(0x1234_5678_ABCD_EFFF, 8, 1) == 1
    ensures Extract(0x1234_5678_ABCD_EFFF, 12, 1) == 0
  {
    assert Pow2(1) == 2 && Pow2(8) == 0x100 && Pow2(12) == 0x1000 by { PowersTo32(); }
    ReadAt(0x1234_5678_ABCD_EFFF, 8, 1, 0x9_1A2B_3C55_E6F7, 1, 0xFF, 0x100, 2);
    ReadAt(0x1234_5678_ABCD_EFFF, 12, 1, 0x91A2_B3C5_5E6F, 0, 0xFFF, 0x1000, 2);
  }

  /** The getters of `NibbleBit0Of0To3` as bit ranges of raw value 0x1234_5678_ABCD_EFFF. */
  lemma NibbleBit0Of0To3ByRange()
    ensures Over(Container(64, 0x1234_5678_ABCD_EFFF), 64)
    ensures NibbleBit0(Container(64, 0x1234_5678_ABCD_EFFF), 0) == (Extract(0x1234_5678_ABCD_EFFF, 0, 1) != 0)
    ensures NibbleBit0(Container(64, 0x1234_5678_ABCD_EFFF), 1) == (Extract(0x1234_5678_ABCD_EFFF, 4, 1) != 0)
    ensures NibbleBit0(Container(64, 0x1234_5678_ABCD_EFFF), 2) == (Extract(0x1234_5678_ABCD_EFFF, 8, 1) != 0)
    ensures NibbleBit0(Container(64, 0x1234_5678_ABCD_EFFF), 3) == (Extract(0x1234_5678_ABCD_EFFF, 12, 1) != 0)
  {
    Over64(0x1234_5678_ABCD_EFFF);
  }

  /** `nibble_bit0(i)` on raw value 0x12345678_ABCDEFFF. */
  lemma NibbleBit0Of0To3()
    ensures Over(Container(64, 0x1234_5678_ABCD_EFFF), 64)
    ensures NibbleBit0(Container(64, 0x1234_5678_ABCD_EFFF), 0) == true
    ensures NibbleBit0(Container(64, 0x1234_5678_ABCD_EFFF), 1) == true
    ensures NibbleBit0(Container(64, 0x1234_5678_ABCD_EFFF), 2) == true
    ensures NibbleBit0(Container(64, 0x1234_5678_ABCD_EFFF), 3) == false
  {
    NibbleBit0Of0To3ByRange();
    NibbleBit0Of0To3Bits0();
    NibbleBit0Of0To3Bits1();
  }

  /** The field bits of raw value 0x1234_5678_ABCD_EFFF that `NibbleBit0Of4To7` reads. */
  lemma NibbleBit0Of4To7Bits0()
    ensures Extract(0x1234_5678_ABCD_EFFF, 16, 1) == 1
    ensures Extract(0x1234_5678_ABCD_EFFF, 20, 1) == 0
  {
    assert Pow2(1) == 2 && Pow2(16) == 0x1_0000 && Pow2(20) == 0x10_0000 by { PowersTo32(); }
    ReadAt(0x1234_5678_ABCD_EFFF, 16, 1, 0x91A_2B3C_55E6, 1, 0xEFFF, 0x1_0000, 2);
    ReadAt(0x1234_5678_ABCD_EFFF, 20, 1, 0x91_A2B3_C55E, 0, 0xD_EFFF, 0x10_0000, 2);
  }

  /** The field bits of raw value 0x1234_5678_ABCD_EFFF that `NibbleBit0Of4To7` reads. */
  lemma NibbleBit0Of4To7Bits1()
    ensures Extract(0x1234_5678_ABCD_EFFF, 24, 1) == 1
    ensures Extract(0x1234_5678_ABCD_EFFF, 28, 1) == 0
  {
    assert Pow2(1) == 2 && Pow2(24) == 0x100_0000 && Pow2(28) == 0x1000_0000 by { PowersTo32(); }
    ReadAt(0x1234_5678_ABCD_EFFF, 24, 1, 0x9_1A2B_3C55, 1, 0xCD_EFFF, 0x100_0000, 2);
    ReadAt(0x1234_5678_ABCD_EFFF, 28, 1, 0x91A2_B3C5, 0, 0xBCD_EFFF, 0x1000_0000, 2);
  }

  /** The getters of `NibbleBit0Of4To7` as bit ranges of raw value 0x1234_5678_ABCD_EFFF. */
  lemma NibbleBit0Of4To7ByRange()
    ensures Over(Container(64, 0x1234_5678_ABCD_EFFF), 64)
    ensures NibbleBit0(Container(64, 0x1234_5678_ABCD_EFFF), 4) == (Extract(0x1234_5678_ABCD_EFFF, 16, 1) != 0)
    ensures NibbleBit0(Container(64, 0x1234_5678_ABCD_EFFF), 5) == (Extract(0x1234_5678_ABCD_EFFF, 20, 1) != 0)
    ensures NibbleBit0(Container(64, 0x1234_5678_ABCD_EFFF), 6) == (Extract(0x1234_5678_ABCD_EFFF, 24, 1) != 0)
    ensures NibbleBit0(Container(64, 0x1234_5678_ABCD_EFFF), 7) == (Extract(0x1234_5678_ABCD_EFFF, 28, 1) != 0)
  {
    Over64(0x1234_5678_ABCD_EFFF);
  }

  /** `nibble_bit0(i)` on raw value 0x12345678_ABCDEFFF. */
  lemma NibbleBit0Of4To7()
    ensures Over(Container(64, 0x1234_5678_ABCD_EFFF), 64)
    ensures NibbleBit0(Container(64, 0x1234_5678_ABCD_EFFF), 4) == true
    ensures NibbleBit0(Container(64, 0x1234_5678_ABCD_EFFF), 5) == false
    ensures NibbleBit0(Container(64, 0x1234_5678_ABCD_EFFF), 6) == true
    ensures NibbleBit0(Container(64, 0x1234_5678_ABCD_EFFF), 7) == false
  {
    NibbleBit0Of4To7ByRange();
    NibbleBit0Of4To7Bits0();
    NibbleBit0Of4To7Bits1();
  }

  /** The field bits of raw value 0x1234_5678_ABCD_EFFF that `NibbleBit0Of8To11` reads. */
  lemma NibbleBit0Of8To11Bits0()
    ensures Extract(0x1234_5678_ABCD_EFFF, 32, 1) == 0
    ensures Extract(0x1234_5678_ABCD_EFFF, 36, 1) == 1
  {
    assert Pow2(1) == 2 && Pow2(32) == 0x1_0000_0000 && Pow2(36) == 0x10_0000_0000 by { PowersTo32(); PowersTo64(); }
    ReadAt(0x1234_5678_ABCD_EFFF, 32, 1, 0x91A_2B3C, 0, 0xABCD_EFFF, 0x1_0000_0000, 2);
    ReadAt(0x1234_5678_ABCD_EFFF, 36, 1, 0x91_A2B3, 1, 0x8_ABCD_EFFF, 0x10_0000_0000, 2);
  }

  /** The field bits of raw value 0x1234_5678_ABCD_EFFF that `NibbleBit0Of8To11` reads. */
  lemma NibbleBit0Of8To11Bits1()
    ensures Extract(0x1234_5678_ABCD_EFFF, 40, 1) == 0
    ensures Extract(0x1234_5678_ABCD_EFFF, 44, 1) == 1
  {
    assert Pow2(1) == 2 && Pow2(40) == 0x100_0000_0000 && Pow2(44) == 0x1000_0000_0000 by { PowersTo32(); PowersTo64(); }
    ReadAt(0x1234_5678_ABCD_EFFF, 40, 1, 0x9_1A2B, 0, 0x78_ABCD_EFFF, 0x100_0000_0000, 2);
    ReadAt(0x1234_5678_ABCD_EFFF, 44, 1, 0x91A2, 1, 0x678_ABCD_EFFF, 0x1000_0000_0000, 2);
  }

  /** The getters of `NibbleBit0Of8To11` as bit ranges of raw value 0x1234_5678_ABCD_EFFF. */
  lemma NibbleBit0Of8To11ByRange()
    ensures Over(Container(64, 0x1234_5678_ABCD_EFFF), 64)
    ensures NibbleBit0(Container(64, 0x1234_5678_ABCD_EFFF), 8) == (Extract(0x1234_5678_ABCD_EFFF, 32, 1) != 0)
    ensures NibbleBit0(Container(64, 0x1234_5678_ABCD_EFFF), 9) == (Extract(0x1234_5678_ABCD_EFFF, 36, 1) != 0)
    ensures NibbleBit0(Container(64, 0x1234_5678_ABCD_EFFF), 10) == (Extract(0x1234_5678_ABCD_EFFF, 40, 1) != 0)
    ensures NibbleBit0(Container(64, 0x1234_5678_ABCD_EFFF), 11) == (Extract(0x1234_5678_ABCD_EFFF, 44, 1) != 0)
  {
    Over64(0x1234_5678_ABCD_EFFF);
  }

  /** `nibble_bit0(i)` on raw value 0x12345678_ABCDEFFF. */
  lemma NibbleBit0Of8To11()
    ensures Over(Container(64, 0x1234_5678_ABCD_EFFF), 64)
    ensures NibbleBit0(Container(64, 0x1234_5678_ABCD_EFFF), 8) == false
    ensures NibbleBit0(Container(64, 0x1234_5678_ABCD_EFFF), 9) == true
    ensures NibbleBit0(Container(64, 0x1234_5678_ABCD_EFFF), 10) == false
    ensures NibbleBit0(Container(64, 0x1234_5678_ABCD_EFFF), 11) == true
  {
    NibbleBit0Of8To11ByRange();
    NibbleBit0Of8To11Bits0();
    NibbleBit0Of8To11Bits1();
  }

  /** The field bits of raw value 0x1234_5678_ABCD_EFFF that `NibbleBit0Of12To15` reads. */
  lemma NibbleBit0Of12To15Bits0()
    ensures Extract(0x1234_5678_ABCD_EFFF, 48, 1) == 0
    ensures Extract(0x1234_5678_ABCD_EFFF, 52, 1) == 1
  {
    assert Pow2(1) == 2 && Pow2(48) == 0x1_0000_0000_0000 && Pow2(52) == 0x10_0000_0000_0000 by { PowersTo32(); PowersTo64(); }
    ReadAt(0x1234_5678_ABCD_EFFF, 48, 1, 0x91A, 0, 0x5678_ABCD_EFFF, 0x1_0000_0000_0000, 2);
    ReadAt(0x1234_5678_ABCD_EFFF, 52, 1, 0x91, 1, 0x4_5678_ABCD_EFFF, 0x10_0000_0000_0000, 2);
  }

  /** The field bits of raw value 0x1234_5678_ABCD_EFFF that `NibbleBit0Of12To15` reads. */
  lemma NibbleBit0Of12To15Bits1()
    ensures Extract(0x1234_5678_ABCD_EFFF, 56, 1) == 0
    ensures Extract(0x1234_5678_ABCD_EFFF, 60, 1) == 1
  {
    assert Pow2(1) == 2 && Pow2(56) == 0x100_0000_0000_0000 && Pow2(60) == 0x1000_0000_0000_0000 by { PowersTo32(); PowersTo64(); }
    ReadAt(0x1234_5678_ABCD_EFFF, 56, 1, 9, 0, 0x34_5678_ABCD_EFFF, 0x100_0000_0000_0000, 2);
    ReadAt(0x1234_5678_ABCD_EFFF, 60, 1, 0, 1, 0x234_5678_ABCD_EFFF, 0x1000_0000_0000_0000, 2);
  }

  /** The getters of `NibbleBit0Of12To15` as bit ranges of raw value 0x1234_5678_ABCD_EFFF. */
  lemma NibbleBit0Of12To15ByRange()
    ensures Over(Container(64, 0x1234_5678_ABCD_EFFF), 64)
    ensures NibbleBit0(Container(64, 0x1234_5678_ABCD_EFFF), 12) == (Extract(0x1234_5678_ABCD_EFFF, 48, 1) != 0)
    ensures NibbleBit0(Container(64, 0x1234_5678_ABCD_EFFF), 13) == (Extract(0x1234_5678_ABCD_EFFF, 52, 1) != 0)
    ensures NibbleBit0(Container(64, 0x1234_5678_ABCD_EFFF), 14) == (Extract(0x1234_5678_ABCD_EFFF, 56, 1) != 0)
    ensures NibbleBit0(Container(64, 0x1234_5678_ABCD_EFFF), 15) == (Extract(0x1234_5678_ABCD_EFFF, 60, 1) != 0)
  {
    Over64(0x1234_5678_ABCD_EFFF);
  }

  /** `nibble_bit0(i)` on raw value 0x12345678_ABCDEFFF. */
  lemma NibbleBit0Of12To15()
    ensures Over(Container(64, 0x1234_5678_ABCD_EFFF), 64)
    ensures NibbleBit0(Container(64, 0x1234_5678_ABCD_EFFF), 12) == false
    ensures NibbleBit0(Container(64, 0x1234_5678_ABCD_EFFF), 13) == true
    ensures NibbleBit0(Container(64, 0x1234_5678_ABCD_EFFF), 14) == false
    ensures NibbleBit0(Container(64, 0x1234_5678_ABCD_EFFF), 15) == true
  {
    NibbleBit0Of12To15ByRange();
    NibbleBit0Of12To15Bits0();
    NibbleBit0Of12To15Bits1();
  }

  /** The field bits of raw value 0x1234_5678_ABCD_EFFF that `TopNibbleBitsOf` reads. */
  lemma TopNibbleBitsOfBits0()
    ensures Extract(0x1234_5678_ABCD_EFFF, 61, 1) == 0
    ensures Extract(0x1234_5678_ABCD_EFFF, 62, 1) == 0
  {
    assert Pow2(1) == 2 && Pow2(61) == 0x2000_0000_0000_0000 && Pow2(62) == 0x4000_0000_0000_0000 by { PowersTo32(); PowersTo64(); }
    ReadAt(0x1234_5678_ABCD_EFFF, 61, 1, 0, 0, 0x1234_5678_ABCD_EFFF, 0x2000_0000_0000_0000, 2);
    ReadAt(0x1234_5678_ABCD_EFFF, 62, 1, 0, 0, 0x1234_5678_ABCD_EFFF, 0x4000_0000_0000_0000, 2);
  }

  /** The field bits of raw value 0x1234_5678_ABCD_EFFF that `TopNibbleBitsOf` reads. */
  lemma TopNibbleBitsOfBits1()
    ensures Extract(0x1234_5678_ABCD_EFFF, 63, 1) == 0
  {
    assert Pow2(1) == 2 && Pow2(63) == 0x8000_0000_0000_0000 by { PowersTo32(); PowersTo64(); }
    ReadAt(0x1234_5678_ABCD_EFFF, 63, 1, 0, 0, 0x1234_5678_ABCD_EFFF, 0x8000_0000_0000_0000, 2);
  }

  /** The getters of `TopNibbleBitsOf` as bit ranges of raw value 0x1234_5678_ABCD_EFFF. */
  lemma TopNibbleBitsOfByRange()
    ensures Over(Container(64, 0x1234_5678_ABCD_EFFF), 64)
    ensures NibbleBit1(Container(64, 0x1234_5678_ABCD_EFFF), 15) == (Extract(0x1234_5678_ABCD_EFFF, 61, 1) != 0)
    ensures NibbleBit2(Container(64, 0x1234_5678_ABCD_EFFF), 15) == (Extract(0x1234_5678_ABCD_EFFF, 62, 1) != 0)
    ensures NibbleBit3(Container(64, 0x1234_5678_ABCD_EFFF), 15) == (Extract(0x1234_5678_ABCD_EFFF, 63, 1) != 0)
  {
    Over64(0x1234_5678_ABCD_EFFF);
  }

  /** `nibble_bit1(15)`, `nibble_bit2(15)`, `nibble_bit3(15)` on raw value 0x12345678_ABCDEFFF. */
  lemma TopNibbleBitsOf()
    ensures Over(Container(64, 0x1234_5678_ABCD_EFFF), 64)
    ensures NibbleBit1(Container(64, 0x1234_5678_ABCD_EFFF), 15) == false
    ensures NibbleBit2(Container(64, 0x1234_5678_ABCD_EFFF), 15) == false
    ensures NibbleBit3(Container(64, 0x1234_5678_ABCD_EFFF), 15) == false
  {
    TopNibbleBitsOfByRange();
    TopNibbleBitsOfBits0();
    TopNibbleBitsOfBits1();
  }

  /** The raw value `ClearNibbleBit0At0` writes: 0 into bits 0..0 of 0x1234_5678_ABCD_EFFF. */
  lemma ClearNibbleBit0At0Bits()
    ensures Insert(0x1234_5678_ABCD_EFFF, 0, 1, 0) == 0x1234_5678_ABCD_EFFE
  {
    assert Pow2(0) == 1 && Pow2(1) == 2 by { PowersTo32(); }
    WriteAt(0x1234_5678_ABCD_EFFF, 0, 1, 0x91A_2B3C_55E6_F7FF, 1, 0, 1, 2, 0);
  }

  /** The setter of `ClearNibbleBit0At0` as a bit-range write into raw value 0x1234_5678_ABCD_EFFF. */
  lemma ClearNibbleBit0At0ByRange()
    ensures Over(Container(64, 0x1234_5678_ABCD_EFFF), 64) && WithNibbleBit0(Container(64, 0x1234_5678_ABCD_EFFF), 0, false).rawValue == Insert(0x1234_5678_ABCD_EFFF, 0, 1, 0)
  {
    Over64(0x1234_5678_ABCD_EFFF);
  }

  /** `with_nibble_bit0(0, false)`. */
  lemma ClearNibbleBit0At0()
    ensures Over(Container(64, 0x1234_5678_ABCD_EFFF), 64)
    ensures WithNibbleBit0(Container(64, 0x1234_5678_ABCD_EFFF), 0, false) == Container(64, 0x1234_5678_ABCD_EFFE)
  {
    ClearNibbleBit0At0ByRange();
    ClearNibbleBit0At0Bits();
  }

  /** The raw value `ClearNibbleBit0At1` writes: 0 into bits 4..4 of 0x1234_5678_ABCD_EFFF. */
  lemma ClearNibbleBit0At1Bits()
    ensures Insert(0x1234_5678_ABCD_EFFF, 4, 1, 0) == 0x1234_5678_ABCD_EFEF
  {
    assert Pow2(1) == 2 && Pow2(4) == 0x10 by { PowersTo32(); }
    WriteAt(0x1234_5678_ABCD_EFFF, 4, 1, 0x91_A2B3_C55E_6F7F, 1, 15, 0x10, 2, 0);
  }

  /** The setter of `ClearNibbleBit0At1` as a bit-range write into raw value 0x1234_5678_ABCD_EFFF. */
  lemma ClearNibbleBit0At1ByRange()
    ensures Over(Container(64, 0x1234_5678_ABCD_EFFF), 64) && WithNibbleBit0(Container(64, 0x1234_5678_ABCD_EFFF), 1, false).rawValue == Insert(0x1234_5678_ABCD_EFFF, 4, 1, 0)
  {
    Over64(0x1234_5678_ABCD_EFFF);
  }

  /** `with_nibble_bit0(1, false)`. */
  lemma ClearNibbleBit0At1()
    ensures Over(Container(64, 0x1234_5678_ABCD_EFFF), 64)
    ensures WithNibbleBit0(Container(64, 0x1234_5678_ABCD_EFFF), 1, false) == Container(64, 0x1234_5678_ABCD_EFEF)
  {
    ClearNibbleBit0At1ByRange();
    ClearNibbleBit0At1Bits();
  }

  /** The raw value `ClearNibbleBit0At2` writes: 0 into bits 8..8 of 0x1234_5678_ABCD_EFFF. */
  lemma ClearNibbleBit0At2Bits()
    ensures Insert(0x1234_5678_ABCD_EFFF, 8, 1, 0) == 0x1234_5678_ABCD_EEFF
  {
    assert Pow2(1) == 2 && Pow2(8) == 0x100 by { PowersTo32(); }
    WriteAt(0x1234_5678_ABCD_EFFF, 8, 1, 0x9_1A2B_3C55_E6F7, 1, 0xFF, 0x100, 2, 0);
  }

  /** The setter of `ClearNibbleBit0At2` as a bit-range write into raw value 0x1234_5678_ABCD_EFFF. */
  lemma ClearNibbleBit0At2ByRange()
    ensures Over(Container(64, 0x1234_5678_ABCD_EFFF), 64) && WithNibbleBit0(Container(64, 0x1234_5678_ABCD_EFFF), 2, false).rawValue == Insert(0x1234_5678_ABCD_EFFF, 8, 1, 0)
  {
    Over64(0x1234_5678_ABCD_EFFF);
  }

  /** `with_nibble_bit0(2, false)`. */
  lemma ClearNibbleBit0At2()
    ensures Over(Container(64, 0x1234_5678_ABCD_EFFF), 64)
    ensures WithNibbleBit0(Container(64, 0x1234_5678_ABCD_EFFF), 2, false) == Container(64, 0x1234_5678_ABCD_EEFF)
  {
    ClearNibbleBit0At2ByRange();
    ClearNibbleBit0At2Bits();
  }

  /** The raw value `SetNibbleBit0At3` writes: 1 into bits 12..12 of 0x1234_5678_ABCD_EFFF. */
  lemma SetNibbleBit0At3Bits()
    ensures Insert(0x1234_5678_ABCD_EFFF, 12, 1, 1) == 0x1234_5678_ABCD_FFFF
  {
    assert Pow2(1) == 2 && Pow2(12) == 0x1000 by { PowersTo32(); }
    WriteAt(0x1234_5678_ABCD_EFFF, 12, 1, 0x91A2_B3C5_5E6F, 0, 0xFFF, 0x1000, 2, 1);
  }

  /** The setter of `SetNibbleBit0At3` as a bit-range write into raw value 0x1234_5678_ABCD_EFFF. */
  lemma SetNibbleBit0At3ByRange()
    ensures Over(Container(64, 0x1234_5678_ABCD_EFFF), 64) && WithNibbleBit0(Container(64, 0x1234_5678_ABCD_EFFF), 3, true).rawValue == Insert(0x1234_5678_ABCD_EFFF, 12, 1, 1)
  {
    Over64(0x1234_5678_ABCD_EFFF);
  }

  /** `with_nibble_bit0(3, true)`. */
  lemma SetNibbleBit0At3()
    ensures Over(Container(64, 0x1234_5678_ABCD_EFFF), 64)
    ensures WithNibbleBit0(Container(64, 0x1234_5678_ABCD_EFFF), 3, true) == Container(64, 0x1234_5678_ABCD_FFFF)
  {
    SetNibbleBit0At3ByRange();
    SetNibbleBit0At3Bits();
  }

  /** The raw value `ClearNibbleBit0At15` writes: 0 into bits 60..60 of 0x1234_5678_ABCD_EFFF. */
  lemma ClearNibbleBit0At15Bits()
    ensures Insert(0x1234_5678_ABCD_EFFF, 60, 1, 0) == 0x234_5678_ABCD_EFFF
  {
    assert Pow2(1) == 2 && Pow2(60) == 0x1000_0000_0000_0000 by { PowersTo32(); PowersTo64(); }
    WriteAt(0x1234_5678_ABCD_EFFF, 60, 1, 0, 1, 0x234_5678_ABCD_EFFF, 0x1000_0000_0000_0000, 2, 0);
  }

  /** The setter of `ClearNibbleBit0At15` as a bit-range write into raw value 0x1234_5678_ABCD_EFFF. */
  lemma ClearNibbleBit0At15ByRange()
    ensures Over(Container(64, 0x1234_5678_ABCD_EFFF), 64) && WithNibbleBit0(Container(64, 0x1234_5678_ABCD_EFFF), 15, false).rawValue == Insert(0x1234_5678_ABCD_EFFF, 60, 1, 0)
  {
    Over64(0x1234_5678_ABCD_EFFF);
  }

  /** `with_nibble_bit0(15, false)`. */
  lemma ClearNibbleBit0At15()
    ensures Over(Container(64, 0x1234_5678_ABCD_EFFF), 64)
    ensures WithNibbleBit0(Container(64, 0x1234_5678_ABCD_EFFF), 15, false) == Container(64, 0x234_5678_ABCD_EFFF)
  {
    ClearNibbleBit0At15ByRange();
    ClearNibbleBit0At15Bits();
  }

  /** The raw value `SetNibbleBit1At15` writes: 1 into bits 61..61 of 0x1234_5678_ABCD_EFFF. */
  lemma SetNibbleBit1At15Bits()
    ensures Insert(0x1234_5678_ABCD_EFFF, 61, 1, 1) == 0x3234_5678_ABCD_EFFF
  {
    assert Pow2(1) == 2 && Pow2(61) == 0x2000_0000_0000_0000 by { PowersTo32(); PowersTo64(); }
    WriteAt(0x1234_5678_ABCD_EFFF, 61, 1, 0, 0, 0x1234_5678_ABCD_EFFF, 0x2000_0000_0000_0000, 2, 1);
  }

  /** The setter of `SetNibbleBit1At15` as a bit-range write into raw value 0x1234_5678_ABCD_EFFF. */
  lemma SetNibbleBit1At15ByRange()
    ensures Over(Container(64, 0x1234_5678_ABCD_EFFF), 64) && WithNibbleBit1(Container(64, 0x1234_5678_ABCD_EFFF), 15, true).rawValue == Insert(0x1234_5678_ABCD_EFFF, 61, 1, 1)
  {
    Over64(0x1234_5678_ABCD_EFFF);
  }

  /** `with_nibble_bit1(15, true)`. */
  lemma SetNibbleBit1At15()
    ensures Over(Container(64, 0x1234_5678_ABCD_EFFF), 64)
    ensures WithNibbleBit1(Container(64, 0x1234_5678_ABCD_EFFF), 15, true) == Container(64, 0x3234_5678_ABCD_EFFF)
  {
    SetNibbleBit1At15ByRange();
    SetNibbleBit1At15Bits();
  }

  /** The raw value `SetNibbleBit2At15` writes: 1 into bits 62..62 of 0x1234_5678_ABCD_EFFF. */
  lemma SetNibbleBit2At15Bits()
    ensures Insert(0x1234_5678_ABCD_EFFF, 62, 1, 1) == 0x5234_5678_ABCD_EFFF
  {
    assert Pow2(1) == 2 && Pow2(62) == 0x4000_0000_0000_0000 by { PowersTo32(); PowersTo64(); }
    WriteAt(0x1234_5678_ABCD_EFFF, 62, 1, 0, 0, 0x1234_5678_ABCD_EFFF, 0x4000_0000_0000_0000, 2, 1);
  }

  /** The setter of `SetNibbleBit2At15` as a bit-range write into raw value 0x1234_5678_ABCD_EFFF. */
  lemma SetNibbleBit2At15ByRange()
    ensures Over(Container(64, 0x1234_5678_ABCD_EFFF), 64) && WithNibbleBit2(Container(64, 0x1234_5678_ABCD_EFFF), 15, true).rawValue == Insert(0x1234_5678_ABCD_EFFF, 62, 1, 1)
  {
    Over64(0x1234_5678_ABCD_EFFF);
  }

  /** `with_nibble_bit2(15, true)`. */
  lemma SetNibbleBit2At15()
    ensures Over(Container(64, 0x1234_5678_ABCD_EFFF), 64)
    ensures WithNibbleBit2(Container(64, 0x1234_5678_ABCD_EFFF), 15, true) == Container(64, 0x5234_5678_ABCD_EFFF)
  {
    SetNibbleBit2At15ByRange();
    SetNibbleBit2At15Bits();
  }

  /** The raw value `SetNibbleBit3At15` writes: 1 into bits 63..63 of 0x1234_5678_ABCD_EFFF. */
  lemma SetNibbleBit3At15Bits()
    ensures Insert(0x1234_5678_ABCD_EFFF, 63, 1, 1) == 0x9234_5678_ABCD_EFFF
  {
    assert Pow2(1) == 2 && Pow2(63) == 0x8000_0000_0000_0000 by { PowersTo32(); PowersTo64(); }
    WriteAt(0x1234_5678_ABCD_EFFF, 63, 1, 0, 0, 0x1234_5678_ABCD_EFFF, 0x8000_0000_0000_0000, 2, 1);
  }

  /** The setter of `SetNibbleBit3At15` as a bit-range write into raw value 0x1234_5678_ABCD_EFFF. */
  lemma SetNibbleBit3At15ByRange()
    ensures Over(Container(64, 0x1234_5678_ABCD_EFFF), 64) && WithNibbleBit3(Container(64, 0x1234_5678_ABCD_EFFF), 15, true).rawValue == Insert(0x1234_5678_ABCD_EFFF, 63, 1, 1)
  {
    Over64(0x1234_5678_ABCD_EFFF);
  }

  /** `with_nibble_bit3(15, true)`. */
  lemma SetNibbleBit3At15()
    ensures Over(Container(64, 0x1234_5678_ABCD_EFFF), 64)
    ensures WithNibbleBit3(Container(64, 0x1234_5678_ABCD_EFFF), 15, true) == Container(64, 0x9234_5678_ABCD_EFFF)
  {
    SetNibbleBit3At15ByRange();
    SetNibbleBit3At15Bits();
  }

  /** Instances 0 to 3 of `nibble_bit0` read bits 0, 4, 8, 12 of 0x12345678_ABCDEFFF. */
  lemma NibbleBitsGetters0To3()
    ensures LayoutWellFormed(NibbleBits64) && 0x1234_5678_ABCD_EFFF < Pow2(64)
    ensures var t := NewWithRawValue(NibbleBits64, 0x1234_5678_ABCD_EFFF);
      && NibbleBit0(t, 0) == true
      && NibbleBit0(t, 1) == true
      && NibbleBit0(t, 2) == true
      && NibbleBit0(t, 3) == false
  {
    NibbleBits64Accepted();
    NibbleBit0Of0To3();
  }

  /** Instances 4 to 7 of `nibble_bit0` read bits 16, 20, 24, 28 of 0x12345678_ABCDEFFF. */
  lemma NibbleBitsGetters4To7()
    ensures LayoutWellFormed(NibbleBits64) && 0x1234_5678_ABCD_EFFF < Pow2(64)
    ensures var t := NewWithRawValue(NibbleBits64, 0x1234_5678_ABCD_EFFF);
      && NibbleBit0(t, 4) == true
      && NibbleBit0(t, 5) == false
      && NibbleBit0(t, 6) == true
      && NibbleBit0(t, 7) == false
  {
    NibbleBits64Accepted();
    NibbleBit0Of4To7();
  }

  /** Instances 8 to 11 of `nibble_bit0` read bits 32, 36, 40, 44 of 0x12345678_ABCDEFFF. */
  lemma NibbleBitsGetters8To11()
    ensures LayoutWellFormed(NibbleBits64) && 0x1234_5678_ABCD_EFFF < Pow2(64)
    ensures var t := NewWithRawValue(NibbleBits64, 0x1234_5678_ABCD_EFFF);
      && NibbleBit0(t, 8) == false
      && NibbleBit0(t, 9) == true
      && NibbleBit0(t, 10) == false
      && NibbleBit0(t, 11) == true
  {
    NibbleBits64Accepted();
    NibbleBit0Of8To11();
  }

  /** Instances 12 to 15 of `nibble_bit0` read bits 48, 52, 56, 60 of 0x12345678_ABCDEFFF. */
  lemma NibbleBitsGetters12To15()
    ensures LayoutWellFormed(NibbleBits64) && 0x1234_5678_ABCD_EFFF < Pow2(64)
    ensures var t := NewWithRawValue(NibbleBits64, 0x1234_5678_ABCD_EFFF);
      && NibbleBit0(t, 12) == false
      && NibbleBit0(t, 13) == true
      && NibbleBit0(t, 14) == false
      && NibbleBit0(t, 15) == true
  {
    NibbleBits64Accepted();
    NibbleBit0Of12To15();
  }

  /** Bits 61, 62 and 63 of 0x12345678_ABCDEFFF, the top nibble's upper bits, are clear. */
  lemma NibbleBitsTopNibble()
    ensures LayoutWellFormed(NibbleBits64) && 0x1234_5678_ABCD_EFFF < Pow2(64)
    ensures var t := NewWithRawValue(NibbleBits64, 0x1234_5678_ABCD_EFFF);
      && NibbleBit1(t, 15) == false
      && NibbleBit2(t, 15) == false
      && NibbleBit3(t, 15) == false
  {
    NibbleBits64Accepted();
    TopNibbleBitsOf();
  }

  /** Each indexed bool setter changes exactly the bit of its instance. */
  lemma NibbleBitsSetters0And1()
    ensures LayoutWellFormed(NibbleBits64) && 0x1234_5678_ABCD_EFFF < Pow2(64)
    ensures var t := NewWithRawValue(NibbleBits64, 0x1234_5678_ABCD_EFFF);
      && WithNibbleBit0(t, 0, false).rawValue == 0x1234_5678_ABCD_EFFE
      && WithNibbleBit0(t, 1, false).rawValue == 0x1234_5678_ABCD_EFEF
  {
    NibbleBits64Accepted();
    ClearNibbleBit0At0();
    ClearNibbleBit0At1();
  }

  /** Each indexed bool setter changes exactly the bit of its instance. */
  lemma NibbleBitsSetters2And3()
    ensures LayoutWellFormed(NibbleBits64) && 0x1234_5678_ABCD_EFFF < Pow2(64)
    ensures var t := NewWithRawValue(NibbleBits64, 0x1234_5678_ABCD_EFFF);
      && WithNibbleBit0(t, 2, false).rawValue == 0x1234_5678_ABCD_EEFF
      && WithNibbleBit0(t, 3, true).rawValue == 0x1234_5678_ABCD_FFFF
  {
    NibbleBits64Accepted();
    ClearNibbleBit0At2();
    SetNibbleBit0At3();
  }

  /** Each indexed bool setter changes exactly the bit of its instance, also in the top nibble. */
  lemma NibbleBitsSetters4And5()
    ensures LayoutWellFormed(NibbleBits64) && 0x1234_5678_ABCD_EFFF < Pow2(64)
    ensures var t := NewWithRawValue(NibbleBits64, 0x1234_5678_ABCD_EFFF);
      && WithNibbleBit0(t, 15, false).rawValue == 0x234_5678_ABCD_EFFF
      && WithNibbleBit1(t, 15, true).rawValue == 0x3234_5678_ABCD_EFFF
  {
    NibbleBits64Accepted();
    ClearNibbleBit0At15();
    SetNibbleBit1At15();
  }

  /** Each indexed bool setter changes exactly the bit of its instance, also in the top nibble. */
  lemma NibbleBitsSetters6And7()
    ensures LayoutWellFormed(NibbleBits64) && 0x1234_5678_ABCD_EFFF < Pow2(64)
    ensures var t := NewWithRawValue(NibbleBits64, 0x1234_5678_ABCD_EFFF);
      && WithNibbleBit2(t, 15, true).rawValue == 0x5234_5678_ABCD_EFFF
      && WithNibbleBit3(t, 15, true).rawValue == 0x9234_5678_ABCD_EFFF
  {
    NibbleBits64Accepted();
    SetNibbleBit2At15();
    SetNibbleBit3At15();
  }

  // ---------------------------------------------------------------------
  // repeated_bitrange_single_bits_without_stride.
  // ---------------------------------------------------------------------

  const BitArrayField := Field(0, 0, ReadWrite, Array(8, None), BoolKind)

  /** `#[bitfield(u8, default: 0)] pub struct Bits8`: `bit: [bool; 8]` from bit 0, stride defaulting to the width 1. */
  const Bits8 := Layout(8, Some(0), [BitArrayField])

  /** `bit(i)`: bit i. */
  function IndexedBit(t: Container, i: nat): (r: bool)
    requires Over(t, 8) && i < 8
    ensures r == (Extract(t.rawValue, i * 1, 1) != 0)
  {
    IndexedBitFits(); Get(t, BitArrayField, i).b
  }

  /** `with_bit(i, v)`. */
  function WithIndexedBit(t: Container, i: nat, v: bool): (r: Container)
    requires Over(t, 8) && i < 8
    ensures Over(r, 8) && r.rawValue == Insert(t.rawValue, i * 1, 1, if v then 1 else 0)
  {
    IndexedBitFits(); With(t, BitArrayField, i, BoolValue(v))
  }

  /** The declaration of `indexed_bit` is accepted in the 8-bit `Bits8`. */
  lemma IndexedBitFits()
    ensures FieldFits(BitArrayField, 8)
  {
  }

  /** Every field of `Bits8` lies inside its 8-bit container. */
  lemma Bits8FieldsFit()
    ensures forall a :: 0 <= a < |Bits8.fields| ==> FieldFits(Bits8.fields[a], Bits8.width)
  {
    IndexedBitFits();
  }

  /** The declaration with a bool array and no stride is accepted. */
  lemma Bits8Accepted()
    ensures LayoutWellFormed(Bits8)
  {
    Bits8FieldsFit();
  }

  /** The field bits of raw value 0x6E that `IndexedBitOf0To3` reads. */
  lemma IndexedBitOf0To3Bits0()
    ensures Extract(0x6E, 0, 1) == 0
    ensures Extract(0x6E, 1, 1) == 1
  {
    assert Pow2(0) == 1 && Pow2(1) == 2 by { PowersTo32(); }
    ReadAt(0x6E, 0, 1, 0x37, 0, 0, 1, 2);
    ReadAt(0x6E, 1, 1, 0x1B, 1, 0, 2, 2);
  }

  /** The field bits of raw value 0x6E that `IndexedBitOf0To3` reads. */
  lemma IndexedBitOf0To3Bits1()
    ensures Extract(0x6E, 2, 1) == 1
    ensures Extract(0x6E, 3, 1) == 1
  {
    assert Pow2(1) == 2 && Pow2(2) == 4 && Pow2(3) == 8 by { PowersTo32(); }
    ReadAt(0x6E, 2, 1, 13, 1, 2, 4, 2);
    ReadAt(0x6E, 3, 1, 6, 1, 6, 8, 2);
  }

  /** The getters of `IndexedBitOf0To3` as bit ranges of raw value 0x6E. */
  lemma IndexedBitOf0To3ByRange()
    ensures Over(Container(8, 0x6E), 8)
    ensures IndexedBit(Container(8, 0x6E), 0) == (Extract(0x6E, 0, 1) != 0)
    ensures IndexedBit(Container(8, 0x6E), 1) == (Extract(0x6E, 1, 1) != 0)
    ensures IndexedBit(Container(8, 0x6E), 2) == (Extract(0x6E, 2, 1) != 0)
    ensures IndexedBit(Container(8, 0x6E), 3) == (Extract(0x6E, 3, 1) != 0)
  {
    Over8(0x6E);
  }

  /** `bit(i)` on raw value 0b0110_1110. */
  lemma IndexedBitOf0To3()
    ensures Over(Container(8, 0x6E), 8)
    ensures IndexedBit(Container(8, 0x6E), 0) == false
    ensures IndexedBit(Container(8, 0x6E), 1) == true
    ensures IndexedBit(Container(8, 0x6E), 2) == true
    ensures IndexedBit(Container(8, 0x6E), 3) == true
  {
    IndexedBitOf0To3ByRange();
    IndexedBitOf0To3Bits0();
    IndexedBitOf0To3Bits1();
  }

  /** The field bits of raw value 0x6E that `IndexedBitOf4To7` reads. */
  lemma IndexedBitOf4To7Bits0()
    ensures Extract(0x6E, 4, 1) == 0
    ensures Extract(0x6E, 5, 1) == 1
  {
    assert Pow2(1) == 2 && Pow2(4) == 0x10 && Pow2(5) == 0x20 by { PowersTo32(); }
    ReadAt(0x6E, 4, 1, 3, 0, 14, 0x10, 2);
    ReadAt(0x6E, 5, 1, 1, 1, 14, 0x20, 2);
  }

  /** The field bits of raw value 0x6E that `IndexedBitOf4To7` reads. */
  lemma IndexedBitOf4To7Bits1()
    ensures Extract(0x6E, 6, 1) == 1
    ensures Extract(0x6E, 7, 1) == 0
  {
    assert Pow2(1) == 2 && Pow2(6) == 0x40 && Pow2(7) == 0x80 by { PowersTo32(); }
    ReadAt(0x6E, 6, 1, 0, 1, 0x2E, 0x40, 2);
    ReadAt(0x6E, 7, 1, 0, 0, 0x6E, 0x80, 2);
  }

  /** The getters of `IndexedBitOf4To7` as bit ranges of raw value 0x6E. */
  lemma IndexedBitOf4To7ByRange()
    ensures Over(Container(8, 0x6E), 8)
    ensures IndexedBit(Container(8, 0x6E), 4) == (Extract(0x6E, 4, 1) != 0)
    ensures IndexedBit(Container(8, 0x6E), 5) == (Extract(0x6E, 5, 1) != 0)
    ensures IndexedBit(Container(8, 0x6E), 6) == (Extract(0x6E, 6, 1) != 0)
    ensures IndexedBit(Container(8, 0x6E), 7) == (Extract(0x6E, 7, 1) != 0)
  {
    Over8(0x6E);
  }

  /** `bit(i)` on raw value 0b0110_1110. */
  lemma IndexedBitOf4To7()
    ensures Over(Container(8, 0x6E), 8)
    ensures IndexedBit(Container(8, 0x6E), 4) == false
    ensures IndexedBit(Container(8, 0x6E), 5) == true
    ensures IndexedBit(Container(8, 0x6E), 6) == true
    ensures IndexedBit(Container(8, 0x6E), 7) == false
  {
    IndexedBitOf4To7ByRange();
    IndexedBitOf4To7Bits0();
    IndexedBitOf4To7Bits1();
  }

  /** The raw value `ClearIndexedBit3` writes: 0 into bits 3..3 of 0x6E. */
  lemma ClearIndexedBit3Bits()
    ensures Insert(0x6E, 3, 1, 0) == 0x66
  {
    assert Pow2(1) == 2 && Pow2(3) == 8 by { PowersTo32(); }
    WriteAt(0x6E, 3, 1, 6, 1, 6, 8, 2, 0);
  }

  /** The setter of `ClearIndexedBit3` as a bit-range write into raw value 0x6E. */
  lemma ClearIndexedBit3ByRange()
    ensures Over(Container(8, 0x6E), 8) && WithIndexedBit(Container(8, 0x6E), 3, false).rawValue == Insert(0x6E, 3, 1, 0)
  {
    Over8(0x6E);
  }

  /** `with_bit(3, false)` on 0b0110_1110. */
  lemma ClearIndexedBit3()
    ensures Over(Container(8, 0x6E), 8)
    ensures WithIndexedBit(Container(8, 0x6E), 3, false) == Container(8, 0x66)
  {
    ClearIndexedBit3ByRange();
    ClearIndexedBit3Bits();
  }

  /** The raw value `SetIndexedBit7` writes: 1 into bits 7..7 of 0x6E. */
  lemma SetIndexedBit7Bits()
    ensures Insert(0x6E, 7, 1, 1) == 0xEE
  {
    assert Pow2(1) == 2 && Pow2(7) == 0x80 by { PowersTo32(); }
    WriteAt(0x6E, 7, 1, 0, 0, 0x6E, 0x80, 2, 1);
  }

  /** The setter of `SetIndexedBit7` as a bit-range write into raw value 0x6E. */
  lemma SetIndexedBit7ByRange()
    ensures Over(Container(8, 0x6E), 8) && WithIndexedBit(Container(8, 0x6E), 7, true).rawValue == Insert(0x6E, 7, 1, 1)
  {
    Over8(0x6E);
  }

  /** `with_bit(7, true)` on 0b0110_1110. */
  lemma SetIndexedBit7()
    ensures Over(Container(8, 0x6E), 8)
    ensures WithIndexedBit(Container(8, 0x6E), 7, true) == Container(8, 0xEE)
  {
    SetIndexedBit7ByRange();
    SetIndexedBit7Bits();
  }

  /** `bit(0)` to `bit(3)` read bits 0 to 3 of 0b0110_1110. */
  lemma Bits8Getters0To3()
    ensures LayoutWellFormed(Bits8) && 0x6E < Pow2(8)
    ensures var t := NewWithRawValue(Bits8, 0x6E);
      && IndexedBit(t, 0) == false
      && IndexedBit(t, 1) == true
      && IndexedBit(t, 2) == true
      && IndexedBit(t, 3) == true
  {
    Bits8Accepted();
    IndexedBitOf0To3();
  }

  /** `bit(4)` to `bit(7)` read bits 4 to 7 of 0b0110_1110. */
  lemma Bits8Getters4To7()
    ensures LayoutWellFormed(Bits8) && 0x6E < Pow2(8)
    ensures var t := NewWithRawValue(Bits8, 0x6E);
      && IndexedBit(t, 4) == false
      && IndexedBit(t, 5) == true
      && IndexedBit(t, 6) == true
      && IndexedBit(t, 7) == false
  {
    Bits8Accepted();
    IndexedBitOf4To7();
  }

  /** `with_bit(3, false)` gives 0b0110_0110 and `with_bit(7, true)` gives 0b1110_1110. */
  lemma Bits8Setters()
    ensures LayoutWellFormed(Bits8) && 0x6E < Pow2(8)
    ensures var t := NewWithRawValue(Bits8, 0x6E);
      && WithIndexedBit(t, 3, false).rawValue == 0x66
      && WithIndexedBit(t, 7, true).rawValue == 0xEE
  {
    Bits8Accepted();
    ClearIndexedBit3();
    SetIndexedBit7();
  }

  // ---------------------------------------------------------------------
  // repeated_bitrange_without_stride.
  // ---------------------------------------------------------------------

  const NibbleField := Field(0, 3, ReadWrite, Array(16, None), UnsignedKind)

  /** `#[bitfield(u64, default: 0)] pub struct Nibble64` with `#[bits(0..=3, rw)] nibble: [u4; 16]`. */
  const Nibble64 := Layout(64, Some(0), [NibbleField])

  /** `nibble(i)`: bits 4i..=4i+3. */
  function Nibble(t: Container, i: nat): (r: nat)
    requires Over(t, 64) && i < 16
    ensures r == Extract(t.rawValue, i * 4, 4)
  {
    NibbleFits(); Get(t, NibbleField, i).n
  }

  /** `with_nibble(i, v)`. */
  function WithNibble(t: Container, i: nat, v: nat): (r: Container)
    requires Over(t, 64) && i < 16
    ensures Over(r, 64) && r.rawValue == Insert(t.rawValue, i * 4, 4, v)
  {
    NibbleFits(); With(t, NibbleField, i, UnsignedValue(v))
  }

  /** The declaration of `nibble` is accepted in the 64-bit `Nibble64`. */
  lemma NibbleFits()
    ensures FieldFits(NibbleField, 64)
  {
  }

  /** Every field of `Nibble64` lies inside its 64-bit container. */
  lemma Nibble64FieldsFit()
    ensures forall a :: 0 <= a < |Nibble64.fields| ==> FieldFits(Nibble64.fields[a], Nibble64.width)
  {
    NibbleFits();
  }

  /** The nibble-array declaration of `repeated_bitrange_without_stride` is accepted. */
  lemma Nibble64Accepted()
    ensures LayoutWellFormed(Nibble64)
  {
    Nibble64FieldsFit();
  }

  /** The field bits of raw value 0x1234_5678_ABCD_EFFF that `NibbleOf0To2` reads. */
  lemma NibbleOf0To2Bits0()
    ensures Extract(0x1234_5678_ABCD_EFFF, 0, 4) == 15
    ensures Extract(0x1234_5678_ABCD_EFFF, 4, 4) == 15
  {
    assert Pow2(0) == 1 && Pow2(4) == 0x10 by { PowersTo32(); }
    ReadAt(0x1234_5678_ABCD_EFFF, 0, 4, 0x123_4567_8ABC_DEFF, 15, 0, 1, 0x10);
    ReadAt(0x1234_5678_ABCD_EFFF, 4, 4, 0x12_3456_78AB_CDEF, 15, 15, 0x10, 0x10);
  }

  /** The field bits of raw value 0x1234_5678_ABCD_EFFF that `NibbleOf0To2` reads. */
  lemma NibbleOf0To2Bits1()
    ensures Extract(0x1234_5678_ABCD_EFFF, 8, 4) == 15
  {
    assert Pow2(4) == 0x10 && Pow2(8) == 0x100 by { PowersTo32(); }
    ReadAt(0x1234_5678_ABCD_EFFF, 8, 4, 0x1_2345_678A_BCDE, 15, 0xFF, 0x100, 0x10);
  }

  /** The getters of `NibbleOf0To2` as bit ranges of raw value 0x1234_5678_ABCD_EFFF. */
  lemma NibbleOf0To2ByRange()
    ensures Over(Container(64, 0x1234_5678_ABCD_EFFF), 64)
    ensures Nibble(Container(64, 0x1234_5678_ABCD_EFFF), 0) == Extract(0x1234_5678_ABCD_EFFF, 0, 4)
    ensures Nibble(Container(64, 0x1234_5678_ABCD_EFFF), 1) == Extract(0x1234_5678_ABCD_EFFF, 4, 4)
    ensures Nibble(Container(64, 0x1234_5678_ABCD_EFFF), 2) == Extract(0x1234_5678_ABCD_EFFF, 8, 4)
  {
    Over64(0x1234_5678_ABCD_EFFF);
  }

  /** `nibble(i)` on raw value 0x12345678_ABCDEFFF. */
  lemma NibbleOf0To2()
    ensures Over(Container(64, 0x1234_5678_ABCD_EFFF), 64)
    ensures Nibble(Container(64, 0x1234_5678_ABCD_EFFF), 0) == 15
    ensures Nibble(Container(64, 0x1234_5678_ABCD_EFFF), 1) == 15
    ensures Nibble(Container(64, 0x1234_5678_ABCD_EFFF), 2) == 15
  {
    NibbleOf0To2ByRange();
    NibbleOf0To2Bits0();
    NibbleOf0To2Bits1();
  }

  /** The field bits of raw value 0x1234_5678_ABCD_EFFF that `NibbleOf3To5` reads. */
  lemma NibbleOf3To5Bits0()
    ensures Extract(0x1234_5678_ABCD_EFFF, 12, 4) == 14
    ensures Extract(0x1234_5678_ABCD_EFFF, 16, 4) == 13
  {
    assert Pow2(4) == 0x10 && Pow2(12) == 0x1000 && Pow2(16) == 0x1_0000 by { PowersTo32(); }
    ReadAt(0x1234_5678_ABCD_EFFF, 12, 4, 0x1234_5678_ABCD, 14, 0xFFF, 0x1000, 0x10);
    ReadAt(0x1234_5678_ABCD_EFFF, 16, 4, 0x123_4567_8ABC, 13, 0xEFFF, 0x1_0000, 0x10);
  }

  /** The field bits of raw value 0x1234_5678_ABCD_EFFF that `NibbleOf3To5` reads. */
  lemma NibbleOf3To5Bits1()
    ensures Extract(0x1234_5678_ABCD_EFFF, 20, 4) == 12
  {
    assert Pow2(4) == 0x10 && Pow2(20) == 0x10_0000 by { PowersTo32(); }
    ReadAt(0x1234_5678_ABCD_EFFF, 20, 4, 0x12_3456_78AB, 12, 0xD_EFFF, 0x10_0000, 0x10);
  }

  /** The getters of `NibbleOf3To5` as bit ranges of raw value 0x1234_5678_ABCD_EFFF. */
  lemma NibbleOf3To5ByRange()
    ensures Over(Container(64, 0x1234_5678_ABCD_EFFF), 64)
    ensures Nibble(Container(64, 0x1234_5678_ABCD_EFFF), 3) == Extract(0x1234_5678_ABCD_EFFF, 12, 4)
    ensures Nibble(Container(64, 0x1234_5678_ABCD_EFFF), 4) == Extract(0x1234_5678_ABCD_EFFF, 16, 4)
    ensures Nibble(Container(64, 0x1234_5678_ABCD_EFFF), 5) == Extract(0x1234_5678_ABCD_EFFF, 20, 4)
  {
    Over64(0x1234_5678_ABCD_EFFF);
  }

  /** `nibble(i)` on raw value 0x12345678_ABCDEFFF. */
  lemma NibbleOf3To5()
    ensures Over(Container(64, 0x1234_5678_ABCD_EFFF), 64)
    ensures Nibble(Container(64, 0x1234_5678_ABCD_EFFF), 3) == 14
    ensures Nibble(Container(64, 0x1234_5678_ABCD_EFFF), 4) == 13
    ensures Nibble(Container(64, 0x1234_5678_ABCD_EFFF), 5) == 12
  {
    NibbleOf3To5ByRange();
    NibbleOf3To5Bits0();
    NibbleOf3To5Bits1();
  }

  /** The raw value `SetNibbleAt0` writes: 3 into bits 0..3 of 0x1234_5678_ABCD_EFFF. */
  lemma SetNibbleAt0Bits()
    ensures Insert(0x1234_5678_ABCD_EFFF, 0, 4, 3) == 0x1234_5678_ABCD_EFF3
  {
    assert Pow2(0) == 1 && Pow2(4) == 0x10 by { PowersTo32(); }
    WriteAt(0x1234_5678_ABCD_EFFF, 0, 4, 0x123_4567_8ABC_DEFF, 15, 0, 1, 0x10, 3);
  }

  /** The setter of `SetNibbleAt0` as a bit-range write into raw value 0x1234_5678_ABCD_EFFF. */
  lemma SetNibbleAt0ByRange()
    ensures Over(Container(64, 0x1234_5678_ABCD_EFFF), 64) && WithNibble(Container(64, 0x1234_5678_ABCD_EFFF), 0, 3).rawValue == Insert(0x1234_5678_ABCD_EFFF, 0, 4, 3)
  {
    Over64(0x1234_5678_ABCD_EFFF);
  }

  /** `with_nibble(0, 0x3)`. */
  lemma SetNibbleAt0()
    ensures Over(Container(64, 0x1234_5678_ABCD_EFFF), 64)
    ensures WithNibble(Container(64, 0x1234_5678_ABCD_EFFF), 0, 3) == Container(64, 0x1234_5678_ABCD_EFF3)
  {
    SetNibbleAt0ByRange();
    SetNibbleAt0Bits();
  }

  /** The raw value `SetNibbleAt1` writes: 2 into bits 4..7 of 0x1234_5678_ABCD_EFFF. */
  lemma SetNibbleAt1Bits()
    ensures Insert(0x1234_5678_ABCD_EFFF, 4, 4, 2) == 0x1234_5678_ABCD_EF2F
  {
    assert Pow2(4) == 0x10 by { PowersTo32(); }
    WriteAt(0x1234_5678_ABCD_EFFF, 4, 4, 0x12_3456_78AB_CDEF, 15, 15, 0x10, 0x10, 2);
  }

  /** The setter of `SetNibbleAt1` as a bit-range write into raw value 0x1234_5678_ABCD_EFFF. */
  lemma SetNibbleAt1ByRange()
    ensures Over(Container(64, 0x1234_5678_ABCD_EFFF), 64) && WithNibble(Container(64, 0x1234_5678_ABCD_EFFF), 1, 2).rawValue == Insert(0x1234_5678_ABCD_EFFF, 4, 4, 2)
  {
    Over64(0x1234_5678_ABCD_EFFF);
  }

  /** `with_nibble(1, 0x2)`. */
  lemma SetNibbleAt1()
    ensures Over(Container(64, 0x1234_5678_ABCD_EFFF), 64)
    ensures WithNibble(Container(64, 0x1234_5678_ABCD_EFFF), 1, 2) == Container(64, 0x1234_5678_ABCD_EF2F)
  {
    SetNibbleAt1ByRange();
    SetNibbleAt1Bits();
  }

  /** The raw value `SetNibbleAt2` writes: 10 into bits 8..11 of 0x1234_5678_ABCD_EFFF. */
  lemma SetNibbleAt2Bits()
    ensures Insert(0x1234_5678_ABCD_EFFF, 8, 4, 10) == 0x1234_5678_ABCD_EAFF
  {
    assert Pow2(4) == 0x10 && Pow2(8) == 0x100 by { PowersTo32(); }
    WriteAt(0x1234_5678_ABCD_EFFF, 8, 4, 0x1_2345_678A_BCDE, 15, 0xFF, 0x100, 0x10, 10);
  }

  /** The setter of `SetNibbleAt2` as a bit-range write into raw value 0x1234_5678_ABCD_EFFF. */
  lemma SetNibbleAt2ByRange()
    ensures Over(Container(64, 0x1234_5678_ABCD_EFFF), 64) && WithNibble(Container(64, 0x1234_5678_ABCD_EFFF), 2, 10).rawValue == Insert(0x1234_5678_ABCD_EFFF, 8, 4, 10)
  {
    Over64(0x1234_5678_ABCD_EFFF);
  }

  /** `with_nibble(2, 0xA)`. */
  lemma SetNibbleAt2()
    ensures Over(Container(64, 0x1234_5678_ABCD_EFFF), 64)
    ensures WithNibble(Container(64, 0x1234_5678_ABCD_EFFF), 2, 10) == Container(64, 0x1234_5678_ABCD_EAFF)
  {
    SetNibbleAt2ByRange();
    SetNibbleAt2Bits();
  }

  /** The raw value `SetNibbleAt15` writes: 14 into bits 60..63 of 0x1234_5678_ABCD_EFFF. */
  lemma SetNibbleAt15Bits()
    ensures Insert(0x1234_5678_ABCD_EFFF, 60, 4, 14) == 0xE234_5678_ABCD_EFFF
  {
    assert Pow2(4) == 0x10 && Pow2(60) == 0x1000_0000_0000_0000 by { PowersTo32(); PowersTo64(); }
    WriteAt(0x1234_5678_ABCD_EFFF, 60, 4, 0, 1, 0x234_5678_ABCD_EFFF, 0x1000_0000_0000_0000, 0x10, 14);
  }

  /** The setter of `SetNibbleAt15` as a bit-range write into raw value 0x1234_5678_ABCD_EFFF. */
  lemma SetNibbleAt15ByRange()
    ensures Over(Container(64, 0x1234_5678_ABCD_EFFF), 64) && WithNibble(Container(64, 0x1234_5678_ABCD_EFFF), 15, 14).rawValue == Insert(0x1234_5678_ABCD_EFFF, 60, 4, 14)
  {
    Over64(0x1234_5678_ABCD_EFFF);
  }

  /** `with_nibble(15, 0xE)`. */
  lemma SetNibbleAt15()
    ensures Over(Container(64, 0x1234_5678_ABCD_EFFF), 64)
    ensures WithNibble(Container(64, 0x1234_5678_ABCD_EFFF), 15, 14) == Container(64, 0xE234_5678_ABCD_EFFF)
  {
    SetNibbleAt15ByRange();
    SetNibbleAt15Bits();
  }

  /** `nibble(0)` to `nibble(2)` read nibbles 0 to 2 of 0x12345678_ABCDEFFF. */
  lemma Nibble64Getters0To2()
    ensures LayoutWellFormed(Nibble64) && 0x1234_5678_ABCD_EFFF < Pow2(64)
    ensures var t := NewWithRawValue(Nibble64, 0x1234_5678_ABCD_EFFF);
      && Nibble(t, 0) == 15
      && Nibble(t, 1) == 15
      && Nibble(t, 2) == 15
  {
    Nibble64Accepted();
    NibbleOf0To2();
  }

  /** `nibble(3)` to `nibble(5)` read nibbles 3 to 5 of 0x12345678_ABCDEFFF. */
  lemma Nibble64Getters3To5()
    ensures LayoutWellFormed(Nibble64) && 0x1234_5678_ABCD_EFFF < Pow2(64)
    ensures var t := NewWithRawValue(Nibble64, 0x1234_5678_ABCD_EFFF);
      && Nibble(t, 3) == 14
      && Nibble(t, 4) == 13
      && Nibble(t, 5) == 12
  {
    Nibble64Accepted();
    NibbleOf3To5();
  }

  /** Each nibble setter replaces exactly its own nibble. */
  lemma Nibble64Setters0And1()
    ensures LayoutWellFormed(Nibble64) && 0x1234_5678_ABCD_EFFF < Pow2(64)
    ensures var t := NewWithRawValue(Nibble64, 0x1234_5678_ABCD_EFFF);
      && WithNibble(t, 0, 3).rawValue == 0x1234_5678_ABCD_EFF3
      && WithNibble(t, 1, 2).rawValue == 0x1234_5678_ABCD_EF2F
  {
    Nibble64Accepted();
    SetNibbleAt0();
    SetNibbleAt1();
  }

  /** Each nibble setter replaces exactly its own nibble. */
  lemma Nibble64Setters2And3()
    ensures LayoutWellFormed(Nibble64) && 0x1234_5678_ABCD_EFFF < Pow2(64)
    ensures var t := NewWithRawValue(Nibble64, 0x1234_5678_ABCD_EFFF);
      && WithNibble(t, 2, 10).rawValue == 0x1234_5678_ABCD_EAFF
      && WithNibble(t, 15, 14).rawValue == 0xE234_5678_ABCD_EFFF
  {
    Nibble64Accepted();
    SetNibbleAt2();
    SetNibbleAt15();
  }

  // ---------------------------------------------------------------------
  // repeated_bitrange_with_stride_equals_width.
  // ---------------------------------------------------------------------

  const StridedNibbleField := Field(0, 3, ReadWrite, Array(16, Some(4)), UnsignedKind)

  /** `#[bitfield(u64, default: 0)] pub struct Nibble64` with `#[bits(0..=3, rw, stride: 4)] nibble: [u4; 16]`. */
  const StridedNibble64 := Layout(64, Some(0), [StridedNibbleField])

  /** `nibble(i)`: bits 4i..=4i+3. */
  function StridedNibble(t: Container, i: nat): (r: nat)
    requires Over(t, 64) && i < 16
    ensures r == Extract(t.rawValue, i * 4, 4)
  {
    StridedNibbleFits(); Get(t, StridedNibbleField, i).n
  }

  /** `with_nibble(i, v)`. */
  function WithStridedNibble(t: Container, i: nat, v: nat): (r: Container)
    requires Over(t, 64) && i < 16
    ensures Over(r, 64) && r.rawValue == Insert(t.rawValue, i * 4, 4, v)
  {
    StridedNibbleFits(); With(t, StridedNibbleField, i, UnsignedValue(v))
  }

  /** The declaration of `strided_nibble` is accepted in the 64-bit `Nibble64`. */
  lemma StridedNibbleFits()
    ensures FieldFits(StridedNibbleField, 64)
  {
  }

  /** Every field of `Nibble64` lies inside its 64-bit container. */
  lemma StridedNibble64FieldsFit()
    ensures forall a :: 0 <= a < |StridedNibble64.fields| ==> FieldFits(StridedNibble64.fields[a], StridedNibble64.width)
  {
    StridedNibbleFits();
  }

  /** The nibble-array declaration of `repeated_bitrange_with_stride_equals_width` is accepted. */
  lemma StridedNibble64Accepted()
    ensures LayoutWellFormed(StridedNibble64)
  {
    StridedNibble64FieldsFit();
  }

  /** The field bits of raw value 0x1234_5678_ABCD_EFFF that `StridedNibbleOf0To2` reads. */
  lemma StridedNibbleOf0To2Bits0()
    ensures Extract(0x1234_5678_ABCD_EFFF, 0, 4) == 15
    ensures Extract(0x1234_5678_ABCD_EFFF, 4, 4) == 15
  {
    assert Pow2(0) == 1 && Pow2(4) == 0x10 by { PowersTo32(); }
    ReadAt(0x1234_5678_ABCD_EFFF, 0, 4, 0x123_4567_8ABC_DEFF, 15, 0, 1, 0x10);
    ReadAt(0x1234_5678_ABCD_EFFF, 4, 4, 0x12_3456_78AB_CDEF, 15, 15, 0x10, 0x10);
  }

  /** The field bits of raw value 0x1234_5678_ABCD_EFFF that `StridedNibbleOf0To2` reads. */
  lemma StridedNibbleOf0To2Bits1()
    ensures Extract(0x1234_5678_ABCD_EFFF, 8, 4) == 15
  {
    assert Pow2(4) == 0x10 && Pow2(8) == 0x100 by { PowersTo32(); }
    ReadAt(0x1234_5678_ABCD_EFFF, 8, 4, 0x1_2345_678A_BCDE, 15, 0xFF, 0x100, 0x10);
  }

  /** The getters of `StridedNibbleOf0To2` as bit ranges of raw value 0x1234_5678_ABCD_EFFF. */
  lemma StridedNibbleOf0To2ByRange()
    ensures Over(Container(64, 0x1234_5678_ABCD_EFFF), 64)
    ensures StridedNibble(Container(64, 0x1234_5678_ABCD_EFFF), 0) == Extract(0x1234_5678_ABCD_EFFF, 0, 4)
    ensures StridedNibble(Container(64, 0x1234_5678_ABCD_EFFF), 1) == Extract(0x1234_5678_ABCD_EFFF, 4, 4)
    ensures StridedNibble(Container(64, 0x1234_5678_ABCD_EFFF), 2) == Extract(0x1234_5678_ABCD_EFFF, 8, 4)
  {
    Over64(0x1234_5678_ABCD_EFFF);
  }

  /** `nibble(i)` on raw value 0x12345678_ABCDEFFF. */
  lemma StridedNibbleOf0To2()
    ensures Over(Container(64, 0x1234_5678_ABCD_EFFF), 64)
    ensures StridedNibble(Container(64, 0x1234_5678_ABCD_EFFF), 0) == 15
    ensures StridedNibble(Container(64, 0x1234_5678_ABCD_EFFF), 1) == 15
    ensures StridedNibble(Container(64, 0x1234_5678_ABCD_EFFF), 2) == 15
  {
    StridedNibbleOf0To2ByRange();
    StridedNibbleOf0To2Bits0();
    StridedNibbleOf0To2Bits1();
  }

  /** The field bits of raw value 0x1234_5678_ABCD_EFFF that `StridedNibbleOf3To5` reads. */
  lemma StridedNibbleOf3To5Bits0()
    ensures Extract(0x1234_5678_ABCD_EFFF, 12, 4) == 14
    ensures Extract(0x1234_5678_ABCD_EFFF, 16, 4) == 13
  {
    assert Pow2(4) == 0x10 && Pow2(12) == 0x1000 && Pow2(16) == 0x1_0000 by { PowersTo32(); }
    ReadAt(0x1234_5678_ABCD_EFFF, 12, 4, 0x1234_5678_ABCD, 14, 0xFFF, 0x1000, 0x10);
    ReadAt(0x1234_5678_ABCD_EFFF, 16, 4, 0x123_4567_8ABC, 13, 0xEFFF, 0x1_0000, 0x10);
  }

  /** The field bits of raw value 0x1234_5678_ABCD_EFFF that `StridedNibbleOf3To5` reads. */
  lemma StridedNibbleOf3To5Bits1()
    ensures Extract(0x1234_5678_ABCD_EFFF, 20, 4) == 12
  {
    assert Pow2(4) == 0x10 && Pow2(20) == 0x10_0000 by { PowersTo32(); }
    ReadAt(0x1234_5678_ABCD_EFFF, 20, 4, 0x12_3456_78AB, 12, 0xD_EFFF, 0x10_0000, 0x10);
  }

  /** The getters of `StridedNibbleOf3To5` as bit ranges of raw value 0x1234_5678_ABCD_EFFF. */
  lemma StridedNibbleOf3To5ByRange()
    ensures Over(Container(64, 0x1234_5678_ABCD_EFFF), 64)
    ensures StridedNibble(Container(64, 0x1234_5678_ABCD_EFFF), 3) == Extract(0x1234_5678_ABCD_EFFF, 12, 4)
    ensures StridedNibble(Container(64, 0x1234_5678_ABCD_EFFF), 4) == Extract(0x1234_5678_ABCD_EFFF, 16, 4)
    ensures StridedNibble(Container(64, 0x1234_5678_ABCD_EFFF), 5) == Extract(0x1234_5678_ABCD_EFFF, 20, 4)
  {
    Over64(0x1234_5678_ABCD_EFFF);
  }

  /** `nibble(i)` on raw value 0x12345678_ABCDEFFF. */
  lemma StridedNibbleOf3To5()
    ensures Over(Container(64, 0x1234_5678_ABCD_EFFF), 64)
    ensures StridedNibble(Container(64, 0x1234_5678_ABCD_EFFF), 3) == 14
    ensures StridedNibble(Container(64, 0x1234_5678_ABCD_EFFF), 4) == 13
    ensures StridedNibble(Container(64, 0x1234_5678_ABCD_EFFF), 5) == 12
  {
    StridedNibbleOf3To5ByRange();
    StridedNibbleOf3To5Bits0();
    StridedNibbleOf3To5Bits1();
  }

  /** The raw value `SetStridedNibbleAt0` writes: 3 into bits 0..3 of 0x1234_5678_ABCD_EFFF. */
  lemma SetStridedNibbleAt0Bits()
    ensures Insert(0x1234_5678_ABCD_EFFF, 0, 4, 3) == 0x1234_5678_ABCD_EFF3
  {
    assert Pow2(0) == 1 && Pow2(4) == 0x10 by { PowersTo32(); }
    WriteAt(0x1234_5678_ABCD_EFFF, 0, 4, 0x123_4567_8ABC_DEFF, 15, 0, 1, 0x10, 3);
  }

  /** The setter of `SetStridedNibbleAt0` as a bit-range write into raw value 0x1234_5678_ABCD_EFFF. */
  lemma SetStridedNibbleAt0ByRange()
    ensures Over(Container(64, 0x1234_5678_ABCD_EFFF), 64) && WithStridedNibble(Container(64, 0x1234_5678_ABCD_EFFF), 0, 3).rawValue == Insert(0x1234_5678_ABCD_EFFF, 0, 4, 3)
  {
    Over64(0x1234_5678_ABCD_EFFF);
  }

  /** `with_nibble(0, 0x3)`. */
  lemma SetStridedNibbleAt0()
    ensures Over(Container(64, 0x1234_5678_ABCD_EFFF), 64)
    ensures WithStridedNibble(Container(64, 0x1234_5678_ABCD_EFFF), 0, 3) == Container(64, 0x1234_5678_ABCD_EFF3)
  {
    SetStridedNibbleAt0ByRange();
    SetStridedNibbleAt0Bits();
  }

  /** The raw value `SetStridedNibbleAt1` writes: 2 into bits 4..7 of 0x1234_5678_ABCD_EFFF. */
  lemma SetStridedNibbleAt1Bits()
    ensures Insert(0x1234_5678_ABCD_EFFF, 4, 4, 2) == 0x1234_5678_ABCD_EF2F
  {
    assert Pow2(4) == 0x10 by { PowersTo32(); }
    WriteAt(0x1234_5678_ABCD_EFFF, 4, 4, 0x12_3456_78AB_CDEF, 15, 15, 0x10, 0x10, 2);
  }

  /** The setter of `SetStridedNibbleAt1` as a bit-range write into raw value 0x1234_5678_ABCD_EFFF. */
  lemma SetStridedNibbleAt1ByRange()
    ensures Over(Container(64, 0x1234_5678_ABCD_EFFF), 64) && WithStridedNibble(Container(64, 0x1234_5678_ABCD_EFFF), 1, 2).rawValue == Insert(0x1234_5678_ABCD_EFFF, 4, 4, 2)
  {
    Over64(0x1234_5678_ABCD_EFFF);
  }

  /** `with_nibble(1, 0x2)`. */
  lemma SetStridedNibbleAt1()
    ensures Over(Container(64, 0x1234_5678_ABCD_EFFF), 64)
    ensures WithStridedNibble(Container(64, 0x1234_5678_ABCD_EFFF), 1, 2) == Container(64, 0x1234_5678_ABCD_EF2F)
  {
    SetStridedNibbleAt1ByRange();
    SetStridedNibbleAt1Bits();
  }

  /** The raw value `SetStridedNibbleAt2` writes: 10 into bits 8..11 of 0x1234_5678_ABCD_EFFF. */
  lemma SetStridedNibbleAt2Bits()
    ensures Insert(0x1234_5678_ABCD_EFFF, 8, 4, 10) == 0x1234_5678_ABCD_EAFF
  {
    assert Pow2(4) == 0x10 && Pow2(8) == 0x100 by { PowersTo32(); }
    WriteAt(0x1234_5678_ABCD_EFFF, 8, 4, 0x1_2345_678A_BCDE, 15, 0xFF, 0x100, 0x10, 10);
  }

  /** The setter of `SetStridedNibbleAt2` as a bit-range write into raw value 0x1234_5678_ABCD_EFFF. */
  lemma SetStridedNibbleAt2ByRange()
    ensures Over(Container(64, 0x1234_5678_ABCD_EFFF), 64) && WithStridedNibble(Container(64, 0x1234_5678_ABCD_EFFF), 2, 10).rawValue == Insert(0x1234_5678_ABCD_EFFF, 8, 4, 10)
  {
    Over64(0x1234_5678_ABCD_EFFF);
  }

  /** `with_nibble(2, 0xA)`. */
  lemma SetStridedNibbleAt2()
    ensures Over(Container(64, 0x1234_5678_ABCD_EFFF), 64)
    ensures WithStridedNibble(Container(64, 0x1234_5678_ABCD_EFFF), 2, 10) == Container(64, 0x1234_5678_ABCD_EAFF)
  {
    SetStridedNibbleAt2ByRange();
    SetStridedNibbleAt2Bits();
  }

  /** The raw value `SetStridedNibbleAt15` writes: 14 into bits 60..63 of 0x1234_5678_ABCD_EFFF. */
  lemma SetStridedNibbleAt15Bits()
    ensures Insert(0x1234_5678_ABCD_EFFF, 60, 4, 14) == 0xE234_5678_ABCD_EFFF
  {
    assert Pow2(4) == 0x10 && Pow2(60) == 0x1000_0000_0000_0000 by { PowersTo32(); PowersTo64(); }
    WriteAt(0x1234_5678_ABCD_EFFF, 60, 4, 0, 1, 0x234_5678_ABCD_EFFF, 0x1000_0000_0000_0000, 0x10, 14);
  }

  /** The setter of `SetStridedNibbleAt15` as a bit-range write into raw value 0x1234_5678_ABCD_EFFF. */
  lemma SetStridedNibbleAt15ByRange()
    ensures Over(Container(64, 0x1234_5678_ABCD_EFFF), 64) && WithStridedNibble(Container(64, 0x1234_5678_ABCD_EFFF), 15, 14).rawValue == Insert(0x1234_5678_ABCD_EFFF, 60, 4, 14)
  {
    Over64(0x1234_5678_ABCD_EFFF);
  }

  /** `with_nibble(15, 0xE)`. */
  lemma SetStridedNibbleAt15()
    ensures Over(Container(64, 0x1234_5678_ABCD_EFFF), 64)
    ensures WithStridedNibble(Container(64, 0x1234_5678_ABCD_EFFF), 15, 14) == Container(64, 0xE234_5678_ABCD_EFFF)
  {
    SetStridedNibbleAt15ByRange();
    SetStridedNibbleAt15Bits();
  }

  /** `nibble(0)` to `nibble(2)` read nibbles 0 to 2 of 0x12345678_ABCDEFFF. */
  lemma StridedNibble64Getters0To2()
    ensures LayoutWellFormed(StridedNibble64) && 0x1234_5678_ABCD_EFFF < Pow2(64)
    ensures var t := NewWithRawValue(StridedNibble64, 0x1234_5678_ABCD_EFFF);
      && StridedNibble(t, 0) == 15
      && StridedNibble(t, 1) == 15
      && StridedNibble(t, 2) == 15
  {
    StridedNibble64Accepted();
    StridedNibbleOf0To2();
  }

  /** `nibble(3)` to `nibble(5)` read nibbles 3 to 5 of 0x12345678_ABCDEFFF. */
  lemma StridedNibble64Getters3To5()
    ensures LayoutWellFormed(StridedNibble64) && 0x1234_5678_ABCD_EFFF < Pow2(64)
    ensures var t := NewWithRawValue(StridedNibble64, 0x1234_5678_ABCD_EFFF);
      && StridedNibble(t, 3) == 14
      && StridedNibble(t, 4) == 13
      && StridedNibble(t, 5) == 12
  {
    StridedNibble64Accepted();
    StridedNibbleOf3To5();
  }

  /** Each nibble setter replaces exactly its own nibble. */
  lemma StridedNibble64Setters0And1()
    ensures LayoutWellFormed(StridedNibble64) && 0x1234_5678_ABCD_EFFF < Pow2(64)
    ensures var t := NewWithRawValue(StridedNibble64, 0x1234_5678_ABCD_EFFF);
      && WithStridedNibble(t, 0, 3).rawValue == 0x1234_5678_ABCD_EFF3
      && WithStridedNibble(t, 1, 2).rawValue == 0x1234_5678_ABCD_EF2F
  {
    StridedNibble64Accepted();
    SetStridedNibbleAt0();
    SetStridedNibbleAt1();
  }

  /** Each nibble setter replaces exactly its own nibble. */
  lemma StridedNibble64Setters2And3()
    ensures LayoutWellFormed(StridedNibble64) && 0x1234_5678_ABCD_EFFF < Pow2(64)
    ensures var t := NewWithRawValue(StridedNibble64, 0x1234_5678_ABCD_EFFF);
      && WithStridedNibble(t, 2, 10).rawValue == 0x1234_5678_ABCD_EAFF
      && WithStridedNibble(t, 15, 14).rawValue == 0xE234_5678_ABCD_EFFF
  {
    StridedNibble64Accepted();
    SetStridedNibbleAt2();
    SetStridedNibbleAt15();
  }

  // ---------------------------------------------------------------------
  // repeated_bitrange_with_stride_greater_than_width.
  // ---------------------------------------------------------------------

  const EvenNibbleField := Field(0, 3, ReadWrite, Array(8, Some(8)), UnsignedKind)

  /** `#[bitfield(u64, default: 0)] pub struct EvenNibble64`: the low nibble of each byte. */
  const EvenNibble64 := Layout(64, Some(0), [EvenNibbleField])

  /** `even_nibble(i)`: bits 8i..=8i+3. */
  function EvenNibble(t: Container, i: nat): (r: nat)
    requires Over(t, 64) && i < 8
    ensures r == Extract(t.rawValue, i * 8, 4)
  {
    EvenNibbleFits(); Get(t, EvenNibbleField, i).n
  }

  /** `with_even_nibble(i, v)`. */
  function WithEvenNibble(t: Container, i: nat, v: nat): (r: Container)
    requires Over(t, 64) && i < 8
    ensures Over(r, 64) && r.rawValue == Insert(t.rawValue, i * 8, 4, v)
  {
    EvenNibbleFits(); With(t, EvenNibbleField, i, UnsignedValue(v))
  }

  /** The declaration of `even_nibble` is accepted in the 64-bit `EvenNibble64`. */
  lemma EvenNibbleFits()
    ensures FieldFits(EvenNibbleField, 64)
  {
  }

  /** Every field of `EvenNibble64` lies inside its 64-bit container. */
  lemma EvenNibble64FieldsFit()
    ensures forall a :: 0 <= a < |EvenNibble64.fields| ==> FieldFits(EvenNibble64.fields[a], EvenNibble64.width)
  {
    EvenNibbleFits();
  }

  /** The declaration with stride 8 over 4-bit instances is accepted. */
  lemma EvenNibble64Accepted()
    ensures LayoutWellFormed(EvenNibble64)
  {
    EvenNibble64FieldsFit();
  }

  /** The field bits of raw value 0x1234_5678_ABCD_EFFF that `EvenNibbleOf0To2` reads. */
  lemma EvenNibbleOf0To2Bits0()
    ensures Extract(0x1234_5678_ABCD_EFFF, 0, 4) == 15
    ensures Extract(0x1234_5678_ABCD_EFFF, 8, 4) == 15
  {
    assert Pow2(0) == 1 && Pow2(4) == 0x10 && Pow2(8) == 0x100 by { PowersTo32(); }
    ReadAt(0x1234_5678_ABCD_EFFF, 0, 4, 0x123_4567_8ABC_DEFF, 15, 0, 1, 0x10);
    ReadAt(0x1234_5678_ABCD_EFFF, 8, 4, 0x1_2345_678A_BCDE, 15, 0xFF, 0x100, 0x10);
  }

  /** The field bits of raw value 0x1234_5678_ABCD_EFFF that `EvenNibbleOf0To2` reads. */
  lemma EvenNibbleOf0To2Bits1()
    ensures Extract(0x1234_5678_ABCD_EFFF, 16, 4) == 13
  {
    assert Pow2(4) == 0x10 && Pow2(16) == 0x1_0000 by { PowersTo32(); }
    ReadAt(0x1234_5678_ABCD_EFFF, 16, 4, 0x123_4567_8ABC, 13, 0xEFFF, 0x1_0000, 0x10);
  }

  /** The getters of `EvenNibbleOf0To2` as bit ranges of raw value 0x1234_5678_ABCD_EFFF. */
  lemma EvenNibbleOf0To2ByRange()
    ensures Over(Container(64, 0x1234_5678_ABCD_EFFF), 64)
    ensures EvenNibble(Container(64, 0x1234_5678_ABCD_EFFF), 0) == Extract(0x1234_5678_ABCD_EFFF, 0, 4)
    ensures EvenNibble(Container(64, 0x1234_5678_ABCD_EFFF), 1) == Extract(0x1234_5678_ABCD_EFFF, 8, 4)
    ensures EvenNibble(Container(64, 0x1234_5678_ABCD_EFFF), 2) == Extract(0x1234_5678_ABCD_EFFF, 16, 4)
  {
    Over64(0x1234_5678_ABCD_EFFF);
  }

  /** `even_nibble(i)` on raw value 0x12345678_ABCDEFFF. */
  lemma EvenNibbleOf0To2()
    ensures Over(Container(64, 0x1234_5678_ABCD_EFFF), 64)
    ensures EvenNibble(Container(64, 0x1234_5678_ABCD_EFFF), 0) == 15
    ensures EvenNibble(Container(64, 0x1234_5678_ABCD_EFFF), 1) == 15
    ensures EvenNibble(Container(64, 0x1234_5678_ABCD_EFFF), 2) == 13
  {
    EvenNibbleOf0To2ByRange();
    EvenNibbleOf0To2Bits0();
    EvenNibbleOf0To2Bits1();
  }

  /** The field bits of raw value 0x1234_5678_ABCD_EFFF that `EvenNibbleOf3To5` reads. */
  lemma EvenNibbleOf3To5Bits0()
    ensures Extract(0x1234_5678_ABCD_EFFF, 24, 4) == 11
    ensures Extract(0x1234_5678_ABCD_EFFF, 32, 4) == 8
  {
    assert Pow2(4) == 0x10 && Pow2(24) == 0x100_0000 && Pow2(32) == 0x1_0000_0000 by { PowersTo32(); }
    ReadAt(0x1234_5678_ABCD_EFFF, 24, 4, 0x1_2345_678A, 11, 0xCD_EFFF, 0x100_0000, 0x10);
    ReadAt(0x1234_5678_ABCD_EFFF, 32, 4, 0x123_4567, 8, 0xABCD_EFFF, 0x1_0000_0000, 0x10);
  }

  /** The field bits of raw value 0x1234_5678_ABCD_EFFF that `EvenNibbleOf3To5` reads. */
  lemma EvenNibbleOf3To5Bits1()
    ensures Extract(0x1234_5678_ABCD_EFFF, 40, 4) == 6
  {
    assert Pow2(4) == 0x10 && Pow2(40) == 0x100_0000_0000 by { PowersTo32(); PowersTo64(); }
    ReadAt(0x1234_5678_ABCD_EFFF, 40, 4, 0x1_2345, 6, 0x78_ABCD_EFFF, 0x100_0000_0000, 0x10);
  }

  /** The getters of `EvenNibbleOf3To5` as bit ranges of raw value 0x1234_5678_ABCD_EFFF. */
  lemma EvenNibbleOf3To5ByRange()
    ensures Over(Container(64, 0x1234_5678_ABCD_EFFF), 64)
    ensures EvenNibble(Container(64, 0x1234_5678_ABCD_EFFF), 3) == Extract(0x1234_5678_ABCD_EFFF, 24, 4)
    ensures EvenNibble(Container(64, 0x1234_5678_ABCD_EFFF), 4) == Extract(0x1234_5678_ABCD_EFFF, 32, 4)
    ensures EvenNibble(Container(64, 0x1234_5678_ABCD_EFFF), 5) == Extract(0x1234_5678_ABCD_EFFF, 40, 4)
  {
    Over64(0x1234_5678_ABCD_EFFF);
  }

  /** `even_nibble(i)` on raw value 0x12345678_ABCDEFFF. */
  lemma EvenNibbleOf3To5()
    ensures Over(Container(64, 0x1234_5678_ABCD_EFFF), 64)
    ensures EvenNibble(Container(64, 0x1234_5678_ABCD_EFFF), 3) == 11
    ensures EvenNibble(Container(64, 0x1234_5678_ABCD_EFFF), 4) == 8
    ensures EvenNibble(Container(64, 0x1234_5678_ABCD_EFFF), 5) == 6
  {
    EvenNibbleOf3To5ByRange();
    EvenNibbleOf3To5Bits0();
    EvenNibbleOf3To5Bits1();
  }

  /** `even_nibble(0)` to `even_nibble(2)` read the low nibbles of bytes 0 to 2: instances are 8 bits apart. */
  lemma EvenNibble64Getters0To2()
    ensures LayoutWellFormed(EvenNibble64) && 0x1234_5678_ABCD_EFFF < Pow2(64)
    ensures var t := NewWithRawValue(EvenNibble64, 0x1234_5678_ABCD_EFFF);
      && EvenNibble(t, 0) == 15
      && EvenNibble(t, 1) == 15
      && EvenNibble(t, 2) == 13
  {
    EvenNibble64Accepted();
    EvenNibbleOf0To2();
  }

  /** `even_nibble(3)` to `even_nibble(5)` read the low nibbles of bytes 3 to 5: instances are 8 bits apart. */
  lemma EvenNibble64Getters3To5()
    ensures LayoutWellFormed(EvenNibble64) && 0x1234_5678_ABCD_EFFF < Pow2(64)
    ensures var t := NewWithRawValue(EvenNibble64, 0x1234_5678_ABCD_EFFF);
      && EvenNibble(t, 3) == 11
      && EvenNibble(t, 4) == 8
      && EvenNibble(t, 5) == 6
  {
    EvenNibble64Accepted();
    EvenNibbleOf3To5();
  }

  // ---------------------------------------------------------------------
  // repeated_bitrange_with_stride_greater_than_width_basic_type.
  // ---------------------------------------------------------------------

  const EvenByteField := Field(0, 7, ReadWrite, Array(4, Some(16)), UnsignedKind)

  /** `#[bitfield(u64, default: 0)] pub struct EvenByte64`: the low byte of each 16-bit half-word. */
  const EvenByte64 := Layout(64, Some(0), [EvenByteField])

  /** `even_byte(i)`: bits 16i..=16i+7. */
  function EvenByte(t: Container, i: nat): (r: nat)
    requires Over(t, 64) && i < 4
    ensures r == Extract(t.rawValue, i * 16, 8)
  {
    EvenByteFits(); Get(t, EvenByteField, i).n
  }

  /** `with_even_byte(i, v)`. */
  function WithEvenByte(t: Container, i: nat, v: nat): (r: Container)
    requires Over(t, 64) && i < 4
    ensures Over(r, 64) && r.rawValue == Insert(t.rawValue, i * 16, 8, v)
  {
    EvenByteFits(); With(t, EvenByteField, i, UnsignedValue(v))
  }

  /** The declaration of `even_byte` is accepted in the 64-bit `EvenByte64`. */
  lemma EvenByteFits()
    ensures FieldFits(EvenByteField, 64)
  {
  }

  /** Every field of `EvenByte64` lies inside its 64-bit container. */
  lemma EvenByte64FieldsFit()
    ensures forall a :: 0 <= a < |EvenByte64.fields| ==> FieldFits(EvenByte64.fields[a], EvenByte64.width)
  {
    EvenByteFits();
  }

  /** The declaration with stride 16 over `u8` instances is accepted. */
  lemma EvenByte64Accepted()
    ensures LayoutWellFormed(EvenByte64)
  {
    EvenByte64FieldsFit();
  }

  /** The field bits of raw value 0x1234_5678_ABCD_EFFF that `EvenByteOf` reads. */
  lemma EvenByteOfBits0()
    ensures Extract(0x1234_5678_ABCD_EFFF, 0, 8) == 0xFF
    ensures Extract(0x1234_5678_ABCD_EFFF, 16, 8) == 0xCD
  {
    assert Pow2(0) == 1 && Pow2(8) == 0x100 && Pow2(16) == 0x1_0000 by { PowersTo32(); }
    ReadAt(0x1234_5678_ABCD_EFFF, 0, 8, 0x12_3456_78AB_CDEF, 0xFF, 0, 1, 0x100);
    ReadAt(0x1234_5678_ABCD_EFFF, 16, 8, 0x12_3456_78AB, 0xCD, 0xEFFF, 0x1_0000, 0x100);
  }

  /** The field bits of raw value 0x1234_5678_ABCD_EFFF that `EvenByteOf` reads. */
  lemma EvenByteOfBits1()
    ensures Extract(0x1234_5678_ABCD_EFFF, 32, 8) == 0x78
    ensures Extract(0x1234_5678_ABCD_EFFF, 48, 8) == 0x34
  {
    assert Pow2(8) == 0x100 && Pow2(32) == 0x1_0000_0000 && Pow2(48) == 0x1_0000_0000_0000 by { PowersTo32(); PowersTo64(); }
    ReadAt(0x1234_5678_ABCD_EFFF, 32, 8, 0x12_3456, 0x78, 0xABCD_EFFF, 0x1_0000_0000, 0x100);
    ReadAt(0x1234_5678_ABCD_EFFF, 48, 8, 0x12, 0x34, 0x5678_ABCD_EFFF, 0x1_0000_0000_0000, 0x100);
  }

  /** The getters of `EvenByteOf` as bit ranges of raw value 0x1234_5678_ABCD_EFFF. */
  lemma EvenByteOfByRange()
    ensures Over(Container(64, 0x1234_5678_ABCD_EFFF), 64)
    ensures EvenByte(Container(64, 0x1234_5678_ABCD_EFFF), 0) == Extract(0x1234_5678_ABCD_EFFF, 0, 8)
    ensures EvenByte(Container(64, 0x1234_5678_ABCD_EFFF), 1) == Extract(0x1234_5678_ABCD_EFFF, 16, 8)
    ensures EvenByte(Container(64, 0x1234_5678_ABCD_EFFF), 2) == Extract(0x1234_5678_ABCD_EFFF, 32, 8)
    ensures EvenByte(Container(64, 0x1234_5678_ABCD_EFFF), 3) == Extract(0x1234_5678_ABCD_EFFF, 48, 8)
  {
    Over64(0x1234_5678_ABCD_EFFF);
  }

  /** `even_byte(i)` on raw value 0x12345678_ABCDEFFF. */
  lemma EvenByteOf()
    ensures Over(Container(64, 0x1234_5678_ABCD_EFFF), 64)
    ensures EvenByte(Container(64, 0x1234_5678_ABCD_EFFF), 0) == 0xFF
    ensures EvenByte(Container(64, 0x1234_5678_ABCD_EFFF), 1) == 0xCD
    ensures EvenByte(Container(64, 0x1234_5678_ABCD_EFFF), 2) == 0x78
    ensures EvenByte(Container(64, 0x1234_5678_ABCD_EFFF), 3) == 0x34
  {
    EvenByteOfByRange();
    EvenByteOfBits0();
    EvenByteOfBits1();
  }

  /** `even_byte(0)` to `even_byte(3)` read 0xFF, 0xCD, 0x78 and 0x34: instances are 16 bits apart. */
  lemma EvenByte64Getters()
    ensures LayoutWellFormed(EvenByte64) && 0x1234_5678_ABCD_EFFF < Pow2(64)
    ensures var t := NewWithRawValue(EvenByte64, 0x1234_5678_ABCD_EFFF);
      && EvenByte(t, 0) == 0xFF
      && EvenByte(t, 1) == 0xCD
      && EvenByte(t, 2) == 0x78
      && EvenByte(t, 3) == 0x34
  {
    EvenByte64Accepted();
    EvenByteOf();
  }
}
