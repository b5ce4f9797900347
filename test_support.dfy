/**
  Arithmetic the concrete test vectors share: the powers of two up to
  2^128 as numerals, and reading or writing a bit range of a numeral
  whose high part, range and low part are given.
*/
module TestSupport {
  import opened Wrappers
  import opened BitRange
  import opened Bitfield

  /** t is a value of a struct declared over `uW`. */
  ghost predicate Over(t: Container, w: nat) {
    ValidContainer(t) && t.width == w
  }

  /** 2^1 .. 2^32. */
  lemma PowersTo32()
    ensures Pow2(1) == 0x2
    ensures Pow2(2) == 0x4
    ensures Pow2(3) == 0x8
    ensures Pow2(4) == 0x10
    ensures Pow2(5) == 0x20
    ensures Pow2(6) == 0x40
    ensures Pow2(7) == 0x80
    ensures Pow2(8) == 0x100
    ensures Pow2(9) == 0x200
    ensures Pow2(10) == 0x400
    ensures Pow2(11) == 0x800
    ensures Pow2(12) == 0x1000
    ensures Pow2(13) == 0x2000
    ensures Pow2(14) == 0x4000
    ensures Pow2(15) == 0x8000
    ensures Pow2(16) == 0x1_0000
    ensures Pow2(17) == 0x2_0000
    ensures Pow2(18) == 0x4_0000
    ensures Pow2(19) == 0x8_0000
    ensures Pow2(20) == 0x10_0000
    ensures Pow2(21) == 0x20_0000
    ensures Pow2(22) == 0x40_0000
    ensures Pow2(23) == 0x80_0000
    ensures Pow2(24) == 0x100_0000
    ensures Pow2(25) == 0x200_0000
    ensures Pow2(26) == 0x400_0000
    ensures Pow2(27) == 0x800_0000
    ensures Pow2(28) == 0x1000_0000
    ensures Pow2(29) == 0x2000_0000
    ensures Pow2(30) == 0x4000_0000
    ensures Pow2(31) == 0x8000_0000
    ensures Pow2(32) == 0x1_0000_0000
  {
    assert Pow2(1) == 2;
    Pow2Add(1, 1);
    Pow2Add(2, 1);
    Pow2Add(3, 1);
    Pow2Add(4, 1);
    Pow2Add(5, 1);
    Pow2Add(6, 1);
    Pow2Add(7, 1);
    Pow2Add(8, 1);
    Pow2Add(9, 1);
    Pow2Add(10, 1);
    Pow2Add(11, 1);
    Pow2Add(12, 1);
    Pow2Add(13, 1);
    Pow2Add(14, 1);
    Pow2Add(15, 1);
    Pow2Add(16, 1);
    Pow2Add(17, 1);
    Pow2Add(18, 1);
    Pow2Add(19, 1);
    Pow2Add(20, 1);
    Pow2Add(21, 1);
    Pow2Add(22, 1);
    Pow2Add(23, 1);
    Pow2Add(24, 1);
    Pow2Add(25, 1);
    Pow2Add(26, 1);
    Pow2Add(27, 1);
    Pow2Add(28, 1);
    Pow2Add(29, 1);
    Pow2Add(30, 1);
    Pow2Add(31, 1);
  }

  /** 2^33 .. 2^64. */
  lemma PowersTo64()
    ensures Pow2(33) == 0x2_0000_0000
    ensures Pow2(34) == 0x4_0000_0000
    ensures Pow2(35) == 0x8_0000_0000
    ensures Pow2(36) == 0x10_0000_0000
    ensures Pow2(37) == 0x20_0000_0000
    ensures Pow2(38) == 0x40_0000_0000
    ensures Pow2(39) == 0x80_0000_0000
    ensures Pow2(40) == 0x100_0000_0000
    ensures Pow2(41) == 0x200_0000_0000
    ensures Pow2(42) == 0x400_0000_0000
    ensures Pow2(43) == 0x800_0000_0000
    ensures Pow2(44) == 0x1000_0000_0000
    ensures Pow2(45) == 0x2000_0000_0000
    ensures Pow2(46) == 0x4000_0000_0000
    ensures Pow2(47) == 0x8000_0000_0000
    ensures Pow2(48) == 0x1_0000_0000_0000
    ensures Pow2(49) == 0x2_0000_0000_0000
    ensures Pow2(50) == 0x4_0000_0000_0000
    ensures Pow2(51) == 0x8_0000_0000_0000
    ensures Pow2(52) == 0x10_0000_0000_0000
    ensures Pow2(53) == 0x20_0000_0000_0000
    ensures Pow2(54) == 0x40_0000_0000_0000
    ensures Pow2(55) == 0x80_0000_0000_0000
    ensures Pow2(56) == 0x100_0000_0000_0000
    ensures Pow2(57) == 0x200_0000_0000_0000
    ensures Pow2(58) == 0x400_0000_0000_0000
    ensures Pow2(59) == 0x800_0000_0000_0000
    ensures Pow2(60) == 0x1000_0000_0000_0000
    ensures Pow2(61) == 0x2000_0000_0000_0000
    ensures Pow2(62) == 0x4000_0000_0000_0000
    ensures Pow2(63) == 0x8000_0000_0000_0000
    ensures Pow2(64) == 0x1_0000_0000_0000_0000
  {
    PowersTo32();
    Pow2Add(32, 1);
    Pow2Add(33, 1);
    Pow2Add(34, 1);
    Pow2Add(35, 1);
    Pow2Add(36, 1);
    Pow2Add(37, 1);
    Pow2Add(38, 1);
    Pow2Add(39, 1);
    Pow2Add(40, 1);
    Pow2Add(41, 1);
    Pow2Add(42, 1);
    Pow2Add(43, 1);
    Pow2Add(44, 1);
    Pow2Add(45, 1);
    Pow2Add(46, 1);
    Pow2Add(47, 1);
    Pow2Add(48, 1);
    Pow2Add(49, 1);
    Pow2Add(50, 1);
    Pow2Add(51, 1);
    Pow2Add(52, 1);
    Pow2Add(53, 1);
    Pow2Add(54, 1);
    Pow2Add(55, 1);
    Pow2Add(56, 1);
    Pow2Add(57, 1);
    Pow2Add(58, 1);
    Pow2Add(59, 1);
    Pow2Add(60, 1);
    Pow2Add(61, 1);
    Pow2Add(62, 1);
    Pow2Add(63, 1);
  }

  /** 2^65 .. 2^96. */
  lemma PowersTo96()
    ensures Pow2(65) == 0x2_0000_0000_0000_0000
    ensures Pow2(66) == 0x4_0000_0000_0000_0000
    ensures Pow2(67) == 0x8_0000_0000_0000_0000
    ensures Pow2(68) == 0x10_0000_0000_0000_0000
    ensures Pow2(69) == 0x20_0000_0000_0000_0000
    ensures Pow2(70) == 0x40_0000_0000_0000_0000
    ensures Pow2(71) == 0x80_0000_0000_0000_0000
    ensures Pow2(72) == 0x100_0000_0000_0000_0000
    ensures Pow2(73) == 0x200_0000_0000_0000_0000
    ensures Pow2(74) == 0x400_0000_0000_0000_0000
    ensures Pow2(75) == 0x800_0000_0000_0000_0000
    ensures Pow2(76) == 0x1000_0000_0000_0000_0000
    ensures Pow2(77) == 0x2000_0000_0000_0000_0000
    ensures Pow2(78) == 0x4000_0000_0000_0000_0000
    ensures Pow2(79) == 0x8000_0000_0000_0000_0000
    ensures Pow2(80) == 0x1_0000_0000_0000_0000_0000
    ensures Pow2(81) == 0x2_0000_0000_0000_0000_0000
    ensures Pow2(82) == 0x4_0000_0000_0000_0000_0000
    ensures Pow2(83) == 0x8_0000_0000_0000_0000_0000
    ensures Pow2(84) == 0x10_0000_0000_0000_0000_0000
    ensures Pow2(85) == 0x20_0000_0000_0000_0000_0000
    ensures Pow2(86) == 0x40_0000_0000_0000_0000_0000
    ensures Pow2(87) == 0x80_0000_0000_0000_0000_0000
    ensures Pow2(88) == 0x100_0000_0000_0000_0000_0000
    ensures Pow2(89) == 0x200_0000_0000_0000_0000_0000
    ensures Pow2(90) == 0x400_0000_0000_0000_0000_0000
    ensures Pow2(91) == 0x800_0000_0000_0000_0000_0000
    ensures Pow2(92) == 0x1000_0000_0000_0000_0000_0000
    ensures Pow2(93) == 0x2000_0000_0000_0000_0000_0000
    ensures Pow2(94) == 0x4000_0000_0000_0000_0000_0000
    ensures Pow2(95) == 0x8000_0000_0000_0000_0000_0000
    ensures Pow2(96) == 0x1_0000_0000_0000_0000_0000_0000
  {
    PowersTo64();
    Pow2Add(64, 1);
    Pow2Add(65, 1);
    Pow2Add(66, 1);
    Pow2Add(67, 1);
    Pow2Add(68, 1);
    Pow2Add(69, 1);
    Pow2Add(70, 1);
    Pow2Add(71, 1);
    Pow2Add(72, 1);
    Pow2Add(73, 1);
    Pow2Add(74, 1);
    Pow2Add(75, 1);
    Pow2Add(76, 1);
    Pow2Add(77, 1);
    Pow2Add(78, 1);
    Pow2Add(79, 1);
    Pow2Add(80, 1);
    Pow2Add(81, 1);
    Pow2Add(82, 1);
    Pow2Add(83, 1);
    Pow2Add(84, 1);
    Pow2Add(85, 1);
    Pow2Add(86, 1);
    Pow2Add(87, 1);
    Pow2Add(88, 1);
    Pow2Add(89, 1);
    Pow2Add(90, 1);
    Pow2Add(91, 1);
    Pow2Add(92, 1);
    Pow2Add(93, 1);
    Pow2Add(94, 1);
    Pow2Add(95, 1);
  }

  /** 2^97 .. 2^128. */
  lemma PowersTo128()
    ensures Pow2(97) == 0x2_0000_0000_0000_0000_0000_0000
    ensures Pow2(98) == 0x4_0000_0000_0000_0000_0000_0000
    ensures Pow2(99) == 0x8_0000_0000_0000_0000_0000_0000
    ensures Pow2(100) == 0x10_0000_0000_0000_0000_0000_0000
    ensures Pow2(101) == 0x20_0000_0000_0000_0000_0000_0000
    ensures Pow2(102) == 0x40_0000_0000_0000_0000_0000_0000
    ensures Pow2(103) == 0x80_0000_0000_0000_0000_0000_0000
    ensures Pow2(104) == 0x100_0000_0000_0000_0000_0000_0000
    ensures Pow2(105) == 0x200_0000_0000_0000_0000_0000_0000
    ensures Pow2(106) == 0x400_0000_0000_0000_0000_0000_0000
    ensures Pow2(107) == 0x800_0000_0000_0000_0000_0000_0000
    ensures Pow2(108) == 0x1000_0000_0000_0000_0000_0000_0000
    ensures Pow2(109) == 0x2000_0000_0000_0000_0000_0000_0000
    ensures Pow2(110) == 0x4000_0000_0000_0000_0000_0000_0000
    ensures Pow2(111) == 0x8000_0000_0000_0000_0000_0000_0000
    ensures Pow2(112) == 0x1_0000_0000_0000_0000_0000_0000_0000
    ensures Pow2(113) == 0x2_0000_0000_0000_0000_0000_0000_0000
    ensures Pow2(114) == 0x4_0000_0000_0000_0000_0000_0000_0000
    ensures Pow2(115) == 0x8_0000_0000_0000_0000_0000_0000_0000
    ensures Pow2(116) == 0x10_0000_0000_0000_0000_0000_0000_0000
    ensures Pow2(117) == 0x20_0000_0000_0000_0000_0000_0000_0000
    ensures Pow2(118) == 0x40_0000_0000_0000_0000_0000_0000_0000
    ensures Pow2(119) == 0x80_0000_0000_0000_0000_0000_0000_0000
    ensures Pow2(120) == 0x100_0000_0000_0000_0000_0000_0000_0000
    ensures Pow2(121) == 0x200_0000_0000_0000_0000_0000_0000_0000
    ensures Pow2(122) == 0x400_0000_0000_0000_0000_0000_0000_0000
    ensures Pow2(123) == 0x800_0000_0000_0000_0000_0000_0000_0000
    ensures Pow2(124) == 0x1000_0000_0000_0000_0000_0000_0000_0000
    ensures Pow2(125) == 0x2000_0000_0000_0000_0000_0000_0000_0000
    ensures Pow2(126) == 0x4000_0000_0000_0000_0000_0000_0000_0000
    ensures Pow2(127) == 0x8000_0000_0000_0000_0000_0000_0000_0000
    ensures Pow2(128) == 0x1_0000_0000_0000_0000_0000_0000_0000_0000
  {
    PowersTo96();
    Pow2Add(96, 1);
    Pow2Add(97, 1);
    Pow2Add(98, 1);
    Pow2Add(99, 1);
    Pow2Add(100, 1);
    Pow2Add(101, 1);
    Pow2Add(102, 1);
    Pow2Add(103, 1);
    Pow2Add(104, 1);
    Pow2Add(105, 1);
    Pow2Add(106, 1);
    Pow2Add(107, 1);
    Pow2Add(108, 1);
    Pow2Add(109, 1);
    Pow2Add(110, 1);
    Pow2Add(111, 1);
    Pow2Add(112, 1);
    Pow2Add(113, 1);
    Pow2Add(114, 1);
    Pow2Add(115, 1);
    Pow2Add(116, 1);
    Pow2Add(117, 1);
    Pow2Add(118, 1);
    Pow2Add(119, 1);
    Pow2Add(120, 1);
    Pow2Add(121, 1);
    Pow2Add(122, 1);
    Pow2Add(123, 1);
    Pow2Add(124, 1);
    Pow2Add(125, 1);
    Pow2Add(126, 1);
    Pow2Add(127, 1);
  }

  /** Every numeral below 2^8 is a raw value of a struct over `u8`. */
  lemma Over8(x: nat)
    requires x < 0x100
    ensures Over(Container(8, x), 8)
  {
    assert Pow2(8) == 0x100 by { PowersTo32(); }
  }

  /** Every numeral below 2^16 is a raw value of a struct over `u16`. */
  lemma Over16(x: nat)
    requires x < 0x1_0000
    ensures Over(Container(16, x), 16)
  {
    assert Pow2(16) == 0x1_0000 by { PowersTo32(); }
  }

  /** Every numeral below 2^32 is a raw value of a struct over `u32`. */
  lemma Over32(x: nat)
    requires x < 0x1_0000_0000
    ensures Over(Container(32, x), 32)
  {
    assert Pow2(32) == 0x1_0000_0000 by { PowersTo32(); }
  }

  /** Every numeral below 2^64 is a raw value of a struct over `u64`. */
  lemma Over64(x: nat)
    requires x < 0x1_0000_0000_0000_0000
    ensures Over(Container(64, x), 64)
  {
    assert Pow2(64) == 0x1_0000_0000_0000_0000 by { PowersTo64(); }
  }

  /** Every numeral below 2^128 is a raw value of a struct over `u128`. */
  lemma Over128(x: nat)
    requires x < 0x1_0000_0000_0000_0000_0000_0000_0000_0000
    ensures Over(Container(128, x), 128)
  {
    assert Pow2(128) == 0x1_0000_0000_0000_0000_0000_0000_0000_0000 by { PowersTo128(); }
  }

  /** The range [lo, lo + w) of x = h·2^(lo+w) + f·2^lo + l holds f; p and q are 2^lo and 2^w. */
  lemma ReadAt(x: nat, lo: nat, w: nat, h: nat, f: nat, l: nat, p: nat, q: nat)
    requires Pow2(lo) == p && Pow2(w) == q && f < q && l < p
    requires x == h * (p * q) + f * p + l
    ensures Extract(x, lo, w) == f
  {
    Pow2Add(lo, w);
    ComposeParts(h, f, l, lo, w);
  }

  /** Writing v to the range [lo, lo + w) of x = h·2^(lo+w) + f·2^lo + l replaces f by v mod 2^w. */
  lemma WriteAt(x: nat, lo: nat, w: nat, h: nat, f: nat, l: nat, p: nat, q: nat, v: nat)
    requires Pow2(lo) == p && Pow2(w) == q && f < q && l < p
    requires x == h * (p * q) + f * p + l
    ensures Insert(x, lo, w, v) == h * (p * q) + (v % q) * p + l
  {
    Pow2Add(lo, w);
    ComposeParts(h, f, l, lo, w);
  }
}
