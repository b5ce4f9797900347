# bitbybit bitfields and bitenums, modelled in Dafny

bitbybit is a pair of Rust procedural macros. `#[bitfield(uW, default: d)]`
turns a struct declaration into a wrapper around one raw integer of W bits
(`u8` .. `u128`). Each declared field becomes a typed view of a bit range
`#[bits(lo..=hi, r|w|rw)]` or of a single bit `#[bit(n, ..)]`. A field may be
an array `[T; N]` whose instances sit at `lo + i * stride`; the stride
defaults to the field's width. The macro generates a getter `field()` /
`field(i)` and a setter `with_field(v)` / `with_field(i, v)` that returns a
new value, plus `new()` and `new_with_raw_value(v)`. `#[bitenum(uW,
exhaustive: ..)]` turns an enum into a codec between variants and
discriminants. An exhaustive enum decodes every W-bit value. A
non-exhaustive one decodes to `Ok(variant)` or `Err(raw)`.

The model is pure: datatypes, functions and lemmas, in these modules.

- `Wrappers` (wrappers.dfy): `Option` and `Result`.
- `BitRange` (bit_range.dfy): raw values as natural numbers, `Extract`
  (`(raw >> lo) & mask`) and `Insert` (clear the range, or in the masked
  value). Every bit of `Insert` is proved to be the bit of the new value
  inside the range and the old bit outside it. A range covering the whole
  container needs no special case, because nothing is a machine word.
- `TwosComplement` (twos_complement.dfy): signed fields store the low bits
  of the two's-complement form and read back by sign extension.
- `EnumCodec` (enum_codec.dfy): the `#[bitenum]` codec, with its
  well-formedness condition (distinct discriminants and names, every
  discriminant fits the width, an exhaustive enum names every value), and
  the two round trips between decode and encode.
- `Bitfield` (bitfield.dfy): fields, layouts, the container, the typed
  getter `Get` and setter `With` for every field kind, and the laws they
  obey: round trip, masking, non-interference between fields and between
  instances of one array, last write wins, setters commute, writing back
  what was read changes nothing, whole-container fields.
- `FieldKindTests`, `UnsignedFieldTests`, `RepeatedFieldTests`,
  `EnumFieldTests` (struct_tests_*.dfy), `BitenumTests` (bitenum_tests.dfy):
  the structs and enums declared in the repository's two test suites. Each
  generated accessor is a function defined by `Get` or `With` on the
  declared layout; its contract states the concrete bit range it reads or
  writes. Every assertion of the tests is a proved lemma about those
  accessors. `TestSupport` (test_support.dfy) holds the powers of two and
  the small steps those proofs share.

Each accessor needs the struct declaration to be accepted. That obligation
is discharged per struct by a lemma proving `LayoutWellFormed` (and
`WellFormed` of its enums), which stands in for the macro's compile-time
checks.

## Model

| member | source | states |
|---|---|---|
| BitRange.Extract | bitbybit-tests/tests/bitfield_tests.rs:40-46 | the bits a getter reads, moved down to bit 0, are a value below 2^width |
| BitRange.BitOfExtract | bitbybit-tests/tests/bitfield_tests.rs:40-46 | bit k of the range read at lo is bit lo + k of the raw value, for every k below the width |
| BitRange.ExtractByBits | bitbybit-tests/tests/bitfield_tests.rs:450-465 | two raw values that agree on every bit of a range read the same range value, whatever lies outside it |
| BitRange.BitOfInsert | bitbybit-tests/tests/bitfield_tests.rs:203-211 | writing a range is clear-then-or: bit k of the result is bit k - lo of the new value inside the range and bit k of the old raw value outside it |
| BitRange.ExtractInsert | bitbybit-tests/tests/bitfield_tests.rs:48-53 | reading a range right after writing v gives v modulo 2^width: the setter masks off what does not fit |
| BitRange.ExtractInsertDisjoint | bitbybit-tests/tests/bitfield_tests.rs:48-53 | writing a range leaves the value of every disjoint range unchanged |
| BitRange.InsertBound | bitbybit-tests/tests/bitfield_tests.rs:48-53 | writing a range that ends inside a W-bit container keeps the raw value below 2^W |
| BitRange.InsertExtract | bitbybit-tests/tests/bitfield_tests.rs:203-211 | writing back the bits a range already holds leaves the raw value unchanged |
| BitRange.InsertInsert | bitbybit-tests/tests/bitfield_tests.rs:210-211 | a second write to the same range replaces the first |
| BitRange.InsertCommute | bitbybit-tests/tests/bitfield_tests.rs:48-53 | writes to two disjoint ranges inside the container give the same raw value in either order |
| BitRange.InsertIntoZero | bitbybit-tests/tests/bitfield_tests.rs:48-50 | writing v into an all-zero raw value gives v modulo 2^width shifted up by lo |
| BitRange.WholeRange | bitbybit-tests/tests/bitfield_tests.rs:215-226 | a value below 2^W read as the range 0..W-1 is the value itself, also for W = 128 |
| BitRange.MaskBits | bitbybit-tests/tests/bitfield_tests.rs:215-226 | the mask of k bits is below 2^k and has exactly bits 0..k-1 set, also when k is the container width |
| TwosComplement.SignExtend | bitbybit-tests/tests/bitfield_tests.rs:132-136 | the getter's signed value lies in the signed range of the width, has the field's bits as its low bits, and is negative exactly when the top bit is set |
| TwosComplement.ToTwos | bitbybit-tests/tests/bitfield_tests.rs:138-143 | the bits a signed setter stores fit the field's width |
| TwosComplement.TopBit | bitbybit-tests/tests/bitfield_tests.rs:132-136 | the top bit of a width-bit value is set exactly when the value is at least 2^(width-1) |
| TwosComplement.SignExtendToTwos | bitbybit-tests/tests/bitfield_tests.rs:138-143 | every value of the signed type, stored and read back, is itself |
| TwosComplement.SignExtendUnique | bitbybit-tests/tests/bitfield_tests.rs:132-136 | sign extension is the only value in the signed range with the given low bits |
| TwosComplement.MinusOneIsAllOnes | bitbybit-tests/tests/bitfield_tests.rs:142-143 | storing -1 sets every bit of the field (the stored bits are the mask of the width) |
| EnumCodec.FindVariant | bitbybit-tests/tests/bitenum_tests.rs:25-37 | a variant is found exactly when some pair declares the raw value, and what is found is declared with it |
| EnumCodec.FindDiscriminant | bitbybit-tests/tests/bitenum_tests.rs:39-41 | a discriminant is found exactly when the variant is declared, and the pair found is a declared one |
| EnumCodec.DecodePartial | bitbybit-tests/tests/bitenum_tests.rs:25-37 | `new_with_raw_value` of a non-exhaustive enum is `Ok` exactly when the raw value is a declared discriminant, `Ok` holds the variant declared with it, and `Err` carries the raw value unchanged |
| EnumCodec.DecodeExhaustive | bitbybit-tests/tests/bitenum_tests.rs:5-18 | `new_with_raw_value` of an exhaustive enum is total on the values of its width and gives the variant declared with the raw value |
| EnumCodec.Encode | bitbybit-tests/tests/bitenum_tests.rs:20-21 | `raw_value()` is the variant's declared discriminant and fits the enum's width |
| EnumCodec.DecodeDeclared | bitbybit-tests/tests/bitenum_tests.rs:15-18 | each declared (discriminant, variant) pair decodes to its own variant |
| EnumCodec.EncodeDeclared | bitbybit-tests/tests/bitenum_tests.rs:39-41 | each declared pair encodes to its own discriminant |
| EnumCodec.DecodeEncode | bitbybit-tests/tests/bitenum_tests.rs:34-41 | decoding a variant's `raw_value()` gives `Ok` of that variant |
| EnumCodec.EncodeDecode | bitbybit-tests/tests/bitenum_tests.rs:34-41 | a decode that succeeds encodes back to the raw value decoded |
| EnumCodec.ExhaustiveIsPartialWithoutErr | bitbybit-tests/tests/bitenum_tests.rs:5-18 | on an exhaustive enum the total decode is the partial decode, which never gives `Err` |
| EnumCodec.EncodeDecodeExhaustive | bitbybit-tests/tests/bitenum_tests.rs:54-55 | `new_with_raw_value(x).raw_value() == x` for every x of an exhaustive enum's width |
| EnumCodec.DecodeExhaustiveEncode | bitbybit-tests/tests/bitenum_tests.rs:57-58 | `new_with_raw_value(v.raw_value()) == v` for every variant of an exhaustive enum |
| Bitfield.InstanceFits | bitbybit-tests/tests/bitfield_tests.rs:229-243 | every instance i < count of an accepted field, at lo + i*stride, ends inside the container |
| Bitfield.New | bitbybit-tests/tests/bitfield_tests.rs:6-11 | `new()` is a valid container of the declared width whose raw value is the declared default |
| Bitfield.NewWithRawValue | bitbybit-tests/tests/bitfield_tests.rs:13-14 | `new_with_raw_value(v)` is a valid container of the declared width holding v |
| Bitfield.Get | bitbybit-tests/tests/bitfield_tests.rs:40-46 | a getter returns a value of the field's type: an unsigned value below 2^width, a signed value in the width's signed range, the variant of an exhaustive enum, `Ok`/`Err` for a non-exhaustive one |
| Bitfield.With | bitbybit-tests/tests/bitfield_tests.rs:48-53 | a setter gives a valid container of the same width whose instance holds the encoding of v modulo 2^width and whose every other bit is unchanged |
| Bitfield.InsertKeepsOutside | bitbybit-tests/tests/bitfield_tests.rs:203-211 | a range write keeps every bit of the raw value outside the range |
| Bitfield.GetBool | bitbybit-tests/tests/bitfield_tests.rs:99-112 | a bool field reads true exactly when its bit is set |
| Bitfield.GetUnsigned | bitbybit-tests/tests/bitfield_tests.rs:40-46 | an unsigned field reads as the number whose bits are exactly the instance's bits |
| Bitfield.GetSigned | bitbybit-tests/tests/bitfield_tests.rs:132-136 | a signed field reads as a value in the signed range whose two's-complement bits are the instance's bits, negative exactly when the top bit is set |
| Bitfield.GetEnum | bitbybit-tests/tests/bitfield_tests.rs:450-512 | an exhaustive enum field reads as the variant declared with its bits; a non-exhaustive one reads `Ok` of the declared variant, or `Err` of exactly its bits when none is declared |
| Bitfield.GetIgnoresOtherBits | bitbybit-tests/tests/bitfield_tests.rs:450-465 | a getter depends only on its own instance's bits |
| Bitfield.EncodingFits | bitbybit-tests/tests/bitfield_tests.rs:138-143 | a value of the field's type is stored without losing bits |
| Bitfield.RoundTrip | bitbybit-tests/tests/bitfield_tests.rs:48-53 | reading a field right after writing a value of its type gives the value back (as `Ok` for a non-exhaustive enum) |
| Bitfield.UnsignedMasking | bitbybit-tests/tests/bitfield_tests.rs:203-211 | an unsigned setter keeps only the low width bits of its argument |
| Bitfield.NonInterference | bitbybit-tests/tests/bitfield_tests.rs:104-112 | writing one instance leaves the getter of every instance it does not overlap unchanged |
| Bitfield.InstancesOfFieldApart | bitbybit-tests/tests/bitfield_tests.rs:229-243 | distinct instances of an accepted repeated field share no bit |
| Bitfield.WriteKeepsOtherInstances | bitbybit-tests/tests/bitfield_tests.rs:268-299 | writing instance i of a repeated field leaves every other instance's getter unchanged |
| Bitfield.LastWriteWins | bitbybit-tests/tests/bitfield_tests.rs:210-211 | the second setter call on an instance replaces the first |
| Bitfield.SettersCommute | bitbybit-tests/tests/bitfield_tests.rs:48-53 | setters of non-overlapping instances may be chained in either order |
| Bitfield.EncodingOfGet | bitbybit-tests/tests/bitfield_tests.rs:40-53 | the setter's encoding of what a getter returned is exactly the instance's bits |
| Bitfield.WriteBackUnchanged | bitbybit-tests/tests/bitfield_tests.rs:40-53 | writing back what the getter returned leaves the container unchanged |
| Bitfield.WholeContainerGet | bitbybit-tests/tests/bitfield_tests.rs:215-226 | a field over the whole container reads the whole raw value (sign-extended for a signed field) |
| Bitfield.WholeContainerWith | bitbybit-tests/tests/bitfield_tests.rs:215-226 | the setter of a field over the whole container replaces the whole raw value |
| Bitfield.LayoutNonInterference | bitbybit-tests/tests/bitfield_tests.rs:190-211 | in a declaration whose fields do not overlap, the setter of one field changes no getter of another |
| Bitfield.NewIsDefault | bitbybit-tests/tests/bitfield_tests.rs:147-163 | `new()` is `new_with_raw_value` of the declared default |
| FieldKindTests.Bit0 | bitbybit-tests/tests/bitfield_tests.rs:83-84 | `bit0()` reads bit 0 as a bool |
| FieldKindTests.Bit1 | bitbybit-tests/tests/bitfield_tests.rs:86-87 | `bit1()` reads bit 1 as a bool |
| FieldKindTests.WithBit0 | bitbybit-tests/tests/bitfield_tests.rs:83-84 | `with_bit0(v)` writes 1 or 0 into bit 0 of the 16-bit raw value |
| FieldKindTests.WithBit1 | bitbybit-tests/tests/bitfield_tests.rs:86-87 | `with_bit1(v)` writes 1 or 0 into bit 1 |
| FieldKindTests.BoolFieldsNew | bitbybit-tests/tests/bitfield_tests.rs:99-102 | `new()` reads both bools false |
| FieldKindTests.BoolFieldsWithBit0 | bitbybit-tests/tests/bitfield_tests.rs:104-107 | `with_bit0(true)` gives raw value 0b01, bit0 true and bit1 false |
| FieldKindTests.BoolFieldsWithBit1 | bitbybit-tests/tests/bitfield_tests.rs:109-112 | `with_bit1(true)` gives raw value 0b10, bit0 false and bit1 true |
| FieldKindTests.Unsigned1 | bitbybit-tests/tests/bitfield_tests.rs:119-120 | `unsigned1()` reads bits 0..=7 as a u8 |
| FieldKindTests.Unsigned2 | bitbybit-tests/tests/bitfield_tests.rs:122-123 | `unsigned2()` reads bits 8..=15 as a u8 |
| FieldKindTests.Signed1 | bitbybit-tests/tests/bitfield_tests.rs:125-126 | `signed1()` reads bits 16..=23 as the sign extension of the byte |
| FieldKindTests.Signed2 | bitbybit-tests/tests/bitfield_tests.rs:128-129 | `signed2()` reads bits 24..=31 as the sign extension of the byte |
| FieldKindTests.WithUnsigned1 | bitbybit-tests/tests/bitfield_tests.rs:119-120 | `with_unsigned1(v)` writes v into bits 0..=7 |
| FieldKindTests.WithUnsigned2 | bitbybit-tests/tests/bitfield_tests.rs:122-123 | `with_unsigned2(v)` writes v into bits 8..=15 |
| FieldKindTests.WithSigned1 | bitbybit-tests/tests/bitfield_tests.rs:125-126 | `with_signed1(v)` writes the two's-complement byte of v into bits 16..=23 |
| FieldKindTests.WithSigned2 | bitbybit-tests/tests/bitfield_tests.rs:128-129 | `with_signed2(v)` writes the two's-complement byte of v into bits 24..=31 |
| FieldKindTests.SignedVsUnsignedGetters | bitbybit-tests/tests/bitfield_tests.rs:132-136 | raw value 0x7FFF7FFF reads 255 and 127 through the u8 getters and -1 and 127 through the i8 getters |
| FieldKindTests.SignedVsUnsignedSetters | bitbybit-tests/tests/bitfield_tests.rs:138-143 | storing 0x7F, 0xFF, 127 and -1 gives raw value 0xFF7FFF7F |
| FieldKindTests.A | bitbybit-tests/tests/bitfield_tests.rs:218-219 | `a()` reads all 16 bits as an i16 |
| FieldKindTests.WithA | bitbybit-tests/tests/bitfield_tests.rs:218-219 | `with_a(v)` writes the 16-bit two's-complement form of v |
| FieldKindTests.JustOneBitRangeRoundTrip | bitbybit-tests/tests/bitfield_tests.rs:221-225 | `with_a(0b0111001110001111)` on `new()` has that raw value and reads it back |
| UnsignedFieldTests.Construction | bitbybit-tests/tests/bitfield_tests.rs:6-15 | `new()` of the empty u32 struct gives 0 and `new_with_raw_value(45)` gives 45 |
| UnsignedFieldTests.DefaultValue | bitbybit-tests/tests/bitfield_tests.rs:147-163 | `new()` gives the declared default 0xDEADBEEF, and 0xBADCAFE when the default is a named constant |
| UnsignedFieldTests.Val30 | bitbybit-tests/tests/bitfield_tests.rs:21-22 | the getter reads bits 98..=127 of the 128-bit raw value |
| UnsignedFieldTests.Val57 | bitbybit-tests/tests/bitfield_tests.rs:24-25 | the getter reads bits 41..=97 of the 128-bit raw value |
| UnsignedFieldTests.Val13 | bitbybit-tests/tests/bitfield_tests.rs:27-28 | the getter reads bits 28..=40 of the 128-bit raw value |
| UnsignedFieldTests.Val16 | bitbybit-tests/tests/bitfield_tests.rs:30-31 | the getter reads bits 12..=27 of the 128-bit raw value |
| UnsignedFieldTests.Baudrate | bitbybit-tests/tests/bitfield_tests.rs:33-34 | the getter reads bits 4..=11 of the 128-bit raw value |
| UnsignedFieldTests.SomeOtherBits | bitbybit-tests/tests/bitfield_tests.rs:36-37 | the getter reads bits 0..=3 of the 128-bit raw value |
| UnsignedFieldTests.WithBaudrate | bitbybit-tests/tests/bitfield_tests.rs:33-34 | `with_baudrate(v)` writes v into bits 4..=11 |
| UnsignedFieldTests.WithSomeOtherBits | bitbybit-tests/tests/bitfield_tests.rs:36-37 | `with_some_other_bits(v)` writes v into bits 0..=3 |
| UnsignedFieldTests.GetterAndSetterGetters | bitbybit-tests/tests/bitfield_tests.rs:40-46 | the six getters on 0xAE42315A_2134FE06_3412345A_2134FE06 read 0x2B908C56, 0x1109A7F031A091A, 0x5A2, 0x134F, 0xE0 and 6 |
| UnsignedFieldTests.GetterAndSetterSetters | bitbybit-tests/tests/bitfield_tests.rs:48-53 | `with_baudrate(0x12)` then `with_some_other_bits(2)` on `new()` give 0x0122 and read back 0x12 and 2 |
| UnsignedFieldTests.GetterAndSetterArbitraryUintGetters | bitbybit-tests/tests/bitfield_tests.rs:67-69 | the two-field struct reads 0xE0 and 6 from 0xFE06 |
| UnsignedFieldTests.GetterAndSetterArbitraryUintSetters | bitbybit-tests/tests/bitfield_tests.rs:71-76 | the same two setters on the two-field struct give 0x0122 and read back their values |
| UnsignedFieldTests.WithA | bitbybit-tests/tests/bitfield_tests.rs:193-194 | `with_a(v)` writes v into bits 0..=1 |
| UnsignedFieldTests.WithB | bitbybit-tests/tests/bitfield_tests.rs:196-197 | `with_b(v)` writes v into bits 2..=3 |
| UnsignedFieldTests.WithC | bitbybit-tests/tests/bitfield_tests.rs:199-200 | `with_c(v)` writes v into bits 4..=5 |
| UnsignedFieldTests.ProperUnmaskingSetAll | bitbybit-tests/tests/bitfield_tests.rs:203-208 | setting all three fields to 0b11 gives 0b111111 |
| UnsignedFieldTests.ProperUnmaskingClearMiddle | bitbybit-tests/tests/bitfield_tests.rs:210-211 | clearing the middle field of 0b111111 gives 0b110011: only its bits are cleared |
| RepeatedFieldTests.NibbleBit0 | bitbybit-tests/tests/bitfield_tests.rs:232-233 | `nibble_bit0(i)` reads bit 0 + 4*i as a bool, for i < 16 |
| RepeatedFieldTests.NibbleBit1 | bitbybit-tests/tests/bitfield_tests.rs:235-236 | `nibble_bit1(i)` reads bit 1 + 4*i as a bool, for i < 16 |
| RepeatedFieldTests.NibbleBit2 | bitbybit-tests/tests/bitfield_tests.rs:238-239 | `nibble_bit2(i)` reads bit 2 + 4*i as a bool, for i < 16 |
| RepeatedFieldTests.NibbleBit3 | bitbybit-tests/tests/bitfield_tests.rs:241-242 | `nibble_bit3(i)` reads bit 3 + 4*i as a bool, for i < 16 |
| RepeatedFieldTests.WithNibbleBit0 | bitbybit-tests/tests/bitfield_tests.rs:232-233 | `with_nibble_bit0(i, v)` writes bit 0 + 4*i and nothing else |
| RepeatedFieldTests.WithNibbleBit1 | bitbybit-tests/tests/bitfield_tests.rs:235-236 | `with_nibble_bit1(i, v)` writes bit 1 + 4*i and nothing else |
| RepeatedFieldTests.WithNibbleBit2 | bitbybit-tests/tests/bitfield_tests.rs:238-239 | `with_nibble_bit2(i, v)` writes bit 2 + 4*i and nothing else |
| RepeatedFieldTests.WithNibbleBit3 | bitbybit-tests/tests/bitfield_tests.rs:241-242 | `with_nibble_bit3(i, v)` writes bit 3 + 4*i and nothing else |
| RepeatedFieldTests.NibbleBitsGetters0To3 | bitbybit-tests/tests/bitfield_tests.rs:247-250 | `nibble_bit0(0..=3)` of 0x12345678_ABCDEFFF read true, true, true, false |
| RepeatedFieldTests.NibbleBitsGetters4To7 | bitbybit-tests/tests/bitfield_tests.rs:251-254 | `nibble_bit0(4..=7)` read true, false, true, false |
| RepeatedFieldTests.NibbleBitsGetters8To11 | bitbybit-tests/tests/bitfield_tests.rs:256-259 | `nibble_bit0(8..=11)` read false, true, false, true |
| RepeatedFieldTests.NibbleBitsGetters12To15 | bitbybit-tests/tests/bitfield_tests.rs:260-263 | `nibble_bit0(12..=15)` read false, true, false, true |
| RepeatedFieldTests.NibbleBitsTopNibble | bitbybit-tests/tests/bitfield_tests.rs:264-266 | `nibble_bit1(15)`, `nibble_bit2(15)` and `nibble_bit3(15)` read false |
| RepeatedFieldTests.NibbleBitsSetters0And1 | bitbybit-tests/tests/bitfield_tests.rs:268-275 | clearing `nibble_bit0(0)` and `nibble_bit0(1)` gives 0x12345678_ABCDEFFE and 0x12345678_ABCDEFEF |
| RepeatedFieldTests.NibbleBitsSetters2And3 | bitbybit-tests/tests/bitfield_tests.rs:276-283 | clearing `nibble_bit0(2)` and setting `nibble_bit0(3)` give 0x12345678_ABCDEEFF and 0x12345678_ABCDFFFF |
| RepeatedFieldTests.NibbleBitsSetters4And5 | bitbybit-tests/tests/bitfield_tests.rs:284-291 | clearing `nibble_bit0(15)` and setting `nibble_bit1(15)` give 0x02345678_ABCDEFFF and 0x32345678_ABCDEFFF |
| RepeatedFieldTests.NibbleBitsSetters6And7 | bitbybit-tests/tests/bitfield_tests.rs:292-299 | setting `nibble_bit2(15)` and `nibble_bit3(15)` give 0x52345678_ABCDEFFF and 0x92345678_ABCDEFFF |
| RepeatedFieldTests.IndexedBit | bitbybit-tests/tests/bitfield_tests.rs:306-307 | `bit(i)` of `[bool; 8]` without a stride reads bit i, for i < 8 |
| RepeatedFieldTests.WithIndexedBit | bitbybit-tests/tests/bitfield_tests.rs:306-307 | `with_bit(i, v)` writes bit i |
| RepeatedFieldTests.Bits8Getters0To3 | bitbybit-tests/tests/bitfield_tests.rs:310-314 | `bit(0..=3)` of 0b0110_1110 read false, true, true, true |
| RepeatedFieldTests.Bits8Getters4To7 | bitbybit-tests/tests/bitfield_tests.rs:316-319 | `bit(4..=7)` read false, true, true, false |
| RepeatedFieldTests.Bits8Setters | bitbybit-tests/tests/bitfield_tests.rs:321-322 | `with_bit(3, false)` gives 0b0110_0110 and `with_bit(7, true)` gives 0b1110_1110 |
| RepeatedFieldTests.Nibble | bitbybit-tests/tests/bitfield_tests.rs:329-330 | `nibble(i)` of `[u4; 16]` without a stride reads the 4 bits at 4*i |
| RepeatedFieldTests.WithNibble | bitbybit-tests/tests/bitfield_tests.rs:329-330 | `with_nibble(i, v)` writes the 4 bits at 4*i |
| RepeatedFieldTests.Nibble64Getters0To2 | bitbybit-tests/tests/bitfield_tests.rs:336-338 | `nibble(0..=2)` of 0x12345678_ABCDEFFF read 0xF, 0xF, 0xF |
| RepeatedFieldTests.Nibble64Getters3To5 | bitbybit-tests/tests/bitfield_tests.rs:339-341 | `nibble(3..=5)` read 0xE, 0xD, 0xC |
| RepeatedFieldTests.Nibble64Setters0And1 | bitbybit-tests/tests/bitfield_tests.rs:343-350 | `with_nibble(0, 3)` and `with_nibble(1, 2)` give 0x12345678_ABCDEFF3 and 0x12345678_ABCDEF2F |
| RepeatedFieldTests.Nibble64Setters2And3 | bitbybit-tests/tests/bitfield_tests.rs:351-358 | `with_nibble(2, 0xA)` and `with_nibble(15, 0xE)` give 0x12345678_ABCDEAFF and 0xE2345678_ABCDEFFF |
| RepeatedFieldTests.StridedNibble | bitbybit-tests/tests/bitfield_tests.rs:365-366 | `nibble(i)` with stride 4 reads the 4 bits at 4*i, as without a stride |
| RepeatedFieldTests.WithStridedNibble | bitbybit-tests/tests/bitfield_tests.rs:365-366 | `with_nibble(i, v)` with stride 4 writes the 4 bits at 4*i |
| RepeatedFieldTests.StridedNibble64Getters0To2 | bitbybit-tests/tests/bitfield_tests.rs:372-374 | `nibble(0..=2)` read 0xF, 0xF, 0xF |
| RepeatedFieldTests.StridedNibble64Getters3To5 | bitbybit-tests/tests/bitfield_tests.rs:375-377 | `nibble(3..=5)` read 0xE, 0xD, 0xC |
| RepeatedFieldTests.StridedNibble64Setters0And1 | bitbybit-tests/tests/bitfield_tests.rs:379-386 | `with_nibble(0, 3)` and `with_nibble(1, 2)` give 0x12345678_ABCDEFF3 and 0x12345678_ABCDEF2F |
| RepeatedFieldTests.StridedNibble64Setters2And3 | bitbybit-tests/tests/bitfield_tests.rs:387-394 | `with_nibble(2, 0xA)` and `with_nibble(15, 0xE)` give 0x12345678_ABCDEAFF and 0xE2345678_ABCDEFFF |
| RepeatedFieldTests.EvenNibble | bitbybit-tests/tests/bitfield_tests.rs:401-402 | `even_nibble(i)` with stride 8 reads the 4 bits at 8*i, for i < 8 |
| RepeatedFieldTests.WithEvenNibble | bitbybit-tests/tests/bitfield_tests.rs:401-402 | `with_even_nibble(i, v)` writes the 4 bits at 8*i |
| RepeatedFieldTests.EvenNibble64Getters0To2 | bitbybit-tests/tests/bitfield_tests.rs:408-410 | `even_nibble(0..=2)` of 0x12345678_ABCDEFFF read 0xF, 0xF, 0xD |
| RepeatedFieldTests.EvenNibble64Getters3To5 | bitbybit-tests/tests/bitfield_tests.rs:411-413 | `even_nibble(3..=5)` read 0xB, 0x8, 0x6 |
| RepeatedFieldTests.EvenByte | bitbybit-tests/tests/bitfield_tests.rs:420-421 | `even_byte(i)` with stride 16 reads the 8 bits at 16*i, for i < 4 |
| RepeatedFieldTests.WithEvenByte | bitbybit-tests/tests/bitfield_tests.rs:420-421 | `with_even_byte(i, v)` writes the 8 bits at 16*i |
| RepeatedFieldTests.EvenByte64Getters | bitbybit-tests/tests/bitfield_tests.rs:427-430 | `even_byte(0..=3)` read 0xFF, 0xCD, 0x78, 0x34 |
| EnumFieldTests.E1 | bitbybit-tests/tests/bitfield_tests.rs:446-447 | `e1()` decodes bits 0..=1 with the exhaustive enum |
| EnumFieldTests.WithE1 | bitbybit-tests/tests/bitfield_tests.rs:446-447 | `with_e1(v)` writes v's discriminant into bits 0..=1 |
| EnumFieldTests.BitfieldWithEnumGetters | bitbybit-tests/tests/bitfield_tests.rs:450-465 | 0b1100, 0b1101, 0b1110 and 0b1111 read Zero, One, Two and Three: bits above the field are ignored |
| EnumFieldTests.BitfieldWithEnumSetters | bitbybit-tests/tests/bitfield_tests.rs:467-478 | `with_e1(Two)` and `with_e1(Three)` on `new()` give 0b10 and 0b11 |
| EnumFieldTests.E2 | bitbybit-tests/tests/bitfield_tests.rs:493-494 | `e2()` decodes bits 2..=3 with the non-exhaustive enum |
| EnumFieldTests.WithE2 | bitbybit-tests/tests/bitfield_tests.rs:493-494 | `with_e2(v)` takes a declared variant and writes its discriminant into bits 2..=3 |
| EnumFieldTests.NonExhaustiveEnumGetters | bitbybit-tests/tests/bitfield_tests.rs:497-512 | 0b0010, 0b0110 and 0b1010 read `Ok(Zero)`, `Ok(One)`, `Ok(Two)`, and 0b1110 reads `Err(3)` |
| EnumFieldTests.NonExhaustiveEnumSetters | bitbybit-tests/tests/bitfield_tests.rs:514-531 | `with_e2` of Zero, One and Two on `new()` give 0b0000, 0b0100 and 0b1000 |
| EnumFieldTests.Exhaustive | bitbybit-tests/tests/bitfield_tests.rs:549-550 | `exhaustive(i)` decodes the 2 bits at 2*i with the exhaustive enum, for i < 8 |
| EnumFieldTests.WithExhaustive | bitbybit-tests/tests/bitfield_tests.rs:549-550 | `with_exhaustive(i, v)` writes v's discriminant into the 2 bits at 2*i |
| EnumFieldTests.IndexedExhaustiveGetters | bitbybit-tests/tests/bitfield_tests.rs:553-564 | `exhaustive(0)` of 0b0010 is Two; `exhaustive(1)` and `exhaustive(2)` of 0b0110 are One and Zero |
| EnumFieldTests.IndexedExhaustiveSetter | bitbybit-tests/tests/bitfield_tests.rs:566-571 | `with_exhaustive(2, Three)` on 0b01_10 gives 0b11_01_10 |
| EnumFieldTests.Nonexhaustive | bitbybit-tests/tests/bitfield_tests.rs:586-587 | `nonexhaustive(i)` decodes the 2 bits at 2*i with the non-exhaustive enum |
| EnumFieldTests.WithNonexhaustive | bitbybit-tests/tests/bitfield_tests.rs:586-587 | `with_nonexhaustive(i, v)` writes v's discriminant into the 2 bits at 2*i |
| EnumFieldTests.IndexedNonExhaustiveGetters | bitbybit-tests/tests/bitfield_tests.rs:590-601 | `nonexhaustive(0)` of 0b0010 is `Ok(Two)`; indices 1 and 2 of 0b0110 are `Ok(One)` and `Ok(Zero)` |
| EnumFieldTests.IndexedNonExhaustiveSetter | bitbybit-tests/tests/bitfield_tests.rs:603-608 | `with_nonexhaustive(2, Two)` on 0b01_10 gives 0b10_01_10 |
| EnumFieldTests.Val8 | bitbybit-tests/tests/bitfield_tests.rs:623-624 | `val8()` decodes bits 6..=13 with the 8-bit non-exhaustive enum |
| EnumFieldTests.U8EnumGetters | bitbybit-tests/tests/bitfield_tests.rs:627-643 | 0, 0b1 << 6 and 0b10000010 << 6 read `Ok(Zero)`, `Ok(One)`, `Ok(Two)`; 0b00100000 << 6 reads `Err(0b00100000)` |
| BitenumTests.Exhaustive2WellFormed | bitbybit-tests/tests/bitenum_tests.rs:6-13 | the exhaustive two-bit enum is accepted: it names all four two-bit values |
| BitenumTests.ExhaustiveTwoBits | bitbybit-tests/tests/bitenum_tests.rs:15-21 | 0..=3 decode to Zero, One, Two, Three; Zero and One encode to 0 and 1 |
| BitenumTests.Partial2WellFormed | bitbybit-tests/tests/bitenum_tests.rs:26-32 | the non-exhaustive two-bit enum is accepted |
| BitenumTests.NonExhaustiveTwoBits | bitbybit-tests/tests/bitenum_tests.rs:34-41 | 0, 1, 2 decode to `Ok` of Zero, One, Two and 3 to `Err(3)`; the three variants encode to 0, 1, 2 |
| BitenumTests.ExhaustiveRawValueRoundTrip | bitbybit-tests/tests/bitenum_tests.rs:54-58 | decoding 0 and 2 and taking `raw_value()` gives 0 and 2; Two and Three encode to 2 and 3 |
| BitenumTests.WideWellFormed | bitbybit-tests/tests/bitenum_tests.rs:62-177 | an enum declaring 0, 2, 3 and one value `one` in 4..2^width is accepted |
| BitenumTests.WideDecodes | bitbybit-tests/tests/bitenum_tests.rs:72-75 | such an enum decodes its four discriminants to their variants |
| BitenumTests.WideEncodes | bitbybit-tests/tests/bitenum_tests.rs:79-80 | it encodes Zero and One to 0 and `one` |
| BitenumTests.WideUndeclared | bitbybit-tests/tests/bitenum_tests.rs:76-77 | it decodes every other value to `Err` of that value unchanged |
| BitenumTests.WideCodec | bitbybit-tests/tests/bitenum_tests.rs:72-80 | the decodes, encodes and `Err` results of one wide enum together |
| BitenumTests.EightBits | bitbybit-tests/tests/bitenum_tests.rs:62-81 | the u8 enum with One = 255: decodes 0, 255, 2, 3, gives `Err(4)` and `Err(254)`, encodes Zero and One to 0 and 255 |
| BitenumTests.SixteenBits | bitbybit-tests/tests/bitenum_tests.rs:84-103 | the u16 enum with One = 65535, `Err(4)` and `Err(255)` |
| BitenumTests.ThirtyTwoBits | bitbybit-tests/tests/bitenum_tests.rs:106-125 | the u32 enum with One = 0xFFFFFFFF, `Err(4)` and `Err(255)` |
| BitenumTests.SixtyThreeBits | bitbybit-tests/tests/bitenum_tests.rs:128-151 | the u63 enum with One = 0x7FFFFFFF_FFFFFFFF, `Err(4)` and `Err(255)` |
| BitenumTests.SixtyFourBits | bitbybit-tests/tests/bitenum_tests.rs:154-177 | the u64 enum with One = 0xFFFFFFFF_FFFFFFFF, `Err(4)` and `Err(255)` |

## Left out

- Macro expansion itself: parsing `#[bitfield]`/`#[bitenum]` attributes and
  generating Rust code. A declaration is modelled directly as a `Layout` or
  `Codec` value.
- Declarations the macro rejects at compile time are modelled by the
  well-formedness predicates `FieldFits`, `LayoutWellFormed` and
  `EnumCodec.WellFormed`, not by error messages. This covers:
  - a field outside the container, or an array whose instances overlap;
  - a bool that is not one bit;
  - an exhaustive enum that misses a value.
- There is no setter for an undeclared variant of a non-exhaustive enum
  (bitfield_tests.rs:532-533). The setter's precondition `IsVariant`
  expresses this.
- The access mode (`r`, `w`, `rw`) decides which accessors exist. It is a
  precondition of `Get` (readable) and `With` (writable). The read-only
  `n`, `o` and write-only `m` of the bool test struct are declared in the
  layout, but no accessor is written out for them because the test uses
  none.
- An array index at or beyond the array's length is a precondition
  (`i < Count()`), not a panic.
- `arbitrary_int` types (`u2`, `u4`, `u13`, `u57`, `u63`, ...) and Rust's
  fixed-width integers are natural numbers bounded by the field's width.
  `u4::new` of an out-of-range value is not modelled.
- `Debug` derives, `format!` output and documentation comments passed
  through the macros (bitfield_tests.rs:165-187, bitenum_tests.rs:179-201)
  do not affect the bits and are not modelled. The documented enum of
  bitenum_tests.rs:179-201 is declared like the exhaustive two-bit enum,
  whose assertions `BitenumTests.ExhaustiveTwoBits` proves.
- `raw_value` is accessed both as a field and as a method in the tests.
  Both are the `rawValue` of the container.
