/**
  The container layer of `#[bitfield]`: a struct is one raw integer of a
  fixed width (`u8` .. `u128`), and each declared field is a typed view of a
  bit range of it, possibly repeated (`[T; N]`, optionally with a stride).
  Getters decode the field's bits by the field's type; `with_*` setters
  return a new container whose raw value has the field's bits replaced and
  every other bit kept.

  A field without repetition is an array of one instance: it is read and
  written with index 0.
*/
module Bitfield {
  import opened Wrappers
  import opened BitRange
  import opened TwosComplement
  import opened EnumCodec

  /** The `r`, `w` or `rw` of a field attribute: which of getter and setter exist. */
  datatype Access = ReadOnly | WriteOnly | ReadWrite {
    predicate Readable() { this != WriteOnly }
    predicate Writable() { this != ReadOnly }
  }

  /**
    The declared type of a field: `bool`, an unsigned integer (`u8`, `u4`,
    ...), a signed integer (`i8`, `i16`, ...) or a `#[bitenum]` enum. An
    exhaustive enum field reads as the variant; a non-exhaustive one (declared
    `Option<E>`) reads as `Ok(variant)` or `Err(raw bits)`.
  */
  datatype Kind = BoolKind | UnsignedKind | SignedKind | EnumKind(codec: Codec)

  /** A single field, or `[T; count]` with an optional `stride:` attribute. */
  datatype Repeat = Single | Array(count: nat, stride: Option<nat>)

  /** `#[bit(lo, ..)]` (with hi == lo) or `#[bits(lo..=hi, ..)]`. */
  datatype Field = Field(lo: nat, hi: nat, access: Access, repeat: Repeat, kind: Kind) {
    /** Bits per instance. */
    function Width(): nat {
      if lo <= hi then hi - lo + 1 else 0
    }

    /** Number of instances. */
    function Count(): nat {
      match repeat
      case Single => 1
      case Array(n, _) => n
    }

    /** Distance between instances: the declared stride, or else the width. */
    function Stride(): nat {
      match repeat
      case Array(_, Some(s)) => s
      case _ => Width()
    }

    /** Lowest bit of instance i. */
    function Offset(i: nat): nat {
      if i == 0 then lo else lo + i * Stride()
    }
  }

  /** A value read from, or written to, a field. */
  datatype Value =
    | BoolValue(b: bool)
    | UnsignedValue(n: nat)
    | SignedValue(s: int)
    | EnumValue(variant: Variant)
    | PartialEnumValue(result: Result<Variant, nat>)

  /** The struct itself: its container width and its `raw_value`. */
  datatype Container = Container(width: nat, rawValue: nat)

  /** The struct declaration: `#[bitfield(uW, default: d)]` and its fields. */
  datatype Layout = Layout(width: nat, default: Option<nat>, fields: seq<Field>)

  /** The backing integer types a struct may be declared over. */
  predicate IsContainerWidth(w: nat) {
    w == 8 || w == 16 || w == 32 || w == 64 || w == 128
  }

  /** A value of the struct: a raw value of its declared width. */
  ghost predicate ValidContainer(c: Container) {
    IsContainerWidth(c.width) && c.rawValue < Pow2(c.width)
  }

  /**
    The declaration of field f is accepted in a container of `total` bits:
    its range is not empty, it has at least one instance, instances do not
    overlap each other, the last instance ends inside the container, a bool
    is one bit and an enum's width is the field's width.
  */
  ghost predicate FieldFits(f: Field, total: nat) {
    && f.lo <= f.hi
    && f.Count() >= 1
    && f.Stride() >= f.Width()
    && f.Offset(f.Count() - 1) + f.Width() <= total
    && KindFits(f)
  }

  /** A bool field is one bit; an enum field is as wide as its well-formed enum. */
  ghost predicate KindFits(f: Field) {
    match f.kind
    case BoolKind => f.Width() == 1
    case UnsignedKind => true
    case SignedKind => true
    case EnumKind(codec) => WellFormed(codec) && codec.width == f.Width()
  }

  /** The whole struct declaration is accepted. */
  ghost predicate LayoutWellFormed(l: Layout) {
    && IsContainerWidth(l.width)
    && (l.default.Some? ==> l.default.value < Pow2(l.width))
    && forall a :: 0 <= a < |l.fields| ==> FieldFits(l.fields[a], l.width)
  }

  /** Instance i of f and instance j of g share no bit. */
  predicate InstancesApart(f: Field, i: nat, g: Field, j: nat) {
    Disjoint(f.Offset(i), f.Width(), g.Offset(j), g.Width())
  }

  /** No two distinct fields of the layout share a bit. */
  ghost predicate NoOverlap(l: Layout) {
    forall a: int, b: int, i: nat, j: nat ::
      0 <= a < |l.fields| && 0 <= b < |l.fields| && a != b && i < l.fields[a].Count() && j < l.fields[b].Count() ==>
        InstancesApart(l.fields[a], i, l.fields[b], j)
  }

  /** What the field's setter accepts: a value of the field's type (for an enum, a declared variant). */
  ghost predicate Accepts(f: Field, v: Value) {
    match f.kind
    case BoolKind => v.BoolValue?
    case UnsignedKind => v.UnsignedValue?
    case SignedKind => v.SignedValue?
    case EnumKind(codec) => v.EnumValue? && IsVariant(codec, v.variant)
  }

  /** v is what a getter of f returns. */
  predicate Decoded(f: Field, v: Value) {
    match f.kind
    case BoolKind => v.BoolValue?
    case UnsignedKind => v.UnsignedValue? && v.n < Pow2(f.Width())
    case SignedKind => v.SignedValue? && 1 <= f.Width() && InSignedRange(v.s, f.Width())
    case EnumKind(codec) => if codec.exhaustive then v.EnumValue? else v.PartialEnumValue?
  }

  /** Every instance of a well-formed field ends inside the container. */
  lemma InstanceFits(f: Field, total: nat, i: nat)
    requires FieldFits(f, total) && i < f.Count()
    ensures f.Offset(i) + f.Width() <= total
  {
    MulMonotone(i, f.Count() - 1, f.Stride());
  }

  // ---------------------------------------------------------------------
  // Construction.
  // ---------------------------------------------------------------------

  /** `new()`: the raw value is the declared default. */
  function New(l: Layout): (c: Container)
    requires LayoutWellFormed(l) && l.default.Some?
    ensures ValidContainer(c) && c.width == l.width
    ensures c.rawValue == l.default.value
  {
    Container(l.width, l.default.value)
  }

  /** `new_with_raw_value(v)`: the raw value is v. */
  function NewWithRawValue(l: Layout, v: nat): (c: Container)
    requires LayoutWellFormed(l) && v < Pow2(l.width)
    ensures ValidContainer(c) && c.width == l.width
    ensures c.rawValue == v
  {
    Container(l.width, v)
  }

  // ---------------------------------------------------------------------
  // Getters and setters.
  // ---------------------------------------------------------------------

  /** The getter `field()` / `field(i)`: decodes the bits of instance i by the field's type. */
  function Get(c: Container, f: Field, i: nat): (v: Value)
    requires ValidContainer(c) && FieldFits(f, c.width) && i < f.Count() && f.access.Readable()
    ensures Decoded(f, v)
  {
    var bits := Extract(c.rawValue, f.Offset(i), f.Width());
    match f.kind
    case BoolKind => BoolValue(bits != 0)
    case UnsignedKind => UnsignedValue(bits)
    case SignedKind => SignedValue(SignExtend(bits, f.Width()))
    case EnumKind(codec) =>
      if codec.exhaustive then EnumValue(DecodeExhaustive(codec, bits))
      else PartialEnumValue(DecodePartial(codec, bits))
  }

  /** The bit pattern a setter stores: 0/1, the integer, the two's-complement bits, the discriminant. */
  function Encoding(f: Field, v: Value): nat
    requires KindFits(f) && Accepts(f, v)
  {
    match f.kind
    case BoolKind => if v.b then 1 else 0
    case UnsignedKind => v.n
    case SignedKind => ToTwos(v.s, f.Width())
    case EnumKind(codec) => Encode(codec, v.variant)
  }

  /** Every bit of Insert(raw, lo, w, v) outside [lo, lo + w) is the bit of raw. */
  lemma InsertKeepsOutside(raw: nat, lo: nat, w: nat, v: nat)
    ensures forall k: nat :: !(lo <= k < lo + w) ==> Bit(Insert(raw, lo, w, v), k) == Bit(raw, k)
  {
    forall k: nat | !(lo <= k < lo + w)
      ensures Bit(Insert(raw, lo, w, v), k) == Bit(raw, k)
    {
      BitOfInsert(raw, lo, w, v, k);
    }
  }

  /**
    The setter `with_field(v)` / `with_field(i, v)`: instance i now holds the
    encoding of v (masked to the field's width), and every other bit of the
    raw value is unchanged.
  */
  function With(c: Container, f: Field, i: nat, v: Value): (r: Container)
    requires ValidContainer(c) && FieldFits(f, c.width) && i < f.Count() && f.access.Writable() && Accepts(f, v)
    ensures ValidContainer(r) && r.width == c.width
    ensures Extract(r.rawValue, f.Offset(i), f.Width()) == Encoding(f, v) % Pow2(f.Width())
    ensures forall k: nat :: !(f.Offset(i) <= k < f.Offset(i) + f.Width()) ==> Bit(r.rawValue, k) == Bit(c.rawValue, k)
  {
    var lo, w := f.Offset(i), f.Width();
    InstanceFits(f, c.width, i);
    var e := Encoding(f, v);
    InsertBound(c.rawValue, lo, w, e, c.width);
    ExtractInsert(c.rawValue, lo, w, e);
    InsertKeepsOutside(c.rawValue, lo, w, e);
    Container(c.width, Insert(c.rawValue, lo, w, e))
  }

  // ---------------------------------------------------------------------
  // What the getters read.
  // ---------------------------------------------------------------------

  /** A bool field reads as its single bit. */
  lemma GetBool(c: Container, f: Field, i: nat)
    requires ValidContainer(c) && FieldFits(f, c.width) && i < f.Count() && f.access.Readable()
    requires f.kind == BoolKind
    ensures Get(c, f, i) == BoolValue(Bit(c.rawValue, f.Offset(i)))
  {
    assert Pow2(1) == 2;
  }

  /** An unsigned field reads as the number made of exactly the instance's bits. */
  lemma GetUnsigned(c: Container, f: Field, i: nat)
    requires ValidContainer(c) && FieldFits(f, c.width) && i < f.Count() && f.access.Readable()
    requires f.kind == UnsignedKind
    ensures Get(c, f, i).UnsignedValue?
    ensures forall k: nat :: k < f.Width() ==> Bit(Get(c, f, i).n, k) == Bit(c.rawValue, f.Offset(i) + k)
  {
    forall k: nat | k < f.Width()
      ensures Bit(Get(c, f, i).n, k) == Bit(c.rawValue, f.Offset(i) + k)
    {
      BitOfExtract(c.rawValue, f.Offset(i), f.Width(), k);
    }
  }

  /**
    A signed field reads as the two's-complement number of the instance's
    bits: it is in the signed range, its low bits are the instance's bits,
    and it is negative exactly when the instance's top bit is set.
  */
  lemma GetSigned(c: Container, f: Field, i: nat)
    requires ValidContainer(c) && FieldFits(f, c.width) && i < f.Count() && f.access.Readable()
    requires f.kind == SignedKind
    ensures Get(c, f, i).SignedValue? && InSignedRange(Get(c, f, i).s, f.Width())
    ensures forall k: nat :: k < f.Width() ==> Bit(ToTwos(Get(c, f, i).s, f.Width()), k) == Bit(c.rawValue, f.Offset(i) + k)
    ensures Get(c, f, i).s < 0 <==> Bit(c.rawValue, f.Offset(i) + f.Width() - 1)
  {
    var w := f.Width();
    BitOfExtract(c.rawValue, f.Offset(i), w, w - 1);
    forall k: nat | k < w
      ensures Bit(ToTwos(Get(c, f, i).s, w), k) == Bit(c.rawValue, f.Offset(i) + k)
    {
      BitOfExtract(c.rawValue, f.Offset(i), w, k);
    }
  }

  /**
    An enum field reads as the variant declared with the instance's bits;
    a non-exhaustive one reads as `Err` of exactly those bits when no variant
    is declared with them.
  */
  lemma GetEnum(c: Container, f: Field, i: nat)
    requires ValidContainer(c) && FieldFits(f, c.width) && i < f.Count() && f.access.Readable()
    requires f.kind.EnumKind?
    ensures var bits, codec := Extract(c.rawValue, f.Offset(i), f.Width()), f.kind.codec;
      && (codec.exhaustive ==> Get(c, f, i).EnumValue? && (bits, Get(c, f, i).variant) in codec.variants)
      && (!codec.exhaustive ==> Get(c, f, i) == PartialEnumValue(
            if IsDiscriminant(codec, bits) then Ok(DecodePartial(codec, bits).value) else Err(bits)))
  {
  }

  /** A getter depends only on the bits of its own instance. */
  lemma GetIgnoresOtherBits(c: Container, d: Container, f: Field, i: nat)
    requires ValidContainer(c) && FieldFits(f, c.width) && i < f.Count() && f.access.Readable()
    requires ValidContainer(d) && d.width == c.width
    requires forall k: nat :: f.Offset(i) <= k < f.Offset(i) + f.Width() ==> Bit(c.rawValue, k) == Bit(d.rawValue, k)
    ensures Get(c, f, i) == Get(d, f, i)
  {
    ExtractByBits(c.rawValue, d.rawValue, f.Offset(i), f.Width());
  }

  // ---------------------------------------------------------------------
  // Setters against getters.
  // ---------------------------------------------------------------------

  /** v is a value of the field's Rust type: an unsigned or signed integer of the field's width. */
  ghost predicate Representable(f: Field, v: Value) {
    match v
    case UnsignedValue(n) => n < Pow2(f.Width())
    case SignedValue(s) => 1 <= f.Width() && InSignedRange(s, f.Width())
    case _ => true
  }

  /** What the getter returns after the setter stored v. */
  function ReadBack(f: Field, v: Value): Value {
    if f.kind.EnumKind? && !f.kind.codec.exhaustive && v.EnumValue? then PartialEnumValue(Ok(v.variant)) else v
  }

  /** The stored bits of a representable value are the value's encoding itself: nothing is masked off. */
  lemma EncodingFits(f: Field, v: Value)
    requires f.lo <= f.hi && KindFits(f) && Accepts(f, v) && Representable(f, v)
    ensures Encoding(f, v) < Pow2(f.Width())
  {
    assert Pow2(f.Width()) >= 2 by {
      Pow2Monotone(1, f.Width());
      assert Pow2(1) == 2;
    }
  }

  /** Reading a field right after writing it gives the written value back. */
  lemma RoundTrip(c: Container, f: Field, i: nat, v: Value)
    requires ValidContainer(c) && FieldFits(f, c.width) && i < f.Count() && f.access == ReadWrite
    requires Accepts(f, v) && Representable(f, v)
    ensures Get(With(c, f, i, v), f, i) == ReadBack(f, v)
  {
    var w := f.Width();
    var e := Encoding(f, v);
    EncodingFits(f, v);
    DivModUnique(e, Pow2(w), 0, e);
    match f.kind
    case BoolKind =>
    case UnsignedKind =>
    case SignedKind =>
      SignExtendToTwos(v.s, w);
    case EnumKind(codec) =>
      DecodeEncode(codec, v.variant);
      if codec.exhaustive {
        DecodeExhaustiveEncode(codec, v.variant);
      }
  }

  /** An unsigned setter keeps only the low bits of its argument (proper unmasking). */
  lemma UnsignedMasking(c: Container, f: Field, i: nat, n: nat)
    requires ValidContainer(c) && FieldFits(f, c.width) && i < f.Count() && f.access == ReadWrite
    requires f.kind == UnsignedKind
    ensures Get(With(c, f, i, UnsignedValue(n)), f, i) == UnsignedValue(n % Pow2(f.Width()))
  {
  }

  /** Writing one instance leaves every getter of an instance it does not overlap unchanged. */
  lemma NonInterference(c: Container, f: Field, i: nat, v: Value, g: Field, j: nat)
    requires ValidContainer(c) && FieldFits(f, c.width) && i < f.Count() && f.access.Writable() && Accepts(f, v)
    requires FieldFits(g, c.width) && j < g.Count() && g.access.Readable()
    requires InstancesApart(f, i, g, j)
    ensures Get(With(c, f, i, v), g, j) == Get(c, g, j)
  {
    ExtractInsertDisjoint(c.rawValue, f.Offset(i), f.Width(), Encoding(f, v), g.Offset(j), g.Width());
  }

  /** Distinct instances of a repeated field do not overlap: the stride is at least the width. */
  lemma InstancesOfFieldApart(f: Field, total: nat, i: nat, j: nat)
    requires FieldFits(f, total) && i < f.Count() && j < f.Count() && i != j
    ensures InstancesApart(f, i, f, j)
  {
    var s := f.Stride();
    MulMonotone(1, j - i, s);
    MulMonotone(1, i - j, s);
    assert f.Offset(j) - f.Offset(i) == (j - i) * s;
  }

  /** Writing instance i of a repeated field leaves every other instance unchanged. */
  lemma WriteKeepsOtherInstances(c: Container, f: Field, i: nat, j: nat, v: Value)
    requires ValidContainer(c) && FieldFits(f, c.width) && i < f.Count() && j < f.Count() && i != j
    requires f.access == ReadWrite && Accepts(f, v)
    ensures Get(With(c, f, i, v), f, j) == Get(c, f, j)
  {
    InstancesOfFieldApart(f, c.width, i, j);
    NonInterference(c, f, i, v, f, j);
  }

  /** The second write to an instance replaces the first. */
  lemma LastWriteWins(c: Container, f: Field, i: nat, v: Value, u: Value)
    requires ValidContainer(c) && FieldFits(f, c.width) && i < f.Count() && f.access.Writable()
    requires Accepts(f, v) && Accepts(f, u)
    ensures With(With(c, f, i, v), f, i, u) == With(c, f, i, u)
  {
    InsertInsert(c.rawValue, f.Offset(i), f.Width(), Encoding(f, v), Encoding(f, u));
  }

  /** Setters of instances that do not overlap may be chained in either order. */
  lemma SettersCommute(c: Container, f: Field, i: nat, v: Value, g: Field, j: nat, u: Value)
    requires ValidContainer(c) && FieldFits(f, c.width) && i < f.Count() && f.access.Writable() && Accepts(f, v)
    requires FieldFits(g, c.width) && j < g.Count() && g.access.Writable() && Accepts(g, u)
    requires InstancesApart(f, i, g, j)
    ensures With(With(c, f, i, v), g, j, u) == With(With(c, g, j, u), f, i, v)
  {
    InstanceFits(f, c.width, i);
    InstanceFits(g, c.width, j);
    InsertCommute(c.rawValue, f.Offset(i), f.Width(), Encoding(f, v), g.Offset(j), g.Width(), Encoding(g, u), c.width);
  }

  /** The setter's encoding of what the getter returned is the instance's bits. */
  lemma EncodingOfGet(c: Container, f: Field, i: nat)
    requires ValidContainer(c) && FieldFits(f, c.width) && i < f.Count() && f.access.Readable()
    requires f.kind.EnumKind? ==> f.kind.codec.exhaustive
    ensures Accepts(f, Get(c, f, i))
    ensures Encoding(f, Get(c, f, i)) == Extract(c.rawValue, f.Offset(i), f.Width())
  {
    var bits := Extract(c.rawValue, f.Offset(i), f.Width());
    match f.kind
    case BoolKind =>
      assert Pow2(1) == 2;
    case UnsignedKind =>
    case SignedKind =>
    case EnumKind(codec) =>
      EncodeDecodeExhaustive(codec, bits);
  }

  /** Writing back what the getter returned changes nothing (every kind whose getter returns a writable value). */
  lemma WriteBackUnchanged(c: Container, f: Field, i: nat)
    requires ValidContainer(c) && FieldFits(f, c.width) && i < f.Count() && f.access == ReadWrite
    requires f.kind.EnumKind? ==> f.kind.codec.exhaustive
    ensures Accepts(f, Get(c, f, i)) && With(c, f, i, Get(c, f, i)) == c
  {
    EncodingOfGet(c, f, i);
    InsertExtract(c.rawValue, f.Offset(i), f.Width());
  }

  /** The getter of a field covering the whole container reads the whole raw value. */
  lemma WholeContainerGet(c: Container, f: Field)
    requires ValidContainer(c) && FieldFits(f, c.width) && f.lo == 0 && f.hi == c.width - 1 && f.repeat == Single
    requires f.access.Readable()
    ensures f.kind == UnsignedKind ==> Get(c, f, 0) == UnsignedValue(c.rawValue)
    ensures f.kind == SignedKind ==> Get(c, f, 0) == SignedValue(SignExtend(c.rawValue, c.width))
  {
    assert f.Offset(0) == 0 && f.Width() == c.width;
    WholeRange(c.rawValue, c.width);
  }

  /** The setter of a field covering the whole container replaces the whole raw value. */
  lemma WholeContainerWith(c: Container, f: Field, v: Value)
    requires ValidContainer(c) && FieldFits(f, c.width) && f.lo == 0 && f.hi == c.width - 1 && f.repeat == Single
    requires f.access.Writable() && Accepts(f, v)
    ensures With(c, f, 0, v).rawValue == Encoding(f, v) % Pow2(c.width)
  {
    assert f.Offset(0) == 0 && f.Width() == c.width;
    var r := With(c, f, 0, v).rawValue;
    assert r < Pow2(c.width) && Extract(r, 0, c.width) == Encoding(f, v) % Pow2(c.width);
    WholeRange(r, c.width);
  }

  // ---------------------------------------------------------------------
  // A whole struct declaration.
  // ---------------------------------------------------------------------

  /** In a layout without overlapping fields, a setter of one field changes no getter of another. */
  lemma LayoutNonInterference(l: Layout, c: Container, a: nat, i: nat, v: Value, b: nat, j: nat)
    requires LayoutWellFormed(l) && NoOverlap(l) && ValidContainer(c) && c.width == l.width
    requires a < |l.fields| && b < |l.fields| && a != b
    requires i < l.fields[a].Count() && l.fields[a].access.Writable() && Accepts(l.fields[a], v)
    requires j < l.fields[b].Count() && l.fields[b].access.Readable()
    ensures Get(With(c, l.fields[a], i, v), l.fields[b], j) == Get(c, l.fields[b], j)
  {
    assert InstancesApart(l.fields[a], i, l.fields[b], j);
    NonInterference(c, l.fields[a], i, v, l.fields[b], j);
  }

  /** `new()` is `new_with_raw_value` of the declared default. */
  lemma NewIsDefault(l: Layout)
    requires LayoutWellFormed(l) && l.default.Some?
    ensures New(l) == NewWithRawValue(l, l.default.value) && New(l).rawValue == l.default.value
  {
  }
}
