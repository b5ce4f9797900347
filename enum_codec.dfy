/**
  The enum codec behind `#[bitenum]`: an enum of `width` bits is a list of
  (discriminant, variant) pairs. An exhaustive enum (`exhaustive: true`)
  names every `width`-bit value, so decoding it is total; a non-exhaustive
  one decodes to `Ok(variant)` or to `Err(raw)` carrying the raw value
  unchanged. Encoding (`raw_value()`) gives a variant's discriminant.
*/
module EnumCodec {
  import opened Wrappers
  import opened BitRange

  /** A variant is identified by its name. */
  type Variant = string

  /** An enum: its backing width, its (discriminant, variant) pairs in declaration order, and whether it is exhaustive. */
  datatype Codec = Codec(width: nat, variants: seq<(nat, Variant)>, exhaustive: bool)

  /** Some variant of c has discriminant raw. */
  ghost predicate IsDiscriminant(c: Codec, raw: nat) {
    exists i :: 0 <= i < |c.variants| && c.variants[i].0 == raw
  }

  /** v is a variant of c. */
  ghost predicate IsVariant(c: Codec, v: Variant) {
    exists i :: 0 <= i < |c.variants| && c.variants[i].1 == v
  }

  /**
    What the macro accepts: distinct discriminants, distinct variant names,
    every discriminant fits the backing width, and an exhaustive enum names
    every value of that width.
  */
  ghost predicate WellFormed(c: Codec) {
    && (forall i, j :: 0 <= i < j < |c.variants| ==> c.variants[i].0 != c.variants[j].0)
    && (forall i, j :: 0 <= i < j < |c.variants| ==> c.variants[i].1 != c.variants[j].1)
    && (forall i :: 0 <= i < |c.variants| ==> c.variants[i].0 < Pow2(c.width))
    && (c.exhaustive ==> forall raw: nat :: raw < Pow2(c.width) ==> IsDiscriminant(c, raw))
  }

  /** The first variant declared with discriminant raw, if any. */
  function FindVariant(entries: seq<(nat, Variant)>, raw: nat): (r: Option<Variant>)
    ensures r.Some? <==> exists i :: 0 <= i < |entries| && entries[i].0 == raw
    ensures r.Some? ==> (raw, r.value) in entries
  {
    if |entries| == 0 then None
    else if entries[0].0 == raw then Some(entries[0].1)
    else
      var r := FindVariant(entries[1..], raw);
      assert forall i :: 0 < i < |entries| ==> entries[i] == entries[1..][i - 1];
      r
  }

  /** The discriminant declared for variant v, if v is declared. */
  function FindDiscriminant(entries: seq<(nat, Variant)>, v: Variant): (r: Option<nat>)
    ensures r.Some? <==> exists i :: 0 <= i < |entries| && entries[i].1 == v
    ensures r.Some? ==> (r.value, v) in entries
  {
    if |entries| == 0 then None
    else if entries[0].1 == v then Some(entries[0].0)
    else
      var r := FindDiscriminant(entries[1..], v);
      assert forall i :: 0 < i < |entries| ==> entries[i] == entries[1..][i - 1];
      r
  }

  /**
    `new_with_raw_value` of a non-exhaustive enum: the declared variant for
    raw, or `Err(raw)` with the raw value unchanged.
  */
  function DecodePartial(c: Codec, raw: nat): (r: Result<Variant, nat>)
    ensures r.Ok? <==> IsDiscriminant(c, raw)
    ensures r.Ok? ==> (raw, r.value) in c.variants
    ensures r.Err? ==> r.error == raw
  {
    match FindVariant(c.variants, raw)
    case Some(v) => Ok(v)
    case None => Err(raw)
  }

  /** `new_with_raw_value` of an exhaustive enum: total on the values of its width. */
  function DecodeExhaustive(c: Codec, raw: nat): (v: Variant)
    requires WellFormed(c) && c.exhaustive && raw < Pow2(c.width)
    ensures (raw, v) in c.variants
  {
    assert IsDiscriminant(c, raw);
    FindVariant(c.variants, raw).value
  }

  /** `raw_value()` of a variant: its declared discriminant, which fits the width. */
  function Encode(c: Codec, v: Variant): (raw: nat)
    requires WellFormed(c) && IsVariant(c, v)
    ensures (raw, v) in c.variants
    ensures raw < Pow2(c.width)
  {
    FindDiscriminant(c.variants, v).value
  }

  /** Every declared pair decodes to its own variant: discriminants are distinct. */
  lemma DecodeDeclared(c: Codec, raw: nat, v: Variant)
    requires WellFormed(c) && (raw, v) in c.variants
    ensures DecodePartial(c, raw) == Ok(v)
  {
    var r := DecodePartial(c, raw);
    var i :| 0 <= i < |c.variants| && c.variants[i] == (raw, v);
    assert IsDiscriminant(c, raw);
    var j :| 0 <= j < |c.variants| && c.variants[j] == (raw, r.value);
    assert i == j;
  }

  /** Every declared pair encodes to its own discriminant: variant names are distinct. */
  lemma EncodeDeclared(c: Codec, raw: nat, v: Variant)
    requires WellFormed(c) && (raw, v) in c.variants
    ensures IsVariant(c, v) && Encode(c, v) == raw
  {
    var i :| 0 <= i < |c.variants| && c.variants[i] == (raw, v);
    assert IsVariant(c, v);
    var j :| 0 <= j < |c.variants| && c.variants[j] == (Encode(c, v), v);
    assert i == j;
  }

  /** Decoding what a variant encodes to gives the variant back. */
  lemma DecodeEncode(c: Codec, v: Variant)
    requires WellFormed(c) && IsVariant(c, v)
    ensures DecodePartial(c, Encode(c, v)) == Ok(v)
  {
    DecodeDeclared(c, Encode(c, v), v);
  }

  /** A successful decode encodes back to the raw value that was decoded. */
  lemma EncodeDecode(c: Codec, raw: nat)
    requires WellFormed(c) && DecodePartial(c, raw).Ok?
    ensures IsVariant(c, DecodePartial(c, raw).value)
    ensures Encode(c, DecodePartial(c, raw).value) == raw
  {
    EncodeDeclared(c, raw, DecodePartial(c, raw).value);
  }

  /** On an exhaustive enum, the total decode is the partial decode that never fails. */
  lemma ExhaustiveIsPartialWithoutErr(c: Codec, raw: nat)
    requires WellFormed(c) && c.exhaustive && raw < Pow2(c.width)
    ensures DecodePartial(c, raw) == Ok(DecodeExhaustive(c, raw))
  {
    DecodeDeclared(c, raw, DecodeExhaustive(c, raw));
  }

  /** `raw_value(new_with_raw_value(x)) == x` for an exhaustive enum. */
  lemma EncodeDecodeExhaustive(c: Codec, raw: nat)
    requires WellFormed(c) && c.exhaustive && raw < Pow2(c.width)
    ensures IsVariant(c, DecodeExhaustive(c, raw)) && Encode(c, DecodeExhaustive(c, raw)) == raw
  {
    EncodeDeclared(c, raw, DecodeExhaustive(c, raw));
  }

  /** `new_with_raw_value(raw_value(v)) == v` for an exhaustive enum. */
  lemma DecodeExhaustiveEncode(c: Codec, v: Variant)
    requires WellFormed(c) && c.exhaustive && IsVariant(c, v)
    ensures DecodeExhaustive(c, Encode(c, v)) == v
  {
    DecodeDeclared(c, Encode(c, v), v);
    DecodeDeclared(c, Encode(c, v), DecodeExhaustive(c, Encode(c, v)));
  }
}
