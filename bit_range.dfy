/**
  Bit-range arithmetic over the raw value of a fixed-width container.

  A raw value is a natural number; a container of width W holds values
  below 2^W. A bit range is given by its lowest bit `lo` and its `width`,
  so it covers bits lo .. lo + width - 1. Nothing here depends on a machine
  word, so a range that covers the whole container (width == W, also for
  W == 128) needs no special case: its mask is 2^W - 1, all W bits set.
*/
module BitRange {

  /** 2^n. */
  function Pow2(n: nat): (r: nat)
    ensures r >= 1
  {
    if n == 0 then 1 else 2 * Pow2(n - 1)
  }

  /** `mask(k) = (1 << k) - 1`: the value whose low k bits are set. */
  function Mask(k: nat): nat {
    Pow2(k) - 1
  }

  /** `x >> n`. */
  function Shr(x: nat, n: nat): nat {
    DivNonneg(x, Pow2(n));
    x / Pow2(n)
  }

  /** `x << n`, in unbounded arithmetic. */
  function Shl(x: nat, n: nat): nat {
    MulNonneg(x, Pow2(n));
    x * Pow2(n)
  }

  /** Bit k of x is set. */
  predicate Bit(x: nat, k: nat) {
    Shr(x, k) % 2 == 1
  }

  /** `(raw >> lo) & mask(width)`: the bits of the range, moved down to bit 0. */
  function Extract(raw: nat, lo: nat, width: nat): (bits: nat)
    ensures bits < Pow2(width)
  {
    Shr(raw, lo) % Pow2(width)
  }

  /**
    `(raw & !(mask(width) << lo)) | ((v & mask(width)) << lo)`: the bits of
    raw above and below the range are kept, the range receives the low
    `width` bits of v, and any higher bits of v are dropped.
  */
  function Insert(raw: nat, lo: nat, width: nat, v: nat): nat {
    Shl(Shr(raw, lo + width), lo + width) + Shl(v % Pow2(width), lo) + raw % Pow2(lo)
  }

  /** The ranges [lo1, lo1 + w1) and [lo2, lo2 + w2) share no bit. */
  predicate Disjoint(lo1: nat, w1: nat, lo2: nat, w2: nat) {
    lo1 + w1 <= lo2 || lo2 + w2 <= lo1
  }

  // ---------------------------------------------------------------------
  // Arithmetic facts about powers of two, division and remainder.
  // ---------------------------------------------------------------------

  /** 2^(a+b) == 2^a · 2^b. */
  lemma {:induction false} Pow2Add(a: nat, b: nat)
    ensures Pow2(a + b) == Pow2(a) * Pow2(b)
  {
    if a > 0 {
      Pow2Add(a - 1, b);
      assert Pow2(a + b) == 2 * Pow2(a - 1 + b);
    }
  }

  /** 256^k, which the verifier evaluates on a literal k in k steps. */
  function Pow256(k: nat): nat {
    if k == 0 then 1 else 256 * Pow256(k - 1)
  }

  /**
    2^(8k) == 256^k: the powers of two at whole bytes, from which the
    verifier reaches any other 2^n by unfolding at most seven steps.
  */
  lemma {:induction false} Pow2Bytes(k: nat)
    ensures Pow2(8 * k) == Pow256(k)
  {
    if k > 0 {
      Pow2Bytes(k - 1);
      assert Pow2(8) == 256;
      Pow2Add(8 * (k - 1), 8);
    }
  }

  /** 2^63, the bound of a 63-bit value. */
  lemma Pow2Of63()
    ensures Pow2(63) == 0x8000_0000_0000_0000
  {
    Pow2Bytes(7);
    assert Pow2(7) == 128;
    Pow2Add(56, 7);
  }

  /** Powers of two grow with the exponent. */
  lemma {:induction false} Pow2Monotone(a: nat, b: nat)
    requires a <= b
    ensures Pow2(a) <= Pow2(b)
  {
    if a < b {
      Pow2Monotone(a, b - 1);
    }
  }

  /** A product of non-negative factors is non-negative. */
  lemma MulNonneg(a: int, b: int)
    requires a >= 0 && b >= 0
    ensures a * b >= 0
  {
  }

  /** Multiplying by a non-negative factor keeps the order. */
  lemma MulMonotone(a: int, b: int, c: int)
    requires c >= 0
    ensures a <= b ==> a * c <= b * c
  {
    if a <= b {
      MulNonneg(b - a, c);
      assert b * c - a * c == (b - a) * c;
    }
  }

  /** A quotient of a non-negative value by a positive divisor is non-negative. */
  lemma DivNonneg(x: int, d: int)
    requires x >= 0 && d > 0
    ensures x / d >= 0
  {
    MulMonotone(x / d, -1, d);
  }

  /** Quotient and remainder are the only ones. */
  lemma DivModUnique(x: int, d: int, q: int, r: int)
    requires d > 0 && 0 <= r < d && x == q * d + r
    ensures x / d == q && x % d == r
  {
    var q', r' := x / d, x % d;
    assert (q - q') * d == r' - r;
    MulMonotone(1, q - q', d);
    MulMonotone(1, q' - q, d);
  }

  /** Dividing by a*b is dividing by a, then by b; the remainder splits likewise. */
  lemma DivModMul(y: nat, a: nat, b: nat)
    requires a > 0 && b > 0
    ensures y / (a * b) == (y / a) / b
    ensures y % (a * b) == y % a + a * ((y / a) % b)
  {
    MulMonotone(1, b, a);
    var ab := a * b;
    var q, r := y / ab, y % ab;
    var s, t := r / a, r % a;
    assert r == s * a + t;
    MulMonotone(b, s, a);
    assert s < b;
    assert y == q * ab + r;
    assert q * ab == (q * b) * a;
    assert y == (q * b + s) * a + t;
    DivModUnique(y, a, q * b + s, t);
    DivModUnique(y / a, b, q, s);
  }

  /** A value placed above r < a stays below b * a when its own factor is below b. */
  lemma PlaceBound(h: nat, a: nat, r: nat, b: nat)
    requires r < a && h < b
    ensures h * a + r < b * a
  {
    MulMonotone(h + 1, b, a);
    assert (h + 1) * a == h * a + a;
  }

  /** x < a * b means x / a < b. */
  lemma DivBound(x: nat, a: nat, b: nat)
    requires a > 0 && x < a * b
    ensures x / a < b
  {
    var q := x / a;
    assert x == q * a + x % a;
    MulMonotone(b, q, a);
    assert a * b == b * a;
  }

  /** x is its quotient by a * b, the next digit below it and its remainder by a. */
  lemma SplitDigits(x: nat, a: nat, b: nat)
    requires a > 0 && b > 0
    ensures x == ((x / a) / b) * (a * b) + ((x / a) % b) * a + x % a
  {
    var q, r := x / a, x % a;
    var h, f := q / b, q % b;
    assert x == q * a + r;
    assert q == h * b + f;
    assert q * a == (h * b + f) * a;
    assert (h * b + f) * a == h * (a * b) + f * a;
  }

  // ---------------------------------------------------------------------
  // Shifts and splitting a value around a bit range.
  // ---------------------------------------------------------------------

  /** Shifting right by a, then by b, is shifting right by a + b. */
  lemma ShrShr(x: nat, a: nat, b: nat)
    ensures Shr(Shr(x, a), b) == Shr(x, a + b)
  {
    Pow2Add(a, b);
    DivModMul(x, Pow2(a), Pow2(b));
  }

  /** The low a + b bits are the low a bits and, above them, the next b bits. */
  lemma ModSplit(x: nat, a: nat, b: nat)
    ensures x % Pow2(a + b) == x % Pow2(a) + Shl(Shr(x, a) % Pow2(b), a)
  {
    Pow2Add(a, b);
    DivModMul(x, Pow2(a), Pow2(b));
  }

  /** A value assembled from a high part, a field and a low part gives those parts back. */
  lemma ComposeParts(h: nat, f: nat, l: nat, lo: nat, w: nat)
    requires f < Pow2(w) && l < Pow2(lo)
    ensures var x := Shl(h, lo + w) + Shl(f, lo) + l;
      && x % Pow2(lo) == l
      && Shr(x, lo) == Shl(h, w) + f
      && Extract(x, lo, w) == f
      && Shr(x, lo + w) == h
  {
    var x := Shl(h, lo + w) + Shl(f, lo) + l;
    var y := Shl(h, w) + f;
    Regroup(h, f, l, lo, w);
    DivModUnique(x, Pow2(lo), y, l);
    DivModUnique(y, Pow2(w), h, f);
    ShrShr(x, lo, w);
  }

  /** An assembled value is (h·2^w + f)·2^lo + l. */
  lemma Regroup(h: nat, f: nat, l: nat, lo: nat, w: nat)
    ensures Shl(h, lo + w) + Shl(f, lo) + l == (Shl(h, w) + f) * Pow2(lo) + l
  {
    Pow2Add(lo, w);
    Distribute(h, f, Pow2(lo), Pow2(w));
  }

  /** h·(p·q) + f·p == (h·q + f)·p. */
  lemma Distribute(h: int, f: int, p: int, q: int)
    ensures h * (p * q) + f * p == (h * q + f) * p
  {
    assert h * (p * q) == (h * q) * p;
  }

  /** Every value is its high part, its field and its low part. */
  lemma Decompose(x: nat, lo: nat, w: nat)
    ensures x == Shl(Shr(x, lo + w), lo + w) + Shl(Extract(x, lo, w), lo) + x % Pow2(lo)
  {
    SplitDigits(x, Pow2(lo), Pow2(w));
    ShrShr(x, lo, w);
    Pow2Add(lo, w);
  }

  /** Bits below n are the bits of x % 2^n. */
  lemma BitBelow(x: nat, n: nat, k: nat)
    requires k < n
    ensures Bit(x % Pow2(n), k) == Bit(x, k)
  {
    var y := Shr(x, k);
    var m := x % Pow2(n);
    ModSplit(x, k, n - k);
    DivModUnique(m, Pow2(k), y % Pow2(n - k), x % Pow2(k));
    ModSplit(y, 1, n - k - 1);
    assert Pow2(1) == 2;
    assert Shl(Shr(y, 1) % Pow2(n - k - 1), 1) == 2 * (Shr(y, 1) % Pow2(n - k - 1));
    DivModUnique(y % Pow2(n - k), 2, Shr(y, 1) % Pow2(n - k - 1), y % 2);
  }

  /** Bits at or above n are the bits of x >> n, moved down by n. */
  lemma BitAbove(x: nat, n: nat, k: nat)
    requires n <= k
    ensures Bit(x, k) == Bit(Shr(x, n), k - n)
  {
    ShrShr(x, n, k - n);
  }

  /** The bits of an assembled value, part by part. */
  lemma BitOfParts(h: nat, f: nat, l: nat, lo: nat, w: nat, k: nat)
    requires f < Pow2(w) && l < Pow2(lo)
    ensures var x := Shl(h, lo + w) + Shl(f, lo) + l;
      Bit(x, k) == if k < lo then Bit(l, k) else if k < lo + w then Bit(f, k - lo) else Bit(h, k - lo - w)
  {
    if k < lo {
      BitOfLowPart(h, f, l, lo, w, k);
    } else if k < lo + w {
      BitOfMiddlePart(h, f, l, lo, w, k);
    } else {
      BitOfTopPart(h, f, l, lo, w, k);
    }
  }

  /** Bits lo .. lo + w - 1 of an assembled value are those of its middle part. */
  lemma BitOfMiddlePart(h: nat, f: nat, l: nat, lo: nat, w: nat, k: nat)
    requires f < Pow2(w) && l < Pow2(lo) && lo <= k < lo + w
    ensures Bit(Shl(h, lo + w) + Shl(f, lo) + l, k) == Bit(f, k - lo)
  {
    BitOfHighParts(h, f, l, lo, w, k);
    BitOfUpperParts(h, f, w, k - lo);
  }

  /** Bits from lo + w up of an assembled value are those of its high part. */
  lemma BitOfTopPart(h: nat, f: nat, l: nat, lo: nat, w: nat, k: nat)
    requires f < Pow2(w) && l < Pow2(lo) && lo + w <= k
    ensures Bit(Shl(h, lo + w) + Shl(f, lo) + l, k) == Bit(h, k - lo - w)
  {
    BitOfHighParts(h, f, l, lo, w, k);
    BitOfUpperParts(h, f, w, k - lo);
  }

  /** Bits below lo of an assembled value are those of its low part. */
  lemma BitOfLowPart(h: nat, f: nat, l: nat, lo: nat, w: nat, k: nat)
    requires f < Pow2(w) && l < Pow2(lo) && k < lo
    ensures Bit(Shl(h, lo + w) + Shl(f, lo) + l, k) == Bit(l, k)
  {
    var x := Shl(h, lo + w) + Shl(f, lo) + l;
    ComposeParts(h, f, l, lo, w);
    BitBelow(x, lo, k);
  }

  /** Bits from lo up of an assembled value are those of h·2^w + f. */
  lemma BitOfHighParts(h: nat, f: nat, l: nat, lo: nat, w: nat, k: nat)
    requires f < Pow2(w) && l < Pow2(lo) && lo <= k
    ensures Bit(Shl(h, lo + w) + Shl(f, lo) + l, k) == Bit(Shl(h, w) + f, k - lo)
  {
    var x := Shl(h, lo + w) + Shl(f, lo) + l;
    ComposeParts(h, f, l, lo, w);
    BitAbove(x, lo, k);
  }

  /** The bits of h * 2^w + f, for f below 2^w. */
  lemma BitOfUpperParts(h: nat, f: nat, w: nat, j: nat)
    requires f < Pow2(w)
    ensures Bit(Shl(h, w) + f, j) == if j < w then Bit(f, j) else Bit(h, j - w)
  {
    var y := Shl(h, w) + f;
    DivModUnique(y, Pow2(w), h, f);
    if j < w {
      BitBelow(y, w, j);
    } else {
      BitAbove(y, w, j);
    }
  }

  // ---------------------------------------------------------------------
  // Properties of Insert and Extract.
  // ---------------------------------------------------------------------

  /**
    Insert is clear-and-OR: inside the range the bits are those of v,
    outside it they are those of raw.
  */
  lemma BitOfInsert(raw: nat, lo: nat, w: nat, v: nat, k: nat)
    ensures Bit(Insert(raw, lo, w, v), k) == if lo <= k < lo + w then Bit(v, k - lo) else Bit(raw, k)
  {
    BitOfParts(Shr(raw, lo + w), v % Pow2(w), raw % Pow2(lo), lo, w, k);
    if k < lo {
      BitBelow(raw, lo, k);
    } else if k < lo + w {
      BitBelow(v, w, k - lo);
    } else {
      BitAbove(raw, lo + w, k);
    }
  }

  /** Bit k of a range is bit lo + k of the value. */
  lemma BitOfExtract(x: nat, lo: nat, w: nat, k: nat)
    requires k < w
    ensures Bit(Extract(x, lo, w), k) == Bit(x, lo + k)
  {
    BitBelow(Shr(x, lo), w, k);
    BitAbove(x, lo, lo + k);
  }

  /** Reading a range back after writing it gives the written value, masked to the width. */
  lemma ExtractInsert(raw: nat, lo: nat, w: nat, v: nat)
    ensures Extract(Insert(raw, lo, w, v), lo, w) == v % Pow2(w)
  {
    ComposeParts(Shr(raw, lo + w), v % Pow2(w), raw % Pow2(lo), lo, w);
  }

  /** A range one bit wider adds the next bit on top. */
  lemma ExtractStep(x: nat, lo: nat, w: nat)
    ensures Extract(x, lo, w + 1) == Extract(x, lo, w) + Pow2(w) * (if Bit(x, lo + w) then 1 else 0)
  {
    var y := Shr(x, lo);
    ModSplit(y, w, 1);
    assert Pow2(1) == 2;
    ShrShr(x, lo, w);
  }

  /** A range's value is determined by the bits in the range. */
  lemma {:induction false} ExtractByBits(x: nat, y: nat, lo: nat, w: nat)
    requires forall k: nat :: lo <= k < lo + w ==> Bit(x, k) == Bit(y, k)
    ensures Extract(x, lo, w) == Extract(y, lo, w)
  {
    if w > 0 {
      ExtractByBits(x, y, lo, w - 1);
      ExtractStep(x, lo, w - 1);
      ExtractStep(y, lo, w - 1);
    }
  }

  /** A value below 2^W is its own range 0 .. W - 1. */
  lemma WholeRange(x: nat, w: nat)
    requires x < Pow2(w)
    ensures Extract(x, 0, w) == x
  {
    assert Pow2(0) == 1;
    assert Shr(x, 0) == x;
    DivModUnique(x, Pow2(w), 0, x);
  }

  /** Two values below 2^W with the same W low bits are equal. */
  lemma ValueByBits(x: nat, y: nat, w: nat)
    requires x < Pow2(w) && y < Pow2(w)
    requires forall k: nat :: k < w ==> Bit(x, k) == Bit(y, k)
    ensures x == y
  {
    ExtractByBits(x, y, 0, w);
    WholeRange(x, w);
    WholeRange(y, w);
  }

  /** Writing a range keeps every range that does not overlap it. */
  lemma ExtractInsertDisjoint(raw: nat, lo: nat, w: nat, v: nat, lo2: nat, w2: nat)
    requires Disjoint(lo, w, lo2, w2)
    ensures Extract(Insert(raw, lo, w, v), lo2, w2) == Extract(raw, lo2, w2)
  {
    forall k: nat | lo2 <= k < lo2 + w2
      ensures Bit(Insert(raw, lo, w, v), k) == Bit(raw, k)
    {
      BitOfInsert(raw, lo, w, v, k);
    }
    ExtractByBits(Insert(raw, lo, w, v), raw, lo2, w2);
  }

  /** Writing a range that lies inside the container keeps the value inside the container. */
  lemma InsertBound(raw: nat, lo: nat, w: nat, v: nat, total: nat)
    requires raw < Pow2(total) && lo + w <= total
    ensures Insert(raw, lo, w, v) < Pow2(total)
  {
    var P, Q, PQ, C := Pow2(lo), Pow2(w), Pow2(lo + w), Pow2(total - (lo + w));
    var h, f, l := Shr(raw, lo + w), v % Q, raw % P;
    assert C * PQ == Pow2(total) by {
      Pow2Add(lo + w, total - (lo + w));
      assert PQ * C == C * PQ;
    }
    assert h < C by {
      DivBound(raw, PQ, C);
    }
    assert f * P + l < PQ by {
      Pow2Add(lo, w);
      PlaceBound(f, P, l, Q);
      assert Q * P == P * Q;
    }
    assert Insert(raw, lo, w, v) == h * PQ + (f * P + l);
    PlaceBound(h, PQ, f * P + l, C);
  }

  /** Writing back the bits a range already holds changes nothing. */
  lemma InsertExtract(raw: nat, lo: nat, w: nat)
    ensures Insert(raw, lo, w, Extract(raw, lo, w)) == raw
  {
    var e := Extract(raw, lo, w);
    DivModUnique(e, Pow2(w), 0, e);
    Decompose(raw, lo, w);
  }

  /** The second write to a range replaces the first. */
  lemma InsertInsert(raw: nat, lo: nat, w: nat, v1: nat, v2: nat)
    ensures Insert(Insert(raw, lo, w, v1), lo, w, v2) == Insert(raw, lo, w, v2)
  {
    ComposeParts(Shr(raw, lo + w), v1 % Pow2(w), raw % Pow2(lo), lo, w);
  }

  /** Writes to two disjoint ranges may be done in either order. */
  lemma InsertCommute(raw: nat, lo1: nat, w1: nat, v1: nat, lo2: nat, w2: nat, v2: nat, total: nat)
    requires Disjoint(lo1, w1, lo2, w2)
    requires raw < Pow2(total) && lo1 + w1 <= total && lo2 + w2 <= total
    ensures Insert(Insert(raw, lo1, w1, v1), lo2, w2, v2) == Insert(Insert(raw, lo2, w2, v2), lo1, w1, v1)
  {
    var r1, r2 := Insert(raw, lo1, w1, v1), Insert(raw, lo2, w2, v2);
    var a, b := Insert(r1, lo2, w2, v2), Insert(r2, lo1, w1, v1);
    InsertBound(raw, lo1, w1, v1, total);
    InsertBound(r1, lo2, w2, v2, total);
    InsertBound(raw, lo2, w2, v2, total);
    InsertBound(r2, lo1, w1, v1, total);
    forall k: nat | k < total
      ensures Bit(a, k) == Bit(b, k)
    {
      BitOfInsert(raw, lo1, w1, v1, k);
      BitOfInsert(r1, lo2, w2, v2, k);
      BitOfInsert(raw, lo2, w2, v2, k);
      BitOfInsert(r2, lo1, w1, v1, k);
    }
    ValueByBits(a, b, total);
  }

  /** Writing into an all-zero value is shifting the masked value into place. */
  lemma InsertIntoZero(lo: nat, w: nat, v: nat)
    ensures Insert(0, lo, w, v) == Shl(v % Pow2(w), lo)
  {
    assert Shr(0, lo + w) == 0;
  }

  /** The mask of k bits has exactly its k low bits set and stays below 2^k, also for k == W. */
  lemma {:induction false} MaskBits(k: nat, j: nat)
    ensures Mask(k) < Pow2(k)
    ensures Bit(Mask(k), j) <==> j < k
  {
    if k == 0 {
      assert Shr(0, j) == 0;
    } else {
      var m := Mask(k);
      assert m == 2 * Mask(k - 1) + 1;
      DivModUnique(m, 2, Mask(k - 1), 1);
      assert Pow2(1) == 2;
      if j == 0 {
        assert Shr(m, 0) == m;
      } else {
        BitAbove(m, 1, j);
        MaskBits(k - 1, j - 1);
      }
    }
  }
}
