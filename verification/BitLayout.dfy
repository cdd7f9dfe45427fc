/** Bit-level field layout, Intel and Motorola (core/signal_codec.cpp and the mask and
    position builders of core/mutation_engine.cpp).

    A frame is eight bytes; bit `p` of a frame is bit `p % 8` of byte `p / 8`. A 64-bit raw
    value is a natural number and `RawBit(v, i)` is its bit `i`. */
module BitLayout {
  import opened Types

  // ---------------------------------------------------------------- raw values

  function Pow2(n: nat): (r: nat)
    ensures r >= 1
  {
    if n == 0 then 1 else 2 * Pow2(n - 1)
  }

  predicate RawBit(v: nat, i: nat) {
    if i == 0 then v % 2 == 1 else RawBit(v / 2, i - 1)
  }

  /** `v | (1 << i)` */
  function WithBit(v: nat, i: nat): nat {
    if i == 0 then (if v % 2 == 1 then v else v + 1)
    else 2 * WithBit(v / 2, i - 1) + v % 2
  }

  lemma {:induction false} WithBitBits(v: nat, i: nat, j: nat)
    ensures RawBit(WithBit(v, i), j) <==> i == j || RawBit(v, j)
  {
    if i > 0 && j > 0 {
      assert (2 * WithBit(v / 2, i - 1) + v % 2) / 2 == WithBit(v / 2, i - 1);
      WithBitBits(v / 2, i - 1, j - 1);
    }
  }

  lemma WithBitStep(v: nat, i: nat)
    requires i > 0
    ensures WithBit(v, i) == 2 * WithBit(v / 2, i - 1) + v % 2
  {}

  lemma {:induction false} WithBitBound(v: nat, i: nat, n: nat)
    requires i < n && v < Pow2(n)
    ensures WithBit(v, i) < Pow2(n)
  {
    var half, p := v / 2, Pow2(n - 1);
    assert v == 2 * half + v % 2 && Pow2(n) == 2 * p;
    assert half < p;
    if i > 0 {
      WithBitBound(half, i - 1, n - 1);
      hide WithBit;
      assert WithBit(v, i) == 2 * WithBit(half, i - 1) + v % 2 by { WithBitStep(v, i); }
    }
  }

  lemma {:induction false} ZeroBits(i: nat)
    ensures !RawBit(0, i)
  {
    if i > 0 { ZeroBits(i - 1); }
  }

  lemma {:induction false} HighBitsClear(v: nat, n: nat, i: nat)
    requires v < Pow2(n) && n <= i
    ensures !RawBit(v, i)
  {
    if n == 0 { ZeroBits(i); } else { HighBitsClear(v / 2, n - 1, i - 1); }
  }

  /** Two values below 2^n with the same n bits are equal. */
  lemma {:induction false} RawExtensional(v: nat, w: nat, n: nat)
    requires v < Pow2(n) && w < Pow2(n)
    requires forall i: nat :: i < n ==> RawBit(v, i) == RawBit(w, i)
    ensures v == w
  {
    if n > 0 {
      assert RawBit(v, 0) == RawBit(w, 0);
      forall i: nat | i < n - 1 ensures RawBit(v / 2, i) == RawBit(w / 2, i) {
        assert RawBit(v, i + 1) == RawBit(w, i + 1);
      }
      RawExtensional(v / 2, w / 2, n - 1);
    }
  }

  lemma {:induction false} Pow2Monotone(m: nat, n: nat)
    requires m <= n
    ensures Pow2(m) <= Pow2(n)
  {
    if m < n { Pow2Monotone(m, n - 1); }
  }

  // ---------------------------------------------------------------- bytes and frame bits

  /** `1U << k` for a byte */
  function BitMask(k: nat): bv8
    requires k < 8
  {
    if k == 0 then 1 else BitMask(k - 1) << 1
  }

  /** `(b >> k) & 1` */
  predicate TestBit(b: bv8, k: nat) {
    if k == 0 then b & 1 == 1 else TestBit(b >> 1, k - 1)
  }

  lemma {:induction false} OrBit(a: bv8, b: bv8, k: nat)
    ensures TestBit(a | b, k) <==> TestBit(a, k) || TestBit(b, k)
  {
    if k > 0 {
      assert (a | b) >> 1 == (a >> 1) | (b >> 1);
      OrBit(a >> 1, b >> 1, k - 1);
    }
  }

  lemma {:induction false} AndBit(a: bv8, b: bv8, k: nat)
    ensures TestBit(a & b, k) <==> TestBit(a, k) && TestBit(b, k)
  {
    AndSteps(a, b);
    if k > 0 { AndBit(a >> 1, b >> 1, k - 1); }
  }

  lemma AndSteps(a: bv8, b: bv8)
    ensures (a & b) & 1 == 1 <==> a & 1 == 1 && b & 1 == 1
    ensures (a & b) >> 1 == (a >> 1) & (b >> 1)
  {}

  /** A byte whose bits all lie in a mask is unchanged by the mask. */
  lemma SubsetByte(v: bv8, m: bv8)
    requires forall k :: 0 <= k < 8 && TestBit(v, k) ==> TestBit(m, k)
    ensures v & m == v
  {
    forall k | 0 <= k < 8 ensures TestBit(v & m, k) == TestBit(v, k) { AndBit(v, m, k); }
    ByteExtensional(v & m, v);
  }

  lemma {:induction false} AndNotBit(a: bv8, b: bv8, k: nat)
    requires k < 8
    ensures TestBit(a & !b, k) <==> TestBit(a, k) && !TestBit(b, k)
  {
    if k > 0 {
      assert (a & !b) >> 1 == (a >> 1) & !(b >> 1);
      AndNotBit(a >> 1, b >> 1, k - 1);
    }
  }

  lemma {:induction false} MaskBit(j: nat, k: nat)
    requires j < 8
    ensures j < 7 ==> BitMask(j) < 128
    ensures TestBit(BitMask(j), k) <==> j == k
  {
    if j == 0 {
      if k > 0 { NoBits(k - 1); }
    } else {
      MaskBit(j - 1, if k > 0 then k - 1 else 0);
      assert (BitMask(j - 1) << 1) >> 1 == BitMask(j - 1);
      if j < 7 { MaskBound(j); }
    }
  }

  lemma MaskBound(j: nat)
    requires j < 7
    ensures BitMask(j) < 128
  {
    assert BitMask(0) == 1 && BitMask(1) == 2 && BitMask(2) == 4 && BitMask(3) == 8;
    assert BitMask(4) == 16 && BitMask(5) == 32 && BitMask(6) == 64;
  }

  lemma {:induction false} NoBits(k: nat)
    ensures !TestBit(0, k)
  {
    if k > 0 { NoBits(k - 1); }
  }

  /** The eight bits of a byte, as masks. */
  lemma BitsOf(b: bv8)
    ensures TestBit(b, 0) <==> b & 1 != 0
    ensures TestBit(b, 1) <==> b & 2 != 0
    ensures TestBit(b, 2) <==> b & 4 != 0
    ensures TestBit(b, 3) <==> b & 8 != 0
    ensures TestBit(b, 4) <==> b & 16 != 0
    ensures TestBit(b, 5) <==> b & 32 != 0
    ensures TestBit(b, 6) <==> b & 64 != 0
    ensures TestBit(b, 7) <==> b & 128 != 0
  {
    BitIsMask(b, 0); BitIsMask(b, 1); BitIsMask(b, 2); BitIsMask(b, 3);
    BitIsMask(b, 4); BitIsMask(b, 5); BitIsMask(b, 6); BitIsMask(b, 7);
    assert BitMask(0) == 1 && BitMask(1) == 2 && BitMask(2) == 4 && BitMask(3) == 8;
    assert BitMask(4) == 16 && BitMask(5) == 32 && BitMask(6) == 64 && BitMask(7) == 128;
  }

  lemma {:induction false} BitIsMask(b: bv8, k: nat)
    requires k < 8
    ensures TestBit(b, k) <==> b & BitMask(k) != 0
  {
    if k > 0 {
      BitIsMask(b >> 1, k - 1);
      MaskBound(k - 1);
      var m := BitMask(k - 1);
      assert (b >> 1) & m != 0 <==> b & (m << 1) != 0;
    }
  }

  lemma ByteExtensional(a: bv8, b: bv8)
    requires forall k :: 0 <= k < 8 ==> TestBit(a, k) == TestBit(b, k)
    ensures a == b
  {
    BitsOf(a);
    BitsOf(b);
    assert TestBit(a, 0) == TestBit(b, 0) && TestBit(a, 1) == TestBit(b, 1);
    assert TestBit(a, 2) == TestBit(b, 2) && TestBit(a, 3) == TestBit(b, 3);
    assert TestBit(a, 4) == TestBit(b, 4) && TestBit(a, 5) == TestBit(b, 5);
    assert TestBit(a, 6) == TestBit(b, 6) && TestBit(a, 7) == TestBit(b, 7);
  }

  predicate FrameBit(data: seq<bv8>, p: nat)
    requires |data| == 8 && p < 64
  {
    TestBit(data[p / 8], p % 8)
  }

  lemma FrameExtensional(a: seq<bv8>, b: seq<bv8>)
    requires |a| == 8 && |b| == 8
    requires forall p :: 0 <= p < 64 ==> FrameBit(a, p) == FrameBit(b, p)
    ensures a == b
  {
    forall i | 0 <= i < 8 ensures a[i] == b[i] {
      forall k | 0 <= k < 8 ensures TestBit(a[i], k) == TestBit(b[i], k) {
        assert FrameBit(a, 8 * i + k) == FrameBit(b, 8 * i + k);
      }
      ByteExtensional(a[i], b[i]);
    }
  }

  // ---------------------------------------------------------------- fields

  datatype Field = Field(start: nat, length: nat, littleEndian: bool)

  /** The next bit towards the least significant end of a Motorola field. */
  function NextMotorolaBit(p: nat): nat {
    if p % 8 == 0 then p + 15 else p - 1
  }

  /** Reading order of a Motorola frame: byte 0 first, most significant bit first. */
  function MsbOrder(p: nat): nat {
    8 * (p / 8) + (7 - p % 8)
  }

  lemma MsbOrderInvolution(p: nat)
    ensures MsbOrder(MsbOrder(p)) == p
    ensures p < 64 <==> MsbOrder(p) < 64
  {}

  /** Motorola stepping is exactly +1 in most-significant-bit-first order. */
  lemma MotorolaStep(p: nat)
    ensures MsbOrder(NextMotorolaBit(p)) == MsbOrder(p) + 1
  {
    if p % 8 == 0 {
      assert (p + 15) / 8 == p / 8 + 1 && (p + 15) % 8 == 7;
    } else {
      assert (p - 1) / 8 == p / 8 && (p - 1) % 8 == p % 8 - 1;
    }
  }

  function MotorolaWalk(start: nat, n: nat): nat {
    if n == 0 then start else NextMotorolaBit(MotorolaWalk(start, n - 1))
  }

  lemma {:induction false} WalkOrder(start: nat, n: nat)
    ensures MsbOrder(MotorolaWalk(start, n)) == MsbOrder(start) + n
    ensures MotorolaWalk(start, n) == MsbOrder(MsbOrder(start) + n)
  {
    if n > 0 {
      WalkOrder(start, n - 1);
      MotorolaStep(MotorolaWalk(start, n - 1));
    }
    MsbOrderInvolution(MotorolaWalk(start, n));
  }

  /** The raw bit that frame bit `p` carries; outside 0..length-1 when `p` is not in the field. */
  function RawIndex(f: Field, p: nat): int {
    if f.littleEndian then p - f.start
    else f.length - 1 - (MsbOrder(p) - MsbOrder(f.start))
  }

  predicate InField(f: Field, p: nat) {
    0 <= RawIndex(f, p) < f.length
  }

  /** The frame bit that carries raw bit `i`. */
  function Position(f: Field, i: nat): nat
    requires i < f.length
  {
    if f.littleEndian then f.start + i else MotorolaWalk(f.start, f.length - 1 - i)
  }

  /** The field lies inside an eight-byte frame. */
  predicate Fits(f: Field) {
    && 1 <= f.length <= 64 && f.start <= 63
    && (if f.littleEndian then f.start else MsbOrder(f.start)) + f.length <= 64
  }

  /** Positions and raw indices are inverse bijections between raw bits and field bits. */
  lemma PositionIndex(f: Field, i: nat)
    requires i < f.length
    ensures RawIndex(f, Position(f, i)) == i
    ensures Fits(f) ==> Position(f, i) < 64
  {
    if !f.littleEndian {
      WalkOrder(f.start, f.length - 1 - i);
      MsbOrderInvolution(Position(f, i));
    }
  }

  lemma IndexPosition(f: Field, p: nat)
    requires InField(f, p)
    ensures Position(f, RawIndex(f, p)) == p
  {
    if !f.littleEndian {
      WalkOrder(f.start, f.length - 1 - RawIndex(f, p));
      MsbOrderInvolution(p);
    }
  }

  /** `after` is `before` with the field holding the low bits of `raw` and every other bit kept. */
  ghost predicate IsWritten(before: seq<bv8>, after: seq<bv8>, f: Field, raw: nat)
    requires |before| == 8 && |after| == 8
  {
    forall p :: 0 <= p < 64 ==>
      FrameBit(after, p) == if InField(f, p) then RawBit(raw, RawIndex(f, p)) else FrameBit(before, p)
  }

  /** `raw` is the value the field holds. */
  ghost predicate IsRead(data: seq<bv8>, f: Field, raw: nat)
    requires |data| == 8 && Fits(f)
  {
    && raw < Pow2(f.length)
    && forall i: nat :: i < f.length ==>
         Position(f, i) < 64 && RawBit(raw, i) == FrameBit(data, Position(f, i))
  }

  /** Any two correct writers produce the same frame, whatever path they took. */
  lemma WritersAgree(before: seq<bv8>, a: seq<bv8>, b: seq<bv8>, f: Field, raw: nat)
    requires |before| == 8 && |a| == 8 && |b| == 8
    requires IsWritten(before, a, f, raw) && IsWritten(before, b, f, raw)
    ensures a == b
  {
    FrameExtensional(a, b);
  }

  /** Reading back a written field gives the value that was written, and only that value. */
  lemma ReadBack(before: seq<bv8>, after: seq<bv8>, f: Field, raw: nat, got: nat)
    requires |before| == 8 && |after| == 8 && Fits(f) && raw < Pow2(f.length)
    requires IsWritten(before, after, f, raw)
    ensures IsRead(after, f, got) <==> got == raw
  {
    forall i: nat | i < f.length
      ensures Position(f, i) < 64 && FrameBit(after, Position(f, i)) == RawBit(raw, i)
    {
      PositionIndex(f, i);
    }
    assert IsRead(after, f, raw);
    if IsRead(after, f, got) {
      RawExtensional(got, raw, f.length);
    }
  }

  /** Writing back what was read changes nothing. */
  lemma WriteBack(data: seq<bv8>, after: seq<bv8>, f: Field, raw: nat)
    requires |data| == 8 && |after| == 8 && Fits(f)
    requires IsRead(data, f, raw) && IsWritten(data, after, f, raw)
    ensures after == data
  {
    forall p | 0 <= p < 64 ensures FrameBit(after, p) == FrameBit(data, p) {
      if InField(f, p) { IndexPosition(f, p); }
    }
    FrameExtensional(after, data);
  }

  // ---------------------------------------------------------------- frames described bit by bit

  /** Byte `i` of the frame whose bit `p` is `g(p)`. */
  function ByteWhere(g: nat -> bool, i: nat): bv8 {
    (if g(8 * i) then 1 else 0) | (if g(8 * i + 1) then 2 else 0) |
    (if g(8 * i + 2) then 4 else 0) | (if g(8 * i + 3) then 8 else 0) |
    (if g(8 * i + 4) then 16 else 0) | (if g(8 * i + 5) then 32 else 0) |
    (if g(8 * i + 6) then 64 else 0) | (if g(8 * i + 7) then 128 else 0)
  }

  function FrameWhere(g: nat -> bool): (r: seq<bv8>)
    ensures |r| == 8
  {
    seq(8, i requires i >= 0 => ByteWhere(g, i))
  }

  lemma ByteWhereBit(g: nat -> bool, i: nat, k: nat)
    requires k < 8
    ensures TestBit(ByteWhere(g, i), k) <==> g(8 * i + k)
  {
    BitsOf(ByteWhere(g, i));
  }

  lemma FrameWhereBit(g: nat -> bool, p: nat)
    requires p < 64
    ensures FrameBit(FrameWhere(g), p) <==> g(p)
  {
    ByteWhereBit(g, p / 8, p % 8);
    assert 8 * (p / 8) + p % 8 == p;
  }

  /** The bytes with exactly the field's bits set. */
  function FieldMask(f: Field): (r: seq<bv8>)
    ensures |r| == 8
  {
    FrameWhere((p: nat) => InField(f, p))
  }

  lemma FieldMaskBit(f: Field, p: nat)
    requires p < 64
    ensures FrameBit(FieldMask(f), p) <==> InField(f, p)
  {
    FrameWhereBit((q: nat) => InField(f, q), p);
  }

  /** The bytes holding `raw` in the field and zero elsewhere. */
  function FieldValue(f: Field, raw: nat): (r: seq<bv8>)
    ensures |r| == 8
  {
    FrameWhere((p: nat) => InField(f, p) && RawBit(raw, RawIndex(f, p)))
  }

  lemma FieldValueBit(f: Field, raw: nat, p: nat)
    requires p < 64
    ensures FrameBit(FieldValue(f, raw), p) <==> InField(f, p) && RawBit(raw, RawIndex(f, p))
  {
    FrameWhereBit((q: nat) => InField(f, q) && RawBit(raw, RawIndex(f, q)), p);
  }

  /** `data` with `raw` stored in the field. */
  function PutField(data: seq<bv8>, f: Field, raw: nat): (r: seq<bv8>)
    requires |data| == 8
    ensures |r| == 8 && IsWritten(data, r, f, raw)
  {
    var g := (p: nat) => if InField(f, p) then RawBit(raw, RawIndex(f, p)) else p < 64 && FrameBit(data, p);
    assert forall p :: 0 <= p < 64 ==> FrameBit(FrameWhere(g), p) == g(p) by {
      forall p | 0 <= p < 64 ensures FrameBit(FrameWhere(g), p) == g(p) { FrameWhereBit(g, p); }
    }
    FrameWhere(g)
  }
}
