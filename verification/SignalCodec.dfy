/** The bit loops that read and write fields: `extractRaw`, `insertRaw` and
    `signalFitsPayload` of core/signal_codec.cpp, and the mask, position, static and
    dynamic writers of core/mutation_engine.cpp. */
module SignalCodec {
  import opened Types
  import opened BitLayout
  import opened Modulo

  // ---------------------------------------------------------------- single bits

  lemma SetByteBit(d: bv8, j: nat, k: nat)
    requires j < 8 && k < 8
    ensures TestBit(d | BitMask(j), k) <==> j == k || TestBit(d, k)
  {
    OrBit(d, BitMask(j), k);
    MaskBit(j, k);
  }

  lemma ClearByteBit(d: bv8, j: nat, k: nat)
    requires j < 8 && k < 8
    ensures TestBit(d & !BitMask(j), k) <==> j != k && TestBit(d, k)
  {
    AndNotBit(d, BitMask(j), k);
    MaskBit(j, k);
  }

  lemma ByteUpdateBits(data: seq<bv8>, b: nat, on: bool, p: nat)
    requires |data| == 8 && b < 64 && p < 64
    ensures FrameBit(data[b / 8 := WithByteBit(data[b / 8], b % 8, on)], p) <==>
      if p == b then on else FrameBit(data, p)
  {
    hide TestBit, WithByteBit;
    if p / 8 == b / 8 {
      SameByte(p, b);
      UpdatedByte(data[b / 8], b % 8, on, p % 8);
    }
  }

  lemma UpdatedByte(d: bv8, j: nat, on: bool, k: nat)
    requires j < 8 && k < 8
    ensures TestBit(WithByteBit(d, j, on), k) <==> if j == k then on else TestBit(d, k)
  {
    hide TestBit, BitMask;
    if on { SetByteBit(d, j, k); } else { ClearByteBit(d, j, k); }
  }

  lemma SameByte(p: nat, b: nat)
    requires p / 8 == b / 8
    ensures p == b <==> p % 8 == b % 8
  {
  }

  /** Bit 64 and above are ignored, as the guard in the source does. */
  method WriteFrameBit(data: array<bv8>, b: nat, on: bool)
    requires data.Length == 8
    modifies data
    ensures b >= 64 ==> data[..] == old(data[..])
    ensures forall p :: 0 <= p < 64 ==>
      (FrameBit(data[..], p) <==> if p == b then on else FrameBit(old(data[..]), p))
  {
    hide FrameBit, WithByteBit;
    if b >= 64 { return; }
    ghost var was := data[..];
    data[b / 8] := WithByteBit(data[b / 8], b % 8, on);
    assert data[..] == was[b / 8 := WithByteBit(was[b / 8], b % 8, on)];
    forall p | 0 <= p < 64
      ensures FrameBit(data[..], p) <==> if p == b then on else FrameBit(was, p)
    {
      ByteUpdateBits(was, b, on, p);
    }
  }

  /** `d | mask` or `d & ~mask` */
  function WithByteBit(d: bv8, j: nat, on: bool): bv8
    requires j < 8
  {
    if on then d | BitMask(j) else d & !BitMask(j)
  }

  method ClearBytes(data: array<bv8>)
    requires data.Length == 8
    modifies data
    ensures forall p :: 0 <= p < 64 ==> !FrameBit(data[..], p)
  {
    forall i | 0 <= i < 8 { data[i] := 0; }
    forall p | 0 <= p < 64 ensures !FrameBit(data[..], p) { NoBits(p % 8); }
  }

  // ---------------------------------------------------------------- the walk of the bit loops

  /** The frame bit and the raw bit of the i-th iteration: Intel fields are walked from the least
      significant bit up, Motorola fields from the most significant bit down. */
  function FrameBitAt(f: Field, i: nat): nat {
    if f.littleEndian then f.start + i else MotorolaWalk(f.start, i)
  }

  function RawBitAt(f: Field, i: nat): (j: nat)
    requires i < f.length
    ensures j < f.length
  {
    if f.littleEndian then i else f.length - 1 - i
  }

  /** Raw bit `j` was visited before iteration `i`. */
  predicate Visited(f: Field, j: int, i: nat) {
    0 <= j < f.length && (if f.littleEndian then j < i else j >= f.length - i)
  }

  /** The bits walked so far lie in the frame. */
  predicate InFrame(f: Field, i: nat) {
    i > 0 ==> (if f.littleEndian then f.start else MsbOrder(f.start)) + i <= 64
  }

  lemma WalkStarts(f: Field)
    ensures FrameBitAt(f, 0) == f.start && InFrame(f, 0) && forall j: int :: !Visited(f, j, 0)
  {
  }

  /** One iteration. */
  lemma WalkStep(f: Field, i: nat)
    requires i < f.length && InFrame(f, i)
    ensures Position(f, RawBitAt(f, i)) == FrameBitAt(f, i)
    ensures FrameBitAt(f, i + 1) ==
      if f.littleEndian then FrameBitAt(f, i) + 1 else NextMotorolaBit(FrameBitAt(f, i))
    ensures FrameBitAt(f, i) < 64 ==> InFrame(f, i + 1)
    ensures FrameBitAt(f, i) >= 64 ==> !Fits(f)
    ensures forall j: int :: Visited(f, j, i + 1) <==> Visited(f, j, i) || j == RawBitAt(f, i)
    ensures !Visited(f, RawBitAt(f, i), i)
  {
    WalkOrder(f.start, i);
    MsbOrderInvolution(FrameBitAt(f, i));
    VisitedStep(f, i);
  }

  lemma VisitedStep(f: Field, i: nat)
    requires i < f.length
    ensures forall j: int :: Visited(f, j, i + 1) <==> Visited(f, j, i) || j == RawBitAt(f, i)
    ensures !Visited(f, RawBitAt(f, i), i)
  {
  }

  /** The end of the walk. */
  lemma WalkEnds(f: Field)
    requires 1 <= f.length <= 64 && InFrame(f, f.length)
    ensures Fits(f) && forall j: int :: 0 <= j < f.length ==> Visited(f, j, f.length)
  {
  }

  /** The field's bit of a raw bit, and of no other. */
  lemma OnlyBitAt(f: Field, i: nat, p: nat)
    requires i < f.length
    ensures InField(f, p) && RawIndex(f, p) == i <==> p == Position(f, i)
  {
    PositionIndex(f, i);
    if InField(f, p) && RawIndex(f, p) == i { IndexPosition(f, p); }
  }

  // ---------------------------------------------------------------- signal_codec.cpp

  /** The field's bits, counted from the frame start, all lie below `8 * dlc`. */
  ghost predicate InsidePayload(f: Field, dlc: nat) {
    forall p: nat :: InField(f, p) ==> p < 8 * dlc
  }

  method SignalFitsPayload(dlc: nat, f: Field) returns (ok: bool)
    ensures ok <==> dlc <= 8 && 1 <= f.length <= 64 && InsidePayload(f, dlc)
    ensures ok ==> Fits(f)
  {
    hide Position, RawBitAt, InFrame, Visited, FrameBitAt, RawIndex;
    if dlc > 8 || f.length == 0 || f.length > 64 { return false; }
    var payloadBits := dlc * 8;
    if f.littleEndian {
      IntelInside(f, dlc);
      return f.start < payloadBits && f.start + f.length <= payloadBits;
    }
    var bit, i := f.start, 0;
    WalkStarts(f);
    while i < f.length
      invariant i <= f.length && bit == FrameBitAt(f, i) && InFrame(f, i)
      invariant forall p: nat :: InField(f, p) && Visited(f, RawIndex(f, p), i) ==> p < payloadBits
    {
      WalkStep(f, i);
      forall p: nat ensures InField(f, p) && RawIndex(f, p) == RawBitAt(f, i) <==> p == bit {
        OnlyBitAt(f, RawBitAt(f, i), p);
      }
      assert InField(f, bit);
      if bit >= payloadBits { return false; }
      bit := NextMotorolaBit(bit);
      i := i + 1;
    }
    WalkEnds(f);
    return true;
  }

  lemma IntelInside(f: Field, dlc: nat)
    requires dlc <= 8 && 1 <= f.length <= 64 && f.littleEndian
    ensures InsidePayload(f, dlc) <==> f.start < 8 * dlc && f.start + f.length <= 8 * dlc
    ensures InsidePayload(f, dlc) ==> Fits(f)
  {
    assert InField(f, f.start + f.length - 1);
  }

  method ExtractRaw(data: seq<bv8>, f: Field) returns (ok: bool, raw: nat)
    requires |data| == 8
    ensures ok <==> Fits(f)
    ensures ok ==> IsRead(data, f, raw)
  {
    hide Position, InFrame, Visited, FrameBitAt, FrameBit, WithBit, RawBit, Pow2;
    raw := 0;
    if f.length == 0 || f.length > 64 { return false, 0; }
    forall j: nat ensures !RawBit(raw, j) { ZeroBits(j); }
    var i, bit := 0, f.start;
    WalkStarts(f);
    while i < f.length
      invariant i <= f.length && raw < Pow2(f.length) && bit == FrameBitAt(f, i) && InFrame(f, i)
      invariant forall j: nat :: j < f.length ==>
        if Visited(f, j, i) then Position(f, j) < 64 && RawBit(raw, j) == FrameBit(data, Position(f, j))
        else !RawBit(raw, j)
    {
      WalkStep(f, i);
      if bit >= 64 { return false, 0; }
      ghost var rawBit := RawBitAt(f, i);
      if FrameBit(data, bit) {
        WithBitBound(raw, rawBit, f.length);
        forall j: nat { WithBitBits(raw, rawBit, j); }
        raw := WithBit(raw, if f.littleEndian then i else f.length - 1 - i);
      }
      bit := if f.littleEndian then bit + 1 else NextMotorolaBit(bit);
      i := i + 1;
    }
    WalkEnds(f);
    return true, raw;
  }

  /** A refused insert may have written the leading part of the field, never a bit outside it. */
  method InsertRaw(data: array<bv8>, f: Field, raw: nat) returns (ok: bool)
    requires data.Length == 8
    modifies data
    ensures ok <==> Fits(f)
    ensures ok ==> IsWritten(old(data[..]), data[..], f, raw)
    ensures forall p :: 0 <= p < 64 && !InField(f, p) ==>
      FrameBit(data[..], p) == FrameBit(old(data[..]), p)
  {
    hide Position, InFrame, Visited, FrameBitAt, FrameBit, RawBit, RawIndex;
    if f.length == 0 || f.length > 64 { return false; }
    var i, bit := 0, f.start;
    ghost var was := data[..];
    WalkStarts(f);
    while i < f.length
      invariant i <= f.length && bit == FrameBitAt(f, i) && InFrame(f, i)
      invariant forall p :: 0 <= p < 64 ==>
        (FrameBit(data[..], p) <==>
          if InField(f, p) && Visited(f, RawIndex(f, p), i) then RawBit(raw, RawIndex(f, p)) else FrameBit(was, p))
    {
      WalkStep(f, i);
      if bit >= 64 { return false; }
      var rawBit := if f.littleEndian then i else f.length - 1 - i;
      forall p | 0 <= p < 64 ensures InField(f, p) && RawIndex(f, p) == rawBit <==> p == bit {
        OnlyBitAt(f, rawBit, p);
      }
      WriteFrameBit(data, bit, RawBit(raw, rawBit));
      bit := if f.littleEndian then bit + 1 else NextMotorolaBit(bit);
      i := i + 1;
    }
    WalkEnds(f);
    return true;
  }

  // ---------------------------------------------------------------- mutation_engine.cpp

  method BuildBitMaskAndValue(f: Field, raw: nat, mask: array<bv8>, value: array<bv8>)
    returns (ok: bool)
    requires mask.Length == 8 && value.Length == 8 && mask != value
    modifies mask, value
    ensures ok <==> Fits(f)
    ensures ok ==> mask[..] == FieldMask(f) && value[..] == FieldValue(f, raw)
  {
    hide RawBit, FieldMask, FieldValue, Position, InFrame, Visited, FrameBitAt, FrameBit, RawIndex;
    ClearBytes(mask);
    ClearBytes(value);
    if f.length < 1 || f.length > 64 || f.start > 63 { return false; }
    var i, bit := 0, f.start;
    WalkStarts(f);
    while i < f.length
      invariant i <= f.length && bit == FrameBitAt(f, i) && InFrame(f, i)
      invariant MaskSoFar(mask[..], f, i) && ValueSoFar(mask[..], value[..], f, raw)
    {
      WalkStep(f, i);
      if bit > 63 { return false; }
      var rawBit := if f.littleEndian then i else f.length - 1 - i;
      ghost var m, v := mask[..], value[..];
      WriteFrameBit(mask, bit, true);
      if RawBit(raw, rawBit) {
        WriteFrameBit(value, bit, true);
      }
      MaskStep(m, mask[..], v, value[..], f, raw, i);
      bit := if f.littleEndian then bit + 1 else NextMotorolaBit(bit);
      i := i + 1;
    }
    WalkEnds(f);
    MasksDone(mask[..], value[..], f, raw);
    return true;
  }

  /** The mask has the bits visited so far, and the value those of them that are set in `raw`. */
  ghost predicate MaskSoFar(mask: seq<bv8>, f: Field, i: nat)
    requires |mask| == 8
  {
    forall p :: 0 <= p < 64 ==> (FrameBit(mask, p) <==> InField(f, p) && Visited(f, RawIndex(f, p), i))
  }

  ghost predicate ValueSoFar(mask: seq<bv8>, value: seq<bv8>, f: Field, raw: nat)
    requires |mask| == 8 && |value| == 8
  {
    forall p :: 0 <= p < 64 ==>
      (FrameBit(value, p) <==> FrameBit(mask, p) && InField(f, p) && RawBit(raw, RawIndex(f, p)))
  }

  lemma MaskStep(m: seq<bv8>, mask: seq<bv8>, v: seq<bv8>, value: seq<bv8>, f: Field, raw: nat, i: nat)
    requires |m| == 8 && |mask| == 8 && |v| == 8 && |value| == 8 && i < f.length && FrameBitAt(f, i) < 64
    requires InFrame(f, i) && MaskSoFar(m, f, i) && ValueSoFar(m, v, f, raw)
    requires forall p :: 0 <= p < 64 ==> (FrameBit(mask, p) <==> p == FrameBitAt(f, i) || FrameBit(m, p))
    requires forall p :: 0 <= p < 64 ==>
      (FrameBit(value, p) <==> (p == FrameBitAt(f, i) && RawBit(raw, RawBitAt(f, i))) || FrameBit(v, p))
    ensures MaskSoFar(mask, f, i + 1) && ValueSoFar(mask, value, f, raw)
  {
    hide RawBit, Position, InFrame, Visited, FrameBitAt, FrameBit, RawIndex, RawBitAt;
    WalkStep(f, i);
    forall p | 0 <= p < 64 ensures InField(f, p) && RawIndex(f, p) == RawBitAt(f, i) <==> p == FrameBitAt(f, i) {
      OnlyBitAt(f, RawBitAt(f, i), p);
    }
  }

  lemma MasksDone(mask: seq<bv8>, value: seq<bv8>, f: Field, raw: nat)
    requires |mask| == 8 && |value| == 8 && MaskSoFar(mask, f, f.length) && ValueSoFar(mask, value, f, raw)
    requires forall j: int :: 0 <= j < f.length ==> Visited(f, j, f.length)
    ensures mask == FieldMask(f) && value == FieldValue(f, raw)
  {
    hide FrameBit, FieldMask, FieldValue, RawIndex, Visited;
    forall p | 0 <= p < 64
      ensures FrameBit(mask, p) == FrameBit(FieldMask(f), p)
      ensures FrameBit(value, p) == FrameBit(FieldValue(f, raw), p)
    {
      FieldMaskBit(f, p);
      FieldValueBit(f, raw, p);
    }
    FrameExtensional(mask, FieldMask(f));
    FrameExtensional(value, FieldValue(f, raw));
  }

  /** The frame bit of every raw bit, least significant first. */
  function Positions(f: Field): (r: seq<nat>)
    ensures |r| == f.length
  {
    seq(f.length, i requires 0 <= i < f.length => Position(f, i))
  }

  method BuildDynamicBitPositions(f: Field, positions: array<nat>) returns (ok: bool)
    requires positions.Length == 32
    modifies positions
    ensures ok <==> Fits(f) && f.length <= 32
    ensures ok ==> positions[..f.length] == Positions(f)
  {
    hide Position, InFrame, Visited, FrameBitAt;
    if f.length < 1 || f.length > 32 || f.start > 63 { return false; }
    var i, bit := 0, f.start;
    WalkStarts(f);
    while i < f.length
      invariant i <= f.length && bit == FrameBitAt(f, i) && InFrame(f, i)
      invariant forall j :: 0 <= j < f.length && Visited(f, j, i) ==> positions[j] == Position(f, j)
    {
      WalkStep(f, i);
      if bit > 63 { return false; }
      positions[if f.littleEndian then i else f.length - 1 - i] := bit;
      bit := if f.littleEndian then bit + 1 else NextMotorolaBit(bit);
      i := i + 1;
    }
    WalkEnds(f);
    return true;
  }

  /** `(data & clear) | set`, byte by byte */
  function Masked(data: seq<bv8>, clear: seq<bv8>, set_: seq<bv8>): (r: seq<bv8>)
    requires |data| == 8 && |clear| == 8 && |set_| == 8
    ensures |r| == 8
  {
    seq(8, i requires 0 <= i < 8 => (data[i] & clear[i]) | set_[i])
  }

  function Complement(mask: seq<bv8>): (r: seq<bv8>)
    requires |mask| == 8
    ensures |r| == 8
  {
    seq(8, i requires 0 <= i < 8 => !mask[i])
  }

  lemma MaskedBit(data: seq<bv8>, mask: seq<bv8>, set_: seq<bv8>, p: nat)
    requires |data| == 8 && |mask| == 8 && |set_| == 8 && p < 64
    ensures FrameBit(Masked(data, Complement(mask), set_), p) <==>
      (FrameBit(data, p) && !FrameBit(mask, p)) || FrameBit(set_, p)
  {
    hide TestBit, Masked, Complement;
    MaskedByte(data, mask, set_, p / 8);
    MaskedByteBit(data[p / 8], mask[p / 8], set_[p / 8], p % 8);
  }

  lemma MaskedByte(data: seq<bv8>, mask: seq<bv8>, set_: seq<bv8>, i: nat)
    requires |data| == 8 && |mask| == 8 && |set_| == 8 && i < 8
    ensures Masked(data, Complement(mask), set_)[i] == (data[i] & !mask[i]) | set_[i]
  {
  }

  lemma MaskedByteBit(d: bv8, m: bv8, s: bv8, k: nat)
    requires k < 8
    ensures TestBit((d & !m) | s, k) <==> (TestBit(d, k) && !TestBit(m, k)) || TestBit(s, k)
  {
    hide TestBit;
    AndNotBit(d, m, k);
    OrBit(d & !m, s, k);
  }

  /** The static path: the masks compiled for a field write exactly that field. */
  lemma StaticPathWrites(data: seq<bv8>, f: Field, raw: nat)
    requires |data| == 8
    ensures IsWritten(data, Masked(data, Complement(FieldMask(f)), FieldValue(f, raw)), f, raw)
  {
    var clear, value := Complement(FieldMask(f)), FieldValue(f, raw);
    forall p | 0 <= p < 64
      ensures FrameBit(Masked(data, clear, value), p) ==
        if InField(f, p) then RawBit(raw, RawIndex(f, p)) else FrameBit(data, p)
    {
      MaskedBit(data, FieldMask(f), value, p);
      FieldMaskBit(f, p);
      FieldValueBit(f, raw, p);
    }
  }

  method ApplyMask(data: array<bv8>, clear: seq<bv8>, set_: seq<bv8>)
    requires data.Length == 8 && |clear| == 8 && |set_| == 8
    modifies data
    ensures data[..] == Masked(old(data[..]), clear, set_)
  {
    var i := 0;
    while i < 8
      invariant 0 <= i <= 8
      invariant forall j :: 0 <= j < i ==> data[j] == (old(data[j]) & clear[j]) | set_[j]
      invariant forall j :: i <= j < 8 ==> data[j] == old(data[j])
    {
      data[i] := (data[i] & clear[i]) | set_[i];
      i := i + 1;
    }
  }

  function Saturated(value: nat, length: nat): (r: nat)
    ensures r < Pow2(length)
  {
    if value > Pow2(length) - 1 then Pow2(length) - 1 else value
  }

  lemma ClearedFrame(was: seq<bv8>, now: seq<bv8>, mask: seq<bv8>)
    requires |was| == 8 && |now| == 8 && |mask| == 8
    requires forall j :: 0 <= j < 8 ==> now[j] == was[j] & !mask[j]
    ensures forall p :: 0 <= p < 64 ==> (FrameBit(now, p) <==> !FrameBit(mask, p) && FrameBit(was, p))
  {
    forall p | 0 <= p < 64
      ensures FrameBit(now, p) <==> !FrameBit(mask, p) && FrameBit(was, p)
    {
      AndNotBit(was[p / 8], mask[p / 8], p % 8);
    }
  }

  method ClearField(data: array<bv8>, clear: seq<bv8>, ghost f: Field)
    requires data.Length == 8 && clear == Complement(FieldMask(f))
    modifies data
    ensures forall p :: 0 <= p < 64 ==>
      (FrameBit(data[..], p) <==> !InField(f, p) && FrameBit(old(data[..]), p))
  {
    hide FrameBit, InField, FieldMask;
    ghost var was := data[..];
    var i := 0;
    while i < 8
      invariant 0 <= i <= 8
      invariant forall j :: 0 <= j < i ==> data[j] == was[j] & clear[j]
      invariant forall j :: i <= j < 8 ==> data[j] == was[j]
    {
      data[i] := data[i] & clear[i];
      i := i + 1;
    }
    ClearedFrame(was, data[..], FieldMask(f));
    forall p | 0 <= p < 64 ensures FrameBit(FieldMask(f), p) <==> InField(f, p) { FieldMaskBit(f, p); }
  }

  /** The dynamic path: clear the compiled mask, then set the positions of the one bits. */
  method WriteDynamicValue(data: array<bv8>, clear: seq<bv8>, positions: seq<nat>, value: nat, ghost f: Field)
    requires data.Length == 8 && |clear| == 8
    requires Fits(f) && clear == Complement(FieldMask(f)) && positions == Positions(f)
    modifies data
    ensures IsWritten(old(data[..]), data[..], f, Saturated(value, |positions|))
  {
    var v := if value > Pow2(|positions|) - 1 then Pow2(|positions|) - 1 else value;
    ghost var was := data[..];
    ClearField(data, clear, f);
    var bit := 0;
    while bit < |positions|
      invariant bit <= |positions|
      invariant forall p :: 0 <= p < 64 ==>
        (FrameBit(data[..], p) <==>
          if InField(f, p) then RawIndex(f, p) < bit && RawBit(v, RawIndex(f, p)) else FrameBit(was, p))
    {
      PositionIndex(f, bit);
      forall p | 0 <= p < 64 && InField(f, p) && RawIndex(f, p) == bit ensures p == positions[bit] {
        IndexPosition(f, p);
      }
      if RawBit(v, bit) {
        WriteFrameBit(data, positions[bit], true);
      }
      bit := bit + 1;
    }
  }

  /** Static path, dynamic path and `insertRaw` leave the same frame for every value that fits,
      and `extractRaw` of that frame returns the value. */
  lemma LayoutsAgree(data: seq<bv8>, dynamic_: seq<bv8>, inserted: seq<bv8>, f: Field, raw: nat, got: nat)
    requires |data| == 8 && |dynamic_| == 8 && |inserted| == 8 && Fits(f) && raw < Pow2(f.length)
    requires IsWritten(data, dynamic_, f, Saturated(raw, f.length))
    requires IsWritten(data, inserted, f, raw)
    ensures Masked(data, Complement(FieldMask(f)), FieldValue(f, raw)) == dynamic_ == inserted
    ensures IsRead(dynamic_, f, got) <==> got == raw
  {
    StaticPathWrites(data, f, raw);
    WritersAgree(data, Masked(data, Complement(FieldMask(f)), FieldValue(f, raw)), dynamic_, f, raw);
    WritersAgree(data, inserted, dynamic_, f, raw);
    ReadBack(data, dynamic_, f, raw, got);
  }

  // ---------------------------------------------------------------- two's complement

  // The source computes in 64-bit integers: `word` is 64 at every use. A signed field of
  // `length` bits saturates at its own limits; an unsigned field of a full word saturates at
  // the largest signed word, because the clamp is done in int64.

  function MinValue(length: nat, signed_: bool): int
    requires length >= 1
  {
    if signed_ then 0 - Pow2(length - 1) else 0
  }

  function MaxValue(length: nat, signed_: bool, word: nat): int
    requires 1 <= length <= word
  {
    if signed_ || length == word then Pow2(length - 1) - 1 else Pow2(length) - 1
  }

  function Clamp(v: int, length: nat, signed_: bool, word: nat): int
    requires 1 <= length <= word
  {
    if v < MinValue(length, signed_) then MinValue(length, signed_)
    else if v > MaxValue(length, signed_, word) then MaxValue(length, signed_, word) else v
  }

  /** The cast to an unsigned word, then the low `length` bits when the field is signed. */
  function EncodeInteger(v: int, length: nat, signed_: bool, word: nat): nat
    requires 1 <= length <= word
  {
    var wide := Clamp(v, length, signed_, word) % Pow2(word);
    if signed_ && length < word then wide % Pow2(length) else wide
  }

  /** Sign extension to a word and the reinterpretation of the word as signed. */
  function DecodeInteger(raw: nat, length: nat, signed_: bool, word: nat): int
    requires 1 <= length <= word
  {
    var extended :=
      if signed_ && length < word && RawBit(raw, length - 1) then raw + (Pow2(word) - Pow2(length)) else raw;
    if extended >= Pow2(word - 1) then extended - Pow2(word) else extended
  }

  lemma {:induction false} TopBit(v: nat, n: nat)
    requires v < Pow2(n + 1)
    ensures RawBit(v, n) <==> v >= Pow2(n)
  {
    if n > 0 { TopBit(v / 2, n - 1); }
  }

  lemma {:induction false} Pow2Splits(m: nat, n: nat)
    ensures Pow2(m + n) == Pow2(m) * Pow2(n)
  {
    if m > 0 {
      Pow2Splits(m - 1, n);
      assert Pow2(m + n) == 2 * Pow2(m - 1 + n);
    }
  }

  /** Wrapping a negative number to a multiple of `m` and then to `m` adds `m`. */
  lemma WrapNegative(v: int, m: nat, n: nat)
    requires n >= 1 && 0 - m <= v < 0
    ensures m <= n * m
    ensures v % (n * m) == v + n * m
    ensures (v + n * m) % m == v + m
  {
    Multiple(n - 1, m);
    assert (n - 1) * m == n * m - m;
    ModUnique(-1, v + n * m, n * m);
    assert -1 * (n * m) + (v + n * m) == v;
    ModUnique(n - 1, v + m, m);
    assert (n - 1) * m + (v + m) == v + n * m;
  }

  /** Decoding an encoded integer gives the clamped integer, for every width and both signs. */
  lemma SignRoundTrip(v: int, length: nat, signed_: bool, word: nat)
    requires 1 <= length <= word
    ensures EncodeInteger(v, length, signed_, word) < Pow2(length)
    ensures DecodeInteger(EncodeInteger(v, length, signed_, word), length, signed_, word) ==
            Clamp(v, length, signed_, word)
  {
    hide Pow2, DecodeInteger;
    Pow2Monotone(length - 1, length);
    var c := Clamp(v, length, signed_, word);
    if c < 0 {
      EncodeNegative(c, length, word);
      DecodeNegative(c, length, word);
    } else {
      EncodePositive(c, length, word);
      DecodePositive(c, length, signed_, word);
    }
  }

  /** What a field of this length can show; the decoded word is a signed one. */
  predicate InRange(v: int, length: nat, signed_: bool, word: nat)
    requires 1 <= length <= word
  {
    if signed_ then 0 - Pow2(length - 1) <= v < Pow2(length - 1)
    else if length < word then 0 <= v < Pow2(length)
    else 0 <= v < Pow2(word - 1)
  }

  /** The clamped integer is the nearest one that the field can show. */
  lemma ClampIsNearest(v: int, length: nat, signed_: bool, word: nat, other: int)
    requires 1 <= length <= word && InRange(other, length, signed_, word)
    ensures var c := Clamp(v, length, signed_, word);
      && InRange(c, length, signed_, word) && (InRange(v, length, signed_, word) ==> c == v)
      && (v <= c <= other || other <= c <= v || c == v)
  {
    hide Pow2;
  }

  /** Raw values are two's complement: the upper half of a signed field is negative. */
  lemma DecodedIsTwosComplement(raw: nat, length: nat, signed_: bool, word: nat)
    requires 1 <= length <= word && raw < Pow2(length)
    ensures DecodeInteger(raw, length, signed_, word) ==
      if (signed_ || length == word) && raw >= Pow2(length - 1) then raw - Pow2(length) else raw
  {
    TopBit(raw, length - 1);
    if length < word { Pow2Monotone(length, word - 1); }
    hide RawBit;
    assert Pow2(length) == 2 * Pow2(length - 1) && Pow2(word) == 2 * Pow2(word - 1);
  }

  lemma EncodePositive(c: nat, length: nat, word: nat)
    requires 1 <= length <= word && c < Pow2(length)
    ensures c % Pow2(word) == c && c % Pow2(length) == c
  {
    Pow2Monotone(length, word);
    ModUnique(0, c, Pow2(word));
    ModUnique(0, c, Pow2(length));
  }

  lemma DecodePositive(c: nat, length: nat, signed_: bool, word: nat)
    requires 1 <= length <= word && c < Pow2(length)
    requires signed_ || length == word ==> c < Pow2(length - 1)
    ensures DecodeInteger(c, length, signed_, word) == c
  {
    TopBit(c, length - 1);
    if length < word { Pow2Monotone(length, word - 1); }
  }

  lemma DecodeNegative(c: int, length: nat, word: nat)
    requires 1 <= length <= word && 0 - Pow2(length - 1) <= c < 0
    ensures 0 <= c + Pow2(length) < Pow2(length)
    ensures DecodeInteger(c + Pow2(length), length, true, word) == c
  {
    TopBit(c + Pow2(length), length - 1);
    Pow2Monotone(length - 1, word - 1);
  }

  lemma EncodeNegative(c: int, length: nat, word: nat)
    requires 1 <= length <= word && 0 - Pow2(length - 1) <= c < 0
    ensures c % Pow2(word) == c + Pow2(word)
    ensures (c + Pow2(word)) % Pow2(length) == c + Pow2(length)
  {
    Pow2Splits(word - length, length);
    WrapNegative(c, Pow2(length), Pow2(word - length));
  }

  // ---------------------------------------------------------------- the whole codec

  const WORD_BITS: nat := 64

  /** The field, read and sign-extended, shows `v`. */
  ghost predicate Shows(data: seq<bv8>, f: Field, signed_: bool, v: int)
    requires |data| == 8 && Fits(f)
  {
    exists raw: nat :: IsRead(data, f, raw) && v == DecodeInteger(raw, f.length, signed_, WORD_BITS)
  }

  /** Writing an encoded integer into a field, reading the field and decoding gives the clamped
      integer and no other, in both layouts, with both signs and every length. */
  lemma CodecRoundTrip(before: seq<bv8>, after: seq<bv8>, f: Field, signed_: bool, v: int, got: int)
    requires |before| == 8 && |after| == 8 && Fits(f)
    requires IsWritten(before, after, f, EncodeInteger(v, f.length, signed_, WORD_BITS))
    ensures Shows(after, f, signed_, got) <==> got == Clamp(v, f.length, signed_, WORD_BITS)
  {
    hide EncodeInteger, DecodeInteger, Clamp, IsWritten, IsRead, Fits, Pow2;
    assert 1 <= f.length <= 64 by { FieldLength(f); }
    SignRoundTrip(v, f.length, signed_, WORD_BITS);
    var raw := EncodeInteger(v, f.length, signed_, WORD_BITS);
    forall r: nat ensures IsRead(after, f, r) <==> r == raw { ReadBack(before, after, f, raw, r); }
  }

  lemma FieldLength(f: Field)
    requires Fits(f)
    ensures 1 <= f.length <= 64
  {
  }

  /** `encodeSignalRaw` after the scaled value has been rounded to an integer. */
  method EncodeSignal(data: array<bv8>, f: Field, signed_: bool, v: int) returns (ok: bool)
    requires data.Length == 8
    modifies data
    ensures ok <==> Fits(f)
    ensures ok ==> forall w :: Shows(data[..], f, signed_, w) <==> w == Clamp(v, f.length, signed_, WORD_BITS)
    ensures forall p :: 0 <= p < 64 && !InField(f, p) ==>
      FrameBit(data[..], p) == FrameBit(old(data[..]), p)
  {
    hide EncodeInteger, Clamp, IsWritten, Shows;
    if f.length == 0 || f.length > 64 { return false; }
    ghost var was := data[..];
    var raw := EncodeInteger(v, f.length, signed_, WORD_BITS);
    ok := InsertRaw(data, f, raw);
    if ok {
      forall w ensures Shows(data[..], f, signed_, w) <==> w == Clamp(v, f.length, signed_, WORD_BITS) {
        CodecRoundTrip(was, data[..], f, signed_, v, w);
      }
    }
  }

  /** `decodeSignalRaw` before the integer is scaled. */
  method DecodeSignal(data: seq<bv8>, f: Field, signed_: bool) returns (ok: bool, v: int)
    requires |data| == 8
    ensures ok <==> Fits(f)
    ensures ok ==> forall w :: Shows(data, f, signed_, w) <==> w == v
  {
    hide DecodeInteger, IsRead;
    var raw;
    ok, raw := ExtractRaw(data, f);
    if !ok { return false, 0; }
    v := DecodeInteger(raw, f.length, signed_, WORD_BITS);
    forall r: nat ensures IsRead(data, f, r) <==> r == raw { OneReading(data, f, raw, r); }
  }

  lemma OneReading(data: seq<bv8>, f: Field, raw: nat, got: nat)
    requires |data| == 8 && Fits(f) && IsRead(data, f, raw)
    ensures IsRead(data, f, got) <==> got == raw
  {
    if IsRead(data, f, got) {
      forall i: nat | i < f.length ensures RawBit(got, i) == RawBit(raw, i) {
        assert Position(f, i) < 64;
      }
      RawExtensional(got, raw, f.length);
    }
  }
}
