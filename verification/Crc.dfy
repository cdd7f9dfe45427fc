/** Exclusive or, and the shift register of CRC-8/AUTOSAR with polynomial 0x2F
    (`applyAutosarChecksumRule` of core/mutation_engine.cpp), with their linearity. */
module Crc {
  import opened BitLayout

  function Xor(a: bv8, b: bv8): bv8 {
    a ^ b
  }

  lemma {:induction false} XorBit(a: bv8, b: bv8, k: nat)
    ensures TestBit(Xor(a, b), k) <==> TestBit(a, k) != TestBit(b, k)
  {
    hide Xor;
    if k == 0 {
      XorLowBit(a, b);
    } else {
      XorHalves(a, b);
      assert TestBit(Xor(a, b), k) == TestBit(Xor(a >> 1, b >> 1), k - 1);
      XorBit(a >> 1, b >> 1, k - 1);
    }
  }

  lemma XorLowBit(a: bv8, b: bv8)
    ensures Xor(a, b) & 1 == 1 <==> (a & 1 == 1) != (b & 1 == 1)
  {}

  lemma XorHalves(a: bv8, b: bv8)
    ensures Xor(a, b) >> 1 == Xor(a >> 1, b >> 1)
  {}

  lemma XorSwap(a: bv8, b: bv8, c: bv8)
    ensures Xor(Xor(a, b), c) == Xor(Xor(a, c), b)
    ensures Xor(a, Xor(b, c)) == Xor(Xor(a, b), c)
    ensures Xor(a, b) == Xor(Xor(a, c), Xor(b, c))
  {}

  // ---------------------------------------------------------------- the register

  function CrcShift(crc: bv8): bv8 {
    if crc & 0x80 != 0 then (crc << 1) ^ 0x2F else crc << 1
  }

  function CrcShifts(crc: bv8, n: nat): bv8 {
    if n == 0 then crc else CrcShift(CrcShifts(crc, n - 1))
  }

  function CrcUpdate(crc: bv8, value: bv8): bv8 {
    CrcShifts(crc ^ value, 8)
  }

  lemma TopBit(a: bv8, b: bv8)
    ensures Xor(a, b) & 0x80 != 0 <==> (a & 0x80 != 0) != (b & 0x80 != 0)
  {}

  lemma ShiftXor(a: bv8, b: bv8)
    ensures Xor(a, b) << 1 == Xor(a << 1, b << 1)
  {}

  lemma ShiftIs(a: bv8)
    ensures CrcShift(a) == if a & 0x80 != 0 then Xor(a << 1, 0x2F) else a << 1
  {}

  lemma ShiftLinear(a: bv8, b: bv8)
    ensures CrcShift(Xor(a, b)) == Xor(CrcShift(a), CrcShift(b))
  {
    hide CrcShift, Xor;
    TopBit(a, b);
    ShiftXor(a, b);
    XorSwap(a << 1, b << 1, 0x2F);
    ShiftIs(a);
    ShiftIs(b);
    ShiftIs(Xor(a, b));
  }

  lemma ShiftZero(a: bv8)
    ensures CrcShift(a) == 0 ==> a == 0
  {}

  lemma {:induction false} ShiftsLinear(a: bv8, b: bv8, n: nat)
    ensures CrcShifts(Xor(a, b), n) == Xor(CrcShifts(a, n), CrcShifts(b, n))
    ensures CrcShifts(a, n) == 0 ==> a == 0
  {
    hide CrcShift, Xor;
    if n > 0 {
      ShiftsLinear(a, b, n - 1);
      ShiftLinear(CrcShifts(a, n - 1), CrcShifts(b, n - 1));
      ShiftZero(CrcShifts(a, n - 1));
    }
  }

  lemma {:induction false} ShiftsAdd(d: bv8, m: nat, n: nat)
    ensures CrcShifts(CrcShifts(d, m), n) == CrcShifts(d, m + n)
  {
    hide CrcShift;
    if n > 0 { ShiftsAdd(d, m, n - 1); }
  }

  lemma UpdateIsShifts(crc: bv8, value: bv8)
    ensures CrcUpdate(crc, value) == CrcShifts(Xor(crc, value), 8)
  {}

  /** A difference in the register or in the octet, after the octet */
  lemma UpdateCarries(crc: bv8, value: bv8, w: bv8)
    ensures CrcUpdate(Xor(crc, w), value) == Xor(CrcUpdate(crc, value), CrcShifts(w, 8))
    ensures CrcUpdate(crc, Xor(value, w)) == Xor(CrcUpdate(crc, value), CrcShifts(w, 8))
  {
    hide CrcShifts, Xor, CrcUpdate;
    ShiftsLinear(Xor(crc, value), w, 8);
    XorSwap(crc, w, value);
    XorSwap(crc, value, w);
    UpdateIsShifts(crc, value);
    UpdateIsShifts(Xor(crc, w), value);
    UpdateIsShifts(crc, Xor(value, w));
  }
}
