/** What the two checksum rules of core/mutation_engine.cpp compute, told without their loops, and
    that the checksum of a frame covers the payload with which the frame leaves. */
module Checksums {
  import opened Types
  import opened BitLayout
  import opened Rules
  import opened Crc
  import opened CompileSpec
  import opened Compiler
  import opened FrameEffect
  import opened EngineState

  // ---------------------------------------------------------------- exclusive or

  /** The protected bytes whose bit `k` is set */
  function BytesWithBit(data: seq<bv8>, from: nat, end: nat, k: nat): set<nat>
    requires end <= |data|
  {
    set i: nat | from <= i < end && TestBit(data[i], k)
  }

  /** Bit `k` of an exclusive-or checksum says whether an odd number of the protected bytes and the
      seed have that bit. */
  lemma {:induction false} XorIsParity(data: seq<bv8>, from: nat, end: nat, seed: bv8, k: nat)
    requires end <= |data|
    ensures TestBit(XorOver(data, from, end, seed), k) <==>
      (|BytesWithBit(data, from, end, k)| + (if TestBit(seed, k) then 1 else 0)) % 2 == 1
    decreases end
  {
    hide TestBit, Xor, XorOver, BytesWithBit;
    if from >= end {
      EmptyXor(data, from, end, seed, k);
    } else {
      XorIsParity(data, from, end - 1, seed, k);
      XorBit(XorOver(data, from, end - 1, seed), data[end - 1], k);
      XorStep(data, from, end, seed);
      OneMoreByte(data, from, end, k);
    }
  }

  /** Bit `k` of an octet is the parity of that bit in the seed and the protected bytes of `data`. */
  predicate ParityBit(data: Payload, r: RuleRequest, octet: bv8, k: nat)
    requires r.checksumEnd < 8
  {
    TestBit(octet, k) <==>
      (|BytesWithBit(data, r.checksumStart, r.checksumEnd + 1, k)| + (if TestBit(r.checksumSeed, k) then 1 else 0))
        % 2 == 1
  }

  lemma EmptyXor(data: seq<bv8>, from: nat, end: nat, seed: bv8, k: nat)
    requires from >= end && end <= |data|
    ensures XorOver(data, from, end, seed) == seed && BytesWithBit(data, from, end, k) == {}
  {
    hide TestBit;
  }

  lemma OneMoreByte(data: seq<bv8>, from: nat, end: nat, k: nat)
    requires from < end <= |data|
    ensures |BytesWithBit(data, from, end, k)| ==
      |BytesWithBit(data, from, end - 1, k)| + (if TestBit(data[end - 1], k) then 1 else 0)
  {
    hide TestBit;
    var fewer := BytesWithBit(data, from, end - 1, k);
    assert BytesWithBit(data, from, end, k) == if TestBit(data[end - 1], k) then fewer + {end - 1} else fewer;
  }

  lemma XorStep(data: seq<bv8>, from: nat, end: nat, seed: bv8)
    requires from < end <= |data|
    ensures XorOver(data, from, end, seed) == Xor(XorOver(data, from, end - 1, seed), data[end - 1])
  {
  }

  // ---------------------------------------------------------------- CRC-8/AUTOSAR

  lemma {:induction false} CrcCarries(data: seq<bv8>, from: nat, end: nat, i: nat, d: bv8)
    requires from <= i < end <= |data|
    ensures CrcOver(data[i := Xor(data[i], d)], from, end) ==
      Xor(CrcOver(data, from, end), CrcShifts(d, 8 * (end - i)))
    decreases end
  {
    hide CrcUpdate, CrcShifts, Xor;
    var other := data[i := Xor(data[i], d)];
    if end - 1 == i {
      SameOctets(data, other, from, i);
      UpdateCarries(CrcOver(data, from, i), data[i], d);
    } else {
      CrcCarries(data, from, end - 1, i, d);
      UpdateCarries(CrcOver(data, from, end - 1), data[end - 1], CrcShifts(d, 8 * (end - 1 - i)));
      ShiftsAdd(d, 8 * (end - 1 - i), 8);
    }
  }

  lemma {:induction false} SameOctets(a: seq<bv8>, b: seq<bv8>, from: nat, end: nat)
    requires end <= |a| && end <= |b| && forall i :: from <= i < end ==> a[i] == b[i]
    ensures CrcOver(a, from, end) == CrcOver(b, from, end)
    decreases end
  {
    hide CrcUpdate;
    if from < end { SameOctets(a, b, from, end - 1); }
  }

  lemma CrcIs(r: RuleRequest, data: Payload)
    requires r.checksumEnd < 8 && r.checksumCounter < 8
    ensures AutosarCrc(r, data) == Xor(CrcRegister(r, data), 0xFF)
  {
    hide CrcRegister;
  }

  lemma RegisterIs(r: RuleRequest, data: Payload)
    requires r.checksumEnd < 8 && r.checksumCounter < 8
    ensures CrcRegister(r, data) ==
      CrcUpdate(CrcOver(data, r.checksumStart, r.checksumEnd + 1),
                r.sequenceValues[LowNibble(data[r.checksumCounter])])
  {
    hide CrcUpdate, CrcOver, LowNibble;
  }

  lemma CrcMoves(r: RuleRequest, data: Payload, i: nat, d: bv8)
    requires r.checksumStart <= i <= r.checksumEnd < 8 && r.checksumCounter < 8 && i != r.checksumCounter
    ensures AutosarCrc(r, data[i := Xor(data[i], d)]) ==
      Xor(AutosarCrc(r, data), CrcShifts(d, 8 * (r.checksumEnd + 2 - i)))
  {
    hide CrcUpdate, CrcOver, CrcShifts, Xor, AutosarCrc, CrcRegister, LowNibble;
    var n := r.checksumEnd + 1;
    var crc := CrcOver(data, r.checksumStart, n);
    var w := CrcShifts(d, 8 * (n - i));
    var id := r.sequenceValues[LowNibble(data[r.checksumCounter])];
    CrcIs(r, data);
    CrcIs(r, data[i := Xor(data[i], d)]);
    RegisterIs(r, data);
    RegisterIs(r, data[i := Xor(data[i], d)]);
    CrcCarries(data, r.checksumStart, n, i, d);
    UpdateCarries(crc, id, w);
    ShiftsAdd(d, 8 * (n - i), 8);
    XorSwap(CrcUpdate(crc, id), CrcShifts(w, 8), 0xFF);
  }

  /** A change of one protected octet always changes the checksum, by an amount that depends on the
      change and its place alone: neither the other octets nor the identifiers matter. */
  lemma OneOctetChanged(q: RuleRequest, r: RuleRequest, x: Payload, y: Payload, i: nat, d: bv8)
    requires q.checksumStart <= i <= q.checksumEnd < 8 && q.checksumCounter < 8 && i != q.checksumCounter
    requires r.checksumStart <= i <= r.checksumEnd < 8 && r.checksumCounter < 8 && i != r.checksumCounter
    requires q.checksumEnd == r.checksumEnd
    ensures d != 0 ==> AutosarCrc(q, x[i := x[i] ^ d]) != AutosarCrc(q, x)
    ensures AutosarCrc(q, x[i := x[i] ^ d]) ^ AutosarCrc(q, x) == AutosarCrc(r, y[i := y[i] ^ d]) ^ AutosarCrc(r, y)
  {
    hide CrcShifts, AutosarCrc;
    var w := CrcShifts(d, 8 * (q.checksumEnd + 2 - i));
    assert Xor(x[i], d) == x[i] ^ d && Xor(y[i], d) == y[i] ^ d;
    CrcMoves(q, x, i, d);
    CrcMoves(r, y, i, d);
    ShiftsLinear(d, d, 8 * (q.checksumEnd + 2 - i));
    Difference(AutosarCrc(q, x), w);
    Difference(AutosarCrc(r, y), w);
  }

  lemma Difference(a: bv8, w: bv8)
    ensures Xor(a, w) ^ a == w
    ensures w != 0 ==> Xor(a, w) != a
  {
  }

  lemma EightShifts(crc: bv8, value: bv8)
    ensures CrcUpdate(crc, value) ==
      CrcShift(CrcShift(CrcShift(CrcShift(CrcShift(CrcShift(CrcShift(CrcShift(crc ^ value))))))))
  {
    hide CrcShift;
    var c := crc ^ value;
    assert CrcShifts(c, 1) == CrcShift(CrcShifts(c, 0));
    assert CrcShifts(c, 3) == CrcShift(CrcShift(CrcShifts(c, 1)));
    assert CrcShifts(c, 5) == CrcShift(CrcShift(CrcShifts(c, 3)));
    assert CrcShifts(c, 7) == CrcShift(CrcShift(CrcShifts(c, 5)));
  }

  lemma FirstOctets()
    ensures CrcUpdate(0xFF, 0x31) == 0xB0 && CrcUpdate(0xB0, 0x32) == 0xBD && CrcUpdate(0xBD, 0x33) == 0x56
    ensures CrcUpdate(0x56, 0x34) == 0xCB && CrcUpdate(0xCB, 0x35) == 0x6D
  {
    EightShifts(0xFF, 0x31);
    EightShifts(0xB0, 0x32);
    EightShifts(0xBD, 0x33);
    EightShifts(0x56, 0x34);
    EightShifts(0xCB, 0x35);
  }

  lemma LastOctets()
    ensures CrcUpdate(0x6D, 0x36) == 0x6E && CrcUpdate(0x6E, 0x37) == 0x30
    ensures CrcUpdate(0x30, 0x38) == 0x57 && CrcUpdate(0x57, 0x39) == 0x20
  {
    EightShifts(0x6D, 0x36);
    EightShifts(0x6E, 0x37);
    EightShifts(0x30, 0x38);
    EightShifts(0x57, 0x39);
  }

  lemma DigitNibble(data: Payload, i: nat)
    requires data == [0x31, 0x32, 0x33, 0x34, 0x35, 0x36, 0x37, 0x38] && i < 8
    ensures LowNibble(data[i]) == i + 1
  {
    assert LowNibble(0x31) == 1 && LowNibble(0x32) == 2 && LowNibble(0x33) == 3 && LowNibble(0x34) == 4;
    assert LowNibble(0x35) == 5 && LowNibble(0x36) == 6 && LowNibble(0x37) == 7 && LowNibble(0x38) == 8;
  }

  /** The standard check value: the octets of "123456789" give 0xDF. The last one is the identifier
      that the low four bits of the counter byte select. */
  lemma CheckValue(r: RuleRequest, data: Payload)
    requires data == [0x31, 0x32, 0x33, 0x34, 0x35, 0x36, 0x37, 0x38]
    requires r.checksumStart == 0 && r.checksumEnd == 7 && r.checksumCounter < 8
    requires r.sequenceValues[r.checksumCounter + 1] == 0x39
    ensures AutosarCrc(r, data) == 0xDF
  {
    hide CrcUpdate, LowNibble;
    DigitNibble(data, r.checksumCounter);
    FirstOctets();
    LastOctets();
    assert CrcOver(data, 0, 2) == 0xBD;
    assert CrcOver(data, 0, 4) == 0xCB;
    assert CrcOver(data, 0, 6) == 0x6E;
  }

  // ---------------------------------------------------------------- what a frame leaves with

  predicate IsChecksum(c: CompiledRule) {
    c.source.kind.ChecksumXor? || c.source.kind.ChecksumCrc8?
  }

  /** Behind a checksum rule a frame meets checksum rules only. */
  lemma ChecksumsLast(a: seq<StagedRule>, key: RuleKey, reg: Registry, i: nat, j: nat)
    requires RequestsOk(a) && i <= j < |CompiledFor(a, key, reg)| && IsChecksum(CompiledFor(a, key, reg)[i])
    ensures IsChecksum(CompiledFor(a, key, reg)[j])
  {
    KindOrder(a, key);
    var es := RulesFor(a, key);
    assert i < j ==> KindFollows(es[i].rule.request.kind, es[j].rule.request.kind);
  }

  lemma {:induction false} QuietTail(rules: seq<CompiledRule>, n: nat, e: Effect, inputs: Inputs)
    requires AllAcceptable(rules) && n <= |rules|
    requires forall j :: n <= j < |rules| ==> !Runs(rules[j], e.runtime, inputs)
    ensures AllAcceptable(rules[..n]) && ApplyAll(rules, e, inputs) == ApplyAll(rules[..n], e, inputs)
  {
    hide Acceptable, Selected, RunRule;
    if n == |rules| {
      assert rules[..n] == rules;
    } else {
      var init, c := rules[..|rules| - 1], rules[|rules| - 1];
      QuietTail(init, n, e, inputs);
      assert init[..n] == rules[..n];
      if c.ruleId < |e.runtime| { FramesKeepSwitches(init, e, inputs, c.ruleId); }
    }
  }

  /** The byte a checksum rule wrote fits the payload it leaves, provided that it is not one of the
      bytes the checksum itself reads. */
  predicate Covered(r: RuleRequest, data: Payload)
    requires Acceptable(r)
  {
    && (r.kind.ChecksumXor? && !(r.checksumStart <= r.checksumTarget <= r.checksumEnd) ==>
          forall k :: 0 <= k < 8 ==> ParityBit(data, r, data[r.checksumTarget], k))
    && (r.kind.ChecksumCrc8? && !(r.checksumStart <= r.checksumTarget <= r.checksumEnd) &&
        r.checksumTarget != r.checksumCounter ==>
          data[r.checksumTarget] == AutosarCrc(r, data))
  }

  lemma XorCovers(r: RuleRequest, data: Payload)
    requires Acceptable(r) && r.kind.ChecksumXor?
    ensures Covered(r, data[r.checksumTarget := XorOver(data, r.checksumStart, r.checksumEnd + 1, r.checksumSeed)])
  {
    hide TestBit, XorOver;
    var start, n := r.checksumStart, r.checksumEnd + 1;
    var out := data[r.checksumTarget := XorOver(data, start, n, r.checksumSeed)];
    if !(start <= r.checksumTarget <= r.checksumEnd) {
      forall k | 0 <= k < 8 ensures ParityBit(out, r, out[r.checksumTarget], k) {
        XorIsParity(data, start, n, r.checksumSeed, k);
        assert BytesWithBit(out, start, n, k) == BytesWithBit(data, start, n, k);
      }
    }
  }

  lemma CrcCovers(r: RuleRequest, data: Payload)
    requires Acceptable(r) && r.kind.ChecksumCrc8?
    ensures Covered(r, data[r.checksumTarget := AutosarCrc(r, data)])
  {
    hide AutosarCrc, CrcRegister, CrcUpdate, CrcOver, LowNibble;
    var out := data[r.checksumTarget := AutosarCrc(r, data)];
    if !(r.checksumStart <= r.checksumTarget <= r.checksumEnd) && r.checksumTarget != r.checksumCounter {
      SameOctets(data, out, r.checksumStart, r.checksumEnd + 1);
      RegisterIs(r, data);
      RegisterIs(r, out);
      CrcIs(r, data);
      CrcIs(r, out);
    }
  }

  lemma ChecksumWritten(c: CompiledRule, selector: nat, data: Payload, stored: U32, inputs: Inputs)
    requires Acceptable(c.source) && IsChecksum(c)
    ensures Covered(c.source, RunRule(c, selector, data, stored, inputs).0)
  {
    hide Covered, AutosarCrc, XorOver;
    if c.source.kind.ChecksumXor? { XorCovers(c.source, data); } else { CrcCovers(c.source, data); }
  }

  /** When one checksum rule of the frame's key runs and no other does, the frame leaves with the
      checksum of the payload it leaves with: every mask, value, counter and sequence of the key has
      been written by then. */
  lemma ChecksumCoversFrame(e: Engine, key: RuleKey, data: Payload, inputs: Inputs, i: nat)
    requires RequestsOk(e.installed) && i < |CompiledFor(e.installed, key, e.registry)|
    requires var cs := CompiledFor(e.installed, key, e.registry);
      && IsChecksum(cs[i]) && Runs(cs[i], e.runtime, inputs)
      && forall j :: 0 <= j < |cs| && j != i && IsChecksum(cs[j]) ==> !Runs(cs[j], e.runtime, inputs)
    ensures Acceptable(CompiledFor(e.installed, key, e.registry)[i].source)
    ensures Covered(CompiledFor(e.installed, key, e.registry)[i].source, FrameOn(e, key, data, inputs).data)
  {
    hide CompiledFor, Acceptable, Selected, Covered, RunRule, IsChecksum;
    var cs := CompiledFor(e.installed, key, e.registry);
    ProgramsAcceptable(e.installed, key, e.registry);
    forall j | i < j < |cs| ensures !Runs(cs[j], e.runtime, inputs) {
      ChecksumsLast(e.installed, key, e.registry, i, j);
    }
    OnlyChecksum(cs, i, Effect(data, e.runtime), inputs);
  }

  lemma OnlyChecksum(cs: seq<CompiledRule>, i: nat, e: Effect, inputs: Inputs)
    requires AllAcceptable(cs) && i < |cs| && IsChecksum(cs[i]) && Runs(cs[i], e.runtime, inputs)
    requires forall j :: i < j < |cs| ==> !Runs(cs[j], e.runtime, inputs)
    ensures Covered(cs[i].source, ApplyAll(cs, e, inputs).data)
  {
    hide Acceptable, Selected, Covered, RunRule, IsChecksum;
    QuietTail(cs, i + 1, e, inputs);
    var before := cs[..i];
    assert cs[..i + 1][..i] == before;
    var mid := ApplyAll(before, e, inputs);
    FramesKeepSwitches(before, e, inputs, cs[i].ruleId);
    ChecksumWritten(cs[i], Selected(cs[i], inputs).value, mid.data, mid.runtime[cs[i].ruleId].value, inputs);
  }
}
