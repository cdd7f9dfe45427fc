/** The in-place rule bodies of core/mutation_engine.cpp, each proved to have the effect that
    `FrameEffect` describes. */
module FrameRules {
  import opened Types
  import opened BitLayout
  import opened SignalCodec
  import opened Rules
  import opened Crc
  import opened CompileSpec
  import opened Compiler
  import opened FrameEffect
  import opened Checksums

  /** What the rule bodies rely on in a compiled rule. */
  ghost predicate WellCompiled(c: CompiledRule) {
    && Acceptable(c.source)
    && (c.source.HasField() ==> c.clearMask == Complement(FieldMask(c.source.Field())))
    && (c.source.RuntimeBits() ==> c.positions == Positions(c.source.Field()))
    && (c.source.HasField() && !c.source.RuntimeBits() ==>
          c.setBits == FieldValue(c.source.Field(), c.source.replaceValue))
  }

  lemma CompiledIsWell(s: StagedRule, priority: nat, reg: Registry)
    requires Acceptable(s.request)
    ensures WellCompiled(CompiledOf(s, priority, reg))
  {
  }

  /** `writeDynamicValue` on a compiled rule */
  method WriteDynamic(c: CompiledRule, data: array<bv8>, value: nat)
    requires data.Length == 8 && WellCompiled(c) && c.source.RuntimeBits()
    modifies data
    ensures data[..] == WriteField(old(data[..]), c, value)
  {
    ghost var was, f := data[..], c.source.Field();
    WriteDynamicValue(data, c.clearMask, c.positions, value, f);
    WritersAgree(was, data[..], WriteField(was, c, value), f, Saturated(value, f.length));
  }

  method ApplyStatic(c: CompiledRule, data: array<bv8>)
    requires data.Length == 8 && WellCompiled(c)
    requires c.source.kind.RawMask? || (c.source.kind.BitRange? && !c.source.dynamicValue)
    modifies data
    ensures data[..] ==
      if c.source.kind.RawMask? then Masked(old(data[..]), c.clearMask, c.setBits)
      else PutField(old(data[..]), c.source.Field(), c.source.replaceValue)
  {
    ghost var was, f := data[..], c.source.Field();
    ApplyMask(data, c.clearMask, c.setBits);
    if c.source.kind.BitRange? {
      StaticPathWrites(was, f, c.source.replaceValue);
      WritersAgree(was, data[..], PutField(was, f, c.source.replaceValue), f, c.source.replaceValue);
    }
  }

  /** `applyXorChecksumRule`: bit for bit the parity of the seed and the protected bytes. */
  method ApplyXorChecksum(r: RuleRequest, data: array<bv8>)
    requires data.Length == 8 && r.checksumEnd < 8 && r.checksumTarget < 8
    modifies data
    ensures forall k :: 0 <= k < 8 ==> ParityBit(old(data[..]), r, data[r.checksumTarget], k)
    ensures data[..] ==
      old(data[..])[r.checksumTarget := XorOver(old(data[..]), r.checksumStart, r.checksumEnd + 1, r.checksumSeed)]
  {
    var checksum, i := r.checksumSeed, r.checksumStart;
    while i <= r.checksumEnd
      invariant i <= r.checksumEnd + 1 || i == r.checksumStart
      invariant i <= 8 ==> checksum == XorOver(data[..], r.checksumStart, i, r.checksumSeed)
      invariant i > 8 ==> checksum == r.checksumSeed
    {
      checksum := checksum ^ data[i];
      i := i + 1;
    }
    NothingProtected(data[..], r.checksumStart, r.checksumEnd + 1, r.checksumSeed);
    forall k | 0 <= k < 8 ensures ParityBit(data[..], r, checksum, k) {
      XorIsParity(data[..], r.checksumStart, r.checksumEnd + 1, r.checksumSeed, k);
    }
    data[r.checksumTarget] := checksum;
  }

  lemma NothingProtected(data: seq<bv8>, from: nat, end: nat, seed: bv8)
    requires end <= |data|
    ensures from >= end ==> XorOver(data, from, end, seed) == seed
  {
  }

  method UpdateCrc(crc: bv8, value: bv8) returns (next: bv8)
    ensures next == CrcUpdate(crc, value)
  {
    next := crc ^ value;
    var bit := 0;
    while bit < 8
      invariant bit <= 8 && next == CrcShifts(crc ^ value, bit)
    {
      next := if next & 0x80 != 0 then (next << 1) ^ 0x2F else next << 1;
      bit := bit + 1;
    }
  }

  method ApplyAutosarChecksum(r: RuleRequest, data: array<bv8>)
    requires data.Length == 8 && r.checksumStart <= r.checksumEnd < 8
    requires r.checksumTarget < 8 && r.checksumCounter < 8
    modifies data
    ensures data[..] == old(data[..])[r.checksumTarget := AutosarCrc(r, old(data[..]))]
  {
    hide CrcUpdate;
    ghost var was := data[..];
    var crc, i := 0xFF, r.checksumStart;
    while i <= r.checksumEnd
      invariant r.checksumStart <= i <= r.checksumEnd + 1 && data[..] == was
      invariant crc == CrcOver(was, r.checksumStart, i)
    {
      crc := UpdateCrc(crc, data[i]);
      i := i + 1;
    }
    crc := UpdateCrc(crc, r.sequenceValues[LowNibble(data[r.checksumCounter])]);
    data[r.checksumTarget] := crc ^ 0xFF;
  }

  /** `applyCounterRule`: this frame carries the stored value, the next one the following value. */
  method ApplyCounter(c: CompiledRule, data: array<bv8>, stored: U32) returns (next: U32)
    requires data.Length == 8 && WellCompiled(c) && c.source.kind.Counter?
    modifies data
    ensures data[..] == WriteField(old(data[..]), c, stored) && next == CounterNext(c.source, stored)
  {
    next := if stored >= c.source.counterWrapAfter then c.source.counterWrapTo
            else (stored + c.source.counterStep) % 0x1_0000_0000;
    WriteDynamic(c, data, stored);
  }

  /** `applySequenceRule`: the stored value stays an index, the frame carries the indexed byte. */
  method ApplySequence(c: CompiledRule, data: array<bv8>, stored: U32) returns (next: U32)
    requires data.Length == 8 && WellCompiled(c) && c.source.kind.Sequence8?
    modifies data
    ensures data[..] == WriteField(old(data[..]), c, c.source.sequenceValues[stored % c.source.sequenceCount] as nat)
    ensures next == (stored % c.source.sequenceCount + 1) % c.source.sequenceCount
  {
    var index := stored % c.source.sequenceCount;
    next := (index + 1) % c.source.sequenceCount;
    WriteDynamic(c, data, c.source.sequenceValues[index] as nat);
  }

  /** `applyDynamicRule`: nothing is written when the source yields no value. */
  method ApplyDynamic(c: CompiledRule, selector: nat, data: array<bv8>, stored: U32, inputs: Inputs)
    requires data.Length == 8 && WellCompiled(c) && c.source.kind.BitRange? && c.source.dynamicValue
    modifies data
    ensures (data[..], stored) == RunRule(c, selector, old(data[..]), stored, inputs)
  {
    var output := DynamicOutput(c, selector, stored, inputs);
    if output.Some? { WriteDynamic(c, data, output.value); }
  }

  /** One rule body: the payload changes in place, the next runtime value is returned. */
  method RunBody(c: CompiledRule, selector: nat, data: array<bv8>, stored: U32, inputs: Inputs) returns (next: U32)
    requires data.Length == 8 && WellCompiled(c)
    modifies data
    ensures (data[..], next) == RunRule(c, selector, old(data[..]), stored, inputs)
  {
    next := stored;
    if c.source.kind.Counter? {
      next := ApplyCounter(c, data, stored);
    } else if c.source.kind.Sequence8? {
      next := ApplySequence(c, data, stored);
    } else if c.source.kind.ChecksumXor? {
      ApplyXorChecksum(c.source, data);
    } else if c.source.kind.ChecksumCrc8? {
      ApplyAutosarChecksum(c.source, data);
    } else if c.source.dynamicValue && c.source.kind.BitRange? {
      ApplyDynamic(c, selector, data, stored, inputs);
    } else {
      ApplyStatic(c, data);
    }
  }

  /** One rule of a frame's group: skipped when disabled or gated off. */
  method ApplyOne(c: CompiledRule, data: array<bv8>, runtime: array<Runtime>, inputs: Inputs) returns (ran: bool)
    requires data.Length == 8 && WellCompiled(c) && (data as object) != runtime
    modifies data, runtime
    ensures Effect(data[..], runtime[..]) == ApplyRule(c, Effect(old(data[..]), old(runtime[..])), inputs)
    ensures ran == Runs(c, old(runtime[..]), inputs)
  {
    if c.ruleId >= runtime.Length { return false; }
    if !runtime[c.ruleId].enabled { return false; }
    var selector := Selected(c, inputs);
    if selector.None? { return false; }
    ghost var slots := runtime[..];
    var next := RunBody(c, selector.value, data, runtime[c.ruleId].value, inputs);
    runtime[c.ruleId] := runtime[c.ruleId].(value := next);
    assert runtime[..] == slots[c.ruleId := slots[c.ruleId].(value := next)];
    return true;
  }

  function Applied(rules: seq<CompiledRule>, runtime: seq<Runtime>, inputs: Inputs): nat {
    if rules == [] then 0
    else Applied(rules[..|rules| - 1], runtime, inputs) +
         (if Runs(rules[|rules| - 1], runtime, inputs) then 1 else 0)
  }

  ghost predicate AllWell(rules: seq<CompiledRule>) {
    forall i :: 0 <= i < |rules| ==> WellCompiled(rules[i])
  }

  lemma StillRuns(rules: seq<CompiledRule>, e: Effect, inputs: Inputs, c: CompiledRule)
    requires AllAcceptable(rules)
    ensures Runs(c, ApplyAll(rules, e, inputs).runtime, inputs) == Runs(c, e.runtime, inputs)
  {
    if c.ruleId < |e.runtime| { FramesKeepSwitches(rules, e, inputs, c.ruleId); }
  }

  /** One more rule of a group */
  lemma GroupStep(rules: seq<CompiledRule>, i: nat, start: Effect, inputs: Inputs)
    requires i < |rules| && AllWell(rules)
    ensures AllAcceptable(rules[..i]) && AllAcceptable(rules[..i + 1]) && WellCompiled(rules[i])
    ensures ApplyAll(rules[..i + 1], start, inputs) == ApplyRule(rules[i], ApplyAll(rules[..i], start, inputs), inputs)
    ensures Applied(rules[..i + 1], start.runtime, inputs) ==
      Applied(rules[..i], start.runtime, inputs) +
      (if Runs(rules[i], ApplyAll(rules[..i], start, inputs).runtime, inputs) then 1 else 0)
  {
    assert forall k :: 0 <= k <= i ==> WellCompiled(rules[k]);
    hide ApplyRule, Runs;
    assert rules[..i + 1][..i] == rules[..i];
    StillRuns(rules[..i], start, inputs, rules[i]);
  }

  /** The rules of a group, in table order. */
  method ApplyGroup(rules: seq<CompiledRule>, data: array<bv8>, runtime: array<Runtime>, inputs: Inputs)
    returns (applied: nat)
    requires data.Length == 8 && AllWell(rules) && (data as object) != runtime
    modifies data, runtime
    ensures AllAcceptable(rules)
    ensures Effect(data[..], runtime[..]) == ApplyAll(rules, Effect(old(data[..]), old(runtime[..])), inputs)
    ensures applied == Applied(rules, old(runtime[..]), inputs)
  {
    hide ApplyRule, Runs, WellCompiled, Acceptable;
    ghost var start := Effect(data[..], runtime[..]);
    applied := 0;
    var i := 0;
    while i < |rules|
      invariant i <= |rules| && AllAcceptable(rules[..i])
      invariant Effect(data[..], runtime[..]) == ApplyAll(rules[..i], start, inputs)
      invariant applied == Applied(rules[..i], start.runtime, inputs)
    {
      GroupStep(rules, i, start, inputs);
      var ran := ApplyOne(rules[i], data, runtime, inputs);
      if ran { applied := applied + 1; }
      i := i + 1;
    }
    assert rules[..i] == rules;
  }

  lemma ProgramsWell(a: seq<StagedRule>, key: RuleKey, reg: Registry)
    requires forall i :: 0 <= i < |a| ==> Acceptable(a[i].request)
    ensures AllWell(CompiledFor(a, key, reg))
  {
    RulesForAuthored(a, key);
    var es := RulesFor(a, key);
    forall i | 0 <= i < |es| ensures WellCompiled(CompiledFor(a, key, reg)[i]) {
      assert es[i].rule in a;
      CompiledIsWell(es[i].rule, es[i].priority, reg);
    }
  }
}
