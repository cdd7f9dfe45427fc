/** What the active rules do to one frame (`applyFrameMutations` and the per-kind rule bodies of
    core/mutation_engine.cpp), as functions of the compiled rules, the runtime slots and the
    application inputs. */
module FrameEffect {
  import opened Types
  import opened BitLayout
  import opened SignalCodec
  import opened Rules
  import opened Crc

  /** The per-rule state that survives between frames. */
  datatype Runtime = Runtime(value: U32, enabled: bool)

  /** Everything a source-fed rule reads besides its stored value. */
  datatype Feed = Feed(valueIndex: int, tableIndex: int, overrideActiveIndex: int, overrideValueIndex: int,
                       selector: nat, scaling: Scaling, width: nat, stored: U32)

  /** Application values seen by one frame: a selector index reads as 0..15 or is unusable, and a
      source-fed rule produces a value or leaves the frame alone. */
  datatype Inputs = Inputs(selector: nat -> Option<nat>, output: Feed -> Option<U32>)

  datatype Effect = Effect(data: Payload, runtime: seq<Runtime>)

  /** The selector value with which a rule runs, or nothing when its gate is closed. */
  function Selected(c: CompiledRule, inputs: Inputs): Option<nat> {
    if c.selectorIndex < 0 then Some(0)
    else match inputs.selector(c.selectorIndex)
      case None => None
      case Some(s) => if s in c.source.selectorActive then Some(s) else None
  }

  function CounterNext(r: RuleRequest, current: U32): U32 {
    if current >= r.counterWrapAfter then r.counterWrapTo
    else (current + r.counterStep) % 0x1_0000_0000
  }

  function XorOver(data: seq<bv8>, from: nat, end: nat, seed: bv8): bv8
    requires end <= |data|
    decreases end
  {
    if from >= end then seed else XorOver(data, from, end - 1, seed) ^ data[end - 1]
  }

  function CrcOver(data: seq<bv8>, from: nat, end: nat): bv8
    requires end <= |data|
    decreases end
  {
    if from >= end then 0xFF else CrcUpdate(CrcOver(data, from, end - 1), data[end - 1])
  }

  function LowNibble(b: bv8): (r: nat)
    ensures r < 16
  {
    (b & 0x0F) as nat
  }

  /** The register behind the protected bytes and the counter-selected data identifier */
  function CrcRegister(r: RuleRequest, data: Payload): bv8
    requires r.checksumEnd < 8 && r.checksumCounter < 8
  {
    CrcUpdate(CrcOver(data, r.checksumStart, r.checksumEnd + 1),
              r.sequenceValues[LowNibble(data[r.checksumCounter])])
  }

  /** CRC-8/AUTOSAR of the protected bytes followed by the counter-selected data identifier. */
  function AutosarCrc(r: RuleRequest, data: Payload): bv8
    requires r.checksumEnd < 8 && r.checksumCounter < 8
  {
    CrcRegister(r, data) ^ 0xFF
  }

  function WriteField(data: Payload, c: CompiledRule, value: nat): Payload
    requires Acceptable(c.source) && c.source.HasField()
  {
    PutField(data, c.source.Field(), Saturated(value, c.source.bitLength))
  }

  /** The value a source-fed rule writes: the stored one when it has no source. */
  function DynamicOutput(c: CompiledRule, selector: nat, stored: U32, inputs: Inputs): Option<U32> {
    if c.valueIndex < 0 then Some(stored)
    else inputs.output(Feed(c.valueIndex, c.tableIndex, c.overrideActiveIndex, c.overrideValueIndex,
                            selector, c.source.scaling, c.source.bitLength, stored))
  }

  /** One enabled rule whose gate is open with `selector`. */
  function RunRule(c: CompiledRule, selector: nat, data: Payload, stored: U32, inputs: Inputs): (Payload, U32)
    requires Acceptable(c.source)
  {
    var r := c.source;
    match r.kind
    case Counter => (WriteField(data, c, stored), CounterNext(r, stored))
    case Sequence8 =>
      (WriteField(data, c, r.sequenceValues[stored % r.sequenceCount] as nat),
       (stored % r.sequenceCount + 1) % r.sequenceCount)
    case ChecksumXor =>
      (data[r.checksumTarget := XorOver(data, r.checksumStart, r.checksumEnd + 1, r.checksumSeed)], stored)
    case ChecksumCrc8 => (data[r.checksumTarget := AutosarCrc(r, data)], stored)
    case RawMask => (Masked(data, c.clearMask, c.setBits), stored)
    case BitRange =>
      if !r.dynamicValue then (PutField(data, r.Field(), r.replaceValue), stored)
      else match DynamicOutput(c, selector, stored, inputs)
        case None => (data, stored)
        case Some(v) => (WriteField(data, c, v), stored)
  }

  predicate Runs(c: CompiledRule, runtime: seq<Runtime>, inputs: Inputs) {
    c.ruleId < |runtime| && runtime[c.ruleId].enabled && Selected(c, inputs).Some?
  }

  function ApplyRule(c: CompiledRule, e: Effect, inputs: Inputs): (r: Effect)
    requires Acceptable(c.source)
    ensures |r.runtime| == |e.runtime|
  {
    if !Runs(c, e.runtime, inputs) then e
    else
      var (data, next) := RunRule(c, Selected(c, inputs).value, e.data, e.runtime[c.ruleId].value, inputs);
      Effect(data, e.runtime[c.ruleId := e.runtime[c.ruleId].(value := next)])
  }

  ghost predicate AllAcceptable(rules: seq<CompiledRule>) {
    forall i :: 0 <= i < |rules| ==> Acceptable(rules[i].source)
  }

  ghost function ApplyAll(rules: seq<CompiledRule>, e: Effect, inputs: Inputs): (r: Effect)
    requires AllAcceptable(rules)
    ensures |r.runtime| == |e.runtime|
  {
    if rules == [] then e
    else ApplyRule(rules[|rules| - 1], ApplyAll(rules[..|rules| - 1], e, inputs), inputs)
  }

  // ---------------------------------------------------------------- what rules leave alone

  /** Frames never switch rules on or off and never touch the slot of an absent rule. */
  lemma {:induction false} FramesKeepSwitches(rules: seq<CompiledRule>, e: Effect, inputs: Inputs, i: nat)
    requires AllAcceptable(rules) && i < |e.runtime|
    ensures ApplyAll(rules, e, inputs).runtime[i].enabled == e.runtime[i].enabled
    ensures (forall k :: 0 <= k < |rules| ==> rules[k].ruleId != i) ==>
      ApplyAll(rules, e, inputs).runtime[i] == e.runtime[i]
  {
    if rules != [] { FramesKeepSwitches(rules[..|rules| - 1], e, inputs, i); }
  }

  /** The bits a rule may write. */
  predicate Owns(c: CompiledRule, p: nat)
    requires p < 64
  {
    match c.source.kind
    case RawMask => !FrameBit(c.clearMask, p) || FrameBit(c.setBits, p)
    case ChecksumXor => p / 8 == c.source.checksumTarget
    case ChecksumCrc8 => p / 8 == c.source.checksumTarget
    case _ => InField(c.source.Field(), p)
  }

  lemma RuleOwnsItsChanges(c: CompiledRule, selector: nat, data: Payload, stored: U32, inputs: Inputs, p: nat)
    requires Acceptable(c.source) && p < 64 && !Owns(c, p)
    ensures FrameBit(RunRule(c, selector, data, stored, inputs).0, p) == FrameBit(data, p)
  {
    hide FrameBit, Masked, PutField, InField, Saturated, AutosarCrc, XorOver;
    match c.source.kind
    case RawMask => MaskKeeps(data, c.clearMask, c.setBits, p);
    case ChecksumXor =>
      var r := c.source;
      TargetKeeps(data, r.checksumTarget, XorOver(data, r.checksumStart, r.checksumEnd + 1, r.checksumSeed), p);
    case ChecksumCrc8 => TargetKeeps(data, c.source.checksumTarget, AutosarCrc(c.source, data), p);
    case _ => FieldKeeps(data, c, p);
  }

  /** Masks keep the bits they neither clear nor set. */
  lemma MaskKeeps(data: Payload, clear: Payload, set_: Payload, p: nat)
    requires p < 64 && FrameBit(clear, p) && !FrameBit(set_, p)
    ensures FrameBit(Masked(data, clear, set_), p) == FrameBit(data, p)
  {
    var i := p / 8;
    hide TestBit;
    AndBit(data[i], clear[i], p % 8);
    OrBit(data[i] & clear[i], set_[i], p % 8);
  }

  lemma AndFrameBit(a: Payload, b: Payload, p: nat)
    requires p < 64
    ensures FrameBit(AndBytes(a, b), p) <==> FrameBit(a, p) && FrameBit(b, p)
  {
    hide TestBit;
    AndBit(a[p / 8], b[p / 8], p % 8);
  }

  /** A mask rule puts its value where its mask is set and keeps every other bit. */
  lemma MaskRuleShows(s: StagedRule, priority: nat, reg: Registry, selector: nat, data: Payload, stored: U32,
                      inputs: Inputs, p: nat)
    requires Acceptable(s.request) && s.request.kind.RawMask? && p < 64
    ensures FrameBit(RunRule(CompiledOf(s, priority, reg), selector, data, stored, inputs).0, p) ==
      if FrameBit(s.request.mask, p) then FrameBit(s.request.value, p) else FrameBit(data, p)
  {
    hide FrameBit, Masked, Complement, AndBytes;
    var r := s.request;
    MaskedBit(data, r.mask, AndBytes(r.value, r.mask), p);
    AndFrameBit(r.value, r.mask, p);
  }

  lemma TargetKeeps(data: Payload, target: nat, v: bv8, p: nat)
    requires p < 64 && target < 8 && p / 8 != target
    ensures FrameBit(data[target := v], p) == FrameBit(data, p)
  {
  }

  /** A field write keeps the bits outside the field, whatever the value. */
  lemma FieldKeeps(data: Payload, c: CompiledRule, p: nat)
    requires p < 64 && !InField(c.source.Field(), p)
    ensures forall v: nat :: FrameBit(PutField(data, c.source.Field(), v), p) == FrameBit(data, p)
  {
    forall v: nat ensures FrameBit(PutField(data, c.source.Field(), v), p) == FrameBit(data, p) {
      hide PutField;
      assert IsWritten(data, PutField(data, c.source.Field(), v), c.source.Field(), v);
    }
  }

  // ---------------------------------------------------------------- what a rule does

  /** A rule leaves frame and slot alone when it is switched off, or when its selector cannot be read or
      is in none of its states; otherwise its body runs with that selector. */
  lemma GateDecides(c: CompiledRule, e: Effect, inputs: Inputs)
    requires Acceptable(c.source) && c.ruleId < |e.runtime|
    ensures var s, i := inputs.selector, c.selectorIndex;
      var was, after := e.runtime[c.ruleId], ApplyRule(c, e, inputs);
      && (!was.enabled || (i >= 0 && (s(i).None? || s(i).value !in c.source.selectorActive)) ==> after == e)
      && (was.enabled && i < 0 ==> after.data == RunRule(c, 0, e.data, was.value, inputs).0)
      && (was.enabled && i >= 0 && s(i).Some? && s(i).value in c.source.selectorActive ==>
            after.data == RunRule(c, s(i).value, e.data, was.value, inputs).0)
  {
    hide Acceptable, RunRule;
  }

  /** A bit range shows its replacement value, its live value when it is dynamic, or what its source
      yields, cut to the largest value of the field; nothing is written when the source yields nothing. */
  lemma BitRangeShows(c: CompiledRule, selector: nat, data: Payload, stored: U32, inputs: Inputs)
    requires Acceptable(c.source) && c.source.kind.BitRange?
    ensures var out, f := RunRule(c, selector, data, stored, inputs).0, c.source.Field();
      var fed := DynamicOutput(c, selector, stored, inputs);
      && (!c.source.dynamicValue ==> IsWritten(data, out, f, c.source.replaceValue))
      && (c.source.dynamicValue && c.valueIndex < 0 ==> IsWritten(data, out, f, Least(stored, Pow2(f.length) - 1)))
      && (c.source.dynamicValue && fed.Some? ==> IsWritten(data, out, f, Least(fed.value, Pow2(f.length) - 1)))
      && (c.source.dynamicValue && fed.None? ==> out == data)
  {
    hide Acceptable, PutField, IsWritten, InField;
  }

  function Least(a: nat, b: nat): nat {
    if a < b then a else b
  }

  /** From rule `n` on: a frame bit that no later running rule owns keeps the value it had there. */
  lemma {:induction false} LaterBitsKept(rules: seq<CompiledRule>, n: nat, e: Effect, inputs: Inputs, p: nat)
    requires AllAcceptable(rules) && n <= |rules| && p < 64
    requires forall i :: n <= i < |rules| && Runs(rules[i], e.runtime, inputs) ==> !Owns(rules[i], p)
    ensures AllAcceptable(rules[..n])
    ensures FrameBit(ApplyAll(rules, e, inputs).data, p) == FrameBit(ApplyAll(rules[..n], e, inputs).data, p)
  {
    if n == |rules| {
      assert rules[..n] == rules;
    } else {
      var init, c := rules[..|rules| - 1], rules[|rules| - 1];
      LaterBitsKept(init, n, e, inputs, p);
      assert init[..n] == rules[..n];
      LastKeeps(init, c, e, inputs, p);
    }
  }

  lemma LastKeeps(init: seq<CompiledRule>, c: CompiledRule, e: Effect, inputs: Inputs, p: nat)
    requires AllAcceptable(init) && Acceptable(c.source) && p < 64
    requires Runs(c, e.runtime, inputs) ==> !Owns(c, p)
    ensures var mid := ApplyAll(init, e, inputs);
      FrameBit(ApplyRule(c, mid, inputs).data, p) == FrameBit(mid.data, p)
  {
    hide Acceptable, RunRule, Selected, FrameBit, Owns;
    var mid := ApplyAll(init, e, inputs);
    if Runs(c, mid.runtime, inputs) {
      FramesKeepSwitches(init, e, inputs, c.ruleId);
      RuleOwnsItsChanges(c, Selected(c, inputs).value, mid.data, mid.runtime[c.ruleId].value, inputs, p);
    }
  }

  /** A frame bit that no running rule owns keeps its received value. */
  lemma UnownedBitsKept(rules: seq<CompiledRule>, e: Effect, inputs: Inputs, p: nat)
    requires AllAcceptable(rules) && p < 64
    requires forall i :: 0 <= i < |rules| && Runs(rules[i], e.runtime, inputs) ==> !Owns(rules[i], p)
    ensures FrameBit(ApplyAll(rules, e, inputs).data, p) == FrameBit(e.data, p)
  {
    LaterBitsKept(rules, 0, e, inputs, p);
  }

  // ---------------------------------------------------------------- switches live in the runtime slots

  /** Equal except for the enable flag that was current when the rule was compiled. */
  predicate SameProgram(c: CompiledRule, d: CompiledRule) {
    c.(source := c.source.(enabled := true)) == d.(source := d.source.(enabled := true))
  }

  ghost predicate SamePrograms(cs: seq<CompiledRule>, ds: seq<CompiledRule>) {
    |cs| == |ds| && forall i :: 0 <= i < |cs| ==> SameProgram(cs[i], ds[i])
  }

  lemma SameFeed(c: CompiledRule, d: CompiledRule, selector: nat, stored: U32, inputs: Inputs)
    requires c == d.(source := d.source.(enabled := c.source.enabled))
    ensures DynamicOutput(c, selector, stored, inputs) == DynamicOutput(d, selector, stored, inputs)
    ensures CounterNext(c.source, stored) == CounterNext(d.source, stored)
    ensures c.source.Field() == d.source.Field()
    ensures forall data: Payload :: c.source.checksumEnd < 8 && c.source.checksumCounter < 8 ==>
      AutosarCrc(c.source, data) == AutosarCrc(d.source, data)
  {
    hide CrcUpdate, CrcOver, LowNibble;
  }

  /** The body of a rule does not read its compiled enable flag. */
  lemma ProgramRuns(c: CompiledRule, d: CompiledRule, selector: nat, data: Payload, stored: U32, inputs: Inputs)
    requires Acceptable(c.source) && c == d.(source := d.source.(enabled := c.source.enabled))
    ensures Acceptable(d.source)
    ensures RunRule(c, selector, data, stored, inputs) == RunRule(d, selector, data, stored, inputs)
  {
    hide PutField, Saturated, XorOver, AutosarCrc, LowNibble, Masked, DynamicOutput, CounterNext;
    SameFeed(c, d, selector, stored, inputs);
    assert c.source.Field() == d.source.Field();
  }

  lemma ProgramDecides(c: CompiledRule, d: CompiledRule, e: Effect, inputs: Inputs)
    requires Acceptable(c.source) && Acceptable(d.source) && SameProgram(c, d)
    ensures ApplyRule(c, e, inputs) == ApplyRule(d, e, inputs)
  {
    hide Acceptable, RunRule;
    assert c == d.(source := d.source.(enabled := c.source.enabled)) by {
      assert c.(source := c.source.(enabled := true)).source == d.(source := d.source.(enabled := true)).source;
    }
    assert Selected(c, inputs) == Selected(d, inputs);
    if Runs(c, e.runtime, inputs) {
      ProgramRuns(c, d, Selected(c, inputs).value, e.data, e.runtime[c.ruleId].value, inputs);
    }
  }

  lemma {:induction false} ProgramsDecide(cs: seq<CompiledRule>, ds: seq<CompiledRule>, e: Effect, inputs: Inputs)
    requires AllAcceptable(cs) && AllAcceptable(ds) && SamePrograms(cs, ds)
    ensures ApplyAll(cs, e, inputs) == ApplyAll(ds, e, inputs)
  {
    if cs != [] {
      ProgramsDecide(cs[..|cs| - 1], ds[..|ds| - 1], e, inputs);
      ProgramDecides(cs[|cs| - 1], ds[|ds| - 1], ApplyAll(cs[..|cs| - 1], e, inputs), inputs);
    }
  }
}
