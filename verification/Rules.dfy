/** Rule requests, their validation and identity, and the compilation of one rule
    (core/mutation_engine.hpp and `normalizeRule`, `findStagedIdentity`, `compileRule` of
    core/mutation_engine.cpp). */
module Rules {
  import opened Types
  import opened BitLayout
  import opened SignalCodec

  const MAX_RULES := 96
  const MAX_INDEX := 0x7FFF

  datatype RuleKind = BitRange | RawMask | Counter | ChecksumXor | Sequence8 | ChecksumCrc8

  /** Gains, thresholds and selector outputs of an application-fed rule; carried, never inspected. */
  datatype Scaling = Scaling(
    sourceGain: real, sourceOffset: real, outputScale: real, outputOffset: real,
    truncateAffine: bool, truncateOutput: bool,
    zeroOverride: bool, zeroThreshold: real, zeroOutput: U32,
    fullOverride: bool, fullThreshold: real, fullOutput: U32,
    selectorMapsOutput: bool, selectorDirect: set<nat>,
    selectorScale: seq<real>, selectorFull: seq<U32>, selectorOutput: seq<U32>)

  type Sixteen = s: seq<bv8> | |s| == 16 witness [0, 0, 0, 0, 0, 0, 0, 0, 0, 0, 0, 0, 0, 0, 0, 0]

  /** An empty string is an unset name. */
  datatype RuleRequest = RuleRequest(
    kind: RuleKind, canId: U32, direction: Direction, enabled: bool,
    startBit: nat, bitLength: nat, littleEndian: bool, dynamicValue: bool, replaceValue: nat,
    valueSource: string, lookupTable: string, overrideActive: string, overrideValue: string,
    selectorSource: string, selectorActive: set<nat>, scaling: Scaling,
    mask: Payload, value: Payload,
    counterInitial: U32, counterStep: U32, counterWrapAfter: U32, counterWrapTo: U32,
    checksumTarget: nat, checksumStart: nat, checksumEnd: nat, checksumSeed: bv8, checksumCounter: nat,
    sequenceValues: Sixteen, sequenceCount: nat, sequenceInitial: nat)
  {
    function Field(): BitLayout.Field {
      BitLayout.Field(startBit, bitLength, littleEndian)
    }

    function Key(): RuleKey {
      RuleKey(canId, direction)
    }

    predicate HasField() {
      kind.BitRange? || kind.Counter? || kind.Sequence8?
    }

    /** The field's value comes from runtime state, not from `replaceValue`. */
    predicate RuntimeBits() {
      HasField() && (dynamicValue || kind.Counter? || kind.Sequence8?)
    }
  }

  /** Rules that apply to the same frames. */
  datatype RuleKey = RuleKey(canId: U32, direction: Direction)

  /** `normalizeRule`: what the engine accepts into the candidate. */
  predicate Acceptable(r: RuleRequest) {
    && r.canId <= 0x1FFF_FFFF
    && match r.kind
       case RawMask => true
       case ChecksumXor =>
         r.checksumTarget < 8 && r.checksumStart < 8 && r.checksumEnd < 8 &&
         r.checksumStart <= r.checksumEnd
       case ChecksumCrc8 =>
         r.checksumTarget < 8 && r.checksumCounter < 8 && r.checksumStart < 8 && r.checksumEnd < 8 &&
         r.checksumStart <= r.checksumEnd && r.sequenceCount == 16
       case _ =>
         && Fits(r.Field())
         && (r.dynamicValue || r.kind.Counter? ==> r.bitLength <= 32)
         && (r.kind.Sequence8? ==>
              1 <= r.sequenceCount <= 16 && r.bitLength <= 8 &&
              r.sequenceInitial < r.sequenceCount)
         && (r.kind.BitRange? && r.bitLength < 64 ==> r.replaceValue < Pow2(r.bitLength))
  }

  /** `normalizeRule` with the source's tests in the source's order. */
  method NormalizeRule(r: RuleRequest) returns (ok: bool)
    ensures ok <==> Acceptable(r)
  {
    if r.canId > 0x1FFF_FFFF { return false; }
    if r.HasField() {
      if r.bitLength < 1 || r.bitLength > 64 { return false; }
      if r.startBit > 63 { return false; }
      if (r.dynamicValue || r.kind.Counter?) && r.bitLength > 32 { return false; }
      if r.kind.Sequence8? &&
         (r.sequenceCount == 0 || r.sequenceCount > 16 || r.bitLength > 8 ||
          r.sequenceInitial >= r.sequenceCount) { return false; }
      if r.startBit + r.bitLength > 64 && r.littleEndian { return false; }
      if r.kind.BitRange? && r.bitLength < 64 && r.replaceValue >= Pow2(r.bitLength) { return false; }
      var testMask, testValue := new bv8[8], new bv8[8];
      ok := BuildBitMaskAndValue(r.Field(), r.replaceValue, testMask, testValue);
      return;
    }
    if r.kind.RawMask? { return true; }
    if r.kind.ChecksumXor? {
      return r.checksumTarget < 8 && r.checksumStart < 8 && r.checksumEnd < 8 &&
             r.checksumStart <= r.checksumEnd;
    }
    return r.checksumTarget < 8 && r.checksumCounter < 8 && r.checksumStart < 8 && r.checksumEnd < 8 &&
           r.checksumStart <= r.checksumEnd && r.sequenceCount == 16;
  }

  /** Two requests that occupy the same candidate slot (`findStagedIdentity`, and
      `rule_identity` of tools/preview_ui.py). */
  predicate SameIdentity(a: RuleRequest, b: RuleRequest) {
    && a.kind == b.kind && a.Key() == b.Key()
    && (a.HasField() ==>
         a.startBit == b.startBit && a.bitLength == b.bitLength &&
         a.littleEndian == b.littleEndian && a.dynamicValue == b.dynamicValue)
    && (a.kind.ChecksumXor? || a.kind.ChecksumCrc8? ==> a.checksumTarget == b.checksumTarget)
  }

  // ---------------------------------------------------------------- staged rules

  datatype StagedRule = StagedRule(
    inUse: bool, ruleId: nat, sequence: nat,
    pendingValue: U32, pendingEnabled: bool, publish: bool,
    request: RuleRequest)

  // ---------------------------------------------------------------- compiled rules

  /** Names an application has published, with the index each one was given. */
  datatype Registry = Registry(values: map<string, nat>, tables: map<string, nat>)

  predicate Found(m: map<string, nat>, name: string) {
    name in m && m[name] <= MAX_INDEX
  }

  /** Every runtime name the rule uses is published (`compileRule`'s only other failures are
      layouts that `normalizeRule` already refused). */
  predicate Resolves(r: RuleRequest, reg: Registry) {
    && (r.selectorSource != "" ==> Found(reg.values, r.selectorSource))
    && (r.RuntimeBits() ==>
         && (r.valueSource != "" ==> Found(reg.values, r.valueSource))
         && (r.lookupTable != "" ==> Found(reg.tables, r.lookupTable))
         && (r.overrideActive != "" || r.overrideValue != "" ==>
              r.overrideActive != "" && r.overrideValue != "" &&
              Found(reg.values, r.overrideActive) && Found(reg.values, r.overrideValue)))
  }

  datatype CompiledRule = CompiledRule(
    ruleId: nat, priority: nat, source: RuleRequest,
    clearMask: Payload, setBits: Payload, positions: seq<nat>,
    valueIndex: int, tableIndex: int, overrideActiveIndex: int, overrideValueIndex: int,
    selectorIndex: int)

  function IndexOf(m: map<string, nat>, name: string): int {
    if name != "" && name in m then m[name] else -1
  }

  function AndBytes(a: seq<bv8>, b: seq<bv8>): (r: seq<bv8>)
    requires |a| == 8 && |b| == 8
    ensures |r| == 8
  {
    seq(8, i requires 0 <= i < 8 => a[i] & b[i])
  }

  /** What `compileRule` produces for an acceptable rule whose names resolve. */
  function CompiledOf(s: StagedRule, priority: nat, reg: Registry): CompiledRule
    requires Acceptable(s.request)
  {
    var r := s.request;
    var runtime := r.RuntimeBits();
    CompiledRule(
      s.ruleId, priority, r,
      if r.kind.RawMask? then Complement(r.mask)
      else if r.HasField() then Complement(FieldMask(r.Field())) else NO_CLEAR,
      if r.kind.RawMask? then AndBytes(r.value, r.mask)
      else if r.HasField() && !runtime then FieldValue(r.Field(), r.replaceValue) else NO_SET,
      if runtime then Positions(r.Field()) else [],
      if runtime then IndexOf(reg.values, r.valueSource) else -1,
      if runtime then IndexOf(reg.tables, r.lookupTable) else -1,
      if runtime then IndexOf(reg.values, r.overrideActive) else -1,
      if runtime then IndexOf(reg.values, r.overrideValue) else -1,
      IndexOf(reg.values, r.selectorSource))
  }

  /** The published values and tables a rule reads at run time. */
  function UsedValues(r: RuleRequest): set<string> {
    (if r.selectorSource != "" then {r.selectorSource} else {}) +
    (if r.RuntimeBits() && r.valueSource != "" then {r.valueSource} else {}) +
    (if r.RuntimeBits() && r.overrideActive != "" then {r.overrideActive} else {}) +
    (if r.RuntimeBits() && r.overrideValue != "" then {r.overrideValue} else {})
  }

  function UsedTables(r: RuleRequest): set<string> {
    if r.RuntimeBits() && r.lookupTable != "" then {r.lookupTable} else {}
  }

  /** A rule resolves exactly when each of them is published under an index of at most 0x7FFF and an
      override has both its names. */
  lemma ResolvesMeans(r: RuleRequest, reg: Registry)
    ensures Resolves(r, reg) <==>
      && (forall n :: n in UsedValues(r) ==> n in reg.values && reg.values[n] <= 0x7FFF)
      && (forall n :: n in UsedTables(r) ==> n in reg.tables && reg.tables[n] <= 0x7FFF)
      && (r.RuntimeBits() ==> (r.overrideActive == "" <==> r.overrideValue == ""))
  {
  }

  /** A compiled rule refers to what it names by the published index, and to nothing by -1. */
  lemma IndicesArePublished(s: StagedRule, priority: nat, reg: Registry)
    requires Acceptable(s.request) && Resolves(s.request, reg)
    ensures var r, c := s.request, CompiledOf(s, priority, reg);
      && c.ruleId == s.ruleId && c.source == r
      && c.selectorIndex == (if r.selectorSource != "" then reg.values[r.selectorSource] else -1)
      && c.valueIndex == (if r.RuntimeBits() && r.valueSource != "" then reg.values[r.valueSource] else -1)
      && c.tableIndex == (if r.RuntimeBits() && r.lookupTable != "" then reg.tables[r.lookupTable] else -1)
      && c.overrideActiveIndex ==
           (if r.RuntimeBits() && r.overrideActive != "" then reg.values[r.overrideActive] else -1)
      && c.overrideValueIndex ==
           (if r.RuntimeBits() && r.overrideValue != "" then reg.values[r.overrideValue] else -1)
  {
    hide Acceptable, FieldMask, FieldValue, Positions;
  }

  const NO_CLEAR: Payload := [0xFF, 0xFF, 0xFF, 0xFF, 0xFF, 0xFF, 0xFF, 0xFF]
  const NO_SET: Payload := [0, 0, 0, 0, 0, 0, 0, 0]

  lemma ZeroValue(f: BitLayout.Field)
    ensures FieldValue(f, 0) == NO_SET
  {
    forall p | 0 <= p < 64 ensures FrameBit(FieldValue(f, 0), p) == FrameBit(NO_SET, p) {
      FieldValueBit(f, 0, p);
      ZeroBits(if RawIndex(f, p) >= 0 then RawIndex(f, p) else 0);
      NoBits(p % 8);
    }
    FrameExtensional(FieldValue(f, 0), NO_SET);
  }

  /** `compileRule`: fails exactly when a runtime name does not resolve. */
  method CompileRule(s: StagedRule, priority: nat, reg: Registry) returns (r: Option<CompiledRule>)
    requires Acceptable(s.request)
    ensures r.Some? <==> Resolves(s.request, reg)
    ensures r.Some? ==> r.value == CompiledOf(s, priority, reg)
  {
    var q := s.request;
    var out := CompiledRule(s.ruleId, priority, q, NO_CLEAR, NO_SET, [], -1, -1, -1, -1, -1);
    if q.selectorSource != "" {
      var index := IndexOf(reg.values, q.selectorSource);
      if index < 0 || index > MAX_INDEX { return None; }
      out := out.(selectorIndex := index);
    }
    if q.kind.RawMask? {
      return Some(out.(clearMask := Complement(q.mask),
                       setBits := AndBytes(q.value, q.mask)));
    }
    if q.kind.ChecksumXor? || q.kind.ChecksumCrc8? { return Some(out); }
    var runtimeBits := q.dynamicValue || q.kind.Counter? || q.kind.Sequence8?;
    var clear, set_ := CompileMasks(q.Field(), if runtimeBits then 0 else q.replaceValue);
    out := out.(clearMask := clear, setBits := set_);
    if !runtimeBits { return Some(out); }
    ZeroValue(q.Field());
    var ok, valueIndex, tableIndex, overrideActiveIndex, overrideValueIndex := ResolveRuntime(q, reg);
    if !ok { return None; }
    var positions := new nat[32];
    ok := BuildDynamicBitPositions(q.Field(), positions);
    if !ok { return None; }
    return Some(out.(valueIndex := valueIndex, tableIndex := tableIndex,
                     overrideActiveIndex := overrideActiveIndex, overrideValueIndex := overrideValueIndex,
                     positions := positions[..q.bitLength]));
  }

  method CompileMasks(f: BitLayout.Field, raw: nat) returns (clear: Payload, set_: Payload)
    requires Fits(f)
    ensures clear == Complement(FieldMask(f)) && set_ == FieldValue(f, raw)
  {
    var bitMask, bitValue := new bv8[8], new bv8[8];
    var built := BuildBitMaskAndValue(f, raw, bitMask, bitValue);
    MaskedValue(f, raw);
    clear, set_ := Complement(bitMask[..]), AndBytes(bitValue[..], bitMask[..]);
  }

  /** The four optional runtime bindings of a rule whose bits come from runtime state. */
  method ResolveRuntime(q: RuleRequest, reg: Registry)
    returns (ok: bool, valueIndex: int, tableIndex: int, overrideActiveIndex: int, overrideValueIndex: int)
    requires q.RuntimeBits()
    ensures (q.selectorSource == "" || Found(reg.values, q.selectorSource)) && ok ==> Resolves(q, reg)
    ensures Resolves(q, reg) ==> ok
    ensures ok ==>
      && valueIndex == IndexOf(reg.values, q.valueSource)
      && tableIndex == IndexOf(reg.tables, q.lookupTable)
      && overrideActiveIndex == IndexOf(reg.values, q.overrideActive)
      && overrideValueIndex == IndexOf(reg.values, q.overrideValue)
  {
    valueIndex, tableIndex, overrideActiveIndex, overrideValueIndex := -1, -1, -1, -1;
    if q.valueSource != "" {
      valueIndex := IndexOf(reg.values, q.valueSource);
      if valueIndex < 0 || valueIndex > MAX_INDEX { return false, -1, -1, -1, -1; }
    }
    if q.lookupTable != "" {
      tableIndex := IndexOf(reg.tables, q.lookupTable);
      if tableIndex < 0 || tableIndex > MAX_INDEX { return false, -1, -1, -1, -1; }
    }
    if q.overrideActive != "" || q.overrideValue != "" {
      if q.overrideActive == "" || q.overrideValue == "" { return false, -1, -1, -1, -1; }
      overrideActiveIndex := IndexOf(reg.values, q.overrideActive);
      overrideValueIndex := IndexOf(reg.values, q.overrideValue);
      if overrideActiveIndex < 0 || overrideValueIndex < 0 ||
         overrideActiveIndex > MAX_INDEX || overrideValueIndex > MAX_INDEX { return false, -1, -1, -1, -1; }
    }
    ok := true;
  }

  lemma MaskedValue(f: BitLayout.Field, raw: nat)
    ensures AndBytes(FieldValue(f, raw), FieldMask(f)) == FieldValue(f, raw)
  {
    forall p | 0 <= p < 64 && FrameBit(FieldValue(f, raw), p) ensures FrameBit(FieldMask(f), p) {
      FieldValueBit(f, raw, p);
      FieldMaskBit(f, p);
    }
    SubsetFrame(FieldValue(f, raw), FieldMask(f));
  }

  lemma SubsetFrame(v: seq<bv8>, m: seq<bv8>)
    requires |v| == 8 && |m| == 8
    requires forall p :: 0 <= p < 64 && FrameBit(v, p) ==> FrameBit(m, p)
    ensures AndBytes(v, m) == v
  {
    forall i | 0 <= i < 8 ensures v[i] & m[i] == v[i] {
      forall k | 0 <= k < 8 && TestBit(v[i], k) ensures TestBit(m[i], k) {
        assert FrameBit(v, 8 * i + k) ==> FrameBit(m, 8 * i + k);
      }
      SubsetByte(v[i], m[i]);
    }
  }

  /** Names already published keep their index. */
  predicate Extends(later: Registry, earlier: Registry) {
    && (forall n :: n in earlier.values ==> n in later.values && later.values[n] == earlier.values[n])
    && (forall n :: n in earlier.tables ==> n in later.tables && later.tables[n] == earlier.tables[n])
  }

  /** A rule that resolved keeps its compiled form when more names are published. */
  lemma ResolvesLater(s: StagedRule, priority: nat, earlier: Registry, later: Registry)
    requires Acceptable(s.request)
    requires Extends(later, earlier) && Resolves(s.request, earlier)
    ensures Resolves(s.request, later)
    ensures CompiledOf(s, priority, later) == CompiledOf(s, priority, earlier)
  {
  }
}
