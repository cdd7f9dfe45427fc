/** The staging / committed / runtime state machine of core/mutation_engine.cpp: every API call as
    a function on the engine's state, and the invariant that all of them keep. */
module EngineState {
  import opened Types
  import opened BitLayout
  import opened Rules
  import opened CompileSpec
  import opened Compiler
  import opened FrameEffect

  const IDLE := Runtime(0, false)

  const NO_SCALING := Scaling(
    1.0, 0.0, 1.0, 0.0, false, false, false, 0.0, 0, false, 100.0, 0, false, {}, [], [], [])

  const NO_REQUEST := RuleRequest(
    BitRange, 0, AToB, true, 0, 1, true, false, 0, "", "", "", "", "", {}, NO_SCALING,
    NO_SET, NO_SET, 0, 1, 0xFFFF_FFFF, 0, 0, 0, 7, 0, 1,
    [0, 0, 0, 0, 0, 0, 0, 0, 0, 0, 0, 0, 0, 0, 0, 0], 0, 0)

  /** `staged_[i] = {}` */
  const BLANK := StagedRule(false, 0xFFFF, 0, 0, false, false, NO_REQUEST)

  /** `installed` and `registry` are what the active table was compiled from. */
  datatype Engine = Engine(
    staged: seq<StagedRule>, count: nat, dirty: bool,
    committed: seq<StagedRule>, runtime: seq<Runtime>,
    epoch: U32, nextSequence: U32,
    installed: seq<StagedRule>, registry: Registry)

  function Blanks(): (r: seq<StagedRule>)
    ensures |r| == MAX_RULES
  {
    seq(MAX_RULES, _ => BLANK)
  }

  function Init(): Engine {
    Engine(Blanks(), 0, false, [], seq(MAX_RULES, _ => IDLE), 1, 1, [], Registry(map[], map[]))
  }

  /** A rule stores the low 16 bits of its sequence number. */
  const BLOCK := 0x1_0000

  /** Epochs and sequence counters wrap to 1: zero is never issued. */
  function Advance(n: U32): U32 {
    if n == 0xFFFF_FFFF then 1 else n + 1
  }

  // ---------------------------------------------------------------- the committed rule of a slot

  function Shadow(committed: seq<StagedRule>, id: nat): (r: Option<StagedRule>)
    ensures r.Some? ==> r.value.ruleId == id && r.value in committed
  {
    if committed == [] then None
    else if committed[|committed| - 1].ruleId == id then Some(committed[|committed| - 1])
    else Shadow(committed[..|committed| - 1], id)
  }

  ghost predicate DistinctIds(c: seq<StagedRule>) {
    forall i, j :: 0 <= i < j < |c| ==> c[i].ruleId != c[j].ruleId
  }

  lemma {:induction false} ShadowAt(c: seq<StagedRule>, k: nat)
    requires DistinctIds(c) && k < |c|
    ensures Shadow(c, c[k].ruleId) == Some(c[k])
  {
    if k < |c| - 1 { ShadowAt(c[..|c| - 1], k); }
  }

  lemma {:induction false} NoShadow(c: seq<StagedRule>, id: nat)
    ensures Shadow(c, id).None? <==> forall k :: 0 <= k < |c| ==> c[k].ruleId != id
  {
    if c != [] { NoShadow(c[..|c| - 1], id); }
  }

  /** A live adjustment: a runtime value or an enable switch. */
  datatype Change = Value(value: U32) | Switch(on: bool)

  function Changed(s: StagedRule, ch: Change): StagedRule {
    match ch
    case Value(v) => s.(pendingValue := v)
    case Switch(on) => s.(pendingEnabled := on, request := s.request.(enabled := on))
  }

  function ChangedRuntime(r: Runtime, ch: Change): Runtime {
    match ch
    case Value(v) => r.(value := v)
    case Switch(on) => r.(enabled := on)
  }

  /** The committed shadow with one slot adjusted */
  function ChangeSlot(c: seq<StagedRule>, id: nat, ch: Change): (r: seq<StagedRule>)
    ensures |r| == |c|
  {
    seq(|c|, k requires 0 <= k < |c| => if c[k].ruleId == id then Changed(c[k], ch) else c[k])
  }

  lemma {:induction false} ShadowChanged(c: seq<StagedRule>, id: nat, ch: Change, i: nat)
    ensures Shadow(ChangeSlot(c, id, ch), i) ==
      match Shadow(c, i)
      case None => None
      case Some(s) => Some(if i == id then Changed(s, ch) else s)
  {
    if c != [] {
      ShadowChanged(c[..|c| - 1], id, ch, i);
      assert ChangeSlot(c, id, ch)[..|c| - 1] == ChangeSlot(c[..|c| - 1], id, ch);
    }
  }

  // ---------------------------------------------------------------- the invariant

  /** The candidate that a commit with nothing pending would leave: each committed rule in its slot. */
  function CandidateOf(committed: seq<StagedRule>): (r: seq<StagedRule>)
    ensures |r| == MAX_RULES
  {
    seq(MAX_RULES, i requires 0 <= i < MAX_RULES =>
      match Shadow(committed, i) case None => BLANK case Some(s) => s)
  }

  predicate StagedOk(s: StagedRule, i: nat) {
    if s.inUse then s.ruleId == i && Acceptable(s.request) && s.pendingEnabled == s.request.enabled
    else s == BLANK
  }

  predicate CommittedOk(c: StagedRule, runtime: Runtime) {
    && c.inUse && !c.publish && Acceptable(c.request)
    && c.pendingEnabled == c.request.enabled == runtime.enabled
  }

  /** One slot: what is staged, what is committed and what is live. */
  predicate SlotOk(s: StagedRule, shadow: Option<StagedRule>, runtime: Runtime, i: nat) {
    && StagedOk(s, i)
    && (s.inUse && !s.publish ==> shadow == Some(s))
    && (if shadow.Some? then CommittedOk(shadow.value, runtime) else runtime == IDLE)
  }

  ghost predicate SlotsOk(staged: seq<StagedRule>, committed: seq<StagedRule>, runtime: seq<Runtime>) {
    && |staged| == |runtime| == MAX_RULES
    && forall i {:trigger staged[i]} {:trigger runtime[i]} {:trigger Shadow(committed, i)} ::
         0 <= i < MAX_RULES ==> SlotOk(staged[i], Shadow(committed, i), runtime[i], i)
  }

  ghost predicate DistinctIdentities(staged: seq<StagedRule>) {
    forall i, j :: 0 <= i < j < |staged| && staged[i].inUse && staged[j].inUse ==>
      !SameIdentity(staged[i].request, staged[j].request)
  }

  function Used(staged: seq<StagedRule>): nat {
    if staged == [] then 0
    else Used(staged[..|staged| - 1]) + (if staged[|staged| - 1].inUse then 1 else 0)
  }

  /** Committed rules keep authoring order and distinct slots. */
  ghost predicate CommittedInOrder(committed: seq<StagedRule>) {
    && DistinctIds(committed) && Ascending(committed) && DistinctIdentities(committed)
    && forall k :: 0 <= k < |committed| ==> committed[k].ruleId < MAX_RULES
  }

  /** A rule without the parts that live adjustments change. */
  function Program(s: StagedRule): StagedRule {
    s.(pendingValue := 0, pendingEnabled := true, publish := false, request := s.request.(enabled := true))
  }

  ghost predicate SameRules(a: seq<StagedRule>, b: seq<StagedRule>) {
    |a| == |b| && forall k :: 0 <= k < |a| ==> Program(a[k]) == Program(b[k])
  }

  ghost predicate AllResolve(a: seq<StagedRule>, reg: Registry) {
    forall k :: 0 <= k < |a| ==> Resolves(a[k].request, reg)
  }

  ghost predicate RequestsOk(a: seq<StagedRule>) {
    forall k :: 0 <= k < |a| ==> Acceptable(a[k].request)
  }

  /** The active table runs the committed rules. */
  ghost predicate InstalledOk(e: Engine) {
    && SameRules(e.installed, e.committed) && RequestsOk(e.installed)
    && AllResolve(e.installed, e.registry)
  }

  ghost predicate Inv(e: Engine) {
    && SlotsOk(e.staged, e.committed, e.runtime)
    && DistinctIdentities(e.staged)
    && e.count == Used(e.staged)
    && (!e.dirty ==> e.staged == CandidateOf(e.committed))
    && CommittedInOrder(e.committed)
    && InstalledOk(e)
  }

  // ---------------------------------------------------------------- staging

  /** The slot already staging this identity, or the length when there is none. */
  function FirstIdentity(staged: seq<StagedRule>, r: RuleRequest, i: nat): (k: nat)
    requires i <= |staged|
    ensures i <= k <= |staged|
    ensures k < |staged| ==> staged[k].inUse && SameIdentity(staged[k].request, r)
    ensures forall j :: i <= j < k ==> !(staged[j].inUse && SameIdentity(staged[j].request, r))
    decreases |staged| - i
  {
    if i == |staged| || (staged[i].inUse && SameIdentity(staged[i].request, r)) then i
    else FirstIdentity(staged, r, i + 1)
  }

  function FirstFree(staged: seq<StagedRule>, i: nat): (k: nat)
    requires i <= |staged|
    ensures i <= k <= |staged|
    ensures k < |staged| ==> !staged[k].inUse
    ensures forall j :: i <= j < k ==> staged[j].inUse
    decreases |staged| - i
  {
    if i == |staged| || !staged[i].inUse then i else FirstFree(staged, i + 1)
  }

  /** `initialRuntimeValue` */
  function InitialValue(r: RuleRequest): U32 {
    if r.kind.BitRange? && r.dynamicValue then r.replaceValue % 0x1_0000_0000
    else if r.kind.Counter? then r.counterInitial
    else if r.kind.Sequence8? then r.sequenceInitial % 0x1_0000_0000
    else 0
  }

  /** A slot after staging `r` into it. */
  function StagedAs(slot: nat, sequence: nat, r: RuleRequest): StagedRule {
    StagedRule(true, slot, sequence, InitialValue(r), r.enabled, true, r)
  }

  function StageSlot(e: Engine, r: RuleRequest): (slot: nat)
    ensures slot <= |e.staged|
  {
    var same := FirstIdentity(e.staged, r, 0);
    if same < |e.staged| then same else FirstFree(e.staged, 0)
  }

  predicate CanStage(e: Engine, r: RuleRequest) {
    Acceptable(r) && StageSlot(e, r) < |e.staged|
  }

  /** `stageRule`: an identity already staged keeps its slot and its place in the order. */
  function Stage(e: Engine, r: RuleRequest): Engine {
    var slot := StageSlot(e, r);
    if !CanStage(e, r) then e
    else if e.staged[slot].inUse then
      e.(epoch := Advance(e.epoch), dirty := true,
         staged := e.staged[slot := StagedAs(slot, e.staged[slot].sequence, r)])
    else
      e.(epoch := Advance(e.epoch), dirty := true, count := e.count + 1,
         nextSequence := Advance(e.nextSequence),
         staged := e.staged[slot := StagedAs(slot, e.nextSequence % BLOCK, r)])
  }

  function Clear(e: Engine): Engine {
    e.(epoch := Advance(e.epoch), staged := Blanks(), count := 0, dirty := |e.installed| != 0)
  }

  function Revert(e: Engine): Engine {
    Clear(e).(staged := CandidateOf(e.committed), count := |e.committed|, dirty := false)
  }

  // ---------------------------------------------------------------- commit

  function Published(staged: seq<StagedRule>): (r: seq<StagedRule>)
    ensures |r| == |staged|
  {
    seq(|staged|, i requires 0 <= i < |staged| =>
      if staged[i].inUse then staged[i].(publish := false) else staged[i])
  }

  function PublishedSlot(s: StagedRule, runtime: Runtime): Runtime {
    if !s.inUse then IDLE
    else if s.publish then Runtime(s.pendingValue, s.pendingEnabled)
    else runtime
  }

  function PublishedRuntime(staged: seq<StagedRule>, runtime: seq<Runtime>): (r: seq<Runtime>)
    requires |staged| == |runtime|
    ensures |r| == |runtime|
  {
    seq(|staged|, i requires 0 <= i < |staged| => PublishedSlot(staged[i], runtime[i]))
  }

  /** The rules of the given slots, in that order. */
  function Pick(staged: seq<StagedRule>, ids: seq<nat>): (r: seq<StagedRule>)
    requires forall i :: 0 <= i < |ids| ==> ids[i] < |staged|
    ensures |r| == |ids|
  {
    seq(|ids|, i requires 0 <= i < |ids| => staged[ids[i]])
  }

  ghost predicate CommitSucceeds(e: Engine, reg: Registry) {
    AllResolve(Authored(e.staged), reg)
  }

  /** `applyCommit`: all or nothing. */
  ghost function Commit(e: Engine, reg: Registry): Engine
    requires |e.staged| == |e.runtime|
  {
    OrderIsOrder(e.staged);
    if !CommitSucceeds(e, reg) then e
    else e.(
      staged := Published(e.staged), runtime := PublishedRuntime(e.staged, e.runtime),
      committed := Pick(Published(e.staged), Order(e.staged)), dirty := false,
      epoch := Advance(e.epoch), installed := Authored(e.staged), registry := reg)
  }

  // ---------------------------------------------------------------- controls

  /** `runtimeValueFits` */
  predicate ValueFits(r: RuleRequest, v: U32) {
    if r.kind.BitRange? && r.dynamicValue then
      r.valueSource == "" && 1 <= r.bitLength <= 32 && v < Pow2(r.bitLength)
    else if r.kind.Counter? then 1 <= r.bitLength <= 32 && v < Pow2(r.bitLength)
    else if r.kind.Sequence8? then v < r.sequenceCount
    else false
  }

  predicate ChangeFits(r: RuleRequest, ch: Change) {
    ch.Value? ==> ValueFits(r, ch.value)
  }

  /** The candidate slot with a change applied; an unused slot stays unused. */
  function ChangeStaged(staged: seq<StagedRule>, id: nat, ch: Change): (r: seq<StagedRule>)
    requires id < |staged|
    ensures |r| == |staged|
  {
    if staged[id].inUse then staged[id := Changed(staged[id], ch)] else staged
  }

  /** A change that reaches the live slot and the committed shadow. */
  function ChangeLive(e: Engine, id: nat, ch: Change): Engine
    requires id < |e.staged| && id < |e.runtime|
  {
    e.(committed := ChangeSlot(e.committed, id, ch),
       runtime := e.runtime[id := ChangedRuntime(e.runtime[id], ch)])
  }

  /** `setRuleValue` and `enableRule`: with a publish pending in the slot they change the
      candidate only, otherwise the candidate, the shadow and the live slot together. */
  function Control(e: Engine, id: nat, ch: Change, expected: U32): Engine
    requires |e.staged| == |e.runtime|
  {
    if !CanControl(e, id, ch, expected) then e
    else
      var next := e.(staged := ChangeStaged(e.staged, id, ch));
      if e.staged[id].inUse && e.staged[id].publish then next else ChangeLive(next, id, ch)
  }

  predicate CanControl(e: Engine, id: nat, ch: Change, expected: U32) {
    && id < |e.staged| && expected == e.epoch
    && (if e.staged[id].inUse then ChangeFits(e.staged[id].request, ch)
        else Shadow(e.committed, id).Some? && ChangeFits(Shadow(e.committed, id).value.request, ch))
  }

  /** `setActiveRuleValue` and `setActiveRuleEnabled`: the live rule, and the candidate only
      where it mirrors the live rule. */
  function ControlActive(e: Engine, id: nat, ch: Change, expected: U32): Engine
    requires |e.staged| == |e.runtime|
  {
    if !CanControlActive(e, id, ch, expected) then e
    else
      var next := if e.staged[id].inUse && !e.staged[id].publish
                  then e.(staged := ChangeStaged(e.staged, id, ch)) else e;
      ChangeLive(next, id, ch)
  }

  predicate CanControlActive(e: Engine, id: nat, ch: Change, expected: U32) {
    && id < |e.staged| && expected == e.epoch
    && Shadow(e.committed, id).Some? && ChangeFits(Shadow(e.committed, id).value.request, ch)
  }

  /** `setStagedRuleValue` and `setStagedRuleEnabled`: the candidate only. */
  function ControlStaged(e: Engine, id: nat, ch: Change, expected: U32): Engine {
    if !CanControlStaged(e, id, ch, expected) then e
    else e.(staged := e.staged[id := Changed(e.staged[id], ch).(publish := true)], dirty := true)
  }

  predicate CanControlStaged(e: Engine, id: nat, ch: Change, expected: U32) {
    id < |e.staged| && expected == e.epoch && e.staged[id].inUse && ChangeFits(e.staged[id].request, ch)
  }

  // ---------------------------------------------------------------- frames

  /** The effect of one frame on its payload and on the runtime slots. */
  ghost function FrameOn(e: Engine, key: RuleKey, data: Payload, inputs: Inputs): Effect
    requires RequestsOk(e.installed)
  {
    ProgramsAcceptable(e.installed, key, e.registry);
    ApplyAll(CompiledFor(e.installed, key, e.registry), Effect(data, e.runtime), inputs)
  }

  lemma ProgramsAcceptable(a: seq<StagedRule>, key: RuleKey, reg: Registry)
    requires RequestsOk(a)
    ensures AllAcceptable(CompiledFor(a, key, reg))
    ensures forall i :: 0 <= i < |CompiledFor(a, key, reg)| ==>
      exists k :: 0 <= k < |a| && a[k].ruleId == CompiledFor(a, key, reg)[i].ruleId
  {
    RulesForAuthored(a, key);
    var cs := CompiledFor(a, key, reg);
    forall i | 0 <= i < |cs|
      ensures Acceptable(cs[i].source) && exists k :: 0 <= k < |a| && a[k].ruleId == cs[i].ruleId
    {
      assert RulesFor(a, key)[i].rule in a;
    }
  }

  // ---------------------------------------------------------------- runs

  datatype Call =
    | StageCall(request: RuleRequest)
    | ClearCall
    | RevertCall
    | CommitCall(registry: Registry)
    | ControlCall(id: nat, change: Change, expected: U32)
    | ControlActiveCall(id: nat, change: Change, expected: U32)
    | ControlStagedCall(id: nat, change: Change, expected: U32)
    | FrameCall(key: RuleKey, data: Payload, inputs: Inputs)

  ghost function Step(e: Engine, call: Call): Engine
    requires Inv(e)
  {
    match call
    case StageCall(r) => Stage(e, r)
    case ClearCall => Clear(e)
    case RevertCall => Revert(e)
    case CommitCall(reg) => Commit(e, reg)
    case ControlCall(id, ch, x) => Control(e, id, ch, x)
    case ControlActiveCall(id, ch, x) => ControlActive(e, id, ch, x)
    case ControlStagedCall(id, ch, x) => ControlStaged(e, id, ch, x)
    case FrameCall(key, data, inputs) => e.(runtime := FrameOn(e, key, data, inputs).runtime)
  }
}
