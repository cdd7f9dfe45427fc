/** Which values reach the live slots: those a rule was staged with, once it is committed, and those
    a control sets. */
module LiveValues {
  import opened Types
  import opened BitLayout
  import opened SignalCodec
  import opened Rules
  import opened CompileSpec
  import opened FrameEffect
  import opened EngineState
  import opened EngineInvariant

  /** A commit makes live what is pending, keeps what is not, and blanks the slots of dropped rules. */
  lemma CommitPublishes(e: Engine, reg: Registry, i: nat)
    requires Inv(e) && CommitSucceeds(e, reg) && i < MAX_RULES
    ensures |e.staged| == |e.runtime| == |Commit(e, reg).runtime| == MAX_RULES
    ensures var s, after := e.staged[i], Commit(e, reg).runtime[i];
      && (s.inUse && s.publish ==> after.value == s.pendingValue && after.enabled == s.request.enabled)
      && (s.inUse && !s.publish ==> after == e.runtime[i])
      && (!s.inUse ==> after.value == 0 && !after.enabled)
  {
    assert SlotOk(e.staged[i], Shadow(e.committed, i), e.runtime[i], i);
  }

  lemma StagedSlot(e: Engine, r: RuleRequest)
    requires |e.staged| == MAX_RULES && CanStage(e, r)
    ensures var slot := StageSlot(e, r);
      && slot < |Stage(e, r).staged|
      && var s := Stage(e, r).staged[slot];
         s.inUse && s.publish && s.pendingValue == InitialValue(r) && s.request == r
  {
    hide InitialValue, Acceptable;
  }

  /** A rule that is staged and committed starts at its initial value, whatever its slot held. */
  lemma StagedGoesLive(e: Engine, r: RuleRequest, reg: Registry)
    requires Inv(e) && CanStage(e, r) && CommitSucceeds(Stage(e, r), reg)
    ensures var slot, after := StageSlot(e, r), Commit(Stage(e, r), reg).runtime;
      && slot < |after| && after[slot].enabled == r.enabled
      && (r.kind.Counter? ==> after[slot].value == r.counterInitial)
      && (r.kind.Sequence8? ==> after[slot].value == r.sequenceInitial)
      && (r.kind.BitRange? && r.dynamicValue ==> after[slot].value == r.replaceValue % 0x1_0000_0000)
  {
    hide Inv, Stage, StageSlot, Commit, CommitSucceeds;
    StagePreserves(e, r);
    StageSize(e, r);
    StagedSlot(e, r);
    CommitPublishes(Stage(e, r), reg, StageSlot(e, r));
  }

  lemma StageSize(e: Engine, r: RuleRequest)
    requires Inv(e)
    ensures |e.staged| == |e.runtime| == |Stage(e, r).staged| == |Stage(e, r).runtime| == MAX_RULES
  {
  }

  /** What a control of slot `id` leaves there. */
  predicate Shows(s: StagedRule, ch: Change) {
    match ch
    case Value(v) => s.pendingValue == v
    case Switch(on) => s.request.enabled == on
  }

  predicate Lives(r: Runtime, was: Runtime, ch: Change) {
    match ch
    case Value(v) => r.value == v && r.enabled == was.enabled
    case Switch(on) => r.enabled == on && r.value == was.value
  }

  /** An accepted control with no publish pending reaches the next frame, and the candidate shows it. */
  lemma ControlGoesLive(e: Engine, id: nat, ch: Change, expected: U32)
    requires Inv(e) && CanControl(e, id, ch, expected) && !e.staged[id].publish
    ensures var after := Control(e, id, ch, expected);
      && |after.runtime| == |e.runtime| == |after.staged| == MAX_RULES && id < MAX_RULES
      && Lives(after.runtime[id], e.runtime[id], ch)
      && (e.staged[id].inUse ==> Shows(after.staged[id], ch))
      && (forall i :: 0 <= i < MAX_RULES && i != id ==>
            after.runtime[i] == e.runtime[i] && after.staged[i] == e.staged[i])
  {
  }

  /** With a publish pending it reaches the candidate alone, and goes live with the next commit. */
  lemma ControlWaits(e: Engine, id: nat, ch: Change, expected: U32)
    requires Inv(e) && CanControl(e, id, ch, expected) && e.staged[id].inUse && e.staged[id].publish
    ensures var after := Control(e, id, ch, expected);
      && after.runtime == e.runtime && after.committed == e.committed
      && Shows(after.staged[id], ch) && after.staged[id].publish
  {
  }

  /** A live control reaches the committed rule and its slot; a candidate with other content stays. */
  lemma ControlActiveGoesLive(e: Engine, id: nat, ch: Change, expected: U32)
    requires Inv(e) && CanControlActive(e, id, ch, expected)
    ensures var after := ControlActive(e, id, ch, expected);
      && |after.runtime| == |e.runtime| == |after.staged| == MAX_RULES && id < MAX_RULES
      && Lives(after.runtime[id], e.runtime[id], ch)
      && (e.staged[id].inUse && !e.staged[id].publish ==> Shows(after.staged[id], ch))
      && (e.staged[id].publish ==> after.staged[id] == e.staged[id])
      && (forall i :: 0 <= i < MAX_RULES && i != id ==>
            after.runtime[i] == e.runtime[i] && after.staged[i] == e.staged[i])
  {
  }

  /** A staged control reaches the candidate alone and is published by the next commit. */
  lemma ControlStagedWaits(e: Engine, id: nat, ch: Change, expected: U32)
    requires Inv(e) && CanControlStaged(e, id, ch, expected)
    ensures var after := ControlStaged(e, id, ch, expected);
      && after.runtime == e.runtime && after.committed == e.committed && after.dirty
      && Shows(after.staged[id], ch) && after.staged[id].publish
  {
  }

  /** An emptied candidate holds nothing, has something to commit exactly when rules are active, and
      leaves traffic alone. */
  lemma ClearedIsEmpty(e: Engine)
    requires Inv(e)
    ensures var after := Clear(e);
      && (forall i :: 0 <= i < |after.staged| ==> !after.staged[i].inUse) && after.count == 0
      && (after.dirty <==> e.committed != [])
      && after.committed == e.committed && after.runtime == e.runtime && after.installed == e.installed
  {
  }

  // ---------------------------------------------------------------- handles

  /** Calls that change which rule a handle may mean. */
  ghost predicate Renumbers(e: Engine, c: Call)
    requires Inv(e)
  {
    || (c.StageCall? && CanStage(e, c.request)) || c.ClearCall? || c.RevertCall?
    || (c.CommitCall? && CommitSucceeds(e, c.registry))
  }

  /** After any of them every control under a handle issued before is refused and changes nothing. */
  lemma StaleHandlesRefused(e: Engine, c: Call, id: nat, ch: Change)
    requires Inv(e) && Renumbers(e, c)
    ensures var after := Step(e, c);
      && Inv(after) && after.epoch != e.epoch
      && Step(after, ControlCall(id, ch, e.epoch)) == after
      && Step(after, ControlActiveCall(id, ch, e.epoch)) == after
      && Step(after, ControlStagedCall(id, ch, e.epoch)) == after
  {
    hide Inv, CommitSucceeds, ChangeFits, CanStage;
    StepPreserves(e, c);
    EpochMoves(e, c);
  }

  lemma EpochMoves(e: Engine, c: Call)
    requires Inv(e) && Renumbers(e, c)
    ensures Step(e, c).epoch != e.epoch
  {
    hide CommitSucceeds, Acceptable;
  }

  /** Controls and frames leave handles valid. */
  lemma HandlesKept(e: Engine, c: Call)
    requires Inv(e) && !Renumbers(e, c)
    ensures Step(e, c).epoch == e.epoch
  {
    hide CommitSucceeds, Acceptable;
  }
}
