/** Every API call keeps the engine's invariant, and what that invariant buys: a rejected commit
    changes nothing, and reverting and committing again is invisible to traffic. */
module EngineInvariant {
  import opened Types
  import opened Rules
  import opened CompileSpec
  import opened Compiler
  import opened FrameEffect
  import opened EngineState

  // ---------------------------------------------------------------- counting used slots

  lemma {:induction false} UsedUpdate(staged: seq<StagedRule>, i: nat, s: StagedRule)
    requires i < |staged|
    ensures Used(staged[i := s]) ==
      Used(staged) - (if staged[i].inUse then 1 else 0) + (if s.inUse then 1 else 0)
  {
    var init := staged[..|staged| - 1];
    if i < |staged| - 1 {
      UsedUpdate(init, i, s);
      assert staged[i := s][..|staged| - 1] == init[i := s];
    } else {
      assert staged[i := s][..|staged| - 1] == init;
    }
  }

  lemma {:induction false} UsedNone(staged: seq<StagedRule>)
    requires forall i :: 0 <= i < |staged| ==> !staged[i].inUse
    ensures Used(staged) == 0
  {
    if staged != [] { UsedNone(staged[..|staged| - 1]); }
  }

  lemma {:induction false} UsedSame(a: seq<StagedRule>, b: seq<StagedRule>)
    requires |a| == |b| && forall i :: 0 <= i < |a| ==> a[i].inUse == b[i].inUse
    ensures Used(a) == Used(b)
  {
    if a != [] { UsedSame(a[..|a| - 1], b[..|b| - 1]); }
  }

  /** The insertion sort lists as many slots as are in use. */
  lemma {:induction false} OrderCounts(staged: seq<StagedRule>, n: nat)
    requires n <= |staged|
    ensures |OrderUpTo(staged, n)| == Used(staged[..n])
  {
    if n > 0 {
      OrderCounts(staged, n - 1);
      assert staged[..n][..n - 1] == staged[..n - 1];
      if staged[n - 1].inUse { InsertedSlots(staged, OrderUpTo(staged, n - 1), n - 1); }
    }
  }

  // ---------------------------------------------------------------- identities

  lemma SameTransfers(a: RuleRequest, b: RuleRequest, c: RuleRequest)
    ensures SameIdentity(a, b) <==> SameIdentity(b, a)
    ensures SameIdentity(a, c) && SameIdentity(b, c) ==> SameIdentity(a, b)
  {
  }

  /** Replacing one slot by a rule whose identity no other slot has keeps identities distinct. */
  lemma DistinctUpdate(staged: seq<StagedRule>, i: nat, s: StagedRule)
    requires DistinctIdentities(staged) && i < |staged|
    requires forall j :: 0 <= j < |staged| && j != i && staged[j].inUse ==> !SameIdentity(staged[j].request, s.request)
    ensures DistinctIdentities(staged[i := s])
  {
    var after := staged[i := s];
    forall j, k | 0 <= j < k < |after| && after[j].inUse && after[k].inUse
      ensures !SameIdentity(after[j].request, after[k].request)
    {
      SameTransfers(after[j].request, after[k].request, s.request);
    }
  }

  /** The slot chosen for a request is the only one that can hold its identity. */
  lemma StageSlotAlone(staged: seq<StagedRule>, r: RuleRequest, slot: nat)
    requires DistinctIdentities(staged) && slot < |staged|
    requires var same := FirstIdentity(staged, r, 0);
      if same < |staged| then slot == same else slot == FirstFree(staged, 0)
    ensures forall j :: 0 <= j < |staged| && j != slot && staged[j].inUse ==> !SameIdentity(staged[j].request, r)
  {
    forall j | 0 <= j < |staged| && j != slot && staged[j].inUse
      ensures !SameIdentity(staged[j].request, r)
    {
      SameTransfers(staged[j].request, staged[slot].request, r);
      SameTransfers(staged[slot].request, staged[j].request, r);
    }
  }

  // ---------------------------------------------------------------- staging

  lemma {:induction false} NoneBehind(staged: seq<StagedRule>, r: RuleRequest, i: nat)
    requires i <= |staged| && forall j :: i <= j < |staged| ==> !staged[j].inUse
    ensures FirstIdentity(staged, r, i) == |staged|
    decreases |staged| - i
  {
    if i < |staged| { NoneBehind(staged, r, i + 1); }
  }

  lemma StagePreserves(e: Engine, r: RuleRequest)
    requires Inv(e)
    ensures Inv(Stage(e, r))
  {
    if CanStage(e, r) {
      var slot, after := StageSlot(e, r), Stage(e, r);
      UsedUpdate(e.staged, slot, after.staged[slot]);
      StageSlotAlone(e.staged, r, slot);
      DistinctUpdate(e.staged, slot, after.staged[slot]);
      assert after.staged == e.staged[slot := after.staged[slot]];
      SlotsAfterStage(e, slot, after.staged[slot]);
    }
  }

  lemma SlotsAfterStage(e: Engine, slot: nat, s: StagedRule)
    requires SlotsOk(e.staged, e.committed, e.runtime) && slot < |e.staged|
    requires s.inUse && s.publish && StagedOk(s, slot)
    ensures SlotsOk(e.staged[slot := s], e.committed, e.runtime)
  {
    assert SlotOk(e.staged[slot], Shadow(e.committed, slot), e.runtime[slot], slot);
  }

  /** Staging touches one slot, and an identity that was already staged keeps its place in the
      authoring order. */
  lemma StageKeepsPosition(e: Engine, r: RuleRequest)
    requires Inv(e) && CanStage(e, r)
    ensures var slot, after := StageSlot(e, r), Stage(e, r).staged;
      && after == e.staged[slot := after[slot]]
      && after[slot].request == r && after[slot].publish
      && (e.staged[slot].inUse ==>
            SameIdentity(e.staged[slot].request, r) && after[slot].sequence == e.staged[slot].sequence)
  {
  }

  lemma ClearPreserves(e: Engine)
    requires Inv(e)
    ensures Inv(Clear(e))
  {
    UsedNone(Blanks());
    forall i | 0 <= i < MAX_RULES ensures SlotOk(Blanks()[i], Shadow(e.committed, i), e.runtime[i], i) {
      assert SlotOk(e.staged[i], Shadow(e.committed, i), e.runtime[i], i);
    }
    if |e.installed| == 0 {
      assert e.committed == [];
      assert Blanks() == CandidateOf(e.committed);
    }
  }

  // ---------------------------------------------------------------- the candidate of the committed rules

  function Ids(c: seq<StagedRule>): (r: seq<nat>)
    ensures |r| == |c|
  {
    seq(|c|, k requires 0 <= k < |c| => c[k].ruleId)
  }

  lemma CandidateSlot(c: seq<StagedRule>, k: nat)
    requires CommittedInOrder(c) && k < |c|
    ensures CandidateOf(c)[c[k].ruleId] == c[k]
  {
    ShadowAt(c, k);
  }

  lemma CandidateUsed(c: seq<StagedRule>, i: nat) returns (k: nat)
    requires i < MAX_RULES && CandidateOf(c)[i].inUse
    ensures k < |c| && c[k] == CandidateOf(c)[i] && c[k].ruleId == i
  {
    var s := CandidateOf(c)[i];
    assert Shadow(c, i) == Some(s) && s in c;
    k :| 0 <= k < |c| && c[k] == s;
  }

  ghost predicate AllUsed(c: seq<StagedRule>) {
    forall k :: 0 <= k < |c| ==> c[k].inUse
  }

  /** Putting the committed rules back into their slots preserves their order. */
  lemma CandidateOrder(c: seq<StagedRule>)
    requires CommittedInOrder(c) && AllUsed(c)
    ensures Order(CandidateOf(c)) == Ids(c)
  {
    var s, ids := CandidateOf(c), Ids(c);
    forall i | 0 <= i < |ids| ensures ids[i] < |s| && s[ids[i]].inUse { CandidateSlot(c, i); }
    forall i | 0 <= i < |s| && s[i].inUse ensures i in ids {
      var k := CandidateUsed(c, i);
      assert ids[k] == i;
    }
    forall i, j | 0 <= i < j < |ids| ensures Before(s, ids[i], ids[j]) {
      CandidateSlot(c, i);
      CandidateSlot(c, j);
      assert Earlier(c[i], c[j]);
    }
    OrderIsOrder(s);
    OrderUnique(s, Order(s), ids);
  }

  lemma CandidateDistinct(c: seq<StagedRule>)
    requires CommittedInOrder(c) && AllUsed(c)
    ensures DistinctIdentities(CandidateOf(c))
  {
    var s := CandidateOf(c);
    forall i, j | 0 <= i < j < |s| && s[i].inUse && s[j].inUse
      ensures !SameIdentity(s[i].request, s[j].request)
    {
      var k := CandidateUsed(c, i);
      var l := CandidateUsed(c, j);
      SameTransfers(c[k].request, c[l].request, c[l].request);
    }
  }

  lemma CandidateCount(c: seq<StagedRule>)
    requires CommittedInOrder(c) && AllUsed(c)
    ensures Used(CandidateOf(c)) == |c|
  {
    CandidateOrder(c);
    OrderCounts(CandidateOf(c), MAX_RULES);
    assert CandidateOf(c)[..MAX_RULES] == CandidateOf(c);
  }

  lemma CommittedUsed(e: Engine)
    requires Inv(e)
    ensures AllUsed(e.committed)
  {
    forall k | 0 <= k < |e.committed| ensures e.committed[k].inUse {
      ShadowAt(e.committed, k);
      var i := e.committed[k].ruleId;
      assert SlotOk(e.staged[i], Shadow(e.committed, i), e.runtime[i], i);
    }
  }

  lemma RevertPreserves(e: Engine)
    requires Inv(e)
    ensures Inv(Revert(e))
  {
    var s := CandidateOf(e.committed);
    CommittedUsed(e);
    CandidateCount(e.committed);
    CandidateDistinct(e.committed);
    forall i | 0 <= i < MAX_RULES ensures SlotOk(s[i], Shadow(e.committed, i), e.runtime[i], i) {
      assert SlotOk(e.staged[i], Shadow(e.committed, i), e.runtime[i], i);
    }
  }

  // ---------------------------------------------------------------- commit

  lemma PickInOrder(staged: seq<StagedRule>, published: seq<StagedRule>, ids: seq<nat>)
    requires IsOrder(staged, ids) && |staged| == |published| == MAX_RULES && published == Published(staged)
    requires forall i :: 0 <= i < |staged| ==> StagedOk(staged[i], i)
    requires DistinctIdentities(staged)
    ensures CommittedInOrder(Pick(published, ids))
  {
    var c := Pick(published, ids);
    forall i, j | 0 <= i < j < |c|
      ensures c[i].ruleId != c[j].ruleId && Earlier(c[i], c[j])
      ensures !SameIdentity(c[i].request, c[j].request)
    {
      assert Before(staged, ids[i], ids[j]);
      SameTransfers(c[i].request, c[j].request, c[j].request);
    }
  }

  lemma PickShadow(published: seq<StagedRule>, ids: seq<nat>, i: nat)
    requires forall k :: 0 <= k < |ids| ==> ids[k] < |published| && published[ids[k]].ruleId == ids[k]
    requires DistinctIds(Pick(published, ids))
    ensures Shadow(Pick(published, ids), i) == if i in ids then Some(published[i]) else None
  {
    var c := Pick(published, ids);
    NoShadow(c, i);
    if i in ids {
      var k :| 0 <= k < |ids| && ids[k] == i;
      ShadowAt(c, k);
    }
  }

  lemma PublishedSlots(e: Engine, reg: Registry)
    requires Inv(e) && CommitSucceeds(e, reg)
    ensures SlotsOk(Commit(e, reg).staged, Commit(e, reg).committed, Commit(e, reg).runtime)
    ensures CommittedInOrder(Commit(e, reg).committed)
  {
    var ids := Order(e.staged);
    OrderIsOrder(e.staged);
    var p := Published(e.staged);
    SlotsStagedOk(e);
    PickInOrder(e.staged, p, ids);
    forall i | 0 <= i < MAX_RULES
      ensures SlotOk(p[i], Shadow(Pick(p, ids), i), PublishedRuntime(e.staged, e.runtime)[i], i)
    {
      PickShadow(p, ids, i);
      assert SlotOk(e.staged[i], Shadow(e.committed, i), e.runtime[i], i);
    }
  }

  lemma SlotsStagedOk(e: Engine)
    requires Inv(e)
    ensures forall i :: 0 <= i < |e.staged| ==> StagedOk(e.staged[i], i)
  {
    forall i | 0 <= i < |e.staged| ensures StagedOk(e.staged[i], i) {
      assert SlotOk(e.staged[i], Shadow(e.committed, i), e.runtime[i], i);
    }
  }

  lemma PublishedDistinct(staged: seq<StagedRule>)
    requires DistinctIdentities(staged)
    ensures DistinctIdentities(Published(staged))
  {
    forall i, j | 0 <= i < j < |staged| && staged[i].inUse && staged[j].inUse
      ensures !SameIdentity(Published(staged)[i].request, Published(staged)[j].request)
    {
    }
  }

  /** After a commit nothing is pending: the candidate is its own committed form. */
  lemma PublishedCandidate(e: Engine)
    requires Inv(e)
    ensures (OrderIsOrder(e.staged); Published(e.staged) == CandidateOf(Pick(Published(e.staged), Order(e.staged))))
  {
    var ids, p := Order(e.staged), Published(e.staged);
    OrderIsOrder(e.staged);
    SlotsStagedOk(e);
    PickInOrder(e.staged, p, ids);
    forall i | 0 <= i < MAX_RULES ensures p[i] == CandidateOf(Pick(p, ids))[i] {
      PickShadow(p, ids, i);
      assert StagedOk(e.staged[i], i);
    }
  }

  lemma AuthoredAcceptable(e: Engine)
    requires Inv(e)
    ensures RequestsOk(Authored(e.staged))
  {
    OrderIsOrder(e.staged);
    SlotsStagedOk(e);
  }

  lemma InstalledMatches(e: Engine)
    requires Inv(e)
    ensures (OrderIsOrder(e.staged); SameRules(Authored(e.staged), Pick(Published(e.staged), Order(e.staged))))
  {
    OrderIsOrder(e.staged);
    var ids := Order(e.staged);
    forall k | 0 <= k < |ids|
      ensures Program(Authored(e.staged)[k]) == Program(Pick(Published(e.staged), ids)[k])
    {
    }
  }

  lemma CommitPreserves(e: Engine, reg: Registry)
    requires Inv(e)
    ensures Inv(Commit(e, reg))
  {
    if CommitSucceeds(e, reg) {
      PublishedSlots(e, reg);
      PublishedDistinct(e.staged);
      UsedSame(e.staged, Published(e.staged));
      PublishedCandidate(e);
      AuthoredAcceptable(e);
      InstalledMatches(e);
    }
  }

  // ---------------------------------------------------------------- live adjustments

  lemma ChangeKeepsOrder(c: seq<StagedRule>, id: nat, ch: Change)
    requires CommittedInOrder(c)
    ensures CommittedInOrder(ChangeSlot(c, id, ch))
  {
    var d := ChangeSlot(c, id, ch);
    forall i, j | 0 <= i < j < |d|
      ensures d[i].ruleId != d[j].ruleId && Earlier(d[i], d[j])
      ensures d[i].inUse && d[j].inUse ==> !SameIdentity(d[i].request, d[j].request)
    {
      assert Earlier(c[i], c[j]);
    }
  }

  lemma ChangeKeepsRules(a: seq<StagedRule>, c: seq<StagedRule>, id: nat, ch: Change)
    requires SameRules(a, c)
    ensures SameRules(a, ChangeSlot(c, id, ch))
  {
    forall k | 0 <= k < |c| ensures Program(a[k]) == Program(ChangeSlot(c, id, ch)[k]) {
      assert Program(a[k]) == Program(c[k]);
    }
  }

  /** Replacing one slot by a changed version of itself. */
  lemma ChangedSlot(staged: seq<StagedRule>, id: nat, s: StagedRule, ch: Change)
    requires DistinctIdentities(staged) && id < |staged| && staged[id].inUse
    requires s == Changed(staged[id], ch) || s == Changed(staged[id], ch).(publish := true)
    ensures DistinctIdentities(staged[id := s]) && Used(staged[id := s]) == Used(staged)
  {
    UsedUpdate(staged, id, s);
    forall j | 0 <= j < |staged| && j != id && staged[j].inUse
      ensures !SameIdentity(staged[j].request, s.request)
    {
      SameTransfers(staged[j].request, staged[id].request, s.request);
      SameTransfers(staged[id].request, staged[j].request, s.request);
    }
    DistinctUpdate(staged, id, s);
  }

  /** A live change of one slot, mirrored in the candidate unless a publish is pending there. */
  lemma LiveSlot(s: StagedRule, shadow: StagedRule, runtime: Runtime, i: nat, ch: Change)
    requires SlotOk(s, Some(shadow), runtime, i)
    ensures SlotOk(if s.inUse && !s.publish then Changed(s, ch) else s, Some(Changed(shadow, ch)),
                   ChangedRuntime(runtime, ch), i)
  {
  }

  lemma LiveSlots(staged: seq<StagedRule>, committed: seq<StagedRule>, runtime: seq<Runtime>,
                  id: nat, ch: Change, now: seq<StagedRule>)
    requires SlotsOk(staged, committed, runtime) && id < MAX_RULES && Shadow(committed, id).Some?
    requires now == if staged[id].inUse && !staged[id].publish then staged[id := Changed(staged[id], ch)] else staged
    ensures SlotsOk(now, ChangeSlot(committed, id, ch), runtime[id := ChangedRuntime(runtime[id], ch)])
  {
    var after := runtime[id := ChangedRuntime(runtime[id], ch)];
    forall i | 0 <= i < MAX_RULES
      ensures SlotOk(now[i], Shadow(ChangeSlot(committed, id, ch), i), after[i], i)
    {
      ShadowChanged(committed, id, ch, i);
      assert SlotOk(staged[i], Shadow(committed, i), runtime[i], i);
      if i == id {
        LiveSlot(staged[id], Shadow(committed, id).value, runtime[id], id, ch);
      } else {
        assert now[i] == staged[i] && after[i] == runtime[i];
      }
    }
  }

  lemma LiveCandidate(staged: seq<StagedRule>, committed: seq<StagedRule>, id: nat, ch: Change)
    requires staged == CandidateOf(committed) && id < MAX_RULES && Shadow(committed, id).Some?
    ensures staged[id := Changed(staged[id], ch)] == CandidateOf(ChangeSlot(committed, id, ch))
  {
    forall i | 0 <= i < MAX_RULES
      ensures staged[id := Changed(staged[id], ch)][i] == CandidateOf(ChangeSlot(committed, id, ch))[i]
    {
      ShadowChanged(committed, id, ch, i);
    }
  }

  lemma SlotsSized(staged: seq<StagedRule>, committed: seq<StagedRule>, runtime: seq<Runtime>)
    requires SlotsOk(staged, committed, runtime)
    ensures |staged| == |runtime| == MAX_RULES
  {
  }

  /** The live half shared by `setRuleValue`, `enableRule` and the two `setActive` calls. */
  lemma LivePreserves(e: Engine, id: nat, ch: Change)
    requires Inv(e) && id < MAX_RULES && Shadow(e.committed, id).Some?
    ensures var mirrored := e.staged[id].inUse && !e.staged[id].publish;
      Inv(ChangeLive(if mirrored then e.(staged := ChangeStaged(e.staged, id, ch)) else e, id, ch))
  {
    hide SlotsOk, DistinctIdentities, CandidateOf, Shadow, Used, SlotOk;
    SlotsSized(e.staged, e.committed, e.runtime);
    var mirrored := e.staged[id].inUse && !e.staged[id].publish;
    var now := if mirrored then ChangeStaged(e.staged, id, ch) else e.staged;
    LiveSlots(e.staged, e.committed, e.runtime, id, ch, now);
    ChangeKeepsOrder(e.committed, id, ch);
    ChangeKeepsRules(e.installed, e.committed, id, ch);
    if mirrored { ChangedSlot(e.staged, id, Changed(e.staged[id], ch), ch); }
    if !e.dirty {
      CleanMirrors(e, id);
      LiveCandidate(e.staged, e.committed, id, ch);
    }
  }

  /** In a clean candidate a committed rule has nothing pending. */
  lemma CleanMirrors(e: Engine, id: nat)
    requires Inv(e) && id < MAX_RULES && Shadow(e.committed, id).Some? && !e.dirty
    ensures e.staged[id].inUse && !e.staged[id].publish
  {
    assert SlotOk(e.staged[id], Shadow(e.committed, id), e.runtime[id], id);
    PendingIsDirty(e, id);
  }

  lemma PendingPreserves(e: Engine, id: nat, ch: Change, publish: bool)
    requires Inv(e) && id < MAX_RULES && e.staged[id].inUse && (e.staged[id].publish || publish)
    ensures Inv(e.(staged := e.staged[id := Changed(e.staged[id], ch).(publish := true)], dirty := e.dirty || publish))
  {
    var s := Changed(e.staged[id], ch).(publish := true);
    assert SlotOk(e.staged[id], Shadow(e.committed, id), e.runtime[id], id);
    ChangedSlot(e.staged, id, s, ch);
    SlotsAfterStage(e, id, s);
    PendingIsDirty(e, id);
  }

  /** A pending publish always shows as a dirty candidate. */
  lemma PendingIsDirty(e: Engine, id: nat)
    requires Inv(e) && id < MAX_RULES
    ensures e.staged[id].inUse && e.staged[id].publish ==> e.dirty
  {
    assert SlotOk(e.staged[id], Shadow(e.committed, id), e.runtime[id], id);
    if !e.dirty { assert e.staged[id] == CandidateOf(e.committed)[id]; }
  }

  lemma ControlPreserves(e: Engine, id: nat, ch: Change, expected: U32)
    requires Inv(e)
    ensures Inv(Control(e, id, ch, expected))
  {
    if CanControl(e, id, ch, expected) {
      assert SlotOk(e.staged[id], Shadow(e.committed, id), e.runtime[id], id);
      if e.staged[id].inUse && e.staged[id].publish {
        PendingPreserves(e, id, ch, false);
      } else {
        LivePreserves(e, id, ch);
      }
    }
  }

  lemma ControlActivePreserves(e: Engine, id: nat, ch: Change, expected: U32)
    requires Inv(e)
    ensures Inv(ControlActive(e, id, ch, expected))
  {
    if CanControlActive(e, id, ch, expected) { LivePreserves(e, id, ch); }
  }

  lemma ControlStagedPreserves(e: Engine, id: nat, ch: Change, expected: U32)
    requires Inv(e)
    ensures Inv(ControlStaged(e, id, ch, expected))
  {
    if CanControlStaged(e, id, ch, expected) { PendingPreserves(e, id, ch, true); }
  }

  // ---------------------------------------------------------------- frames

  lemma FramePreserves(e: Engine, key: RuleKey, data: Payload, inputs: Inputs)
    requires Inv(e)
    ensures Inv(e.(runtime := FrameOn(e, key, data, inputs).runtime))
  {
    var after := FrameOn(e, key, data, inputs).runtime;
    var cs := CompiledFor(e.installed, key, e.registry);
    ProgramsAcceptable(e.installed, key, e.registry);
    forall i | 0 <= i < MAX_RULES ensures SlotOk(e.staged[i], Shadow(e.committed, i), after[i], i) {
      FramesKeepSwitches(cs, Effect(data, e.runtime), inputs, i);
      assert SlotOk(e.staged[i], Shadow(e.committed, i), e.runtime[i], i);
      if Shadow(e.committed, i).None? { AbsentRule(e, key, i); }
    }
  }

  /** No compiled rule uses the slot of a rule that is not committed. */
  lemma AbsentRule(e: Engine, key: RuleKey, i: nat)
    requires Inv(e) && Shadow(e.committed, i).None?
    ensures var cs := CompiledFor(e.installed, key, e.registry);
      forall k :: 0 <= k < |cs| ==> cs[k].ruleId != i
  {
    var cs := CompiledFor(e.installed, key, e.registry);
    ProgramsAcceptable(e.installed, key, e.registry);
    NoShadow(e.committed, i);
    forall k | 0 <= k < |cs| ensures cs[k].ruleId != i {
      var m :| 0 <= m < |e.installed| && e.installed[m].ruleId == cs[k].ruleId;
      assert Program(e.installed[m]) == Program(e.committed[m]);
    }
  }

  // ---------------------------------------------------------------- every run

  lemma StepPreserves(e: Engine, call: Call)
    requires Inv(e)
    ensures Inv(Step(e, call))
  {
    hide Inv, Stage, Clear, Revert, Commit, Control, ControlActive, ControlStaged, FrameOn;
    match call
    case StageCall(r) => StagePreserves(e, r);
    case ClearCall => ClearPreserves(e);
    case RevertCall => RevertPreserves(e);
    case CommitCall(reg) => CommitPreserves(e, reg);
    case ControlCall(id, ch, x) => ControlPreserves(e, id, ch, x);
    case ControlActiveCall(id, ch, x) => ControlActivePreserves(e, id, ch, x);
    case ControlStagedCall(id, ch, x) => ControlStagedPreserves(e, id, ch, x);
    case FrameCall(key, data, inputs) => FramePreserves(e, key, data, inputs);
  }

  lemma InitInv()
    ensures Inv(Init())
  {
    UsedNone(Blanks());
    forall i | 0 <= i < MAX_RULES
      ensures SlotOk(Init().staged[i], Shadow([], i), Init().runtime[i], i) && CandidateOf([])[i] == BLANK
    {
    }
    assert Blanks() == CandidateOf([]);
  }

  /** The state after a sequence of API calls and frames, in any order and with any arguments:
      each of them keeps the invariant. */
  ghost function After(calls: seq<Call>): (e: Engine)
    ensures Inv(e)
  {
    if calls == [] then InitInv(); Init()
    else
      StepPreserves(After(calls[..|calls| - 1]), calls[|calls| - 1]);
      Step(After(calls[..|calls| - 1]), calls[|calls| - 1])
  }

  /** What the invariant says to a caller. */
  lemma CandidateInvariant(calls: seq<Call>)
    ensures var e := After(calls);
      && |e.staged| == |e.runtime| == MAX_RULES
      && (!e.dirty ==>
            (e.staged == CandidateOf(e.committed) && forall i :: 0 <= i < MAX_RULES ==> !e.staged[i].publish))
      && (forall i :: 0 <= i < MAX_RULES && e.staged[i].inUse && !e.staged[i].publish ==> e.staged[i] in e.committed)
      && (forall i, j :: 0 <= i < j < MAX_RULES && e.staged[i].inUse && e.staged[j].inUse ==>
            !SameIdentity(e.staged[i].request, e.staged[j].request))
      && e.count == |Order(e.staged)|
      && (forall i :: 0 <= i < MAX_RULES && (forall k :: 0 <= k < |e.committed| ==> e.committed[k].ruleId != i) ==>
            e.runtime[i] == Runtime(0, false))
      && (forall k :: 0 <= k < |e.committed| ==>
            (e.committed[k].ruleId < MAX_RULES &&
             e.runtime[e.committed[k].ruleId].enabled == e.committed[k].request.enabled))
  {
    hide After, SameIdentity, SlotOk, Shadow, CandidateOf;
    var e := After(calls);
    OrderCounts(e.staged, MAX_RULES);
    assert e.staged[..MAX_RULES] == e.staged;
    forall i | 0 <= i < MAX_RULES
      ensures !e.dirty ==> !e.staged[i].publish
      ensures e.staged[i].inUse && !e.staged[i].publish ==> e.staged[i] in e.committed
      ensures (forall k :: 0 <= k < |e.committed| ==> e.committed[k].ruleId != i) ==> e.runtime[i] == IDLE
    {
      SlotFacts(e, i);
    }
    forall k | 0 <= k < |e.committed|
      ensures e.committed[k].ruleId < MAX_RULES
      ensures e.runtime[e.committed[k].ruleId].enabled == e.committed[k].request.enabled
    {
      CommittedFacts(e, k);
    }
  }

  lemma SlotFacts(e: Engine, i: nat)
    requires Inv(e) && i < MAX_RULES
    ensures !e.dirty ==> !e.staged[i].publish
    ensures e.staged[i].inUse && !e.staged[i].publish ==> e.staged[i] in e.committed
    ensures (forall k :: 0 <= k < |e.committed| ==> e.committed[k].ruleId != i) ==> e.runtime[i] == IDLE
  {
    assert SlotOk(e.staged[i], Shadow(e.committed, i), e.runtime[i], i);
    PendingIsDirty(e, i);
    NoShadow(e.committed, i);
  }

  lemma CommittedFacts(e: Engine, k: nat)
    requires Inv(e) && k < |e.committed|
    ensures e.committed[k].ruleId < MAX_RULES
    ensures e.runtime[e.committed[k].ruleId].enabled == e.committed[k].request.enabled
  {
    var i := e.committed[k].ruleId;
    ShadowAt(e.committed, k);
    assert SlotOk(e.staged[i], Shadow(e.committed, i), e.runtime[i], i);
  }

  /** A commit is refused exactly when a staged runtime name does not resolve, and then the
      candidate, the committed rules, the live slots and the epoch are all as before. */
  lemma RejectedCommit(e: Engine, reg: Registry)
    requires Inv(e)
    ensures (exists i :: 0 <= i < |e.staged| && e.staged[i].inUse && !Resolves(e.staged[i].request, reg)) <==>
      !CommitSucceeds(e, reg)
    ensures !CommitSucceeds(e, reg) ==> Commit(e, reg) == e
  {
    OrderIsOrder(e.staged);
    var ids := Order(e.staged);
    if i :| 0 <= i < |e.staged| && e.staged[i].inUse && !Resolves(e.staged[i].request, reg) {
      assert i in ids;
      var k :| 0 <= k < |ids| && ids[k] == i;
      assert !Resolves(Authored(e.staged)[k].request, reg);
    }
  }
}
