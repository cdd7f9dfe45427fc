/** The mutation engine itself (core/mutation_engine.cpp): two rule tables, the candidate, the
    committed shadow and the runtime slots, updated in place. Every method is proved to take the
    step that `EngineState` describes and to keep the active table in agreement with it. */
module MutationCore {
  import opened Types
  import opened Rules
  import opened CompileSpec
  import opened RuleTable
  import opened Compiler
  import opened FrameEffect
  import opened FrameRules
  import opened EngineState
  import opened EngineInvariant

  class MutationEngine {
    const staged: array<StagedRule>
    const shadow: array<StagedRule>
    const runtime: array<Runtime>
    const table0: ActiveRuleTable
    const table1: ActiveRuleTable
    var activeIndex: nat
    var committedCount: nat
    var count: nat
    var dirty: bool
    var epoch: U32
    var nextSequence: U32
    ghost var installed: seq<StagedRule>
    ghost var registry: Registry

    function Active(): ActiveRuleTable
      reads this
    {
      if activeIndex == 0 then table0 else table1
    }

    function Inactive(): ActiveRuleTable
      reads this
    {
      if activeIndex == 0 then table1 else table0
    }

    ghost predicate Sized()
      reads this`committedCount
    {
      && staged.Length == shadow.Length == runtime.Length == MAX_RULES && committedCount <= MAX_RULES
      && staged != shadow
    }

    ghost predicate Shaped()
      reads this, table0, table1
    {
      && Sized() && table0 != table1
      && table0.Shaped() && table1.Shaped()
      && table0.rules != table1.rules && table0.groups != table1.groups && table0.bucketHead != table1.bucketHead
    }

    ghost function State(): Engine
      requires Sized()
      reads this, staged, shadow, runtime
    {
      Engine(staged[..], count, dirty, shadow[..committedCount], runtime[..], epoch, nextSequence,
             installed, registry)
    }

    /** The table frames read is the compiled form of the committed rules. */
    ghost predicate Serves(t: ActiveRuleTable)
      reads this, t, t.rules, t.groups, t.bucketHead
    {
      Holds(t, installed, registry)
    }

    ghost predicate Valid()
      reads this, staged, shadow, runtime
      reads table0, table0.rules, table0.groups, table0.bucketHead
      reads table1, table1.rules, table1.groups, table1.bucketHead
    {
      Shaped() && Serves(Active()) && Inv(State())
    }

    constructor ()
      ensures Valid() && State() == Init()
      ensures fresh(staged) && fresh(shadow) && fresh(runtime) && fresh(table0) && fresh(table1)
    {
      hide Inv, Holds;
      var t0 := new ActiveRuleTable();
      var t1 := new ActiveRuleTable();
      table0, table1 := t0, t1;
      staged := new StagedRule[MAX_RULES](_ => BLANK);
      shadow := new StagedRule[MAX_RULES](_ => BLANK);
      runtime := new Runtime[MAX_RULES](_ => IDLE);
      activeIndex, committedCount, count, dirty, epoch, nextSequence := 0, 0, 0, false, 1, 1;
      installed, registry := [], Registry(map[], map[]);
      new;
      assert State() == Init();
      InitInv();
      EmptyServes(t0, registry);
    }

    // ---------------------------------------------------------------- staging

    method FindStagedIdentity(r: RuleRequest) returns (slot: nat)
      requires staged.Length == MAX_RULES
      ensures slot == FirstIdentity(staged[..], r, 0)
    {
      slot := 0;
      while slot < MAX_RULES && !(staged[slot].inUse && SameIdentity(staged[slot].request, r))
        invariant slot <= MAX_RULES && FirstIdentity(staged[..], r, 0) == FirstIdentity(staged[..], r, slot)
      {
        slot := slot + 1;
      }
    }

    method AllocateRuleSlot() returns (slot: nat)
      requires staged.Length == MAX_RULES
      ensures slot == FirstFree(staged[..], 0)
    {
      slot := 0;
      while slot < MAX_RULES && staged[slot].inUse
        invariant slot <= MAX_RULES && FirstFree(staged[..], 0) == FirstFree(staged[..], slot)
      {
        slot := slot + 1;
      }
    }

    /** The slot of the identity, or the first free one. */
    method FindSlot(r: RuleRequest) returns (slot: nat, newSlot: bool)
      requires Sized()
      ensures slot == StageSlot(State(), r) <= MAX_RULES && (slot < MAX_RULES ==> newSlot == !staged[slot].inUse)
    {
      hide SameIdentity;
      slot := FindStagedIdentity(r);
      newSlot := slot == MAX_RULES;
      if newSlot { slot := AllocateRuleSlot(); }
    }

    method AdvanceEpoch()
      modifies this`epoch
      ensures epoch == Advance(old(epoch))
    {
      epoch := if epoch == 0xFFFF_FFFF then 1 else epoch + 1;
    }

    method AllocateSequence() returns (value: nat)
      modifies this`nextSequence
      ensures value == old(nextSequence) % 0x1_0000 && nextSequence == Advance(old(nextSequence))
    {
      value := nextSequence % 0x1_0000;
      nextSequence := if nextSequence == 0xFFFF_FFFF then 1 else nextSequence + 1;
    }

    /** The part of `stageRule` behind its checks. */
    method WriteStaged(slot: nat, newSlot: bool, r: RuleRequest)
      requires Shaped() && slot < MAX_RULES
      modifies this`count, this`dirty, this`epoch, this`nextSequence, staged
      ensures Shaped()
      ensures State() == old(State()).(
        staged := old(staged[..])[slot :=
          StagedAs(slot, if newSlot then old(nextSequence) % 0x1_0000 else old(staged[slot].sequence), r)],
        count := if newSlot then old(count) + 1 else old(count),
        nextSequence := if newSlot then Advance(old(nextSequence)) else old(nextSequence),
        epoch := Advance(old(epoch)), dirty := true)
    {
      ghost var was := staged[..];
      AdvanceEpoch();
      var sequence := staged[slot].sequence;
      if newSlot {
        sequence := AllocateSequence();
        count := count + 1;
      }
      staged[slot] := StagedAs(slot, sequence, r);
      dirty := true;
      assert staged[..] == was[slot := StagedAs(slot, sequence, r)];
    }

    method StageRule(r: RuleRequest) returns (id: Option<nat>)
      requires Valid()
      modifies this`count, this`dirty, this`epoch, this`nextSequence, staged
      ensures Valid() && State() == Stage(old(State()), r)
      ensures id == if CanStage(old(State()), r) then Some(StageSlot(old(State()), r)) else None
    {
      hide Holds, Inv, Acceptable, SameIdentity, StagedAs, FirstIdentity, FirstFree;
      ghost var before := State();
      StagePreserves(before, r);
      var ok := NormalizeRule(r);
      if !ok { return None; }
      var slot, newSlot := FindSlot(r);
      if slot == MAX_RULES { return None; }
      WriteStaged(slot, newSlot, r);
      assert State() == Stage(before, r);
      assert Inv(State());
      return Some(slot);
    }

    method ClearStaging()
      requires Valid()
      modifies this`count, this`dirty, this`epoch, staged
      ensures Valid() && State() == Clear(old(State()))
    {
      hide Holds, Inv;
      ghost var before := State();
      ClearPreserves(before);
      AdvanceEpoch();
      forall i | 0 <= i < MAX_RULES { staged[i] := BLANK; }
      count := 0;
      RuleCountIs(Active(), installed, registry);
      dirty := Active().ruleCount != 0;
      assert staged[..] == Blanks();
      assert Shaped() && Serves(Active());
      assert State() == Clear(before);
      assert Inv(State());
    }

    method RevertStagingToActive()
      requires Valid()
      modifies this`count, this`dirty, this`epoch, staged
      ensures Valid() && State() == Revert(old(State()))
    {
      hide Holds, Inv;
      ghost var before := State();
      RevertPreserves(before);
      CommittedSlots(before);
      ClearStaging();
      RestoreCommitted();
      dirty := false;
      assert State() == Revert(before);
    }

    /** Copy every committed rule back into its slot. */
    method RestoreCommitted()
      requires Shaped() && CommittedInOrder(shadow[..committedCount]) && AllUsed(shadow[..committedCount])
      requires staged[..] == Blanks() && count == 0
      modifies this`count, staged
      ensures staged[..] == CandidateOf(shadow[..committedCount]) && count == committedCount
    {
      hide Holds;
      ghost var c := shadow[..committedCount];
      var k := 0;
      while k < committedCount
        invariant k <= committedCount && count == k && shadow[..committedCount] == c
        invariant staged[..] == CandidateOf(c[..k])
      {
        var src := shadow[k];
        if src.inUse && src.ruleId < MAX_RULES {
          staged[src.ruleId] := src.(inUse := true);
          count := count + 1;
        }
        RestoredOne(c, k);
        k := k + 1;
      }
      assert c[..k] == c;
    }

    // ---------------------------------------------------------------- commit

    /** The fallible half of a commit: order the candidate and compile it into the inactive table. */
    method CompileNext(reg: Registry) returns (ok: bool, ids: array<nat>, n: nat)
      requires Shaped() && RequestsOk(Authored(staged[..]))
      modifies Inactive(), Inactive().rules, Inactive().groups, Inactive().bucketHead
      ensures Shaped() && fresh(ids) && n <= ids.Length && ids[..n] == Order(staged[..])
      ensures ok == AllResolve(Authored(staged[..]), reg)
      ensures ok ==> Holds(Inactive(), Authored(staged[..]), reg)
    {
      hide Holds;
      ids, n := OrderSlots(staged);
      ghost var s := staged[..];
      OrderIsOrder(s);
      OrderUpToSlots(s, MAX_RULES);
      OrderedSlots(s, ids[..n]);
      var ordered := seq(n, i requires 0 <= i < n && ids[i] < staged.Length reads ids, staged => staged[ids[i]]);
      assert ordered == Authored(s);
      ok := Compile(Inactive(), ordered, reg);
    }

    /** Runtime values and switches of the candidate become live; unused slots are cleared. */
    method PublishRuntime()
      requires Shaped()
      modifies staged, runtime
      ensures staged[..] == Published(old(staged[..]))
      ensures runtime[..] == PublishedRuntime(old(staged[..]), old(runtime[..]))
    {
      hide Acceptable;
      ghost var s, r := staged[..], runtime[..];
      var i := 0;
      while i < MAX_RULES
        invariant i <= MAX_RULES
        invariant forall j :: 0 <= j < i ==> staged[j] == Published(s)[j] && runtime[j] == PublishedSlot(s[j], r[j])
        invariant forall j :: i <= j < MAX_RULES ==> staged[j] == s[j] && runtime[j] == r[j]
      {
        if !staged[i].inUse {
          runtime[i] := IDLE;
        } else if staged[i].publish {
          runtime[i] := Runtime(staged[i].pendingValue, staged[i].pendingEnabled);
          staged[i] := staged[i].(publish := false);
        }
        i := i + 1;
      }
    }

    /** The committed shadow is rewritten in authoring order. */
    method FillShadow(ids: array<nat>, n: nat, ghost order: seq<nat>, ghost p: seq<StagedRule>)
      requires Shaped() && n <= MAX_RULES && n <= ids.Length && ids[..n] == order && staged[..] == p
      requires forall i :: 0 <= i < |order| ==> order[i] < |p|
      modifies shadow, this`committedCount
      ensures committedCount == n && shadow[..n] == Pick(p, order)
    {
      forall i | 0 <= i < MAX_RULES { shadow[i] := BLANK; }
      committedCount := 0;
      while committedCount < n
        invariant committedCount <= n && staged[..] == p && ids[..n] == order
        invariant forall k :: 0 <= k < committedCount ==> shadow[k] == p[order[k]]
      {
        assert ids[committedCount] == order[committedCount];
        shadow[committedCount] := staged[ids[committedCount]];
        committedCount := committedCount + 1;
      }
    }

    /** The new committed rules, with their runtime slots. */
    method PublishRules(ids: array<nat>, n: nat, ghost order: seq<nat>, ghost s: seq<StagedRule>)
      requires Shaped() && n <= MAX_RULES && n <= ids.Length && ids[..n] == order && staged[..] == s
      requires forall i :: 0 <= i < |order| ==> order[i] < |s|
      modifies staged, shadow, runtime, this`committedCount
      ensures Shaped() && staged[..] == Published(s) && runtime[..] == PublishedRuntime(s, old(runtime[..]))
      ensures shadow[..committedCount] == Pick(Published(s), order)
    {
      PublishRuntime();
      assert ids[..n] == order;
      FillShadow(ids, n, order, Published(s));
    }

    /** Everything behind the compile: publish, remember, swap. */
    method Publish(ids: array<nat>, n: nat, ghost reg: Registry)
      requires Shaped() && n <= ids.Length && ids[..n] == Order(staged[..])
      requires CommitSucceeds(State(), reg)
      modifies this, staged, shadow, runtime
      ensures Shaped() && State() == Commit(old(State()), reg)
      ensures Active() == old(Inactive()) && installed == Authored(old(staged[..])) && registry == reg
    {
      hide CommitSucceeds, Authored, Order, Published, PublishedRuntime, Pick, Commit;
      ghost var before, s := State(), staged[..];
      CommitParts(before, reg);
      OrderedSlots(s, ids[..n]);
      PublishRules(ids, n, Order(s), s);
      SwapTables(Authored(s), reg);
      assert State() == Commit(before, reg);
    }

    method SwapTables(ghost rules: seq<StagedRule>, ghost reg: Registry)
      modifies this`activeIndex, this`dirty, this`epoch, this`installed, this`registry
      ensures Active() == old(Inactive()) && installed == rules && registry == reg
      ensures !dirty && epoch == Advance(old(epoch))
    {
      activeIndex := if activeIndex == 0 then 1 else 0;
      installed, registry := rules, reg;
      dirty := false;
      epoch := if epoch == 0xFFFF_FFFF then 1 else epoch + 1;
    }

    /** All or nothing: a candidate with an unresolved name changes nothing that traffic, the
        candidate or the committed rules can show. */
    method ApplyCommit(reg: Registry) returns (ok: bool)
      requires Valid()
      modifies this, staged, shadow, runtime
      modifies table0, table0.rules, table0.groups, table0.bucketHead
      modifies table1, table1.rules, table1.groups, table1.bucketHead
      ensures Valid() && State() == Commit(old(State()), reg)
      ensures ok == CommitSucceeds(old(State()), reg)
    {
      hide Holds, Inv;
      ghost var before := State();
      CommitPreserves(before, reg);
      AuthoredAcceptable(before);
      var ids, n;
      ok, ids, n := CompileNext(reg);
      assert State() == before;
      if !ok { return; }
      Publish(ids, n, reg);
      assert Inv(State());
    }

    /** `clearRules` */
    method ClearRules(reg: Registry)
      requires Valid()
      modifies this, staged, shadow, runtime
      modifies table0, table0.rules, table0.groups, table0.bucketHead
      modifies table1, table1.rules, table1.groups, table1.bucketHead
      ensures Valid() && State() == Commit(Clear(old(State())), reg)
    {
      hide Holds, Inv;
      ClearStaging();
      var ok := ApplyCommit(reg);
    }

    /** `registerDynamicSignalRule`: stage and commit, or report failure. */
    method RegisterDynamicSignalRule(r: RuleRequest, reg: Registry) returns (id: Option<nat>)
      requires Valid() && r.kind.BitRange? && r.dynamicValue
      modifies this, staged, shadow, runtime
      modifies table0, table0.rules, table0.groups, table0.bucketHead
      modifies table1, table1.rules, table1.groups, table1.bucketHead
      ensures Valid()
      ensures State() == if CanStage(old(State()), r) then Commit(Stage(old(State()), r), reg) else old(State())
      ensures id.Some? == (CanStage(old(State()), r) && CommitSucceeds(Stage(old(State()), r), reg))
    {
      hide Holds, Inv, Acceptable, Commit, CommitSucceeds;
      id := StageRule(r);
      if id.None? { return; }
      var ok := ApplyCommit(reg);
      if !ok { id := None; }
    }

    // ---------------------------------------------------------------- controls

    /** The first committed entry of a slot, or the count when it has none. */
    method FindCommitted(id: nat) returns (k: nat)
      requires Shaped() && DistinctIds(shadow[..committedCount])
      ensures k <= committedCount
      ensures k < committedCount ==> shadow[k].ruleId == id && Shadow(shadow[..committedCount], id) == Some(shadow[k])
      ensures k == committedCount ==> Shadow(shadow[..committedCount], id).None?
    {
      ghost var c := shadow[..committedCount];
      k := 0;
      while k < committedCount && shadow[k].ruleId != id
        invariant k <= committedCount && forall j :: 0 <= j < k ==> c[j].ruleId != id
      {
        k := k + 1;
      }
      if k < committedCount { ShadowAt(c, k); } else { NoShadow(c, id); }
    }

    method AdjustStaged(id: nat, ch: Change, publish: bool)
      requires Shaped() && id < MAX_RULES
      modifies staged
      ensures staged[..] == old(staged[..])[id :=
        if publish then Changed(old(staged[id]), ch).(publish := true) else Changed(old(staged[id]), ch)]
    {
      ghost var s := staged[..];
      staged[id] := Changed(staged[id], ch);
      if publish { staged[id] := staged[id].(publish := true); }
      assert staged[..] == s[id := staged[id]];
    }

    method AdjustRuntime(id: nat, ch: Change)
      requires Shaped() && id < MAX_RULES
      modifies runtime
      ensures runtime[..] == old(runtime[..])[id := ChangedRuntime(old(runtime[id]), ch)]
    {
      ghost var r := runtime[..];
      runtime[id] := ChangedRuntime(runtime[id], ch);
      assert runtime[..] == r[id := runtime[id]];
    }

    /** Every committed entry of the slot is adjusted. */
    method AdjustShadow(id: nat, ch: Change)
      requires Shaped()
      modifies shadow
      ensures shadow[..committedCount] == ChangeSlot(old(shadow[..committedCount]), id, ch)
    {
      ghost var c := shadow[..committedCount];
      var k := 0;
      while k < committedCount
        invariant k <= committedCount
        invariant forall j :: 0 <= j < k ==> shadow[j] == ChangeSlot(c, id, ch)[j]
        invariant forall j :: k <= j < committedCount ==> shadow[j] == c[j]
      {
        if shadow[k].ruleId == id { shadow[k] := Changed(shadow[k], ch); }
        k := k + 1;
      }
    }

    /** One committed entry is adjusted; with distinct slots it is the only one of its slot. */
    method AdjustEntry(id: nat, k: nat, ch: Change)
      requires Shaped() && DistinctIds(shadow[..committedCount]) && k < committedCount && shadow[k].ruleId == id
      modifies shadow
      ensures shadow[..committedCount] == ChangeSlot(old(shadow[..committedCount]), id, ch)
    {
      ghost var c := shadow[..committedCount];
      OneEntry(c, k, ch);
      shadow[k] := Changed(shadow[k], ch);
      assert shadow[..committedCount] == c[k := Changed(c[k], ch)];
    }

    /** Whether a slot can be controlled, and by which request a value is judged. */
    method Controlled(id: nat, ch: Change, expected: U32) returns (ok: bool)
      requires Shaped() && DistinctIds(shadow[..committedCount])
      ensures ok == CanControl(State(), id, ch, expected)
    {
      if id >= MAX_RULES || expected != epoch { return false; }
      var k := FindCommitted(id);
      if staged[id].inUse {
        ok := ChangeFits(staged[id].request, ch);
      } else {
        ok := k < committedCount && ChangeFits(shadow[k].request, ch);
      }
    }

    /** The writes of a redirected change: with a publish pending, the candidate only. */
    method AdjustRedirected(id: nat, ch: Change)
      requires Shaped() && id < MAX_RULES
      modifies staged, shadow, runtime
      ensures Shaped()
      ensures var next := old(State()).(staged := ChangeStaged(old(staged[..]), id, ch));
        State() == if old(staged[id]).inUse && old(staged[id]).publish then next else ChangeLive(next, id, ch)
    {
      hide ChangeSlot, Changed, ChangedRuntime;
      var pending := staged[id].inUse && staged[id].publish;
      if staged[id].inUse { AdjustStaged(id, ch, false); }
      if !pending {
        AdjustShadow(id, ch);
        AdjustRuntime(id, ch);
      }
    }

    /** The body shared by `setRuleValue` and `enableRule`. */
    method ControlSlot(id: nat, ch: Change, expected: U32) returns (ok: bool)
      requires Valid()
      modifies staged, shadow, runtime
      ensures Valid() && State() == Control(old(State()), id, ch, expected)
      ensures ok == CanControl(old(State()), id, ch, expected)
    {
      hide Holds, Inv, CanControl, ChangeLive;
      ghost var before := State();
      CommittedSlots(before);
      ControlPreserves(before, id, ch, expected);
      ok := Controlled(id, ch, expected);
      if !ok { return; }
      assert id < MAX_RULES by { ControlledSlot(before, id, ch, expected); }
      AdjustRedirected(id, ch);
      assert State() == Control(before, id, ch, expected);
      assert Inv(State());
    }

    method SetRuleValue(id: nat, value: U32, expected: U32) returns (ok: bool)
      requires Valid()
      modifies staged, shadow, runtime
      ensures Valid() && State() == Control(old(State()), id, Value(value), expected)
      ensures ok == CanControl(old(State()), id, Value(value), expected)
    {
      hide Holds, Inv;
      ok := ControlSlot(id, Value(value), expected);
    }

    method EnableRule(id: nat, on: bool, expected: U32) returns (ok: bool)
      requires Valid()
      modifies staged, shadow, runtime
      ensures Valid() && State() == Control(old(State()), id, Switch(on), expected)
      ensures ok == CanControl(old(State()), id, Switch(on), expected)
    {
      hide Holds, Inv;
      ok := ControlSlot(id, Switch(on), expected);
    }

    /** The three writes of a change to a committed rule; only its first entry, which is the only
        one, is written. */
    method AdjustCommitted(id: nat, k: nat, ch: Change)
      requires Shaped() && DistinctIds(shadow[..committedCount])
      requires id < MAX_RULES && k < committedCount && shadow[k].ruleId == id
      modifies staged, shadow, runtime
      ensures Shaped()
      ensures State() == ChangeLive(
        if old(staged[id]).inUse && !old(staged[id]).publish
        then old(State()).(staged := ChangeStaged(old(staged[..]), id, ch)) else old(State()), id, ch)
    {
      hide DistinctIds, ChangeSlot, Changed, ChangedRuntime;
      ghost var before := State();
      AdjustEntry(id, k, ch);
      if staged[id].inUse && !staged[id].publish { AdjustStaged(id, ch, false); }
      AdjustRuntime(id, ch);
    }

    /** The body shared by `setActiveRuleValue` and `setActiveRuleEnabled`. */
    method ControlActiveSlot(id: nat, ch: Change, expected: U32) returns (ok: bool)
      requires Valid()
      modifies staged, shadow, runtime
      ensures Valid() && State() == ControlActive(old(State()), id, ch, expected)
      ensures ok == CanControlActive(old(State()), id, ch, expected)
    {
      hide Holds, Inv, ChangeFits, Shadow, ChangeLive;
      ghost var before := State();
      CommittedSlots(before);
      ControlActivePreserves(before, id, ch, expected);
      if id >= MAX_RULES || expected != epoch { return false; }
      var k := FindCommitted(id);
      if k == committedCount || !ChangeFits(shadow[k].request, ch) { return false; }
      AdjustCommitted(id, k, ch);
      assert State() == ControlActive(before, id, ch, expected);
      assert Inv(State());
      return true;
    }

    method SetActiveRuleValue(id: nat, value: U32, expected: U32) returns (ok: bool)
      requires Valid()
      modifies staged, shadow, runtime
      ensures Valid() && State() == ControlActive(old(State()), id, Value(value), expected)
      ensures ok == CanControlActive(old(State()), id, Value(value), expected)
    {
      hide Holds, Inv;
      ok := ControlActiveSlot(id, Value(value), expected);
    }

    method SetActiveRuleEnabled(id: nat, on: bool, expected: U32) returns (ok: bool)
      requires Valid()
      modifies staged, shadow, runtime
      ensures Valid() && State() == ControlActive(old(State()), id, Switch(on), expected)
      ensures ok == CanControlActive(old(State()), id, Switch(on), expected)
    {
      hide Holds, Inv;
      ok := ControlActiveSlot(id, Switch(on), expected);
    }

    /** The body shared by `setStagedRuleValue` and `setStagedRuleEnabled`. */
    method ControlStagedSlot(id: nat, ch: Change, expected: U32) returns (ok: bool)
      requires Valid()
      modifies staged, this`dirty
      ensures Valid() && State() == ControlStaged(old(State()), id, ch, expected)
      ensures ok == CanControlStaged(old(State()), id, ch, expected)
    {
      hide Holds, Inv, Acceptable, ChangeFits;
      ghost var before := State();
      ControlStagedPreserves(before, id, ch, expected);
      if id >= MAX_RULES || expected != epoch { return false; }
      if !staged[id].inUse || !ChangeFits(staged[id].request, ch) { return false; }
      AdjustStaged(id, ch, true);
      dirty := true;
      assert State() == ControlStaged(before, id, ch, expected);
      assert Inv(State());
      return true;
    }

    method SetStagedRuleValue(id: nat, value: U32, expected: U32) returns (ok: bool)
      requires Valid()
      modifies staged, this`dirty
      ensures Valid() && State() == ControlStaged(old(State()), id, Value(value), expected)
      ensures ok == CanControlStaged(old(State()), id, Value(value), expected)
    {
      hide Holds, Inv;
      ok := ControlStagedSlot(id, Value(value), expected);
    }

    method SetStagedRuleEnabled(id: nat, on: bool, expected: U32) returns (ok: bool)
      requires Valid()
      modifies staged, this`dirty
      ensures Valid() && State() == ControlStaged(old(State()), id, Switch(on), expected)
      ensures ok == CanControlStaged(old(State()), id, Switch(on), expected)
    {
      hide Holds, Inv;
      ok := ControlStagedSlot(id, Switch(on), expected);
    }

    // ---------------------------------------------------------------- frames

    /** A payload buffer that is none of the engine's own. */
    ghost predicate Outside(data: array<bv8>)
      reads this, table0, table1
    {
      var d := data as object;
      && d != staged && d != shadow && d != runtime
      && d != table0.rules && d != table0.groups && d != table0.bucketHead
      && d != table1.rules && d != table1.groups && d != table1.bucketHead
    }

    /** One frame: the rules of its key run in compile order on the payload and the live slots. */
    method ApplyFrameMutations(key: RuleKey, data: array<bv8>, inputs: Inputs) returns (applied: nat)
      requires Valid() && data.Length == 8 && Outside(data)
      modifies data, runtime
      ensures Valid()
      ensures var e, d := old(State()), old(data[..]);
        (InstalledRequests(e);
         State() == Step(e, FrameCall(key, d, inputs)) && data[..] == FrameOn(e, key, d, inputs).data &&
         applied == Applied(CompiledFor(e.installed, key, e.registry), e.runtime, inputs))
    {
      hide Holds, Inv, Applied;
      ghost var before, was := State(), data[..];
      InstalledRequests(before);
      FramePreserves(before, key, was, inputs);
      applied := RunRules(key, data, inputs);
      assert State() == before.(runtime := FrameOn(before, key, was, inputs).runtime);
    }

    /** The rules of the frame's key, found through the active table, run on the payload. */
    method RunRules(key: RuleKey, data: array<bv8>, inputs: Inputs) returns (applied: nat)
      requires Shaped() && Serves(Active()) && RequestsOk(installed) && data.Length == 8 && Outside(data)
      modifies data, runtime
      ensures Effect(data[..], runtime[..]) == FrameOn(old(State()), key, old(data[..]), inputs)
      ensures applied == Applied(CompiledFor(installed, key, registry), old(runtime[..]), inputs)
    {
      hide Holds, Applied, AllWell;
      ProgramsWell(installed, key, registry);
      var t := Active();
      var begin, end := LookUp(t, key, installed, registry);
      applied := ApplyGroup(t.rules[begin..end], data, runtime, inputs);
    }

    method EnabledIn(rules: seq<CompiledRule>) returns (any: bool)
      requires runtime.Length == MAX_RULES
      ensures any <==> AnyEnabled(rules, runtime[..])
    {
      for i := 0 to |rules|
        invariant forall k :: 0 <= k < i ==> !(rules[k].ruleId < MAX_RULES && runtime[rules[k].ruleId].enabled)
      {
        if rules[i].ruleId < MAX_RULES && runtime[rules[i].ruleId].enabled { return true; }
      }
      return false;
    }

    /** `hasRulesForFrame`: some rule of the key is switched on. */
    method HasRulesForFrame(key: RuleKey) returns (any: bool)
      requires Valid()
      ensures any <==> AnyEnabled(CompiledFor(installed, key, registry), runtime[..])
    {
      hide Holds, Inv, AnyEnabled;
      InstalledRequests(State());
      var begin, end := LookUp(Active(), key, installed, registry);
      any := EnabledIn(Active().rules[begin..end]);
    }
  }

  ghost predicate AnyEnabled(rules: seq<CompiledRule>, runtime: seq<Runtime>) {
    exists i :: 0 <= i < |rules| && rules[i].ruleId < |runtime| && runtime[rules[i].ruleId].enabled
  }

  lemma InstalledRequests(e: Engine)
    requires Inv(e)
    ensures RequestsOk(e.installed)
  {
  }

  lemma ControlledSlot(e: Engine, id: nat, ch: Change, expected: U32)
    requires CanControl(e, id, ch, expected)
    ensures id < |e.staged|
  {
  }

  lemma OneEntry(c: seq<StagedRule>, k: nat, ch: Change)
    requires DistinctIds(c) && k < |c|
    ensures c[k := Changed(c[k], ch)] == ChangeSlot(c, c[k].ruleId, ch)
  {
  }

  lemma OrderedSlots(s: seq<StagedRule>, ids: seq<nat>)
    requires ids == Order(s)
    ensures |ids| <= |s| && forall i :: 0 <= i < |ids| ==> ids[i] < |s|
  {
    OrderIsOrder(s);
    OrderUpToSlots(s, |s|);
  }

  lemma CommitParts(e: Engine, reg: Registry)
    requires |e.staged| == |e.runtime| && CommitSucceeds(e, reg)
    ensures (forall i :: 0 <= i < |Order(e.staged)| ==> Order(e.staged)[i] < |Published(e.staged)|)
    ensures Commit(e, reg) == e.(
      staged := Published(e.staged), runtime := PublishedRuntime(e.staged, e.runtime),
      committed := Pick(Published(e.staged), Order(e.staged)), dirty := false,
      epoch := Advance(e.epoch), installed := Authored(e.staged), registry := reg)
  {
    hide CommitSucceeds, Authored, Order, PublishedSlot, Pick;
    OrderIsOrder(e.staged);
  }

  lemma RestoredOne(c: seq<StagedRule>, k: nat)
    requires CommittedInOrder(c) && AllUsed(c) && k < |c|
    ensures CandidateOf(c[..k + 1]) == CandidateOf(c[..k])[c[k].ruleId := c[k]]
  {
    assert c[..k + 1][..k] == c[..k];
  }

  lemma RuleCountIs(t: ActiveRuleTable, a: seq<StagedRule>, reg: Registry)
    requires Holds(t, a, reg)
    ensures t.ruleCount == |a|
  {
  }

  lemma CommittedSlots(e: Engine)
    requires Inv(e)
    ensures CommittedInOrder(e.committed) && AllUsed(e.committed)
  {
    CommittedUsed(e);
  }

  /** An empty table serves no rules. */
  lemma EmptyServes(t: ActiveRuleTable, reg: Registry)
    requires t.Chained() && t.ruleCount == 0 && t.groupCount == 0
    ensures Holds(t, [], reg)
  {
  }
}
