/** When the stored order of the rules is the order in which their identities were first staged
    (`allocateSequence`, core/mutation_engine.cpp, keeps 16 bits of a 32-bit counter). */
module AuthoringOrder {
  import opened Types
  import opened BitLayout
  import opened SignalCodec
  import opened Rules
  import opened CompileSpec
  import opened Compiler
  import opened FrameEffect
  import opened EngineState
  import opened EngineInvariant

  // ---------------------------------------------------------------- counting new identities

  /** How many new identities a run has staged, and the place in that count of the identity in each
      slot of the candidate and of the committed rules. */
  datatype History = History(count: nat, staged: map<nat, nat>, committed: map<nat, nat>)

  /** The number stored for the `n`-th new identity (from 0). */
  function StoredNumber(n: nat): nat {
    (n % 0xFFFF_FFFF + 1) % BLOCK
  }

  ghost function Next(h: History, e: Engine, c: Call): History
    requires Inv(e)
  {
    match c
    case StageCall(r) =>
      if !CanStage(e, r) || e.staged[StageSlot(e, r)].inUse then h
      else h.(count := h.count + 1, staged := h.staged[StageSlot(e, r) := h.count])
    case ClearCall => h.(staged := map[])
    case RevertCall => h.(staged := h.committed)
    case CommitCall(reg) => if CommitSucceeds(e, reg) then h.(committed := h.staged) else h
    case _ => h
  }

  ghost function HistoryOf(calls: seq<Call>): History {
    if calls == [] then History(0, map[], map[])
    else Next(HistoryOf(calls[..|calls| - 1]), After(calls[..|calls| - 1]), calls[|calls| - 1])
  }

  // ---------------------------------------------------------------- every run keeps the count

  /** Every rule carries the number of its identity. */
  ghost predicate Born(a: seq<StagedRule>, births: map<nat, nat>, n: nat) {
    forall k :: 0 <= k < |a| && a[k].inUse ==>
      a[k].ruleId in births && births[a[k].ruleId] < n && a[k].sequence == StoredNumber(births[a[k].ruleId])
  }

  ghost predicate Tracks(h: History, e: Engine) {
    && e.nextSequence == h.count % 0xFFFF_FFFF + 1
    && Born(e.staged, h.staged, h.count) && Born(e.committed, h.committed, h.count)
  }

  lemma CandidateBorn(c: seq<StagedRule>, births: map<nat, nat>, n: nat)
    requires Born(c, births, n)
    ensures Born(CandidateOf(c), births, n)
  {
    hide StoredNumber;
    var s := CandidateOf(c);
    forall i | 0 <= i < |s| && s[i].inUse
      ensures s[i].ruleId in births && births[s[i].ruleId] < n && s[i].sequence == StoredNumber(births[s[i].ruleId])
    {
      assert Shadow(c, i).Some?;
      var k :| 0 <= k < |c| && c[k] == Shadow(c, i).value;
    }
  }

  lemma PublishedBorn(staged: seq<StagedRule>, ids: seq<nat>, births: map<nat, nat>, n: nat)
    requires Born(staged, births, n) && forall i :: 0 <= i < |ids| ==> ids[i] < |staged|
    ensures Born(Published(staged), births, n) && Born(Pick(Published(staged), ids), births, n)
  {
    hide StoredNumber;
  }

  lemma ChangedBorn(c: seq<StagedRule>, id: nat, ch: Change, births: map<nat, nat>, n: nat)
    requires Born(c, births, n)
    ensures Born(ChangeSlot(c, id, ch), births, n)
    ensures id < |c| ==> Born(ChangeStaged(c, id, ch), births, n)
    ensures id < |c| && c[id].inUse ==> Born(c[id := Changed(c[id], ch).(publish := true)], births, n)
  {
    hide StoredNumber;
  }

  lemma BornLater(a: seq<StagedRule>, births: map<nat, nat>, n: nat)
    requires Born(a, births, n)
    ensures Born(a, births, n + 1)
  {
    hide StoredNumber;
  }

  lemma NextNumber(n: nat)
    ensures Advance(n % 0xFFFF_FFFF + 1) == (n + 1) % 0xFFFF_FFFF + 1
    ensures (n % 0xFFFF_FFFF + 1) % BLOCK == StoredNumber(n)
  {
  }

  /** A new identity gets the next number, in a slot of its own. */
  lemma NewBorn(staged: seq<StagedRule>, births: map<nat, nat>, n: nat, slot: nat, s: StagedRule)
    requires Born(staged, births, n) && slot < |staged| && !staged[slot].inUse
    requires forall i :: 0 <= i < |staged| && staged[i].inUse ==> staged[i].ruleId == i
    requires s.inUse && s.ruleId == slot && s.sequence == StoredNumber(n)
    ensures Born(staged[slot := s], births[slot := n], n + 1)
  {
    hide StoredNumber;
  }

  lemma KnownBorn(staged: seq<StagedRule>, births: map<nat, nat>, n: nat, slot: nat, s: StagedRule)
    requires Born(staged, births, n) && slot < |staged| && staged[slot].inUse
    requires s.inUse && s.ruleId == staged[slot].ruleId && s.sequence == staged[slot].sequence
    ensures Born(staged[slot := s], births, n)
  {
    hide StoredNumber;
  }

  lemma SlotIds(e: Engine)
    requires Inv(e)
    ensures forall i :: 0 <= i < |e.staged| && e.staged[i].inUse ==> e.staged[i].ruleId == i
  {
    hide Acceptable;
    SlotsStagedOk(e);
  }

  lemma StageTracks(h: History, e: Engine, r: RuleRequest)
    requires Inv(e) && Tracks(h, e)
    ensures Tracks(Next(h, e, StageCall(r)), Stage(e, r))
  {
    SlotIds(e);
    hide Inv, Acceptable, Born, StoredNumber, StageSlot, InitialValue;
    if CanStage(e, r) {
      var slot := StageSlot(e, r);
      NextNumber(h.count);
      if e.staged[slot].inUse {
        KnownBorn(e.staged, h.staged, h.count, slot, StagedAs(slot, e.staged[slot].sequence, r));
      } else {
        NewBorn(e.staged, h.staged, h.count, slot, StagedAs(slot, e.nextSequence % BLOCK, r));
        BornLater(e.committed, h.committed, h.count);
      }
    }
  }

  lemma BlanksBorn(n: nat)
    ensures Born(Blanks(), map[], n)
  {
  }

  lemma StepTracks(h: History, e: Engine, c: Call)
    requires Inv(e) && Tracks(h, e)
    ensures Tracks(Next(h, e, c), Step(e, c))
  {
    hide Inv, Born, Stage, FrameOn, ChangeFits, CommitSucceeds, Shadow, CanStage;
    BlanksBorn(h.count);
    match c
    case StageCall(r) => StageTracks(h, e, r);
    case ClearCall =>
    case RevertCall => CandidateBorn(e.committed, h.committed, h.count);
    case CommitCall(reg) =>
      OrderIsOrder(e.staged);
      PublishedBorn(e.staged, Order(e.staged), h.staged, h.count);
    case ControlCall(id, ch, x) =>
      ChangedBorn(e.staged, id, ch, h.staged, h.count);
      ChangedBorn(e.committed, id, ch, h.committed, h.count);
    case ControlActiveCall(id, ch, x) =>
      ChangedBorn(e.staged, id, ch, h.staged, h.count);
      ChangedBorn(e.committed, id, ch, h.committed, h.count);
    case ControlStagedCall(id, ch, x) =>
      ChangedBorn(e.staged, id, ch, h.staged, h.count);
    case FrameCall(key, data, inputs) =>
  }

  lemma {:induction false} RunTracks(calls: seq<Call>)
    ensures Tracks(HistoryOf(calls), After(calls))
  {
    hide Step, Inv, Next;
    if calls == [] {
      NothingBorn();
    } else {
      RunTracks(calls[..|calls| - 1]);
      StepTracks(HistoryOf(calls[..|calls| - 1]), After(calls[..|calls| - 1]), calls[|calls| - 1]);
    }
  }

  lemma NothingBorn()
    ensures Tracks(History(0, map[], map[]), Init())
  {
  }

  // ---------------------------------------------------------------- the order of a run

  /** The stored order of two new identities, by their places in the count. */
  predicate StoredBefore(m: nat, i: nat, n: nat, j: nat) {
    StoredNumber(m) < StoredNumber(n) || (StoredNumber(m) == StoredNumber(n) && i < j)
  }

  /** Staging `r` puts it behind the rule of slot `j`. */
  predicate GoesBehind(e: Engine, r: RuleRequest, j: nat)
    requires CanStage(e, r) && j < |e.staged|
  {
    Earlier(Stage(e, r).staged[j], Stage(e, r).staged[StageSlot(e, r)])
  }

  /** In every run: a new identity is stored behind the rule of slot `j` exactly when the numbers of
      the two, which the caller can count, say so. */
  lemma NewRuleOrder(calls: seq<Call>, r: RuleRequest, j: nat)
    requires var e := After(calls);
      CanStage(e, r) && !e.staged[StageSlot(e, r)].inUse && j < |e.staged| && e.staged[j].inUse
    ensures var e, h, slot := After(calls), HistoryOf(calls), StageSlot(After(calls), r);
      && j in h.staged && h.staged[j] < h.count
      && (GoesBehind(e, r, j) <==> StoredBefore(h.staged[j], j, h.count, slot))
  {
    hide After, HistoryOf, Stage, Advance, Inv, Born, StoredNumber, StageSlot, CanStage, Earlier;
    var e, h := After(calls), HistoryOf(calls);
    RunTracks(calls);
    BornAt(e, h, j);
    NewRuleAt(e, r, j);
    NextNumber(h.count);
    NumbersCompare(Stage(e, r), h.staged[j], j, h.count, StageSlot(e, r));
  }

  predicate SlotHolds(e: Engine, slot: nat, sequence: nat) {
    slot < |e.staged| && e.staged[slot].ruleId == slot && e.staged[slot].sequence == sequence
  }

  /** A used slot holds the number of its identity. */
  lemma BornAt(e: Engine, h: History, j: nat)
    requires Inv(e) && Tracks(h, e) && j < |e.staged| && e.staged[j].inUse
    ensures j in h.staged && h.staged[j] < h.count && SlotHolds(e, j, StoredNumber(h.staged[j]))
  {
    hide StoredNumber;
    SlotIds(e);
    hide Inv;
  }

  /** Staging a new identity leaves the other slots alone. */
  lemma NewRuleAt(e: Engine, r: RuleRequest, j: nat)
    requires CanStage(e, r) && !e.staged[StageSlot(e, r)].inUse && j < |e.staged| && e.staged[j].inUse
    ensures |Stage(e, r).staged| == |e.staged| && Stage(e, r).staged[j] == e.staged[j]
    ensures SlotHolds(Stage(e, r), StageSlot(e, r), e.nextSequence % BLOCK)
  {
    hide Acceptable, StageSlot, InitialValue, Advance;
  }

  /** Two slots compare as the numbers they hold. */
  lemma NumbersCompare(e: Engine, m: nat, i: nat, n: nat, j: nat)
    requires SlotHolds(e, i, StoredNumber(m)) && SlotHolds(e, j, StoredNumber(n))
    ensures Earlier(e.staged[i], e.staged[j]) <==> StoredBefore(m, i, n, j)
  {
    hide StoredNumber;
  }

  /** Less than 65536 new identities apart, numbers keep their order exactly within a block: when the
      count of new identities, plus one, has not passed a multiple of 65536 in between. */
  lemma BlockOrder(m: nat, i: nat, n: nat, j: nat)
    requires m < n < m + BLOCK && n < 0xFFFF_FFFF
    ensures StoredBefore(m, i, n, j) <==> (m + 1) / BLOCK == (n + 1) / BLOCK
  {
  }

  /** In every run: a new identity goes behind every staged rule if and only if the caller's count of
      new identities passes no multiple of 65536 from any of those rules to it. */
  lemma GoesLastIff(calls: seq<Call>, r: RuleRequest)
    requires CanStage(After(calls), r) && !After(calls).staged[StageSlot(After(calls), r)].inUse
    requires var h := HistoryOf(calls);
      h.count < 0xFFFF_FFFF && forall j :: j in h.staged ==> h.count < h.staged[j] + BLOCK
    ensures var e, h := After(calls), HistoryOf(calls);
      (forall j :: 0 <= j < |e.staged| && e.staged[j].inUse ==> GoesBehind(e, r, j)) <==>
      (forall j :: 0 <= j < |e.staged| && e.staged[j].inUse ==>
         j in h.staged && (h.staged[j] + 1) / BLOCK == (h.count + 1) / BLOCK)
  {
    var e, h, slot := After(calls), HistoryOf(calls), StageSlot(After(calls), r);
    hide Inv, After, HistoryOf, GoesBehind, CanStage, StageSlot, StoredBefore;
    forall j | 0 <= j < |e.staged| && e.staged[j].inUse
      ensures j in h.staged
      ensures GoesBehind(e, r, j) <==> (h.staged[j] + 1) / BLOCK == (h.count + 1) / BLOCK
    {
      NewRuleOrder(calls, r, j);
      BlockOrder(h.staged[j], j, h.count, slot);
    }
  }

  /** Frames and controls do not matter: until 65535 new identities have been staged, a new one goes
      behind every rule already staged. */
  lemma NewRuleGoesLast(calls: seq<Call>, r: RuleRequest, j: nat)
    requires HistoryOf(calls).count < BLOCK - 1
    requires var e := After(calls);
      CanStage(e, r) && !e.staged[StageSlot(e, r)].inUse && j < |e.staged| && e.staged[j].inUse
    ensures GoesBehind(After(calls), r, j)
  {
    hide Inv, After, HistoryOf, GoesBehind, CanStage, StageSlot;
    NewRuleOrder(calls, r, j);
  }

  // ---------------------------------------------------------------- a run that wraps

  const KEPT := NO_REQUEST
  const FLEETING := NO_REQUEST.(startBit := 8)

  /** One rule is committed; `n` times the candidate goes back to it and another rule is staged. */
  function WrapRun(n: nat): seq<Call> {
    if n == 0 then [StageCall(KEPT), CommitCall(Registry(map[], map[]))]
    else WrapRun(n - 1) + [RevertCall, StageCall(FLEETING)]
  }

  const NO_NAMES := Registry(map[], map[])

  /** The committed rule in slot 0, under the first number. */
  ghost predicate Holding(e: Engine) {
    && |e.committed| == 1 && e.committed[0].ruleId == 0 && e.committed[0].sequence == 1
    && e.committed[0].request == KEPT && e.committed[0].inUse && |e.staged| == MAX_RULES
  }

  lemma BothAcceptable()
    ensures Acceptable(KEPT) && Acceptable(FLEETING) && !SameIdentity(KEPT, FLEETING)
  {
    assert Fits(KEPT.Field()) && Fits(FLEETING.Field());
  }

  /** Staging another rule over a reverted candidate takes slot 1 and the next number. */
  lemma FleetingStep(e: Engine)
    requires Inv(e) && Holding(e) && e.nextSequence < 0xFFFF_FFFF
    ensures var reverted := Revert(e);
      && reverted.nextSequence == e.nextSequence && reverted.staged[0] == e.committed[0]
      && CanStage(reverted, FLEETING) && StageSlot(reverted, FLEETING) == 1 && !reverted.staged[1].inUse
      && Holding(Stage(reverted, FLEETING))
      && Stage(reverted, FLEETING).nextSequence == e.nextSequence + 1
  {
    hide Inv, Acceptable;
    BothAcceptable();
    var s := Revert(e).staged;
    ReducedShadow(e.committed);
    NoneBehind(s, FLEETING, 1);
    assert FirstIdentity(s, FLEETING, 0) == FirstIdentity(s, FLEETING, 1);
    assert FirstFree(s, 0) == FirstFree(s, 1) == 1;
  }

  lemma ReducedShadow(c: seq<StagedRule>)
    requires |c| == 1 && c[0].ruleId == 0
    ensures Shadow(c, 0) == Some(c[0]) && forall i :: i != 0 ==> Shadow(c, i) == None
    ensures CandidateOf(c)[0] == c[0] && forall i :: 1 <= i < MAX_RULES ==> CandidateOf(c)[i] == BLANK
  {
    assert c[..0] == [];
    assert Shadow([], 0) == None;
    forall i: nat | i != 0 ensures Shadow(c, i) == None { assert Shadow(c[..0], i) == None; }
  }

  lemma AfterOne(calls: seq<Call>, c: Call)
    ensures After(calls + [c]) == Step(After(calls), c)
    ensures HistoryOf(calls + [c]) == Next(HistoryOf(calls), After(calls), c)
  {
    hide Step, Next, Inv;
    assert (calls + [c])[..|calls|] == calls;
  }

  lemma KeptStaged()
    ensures var e := Init();
      && CanStage(e, KEPT) && StageSlot(e, KEPT) == 0 && !e.staged[0].inUse
      && Stage(e, KEPT).staged == Blanks()[0 := StagedAs(0, 1, KEPT)] && Stage(e, KEPT).nextSequence == 2
  {
    hide Acceptable;
    BothAcceptable();
    NoneBehind(Blanks(), KEPT, 0);
    assert FirstFree(Blanks(), 0) == 0;
  }

  lemma KeptCommitted(e: Engine)
    requires Inv(e) && e.staged == Blanks()[0 := StagedAs(0, 1, KEPT)]
    ensures CommitSucceeds(e, NO_NAMES) && Holding(Commit(e, NO_NAMES))
    ensures Commit(e, NO_NAMES).nextSequence == e.nextSequence
  {
    hide Inv, Acceptable;
    var ids: seq<nat> := [0];
    forall s | 0 <= s < |e.staged| && e.staged[s].inUse ensures s in ids { assert ids[0] == s; }
    OrderIsOrder(e.staged);
    OrderUnique(e.staged, Order(e.staged), ids);
  }

  lemma AfterKept()
    ensures var first: seq<Call> := [StageCall(KEPT)];
      && Inv(After(first)) && After(first).staged == Blanks()[0 := StagedAs(0, 1, KEPT)]
      && After(first).nextSequence == 2 && HistoryOf(first).count == 1
  {
    hide Stage, Inv, CanStage, StageSlot;
    assert [StageCall(KEPT)] == [] + [StageCall(KEPT)];
    AfterOne([], StageCall(KEPT));
    KeptStaged();
  }

  lemma WrapBase()
    ensures Holding(After(WrapRun(0))) && After(WrapRun(0)).nextSequence == 2 && HistoryOf(WrapRun(0)).count == 1
  {
    hide After, HistoryOf, Commit, CommitSucceeds, Holding, Inv;
    var first: seq<Call> := [StageCall(KEPT)];
    assert WrapRun(0) == first + [CommitCall(NO_NAMES)];
    AfterKept();
    AfterOne(first, CommitCall(NO_NAMES));
    KeptCommitted(After(first));
  }

  lemma {:induction false} WrapState(n: nat)
    requires n < 0xFFFF_0000
    ensures Holding(After(WrapRun(n))) && After(WrapRun(n)).nextSequence == n + 2
    ensures HistoryOf(WrapRun(n)).count == n + 1
  {
    hide Holding, Stage, Revert, CanStage, StageSlot, Inv, After, HistoryOf;
    if n == 0 {
      WrapBase();
    } else {
      WrapState(n - 1);
      var calls := WrapRun(n - 1);
      AfterOne(calls, RevertCall);
      AfterOne(calls + [RevertCall], StageCall(FLEETING));
      assert WrapRun(n) == calls + [RevertCall] + [StageCall(FLEETING)];
      FleetingStep(After(calls));
    }
  }

  /** The bound is exact: a run that has staged 65535 new identities, in which the next one sorts before
      a rule that was committed at the start. */
  lemma WrapReorders()
    ensures var calls := WrapRun(BLOCK - 2) + [RevertCall];
      var e := After(calls);
      && HistoryOf(calls).count == BLOCK - 1
      && CanStage(e, FLEETING) && !e.staged[StageSlot(e, FLEETING)].inUse
      && e.staged[0].inUse && e.staged[0].request == KEPT && !GoesBehind(e, FLEETING, 0)
  {
    hide Revert, CanStage, StageSlot, Inv, After, HistoryOf;
    var before := WrapRun(BLOCK - 2);
    WrapState(BLOCK - 2);
    AfterOne(before, RevertCall);
    FleetingStep(After(before));
    LastNumber(Revert(After(before)), FLEETING);
  }

  lemma LastNumber(e: Engine, r: RuleRequest)
    requires CanStage(e, r) && StageSlot(e, r) == 1 && !e.staged[1].inUse && e.nextSequence == BLOCK
    requires 0 < |e.staged| && e.staged[0].sequence == 1
    ensures !GoesBehind(e, r, 0)
  {
    hide Acceptable, StageSlot;
  }
}
