/** Loading a rule package (`RulePackageLoader::loadCsv`, core/rule_package.cpp): rows are staged
    under the bindings in force where they stand, and the whole package is committed or nothing. */
module RulePackage {
  import opened Types
  import opened Rules
  import opened CompileSpec
  import opened FrameEffect
  import opened EngineState
  import opened EngineInvariant

  /** One row, split and parsed; `Malformed` is any row that the field parsers refuse. Comment and
      blank lines are not rows. */
  datatype Row =
    | BindTable(source: string, table: string)
    | BindOverride(source: string, active: string, value: string)
    | BindActive(selector: string, states: set<nat>)
    | RuleRow(request: RuleRequest)
    | Malformed

  /** The bindings in force: each directive replaces the previous one of its kind. */
  datatype Bindings = Bindings(
    tableSource: string, table: string,
    overrideSource: string, overrideActive: string, overrideValue: string,
    gateSource: string, gateStates: set<nat>)

  const UNBOUND := Bindings("", "", "", "", "", "", {})

  function Rebound(b: Bindings, row: Row): Bindings {
    match row
    case BindTable(s, t) => b.(tableSource := s, table := t)
    case BindOverride(s, a, v) => b.(overrideSource := s, overrideActive := a, overrideValue := v)
    case BindActive(s, states) => b.(gateSource := s, gateStates := states)
    case _ => b
  }

  /** A rule as its bindings complete it: table and override go to the rows of the bound source, the
      gate to every rule that has no selector of its own. */
  function Bound(r: RuleRequest, b: Bindings): RuleRequest {
    var tabled := if b.tableSource != "" && b.tableSource == r.valueSource then r.(lookupTable := b.table) else r;
    var overridden :=
      if b.overrideSource != "" && b.overrideSource == r.valueSource
      then tabled.(overrideActive := b.overrideActive, overrideValue := b.overrideValue) else tabled;
    if overridden.selectorSource == "" && b.gateSource != ""
    then overridden.(selectorSource := b.gateSource, selectorActive := b.gateStates) else overridden
  }

  // ---------------------------------------------------------------- the meaning of a package

  /** The place of a rule's identity in the list, or its length. */
  function Place(rules: seq<RuleRequest>, r: RuleRequest, i: nat): (k: nat)
    requires i <= |rules|
    ensures i <= k <= |rules|
    decreases |rules| - i
  {
    if i == |rules| || SameIdentity(rules[i], r) then i else Place(rules, r, i + 1)
  }

  /** A repeated identity replaces the content and keeps the place. */
  function AddOrReplace(rules: seq<RuleRequest>, r: RuleRequest): seq<RuleRequest> {
    var k := Place(rules, r, 0);
    if k < |rules| then rules[k := r] else rules + [r]
  }

  function BindingsAfter(rows: seq<Row>): Bindings {
    if rows == [] then UNBOUND else Rebound(BindingsAfter(rows[..|rows| - 1]), rows[|rows| - 1])
  }

  /** The rules of a package, in order. */
  function Meaning(rows: seq<Row>): seq<RuleRequest> {
    if rows == [] then []
    else
      var rules, row := Meaning(rows[..|rows| - 1]), rows[|rows| - 1];
      if row.RuleRow? then AddOrReplace(rules, Bound(row.request, BindingsAfter(rows[..|rows| - 1]))) else rules
  }

  function RuleRows(rows: seq<Row>): nat {
    if rows == [] then 0
    else RuleRows(rows[..|rows| - 1]) + (if rows[|rows| - 1].RuleRow? then 1 else 0)
  }

  /** No row is malformed, every rule is acceptable, and at no point are there more than 96. */
  predicate Loadable(rows: seq<Row>) {
    rows == [] ||
    (Loadable(rows[..|rows| - 1]) && !rows[|rows| - 1].Malformed? &&
     (rows[|rows| - 1].RuleRow? ==>
        (Acceptable(Bound(rows[|rows| - 1].request, BindingsAfter(rows[..|rows| - 1]))) &&
         |Meaning(rows)| <= MAX_RULES)))
  }

  // ---------------------------------------------------------------- loading

  /** Staging the first rows of a package into a cleared candidate. */
  function StageRows(e: Engine, rows: seq<Row>): Option<Engine> {
    if rows == [] then Some(Clear(e))
    else
      match StageRows(e, rows[..|rows| - 1])
      case None => None
      case Some(s) =>
        var row := rows[|rows| - 1];
        if row.Malformed? then None
        else if !row.RuleRow? then Some(s)
        else
          var r := Bound(row.request, BindingsAfter(rows[..|rows| - 1]));
          if CanStage(s, r) then Some(Stage(s, r)) else None
  }

  /** The row at which staging stops, or the number of rows. */
  function Stops(e: Engine, rows: seq<Row>, n: nat): (k: nat)
    requires n <= |rows|
    ensures n <= k <= |rows|
    decreases |rows| - n
  {
    if n == |rows| || StageRows(e, rows[..n + 1]).None? then n else Stops(e, rows, n + 1)
  }

  /** What is staged when loading stops. */
  function StagedAtStop(e: Engine, rows: seq<Row>): Engine {
    match StageRows(e, rows[..Stops(e, rows, 0)])
    case None => e
    case Some(s) => s
  }

  ghost predicate Loads(e: Engine, rows: seq<Row>, reg: Registry) {
    StageRows(e, rows).Some? && RuleRows(rows) > 0 && CommitSucceeds(StageRows(e, rows).value, reg)
  }

  /** `loadCsv`: commit, or put the candidate back. */
  ghost function Load(e: Engine, rows: seq<Row>, reg: Registry): Engine
    requires Inv(e)
  {
    if Loads(e, rows, reg) then
      StagedInv(e, rows);
      Commit(StageRows(e, rows).value, reg)
    else Revert(StagedAtStop(e, rows))
  }

  lemma StageKeepsLive(e: Engine, s: Engine, r: RuleRequest)
    requires SameLive(e, s)
    ensures SameLive(e, Stage(s, r))
  {
    hide CanStage, StagedAs;
  }

  lemma {:induction false} StagedInv(e: Engine, rows: seq<Row>)
    requires Inv(e)
    ensures StageRows(e, rows).Some? ==>
      (Inv(StageRows(e, rows).value) && SameLive(e, StageRows(e, rows).value))
  {
    hide Inv, Stage, CanStage, Bound;
    if rows == [] {
      ClearPreserves(e);
    } else {
      StagedInv(e, rows[..|rows| - 1]);
      var before, row := StageRows(e, rows[..|rows| - 1]), rows[|rows| - 1];
      if before.Some? && row.RuleRow? {
        var r := Bound(row.request, BindingsAfter(rows[..|rows| - 1]));
        StagePreserves(before.value, r);
        StageKeepsLive(e, before.value, r);
      }
    }
  }

  /** Staging touches nothing that traffic can see. */
  predicate SameLive(e: Engine, f: Engine) {
    f.committed == e.committed && f.runtime == e.runtime && f.installed == e.installed && f.registry == e.registry
  }

  lemma {:induction false} StopInv(e: Engine, rows: seq<Row>)
    requires Inv(e)
    ensures Inv(StagedAtStop(e, rows)) && SameLive(e, StagedAtStop(e, rows))
  {
    StagedInv(e, rows[..Stops(e, rows, 0)]);
  }

  /** A rejected package leaves the live table and the runtime slots as they were, and the candidate
      equal to the committed rules, with nothing pending. */
  lemma RejectionIsHarmless(e: Engine, rows: seq<Row>, reg: Registry)
    requires Inv(e) && !Loads(e, rows, reg)
    ensures var after := Load(e, rows, reg);
      && Inv(after) && SameLive(e, after)
      && after.staged == CandidateOf(e.committed) && !after.dirty && after.count == |e.committed|
  {
    StopInv(e, rows);
    RevertPreserves(StagedAtStop(e, rows));
  }

  // ---------------------------------------------------------------- staging mirrors the meaning

  /** A freshly staged rule, not yet committed. */
  predicate Staging(s: StagedRule, r: RuleRequest) {
    s.inUse && s.publish && s.request == r && s.pendingValue == InitialValue(r) && s.pendingEnabled == r.enabled
  }

  /** The candidate holds the rules in its first slots. */
  ghost predicate Filled(staged: seq<StagedRule>, rules: seq<RuleRequest>) {
    && |rules| <= |staged| == MAX_RULES
    && (forall i :: 0 <= i < |rules| ==> Staging(staged[i], rules[i]))
    && (forall i :: |rules| <= i < MAX_RULES ==> !staged[i].inUse)
  }

  ghost predicate Mirrors(s: Engine, rules: seq<RuleRequest>) {
    Filled(s.staged, rules)
  }

  /** The counter after `k` new identities. */
  function Counter(first: U32, k: nat): U32 {
    if k == 0 then first else Advance(Counter(first, k - 1))
  }

  /** The first `n` slots have the numbers counted from `first`. */
  ghost predicate Counted(staged: seq<StagedRule>, first: U32, n: nat) {
    n <= |staged| && forall i :: 0 <= i < n ==> staged[i].sequence == Counter(first, i) % BLOCK
  }

  lemma {:induction false} SamePlace(s: Engine, rules: seq<RuleRequest>, r: RuleRequest, i: nat)
    requires Mirrors(s, rules) && i <= |rules|
    ensures FirstIdentity(s.staged, r, i) == if Place(rules, r, i) < |rules| then Place(rules, r, i) else MAX_RULES
    decreases |rules| - i
  {
    if i < |rules| {
      if !SameIdentity(rules[i], r) { SamePlace(s, rules, r, i + 1); }
    } else {
      NoneBehind(s.staged, r, i);
    }
  }

  lemma {:induction false} FreeIsNext(s: Engine, rules: seq<RuleRequest>, i: nat)
    requires Mirrors(s, rules) && i <= |rules|
    ensures FirstFree(s.staged, i) == |rules|
    decreases |rules| - i
  {
    if i < |rules| { FreeIsNext(s, rules, i + 1); }
  }

  lemma FilledReplace(staged: seq<StagedRule>, rules: seq<RuleRequest>, k: nat, s: StagedRule, r: RuleRequest)
    requires Filled(staged, rules) && k < |rules| && Staging(s, r)
    ensures Filled(staged[k := s], rules[k := r])
  {
    hide InitialValue;
  }

  lemma FilledAppend(staged: seq<StagedRule>, rules: seq<RuleRequest>, s: StagedRule, r: RuleRequest)
    requires Filled(staged, rules) && |rules| < MAX_RULES && Staging(s, r)
    ensures Filled(staged[|rules| := s], rules + [r])
  {
    assert s.inUse;
    hide Staging;
    forall i | 0 <= i < |rules| + 1 ensures Staging(staged[|rules| := s][i], (rules + [r])[i]) {}
  }

  /** The slot of a rule is the place of its identity, else the next one. */
  lemma SlotIsPlace(s: Engine, rules: seq<RuleRequest>, r: RuleRequest)
    requires Mirrors(s, rules)
    ensures StageSlot(s, r) == Place(rules, r, 0)
  {
    SamePlace(s, rules, r, 0);
    FreeIsNext(s, rules, 0);
  }

  /** Staging one rule adds it under the next number, or replaces the one of its identity in place. */
  lemma StageMirrors(s: Engine, rules: seq<RuleRequest>, r: RuleRequest)
    requires Mirrors(s, rules) && Acceptable(r)
    ensures CanStage(s, r) <==> |AddOrReplace(rules, r)| <= MAX_RULES
    ensures CanStage(s, r) ==> Mirrors(Stage(s, r), AddOrReplace(rules, r))
  {
    hide Acceptable, StageSlot, InitialValue;
    SlotIsPlace(s, rules, r);
    var k := Place(rules, r, 0);
    hide Place;
    if k < |rules| {
      FilledReplace(s.staged, rules, k, StagedAs(k, s.staged[k].sequence, r), r);
    } else if |rules| < MAX_RULES {
      FilledAppend(s.staged, rules, StagedAs(|rules|, s.nextSequence % BLOCK, r), r);
    }
  }

  lemma StageCounts(s: Engine, rules: seq<RuleRequest>, r: RuleRequest, first: U32)
    requires Mirrors(s, rules) && CanStage(s, r)
    requires Counted(s.staged, first, |rules|) && s.nextSequence == Counter(first, |rules|)
    ensures var n := |AddOrReplace(rules, r)|;
      Counted(Stage(s, r).staged, first, n) && Stage(s, r).nextSequence == Counter(first, n)
  {
    hide Acceptable, StageSlot, InitialValue, Counter;
    SlotIsPlace(s, rules, r);
    CounterStep(first, |rules|);
    hide Place;
  }

  lemma CounterStep(first: U32, k: nat)
    ensures Counter(first, k + 1) == Advance(Counter(first, k))
  {
  }

  lemma {:induction false} RowsMirror(e: Engine, rows: seq<Row>)
    requires Inv(e)
    ensures StageRows(e, rows).Some? <==> Loadable(rows)
    ensures Loadable(rows) ==> Mirrors(StageRows(e, rows).value, Meaning(rows))
    ensures Loadable(rows) ==>
      var s := StageRows(e, rows).value;
      Counted(s.staged, e.nextSequence, |Meaning(rows)|) &&
      s.nextSequence == Counter(e.nextSequence, |Meaning(rows)|)
  {
    hide Inv, Stage, Acceptable, Bound, AddOrReplace;
    if rows != [] {
      var init, row := rows[..|rows| - 1], rows[|rows| - 1];
      RowsMirror(e, init);
      if Loadable(init) && row.RuleRow? {
        var s, r := StageRows(e, init).value, Bound(row.request, BindingsAfter(init));
        if Acceptable(r) {
          StageMirrors(s, Meaning(init), r);
          if CanStage(s, r) { StageCounts(s, Meaning(init), r, e.nextSequence); }
        }
      }
    }
  }

  // ---------------------------------------------------------------- the order of what is staged

  lemma {:induction false} CounterInBlock(first: U32, k: nat)
    requires first % BLOCK + k < BLOCK
    ensures Counter(first, k) == first + k
  {
    if k > 0 { CounterInBlock(first, k - 1); }
  }

  function InOrder(n: nat): seq<nat> {
    seq(n, i requires 0 <= i < n => i)
  }

  lemma SlotOrder(staged: seq<StagedRule>, rules: seq<RuleRequest>, first: U32)
    requires Filled(staged, rules) && Counted(staged, first, |rules|) && first % BLOCK + |rules| <= BLOCK
    ensures Order(staged) == InOrder(|rules|)
  {
    hide Order, Staging, Counter;
    var ids := InOrder(|rules|);
    OrderIsOrder(staged);
    forall i | 0 <= i < |rules| ensures staged[i].inUse { StagingUsed(staged[i], rules[i]); }
    forall i, j | 0 <= i < j < |rules| ensures Before(staged, ids[i], ids[j]) {
      CounterInBlock(first, i);
      CounterInBlock(first, j);
    }
    forall i | 0 <= i < |staged| && staged[i].inUse ensures i in ids { assert ids[i] == i; }
    OrderUnique(staged, Order(staged), ids);
  }

  lemma SlotsOutOfOrder(staged: seq<StagedRule>, first: U32, n: nat)
    requires Counted(staged, first, n) && first % BLOCK + n > BLOCK
    ensures var k := BLOCK - 1 - first % BLOCK; k + 1 < n && !Before(staged, k, k + 1)
  {
    hide Counter;
    CounterInBlock(first, BLOCK - 1 - first % BLOCK);
    CounterStep(first, BLOCK - 1 - first % BLOCK);
  }

  /** The staged order is the slot order exactly when the counter stays within a block of 65536. */
  lemma SlotOrderIff(staged: seq<StagedRule>, rules: seq<RuleRequest>, first: U32)
    requires Filled(staged, rules) && Counted(staged, first, |rules|)
    ensures Order(staged) == InOrder(|rules|) <==> first % BLOCK + |rules| <= BLOCK
  {
    hide Order, Filled, Counted, Before;
    OrderIsOrder(staged);
    var ids := InOrder(|rules|);
    if first % BLOCK + |rules| <= BLOCK {
      SlotOrder(staged, rules, first);
    } else {
      SlotsOutOfOrder(staged, first, |rules|);
      var k := BLOCK - 1 - first % BLOCK;
      assert ids[k] == k && ids[k + 1] == k + 1;
    }
  }

  lemma StagingUsed(s: StagedRule, r: RuleRequest)
    requires Staging(s, r)
    ensures s.inUse
  {
  }

  lemma {:induction false} UsedFirst(staged: seq<StagedRule>, n: nat)
    requires n <= |staged| && forall i :: 0 <= i < |staged| ==> (staged[i].inUse <==> i < n)
    ensures Used(staged) == n
  {
    if n < |staged| { UsedFirst(staged[..|staged| - 1], n); }
    else if n > 0 { UsedFirst(staged[..n - 1], n - 1); }
  }

  ghost predicate RulesResolve(rules: seq<RuleRequest>, reg: Registry) {
    forall i :: 0 <= i < |rules| ==> Resolves(rules[i], reg)
  }

  /** What is staged commits exactly when all of it resolves. */
  lemma MirrorResolves(s: Engine, rules: seq<RuleRequest>, reg: Registry)
    requires Mirrors(s, rules)
    ensures CommitSucceeds(s, reg) <==> RulesResolve(rules, reg)
  {
    hide Resolves;
    OrderIsOrder(s.staged);
    var ids := Order(s.staged);
    forall k | 0 <= k < |ids| ensures ids[k] < |rules| && Authored(s.staged)[k].request == rules[ids[k]] {
      assert Staging(s.staged[ids[k]], rules[ids[k]]);
    }
    forall i | 0 <= i < |rules| ensures exists k :: 0 <= k < |ids| && Authored(s.staged)[k].request == rules[i] {
      assert Staging(s.staged[i], rules[i]);
      assert i in ids;
      var k :| 0 <= k < |ids| && ids[k] == i;
      assert Authored(s.staged)[k].request == rules[i];
    }
  }

  /** The rules are committed, rule k in slot k, live with its initial value and switch. */
  ghost predicate Installed(e: Engine, rules: seq<RuleRequest>) {
    && |e.committed| == |rules| <= |e.runtime|
    && (forall k :: 0 <= k < |rules| ==> Live(Shadow(e.committed, k), e.runtime[k], rules[k]))
  }

  /** The committed list, by which frames are processed, has them in package order. */
  ghost predicate InPackageOrder(e: Engine) {
    forall k :: 0 <= k < |e.committed| ==> e.committed[k].ruleId == k
  }

  ghost predicate Live(shadow: Option<StagedRule>, runtime: Runtime, r: RuleRequest) {
    shadow.Some? && shadow.value.request == r && runtime == Runtime(InitialValue(r), r.enabled)
  }

  lemma CommittedForm(s: Engine, rules: seq<RuleRequest>, reg: Registry)
    requires Inv(s) && Mirrors(s, rules) && CommitSucceeds(s, reg)
    ensures Commit(s, reg).staged == CandidateOf(Commit(s, reg).committed)
    ensures |Commit(s, reg).committed| == |rules|
    ensures forall k :: 0 <= k < |rules| ==> StagedOk(s.staged[k], k)
  {
    hide Resolves, Acceptable;
    CommitPreserves(s, reg);
    SlotsStagedOk(s);
    OrderCounts(s.staged, |s.staged|);
    assert s.staged[..|s.staged|] == s.staged;
    UsedFirst(s.staged, |rules|);
  }

  lemma CommittedOrder(s: Engine, rules: seq<RuleRequest>, reg: Registry, first: U32)
    requires Mirrors(s, rules) && CommitSucceeds(s, reg) && |s.staged| == |s.runtime|
    requires Counted(s.staged, first, |rules|) && forall k :: 0 <= k < |rules| ==> s.staged[k].ruleId == k
    requires |Commit(s, reg).committed| == |rules|
    ensures InPackageOrder(Commit(s, reg)) <==> first % BLOCK + |rules| <= BLOCK
  {
    hide CommitSucceeds;
    OrderIsOrder(s.staged);
    SlotOrderIff(s.staged, rules, first);
    var order, c := Order(s.staged), Commit(s, reg).committed;
    forall k | 0 <= k < |rules| ensures c[k].ruleId == order[k] {}
    if InPackageOrder(Commit(s, reg)) { assert order == InOrder(|rules|); }
  }

  lemma CommitInstalls(s: Engine, rules: seq<RuleRequest>, reg: Registry)
    requires Inv(s) && Mirrors(s, rules) && CommitSucceeds(s, reg)
    ensures Installed(Commit(s, reg), rules)
  {
    hide CommitSucceeds, InitialValue, Acceptable, Shadow, InstalledOk, CommittedInOrder, DistinctIdentities;
    CommittedForm(s, rules, reg);
    var after := Commit(s, reg);
    forall k | 0 <= k < |rules| ensures Live(Shadow(after.committed, k), after.runtime[k], rules[k]) {
      assert Staging(s.staged[k], rules[k]) && after.staged[k].inUse;
    }
  }

  lemma InstalledOrder(s: Engine, rules: seq<RuleRequest>, reg: Registry, first: U32)
    requires Inv(s) && Mirrors(s, rules) && CommitSucceeds(s, reg)
    requires Counted(s.staged, first, |rules|)
    ensures InPackageOrder(Commit(s, reg)) <==> first % BLOCK + |rules| <= BLOCK
  {
    hide CommitSucceeds, Commit;
    CommittedForm(s, rules, reg);
    CommittedOrder(s, rules, reg, first);
  }

  /** A package is loaded exactly when every row is well formed and acceptable, it has a rule, and all
      its names resolve. Then its meaning is what is committed and live. The committed order is the
      package's if and only if its identities do not take the sequence counter past a multiple of
      65536. */
  lemma PackageMeaning(e: Engine, rows: seq<Row>, reg: Registry)
    requires Inv(e)
    ensures Loads(e, rows, reg) <==> (Loadable(rows) && RuleRows(rows) > 0 && RulesResolve(Meaning(rows), reg))
    ensures Loads(e, rows, reg) ==> Inv(Load(e, rows, reg)) && Installed(Load(e, rows, reg), Meaning(rows))
    ensures Loads(e, rows, reg) ==>
      (InPackageOrder(Load(e, rows, reg)) <==> e.nextSequence % BLOCK + |Meaning(rows)| <= BLOCK)
  {
    RowsMirror(e, rows);
    StagedInv(e, rows);
    if Loadable(rows) {
      var s := StageRows(e, rows).value;
      MirrorResolves(s, Meaning(rows), reg);
      hide Inv, Mirrors, CommitSucceeds, Commit, Installed, InPackageOrder, Counted;
      if CommitSucceeds(s, reg) {
        CommitInstalls(s, Meaning(rows), reg);
        CommitPreserves(s, reg);
        InstalledOrder(s, Meaning(rows), reg, e.nextSequence);
      }
    }
  }

  // ---------------------------------------------------------------- the meaning, row by row

  /** A rule row with the bindings of its position. */
  function RuleOf(rows: seq<Row>, i: nat): RuleRequest
    requires i < |rows| && rows[i].RuleRow?
  {
    Bound(rows[i].request, BindingsAfter(rows[..i]))
  }

  /** `first` and `last` are the first and last rows of each rule's identity. */
  ghost predicate Described(rows: seq<Row>, rules: seq<RuleRequest>, first: seq<nat>, last: seq<nat>) {
    && |first| == |last| == |rules|
    && (forall k :: 0 <= k < |rules| ==> Spans(rows, rules[k], first[k], last[k]))
    && (forall j, k :: 0 <= j < k < |rules| ==> first[j] < first[k])
    && AllRepresented(rows, rules)
  }

  ghost predicate AllRepresented(rows: seq<Row>, rules: seq<RuleRequest>) {
    forall i :: 0 <= i < |rows| && rows[i].RuleRow? ==> Represented(rules, RuleOf(rows, i))
  }

  /** A rule is the last row of its identity; its place is that of the first. */
  ghost predicate Spans(rows: seq<Row>, rule: RuleRequest, first: nat, last: nat) {
    && first <= last < |rows| && rows[first].RuleRow? && rows[last].RuleRow?
    && RuleOf(rows, last) == rule && SameIdentity(RuleOf(rows, first), rule)
    && forall i :: 0 <= i < |rows| && rows[i].RuleRow? && SameIdentity(RuleOf(rows, i), rule) ==> first <= i <= last
  }

  ghost predicate Represented(rules: seq<RuleRequest>, r: RuleRequest) {
    exists k :: 0 <= k < |rules| && SameIdentity(rules[k], r)
  }

  lemma {:induction false} PlaceFinds(rules: seq<RuleRequest>, r: RuleRequest, i: nat)
    requires i <= |rules|
    ensures Place(rules, r, i) < |rules| ==> SameIdentity(rules[Place(rules, r, i)], r)
    ensures forall j :: i <= j < Place(rules, r, i) ==> !SameIdentity(rules[j], r)
    decreases |rules| - i
  {
    hide SameIdentity;
    if i < |rules| && !SameIdentity(rules[i], r) { PlaceFinds(rules, r, i + 1); }
  }

  lemma RuleOfPrefix(rows: seq<Row>, n: nat, i: nat)
    requires i < n <= |rows| && rows[i].RuleRow?
    ensures RuleOf(rows[..n], i) == RuleOf(rows, i)
  {
    assert rows[..n][..i] == rows[..i];
  }

  /** One more row that is not of this rule's identity */
  lemma SpansMore(rows: seq<Row>, rule: RuleRequest, first: nat, last: nat)
    requires rows != [] && Spans(rows[..|rows| - 1], rule, first, last)
    requires rows[|rows| - 1].RuleRow? ==> !SameIdentity(RuleOf(rows, |rows| - 1), rule)
    ensures Spans(rows, rule, first, last)
  {
    var n := |rows| - 1;
    RuleOfPrefix(rows, n, first);
    RuleOfPrefix(rows, n, last);
    hide RuleOf, SameIdentity;
    forall i | 0 <= i < |rows| && rows[i].RuleRow? && SameIdentity(RuleOf(rows, i), rule) ensures first <= i <= last {
      if i < n { RuleOfPrefix(rows, n, i); }
    }
  }

  /** One more row of this rule's identity replaces the rule. */
  lemma SpansReplaced(rows: seq<Row>, rule: RuleRequest, first: nat, last: nat)
    requires rows != [] && Spans(rows[..|rows| - 1], rule, first, last)
    requires rows[|rows| - 1].RuleRow? && SameIdentity(rule, RuleOf(rows, |rows| - 1))
    ensures Spans(rows, RuleOf(rows, |rows| - 1), first, |rows| - 1)
  {
    var n := |rows| - 1;
    var r := RuleOf(rows, n);
    RuleOfPrefix(rows, n, first);
    RuleOfPrefix(rows, n, last);
    SameTransfers(RuleOf(rows, first), r, rule);
    SameTransfers(rule, r, r);
    hide RuleOf;
    forall i | 0 <= i < |rows| && rows[i].RuleRow? && SameIdentity(RuleOf(rows, i), r) ensures first <= i <= n {
      if i < n {
        RuleOfPrefix(rows, n, i);
        SameTransfers(RuleOf(rows, i), rule, r);
      }
    }
  }

  /** The first row of an identity */
  lemma SpansNew(rows: seq<Row>, rules: seq<RuleRequest>)
    requires rows != [] && rows[|rows| - 1].RuleRow?
    requires forall i :: 0 <= i < |rows| - 1 && rows[i].RuleRow? ==> Represented(rules, RuleOf(rows, i))
    requires !Represented(rules, RuleOf(rows, |rows| - 1))
    ensures Spans(rows, RuleOf(rows, |rows| - 1), |rows| - 1, |rows| - 1)
  {
    var r := RuleOf(rows, |rows| - 1);
    SameTransfers(r, r, r);
    hide RuleOf;
    forall i | 0 <= i < |rows| && rows[i].RuleRow? && SameIdentity(RuleOf(rows, i), r) ensures i == |rows| - 1 {
      if i < |rows| - 1 {
        var k :| 0 <= k < |rules| && SameIdentity(rules[k], RuleOf(rows, i));
        SameTransfers(RuleOf(rows, i), r, r);
        SameTransfers(rules[k], r, RuleOf(rows, i));
        assert false;
      }
    }
  }

  /** Two places never share an identity. */
  lemma DescribedDistinct(rows: seq<Row>, rules: seq<RuleRequest>, first: seq<nat>, last: seq<nat>, j: nat, k: nat)
    requires Described(rows, rules, first, last) && j < k < |rules|
    ensures !SameIdentity(rules[j], rules[k])
  {
    hide SameIdentity, RuleOf;
    assert Spans(rows, rules[j], first[j], last[j]) && Spans(rows, rules[k], first[k], last[k]);
    SameTransfers(rules[j], rules[k], rules[k]);
    SameTransfers(RuleOf(rows, first[j]), rules[k], rules[j]);
    SameTransfers(RuleOf(rows, first[k]), rules[j], rules[k]);
  }

  lemma RepresentedAfter(rules: seq<RuleRequest>, r: RuleRequest, row: RuleRequest)
    requires Represented(rules, row)
    ensures Represented(AddOrReplace(rules, r), row)
  {
    var place := Place(rules, r, 0);
    PlaceFinds(rules, r, 0);
    var k :| 0 <= k < |rules| && SameIdentity(rules[k], row);
    var after := AddOrReplace(rules, r);
    if k == place {
      SameTransfers(r, rules[k], rules[k]);
      SameTransfers(rules[k], row, row);
      SameTransfers(r, row, rules[k]);
      assert SameIdentity(after[k], row);
    } else {
      assert SameIdentity(after[k], row);
    }
  }

  lemma NowRepresented(rules: seq<RuleRequest>, r: RuleRequest)
    ensures Represented(AddOrReplace(rules, r), r)
  {
    var k := Place(rules, r, 0);
    SameTransfers(r, r, r);
    assert SameIdentity(AddOrReplace(rules, r)[k], r);
  }

  lemma NotYetRepresented(rules: seq<RuleRequest>, r: RuleRequest)
    requires Place(rules, r, 0) == |rules|
    ensures !Represented(rules, r)
  {
    PlaceFinds(rules, r, 0);
  }

  lemma DescribedPlain(rows: seq<Row>, rules: seq<RuleRequest>, first: seq<nat>, last: seq<nat>)
    requires rows != [] && !rows[|rows| - 1].RuleRow? && Described(rows[..|rows| - 1], rules, first, last)
    ensures Described(rows, rules, first, last)
  {
    hide SameIdentity;
    forall k | 0 <= k < |rules| ensures Spans(rows, rules[k], first[k], last[k]) {
      SpansMore(rows, rules[k], first[k], last[k]);
    }
    hide Spans, Represented;
    forall i | 0 <= i < |rows| && rows[i].RuleRow? ensures Represented(rules, RuleOf(rows, i)) {
      RuleOfPrefix(rows, |rows| - 1, i);
    }
  }

  /** The other places after one more row */
  lemma SpansOthers(rows: seq<Row>, rules: seq<RuleRequest>, first: seq<nat>, last: seq<nat>, k: nat, j: nat)
    requires rows != [] && rows[|rows| - 1].RuleRow? && Described(rows[..|rows| - 1], rules, first, last)
    requires k == Place(rules, RuleOf(rows, |rows| - 1), 0) && j < |rules| && j != k
    ensures Spans(rows, rules[j], first[j], last[j])
  {
    var n := |rows| - 1;
    var r := RuleOf(rows, n);
    PlaceFinds(rules, r, 0);
    hide RuleOf, Place;
    assert !SameIdentity(r, rules[j]) by {
      hide Described;
      SameTransfers(rules[j], r, r);
      if j > k {
        DescribedDistinct(rows[..n], rules, first, last, k, j);
        SameTransfers(rules[k], rules[j], r);
      }
    }
    hide SameIdentity;
    SpansMore(rows, rules[j], first[j], last[j]);
  }

  lemma RepresentedStill(rows: seq<Row>, rules: seq<RuleRequest>)
    requires rows != [] && rows[|rows| - 1].RuleRow? && AllRepresented(rows[..|rows| - 1], rules)
    ensures AllRepresented(rows, AddOrReplace(rules, RuleOf(rows, |rows| - 1)))
  {
    var n := |rows| - 1;
    var r := RuleOf(rows, n);
    hide RuleOf, Represented, AddOrReplace;
    forall i | 0 <= i < |rows| && rows[i].RuleRow? ensures Represented(AddOrReplace(rules, r), RuleOf(rows, i)) {
      if i == n {
        NowRepresented(rules, r);
      } else {
        RuleOfPrefix(rows, n, i);
        assert Represented(rules, RuleOf(rows[..n], i));
        RepresentedAfter(rules, r, RuleOf(rows, i));
      }
    }
  }

  lemma SpansAll(rows: seq<Row>, n: nat, r: RuleRequest, rules: seq<RuleRequest>, first: seq<nat>, last: seq<nat>,
                 k: nat)
    requires n + 1 == |rows| && rows[n].RuleRow? && r == RuleOf(rows, n) && k == Place(rules, r, 0)
    requires Described(rows[..n], rules, first, last)
    ensures forall j :: 0 <= j < |rules| && j != k ==> Spans(rows, rules[j], first[j], last[j])
    ensures k < |rules| ==> Spans(rows, r, first[k], n)
  {
    PlaceFinds(rules, r, 0);
    hide Place, RuleOf, SameIdentity, Spans, AllRepresented;
    assert rows[..n] == rows[..|rows| - 1];
    if k < |rules| {
      assert Spans(rows[..n], rules[k], first[k], last[k]);
      SpansReplaced(rows, rules[k], first[k], last[k]);
    }
    forall j | 0 <= j < |rules| && j != k ensures Spans(rows, rules[j], first[j], last[j]) {
      SpansOthers(rows, rules, first, last, k, j);
    }
  }

  lemma Added(rules: seq<RuleRequest>, r: RuleRequest, k: nat)
    requires k == Place(rules, r, 0)
    ensures AddOrReplace(rules, r) == if k < |rules| then rules[k := r] else rules + [r]
  {}

  lemma FirstsBefore(rows: seq<Row>, rules: seq<RuleRequest>, first: seq<nat>, last: seq<nat>)
    requires Described(rows, rules, first, last)
    ensures forall j :: 0 <= j < |rules| ==> first[j] < |rows|
  {
    forall j | 0 <= j < |rules| ensures first[j] < |rows| { assert Spans(rows, rules[j], first[j], last[j]); }
  }

  lemma DescribedAgain(rows: seq<Row>, n: nat, r: RuleRequest, rules: seq<RuleRequest>, first: seq<nat>,
                       last: seq<nat>, k: nat)
    requires n + 1 == |rows| && rows[n].RuleRow? && r == RuleOf(rows, n) && k == Place(rules, r, 0) < |rules|
    requires Described(rows[..n], rules, first, last)
    ensures Described(rows, AddOrReplace(rules, r), first, last[k := n])
  {
    hide RuleOf, Place, AddOrReplace, Spans, AllRepresented;
    Added(rules, r, k);
    SpansAll(rows, n, r, rules, first, last, k);
    RepresentedStill(rows, rules);
  }

  lemma DescribedNew(rows: seq<Row>, n: nat, r: RuleRequest, rules: seq<RuleRequest>, first: seq<nat>, last: seq<nat>)
    requires n + 1 == |rows| && rows[n].RuleRow? && r == RuleOf(rows, n) && Place(rules, r, 0) == |rules|
    requires Described(rows[..n], rules, first, last)
    ensures Described(rows, AddOrReplace(rules, r), first + [n], last + [n])
  {
    hide RuleOf, Place, AddOrReplace, Spans, AllRepresented;
    Added(rules, r, |rules|);
    FirstsBefore(rows[..n], rules, first, last);
    SpansAll(rows, n, r, rules, first, last, |rules|);
    SpansFirst(rows, rules);
    RepresentedStill(rows, rules);
  }

  lemma SpansFirst(rows: seq<Row>, rules: seq<RuleRequest>)
    requires rows != [] && rows[|rows| - 1].RuleRow? && AllRepresented(rows[..|rows| - 1], rules)
    requires Place(rules, RuleOf(rows, |rows| - 1), 0) == |rules|
    ensures Spans(rows, RuleOf(rows, |rows| - 1), |rows| - 1, |rows| - 1)
  {
    var n := |rows| - 1;
    NotYetRepresented(rules, RuleOf(rows, n));
    hide RuleOf, Place, Represented;
    forall i | 0 <= i < n && rows[i].RuleRow? ensures Represented(rules, RuleOf(rows, i)) {
      RuleOfPrefix(rows, n, i);
    }
    SpansNew(rows, rules);
  }

  /** The meaning of a package, read off its rows: every identity of its rule rows once, at the place
      of its first row, with the content of its last row under the bindings in force there. */
  lemma {:induction false} MeaningDescribed(rows: seq<Row>) returns (first: seq<nat>, last: seq<nat>)
    ensures Described(rows, Meaning(rows), first, last)
  {
    hide Spans, Represented, Place;
    if rows == [] {
      first, last := [], [];
    } else {
      var n := |rows| - 1;
      var f, l := MeaningDescribed(rows[..n]);
      assert |l| == |Meaning(rows[..n])|;
      hide Described;
      if !rows[n].RuleRow? {
        DescribedPlain(rows, Meaning(rows[..n]), f, l);
        first, last := f, l;
      } else {
        var k := Place(Meaning(rows[..n]), RuleOf(rows, n), 0);
        hide AddOrReplace;
        assert Meaning(rows) == AddOrReplace(Meaning(rows[..n]), RuleOf(rows, n));
        hide Meaning, RuleOf;
        if k < |Meaning(rows[..n])| {
          DescribedAgain(rows, n, RuleOf(rows, n), Meaning(rows[..n]), f, l, k);
          first, last := f, l[k := n];
        } else {
          DescribedNew(rows, n, RuleOf(rows, n), Meaning(rows[..n]), f, l);
          first, last := f + [n], l + [n];
        }
      }
    }
  }
}
