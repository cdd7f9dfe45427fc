/** The compile half of `applyCommit` (core/mutation_engine.cpp): insertion sort, counting pass,
    prefix sums and placement, proved to fill a table with exactly what `CompileSpec` asks for. */
module Compiler {
  import opened Types
  import opened Rules
  import opened CompileSpec
  import opened RuleTable
  import opened ListingOrder

  /** Insertion sort of the used slots by sequence number; equal numbers keep slot order. */
  method OrderSlots(staged: array<StagedRule>) returns (ids: array<nat>, count: nat)
    ensures fresh(ids) && count <= ids.Length == staged.Length
    ensures ids[..count] == Order(staged[..])
  {
    ids := new nat[staged.Length];
    count := 0;
    ghost var s := staged[..];
    var slot := 0;
    while slot < staged.Length
      invariant slot <= staged.Length && count <= slot
      invariant ids[..count] == OrderUpTo(s, slot)
    {
      if staged[slot].inUse {
        OrderUpToSlots(s, slot);
        forall i | 0 <= i < count ensures ids[i] < staged.Length { assert ids[..count][i] in OrderUpTo(s, slot); }
        InsertInto(staged[..], ids, count, slot);
        count := count + 1;
      }
      slot := slot + 1;
    }
  }

  lemma InsertStep(s: seq<StagedRule>, was: seq<nat>, k: nat, slot: nat)
    requires 0 < k <= |was| && Sequence(s, was[k - 1]) > Sequence(s, slot)
    ensures InsertSlot(s, was[..k], slot) + was[k..] == InsertSlot(s, was[..k - 1], slot) + was[k - 1..]
  {
    assert was[..k][..k - 1] == was[..k - 1];
    assert was[k - 1..] == [was[k - 1]] + was[k..];
  }

  lemma InsertHere(s: seq<StagedRule>, was: seq<nat>, k: nat, slot: nat)
    requires k <= |was| && (k > 0 ==> Sequence(s, was[k - 1]) <= Sequence(s, slot))
    ensures InsertSlot(s, was[..k], slot) == was[..k] + [slot]
  {
  }

  /** The ids from place `k` on have moved up by one. */
  predicate Shifted(ids: seq<nat>, was: seq<nat>, k: nat) {
    k <= |was| && |ids| == |was| + 1 && ids[..k] == was[..k] && ids[k + 1..] == was[k..]
  }

  lemma ShiftStep(ids: seq<nat>, was: seq<nat>, k: nat)
    requires Shifted(ids, was, k) && k > 0
    ensures ids[k - 1] == was[k - 1] && Shifted(ids[k := ids[k - 1]], was, k - 1)
  {
    var next := ids[k := ids[k - 1]];
    assert ids[k - 1] == ids[..k][k - 1];
    assert next[k..] == [next[k]] + ids[k + 1..] && was[k - 1..] == [was[k - 1]] + was[k..];
    assert next[..k - 1] == ids[..k][..k - 1] && was[..k - 1] == was[..k][..k - 1];
  }

  lemma ShiftEnd(ids: seq<nat>, was: seq<nat>, k: nat, slot: nat)
    requires Shifted(ids, was, k)
    ensures k > 0 ==> ids[k - 1] == was[k - 1]
    ensures ids[k := slot] == was[..k] + [slot] + was[k..]
  {
    if k > 0 { assert ids[k - 1] == ids[..k][k - 1]; }
  }

  method InsertInto(s: seq<StagedRule>, ids: array<nat>, count: nat, slot: nat)
    requires count < ids.Length && slot < |s|
    requires forall i :: 0 <= i < count ==> ids[i] < |s|
    modifies ids
    ensures ids[..count + 1] == InsertSlot(s, old(ids[..count]), slot)
  {
    hide InsertSlot, Shifted;
    ghost var was: seq<nat> := ids[..count];
    var insertAt := count;
    ShiftStart(ids[..count + 1], was);
    while insertAt > 0 && s[ids[insertAt - 1]].sequence > s[slot].sequence
      invariant insertAt <= count && Shifted(ids[..count + 1], was, insertAt)
      invariant InsertSlot(s, was, slot) == InsertSlot(s, was[..insertAt], slot) + was[insertAt..]
      invariant insertAt > 0 ==> ids[insertAt - 1] == was[insertAt - 1]
    {
      ghost var before := ids[..count + 1];
      ShiftStep(before, was, insertAt);
      InsertStep(s, was, insertAt, slot);
      ids[insertAt] := ids[insertAt - 1];
      assert ids[..count + 1] == before[insertAt := before[insertAt - 1]];
      insertAt := insertAt - 1;
      ShiftEnd(ids[..count + 1], was, insertAt, slot);
    }
    InsertHere(s, was, insertAt, slot);
    ghost var before := ids[..count + 1];
    ShiftEnd(before, was, insertAt, slot);
    ids[insertAt] := slot;
    assert ids[..count + 1] == before[insertAt := slot];
  }

  lemma ShiftStart(ids: seq<nat>, was: seq<nat>)
    requires |ids| == |was| + 1 && ids[..|was|] == was
    ensures Shifted(ids, was, |was|) && (|was| > 0 ==> ids[|was| - 1] == was[|was| - 1])
  {
    if |was| > 0 { assert ids[|was| - 1] == ids[..|was|][|was| - 1]; }
  }

  // ---------------------------------------------------------------- counting pass

  /** The groups of `gs` are those of `a`, each with its size. */
  ghost predicate Counted(gs: seq<RuleGroup>, a: seq<StagedRule>) {
    && KeysOf(gs) == GroupKeys(a)
    && forall g {:trigger gs[g].ruleCount} :: 0 <= g < |gs| ==> gs[g].ruleCount == CountKey(a, gs[g].key)
  }

  lemma CountedGroup(gs: seq<RuleGroup>, mid: seq<RuleGroup>, a: seq<StagedRule>, j: nat, g: nat, h: nat)
    requires j < |a| && Counted(gs, a[..j]) && g < |mid| && h < |mid|
    requires mid[g].key == a[j].request.Key() && Ensured(gs, mid, a[j].request.Key())
    requires KeysOf(mid) == GroupKeys(a[..j + 1])
    ensures Grown(mid, g)[h].ruleCount == CountKey(a[..j + 1], Grown(mid, g)[h].key)
  {
    var hs := Grown(mid, g);
    KeysOfAuthored(a, j);
    KeysOfAuthored(a, j + 1);
    CountKeyStep(a, j, hs[h].key);
    assert KeysOf(mid)[h] == mid[h].key && KeysOf(mid)[g] == mid[g].key;
    if h < |gs| { assert mid[h] == mid[..|gs|][h] == gs[h]; }
  }

  /** Counting one more rule: `mid` is `gs` with the rule's group present. */
  lemma CountedStep(gs: seq<RuleGroup>, mid: seq<RuleGroup>, a: seq<StagedRule>, j: nat, g: nat)
    requires j < |a| && Counted(gs, a[..j]) && g < |mid|
    requires mid[g].key == a[j].request.Key()
    requires Ensured(gs, mid, a[j].request.Key())
    ensures Counted(Grown(mid, g), a[..j + 1])
  {
    var key := a[j].request.Key();
    var hs := Grown(mid, g);
    KeysOfAuthored(a, j);
    KeysOfAuthored(a, j + 1);
    GroupKeysStep(a, j);
    assert KeysOf(hs) == KeysOf(mid);
    assert KeysOf(mid) == GroupKeys(a[..j + 1]);
    forall h | 0 <= h < |hs| ensures hs[h].ruleCount == CountKey(a[..j + 1], hs[h].key) {
      CountedGroup(gs, mid, a, j, g, h);
    }
  }

  lemma FewGroups(gs: seq<RuleGroup>, a: seq<StagedRule>, j: nat)
    requires j <= |a| && Counted(gs, a[..j])
    ensures |gs| <= j
  {
    KeysOfAuthored(a, j);
  }

  method CountRule(t: ActiveRuleTable, a: seq<StagedRule>, i: nat) returns (ok: bool)
    requires t.Chained() && i < |a| <= MAX_RULES && Counted(t.groups[..t.groupCount], a[..i])
    modifies t`groupCount, t.groups, t.bucketHead
    ensures ok && t.Chained() && Counted(t.groups[..t.groupCount], a[..i + 1])
  {
    ghost var gs := t.groups[..t.groupCount];
    FewGroups(gs, a, i);
    var g := t.EnsureGroup(a[i].request.Key());
    if g < 0 { return false; }
    ghost var mid := t.groups[..t.groupCount];
    t.Grow(g);
    CountedStep(gs, mid, a, i, g);
    return true;
  }

  /** Group sizes; the table never runs out of groups, because there are no more keys than rules. */
  method CountGroups(t: ActiveRuleTable, a: seq<StagedRule>) returns (ok: bool)
    requires t.Chained() && t.groupCount == 0 && |a| <= MAX_RULES
    modifies t`groupCount, t.groups, t.bucketHead
    ensures ok && t.Chained() && Counted(t.groups[..t.groupCount], a)
  {
    var i := 0;
    while i < |a|
      invariant i <= |a| && t.Chained() && Counted(t.groups[..t.groupCount], a[..i])
    {
      ok := CountRule(t, a, i);
      if !ok { return; }
      i := i + 1;
    }
    assert a[..i] == a;
    return true;
  }

  // ---------------------------------------------------------------- prefix sums

  ghost predicate Started(gs: seq<RuleGroup>, a: seq<StagedRule>) {
    && KeysOf(gs) == GroupKeys(a)
    && forall g {:trigger gs[g].firstRule} :: 0 <= g < |gs| ==>
         gs[g].firstRule == Start(a, GroupKeys(a), g) && gs[g].ruleCount == 0
  }

  /** Turn sizes into starts and reset the sizes for the placement pass. */
  method AssignStarts(t: ActiveRuleTable, ghost a: seq<StagedRule>)
    requires t.Chained() && Counted(t.groups[..t.groupCount], a)
    modifies t.groups
    ensures t.Chained() && Started(t.groups[..t.groupCount], a)
  {
    ghost var gs := t.groups[..t.groupCount];
    AccumulateStarts(t.groups, t.groupCount, a);
    ghost var hs := t.groups[..t.groupCount];
    StartedGroups(gs, hs, a);
    ChainsIgnoreCounts(t.hash, gs, hs, t.bucketHead[..]);
  }

  lemma NoStart(a: seq<StagedRule>, keys: seq<RuleKey>)
    ensures Start(a, keys, 0) == 0
  {
  }

  lemma NextStart(gs: seq<RuleGroup>, a: seq<StagedRule>, g: nat)
    requires Counted(gs, a) && g < |gs|
    ensures Start(a, KeysOf(gs), g + 1) == Start(a, KeysOf(gs), g) + gs[g].ruleCount
  {
    hide CountKey, GroupKeys;
    assert KeysOf(gs)[g] == gs[g].key;
  }

  method AccumulateStarts(groups: array<RuleGroup>, n: nat, ghost a: seq<StagedRule>)
    requires n <= groups.Length && Counted(groups[..n], a)
    modifies groups
    ensures forall h :: 0 <= h < n ==>
      groups[h] == old(groups[h]).(firstRule := Start(a, KeysOf(old(groups[..n])), h), ruleCount := 0)
  {
    hide Start, Counted, CountKey, GroupKeys;
    ghost var gs := groups[..n];
    var start, g := 0, 0;
    NoStart(a, KeysOf(gs));
    while g < n
      invariant g <= n && start == Start(a, KeysOf(gs), g)
      invariant forall h {:trigger groups[h]} :: 0 <= h < g ==>
        groups[h] == gs[h].(firstRule := Start(a, KeysOf(gs), h), ruleCount := 0)
      invariant forall h {:trigger groups[h]} :: g <= h < n ==> groups[h] == gs[h]
    {
      var count := groups[g].ruleCount;
      NextStart(gs, a, g);
      groups[g] := groups[g].(firstRule := start, ruleCount := 0);
      start := start + count;
      g := g + 1;
    }
  }

  lemma StartedGroups(gs: seq<RuleGroup>, hs: seq<RuleGroup>, a: seq<StagedRule>)
    requires Counted(gs, a) && |hs| == |gs|
    requires forall h :: 0 <= h < |gs| ==>
      hs[h] == gs[h].(firstRule := Start(a, KeysOf(gs), h), ruleCount := 0)
    ensures Started(hs, a)
  {
    assert KeysOf(hs) == KeysOf(gs);
  }

  // ---------------------------------------------------------------- placement

  /** The compiled forms of `part` stand in `rules` from `start` on. */
  ghost predicate StoredAt(part: seq<Entry>, rules: seq<CompiledRule>, start: nat, reg: Registry) {
    && start + |part| <= |rules|
    && forall i :: 0 <= i < |part| ==> Compiled(part[i], reg, rules[start + i])
  }

  /** Group `g` holds the part of `es` that has its key, from its start. */
  ghost predicate GroupPlaced(group: RuleGroup, g: nat, rules: seq<CompiledRule>,
                              a: seq<StagedRule>, es: seq<Entry>, reg: Registry) {
    var part := ForKey(es, group.key);
    && g < |GroupKeys(a)| && group.firstRule == Start(a, GroupKeys(a), g)
    && group.ruleCount == |part| <= CountKey(a, group.key)
    && StoredAt(part, rules, group.firstRule, reg)
  }

  ghost predicate AllPlaced(gs: seq<RuleGroup>, rules: seq<CompiledRule>,
                            a: seq<StagedRule>, es: seq<Entry>, reg: Registry) {
    && KeysOf(gs) == GroupKeys(a) && |a| <= |rules|
    && forall g {:trigger gs[g]} :: 0 <= g < |gs| ==> GroupPlaced(gs[g], g, rules, a, es, reg)
  }

  lemma GroupGains(group: RuleGroup, g: nat, rules: seq<CompiledRule>,
                   a: seq<StagedRule>, es: seq<Entry>, reg: Registry, e: Entry, c: CompiledRule)
    requires GroupPlaced(group, g, rules, a, es, reg) && e.Key() == group.key && Compiled(e, reg, c)
    requires |ForKey(es, group.key)| < CountKey(a, group.key)
    requires group.firstRule + group.ruleCount < |rules|
    ensures GroupPlaced(group.(ruleCount := group.ruleCount + 1), g,
                        rules[group.firstRule + group.ruleCount := c], a, es + [e], reg)
  {
    ForKeyStep(es, e, group.key);
  }

  lemma GroupKeeps(group: RuleGroup, g: nat, rules: seq<CompiledRule>,
                   a: seq<StagedRule>, es: seq<Entry>, reg: Registry, e: Entry, c: CompiledRule, w: nat)
    requires GroupPlaced(group, g, rules, a, es, reg) && e.Key() != group.key && w < |rules|
    requires w < group.firstRule || group.firstRule + CountKey(a, group.key) <= w
    ensures GroupPlaced(group, g, rules[w := c], a, es + [e], reg)
  {
    ForKeyStep(es, e, group.key);
  }

  /** Writing one rule behind its group's part advances the placement by one entry. */
  lemma PlacementStep(gs: seq<RuleGroup>, rules: seq<CompiledRule>, a: seq<StagedRule>,
                      es: seq<Entry>, reg: Registry, e: Entry, c: CompiledRule, g: nat)
    requires AllPlaced(gs, rules, a, es, reg) && g < |gs| && gs[g].key == e.Key() && Compiled(e, reg, c)
    requires |ForKey(es, e.Key())| < CountKey(a, e.Key())
    ensures gs[g].firstRule + gs[g].ruleCount < |rules|
    ensures AllPlaced(Grown(gs, g), rules[gs[g].firstRule + gs[g].ruleCount := c], a, es + [e], reg)
  {
    var keys := GroupKeys(a);
    WritesFit(gs, rules, a, es, reg, g);
    var w := gs[g].firstRule + gs[g].ruleCount;
    assert KeysOf(Grown(gs, g)) == KeysOf(gs);
    forall h | 0 <= h < |gs|
      ensures GroupPlaced(Grown(gs, g)[h], h, rules[w := c], a, es + [e], reg)
    {
      if h == g {
        GroupGains(gs[g], g, rules, a, es, reg, e, c);
      } else {
        OtherGroup(gs, rules, a, es, reg, g, h);
        GroupKeeps(gs[h], h, rules, a, es, reg, e, c, w);
      }
    }
  }

  lemma WritesFit(gs: seq<RuleGroup>, rules: seq<CompiledRule>, a: seq<StagedRule>,
                  es: seq<Entry>, reg: Registry, g: nat)
    requires AllPlaced(gs, rules, a, es, reg) && g < |gs|
    ensures gs[g].firstRule + CountKey(a, gs[g].key) <= |a|
  {
    var keys := GroupKeys(a);
    assert GroupPlaced(gs[g], g, rules, a, es, reg) && KeysOf(gs)[g] == gs[g].key;
    StartMonotone(a, keys, g, |keys|);
    StartTotal(a, |a|);
    assert a[..|a|] == a;
  }

  lemma OtherGroup(gs: seq<RuleGroup>, rules: seq<CompiledRule>, a: seq<StagedRule>,
                   es: seq<Entry>, reg: Registry, g: nat, h: nat)
    requires AllPlaced(gs, rules, a, es, reg) && g < |gs| && h < |gs| && g != h
    requires |ForKey(es, gs[g].key)| < CountKey(a, gs[g].key)
    ensures gs[h].key != gs[g].key
    ensures var w := gs[g].firstRule + gs[g].ruleCount;
      w < gs[h].firstRule || gs[h].firstRule + CountKey(a, gs[h].key) <= w
  {
    var keys := GroupKeys(a);
    assert GroupPlaced(gs[g], g, rules, a, es, reg) && KeysOf(gs)[g] == gs[g].key;
    assert GroupPlaced(gs[h], h, rules, a, es, reg) && KeysOf(gs)[h] == gs[h].key;
    KeysOfAuthored(a, |a|);
    assert a[..|a|] == a;
    if g < h { StartMonotone(a, keys, g, h); } else { StartMonotone(a, keys, h, g); }
  }

  /** Write cursors stand behind the placed part of their group. */
  ghost predicate CursorsOk(cursor: seq<nat>, gs: seq<RuleGroup>) {
    |gs| <= |cursor| && forall g {:trigger cursor[g]} :: 0 <= g < |gs| ==>
      cursor[g] == gs[g].firstRule + gs[g].ruleCount
  }

  /** One step of the placement pass. */
  method PlaceRule(t: ActiveRuleTable, cursor: array<nat>, e: Entry, reg: Registry,
                   ghost a: seq<StagedRule>, ghost es: seq<Entry>)
    returns (ok: bool)
    requires t.Chained() && Acceptable(e.rule.request) && e.Key() in GroupKeys(a)
    requires AllPlaced(t.groups[..t.groupCount], t.rules[..], a, es, reg)
    requires CursorsOk(cursor[..], t.groups[..t.groupCount])
    requires |ForKey(es, e.Key())| < CountKey(a, e.Key())
    modifies t`groupCount, t.rules, t.groups, t.bucketHead, cursor
    ensures ok <==> Resolves(e.rule.request, reg)
    ensures t.Chained()
    ensures ok ==> AllPlaced(t.groups[..t.groupCount], t.rules[..], a, es + [e], reg)
    ensures ok ==> CursorsOk(cursor[..], t.groups[..t.groupCount])
  {
    ghost var gs, rules := t.groups[..t.groupCount], t.rules[..];
    var g := t.EnsureGroup(e.Key());
    assert t.groups[..t.groupCount] == gs;
    WriteIndex(gs, rules, cursor[..], a, es, reg, g);
    if cursor[g] >= MAX_RULES { return false; }
    var compiled := CompileRule(e.rule, e.priority, reg);
    if compiled.None? { return false; }
    PlacementStep(gs, rules, a, es, reg, e, compiled.value, g);
    WriteRule(t, cursor, g, compiled.value, gs, rules);
    return true;
  }

  lemma WriteIndex(gs: seq<RuleGroup>, rules: seq<CompiledRule>, cursor: seq<nat>,
                   a: seq<StagedRule>, es: seq<Entry>, reg: Registry, g: nat)
    requires AllPlaced(gs, rules, a, es, reg) && CursorsOk(cursor, gs) && g < |gs|
    requires |ForKey(es, gs[g].key)| < CountKey(a, gs[g].key)
    ensures cursor[g] == gs[g].firstRule + gs[g].ruleCount < |rules|
  {
    WritesFit(gs, rules, a, es, reg, g);
    assert GroupPlaced(gs[g], g, rules, a, es, reg);
  }

  method WriteRule(t: ActiveRuleTable, cursor: array<nat>, g: nat, c: CompiledRule,
                   ghost gs: seq<RuleGroup>, ghost rules: seq<CompiledRule>)
    requires t.Chained() && gs == t.groups[..t.groupCount] && rules == t.rules[..]
    requires g < |gs| && CursorsOk(cursor[..], gs) && gs[g].firstRule + gs[g].ruleCount < |rules|
    modifies t.rules, t.groups, cursor
    ensures t.Chained() && t.groups[..t.groupCount] == Grown(gs, g)
    ensures t.rules[..] == rules[gs[g].firstRule + gs[g].ruleCount := c]
    ensures CursorsOk(cursor[..], t.groups[..t.groupCount])
  {
    ghost var was := cursor[..];
    assert was[g] == gs[g].firstRule + gs[g].ruleCount;
    t.rules[cursor[g]] := c;
    AdvanceCursor(cursor, g, gs);
    t.Grow(g);
  }

  method AdvanceCursor(cursor: array<nat>, g: nat, ghost gs: seq<RuleGroup>)
    requires CursorsOk(cursor[..], gs) && g < |gs|
    modifies cursor
    ensures CursorsOk(cursor[..], Grown(gs, g))
  {
    ghost var was := cursor[..];
    cursor[g] := cursor[g] + 1;
    assert cursor[..] == was[g := was[g] + 1];
  }

  /** Entries placed when ranks below `k` are done and `j` rules have been looked at for rank `k`. */
  function Done(a: seq<StagedRule>, k: nat, j: nat): seq<Entry>
    requires j <= |a|
  {
    Numbered(Placed(a, k, j))
  }

  lemma DoneStep(a: seq<StagedRule>, k: nat, j: nat)
    requires j < |a|
    ensures Rank(a[j].request.kind) != k ==> Done(a, k, j + 1) == Done(a, k, j)
    ensures Rank(a[j].request.kind) == k ==>
      Done(a, k, j + 1) == Done(a, k, j) + [Entry(a[j], |Done(a, k, j)|)]
  {
    PlacedStep(a, k, j);
    if Rank(a[j].request.kind) == k { NumberedStep(Placed(a, k, j), a[j]); }
  }

  lemma DoneNext(a: seq<StagedRule>, k: nat)
    ensures Done(a, k + 1, 0) == Done(a, k, |a|)
  {
    assert Placed(a, k + 1, 0) == Placed(a, k, |a|);
  }

  /** The pass for one rule kind. */
  method PlaceKind(t: ActiveRuleTable, cursor: array<nat>, a: seq<StagedRule>, k: nat, first: nat, reg: Registry)
    returns (ok: bool, priority: nat)
    requires t.Chained() && k <= LAST_RANK
    requires forall i :: 0 <= i < |a| ==> Acceptable(a[i].request)
    requires AllPlaced(t.groups[..t.groupCount], t.rules[..], a, Done(a, k, 0), reg)
    requires CursorsOk(cursor[..], t.groups[..t.groupCount]) && first == |Done(a, k, 0)|
    modifies t`groupCount, t.rules, t.groups, t.bucketHead, cursor
    ensures ok <==> forall i :: 0 <= i < |a| && Rank(a[i].request.kind) == k ==> Resolves(a[i].request, reg)
    ensures t.Chained()
    ensures ok ==> AllPlaced(t.groups[..t.groupCount], t.rules[..], a, Done(a, k, |a|), reg)
    ensures ok ==> CursorsOk(cursor[..], t.groups[..t.groupCount]) && priority == |Done(a, k, |a|)|
  {
    hide AllPlaced, CursorsOk, ChainsOk, Resolves, Acceptable, Rank, GroupKeys, CountKey, ForKey;
    priority := first;
    var j := 0;
    while j < |a|
      invariant j <= |a| && t.Chained() && priority == |Done(a, k, j)|
      invariant AllPlaced(t.groups[..t.groupCount], t.rules[..], a, Done(a, k, j), reg)
      invariant CursorsOk(cursor[..], t.groups[..t.groupCount])
      invariant forall i :: 0 <= i < j && Rank(a[i].request.kind) == k ==> Resolves(a[i].request, reg)
    {
      DoneStep(a, k, j);
      if Rank(a[j].request.kind) == k {
        RoomForNext(a, k, j);
        KeyPresent(a, j);
        var placed := PlaceRule(t, cursor, Entry(a[j], priority), reg, a, Done(a, k, j));
        if !placed { return false, priority; }
        priority := priority + 1;
      }
      j := j + 1;
    }
    ok := true;
  }

  lemma KeyPresent(a: seq<StagedRule>, j: nat)
    requires j < |a|
    ensures a[j].request.Key() in GroupKeys(a)
  {
    KeysOfAuthored(a, |a|);
    assert a[..|a|] == a;
    CountPositive(a, j, |a|);
  }

  lemma {:induction false} CountPositive(a: seq<StagedRule>, j: nat, n: nat)
    requires j < n <= |a|
    ensures CountKey(a[..n], a[j].request.Key()) > 0
  {
    CountKeyStep(a, n - 1, a[j].request.Key());
    if j < n - 1 { CountPositive(a, j, n - 1); }
  }

  method PlaceRules(t: ActiveRuleTable, cursor: array<nat>, a: seq<StagedRule>, reg: Registry)
    returns (ok: bool, priority: nat)
    requires t.Chained()
    requires forall i :: 0 <= i < |a| ==> Acceptable(a[i].request)
    requires AllPlaced(t.groups[..t.groupCount], t.rules[..], a, [], reg)
    requires CursorsOk(cursor[..], t.groups[..t.groupCount])
    modifies t`groupCount, t.rules, t.groups, t.bucketHead, cursor
    ensures ok <==> forall i :: 0 <= i < |a| ==> Resolves(a[i].request, reg)
    ensures t.Chained()
    ensures ok ==> priority == |a|
    ensures ok ==> AllPlaced(t.groups[..t.groupCount], t.rules[..], a, Numbered(KindSorted(a)), reg)
  {
    hide AllPlaced, CursorsOk, Resolves, Acceptable, ChainsOk;
    priority := 0;
    var k := 0;
    assert Done(a, 0, 0) == [];
    while k <= LAST_RANK
      invariant k <= LAST_RANK + 1 && t.Chained() && priority == |Done(a, k, 0)|
      invariant AllPlaced(t.groups[..t.groupCount], t.rules[..], a, Done(a, k, 0), reg)
      invariant CursorsOk(cursor[..], t.groups[..t.groupCount])
      invariant forall i :: 0 <= i < |a| && Rank(a[i].request.kind) < k ==> Resolves(a[i].request, reg)
    {
      DoneNext(a, k);
      ok, priority := PlaceKind(t, cursor, a, k, priority, reg);
      if !ok { return; }
      k := k + 1;
    }
    DoneNext(a, LAST_RANK);
    PlacedSize(a, |a|);
    assert a[..|a|] == a;
    ok := true;
  }

  // ---------------------------------------------------------------- the whole compile

  /** The table is what compiling the rules `a` against `reg` must give. */
  ghost predicate Holds(t: ActiveRuleTable, a: seq<StagedRule>, reg: Registry)
    reads t, t.rules, t.groups, t.bucketHead
  {
    && t.Chained() && t.ruleCount == |a|
    && AllPlaced(t.groups[..t.groupCount], t.rules[..], a, Numbered(KindSorted(a)), reg)
  }

  /** Compiling succeeds exactly when every runtime name of every staged rule resolves, and a
      successful compile fills the table with exactly the candidate. */
  method Compile(t: ActiveRuleTable, a: seq<StagedRule>, reg: Registry) returns (ok: bool)
    requires t.Shaped() && |a| <= MAX_RULES
    requires forall i :: 0 <= i < |a| ==> Acceptable(a[i].request)
    modifies t, t.rules, t.groups, t.bucketHead
    ensures t.Shaped()
    ensures ok <==> forall i :: 0 <= i < |a| ==> Resolves(a[i].request, reg)
    ensures ok ==> Holds(t, a, reg) && TableInOrder(a, t.rules[..t.ruleCount])
  {
    t.Clear();
    ok := CountGroups(t, a);
    if !ok { return; }
    AssignStarts(t, a);
    var cursor := new nat[MAX_RULES](_ => 0);
    CopyStarts(t, cursor, a);
    NothingPlaced(t.groups[..t.groupCount], t.rules[..], a, reg);
    var priority;
    ok, priority := PlaceRules(t, cursor, a, reg);
    if !ok { return; }
    t.ruleCount := priority;
    StoredInOrder(t, a, reg);
  }

  /** Any two stored rules are in the listing order: keys in the order of their first staged rule,
      and kind by kind within a key. */
  ghost predicate TableInOrder(a: seq<StagedRule>, rules: seq<CompiledRule>) {
    forall i, j :: 0 <= i < j < |rules| ==> RunBefore(a, rules[i].source, rules[j].source)
  }

  ghost predicate RunBefore(a: seq<StagedRule>, q: RuleRequest, r: RuleRequest) {
    if q.Key() == r.Key() then KindFollows(q.kind, r.kind) else SeenFirst(a, q.Key(), r.Key())
  }

  lemma StoredInOrder(t: ActiveRuleTable, a: seq<StagedRule>, reg: Registry)
    requires Holds(t, a, reg)
    ensures TableInOrder(a, t.rules[..t.ruleCount])
  {
    hide ActiveListing, Holds, SeenFirst, KindFollows, CompiledOf;
    HoldsSized(t, a, reg);
    TableIsListing(t, a, reg);
    ListingIsOrdered(a);
    var listing, rules := ActiveListing(a), t.rules[..t.ruleCount];
    forall i, j | 0 <= i < j < |rules| ensures RunBefore(a, rules[i].source, rules[j].source) {
      assert ListedBefore(a, listing[i], listing[j]);
      StoredSource(listing[i], reg, t.rules[i]);
      StoredSource(listing[j], reg, t.rules[j]);
    }
  }

  lemma HoldsSized(t: ActiveRuleTable, a: seq<StagedRule>, reg: Registry)
    requires Holds(t, a, reg)
    ensures t.ruleCount <= t.rules.Length
  {
    TableIsListing(t, a, reg);
  }

  lemma StoredSource(e: Entry, reg: Registry, c: CompiledRule)
    requires Compiled(e, reg, c)
    ensures c.source == e.rule.request
  {
  }

  method CopyStarts(t: ActiveRuleTable, cursor: array<nat>, ghost a: seq<StagedRule>)
    requires t.Chained() && cursor.Length == MAX_RULES && Started(t.groups[..t.groupCount], a)
    modifies cursor
    ensures CursorsOk(cursor[..], t.groups[..t.groupCount])
  {
    hide ChainsOk, KeysOf, GroupKeys;
    ghost var gs := t.groups[..t.groupCount];
    var g := 0;
    while g < t.groupCount
      invariant g <= t.groupCount
      invariant forall h {:trigger cursor[h]} :: 0 <= h < g ==> cursor[h] == gs[h].firstRule
    {
      cursor[g] := t.groups[g].firstRule;
      g := g + 1;
    }
  }

  lemma NothingPlaced(gs: seq<RuleGroup>, rules: seq<CompiledRule>, a: seq<StagedRule>, reg: Registry)
    requires Started(gs, a) && |a| <= |rules|
    ensures AllPlaced(gs, rules, a, [], reg)
  {
    StartTotal(a, |a|);
    assert a[..|a|] == a;
    forall g | 0 <= g < |gs| ensures GroupPlaced(gs[g], g, rules, a, [], reg) {
      assert gs[g].firstRule == Start(a, GroupKeys(a), g);
      StartMonotone(a, GroupKeys(a), g, |GroupKeys(a)|);
    }
  }

  // ---------------------------------------------------------------- reading the table

  /** The compiled rules a frame with this key meets, in order. */
  function CompiledFor(a: seq<StagedRule>, key: RuleKey, reg: Registry): seq<CompiledRule>
    requires forall i :: 0 <= i < |a| ==> Acceptable(a[i].request)
  {
    RulesForAuthored(a, key);
    var es := RulesFor(a, key);
    seq(|es|, i requires 0 <= i < |es| => CompiledOf(es[i].rule, es[i].priority, reg))
  }

  lemma GroupIsCompiled(gs: seq<RuleGroup>, rules: seq<CompiledRule>, a: seq<StagedRule>, key: RuleKey,
                        reg: Registry, g: nat)
    requires AllPlaced(gs, rules, a, Numbered(KindSorted(a)), reg) && g < |gs| && gs[g].key == key
    requires forall i :: 0 <= i < |a| ==> Acceptable(a[i].request)
    ensures gs[g].firstRule + gs[g].ruleCount <= |rules|
    ensures rules[gs[g].firstRule..gs[g].firstRule + gs[g].ruleCount] == CompiledFor(a, key, reg)
  {
    assert GroupPlaced(gs[g], g, rules, a, Numbered(KindSorted(a)), reg);
    StoredIsCompiled(RulesFor(a, key), rules, gs[g].firstRule, CompiledFor(a, key, reg), reg);
  }

  lemma StoredIsCompiled(part: seq<Entry>, rules: seq<CompiledRule>, start: nat, cs: seq<CompiledRule>, reg: Registry)
    requires StoredAt(part, rules, start, reg) && |cs| == |part|
    requires forall i :: 0 <= i < |part| ==> Compiled(part[i], reg, cs[i])
    ensures rules[start..start + |part|] == cs
  {
    forall i | 0 <= i < |part| ensures rules[start..start + |part|][i] == cs[i] {
      assert Compiled(part[i], reg, rules[start + i]);
    }
  }

  lemma NoGroupNoRules(a: seq<StagedRule>, key: RuleKey, reg: Registry)
    requires key !in GroupKeys(a) && forall i :: 0 <= i < |a| ==> Acceptable(a[i].request)
    ensures CompiledFor(a, key, reg) == []
  {
    UnseenKey(a, key);
    GroupSize(a, key);
  }

  lemma {:induction false} UnseenKey(a: seq<StagedRule>, key: RuleKey)
    requires key !in GroupKeys(a)
    ensures CountKey(a, key) == 0
  {
    if a != [] { UnseenKey(a[..|a| - 1], key); }
  }

  /** Lookup of a frame's rules: the slice of the group found through the hash chain. */
  method LookUp(t: ActiveRuleTable, key: RuleKey, ghost a: seq<StagedRule>, ghost reg: Registry)
    returns (begin: nat, end: nat)
    requires Holds(t, a, reg) && forall i :: 0 <= i < |a| ==> Acceptable(a[i].request)
    ensures begin <= end <= t.rules.Length && t.rules[begin..end] == CompiledFor(a, key, reg)
  {
    hide GroupPlaced, ChainsOk, CompiledFor, KindSorted, Numbered, Acceptable;
    ghost var gs, rules := t.groups[..t.groupCount], t.rules[..];
    var g := t.FindGroup(key);
    if g < 0 {
      NoGroupNoRules(a, key, reg);
      return 0, 0;
    }
    GroupIsCompiled(gs, rules, a, key, reg, g);
    begin, end := t.groups[g].firstRule, t.groups[g].firstRule + t.groups[g].ruleCount;
    assert t.rules[begin..end] == rules[begin..end];
  }

  lemma GroupStored(gs: seq<RuleGroup>, rules: seq<CompiledRule>, a: seq<StagedRule>,
                    es: seq<Entry>, reg: Registry, g: nat)
    requires AllPlaced(gs, rules, a, es, reg) && g < |gs| == |GroupKeys(a)|
    ensures StoredAt(ForKey(es, GroupKeys(a)[g]), rules, Start(a, GroupKeys(a), g), reg)
  {
    assert KeysOf(gs)[g] == gs[g].key;
    assert GroupPlaced(gs[g], g, rules, a, es, reg);
  }

  lemma StoredAppends(before: seq<Entry>, part: seq<Entry>, rules: seq<CompiledRule>, reg: Registry)
    requires StoredAt(before, rules, 0, reg) && StoredAt(part, rules, |before|, reg)
    ensures StoredAt(before + part, rules, 0, reg)
  {
    var listed := before + part;
    forall i | 0 <= i < |listed| ensures Compiled(listed[i], reg, rules[0 + i]) {
      if i < |before| {
        assert Compiled(before[i], reg, rules[0 + i]);
      } else {
        assert Compiled(part[i - |before|], reg, rules[|before| + (i - |before|)]);
      }
    }
  }

  /** The stored table, read from the start, is the listing of `compile_active_rules`. */
  lemma {:induction false} ListingStored(gs: seq<RuleGroup>, rules: seq<CompiledRule>, a: seq<StagedRule>,
                                         es: seq<Entry>, keys: seq<RuleKey>, reg: Registry, n: nat)
    requires AllPlaced(gs, rules, a, es, reg) && keys == GroupKeys(a) && n <= |gs| == |keys|
    requires forall key :: |ForKey(es, key)| == CountKey(a, key)
    ensures StoredAt(Listing(es, keys[..n]), rules, 0, reg)
    ensures |Listing(es, keys[..n])| == Start(a, keys, n)
  {
    if n == 0 {
      assert Listing(es, keys[..0]) == [];
    } else {
      ListingStored(gs, rules, a, es, keys, reg, n - 1);
      GroupStored(gs, rules, a, es, reg, n - 1);
      StoredAppends(Listing(es, keys[..n - 1]), ForKey(es, keys[n - 1]), rules, reg);
      assert keys[..n][..n - 1] == keys[..n - 1];
    }
  }

  lemma TableIsListing(t: ActiveRuleTable, a: seq<StagedRule>, reg: Registry)
    requires Holds(t, a, reg)
    ensures |ActiveListing(a)| == t.ruleCount
    ensures forall i :: 0 <= i < t.ruleCount ==> Compiled(ActiveListing(a)[i], reg, t.rules[i])
  {
    forall key { GroupSize(a, key); }
    ListingStored(t.groups[..t.groupCount], t.rules[..], a, Numbered(KindSorted(a)), GroupKeys(a), reg, t.groupCount);
    StartTotal(a, |a|);
    assert a[..|a|] == a && GroupKeys(a)[..t.groupCount] == GroupKeys(a);
    assert forall i :: 0 <= i < t.ruleCount ==> t.rules[i] == t.rules[..][0 + i];
  }
}
