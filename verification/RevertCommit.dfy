/** Reverting the candidate and committing it again is invisible to traffic. */
module RevertCommit {
  import opened Types
  import opened Rules
  import opened CompileSpec
  import opened Compiler
  import opened FrameEffect
  import opened EngineState
  import opened EngineInvariant

  // ---------------------------------------------------------------- compiling ignores live adjustments

  function Programs(a: seq<StagedRule>): (r: seq<StagedRule>)
    ensures |r| == |a|
  {
    seq(|a|, i requires 0 <= i < |a| => Program(a[i]))
  }

  function EntryPrograms(es: seq<Entry>): (r: seq<Entry>)
    ensures |r| == |es|
  {
    seq(|es|, i requires 0 <= i < |es| => Entry(Program(es[i].rule), es[i].priority))
  }

  lemma {:induction false} ByKindPrograms(a: seq<StagedRule>, k: nat)
    ensures ByKind(Programs(a), k) == Programs(ByKind(a, k))
  {
    if a != [] {
      ByKindPrograms(a[..|a| - 1], k);
      assert Programs(a)[..|a| - 1] == Programs(a[..|a| - 1]);
    }
  }

  lemma {:induction false} PlacedPrograms(a: seq<StagedRule>, k: nat)
    ensures Placed(Programs(a), k, |a|) == Programs(Placed(a, k, |a|))
  {
    assert a[..|a|] == a && Programs(a)[..|a|] == Programs(a);
    ByKindPrograms(a, k);
    if k > 0 {
      PlacedPrograms(a, k - 1);
      AppendPrograms(Placed(a, k - 1, |a|), ByKind(a, k));
    }
  }

  lemma AppendPrograms(a: seq<StagedRule>, b: seq<StagedRule>)
    ensures Programs(a + b) == Programs(a) + Programs(b)
  {
  }

  lemma {:induction false} ForKeyPrograms(es: seq<Entry>, key: RuleKey)
    ensures ForKey(EntryPrograms(es), key) == EntryPrograms(ForKey(es, key))
  {
    if es != [] {
      ForKeyPrograms(es[..|es| - 1], key);
      assert EntryPrograms(es)[..|es| - 1] == EntryPrograms(es[..|es| - 1]);
    }
  }

  lemma RulesForPrograms(a: seq<StagedRule>, key: RuleKey)
    ensures RulesFor(Programs(a), key) == EntryPrograms(RulesFor(a, key))
  {
    PlacedPrograms(a, LAST_RANK);
    assert Numbered(Programs(KindSorted(a))) == EntryPrograms(Numbered(KindSorted(a)));
    ForKeyPrograms(Numbered(KindSorted(a)), key);
  }

  /** Rules that differ only in live adjustments compile to the same programs, also against a
      registry that has grown. */
  lemma SameRulesSamePrograms(a: seq<StagedRule>, b: seq<StagedRule>, key: RuleKey, earlier: Registry, later: Registry)
    requires SameRules(a, b) && RequestsOk(a) && RequestsOk(b)
    requires AllResolve(a, earlier) && Extends(later, earlier)
    ensures SamePrograms(CompiledFor(a, key, earlier), CompiledFor(b, key, later))
  {
    assert Programs(a) == Programs(b);
    RulesForPrograms(a, key);
    RulesForPrograms(b, key);
    RulesForAuthored(a, key);
    RulesForAuthored(b, key);
    var p, q := RulesFor(a, key), RulesFor(b, key);
    assert |EntryPrograms(p)| == |EntryPrograms(q)|;
    forall i | 0 <= i < |p|
      ensures SameProgram(CompiledFor(a, key, earlier)[i], CompiledFor(b, key, later)[i])
    {
      assert EntryPrograms(p)[i] == EntryPrograms(q)[i];
      assert p[i].rule in a && q[i].rule in b;
      SameRuleSameProgram(p[i].rule, q[i].rule, p[i].priority, earlier, later);
    }
  }

  lemma SameRuleSameProgram(s: StagedRule, t: StagedRule, priority: nat, earlier: Registry, later: Registry)
    requires Program(s) == Program(t) && Acceptable(s.request) && Acceptable(t.request)
    requires Resolves(s.request, earlier) && Extends(later, earlier)
    ensures SameProgram(CompiledOf(s, priority, earlier), CompiledOf(t, priority, later))
    ensures Resolves(t.request, later)
  {
    ResolvesLater(s, priority, earlier, later);
    SwitchIsNotCompiled(s, t, priority, later);
  }

  lemma SwitchIsNotCompiled(s: StagedRule, t: StagedRule, priority: nat, reg: Registry)
    requires Program(s) == Program(t) && Acceptable(s.request) && Acceptable(t.request)
    ensures SameProgram(CompiledOf(s, priority, reg), CompiledOf(t, priority, reg))
    ensures Resolves(s.request, reg) == Resolves(t.request, reg)
  {
    assert t.request == s.request.(enabled := t.request.enabled) by {
      assert Program(s).request == Program(t).request;
    }
    assert s.ruleId == Program(s).ruleId == Program(t).ruleId == t.ruleId;
    assert s.request.Field() == t.request.Field();
  }

  // ---------------------------------------------------------------- traffic

  /** Two engines that every frame meets with the same programs and the same runtime slots. */
  ghost predicate SameTraffic(e: Engine, f: Engine) {
    && e.runtime == f.runtime && SameRules(e.installed, f.installed)
    && RequestsOk(e.installed) && RequestsOk(f.installed)
    && AllResolve(e.installed, e.registry) && Extends(f.registry, e.registry)
  }

  datatype Received = Received(key: RuleKey, data: Payload, inputs: Inputs)

  /** The payloads transmitted for a sequence of received frames, and the final runtime slots. */
  ghost function Transmitted(e: Engine, frames: seq<Received>): (seq<Payload>, seq<Runtime>)
    requires RequestsOk(e.installed)
    decreases |frames|
  {
    if frames == [] then ([], e.runtime)
    else
      var effect := FrameOn(e, frames[0].key, frames[0].data, frames[0].inputs);
      var (rest, runtime) := Transmitted(e.(runtime := effect.runtime), frames[1..]);
      ([effect.data] + rest, runtime)
  }

  lemma SameFrame(e: Engine, f: Engine, r: Received)
    requires SameTraffic(e, f)
    ensures FrameOn(e, r.key, r.data, r.inputs) == FrameOn(f, r.key, r.data, r.inputs)
  {
    SameRulesSamePrograms(e.installed, f.installed, r.key, e.registry, f.registry);
    ProgramsAcceptable(e.installed, r.key, e.registry);
    ProgramsAcceptable(f.installed, r.key, f.registry);
    ProgramsDecide(CompiledFor(e.installed, r.key, e.registry), CompiledFor(f.installed, r.key, f.registry),
                   Effect(r.data, e.runtime), r.inputs);
  }

  lemma {:induction false} SameFrames(e: Engine, f: Engine, frames: seq<Received>)
    requires SameTraffic(e, f)
    ensures Transmitted(e, frames) == Transmitted(f, frames)
    decreases |frames|
  {
    if frames != [] {
      SameFrame(e, f, frames[0]);
      var runtime := FrameOn(e, frames[0].key, frames[0].data, frames[0].inputs).runtime;
      SameFrames(e.(runtime := runtime), f.(runtime := runtime), frames[1..]);
    }
  }

  // ---------------------------------------------------------------- revert, then commit

  lemma RevertedAuthored(e: Engine)
    requires Inv(e)
    ensures Authored(Revert(e).staged) == e.committed
    ensures Published(Revert(e).staged) == Revert(e).staged
  {
    CommittedUsed(e);
    CandidateOrder(e.committed);
    var s := Revert(e).staged;
    OrderIsOrder(s);
    forall k | 0 <= k < |e.committed| ensures Authored(s)[k] == e.committed[k] {
      CandidateSlot(e.committed, k);
    }
    RevertPreserves(e);
    forall i | 0 <= i < MAX_RULES ensures Published(s)[i] == s[i] {
      PendingIsDirty(Revert(e), i);
    }
  }

  lemma NothingPublished(e: Engine)
    requires Inv(e)
    ensures PublishedRuntime(Revert(e).staged, e.runtime) == e.runtime
  {
    var s := Revert(e).staged;
    RevertPreserves(e);
    forall i | 0 <= i < MAX_RULES ensures PublishedSlot(s[i], e.runtime[i]) == e.runtime[i] {
      PendingIsDirty(Revert(e), i);
      assert SlotOk(s[i], Shadow(e.committed, i), e.runtime[i], i);
    }
  }

  lemma CommittedResolves(e: Engine, reg: Registry)
    requires Inv(e) && Extends(reg, e.registry)
    ensures AllResolve(e.committed, reg) && RequestsOk(e.committed)
  {
    forall k | 0 <= k < |e.committed|
      ensures Resolves(e.committed[k].request, reg) && Acceptable(e.committed[k].request)
    {
      CommittedRequest(e, k);
      assert Program(e.installed[k]) == Program(e.committed[k]);
      SameRuleSameProgram(e.installed[k], e.committed[k], 0, e.registry, reg);
    }
  }

  lemma CommittedRequest(e: Engine, k: nat)
    requires Inv(e) && k < |e.committed|
    ensures Acceptable(e.committed[k].request)
  {
    ShadowAt(e.committed, k);
    var i := e.committed[k].ruleId;
    assert SlotOk(e.staged[i], Shadow(e.committed, i), e.runtime[i], i);
  }

  /** From any reachable state, with a registry that has only grown, reverting and committing
      succeeds, keeps the committed rules and every runtime slot, and no sequence of later frames
      can tell the difference. */
  lemma RevertThenCommit(e: Engine, reg: Registry, frames: seq<Received>)
    requires Inv(e) && Extends(reg, e.registry)
    ensures CommitSucceeds(Revert(e), reg)
    ensures Inv(Commit(Revert(e), reg))
    ensures var again := Commit(Revert(e), reg);
      && again.committed == e.committed && again.runtime == e.runtime && again.nextSequence == e.nextSequence
      && Transmitted(again, frames) == Transmitted(e, frames)
  {
    RevertedAuthored(e);
    NothingPublished(e);
    CommittedResolves(e, reg);
    RevertPreserves(e);
    CommitPreserves(Revert(e), reg);
    SameFrames(e, Commit(Revert(e), reg), frames);
  }
}
