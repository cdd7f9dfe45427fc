/** What a run of received frames makes of counter and sequence rules: each live slot advances with
    the frames in which its rule runs, and every such frame carries the next value. */
module Emissions {
  import opened Types
  import opened BitLayout
  import opened SignalCodec
  import opened Rules
  import opened CompileSpec
  import opened Compiler
  import opened FrameEffect
  import opened EngineState
  import opened EngineInvariant
  import opened RevertCommit
  import opened Counters

  ghost predicate DistinctPrograms(cs: seq<CompiledRule>) {
    forall i, j :: 0 <= i < j < |cs| ==> cs[i].ruleId != cs[j].ruleId
  }

  /** The rules an engine runs for a key */
  ghost function ProgramsFor(e: Engine, key: RuleKey): seq<CompiledRule>
    requires Inv(e)
  {
    CompiledFor(e.installed, key, e.registry)
  }

  lemma InstalledDistinct(e: Engine)
    requires Inv(e)
    ensures Ascending(e.installed) && DistinctIds(e.installed)
  {
    forall i, j | 0 <= i < j < |e.installed|
      ensures Earlier(e.installed[i], e.installed[j]) && e.installed[i].ruleId != e.installed[j].ruleId
    {
      assert Program(e.installed[i]) == Program(e.committed[i]) && Program(e.installed[j]) == Program(e.committed[j]);
      SamePlace(e.installed[i], e.committed[i]);
      SamePlace(e.installed[j], e.committed[j]);
      assert Earlier(e.committed[i], e.committed[j]) && e.committed[i].ruleId != e.committed[j].ruleId;
    }
  }

  lemma SamePlace(a: StagedRule, b: StagedRule)
    requires Program(a) == Program(b)
    ensures a.ruleId == b.ruleId && a.sequence == b.sequence
  {
    assert a.ruleId == Program(a).ruleId && a.sequence == Program(a).sequence;
    assert b.ruleId == Program(b).ruleId && b.sequence == Program(b).sequence;
  }

  /** No slot is used twice, whatever the keys. */
  lemma SlotsOfPrograms(e: Engine, key: RuleKey, other: RuleKey, i: nat, j: nat)
    requires Inv(e) && i < |ProgramsFor(e, key)| && j < |ProgramsFor(e, other)|
    requires key != other || i != j
    ensures ProgramsFor(e, key)[i].ruleId != ProgramsFor(e, other)[j].ruleId
  {
    InstalledDistinct(e);
    var a := e.installed;
    RulesForSound(a, key);
    RulesForSound(a, other);
    var r, s := RulesFor(a, key)[i], RulesFor(a, other)[j];
    assert r in RulesFor(a, key) && s in RulesFor(a, other);
    if r.rule.ruleId == s.rule.ruleId {
      SameSlotSameRule(a, r.rule, s.rule);
    }
  }

  lemma SameSlotSameRule(a: seq<StagedRule>, r: StagedRule, s: StagedRule)
    requires DistinctIds(a) && r in a && s in a && r.ruleId == s.ruleId
    ensures r == s
  {
  }

  // ---------------------------------------------------------------- one frame

  lemma NextStored(c: CompiledRule, selector: nat, data: Payload, stored: U32, inputs: Inputs)
    requires Acceptable(c.source)
    ensures RunRule(c, selector, data, stored, inputs).1 == StoredAfter(c.source, stored, 1)
  {
    hide Acceptable, WriteField, PutField, XorOver, AutosarCrc, Masked, DynamicOutput;
    assert StoredAfter(c.source, stored, 0) == stored;
  }

  /** The slot of rule `i` after all rules of a frame */
  lemma {:induction false} SlotAdvances(cs: seq<CompiledRule>, i: nat, e: Effect, inputs: Inputs)
    requires AllAcceptable(cs) && DistinctPrograms(cs) && i < |cs| && cs[i].ruleId < |e.runtime|
    ensures var was := e.runtime[cs[i].ruleId];
      ApplyAll(cs, e, inputs).runtime[cs[i].ruleId] ==
        was.(value := StoredAfter(cs[i].source, was.value, if Runs(cs[i], e.runtime, inputs) then 1 else 0))
  {
    hide Acceptable, RunRule, Selected;
    var init, c := cs[..|cs| - 1], cs[|cs| - 1];
    var mid := ApplyAll(init, e, inputs);
    if i < |init| {
      SlotAdvances(init, i, e, inputs);
    } else {
      FramesKeepSwitches(init, e, inputs, c.ruleId);
      if Runs(c, mid.runtime, inputs) {
        NextStored(c, Selected(c, inputs).value, mid.data, mid.runtime[c.ruleId].value, inputs);
      }
    }
  }

  /** A frame advances the slots of the rules that run in it, and no other. */
  lemma FrameAdvances(e: Engine, f: Received, key: RuleKey, i: nat)
    requires Inv(e) && i < |ProgramsFor(e, key)|
    ensures var c := ProgramsFor(e, key)[i];
      && Acceptable(c.source) && c.ruleId < |e.runtime|
      && FrameOn(e, f.key, f.data, f.inputs).runtime[c.ruleId] ==
           e.runtime[c.ruleId].(value :=
             StoredAfter(c.source, e.runtime[c.ruleId].value, if RunsIn(c, key, e.runtime, f) then 1 else 0))
  {
    hide Inv, Acceptable, CompiledFor, Selected;
    var cs, fs := ProgramsFor(e, key), ProgramsFor(e, f.key);
    EngineFacts(e);
    ProgramsAcceptable(e.installed, key, e.registry);
    ProgramsAcceptable(e.installed, f.key, e.registry);
    SlotBound(e, key, i);
    if f.key == key {
      forall j, k | 0 <= j < k < |cs| ensures cs[j].ruleId != cs[k].ruleId { SlotsOfPrograms(e, key, key, j, k); }
      SlotAdvances(cs, i, Effect(f.data, e.runtime), f.inputs);
    } else {
      forall j | 0 <= j < |fs| ensures fs[j].ruleId != cs[i].ruleId { SlotsOfPrograms(e, key, f.key, i, j); }
      FramesKeepSwitches(fs, Effect(f.data, e.runtime), f.inputs, cs[i].ruleId);
    }
  }

  lemma EngineFacts(e: Engine)
    requires Inv(e)
    ensures RequestsOk(e.installed) && |e.runtime| == MAX_RULES
  {
  }

  lemma SlotBound(e: Engine, key: RuleKey, i: nat)
    requires Inv(e) && i < |ProgramsFor(e, key)|
    ensures ProgramsFor(e, key)[i].ruleId < MAX_RULES
  {
    ProgramsAcceptable(e.installed, key, e.registry);
    var k :| 0 <= k < |e.installed| && e.installed[k].ruleId == ProgramsFor(e, key)[i].ruleId;
    SamePlace(e.installed[k], e.committed[k]);
  }

  // ---------------------------------------------------------------- runs of frames

  /** The rule runs in this frame. */
  predicate RunsIn(c: CompiledRule, key: RuleKey, runtime: seq<Runtime>, f: Received) {
    f.key == key && Runs(c, runtime, f.inputs)
  }

  /** The frames in which the rule runs */
  function Times(c: CompiledRule, key: RuleKey, runtime: seq<Runtime>, frames: seq<Received>): nat {
    if frames == [] then 0
    else (if RunsIn(c, key, runtime, frames[0]) then 1 else 0) + Times(c, key, runtime, frames[1..])
  }

  lemma {:induction false} TimesSame(c: CompiledRule, key: RuleKey, a: seq<Runtime>, b: seq<Runtime>,
                                     frames: seq<Received>)
    requires |a| == |b| && (c.ruleId < |a| ==> a[c.ruleId].enabled == b[c.ruleId].enabled)
    ensures Times(c, key, a, frames) == Times(c, key, b, frames)
    ensures forall f :: RunsIn(c, key, a, f) == RunsIn(c, key, b, f)
  {
    if frames != [] { TimesSame(c, key, a, b, frames[1..]); }
  }

  lemma {:induction false} StoredSum(r: RuleRequest, initial: U32, m: nat, n: nat)
    requires Acceptable(r)
    ensures StoredAfter(r, StoredAfter(r, initial, m), n) == StoredAfter(r, initial, m + n)
  {
    hide Acceptable, CounterNext;
    if n > 0 { StoredSum(r, initial, m, n - 1); }
  }

  /** After any frames of any keys the live slot of a rule has advanced once for each in which the
      rule ran. */
  lemma {:induction false} SlotCountsFrames(e: Engine, frames: seq<Received>, key: RuleKey, i: nat)
    requires Inv(e) && i < |ProgramsFor(e, key)|
    ensures var c := ProgramsFor(e, key)[i];
      && Acceptable(c.source) && c.ruleId < |e.runtime| && RequestsOk(e.installed)
      && |Transmitted(e, frames).1| == |e.runtime|
      && Transmitted(e, frames).1[c.ruleId] == e.runtime[c.ruleId].(value :=
           StoredAfter(c.source, e.runtime[c.ruleId].value, Times(c, key, e.runtime, frames)))
    decreases |frames|
  {
    hide Inv, Acceptable, CompiledFor, Selected, RunsIn, StoredAfter;
    var c := ProgramsFor(e, key)[i];
    EngineFacts(e);
    if frames == [] {
      ProgramsAcceptable(e.installed, key, e.registry);
      SlotBound(e, key, i);
    } else {
      var f := frames[0];
      FrameAdvances(e, f, key, i);
      FramePreserves(e, f.key, f.data, f.inputs);
      var runtime := FrameOn(e, f.key, f.data, f.inputs).runtime;
      SlotCountsFrames(e.(runtime := runtime), frames[1..], key, i);
      TimesSame(c, key, e.runtime, runtime, frames[1..]);
      StoredSum(c.source, e.runtime[c.ruleId].value, if RunsIn(c, key, e.runtime, f) then 1 else 0,
                Times(c, key, e.runtime, frames[1..]));
    }
  }

  /** A field write that no later rule of the frame touches is what the frame leaves with. */
  lemma WrittenStays(cs: seq<CompiledRule>, i: nat, e: Effect, inputs: Inputs, value: nat)
    requires AllAcceptable(cs) && DistinctPrograms(cs) && i < |cs| && Runs(cs[i], e.runtime, inputs)
    requires FieldAlone(cs, i, e.runtime, inputs)
    requires forall data: Payload ::
      RunRule(cs[i], Selected(cs[i], inputs).value, data, e.runtime[cs[i].ruleId].value, inputs).0 ==
      WriteField(data, cs[i], value)
    ensures IsRead(ApplyAll(cs, e, inputs).data, cs[i].source.Field(), Saturated(value, cs[i].source.bitLength))
  {
    var c, before := cs[i], cs[..i];
    assert cs[..i + 1][..i] == before;
    var mid := ApplyAll(before, e, inputs);
    FramesKeepSwitches(before, e, inputs, c.ruleId);
    var written := ApplyAll(cs[..i + 1], e, inputs).data;
    assert written == WriteField(mid.data, c, value);
    WriteIsRead(mid.data, c, value);
    forall p | 0 <= p < 64 && InField(c.source.Field(), p)
      ensures FrameBit(ApplyAll(cs, e, inputs).data, p) == FrameBit(written, p)
    {
      LaterBitsKept(cs, i + 1, e, inputs, p);
    }
    SameFieldRead(written, ApplyAll(cs, e, inputs).data, c.source.Field(), Saturated(value, c.source.bitLength));
  }

  /** No rule that runs later in the frame owns a bit of the field of rule `i`. */
  ghost predicate FieldAlone(cs: seq<CompiledRule>, i: nat, runtime: seq<Runtime>, inputs: Inputs)
    requires i < |cs|
  {
    && cs[i].source.HasField()
    && forall j, p :: i < j < |cs| && 0 <= p < 64 && Runs(cs[j], runtime, inputs) ==>
         !(InField(cs[i].source.Field(), p) && Owns(cs[j], p))
  }

  lemma WriteIsRead(data: Payload, c: CompiledRule, value: nat)
    requires Acceptable(c.source) && c.source.HasField()
    ensures IsRead(WriteField(data, c, value), c.source.Field(), Saturated(value, c.source.bitLength))
  {
    var raw := Saturated(value, c.source.bitLength);
    ReadBack(data, WriteField(data, c, value), c.source.Field(), raw, raw);
  }

  lemma SameFieldRead(a: Payload, b: Payload, f: Field, raw: nat)
    requires Fits(f) && IsRead(a, f, raw)
    requires forall p :: 0 <= p < 64 && InField(f, p) ==> FrameBit(b, p) == FrameBit(a, p)
    ensures IsRead(b, f, raw)
  {
    forall i: nat | i < f.length
      ensures Position(f, i) < 64 && RawBit(raw, i) == FrameBit(b, Position(f, i))
    {
      PositionIndex(f, i);
      assert InField(f, Position(f, i));
    }
  }

  /** The n-th payload is that of the n-th frame on the slots the earlier frames left. */
  lemma {:induction false} NthPayload(e: Engine, frames: seq<Received>, n: nat)
    requires Inv(e) && RequestsOk(e.installed) && n < |frames|
    ensures |Transmitted(e, frames).0| == |frames|
    ensures var f := frames[n];
      Transmitted(e, frames).0[n] ==
        FrameOn(e.(runtime := Transmitted(e, frames[..n]).1), f.key, f.data, f.inputs).data
    decreases |frames|
  {
    hide Inv, RequestsOk;
    var f := frames[0];
    var next := e.(runtime := FrameOn(e, f.key, f.data, f.inputs).runtime);
    FramePreserves(e, f.key, f.data, f.inputs);
    if n > 0 {
      NthPayload(next, frames[1..], n - 1);
      assert frames[..n][1..] == frames[1..][..n - 1] && frames[..n][0] == f;
    } else if |frames| > 1 {
      NthPayload(next, frames[1..], 0);
    }
  }

  /** What a counter or sequence rule writes with a stored value */
  function Emitted(r: RuleRequest, stored: U32): nat
    requires Acceptable(r)
  {
    if r.kind.Sequence8? then r.sequenceValues[stored % r.sequenceCount] as nat else stored
  }

  lemma EmittedWrites(c: CompiledRule, selector: nat, stored: U32, inputs: Inputs)
    requires Acceptable(c.source) && (c.source.kind.Counter? || c.source.kind.Sequence8?)
    ensures forall data: Payload ::
      RunRule(c, selector, data, stored, inputs).0 == WriteField(data, c, Emitted(c.source, stored))
  {
    hide Acceptable, WriteField;
  }

  lemma AloneLater(e: Engine, frames: seq<Received>, key: RuleKey, i: nat, inputs: Inputs)
    requires Inv(e) && RequestsOk(e.installed) && i < |ProgramsFor(e, key)|
    ensures FieldAlone(ProgramsFor(e, key), i, Transmitted(e, frames).1, inputs) ==
      FieldAlone(ProgramsFor(e, key), i, e.runtime, inputs)
  {
    hide Inv, CompiledFor, RequestsOk, Selected, Owns, Transmitted, StoredAfter, Times;
    var cs := ProgramsFor(e, key);
    forall j | 0 <= j < |cs|
      ensures Runs(cs[j], Transmitted(e, frames).1, inputs) == Runs(cs[j], e.runtime, inputs)
    {
      SlotCountsFrames(e, frames, key, j);
    }
  }

  /** The n-th frame of a run carries the value stored after the earlier frames in which its rule ran. */
  lemma FrameCarries(e: Engine, frames: seq<Received>, key: RuleKey, i: nat, n: nat)
    requires Inv(e) && i < |ProgramsFor(e, key)| && n < |frames| && RequestsOk(e.installed)
    requires Acceptable(ProgramsFor(e, key)[i].source)
    requires var r := ProgramsFor(e, key)[i].source; r.kind.Counter? || r.kind.Sequence8?
    requires RunsIn(ProgramsFor(e, key)[i], key, e.runtime, frames[n])
    requires FieldAlone(ProgramsFor(e, key), i, e.runtime, frames[n].inputs)
    ensures |Transmitted(e, frames).0| == |frames|
    ensures var c := ProgramsFor(e, key)[i];
      c.ruleId < |e.runtime| &&
      IsRead(Transmitted(e, frames).0[n], c.source.Field(),
        Saturated(Emitted(c.source, StoredAfter(c.source, e.runtime[c.ruleId].value,
                                                Times(c, key, e.runtime, frames[..n]))), c.source.bitLength))
  {
    hide Inv, Acceptable, CompiledFor, Selected, StoredAfter, Emitted, FieldAlone, IsRead, Transmitted, Times;
    hide Saturated, DistinctPrograms, RequestsOk, RunRule;
    var cs, f := ProgramsFor(e, key), frames[n];
    var c := cs[i];
    SlotCountsFrames(e, frames[..n], key, i);
    NthPayload(e, frames, n);
    AloneLater(e, frames[..n], key, i, f.inputs);
    var runtime := Transmitted(e, frames[..n]).1;
    var stored := runtime[c.ruleId].value;
    ProgramsAcceptable(e.installed, key, e.registry);
    ProgramsDistinct(e, key);
    EmittedWrites(c, Selected(c, f.inputs).value, stored, f.inputs);
    WrittenStays(cs, i, Effect(f.data, runtime), f.inputs, Emitted(c.source, stored));
  }

  /** The field of a counter reads its value, the field of a sequence the listed byte. */
  ghost predicate Reads(c: CompiledRule, data: Payload, value: nat)
    requires Acceptable(c.source) && c.source.HasField()
  {
    IsRead(data, c.source.Field(), Saturated(value, c.source.bitLength))
  }

  /** In every run of frames of any keys, from any reachable engine: the frame in which a rule runs
      for the k-th time (from 0) carries, in a field that no later rule of the frame overwrites, the
      k-th value of the counter, or the k-th byte of the sequence, from the live value on. */
  lemma ValuesInTurn(e: Engine, frames: seq<Received>, key: RuleKey, i: nat, n: nat)
    requires Inv(e) && i < |ProgramsFor(e, key)| && n < |frames| && RequestsOk(e.installed)
    requires Acceptable(ProgramsFor(e, key)[i].source)
    requires var r := ProgramsFor(e, key)[i].source; r.kind.Counter? || r.kind.Sequence8?
    requires RunsIn(ProgramsFor(e, key)[i], key, e.runtime, frames[n])
    requires FieldAlone(ProgramsFor(e, key), i, e.runtime, frames[n].inputs)
    ensures |Transmitted(e, frames).0| == |frames|
    ensures var c := ProgramsFor(e, key)[i];
      var r, k := c.source, Times(c, key, e.runtime, frames[..n]);
      && c.ruleId < |e.runtime|
      && (r.kind.Sequence8? ==> Reads(c, Transmitted(e, frames).0[n],
            r.sequenceValues[(e.runtime[c.ruleId].value + k) % r.sequenceCount] as nat))
      && (r.kind.Counter? && r.counterStep > 0 && r.counterWrapAfter + r.counterStep <= 0x1_0000_0000 ==>
            CounterValue(r, e.runtime[c.ruleId].value, k) >= 0 &&
            Reads(c, Transmitted(e, frames).0[n], CounterValue(r, e.runtime[c.ruleId].value, k)))
  {
    hide Inv, CompiledFor, Selected, StoredAfter, CounterValue, FieldAlone, IsRead, Transmitted, Times, Saturated;
    hide RunsIn, RequestsOk;
    FrameCarries(e, frames, key, i, n);
    var c := ProgramsFor(e, key)[i];
    var r, k := c.source, Times(c, key, e.runtime, frames[..n]);
    var initial := e.runtime[c.ruleId].value;
    if r.kind.Sequence8? {
      SequenceGoesRound(r, initial, k);
    } else if r.counterStep > 0 && r.counterWrapAfter + r.counterStep <= 0x1_0000_0000 {
      CounterGoesRound(r, initial, k);
    }
  }

  lemma ProgramsDistinct(e: Engine, key: RuleKey)
    requires Inv(e)
    ensures DistinctPrograms(ProgramsFor(e, key))
  {
    var cs := ProgramsFor(e, key);
    forall j, k | 0 <= j < k < |cs| ensures cs[j].ruleId != cs[k].ruleId { SlotsOfPrograms(e, key, key, j, k); }
  }
}
