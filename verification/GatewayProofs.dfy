/** Losslessness, exactly-once mutation and direction isolation of the gateway. */
module GatewayProofs {
  import opened Types
  import opened GatewaySpec

  // ---------------------------------------------------------------- the invariant

  /** A processed frame is the received one, stamped, under the outcome of its own number: mutated by
      exactly that one where the policy permitted it, and otherwise as it was. */
  predicate PassOk(p: Pass, received: CanFrame, w: World) {
    && p.input == received.(timestampUs := p.input.timestampUs)
    && p.output == Mutated(p.input, p.permitted, w.outcome(p.number))
  }

  ghost predicate LaneOk(l: Lane, d: Direction, work: nat, w: World) {
    && |l.sent| <= |l.passes| <= |l.accepted| && l.failures == 0
    && l.Waiting() <= EGRESS_CAPACITY && l.Raw() <= RAW_CAPACITY
    && l.sent == Outputs(l.passes)[..|l.sent|]
    && (forall i :: 0 <= i < |l.accepted| ==> l.accepted[i].direction == d)
    && (forall i :: 0 <= i < |l.passes| ==> PassOk(l.passes[i], l.accepted[i], w) && l.passes[i].number < work)
    && (forall i, j :: 0 <= i < j < |l.passes| ==> l.passes[i].number < l.passes[j].number)
  }

  ghost predicate SeparateWork(a: Lane, b: Lane) {
    forall i, j :: 0 <= i < |a.passes| && 0 <= j < |b.passes| ==> a.passes[i].number != b.passes[j].number
  }

  ghost predicate Inv(s: Gateway, w: World) {
    LaneOk(s.ab, AToB, s.work, w) && LaneOk(s.ba, BToA, s.work, w) && SeparateWork(s.ab, s.ba)
  }

  lemma InvOf(s: Gateway, d: Direction, w: World)
    requires Inv(s, w)
    ensures LaneOk(s.Of(d), d, s.work, w) && LaneOk(s.Of(d.Opposite()), d.Opposite(), s.work, w)
  {
  }

  /** Replacing one lane by one whose frames were processed under numbers of its own. */
  lemma LaneReplaced(s: Gateway, t: Gateway, d: Direction, w: World)
    requires Inv(s, w) && s.work <= t.work && LaneOk(t.Of(d), d, t.work, w)
    requires t.Of(d.Opposite()) == s.Of(d.Opposite())
    requires SeparateWork(t.Of(d), s.Of(d.Opposite()))
    ensures Inv(t, w)
  {
    InvOf(s, d, w);
    LaterWork(s.Of(d.Opposite()), d.Opposite(), s.work, t.work, w);
    if d.BToA? { SeparateSymmetric(t.ba, t.ab); }
  }

  lemma LaterWork(l: Lane, d: Direction, work: nat, later: nat, w: World)
    requires LaneOk(l, d, work, w) && work <= later
    ensures LaneOk(l, d, later, w)
  {
  }

  lemma SeparateSymmetric(a: Lane, b: Lane)
    requires SeparateWork(a, b)
    ensures SeparateWork(b, a)
  {
  }

  lemma SeparateOf(s: Gateway, d: Direction, w: World)
    requires Inv(s, w)
    ensures SeparateWork(s.Of(d), s.Of(d.Opposite()))
  {
    SeparateSymmetric(s.ab, s.ba);
  }

  lemma AcceptedKeeps(l: Lane, d: Direction, work: nat, f: CanFrame, w: World)
    requires LaneOk(l, d, work, w) && l.Raw() < RAW_CAPACITY && f.direction == d
    ensures LaneOk(l.(accepted := l.accepted + [f]), d, work, w)
  {
  }

  lemma ReceiveKeeps(s: Gateway, f: CanFrame, w: World)
    requires Inv(s, w)
    ensures Inv(Receive(s, f), w)
  {
    var d := f.direction;
    InvOf(s, d, w);
    if s.Of(d).Raw() < RAW_CAPACITY {
      AcceptedKeeps(s.Of(d), d, s.work, f, w);
      SeparateOf(s, d, w);
      LaneReplaced(s, Receive(s, f), d, w);
    }
  }

  lemma SentKeeps(l: Lane, d: Direction, work: nat, w: World)
    requires LaneOk(l, d, work, w) && 0 < l.Waiting()
    ensures LaneOk(l.(sent := l.sent + [l.passes[|l.sent|].output]), d, work, w)
  {
  }

  lemma FlushOneKeeps(s: Gateway, d: Direction, w: World)
    requires Inv(s, w) && 0 < s.Of(d).Waiting()
    ensures Inv(FlushOne(s, d, w), w)
  {
    InvOf(s, d, w);
    SentKeeps(s.Of(d), d, s.work, w);
    SeparateOf(s, d, w);
    LaneReplaced(s, FlushOne(s, d, w), d, w);
  }

  /** Processing the oldest raw frame of a lane. */
  lemma PassedKeeps(l: Lane, d: Direction, work: nat, p: Pass, w: World)
    requires LaneOk(l, d, work, w) && 0 < l.Raw() && l.Waiting() < EGRESS_CAPACITY
    requires p.number == work && PassOk(p, l.accepted[|l.passes|], w)
    ensures LaneOk(l.(passes := l.passes + [p]), d, work + 1, w)
    ensures l.Waiting() == 0 ==> LaneOk(l.(passes := l.passes + [p], sent := l.sent + [p.output]), d, work + 1, w)
  {
    assert Outputs(l.passes + [p]) == Outputs(l.passes) + [p.output];
  }

  lemma NewNumber(l: Lane, other: Lane, d: Direction, work: nat, p: Pass, next: Lane, w: World)
    requires SeparateWork(l, other) && LaneOk(other, d, work, w)
    requires p.number == work && next.passes == l.passes + [p]
    ensures SeparateWork(next, other)
  {
  }

  /** What processing a frame under the next number looks like. */
  function NextPass(s: Gateway, received: CanFrame, now: U32, w: World): Pass {
    Pass(s.work, Permitted(s, received.direction), received.(timestampUs := now),
         Processed(s, received.(timestampUs := now), w))
  }

  lemma ForwardShape(s: Gateway, d: Direction, now: U32, w: World)
    requires 0 < s.Of(d).Raw() && 0 <= s.Of(d).Waiting() < EGRESS_CAPACITY
    ensures var l, t := s.Of(d), ForwardOne(s, d, now, w);
      var p := NextPass(s, l.accepted[|l.passes|], now, w);
      && t.work == s.work + 1 && t.Of(d.Opposite()) == s.Of(d.Opposite())
      && PassOk(p, l.accepted[|l.passes|], w)
      && (t.Of(d) == l.(passes := l.passes + [p]) ||
          (l.Waiting() == 0 && t.Of(d) == l.(passes := l.passes + [p], sent := l.sent + [p.output])))
  {
  }

  lemma ForwardOneKeeps(s: Gateway, d: Direction, now: U32, w: World)
    requires Inv(s, w) && 0 < s.Of(d).Raw() && 0 <= s.Of(d).Waiting() < EGRESS_CAPACITY
    ensures Inv(ForwardOne(s, d, now, w), w)
  {
    hide LaneOk, PassOk;
    InvOf(s, d, w);
    SeparateOf(s, d, w);
    ForwardShape(s, d, now, w);
    var l, next := s.Of(d), ForwardOne(s, d, now, w);
    var p := NextPass(s, l.accepted[|l.passes|], now, w);
    PassedKeeps(l, d, s.work, p, w);
    NewNumber(l, s.Of(d.Opposite()), d.Opposite(), s.work, p, next.Of(d), w);
    LaneReplaced(s, next, d, w);
  }

  lemma InjectKeeps(s: Gateway, f: CanFrame, dryRun: bool, w: World)
    requires Inv(s, w)
    ensures Inv(Inject(s, f, dryRun, w), w)
  {
  }

  lemma FlushTurnKeeps(t: Turn, d: Direction, w: World)
    requires Inv(t.s, w)
    ensures Inv(FlushTurn(t, d, w).s, w)
  {
    if 0 < t.s.Of(d).Waiting() { FlushOneKeeps(t.s, d, w); }
  }

  lemma FlushRoundKeeps(t: Turn, w: World)
    requires Inv(t.s, w)
    ensures Inv(FlushRound(t, w).s, w)
  {
    FlushTurnKeeps(t.(moved := false), t.s.nextFlush, w);
    FlushTurnKeeps(FlushTurn(t.(moved := false), t.s.nextFlush, w), t.s.nextFlush.Opposite(), w);
  }

  lemma {:induction false} FlushLoopKeeps(t: Turn, w: World)
    requires Inv(t.s, w)
    ensures Inv(FlushLoop(t, w).s, w)
    decreases EGRESS_PER_POLL - t.used
  {
    if t.used < EGRESS_PER_POLL {
      FlushRoundKeeps(t, w);
      FlushProgress(t, w);
      var r := FlushRound(t, w);
      if r.moved && !AllBlocked(r.blocked) { FlushLoopKeeps(r, w); }
    }
  }

  lemma FlushProgress(t: Turn, w: World)
    ensures FlushRound(t, w).moved ==> FlushRound(t, w).used > t.used
    ensures t.used <= FlushRound(t, w).used
  {
    FlushTurnUses(t.(moved := false), t.s.nextFlush, w);
    FlushTurnUses(FlushTurn(t.(moved := false), t.s.nextFlush, w), t.s.nextFlush.Opposite(), w);
  }

  lemma RawTurnKeeps(t: Turn, d: Direction, now: U32, w: World)
    requires Inv(t.s, w)
    ensures Inv(RawTurn(t, d, now, w).s, w)
  {
    var l := t.s.Of(d);
    if 0 < l.Raw() && l.Waiting() < EGRESS_CAPACITY {
      InvOf(t.s, d, w);
      ForwardOneKeeps(t.s, d, now, w);
    }
  }

  lemma RawRoundKeeps(t: Turn, now: U32, w: World)
    requires Inv(t.s, w)
    ensures Inv(RawRound(t, now, w).s, w)
  {
    RawTurnKeeps(t.(moved := false), t.s.nextRaw, now, w);
    RawTurnKeeps(RawTurn(t.(moved := false), t.s.nextRaw, now, w), t.s.nextRaw.Opposite(), now, w);
  }

  lemma RawProgress(t: Turn, now: U32, w: World)
    ensures RawRound(t, now, w).moved ==> RawRound(t, now, w).used > t.used
    ensures t.used <= RawRound(t, now, w).used
  {
    RawTurnUses(t.(moved := false), t.s.nextRaw, now, w);
    RawTurnUses(RawTurn(t.(moved := false), t.s.nextRaw, now, w), t.s.nextRaw.Opposite(), now, w);
  }

  lemma {:induction false} RawLoopKeeps(t: Turn, now: U32, w: World)
    requires Inv(t.s, w)
    ensures Inv(RawLoop(t, now, w).s, w)
    decreases RAW_PER_POLL - t.used
  {
    if t.used < RAW_PER_POLL {
      RawRoundKeeps(t, now, w);
      RawProgress(t, now, w);
      var r := RawRound(t, now, w);
      if r.moved && !AllBlocked(r.blocked) { RawLoopKeeps(r, now, w); }
    }
  }

  lemma StepKeeps(s: Gateway, c: Call, w: World)
    requires Inv(s, w)
    ensures Inv(Step(s, c, w), w)
  {
    match c
    case ReceiveCall(f) => ReceiveKeeps(s, f, w);
    case PollCall(now) =>
      FlushLoopKeeps(Turn(s, {}, 0, false), w);
      RawLoopKeeps(Turn(Flush(s, w), {}, 0, false), now, w);
    case InjectCall(f, dry) => InjectKeeps(s, f, dry, w);
    case PurgeCall(d) =>
    case AllowCall(b) =>
    case MaskCall(m) =>
  }

  /** The state after any sequence of receptions, polls, replays, purges and policy changes, with
      any answers of the transmitters. */
  ghost function After(calls: seq<Call>, w: World): (s: Gateway)
    ensures Inv(s, w)
  {
    if calls == [] then Init()
    else
      StepKeeps(After(calls[..|calls| - 1], w), calls[|calls| - 1], w);
      Step(After(calls[..|calls| - 1], w), calls[|calls| - 1], w)
  }

  // ---------------------------------------------------------------- losslessness

  /** In every run and for each direction: what was accepted since the last purge is exactly what
      was sent, then what waits in the egress ring, then what waits in the raw ring, in order; each
      frame was processed once, under a number no other frame of either direction has, and is the
      received one, stamped, with exactly the engine's outcome of that number applied where the policy
      permitted it; no transmission was ever given up. */
  lemma Lossless(calls: seq<Call>, w: World, d: Direction)
    ensures var s := After(calls, w);
      var l, other := s.Of(d), s.Of(d.Opposite());
      && l.sent + l.Egress() == Outputs(l.passes)
      && |l.passes| <= |l.accepted| && l.failures == 0
      && (forall i :: 0 <= i < |l.passes| ==> PassOk(l.passes[i], l.accepted[i], w))
      && (forall i, j :: 0 <= i < j < |l.passes| ==> l.passes[i].number != l.passes[j].number)
      && SeparateWork(l, other)
      && |l.Egress()| <= EGRESS_CAPACITY && |l.accepted[|l.passes|..]| <= RAW_CAPACITY
  {
    hide After, PassOk;
    var s := After(calls, w);
    InvOf(s, d, w);
    var l := s.Of(d);
    assert Outputs(l.passes)[|l.sent|..] == l.Egress();
  }

  /** A replayed frame goes to the transmitter of its own direction, as it was given or with the payload
      of its outcome where the policy permits that, and only when no physical frame waits anywhere; the
      caller learns whether it was taken. */
  lemma ReplayYields(calls: seq<Call>, w: World, f: CanFrame, dryRun: bool)
    ensures var s := After(calls, w);
      var after := Inject(s, f, dryRun, w);
      && (after.log == s.log ||
            (!dryRun && s.writesAllowed && |after.log| == |s.log| + 1 && after.log[..|s.log|] == s.log &&
             s.ab.Egress() == s.ba.Egress() == [] &&
             s.ab.accepted[|s.ab.passes|..] == s.ba.accepted[|s.ba.passes|..] == [] &&
             ReplayOffered(s, after.log[|s.log|], f, w)))
      && (InjectResult(s, dryRun, w) <==>
            s.writesAllowed && (dryRun || (after.log != s.log && after.log[|s.log|].accepted)))
      && (s.writesAllowed && !dryRun && !Backlog(s) ==> after.log != s.log)
      && after.ab == s.ab && after.ba == s.ba
  {
    hide Inv;
    InvOf(After(calls, w), AToB, w);
  }

  predicate ReplayOffered(s: Gateway, c: TxCall, f: CanFrame, w: World) {
    var o := w.outcome(s.work);
    && c.replay && c.direction == f.direction && c.accepted == w.driver(|s.log|)
    && c.frame == if s.writesAllowed && f.direction in s.mask && o.hasRules then f.(data := o.data) else f
  }

  // ---------------------------------------------------------------- bounded driver calls

  lemma FlushTurnLog(t: Turn, d: Direction, w: World)
    ensures var r := FlushTurn(t, d, w);
      && t.s.log <= r.s.log && |r.s.log| - |t.s.log| == r.used - t.used
  {
  }

  lemma FlushRoundLog(t: Turn, w: World)
    ensures var r := FlushRound(t, w);
      && t.s.log <= r.s.log && |r.s.log| - |t.s.log| == r.used - t.used
  {
    FlushTurnLog(t.(moved := false), t.s.nextFlush, w);
    FlushTurnLog(FlushTurn(t.(moved := false), t.s.nextFlush, w), t.s.nextFlush.Opposite(), w);
  }

  lemma {:induction false} FlushLoopLog(t: Turn, w: World)
    requires t.used <= EGRESS_PER_POLL
    ensures var r := FlushLoop(t, w);
      t.s.log <= r.s.log && |r.s.log| - |t.s.log| <= EGRESS_PER_POLL - t.used
    decreases EGRESS_PER_POLL - t.used
  {
    if t.used < EGRESS_PER_POLL {
      FlushRoundLog(t, w);
      FlushProgress(t, w);
      FlushRoundBound(t, w);
      var r := FlushRound(t, w);
      if r.moved && !AllBlocked(r.blocked) { FlushLoopLog(r, w); }
    }
  }

  lemma FlushRoundBound(t: Turn, w: World)
    requires t.used <= EGRESS_PER_POLL
    ensures FlushRound(t, w).used <= EGRESS_PER_POLL
  {
  }

  lemma RawTurnLog(t: Turn, d: Direction, now: U32, w: World)
    ensures var r := RawTurn(t, d, now, w);
      t.s.log <= r.s.log && |r.s.log| - |t.s.log| <= r.used - t.used
  {
  }

  lemma RawRoundLog(t: Turn, now: U32, w: World)
    ensures var r := RawRound(t, now, w);
      t.s.log <= r.s.log && |r.s.log| - |t.s.log| <= r.used - t.used
  {
    RawTurnLog(t.(moved := false), t.s.nextRaw, now, w);
    RawTurnLog(RawTurn(t.(moved := false), t.s.nextRaw, now, w), t.s.nextRaw.Opposite(), now, w);
  }

  lemma RawRoundBound(t: Turn, now: U32, w: World)
    requires t.used <= RAW_PER_POLL
    ensures RawRound(t, now, w).used <= RAW_PER_POLL
  {
  }

  lemma {:induction false} RawLoopLog(t: Turn, now: U32, w: World)
    requires t.used <= RAW_PER_POLL
    ensures var r := RawLoop(t, now, w);
      t.s.log <= r.s.log && |r.s.log| - |t.s.log| <= RAW_PER_POLL - t.used
    decreases RAW_PER_POLL - t.used
  {
    if t.used < RAW_PER_POLL {
      RawRoundLog(t, now, w);
      RawProgress(t, now, w);
      RawRoundBound(t, now, w);
      var r := RawRound(t, now, w);
      if r.moved && !AllBlocked(r.blocked) { RawLoopLog(r, now, w); }
    }
  }

  lemma FlushTurnFirst(t: Turn, d: Direction, w: World)
    requires t.used < EGRESS_PER_POLL && d !in t.blocked && t.s.Of(d).Waiting() > 0
    ensures var r := FlushTurn(t, d, w);
      t.s.log < r.s.log && r.s.log[|t.s.log|].direction == d
  {
  }

  lemma FlushRoundIs(t: Turn, w: World)
    ensures var first := t.s.nextFlush;
      var mid := FlushTurn(t.(moved := false), first, w);
      var r := FlushTurn(mid, first.Opposite(), w);
      FlushRound(t, w) == r.(s := r.s.(nextFlush := first.Opposite()))
  {
    hide FlushTurn;
  }

  /** The direction whose turn it is makes the first driver call of a flush round, if it can, and the
      other one starts the next round. */
  lemma FlushRoundsAlternate(t: Turn, w: World)
    ensures var first, r := t.s.nextFlush, FlushRound(t, w);
      && r.s.nextFlush == first.Opposite()
      && (t.used < EGRESS_PER_POLL && first !in t.blocked && t.s.Of(first).Waiting() > 0 ==>
            |r.s.log| > |t.s.log| && r.s.log[|t.s.log|].direction == first)
  {
    hide FlushTurn, FlushRound;
    var start, first := t.(moved := false), t.s.nextFlush;
    var mid := FlushTurn(start, first, w);
    FlushRoundIs(t, w);
    FlushTurnLog(mid, first.Opposite(), w);
    if t.used < EGRESS_PER_POLL && first !in t.blocked && t.s.Of(first).Waiting() > 0 {
      FlushTurnFirst(start, first, w);
    }
  }

  lemma RawTurnFirst(t: Turn, d: Direction, now: U32, w: World)
    requires t.used < RAW_PER_POLL && d !in t.blocked && t.s.Of(d).Raw() > 0
    requires 0 <= t.s.Of(d).Waiting() < EGRESS_CAPACITY
    ensures var l, r := t.s.Of(d), RawTurn(t, d, now, w).s.Of(d);
      |r.passes| == |l.passes| + 1 && r.passes[|l.passes|].number == t.s.work
  {
    hide Processed;
  }

  lemma RawRoundIs(t: Turn, now: U32, w: World)
    ensures var first := t.s.nextRaw;
      var mid := RawTurn(t.(moved := false), first, now, w);
      var r := RawTurn(mid, first.Opposite(), now, w);
      RawRound(t, now, w) == r.(s := r.s.(nextRaw := first.Opposite()))
  {
    hide RawTurn;
  }

  /** So does it forward the first frame of a raw round. */
  lemma RawRoundsAlternate(t: Turn, now: U32, w: World)
    ensures var first, r := t.s.nextRaw, RawRound(t, now, w);
      && r.s.nextRaw == first.Opposite()
      && (t.used < RAW_PER_POLL && first !in t.blocked && t.s.Of(first).Raw() > 0 &&
          0 <= t.s.Of(first).Waiting() < EGRESS_CAPACITY ==>
            |r.s.Of(first).passes| == |t.s.Of(first).passes| + 1 &&
            r.s.Of(first).passes[|t.s.Of(first).passes|].number == t.s.work)
  {
    hide RawTurn, RawRound;
    var start, first := t.(moved := false), t.s.nextRaw;
    var mid := RawTurn(start, first, now, w);
    RawRoundIs(t, now, w);
    RawTurnOther(mid, first.Opposite(), first, now, w);
    if t.used < RAW_PER_POLL && first !in t.blocked && t.s.Of(first).Raw() > 0 &&
       0 <= t.s.Of(first).Waiting() < EGRESS_CAPACITY {
      RawTurnFirst(start, first, now, w);
    }
  }

  /** One poll makes at most 32 driver calls. */
  lemma BoundedPoll(s: Gateway, now: U32, w: World)
    ensures s.log <= Poll(s, now, w).log
    ensures |Poll(s, now, w).log| <= |s.log| + 32
  {
    FlushLoopLog(Turn(s, {}, 0, false), w);
    RawLoopLog(Turn(Flush(s, w), {}, 0, false), now, w);
  }

  // ---------------------------------------------------------------- direction isolation

  /** From `from` on, direction `d`'s transmitter took every frame it was offered. */
  ghost predicate AllTaken(log: seq<TxCall>, from: nat, d: Direction) {
    forall i :: from <= i < |log| && log[i].direction == d ==> log[i].accepted
  }

  lemma TakenPrefix(log: seq<TxCall>, more: seq<TxCall>, from: nat, d: Direction)
    requires log <= more && AllTaken(more, from, d)
    ensures AllTaken(log, from, d)
  {
    forall i | from <= i < |log| && log[i].direction == d ensures log[i].accepted {
      assert more[i] == log[i];
    }
  }

  /** A turn of the other direction leaves this one's history alone. */
  lemma FlushTurnOther(t: Turn, o: Direction, d: Direction, w: World)
    requires o != d
    ensures FlushTurn(t, o, w).s.Of(d) == t.s.Of(d)
    ensures d in FlushTurn(t, o, w).blocked <==> d in t.blocked
  {
  }

  /** A turn of a direction whose transmitter takes everything. */
  lemma FlushTurnTaken(t: Turn, d: Direction, w: World)
    requires d !in t.blocked && AllTaken(FlushTurn(t, d, w).s.log, |t.s.log|, d)
    ensures var r := FlushTurn(t, d, w);
      && d !in r.blocked && r.s.Of(d).passes == t.s.Of(d).passes
      && r.s.Of(d).Waiting() ==
           t.s.Of(d).Waiting() - (if t.used < EGRESS_PER_POLL && t.s.Of(d).Waiting() > 0 then 1 else 0)
      && (r.used > t.used <==> t.used < EGRESS_PER_POLL && t.s.Of(d).Waiting() > 0)
  {
    if t.used < EGRESS_PER_POLL && t.s.Of(d).Waiting() > 0 {
      var r := FlushTurn(t, d, w);
      assert r.s.log[|t.s.log|] == TxCall(d, t.s.Of(d).passes[|t.s.Of(d).sent|].output, Answer(t.s, w), false);
    }
  }

  /** In one round that direction gets its turn, unless the last one of the poll went to the other. */
  lemma FlushRoundTaken(t: Turn, d: Direction, w: World)
    requires d !in t.blocked && t.used < EGRESS_PER_POLL && t.s.Of(d).Waiting() >= 0
    requires AllTaken(FlushRound(t, w).s.log, |t.s.log|, d)
    ensures var r := FlushRound(t, w);
      var sent := t.s.Of(d).Waiting() - r.s.Of(d).Waiting();
      && d !in r.blocked && r.s.Of(d).Waiting() >= 0 && r.s.Of(d).passes == t.s.Of(d).passes
      && (t.s.Of(d).Waiting() == 0 ==> r.s.Of(d).Waiting() == 0)
      && (t.s.Of(d).Waiting() > 0 ==>
            r.moved && ((sent == 1 && r.used <= t.used + 2) || (sent == 0 && r.used == t.used + 1 == EGRESS_PER_POLL)))
  {
    var start := t.(moved := false);
    var first := t.s.nextFlush;
    var mid := FlushTurn(start, first, w);
    var r := FlushTurn(mid, first.Opposite(), w);
    FlushTurnLog(start, first, w);
    FlushTurnLog(mid, first.Opposite(), w);
    FlushTurnUses(start, first, w);
    FlushTurnUses(mid, first.Opposite(), w);
    if first == d {
      TakenPrefix(mid.s.log, r.s.log, |t.s.log|, d);
      FlushTurnTaken(start, d, w);
      FlushTurnOther(mid, first.Opposite(), d, w);
    } else {
      FlushTurnOther(start, first, d, w);
      FlushTurnTaken(mid, d, w);
    }
  }

  lemma {:induction false} FlushLoopTaken(t: Turn, s0: Gateway, d: Direction, w: World)
    requires d !in t.blocked && t.used <= EGRESS_PER_POLL && t.s.Of(d).Waiting() >= 0
    requires t.s.Of(d).Waiting() == 0 || t.used <= 2 * (s0.Of(d).Waiting() - t.s.Of(d).Waiting())
    requires AllTaken(FlushLoop(t, w).s.log, |t.s.log|, d)
    ensures var r := FlushLoop(t, w).s.Of(d);
      && r.passes == t.s.Of(d).passes && r.Waiting() >= 0
      && (r.Waiting() == 0 || s0.Of(d).Waiting() - r.Waiting() >= 8)
    decreases EGRESS_PER_POLL - t.used
  {
    if t.used < EGRESS_PER_POLL {
      var r := FlushRound(t, w);
      FlushProgress(t, w);
      FlushRoundBound(t, w);
      FlushRoundLog(t, w);
      FlushLoopLog(r, w);
      TakenPrefix(r.s.log, FlushLoop(t, w).s.log, |t.s.log|, d);
      FlushRoundTaken(t, d, w);
      if r.moved && !AllBlocked(r.blocked) {
        TakenSuffix(FlushLoop(r, w).s.log, |t.s.log|, |r.s.log|, d);
        if r.used == EGRESS_PER_POLL {
        } else {
          FlushLoopTaken(r, s0, d, w);
        }
      }
    }
  }

  lemma TakenSuffix(log: seq<TxCall>, from: nat, later: nat, d: Direction)
    requires AllTaken(log, from, d) && from <= later
    ensures AllTaken(log, later, d)
  {
  }

  lemma RawTurnOther(t: Turn, o: Direction, d: Direction, now: U32, w: World)
    requires o != d
    ensures RawTurn(t, o, now, w).s.Of(d) == t.s.Of(d)
    ensures d in RawTurn(t, o, now, w).blocked <==> d in t.blocked
  {
  }

  lemma RawTurnMoves(t: Turn, o: Direction, now: U32, w: World)
    ensures var r := RawTurn(t, o, now, w);
      && (t.moved ==> r.moved) && r.s.nextRaw == t.s.nextRaw
      && (r.used == t.used || (r.used == t.used + 1 && t.used < RAW_PER_POLL && r.moved))
  {
  }

  /** A raw turn of a direction whose transmitter takes everything: the oldest frame moves, and a
      drained egress ring stays drained. */
  lemma RawTurnTaken(t: Turn, d: Direction, now: U32, w: World)
    requires Inv(t.s, w) && d !in t.blocked && t.s.Of(d).Waiting() < EGRESS_CAPACITY
    requires AllTaken(RawTurn(t, d, now, w).s.log, |t.s.log|, d)
    ensures var r := RawTurn(t, d, now, w);
      var turn := t.used < RAW_PER_POLL && t.s.Of(d).Raw() > 0;
      && d !in r.blocked
      && |r.s.Of(d).passes| == |t.s.Of(d).passes| + (if turn then 1 else 0)
      && r.s.Of(d).accepted == t.s.Of(d).accepted
      && r.s.Of(d).Waiting() == t.s.Of(d).Waiting() + (if turn && t.s.Of(d).Waiting() > 0 then 1 else 0)
      && (r.used > t.used <==> turn)
  {
    hide Inv, PassOk, Processed;
    InvOf(t.s, d, w);
    var l := t.s.Of(d);
    if t.used < RAW_PER_POLL && l.Raw() > 0 && l.Waiting() == 0 {
      var r := RawTurn(t, d, now, w);
      assert r.s.log[|t.s.log|].direction == d;
    }
  }

  lemma RawRoundTaken(t: Turn, d: Direction, now: U32, w: World)
    requires Inv(t.s, w) && d !in t.blocked && t.s.Of(d).Waiting() < EGRESS_CAPACITY && t.used < RAW_PER_POLL
    requires AllTaken(RawRound(t, now, w).s.log, |t.s.log|, d)
    ensures var r := RawRound(t, now, w);
      var moved := |r.s.Of(d).passes| - |t.s.Of(d).passes|;
      && d !in r.blocked && 0 <= moved <= 1 && r.s.Of(d).accepted == t.s.Of(d).accepted
      && r.s.Of(d).Waiting() == t.s.Of(d).Waiting() + (if t.s.Of(d).Waiting() > 0 then moved else 0)
      && (t.s.Of(d).Raw() > 0 ==>
            r.moved && ((moved == 1 && r.used <= t.used + 2) || (moved == 0 && r.used == t.used + 1 == RAW_PER_POLL)))
  {
    hide Inv, AllTaken, RawTurn;
    var start := t.(moved := false);
    var first := t.s.nextRaw;
    var mid := RawTurn(start, first, now, w);
    var r := RawTurn(mid, first.Opposite(), now, w);
    RawTurnLog(start, first, now, w);
    RawTurnLog(mid, first.Opposite(), now, w);
    RawTurnMoves(start, first, now, w);
    RawTurnMoves(mid, first.Opposite(), now, w);
    RawTurnKeeps(start, first, now, w);
    if first == d {
      TakenPrefix(mid.s.log, r.s.log, |t.s.log|, d);
      RawTurnTaken(start, d, now, w);
      RawTurnOther(mid, first.Opposite(), d, now, w);
    } else {
      RawTurnOther(start, first, d, now, w);
      TakenSuffix(r.s.log, |t.s.log|, |mid.s.log|, d);
      RawTurnTaken(mid, d, now, w);
    }
  }

  /** Frames of direction `d` processed since `s0` */
  function MovedSince(s0: Gateway, s: Gateway, d: Direction): int {
    |s.Of(d).passes| - |s0.Of(d).passes|
  }

  /** The direction has moved eight frames, or its turns have not been used up by the other one. */
  predicate OnTrack(t: Turn, s0: Gateway, d: Direction) {
    && t.s.Of(d).accepted == s0.Of(d).accepted && MovedSince(s0, t.s, d) >= 0
    && (MovedSince(s0, t.s, d) >= 8 ||
        (d !in t.blocked && (t.s.Of(d).Raw() == 0 || t.used <= 2 * MovedSince(s0, t.s, d)) &&
         (t.s.Of(d).Waiting() == 0 || t.s.Of(d).Waiting() <= EGRESS_CAPACITY - 8 + MovedSince(s0, t.s, d))))
  }

  /** Eight frames have moved, or none is left. */
  predicate Served(s: Gateway, s0: Gateway, d: Direction) {
    MovedSince(s0, s, d) >= 8 || s.Of(d).Raw() == 0
  }

  lemma RoundOnTrack(t: Turn, s0: Gateway, d: Direction, now: U32, w: World)
    requires Inv(t.s, w) && t.used < RAW_PER_POLL && OnTrack(t, s0, d)
    requires AllTaken(RawRound(t, now, w).s.log, |t.s.log|, d)
    ensures var r := RawRound(t, now, w);
      OnTrack(r, s0, d) && (!r.moved || AllBlocked(r.blocked) ==> Served(r.s, s0, d))
  {
    hide Inv, AllTaken, RawRound;
    InvOf(t.s, d, w);
    RawRoundKeeps(t, now, w);
    InvOf(RawRound(t, now, w).s, d, w);
    RawRoundMonotone(t, now, w, d);
    if MovedSince(s0, t.s, d) < 8 { RawRoundTaken(t, d, now, w); }
  }

  lemma EndOnTrack(t: Turn, s0: Gateway, d: Direction, w: World)
    requires Inv(t.s, w) && t.used == RAW_PER_POLL && OnTrack(t, s0, d)
    ensures Served(t.s, s0, d)
  {
  }

  lemma {:induction false} RawLoopTaken(t: Turn, s0: Gateway, d: Direction, now: U32, w: World)
    requires Inv(t.s, w) && t.used <= RAW_PER_POLL && OnTrack(t, s0, d)
    requires AllTaken(RawLoop(t, now, w).s.log, |t.s.log|, d)
    ensures Served(RawLoop(t, now, w).s, s0, d) && RawLoop(t, now, w).s.Of(d).accepted == s0.Of(d).accepted
    decreases RAW_PER_POLL - t.used
  {
    hide Inv, AllTaken, RawRound, Served;
    if t.used == RAW_PER_POLL {
      EndOnTrack(t, s0, d, w);
    } else {
      var r := RawRound(t, now, w);
      RawProgress(t, now, w);
      RawRoundBound(t, now, w);
      RawRoundKeeps(t, now, w);
      RawRoundLog(t, now, w);
      RawLoopLog(r, now, w);
      TakenPrefix(r.s.log, RawLoop(t, now, w).s.log, |t.s.log|, d);
      RoundOnTrack(t, s0, d, now, w);
      if r.moved && !AllBlocked(r.blocked) {
        TakenSuffix(RawLoop(r, now, w).s.log, |t.s.log|, |r.s.log|, d);
        RawLoopTaken(r, s0, d, now, w);
      }
    }
  }

  lemma RawTurnMonotone(t: Turn, o: Direction, now: U32, w: World, d: Direction)
    ensures |RawTurn(t, o, now, w).s.Of(d).passes| >= |t.s.Of(d).passes|
    ensures RawTurn(t, o, now, w).s.Of(d).accepted == t.s.Of(d).accepted
  {
  }

  lemma RawRoundMonotone(t: Turn, now: U32, w: World, d: Direction)
    ensures |RawRound(t, now, w).s.Of(d).passes| >= |t.s.Of(d).passes|
    ensures RawRound(t, now, w).s.Of(d).accepted == t.s.Of(d).accepted
  {
    var start, first := t.(moved := false), t.s.nextRaw;
    RawTurnMonotone(start, first, now, w, d);
    RawTurnMonotone(RawTurn(start, first, now, w), first.Opposite(), now, w, d);
  }

  lemma FlushTurnFrames(t: Turn, o: Direction, w: World, d: Direction)
    ensures FlushTurn(t, o, w).s.Of(d).accepted == t.s.Of(d).accepted
    ensures FlushTurn(t, o, w).s.Of(d).passes == t.s.Of(d).passes
  {
  }

  lemma {:induction false} FlushKeepsFrames(t: Turn, w: World, d: Direction)
    ensures FlushLoop(t, w).s.Of(d).accepted == t.s.Of(d).accepted
    ensures FlushLoop(t, w).s.Of(d).passes == t.s.Of(d).passes
    decreases EGRESS_PER_POLL - t.used
  {
    if t.used < EGRESS_PER_POLL {
      FlushProgress(t, w);
      FlushTurnFrames(t.(moved := false), t.s.nextFlush, w, d);
      FlushTurnFrames(FlushTurn(t.(moved := false), t.s.nextFlush, w), t.s.nextFlush.Opposite(), w, d);
      var r := FlushRound(t, w);
      if r.moved && !AllBlocked(r.blocked) { FlushKeepsFrames(r, w, d); }
    }
  }

  /** If one direction's transmitter takes every frame it is offered during a poll, that poll moves
      at least eight of its raw frames, or all of them, whatever the other transmitter does. */
  lemma DirectionIsolation(calls: seq<Call>, w: World, now: U32, d: Direction)
    requires AllTaken(Poll(After(calls, w), now, w).log, |After(calls, w).log|, d)
    ensures var s := After(calls, w);
      MovedSince(s, Poll(s, now, w), d) >= (if s.Of(d).Raw() < 8 then s.Of(d).Raw() else 8)
  {
    hide Inv, AllTaken, OnTrack, FlushLoop, RawLoop, After;
    var s := After(calls, w);
    var mid := Turn(Flush(s, w), {}, 0, false);
    FlushLoopLog(Turn(s, {}, 0, false), w);
    RawLoopLog(mid, now, w);
    TakenPrefix(mid.s.log, Poll(s, now, w).log, |s.log|, d);
    FlushOnTrack(s, d, w);
    TakenSuffix(Poll(s, now, w).log, |s.log|, |mid.s.log|, d);
    RawLoopTaken(mid, s, d, now, w);
    ServedMeans(Poll(s, now, w), s, d);
  }

  /** After the flush loop the direction is on track for the raw loop. */
  lemma FlushOnTrack(s: Gateway, d: Direction, w: World)
    requires Inv(s, w) && AllTaken(Flush(s, w).log, |s.log|, d)
    ensures Inv(Flush(s, w), w) && OnTrack(Turn(Flush(s, w), {}, 0, false), s, d)
  {
    hide Inv, AllTaken, FlushLoop;
    var t := Turn(s, {}, 0, false);
    InvOf(s, d, w);
    FlushLoopKeeps(t, w);
    InvOf(Flush(s, w), d, w);
    FlushKeepsFrames(t, w, d);
    FlushLoopTaken(t, s, d, w);
  }

  lemma ServedMeans(s: Gateway, s0: Gateway, d: Direction)
    requires Served(s, s0, d) && s.Of(d).accepted == s0.Of(d).accepted
    ensures MovedSince(s0, s, d) >= (if s0.Of(d).Raw() < 8 then s0.Of(d).Raw() else 8)
  {
  }
}
