/** The gateway core (core/gateway.cpp): two raw rings, two egress rings and the bounded fair loops
    between them, proved to take the steps of `GatewaySpec`. */
module GatewayModule {
  import opened Types
  import opened GatewaySpec
  import opened GatewayProofs
  import Ring

  const RAW_SLOTS := 128
  const EGRESS_SLOTS := 64

  const NO_FRAME := CanFrame(0, 0, [0, 0, 0, 0, 0, 0, 0, 0], 0, AToB)

  /** The raw and the egress ring of one direction, with the history they carry. */
  class LaneRings {
    const raw: array<CanFrame>
    const egress: array<CanFrame>
    var rawHead: nat
    var rawTail: nat
    var egressHead: nat
    var egressTail: nat
    var egressCount: nat
    var failures: nat
    ghost var accepted: seq<CanFrame>
    ghost var passes: seq<Pass>
    ghost var sent: seq<CanFrame>

    ghost predicate Shaped()
      reads this
    {
      && raw.Length == RAW_SLOTS && egress.Length == EGRESS_SLOTS && raw != egress
      && rawHead < RAW_SLOTS && rawTail < RAW_SLOTS
      && egressHead < EGRESS_SLOTS && egressTail < EGRESS_SLOTS && egressCount <= EGRESS_SLOTS
      && egressHead == Ring.Slot(EGRESS_SLOTS, egressTail, egressCount)
    }

    /** `rawDepth` */
    function RawDepth(): (n: nat)
      requires Shaped()
      reads this
      ensures n < RAW_SLOTS && rawHead == Ring.Slot(RAW_SLOTS, rawTail, n)
    {
      if rawHead >= rawTail then rawHead - rawTail else RAW_SLOTS - rawTail + rawHead
    }

    ghost function State(): Lane
      reads this
    {
      Lane(accepted, passes, sent, failures)
    }

    /** The rings hold what the history says; `taken` frames have left the raw ring unprocessed. */
    ghost predicate Holds(taken: nat)
      reads this, raw, egress
    {
      && Shaped() && |sent| <= |passes| && |passes| + taken <= |accepted|
      && Ring.Contents(raw[..], rawTail, RawDepth()) == accepted[|passes| + taken..]
      && Ring.Contents(egress[..], egressTail, egressCount) == Outputs(passes)[|sent|..]
    }

    ghost predicate Valid()
      reads this, raw, egress
    {
      Holds(0)
    }

    constructor ()
      ensures Valid() && State() == EMPTY && fresh(raw) && fresh(egress)
    {
      raw := new CanFrame[RAW_SLOTS](_ => NO_FRAME);
      egress := new CanFrame[EGRESS_SLOTS](_ => NO_FRAME);
      rawHead, rawTail, egressHead, egressTail, egressCount, failures := 0, 0, 0, 0, 0, 0;
      accepted, passes, sent := [], [], [];
    }

    method PushRaw(frame: CanFrame) returns (ok: bool)
      requires Valid()
      modifies this, raw
      ensures Valid() && ok == (old(State()).Raw() < RAW_CAPACITY)
      ensures State() == if ok then old(State()).(accepted := old(accepted) + [frame]) else old(State())
    {
      hide Ring.Contents, Outputs;
      var nextHead := (rawHead + 1) % RAW_SLOTS;
      if nextHead == rawTail { return false; }
      ghost var was := raw[..];
      Ring.Push(was, rawTail, RawDepth(), frame);
      raw[rawHead] := frame;
      assert raw[..] == was[rawHead := frame];
      rawHead := nextHead;
      accepted := accepted + [frame];
      return true;
    }

    method TakeRaw() returns (frame: CanFrame)
      requires Valid() && RawDepth() > 0
      modifies this`rawTail
      ensures Holds(1) && State() == old(State()) && frame == accepted[|passes|]
    {
      hide Ring.Contents, Outputs;
      Ring.Pop(raw[..], rawTail, RawDepth());
      frame := raw[rawTail];
      rawTail := (rawTail + 1) % RAW_SLOTS;
    }

    method PushEgress(output: CanFrame)
      requires Shaped() && egressCount < EGRESS_SLOTS
      modifies this`egressHead, this`egressCount, egress
      ensures Shaped() && egressCount == old(egressCount) + 1
      ensures Ring.Contents(egress[..], egressTail, egressCount) ==
        old(Ring.Contents(egress[..], egressTail, egressCount)) + [output]
    {
      hide Ring.Contents;
      ghost var was := egress[..];
      Ring.Push(was, egressTail, egressCount, output);
      egress[egressHead] := output;
      assert egress[..] == was[egressHead := output];
      egressHead := (egressHead + 1) % EGRESS_SLOTS;
      egressCount := egressCount + 1;
    }

    /** `enqueuePrepared` for the frame in hand */
    method Enqueue(output: CanFrame, ghost p: Pass) returns (ok: bool)
      requires Holds(1) && p.output == output
      modifies this, egress
      ensures ok == (old(State()).Waiting() < EGRESS_CAPACITY)
      ensures State() == if ok then old(State()).(passes := old(passes) + [p]) else old(State())
      ensures if ok then Valid() else Holds(1)
    {
      hide Ring.Contents, Outputs, Ring.Slot;
      if egressCount >= EGRESS_SLOTS { return false; }
      PushEgress(output);
      OutputsAppend(passes, p, |sent|);
      passes := passes + [p];
      return true;
    }

    /** The frame in hand was taken by the transmitter. */
    ghost method SentInHand(p: Pass)
      requires Holds(1) && egressCount == 0
      modifies this`passes, this`sent
      ensures Valid() && State() == old(State()).(passes := old(passes) + [p], sent := old(sent) + [p.output])
    {
      OutputsAppend(passes, p, |sent|);
      passes, sent := passes + [p], sent + [p.output];
    }

    /** The frame in hand found no room. */
    method Lose()
      requires Holds(1)
      modifies this`failures, this`accepted
      ensures Valid() && old(State()).Raw() > 0 && State() == Lost(old(State()))
    {
      failures := failures + 1;
      assert accepted[|passes| + 1..] == (accepted[..|passes|] + accepted[|passes| + 1..])[|passes|..];
      accepted := accepted[..|passes|] + accepted[|passes| + 1..];
    }

    function Front(): CanFrame
      requires Shaped()
      reads this, egress
    {
      egress[egressTail]
    }

    lemma FrontIsOldest()
      requires Valid() && egressCount > 0
      ensures |sent| < |passes| && Front() == passes[|sent|].output
    {
      Ring.Pop(egress[..], egressTail, egressCount);
      assert Outputs(passes)[|sent|..][0] == Outputs(passes)[|sent|];
    }

    method PopEgress()
      requires Valid() && egressCount > 0
      modifies this`egressTail, this`egressCount, this`sent
      ensures old(|sent|) < old(|passes|)
      ensures Valid() && State() == old(State()).(sent := old(sent) + [old(passes)[|old(sent)|].output])
    {
      FrontIsOldest();
      Ring.Pop(egress[..], egressTail, egressCount);
      OneLess(egressTail, egressCount);
      egressTail := (egressTail + 1) % EGRESS_SLOTS;
      egressCount := egressCount - 1;
      sent := sent + [passes[|sent|].output];
    }

    method Purge()
      requires Shaped()
      modifies this
      ensures Valid() && State() == EMPTY.(failures := old(failures))
    {
      rawHead, rawTail, egressHead, egressTail, egressCount := 0, 0, 0, 0, 0;
      accepted, passes, sent := [], [], [];
    }
  }

  class GatewayCore {
    const ab: LaneRings
    const ba: LaneRings
    const world: World
    var calls: nat
    var work: nat
    var nextRaw: Direction
    var nextFlush: Direction
    var writesAllowed: bool
    var mask: set<Direction>
    var drops: nat
    var refused: nat
    ghost var log: seq<TxCall>

    function LaneOf(d: Direction): LaneRings {
      if d.AToB? then ab else ba
    }

    ghost predicate Apart() {
      && ab != ba
      && ab.raw != ba.raw && ab.raw != ba.egress && ab.egress != ba.raw && ab.egress != ba.egress
    }

    ghost function State(): Gateway
      reads this, ab, ba
    {
      Gateway(ab.State(), ba.State(), log, work, nextRaw, nextFlush, writesAllowed, mask, drops, refused)
    }

    /** Everything but the rings of direction `d`, in which `taken` frames are in hand. */
    ghost predicate HoldsIn(d: Direction, taken: nat)
      reads this, ab, ba, ab.raw, ab.egress, ba.raw, ba.egress
    {
      && Apart() && calls == |log|
      && LaneOf(d).Holds(taken) && LaneOf(d.Opposite()).Valid()
    }

    ghost predicate Valid()
      reads this, ab, ba, ab.raw, ab.egress, ba.raw, ba.egress
    {
      Apart() && calls == |log| && ab.Valid() && ba.Valid()
    }

    constructor (w: World)
      ensures Valid() && State() == Init() && world == w
      ensures fresh(ab) && fresh(ba)
    {
      var a := new LaneRings();
      var b := new LaneRings();
      ab, ba, world := a, b, w;
      calls, work, nextRaw, nextFlush := 0, 0, AToB, AToB;
      writesAllowed, mask, drops, refused, log := false, {AToB, BToA}, 0, 0, [];
    }

    method OnFrameReceived(frame: CanFrame) returns (ok: bool)
      requires Valid()
      modifies this, ab, ba, ab.raw, ba.raw
      ensures Valid() && State() == Receive(old(State()), frame)
      ensures ok == (old(State()).Of(frame.direction).Raw() < RAW_CAPACITY)
    {
      hide LaneRings.Holds;
      ok := LaneOf(frame.direction).PushRaw(frame);
      if !ok { drops := drops + 1; }
    }

    method PurgeDirection(d: Direction)
      requires Valid()
      modifies ab, ba
      ensures Valid() && State() == Purge(old(State()), d)
    {
      LaneOf(d).Purge();
    }

    /** One call of the transmit driver. */
    method CallDriver(d: Direction, frame: CanFrame, replay: bool) returns (ok: bool)
      requires calls == |log|
      modifies this`calls, this`log
      ensures calls == |log|
      ensures ok == Answer(old(State()), world) && State() == Transmit(old(State()), d, frame, replay, world)
    {
      ok := world.driver(calls);
      log := log + [TxCall(d, frame, ok, replay)];
      calls := calls + 1;
    }

    /** The mutation step of `forwardFrame`: it runs once for every forwarded frame. */
    method Process(frame: CanFrame) returns (output: CanFrame)
      modifies this`work
      ensures output == Processed(old(State()), frame, world)
      ensures State() == old(State()).(work := old(work) + 1)
    {
      var outcome := world.outcome(work);
      output := frame;
      if writesAllowed && frame.direction in mask && outcome.hasRules {
        output := frame.(data := outcome.data);
      }
      work := work + 1;
    }

    method FlushOneEgress(d: Direction) returns (ok: bool)
      requires Valid() && 0 < State().Of(d).Waiting()
      modifies this, ab, ba
      ensures Valid() && State() == FlushOne(old(State()), d, world) && ok == Answer(old(State()), world)
    {
      var lane := LaneOf(d);
      WaitingIsCount(lane);
      lane.FrontIsOldest();
      ok := CallDriver(d, lane.Front(), false);
      if ok { lane.PopEgress(); }
    }

    /** A direction with backlog: the newer frame joins it. */
    method JoinBacklog(d: Direction, output: CanFrame, ghost p: Pass)
      requires HoldsIn(d, 1) && 0 < State().Of(d).Raw() && p.output == output
      modifies ab, ba, ab.egress, ba.egress
      ensures Valid()
      ensures State() == old(State()).With(d,
        if old(State()).Of(d).Waiting() < EGRESS_CAPACITY
        then old(State()).Of(d).(passes := old(State()).Of(d).passes + [p]) else Lost(old(State()).Of(d)))
    {
      hide Ring.Contents, Outputs;
      var queued := LaneOf(d).Enqueue(output, p);
      if !queued { LaneOf(d).Lose(); }
    }

    /** A direction without backlog: the transmitter is tried first. */
    method OfferFirst(d: Direction, output: CanFrame, ghost p: Pass)
      requires HoldsIn(d, 1) && State().Of(d).Waiting() == 0 && p.output == output
      modifies this`calls, this`log, ab, ba, ab.egress, ba.egress
      ensures Valid()
      ensures State() == Transmit(old(State()), d, output, false, world).With(d,
        if Answer(old(State()), world)
        then old(State()).Of(d).(passes := old(State()).Of(d).passes + [p], sent := old(State()).Of(d).sent + [output])
        else old(State()).Of(d).(passes := old(State()).Of(d).passes + [p]))
    {
      hide Ring.Contents, Outputs;
      EgressIsWaiting(LaneOf(d), 1);
      var ok := CallDriver(d, output, false);
      if ok {
        LaneOf(d).SentInHand(p);
      } else {
        var queued := LaneOf(d).Enqueue(output, p);
      }
    }

    /** The physical half of `forwardFrame`, for a frame that has just left the raw ring. */
    method ForwardTaken(d: Direction, frame: CanFrame, ghost now: U32)
      requires HoldsIn(d, 1) && 0 < State().Of(d).Raw()
      requires frame == State().Of(d).accepted[|State().Of(d).passes|].(timestampUs := now)
      modifies this, ab, ba, ab.egress, ba.egress
      ensures Valid() && State() == ForwardOne(old(State()), d, now, world)
    {
      hide LaneRings.Holds;
      ghost var p := Pass(work, Permitted(State(), frame.direction), frame, Processed(State(), frame, world));
      EgressIsWaiting(LaneOf(d), 1);
      var output := Process(frame);
      if LaneOf(d).egressCount > 0 {
        JoinBacklog(d, output, p);
      } else {
        OfferFirst(d, output, p);
      }
    }

    // ---------------------------------------------------------------- the fair loops

    /** One direction's turn of `flushEgressFair`. */
    method TakeFlushTurn(d: Direction, blocked: set<Direction>, used: nat, moved: bool)
      returns (stalled: set<Direction>, attempts: nat, attempted: bool)
      requires Valid()
      modifies this, ab, ba
      ensures Valid()
      ensures Turn(State(), stalled, attempts, attempted) ==
        FlushTurn(Turn(old(State()), blocked, used, moved), d, world)
    {
      stalled, attempts, attempted := blocked, used, moved;
      WaitingIsCount(LaneOf(d));
      if used >= EGRESS_PER_POLL || d in blocked || LaneOf(d).egressCount == 0 { return; }
      attempted, attempts := true, used + 1;
      var ok := FlushOneEgress(d);
      if !ok { stalled := blocked + {d}; }
    }

    method TakeFlushRound(blocked: set<Direction>, used: nat, ghost moved: bool)
      returns (stalled: set<Direction>, attempts: nat, attempted: bool)
      requires Valid()
      modifies this, ab, ba
      ensures Valid()
      ensures Turn(State(), stalled, attempts, attempted) ==
        FlushRound(Turn(old(State()), blocked, used, moved), world)
    {
      hide LaneRings.Holds, FlushTurn;
      var first := nextFlush;
      stalled, attempts, attempted := TakeFlushTurn(first, blocked, used, false);
      stalled, attempts, attempted := TakeFlushTurn(first.Opposite(), stalled, attempts, attempted);
      nextFlush := first.Opposite();
    }

    /** Prepared frames go first; a direction that is refused stalls alone. */
    method FlushEgressFair()
      requires Valid()
      modifies this, ab, ba
      ensures Valid() && State() == Flush(old(State()), world)
    {
      hide LaneRings.Holds, FlushRound;
      var blocked, used, moved := {}, 0, false;
      ghost var result := Flush(State(), world);
      while used < EGRESS_PER_POLL
        invariant Valid() && FlushLoop(Turn(State(), blocked, used, moved), world).s == result
        decreases EGRESS_PER_POLL - used
      {
        FlushProgress(Turn(State(), blocked, used, moved), world);
        blocked, used, moved := TakeFlushRound(blocked, used, moved);
        if !moved || (AToB in blocked && BToA in blocked) { break; }
      }
    }

    /** One direction's turn of the raw loop of `pollRx`. */
    method TakeRawTurn(d: Direction, now: U32, blocked: set<Direction>, used: nat, moved: bool)
      returns (stalled: set<Direction>, processed: nat, progressed: bool)
      requires Valid()
      modifies this, ab, ba, ab.egress, ba.egress
      ensures Valid()
      ensures Turn(State(), stalled, processed, progressed) ==
        RawTurn(Turn(old(State()), blocked, used, moved), d, now, world)
    {
      hide Ring.Contents, Outputs, ForwardOne;
      stalled, processed, progressed := blocked, used, moved;
      var lane := LaneOf(d);
      WaitingIsCount(lane);
      if used >= RAW_PER_POLL || d in blocked || lane.RawDepth() == 0 { return; }
      if lane.egressCount >= EGRESS_SLOTS {
        stalled := blocked + {d};
        return;
      }
      var frame := lane.TakeRaw();
      ForwardTaken(d, frame.(timestampUs := now), now);
      processed, progressed := used + 1, true;
    }

    method TakeRawRound(now: U32, blocked: set<Direction>, used: nat, ghost moved: bool)
      returns (stalled: set<Direction>, processed: nat, progressed: bool)
      requires Valid()
      modifies this, ab, ba, ab.egress, ba.egress
      ensures Valid()
      ensures Turn(State(), stalled, processed, progressed) ==
        RawRound(Turn(old(State()), blocked, used, moved), now, world)
    {
      hide LaneRings.Holds, RawTurn;
      var first := nextRaw;
      stalled, processed, progressed := TakeRawTurn(first, now, blocked, used, false);
      stalled, processed, progressed := TakeRawTurn(first.Opposite(), now, stalled, processed, progressed);
      nextRaw := first.Opposite();
    }

    method PollRx(now: U32)
      requires Valid()
      modifies this, ab, ba, ab.egress, ba.egress
      ensures Valid() && State() == Poll(old(State()), now, world)
    {
      hide LaneRings.Holds, RawRound;
      FlushEgressFair();
      var blocked, used, moved := {}, 0, false;
      ghost var result := RawLoop(Turn(State(), {}, 0, false), now, world).s;
      while used < RAW_PER_POLL
        invariant Valid() && RawLoop(Turn(State(), blocked, used, moved), now, world).s == result
        decreases RAW_PER_POLL - used
      {
        RawProgress(Turn(State(), blocked, used, moved), now, world);
        blocked, used, moved := TakeRawRound(now, blocked, used, moved);
        if !moved || (AToB in blocked && BToA in blocked) { break; }
      }
    }

    // ---------------------------------------------------------------- replay

    method PhysicalBacklogPending() returns (pending: bool)
      requires Valid()
      ensures pending == Backlog(State())
    {
      WaitingIsCount(ab);
      WaitingIsCount(ba);
      pending := ab.rawTail != ab.rawHead || ba.rawTail != ba.rawHead || ab.egressCount != 0 || ba.egressCount != 0;
    }

    /** Replay is best effort: it yields to any physical backlog, and a dry run stops short of the
        driver. */
    method InjectReplayFrame(frame: CanFrame, dryRun: bool) returns (sent: bool)
      requires Valid()
      modifies this
      ensures Valid() && State() == Inject(old(State()), frame, dryRun, world)
      ensures sent == InjectResult(old(State()), dryRun, world)
    {
      hide LaneRings.Holds;
      if !writesAllowed { return false; }
      var pending := PhysicalBacklogPending();
      if !dryRun && pending {
        refused := refused + 1;
        return false;
      }
      var output := Process(frame);
      if dryRun { return true; }
      sent := CallDriver(frame.direction, output, true);
      if !sent { refused := refused + 1; }
    }
  }

  lemma EgressIsWaiting(l: LaneRings, taken: nat)
    requires l.Holds(taken)
    ensures l.egressCount == l.State().Waiting()
  {
    assert |Outputs(l.passes)[|l.sent|..]| == l.egressCount;
  }

  lemma WaitingIsCount(l: LaneRings)
    requires l.Valid()
    ensures l.egressCount == l.State().Waiting() && l.RawDepth() == l.State().Raw()
  {
    assert |Outputs(l.passes)[|l.sent|..]| == l.egressCount;
  }

  lemma OneLess(tail: nat, n: nat)
    requires tail < EGRESS_SLOTS && 0 < n <= EGRESS_SLOTS
    ensures Ring.Slot(EGRESS_SLOTS, (tail + 1) % EGRESS_SLOTS, n - 1) == Ring.Slot(EGRESS_SLOTS, tail, n)
  {
  }

  lemma OutputsAppend(passes: seq<Pass>, p: Pass, n: nat)
    requires n <= |passes|
    ensures Outputs(passes + [p]) == Outputs(passes) + [p.output]
    ensures Outputs(passes + [p])[n..] == Outputs(passes)[n..] + [p.output]
  {
  }
}
