/** The gateway's histories told from the calls alone: which frames a direction holds on to, how many
    it dropped, and when its frames are stamped (core/gateway.cpp). */
module GatewayHistory {
  import opened Types
  import opened GatewaySpec
  import opened GatewayProofs

  /** The received frames of a direction since its last purge: each exactly as it came, unless 127
      frames were waiting at that moment. */
  ghost function Kept(calls: seq<Call>, w: World, d: Direction): seq<CanFrame>
    decreases |calls|, 0
  {
    if calls == [] then []
    else
      var before, c := calls[..|calls| - 1], calls[|calls| - 1];
      if c.PurgeCall? && c.direction == d then []
      else if c.ReceiveCall? && c.frame.direction == d && RoomIn(before, w, d) then Kept(before, w, d) + [c.frame]
      else Kept(before, w, d)
  }

  /** Fewer than 127 received frames wait for a poll. */
  ghost predicate RoomIn(calls: seq<Call>, w: World, d: Direction)
    decreases |calls|, 1
  {
    |Kept(calls, w, d)| - |After(calls, w).Of(d).passes| < 127
  }

  /** The receptions that found no room */
  ghost function Dropped(calls: seq<Call>, w: World): nat {
    if calls == [] then 0
    else
      var before, c := calls[..|calls| - 1], calls[|calls| - 1];
      Dropped(before, w) + (if c.ReceiveCall? && !RoomIn(before, w, c.frame.direction) then 1 else 0)
  }

  // ---------------------------------------------------------------- one poll

  /** From `n` on the frames were processed by a poll at `now`. */
  ghost predicate Stamped(l: Lane, n: nat, now: U32) {
    n <= |l.passes| && forall i :: n <= i < |l.passes| ==> l.passes[i].input.timestampUs == now
  }

  lemma RawTurnStamps(t: Turn, o: Direction, now: U32, w: World, d: Direction, n: nat)
    requires Stamped(t.s.Of(d), n, now)
    ensures var r := RawTurn(t, o, now, w);
      && Stamped(r.s.Of(d), n, now) && r.s.Of(d).passes[..n] == t.s.Of(d).passes[..n]
      && r.s.Of(d).accepted == t.s.Of(d).accepted && r.s.drops == t.s.drops
  {
    hide Processed;
  }

  lemma RawRoundStamps(t: Turn, now: U32, w: World, d: Direction, n: nat)
    requires Stamped(t.s.Of(d), n, now)
    ensures var r := RawRound(t, now, w);
      && Stamped(r.s.Of(d), n, now) && r.s.Of(d).passes[..n] == t.s.Of(d).passes[..n]
      && r.s.Of(d).accepted == t.s.Of(d).accepted && r.s.drops == t.s.drops
  {
    hide RawTurn, Stamped;
    var start, first := t.(moved := false), t.s.nextRaw;
    RawTurnStamps(start, first, now, w, d, n);
    RawTurnStamps(RawTurn(start, first, now, w), first.Opposite(), now, w, d, n);
  }

  lemma {:induction false} RawLoopStamps(t: Turn, now: U32, w: World, d: Direction, n: nat)
    requires Stamped(t.s.Of(d), n, now)
    ensures var r := RawLoop(t, now, w);
      && Stamped(r.s.Of(d), n, now) && r.s.Of(d).passes[..n] == t.s.Of(d).passes[..n]
      && r.s.Of(d).accepted == t.s.Of(d).accepted && r.s.drops == t.s.drops
    decreases RAW_PER_POLL - t.used
  {
    hide RawRound, Stamped;
    if t.used < RAW_PER_POLL {
      RawRoundStamps(t, now, w, d, n);
      RawProgress(t, now, w);
      var r := RawRound(t, now, w);
      if r.moved && !AllBlocked(r.blocked) { RawLoopStamps(r, now, w, d, n); }
    }
  }

  lemma FlushTurnDrops(t: Turn, d: Direction, w: World)
    ensures FlushTurn(t, d, w).s.drops == t.s.drops
  {
  }

  lemma {:induction false} FlushLoopDrops(t: Turn, w: World)
    ensures FlushLoop(t, w).s.drops == t.s.drops
    decreases EGRESS_PER_POLL - t.used
  {
    hide FlushTurn;
    if t.used < EGRESS_PER_POLL {
      FlushProgress(t, w);
      FlushTurnDrops(t.(moved := false), t.s.nextFlush, w);
      FlushTurnDrops(FlushTurn(t.(moved := false), t.s.nextFlush, w), t.s.nextFlush.Opposite(), w);
      var r := FlushRound(t, w);
      if r.moved && !AllBlocked(r.blocked) { FlushLoopDrops(r, w); }
    }
  }

  /** A poll processes frames in the order received and stamps each with its own time; it neither adds
      nor loses a received frame. */
  lemma PollStamps(s: Gateway, now: U32, w: World, d: Direction)
    ensures var l, after := s.Of(d), Poll(s, now, w).Of(d);
      && l.passes <= after.passes && after.accepted == l.accepted
      && forall i :: |l.passes| <= i < |after.passes| ==> after.passes[i].input.timestampUs == now
    ensures Poll(s, now, w).drops == s.drops
  {
    hide FlushLoop, RawLoop;
    FlushKeepsFrames(Turn(s, {}, 0, false), w, d);
    FlushLoopDrops(Turn(s, {}, 0, false), w);
    RawLoopStamps(Turn(Flush(s, w), {}, 0, false), now, w, d, |s.Of(d).passes|);
  }

  // ---------------------------------------------------------------- every run

  lemma StepHistory(s: Gateway, c: Call, w: World, d: Direction)
    ensures Step(s, c, w).Of(d).accepted ==
      if c.PurgeCall? && c.direction == d then []
      else if c.ReceiveCall? && c.frame.direction == d && |s.Of(d).accepted| - |s.Of(d).passes| < 127 then
        s.Of(d).accepted + [c.frame]
      else s.Of(d).accepted
    ensures Step(s, c, w).drops ==
      s.drops + (if c.ReceiveCall? && |s.Of(c.frame.direction).accepted| - |s.Of(c.frame.direction).passes| >= 127
                 then 1 else 0)
  {
    hide Poll;
    if c.PollCall? { PollStamps(s, c.now, w, d); }
  }

  /** In every run the frames a direction has accepted are those received since its last purge for
      which there was room, exactly as they came and in that order; what is counted as dropped is the
      rest. */
  lemma {:induction false} AcceptedIsReceived(calls: seq<Call>, w: World, d: Direction)
    ensures After(calls, w).Of(d).accepted == Kept(calls, w, d)
    ensures After(calls, w).drops == Dropped(calls, w)
  {
    hide Step;
    if calls != [] {
      var before, c := calls[..|calls| - 1], calls[|calls| - 1];
      AcceptedIsReceived(before, w, d);
      if c.ReceiveCall? { AcceptedIsReceived(before, w, c.frame.direction); }
      StepHistory(After(before, w), c, w, d);
    }
  }

  /** Nothing received is lost: sent, then egress, then raw are those frames, each processed one
      stamped and under its outcome, in the order in which they came. */
  lemma ReceivedIsForwarded(calls: seq<Call>, w: World, d: Direction)
    ensures var s, kept := After(calls, w), Kept(calls, w, d);
      var l := s.Of(d);
      && |l.sent| + |l.Egress()| <= |kept|
      && (forall i :: 0 <= i < |l.sent| + |l.Egress()| ==> Forwarded(kept[i], (l.sent + l.Egress())[i], w))
      && l.accepted[|l.passes|..] == kept[|l.sent| + |l.Egress()|..]
  {
    hide After, Kept, PassOk;
    AcceptedIsReceived(calls, w, d);
    Lossless(calls, w, d);
    var l := After(calls, w).Of(d);
    assert |l.sent + l.Egress()| == |l.passes|;
    forall i | 0 <= i < |l.passes| ensures Forwarded(l.accepted[i], Outputs(l.passes)[i], w) {
      PassForwarded(l.passes[i], l.accepted[i], w);
    }
  }

  /** The frame left with its identifier, length and direction, and with its payload or that of an
      outcome of the engine. */
  ghost predicate Forwarded(received: CanFrame, sent: CanFrame, w: World) {
    && sent.id == received.id && sent.dlc == received.dlc && sent.direction == received.direction
    && (sent.data == received.data || exists n :: w.outcome(n).hasRules && sent.data == w.outcome(n).data)
  }

  lemma PassForwarded(p: Pass, received: CanFrame, w: World)
    requires PassOk(p, received, w)
    ensures Forwarded(received, p.output, w)
  {
  }
}
