/** The frames a direction counts as sent are the ones its transmitter took, in order. */
module GatewayWire {
  import opened Types
  import opened GatewaySpec
  import opened GatewayProofs

  /** The physical frames that the transmitter of `d` has taken. */
  function Wire(log: seq<TxCall>, d: Direction): seq<CanFrame> {
    if log == [] then []
    else
      var c := log[|log| - 1];
      Wire(log[..|log| - 1], d) + (if c.direction == d && c.accepted && !c.replay then [c.frame] else [])
  }

  /** The sent frames are the last ones on the wire: all of them since the last purge. */
  predicate OnWire(s: Gateway, d: Direction) {
    var wire, sent := Wire(s.log, d), s.Of(d).sent;
    |sent| <= |wire| && wire[|wire| - |sent|..] == sent
  }

  lemma WireAppend(log: seq<TxCall>, c: TxCall, d: Direction)
    ensures Wire(log + [c], d) ==
      Wire(log, d) + (if c.direction == d && c.accepted && !c.replay then [c.frame] else [])
  {
    assert (log + [c])[..|log|] == log;
  }

  /** One driver call whose frame, if taken, is also the next sent frame. */
  lemma CallOnWire(s: Gateway, t: Gateway, c: TxCall, d: Direction)
    requires OnWire(s, d) && t.log == s.log + [c]
    requires t.Of(d).sent == s.Of(d).sent + (if c.direction == d && c.accepted && !c.replay then [c.frame] else [])
    ensures OnWire(t, d)
  {
    hide Wire;
    WireAppend(s.log, c, d);
  }

  /** A step without a driver call that sends nothing. */
  lemma QuietOnWire(s: Gateway, t: Gateway, d: Direction)
    requires OnWire(s, d) && t.log == s.log && t.Of(d).sent == s.Of(d).sent
    ensures OnWire(t, d)
  {
  }

  lemma FlushOneOnWire(s: Gateway, o: Direction, w: World, d: Direction)
    requires OnWire(s, d) && 0 < s.Of(o).Waiting()
    ensures OnWire(FlushOne(s, o, w), d)
  {
    hide OnWire;
    var l := s.Of(o);
    CallOnWire(s, FlushOne(s, o, w), TxCall(o, l.passes[|l.sent|].output, Answer(s, w), false), d);
  }

  lemma ForwardOneOnWire(s: Gateway, o: Direction, now: U32, w: World, d: Direction)
    requires OnWire(s, d) && 0 < s.Of(o).Raw()
    ensures OnWire(ForwardOne(s, o, now, w), d)
  {
    hide OnWire, Processed;
    var l, t := s.Of(o), ForwardOne(s, o, now, w);
    if l.Waiting() > 0 {
      QuietOnWire(s, t, d);
    } else {
      var output := Processed(s, l.accepted[|l.passes|].(timestampUs := now), w);
      CallOnWire(s, t, TxCall(o, output, Answer(s, w), false), d);
    }
  }

  lemma FlushRoundOnWire(t: Turn, w: World, d: Direction)
    requires OnWire(t.s, d)
    ensures OnWire(FlushRound(t, w).s, d)
  {
    hide OnWire, FlushOne;
    var start, first := t.(moved := false), t.s.nextFlush;
    var mid := FlushTurn(start, first, w);
    if 0 < t.s.Of(first).Waiting() { FlushOneOnWire(t.s, first, w, d); }
    if 0 < mid.s.Of(first.Opposite()).Waiting() { FlushOneOnWire(mid.s, first.Opposite(), w, d); }
    QuietOnWire(FlushTurn(mid, first.Opposite(), w).s, FlushRound(t, w).s, d);
  }

  lemma {:induction false} FlushLoopOnWire(t: Turn, w: World, d: Direction)
    requires OnWire(t.s, d)
    ensures OnWire(FlushLoop(t, w).s, d)
    decreases EGRESS_PER_POLL - t.used
  {
    hide OnWire, FlushRound;
    if t.used < EGRESS_PER_POLL {
      FlushRoundOnWire(t, w, d);
      FlushProgress(t, w);
      var r := FlushRound(t, w);
      if r.moved && !AllBlocked(r.blocked) { FlushLoopOnWire(r, w, d); }
    }
  }

  lemma RawTurnOnWire(t: Turn, o: Direction, now: U32, w: World, d: Direction)
    requires OnWire(t.s, d)
    ensures OnWire(RawTurn(t, o, now, w).s, d)
  {
    hide OnWire, ForwardOne;
    if 0 < t.s.Of(o).Raw() { ForwardOneOnWire(t.s, o, now, w, d); }
  }

  lemma RawRoundOnWire(t: Turn, now: U32, w: World, d: Direction)
    requires OnWire(t.s, d)
    ensures OnWire(RawRound(t, now, w).s, d)
  {
    hide OnWire, RawTurn;
    var start, first := t.(moved := false), t.s.nextRaw;
    RawTurnOnWire(start, first, now, w, d);
    var mid := RawTurn(start, first, now, w);
    RawTurnOnWire(mid, first.Opposite(), now, w, d);
    QuietOnWire(RawTurn(mid, first.Opposite(), now, w).s, RawRound(t, now, w).s, d);
  }

  lemma {:induction false} RawLoopOnWire(t: Turn, now: U32, w: World, d: Direction)
    requires OnWire(t.s, d)
    ensures OnWire(RawLoop(t, now, w).s, d)
    decreases RAW_PER_POLL - t.used
  {
    hide OnWire, RawRound;
    if t.used < RAW_PER_POLL {
      RawRoundOnWire(t, now, w, d);
      RawProgress(t, now, w);
      var r := RawRound(t, now, w);
      if r.moved && !AllBlocked(r.blocked) { RawLoopOnWire(r, now, w, d); }
    }
  }

  lemma InjectOnWire(s: Gateway, f: CanFrame, dryRun: bool, w: World, d: Direction)
    requires OnWire(s, d)
    ensures OnWire(Inject(s, f, dryRun, w), d)
  {
    hide OnWire, Processed;
    var t := Inject(s, f, dryRun, w);
    if t.log == s.log {
      QuietOnWire(s, t, d);
    } else {
      CallOnWire(s, t, TxCall(f.direction, Processed(s, f, w), Answer(s, w), true), d);
    }
  }

  lemma PurgeOnWire(s: Gateway, o: Direction, d: Direction)
    requires OnWire(s, d)
    ensures OnWire(Purge(s, o), d)
  {
  }

  lemma StepOnWire(s: Gateway, c: Call, w: World, d: Direction)
    requires OnWire(s, d)
    ensures OnWire(Step(s, c, w), d)
  {
    hide OnWire, FlushLoop, RawLoop, Inject, Purge;
    match c
    case ReceiveCall(f) => QuietOnWire(s, Receive(s, f), d);
    case PollCall(now) =>
      FlushLoopOnWire(Turn(s, {}, 0, false), w, d);
      RawLoopOnWire(Turn(Flush(s, w), {}, 0, false), now, w, d);
    case InjectCall(f, dry) => InjectOnWire(s, f, dry, w, d);
    case PurgeCall(o) => PurgeOnWire(s, o, d);
    case AllowCall(b) => QuietOnWire(s, s.(writesAllowed := b), d);
    case MaskCall(m) => QuietOnWire(s, s.(mask := m), d);
  }

  /** In every run, what a direction counts as sent since its last purge is exactly what its
      transmitter took last, whatever replays and refusals lie between. */
  lemma {:induction false} SentIsOnTheWire(calls: seq<Call>, w: World, d: Direction)
    ensures OnWire(After(calls, w), d)
  {
    hide Step;
    if calls != [] {
      SentIsOnTheWire(calls[..|calls| - 1], w, d);
      StepOnWire(After(calls[..|calls| - 1], w), calls[|calls| - 1], w, d);
    }
  }
}
