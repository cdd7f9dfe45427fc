/** What the gateway does to its two directions (core/gateway.cpp), on histories: the frames each
    direction has accepted since its last purge, the ones it has processed, and the ones its
    transmitter has taken. Both queues of a direction follow from these three. */
module GatewaySpec {
  import opened Types

  const RAW_CAPACITY := 127        // a ring of 128 slots keeps one free
  const EGRESS_CAPACITY := 64
  const RAW_PER_POLL := 16
  const EGRESS_PER_POLL := 16

  /** What the mutation engine and the observation list make of one forwarded frame. */
  datatype Outcome = Outcome(hasRules: bool, observed: bool, data: Payload)

  /** The environment: the answer to the n-th transmit attempt, and the outcome of the n-th
      processed frame. Both are arbitrary. */
  datatype World = World(driver: nat -> bool, outcome: nat -> Outcome)

  /** One frame processed as the `number`-th of the gateway; `permitted` is what the direction policy
      said at that moment. */
  datatype Pass = Pass(number: nat, permitted: bool, input: CanFrame, output: CanFrame)

  datatype Lane = Lane(accepted: seq<CanFrame>, passes: seq<Pass>, sent: seq<CanFrame>, failures: nat)
  {
    /** Frames processed but not yet transmitted. */
    function Waiting(): int { |passes| - |sent| }

    /** Frames received but not yet processed. */
    function Raw(): int { |accepted| - |passes| }

    function Egress(): seq<CanFrame> {
      if |sent| <= |passes| then Outputs(passes[|sent|..]) else []
    }
  }

  datatype TxCall = TxCall(direction: Direction, frame: CanFrame, accepted: bool, replay: bool)

  datatype Gateway = Gateway(
    ab: Lane, ba: Lane, log: seq<TxCall>, work: nat, nextRaw: Direction, nextFlush: Direction,
    writesAllowed: bool, mask: set<Direction>, drops: nat, refused: nat)
  {
    function Of(d: Direction): Lane {
      if d.AToB? then ab else ba
    }

    function With(d: Direction, l: Lane): Gateway {
      if d.AToB? then this.(ab := l) else this.(ba := l)
    }
  }

  const EMPTY := Lane([], [], [], 0)

  function Init(): Gateway {
    Gateway(EMPTY, EMPTY, [], 0, AToB, AToB, false, {AToB, BToA}, 0, 0)
  }

  function Outputs(passes: seq<Pass>): (r: seq<CanFrame>)
    ensures |r| == |passes|
  {
    seq(|passes|, i requires 0 <= i < |passes| => passes[i].output)
  }

  // ---------------------------------------------------------------- single steps

  function Receive(s: Gateway, frame: CanFrame): Gateway {
    var l := s.Of(frame.direction);
    if l.Raw() >= RAW_CAPACITY then s.(drops := s.drops + 1)
    else s.With(frame.direction, l.(accepted := l.accepted + [frame]))
  }

  /** `mutationDirectionAllowed`, where active writes are allowed at all */
  predicate Permitted(s: Gateway, d: Direction) {
    s.writesAllowed && d in s.mask
  }

  /** A frame under one outcome of the engine: at most its payload changes. */
  function Mutated(frame: CanFrame, permitted: bool, o: Outcome): CanFrame {
    if permitted && o.hasRules then frame.(data := o.data) else frame
  }

  /** The direction policy and the engine decide the payload. */
  function Processed(s: Gateway, frame: CanFrame, w: World): CanFrame {
    Mutated(frame, Permitted(s, frame.direction), w.outcome(s.work))
  }

  function Transmit(s: Gateway, d: Direction, frame: CanFrame, replay: bool, w: World): Gateway {
    s.(log := s.log + [TxCall(d, frame, w.driver(|s.log|), replay)])
  }

  function Answer(s: Gateway, w: World): bool {
    w.driver(|s.log|)
  }

  /** `flushOneEgress` on a direction with something to send */
  function FlushOne(s: Gateway, d: Direction, w: World): Gateway
    requires 0 < s.Of(d).Waiting()
  {
    var l := s.Of(d);
    var frame := l.passes[|l.sent|].output;
    var after := Transmit(s, d, frame, false, w);
    if Answer(s, w) then after.With(d, l.(sent := l.sent + [frame])) else after
  }

  /** `pollRx` takes the oldest raw frame and `forwardFrame` handles it. With the egress ring full
      the frame would be lost and counted as a failure. */
  function ForwardOne(s: Gateway, d: Direction, now: U32, w: World): Gateway
    requires 0 < s.Of(d).Raw()
  {
    var l := s.Of(d);
    var frame := l.accepted[|l.passes|].(timestampUs := now);
    var output := Processed(s, frame, w);
    var passed := l.(passes := l.passes + [Pass(s.work, Permitted(s, frame.direction), frame, output)]);
    var after := s.With(d, passed).(work := s.work + 1);
    if l.Waiting() >= EGRESS_CAPACITY then
      s.With(d, Lost(l)).(work := s.work + 1)
    else if l.Waiting() > 0 then after
    else
      var called := Transmit(after, d, output, false, w);
      if Answer(s, w) then called.With(d, passed.(sent := l.sent + [output])) else called
  }

  function Lost(l: Lane): Lane
    requires 0 < l.Raw()
  {
    l.(accepted := l.accepted[..|l.passes|] + l.accepted[|l.passes| + 1..], failures := l.failures + 1)
  }

  predicate Backlog(s: Gateway) {
    s.ab.Raw() != 0 || s.ba.Raw() != 0 || s.ab.Waiting() != 0 || s.ba.Waiting() != 0
  }

  function InjectResult(s: Gateway, dryRun: bool, w: World): bool {
    s.writesAllowed && (dryRun || (!Backlog(s) && Answer(s, w)))
  }

  /** `injectReplayFrame` */
  function Inject(s: Gateway, frame: CanFrame, dryRun: bool, w: World): Gateway {
    if !s.writesAllowed then s
    else if !dryRun && Backlog(s) then s.(refused := s.refused + 1)
    else
      var after := s.(work := s.work + 1);
      if dryRun then after
      else
        var called := Transmit(after, frame.direction, Processed(s, frame, w), true, w);
        if Answer(s, w) then called else called.(refused := s.refused + 1)
  }

  function Purge(s: Gateway, d: Direction): Gateway {
    s.With(d, EMPTY.(failures := s.Of(d).failures))
  }

  // ---------------------------------------------------------------- the fair loops

  /** A loop in progress: directions that have stalled, turns taken, and whether this round moved. */
  datatype Turn = Turn(s: Gateway, blocked: set<Direction>, used: nat, moved: bool)

  function FlushTurn(t: Turn, d: Direction, w: World): Turn {
    if t.used >= EGRESS_PER_POLL || d in t.blocked || t.s.Of(d).Waiting() <= 0 then t
    else Turn(FlushOne(t.s, d, w), if Answer(t.s, w) then t.blocked else t.blocked + {d}, t.used + 1, true)
  }

  function FlushRound(t: Turn, w: World): Turn {
    var first := t.s.nextFlush;
    var r := FlushTurn(FlushTurn(t.(moved := false), first, w), first.Opposite(), w);
    r.(s := r.s.(nextFlush := first.Opposite()))
  }

  lemma FlushTurnUses(t: Turn, d: Direction, w: World)
    ensures FlushTurn(t, d, w).used <= t.used + 1
    ensures !t.moved ==> (FlushTurn(t, d, w).moved <==> FlushTurn(t, d, w).used == t.used + 1)
    ensures FlushTurn(t, d, w).used == t.used ==> FlushTurn(t, d, w) == t
    ensures FlushTurn(t, d, w).moved ==> t.moved || FlushTurn(t, d, w).used > t.used
    ensures FlushTurn(t, d, w).s.nextFlush == t.s.nextFlush
  {
  }

  /** Both directions are stalled. */
  predicate AllBlocked(blocked: set<Direction>) {
    AToB in blocked && BToA in blocked
  }

  function FlushLoop(t: Turn, w: World): Turn
    decreases EGRESS_PER_POLL - t.used
  {
    if t.used >= EGRESS_PER_POLL then t
    else
      FlushTurnUses(t.(moved := false), t.s.nextFlush, w);
      FlushTurnUses(FlushTurn(t.(moved := false), t.s.nextFlush, w), t.s.nextFlush.Opposite(), w);
      var r := FlushRound(t, w);
      if !r.moved || AllBlocked(r.blocked) then r else FlushLoop(r, w)
  }

  /** `flushEgressFair` */
  function Flush(s: Gateway, w: World): Gateway {
    FlushLoop(Turn(s, {}, 0, false), w).s
  }

  function RawTurn(t: Turn, d: Direction, now: U32, w: World): Turn {
    var l := t.s.Of(d);
    if t.used >= RAW_PER_POLL || d in t.blocked || l.Raw() <= 0 || l.Waiting() < 0 then t
    else if l.Waiting() >= EGRESS_CAPACITY then t.(blocked := t.blocked + {d})
    else Turn(ForwardOne(t.s, d, now, w), t.blocked, t.used + 1, true)
  }

  function RawRound(t: Turn, now: U32, w: World): Turn {
    var first := t.s.nextRaw;
    var r := RawTurn(RawTurn(t.(moved := false), first, now, w), first.Opposite(), now, w);
    r.(s := r.s.(nextRaw := first.Opposite()))
  }

  lemma RawTurnUses(t: Turn, d: Direction, now: U32, w: World)
    ensures RawTurn(t, d, now, w).used <= t.used + 1
    ensures RawTurn(t, d, now, w).moved ==> t.moved || RawTurn(t, d, now, w).used > t.used
    ensures RawTurn(t, d, now, w).used >= t.used
    ensures RawTurn(t, d, now, w).s.nextRaw == t.s.nextRaw
  {
  }

  function RawLoop(t: Turn, now: U32, w: World): Turn
    decreases RAW_PER_POLL - t.used
  {
    if t.used >= RAW_PER_POLL then t
    else
      RawTurnUses(t.(moved := false), t.s.nextRaw, now, w);
      RawTurnUses(RawTurn(t.(moved := false), t.s.nextRaw, now, w), t.s.nextRaw.Opposite(), now, w);
      var r := RawRound(t, now, w);
      if !r.moved || AllBlocked(r.blocked) then r else RawLoop(r, now, w)
  }

  /** `pollRx` */
  function Poll(s: Gateway, now: U32, w: World): Gateway {
    RawLoop(Turn(Flush(s, w), {}, 0, false), now, w).s
  }

  // ---------------------------------------------------------------- runs

  datatype Call =
    | ReceiveCall(frame: CanFrame)
    | PollCall(now: U32)
    | InjectCall(frame: CanFrame, dryRun: bool)
    | PurgeCall(direction: Direction)
    | AllowCall(allowed: bool)
    | MaskCall(mask: set<Direction>)

  function Step(s: Gateway, c: Call, w: World): Gateway {
    match c
    case ReceiveCall(f) => Receive(s, f)
    case PollCall(now) => Poll(s, now, w)
    case InjectCall(f, dry) => Inject(s, f, dry, w)
    case PurgeCall(d) => Purge(s, d)
    case AllowCall(b) => s.(writesAllowed := b)
    case MaskCall(m) => s.(mask := m)
  }
}
