/** What the direction policy guarantees over whole runs (`mutationDirectionAllowed`, core/gateway.cpp). */
module GatewayPolicy {
  import opened Types
  import opened GatewaySpec
  import opened GatewayProofs

  /** Frames processed as number `from` or later were permitted to change (or not). */
  ghost predicate PassesUnder(passes: seq<Pass>, from: nat, allow: bool) {
    forall i :: 0 <= i < |passes| && passes[i].number >= from ==> passes[i].permitted == allow
  }

  ghost predicate AllUnder(s: Gateway, d: Direction, from: nat, allow: bool) {
    PassesUnder(s.Of(d).passes, from, allow)
  }

  predicate SamePolicy(s: Gateway, t: Gateway) {
    t.writesAllowed == s.writesAllowed && t.mask == s.mask
  }

  /** The state of one direction that the policy lets in or keeps out, at some point of a loop. */
  ghost predicate Ruled(s: Gateway, d: Direction, from: nat, allow: bool, w: World) {
    Inv(s, w) && Permitted(s, d) == allow && AllUnder(s, d, from, allow)
  }

  lemma SameLane(s: Gateway, t: Gateway, d: Direction, from: nat, allow: bool)
    requires AllUnder(s, d, from, allow) && t.Of(d).passes == s.Of(d).passes
    ensures AllUnder(t, d, from, allow)
  {
  }

  lemma FlushOnePolicy(s: Gateway, o: Direction, w: World, d: Direction)
    requires 0 < s.Of(o).Waiting()
    ensures SamePolicy(s, FlushOne(s, o, w)) && FlushOne(s, o, w).Of(d).passes == s.Of(d).passes
  {
  }

  lemma FlushTurnRuling(t: Turn, o: Direction, w: World, d: Direction, from: nat, allow: bool)
    requires Ruled(t.s, d, from, allow, w)
    ensures Ruled(FlushTurn(t, o, w).s, d, from, allow, w)
  {
    hide Inv, FlushOne;
    FlushTurnKeeps(t, o, w);
    if 0 < t.s.Of(o).Waiting() {
      FlushOnePolicy(t.s, o, w, d);
      SameLane(t.s, FlushOne(t.s, o, w), d, from, allow);
    }
  }

  lemma FlushRoundRuling(t: Turn, w: World, d: Direction, from: nat, allow: bool)
    requires Ruled(t.s, d, from, allow, w)
    ensures Ruled(FlushRound(t, w).s, d, from, allow, w)
  {
    hide Inv, FlushTurn;
    var start, first := t.(moved := false), t.s.nextFlush;
    FlushTurnRuling(start, first, w, d, from, allow);
    FlushTurnRuling(FlushTurn(start, first, w), first.Opposite(), w, d, from, allow);
    FlushRoundKeeps(t, w);
    SameLane(FlushTurn(FlushTurn(start, first, w), first.Opposite(), w).s, FlushRound(t, w).s, d, from, allow);
  }

  lemma {:induction false} FlushLoopRuling(t: Turn, w: World, d: Direction, from: nat, allow: bool)
    requires Ruled(t.s, d, from, allow, w)
    ensures Ruled(FlushLoop(t, w).s, d, from, allow, w)
    decreases EGRESS_PER_POLL - t.used
  {
    hide Ruled, FlushRound;
    if t.used < EGRESS_PER_POLL {
      FlushRoundRuling(t, w, d, from, allow);
      FlushProgress(t, w);
      var r := FlushRound(t, w);
      if r.moved && !AllBlocked(r.blocked) { FlushLoopRuling(r, w, d, from, allow); }
    }
  }

  lemma ForwardPolicy(s: Gateway, o: Direction, now: U32, w: World)
    requires 0 < s.Of(o).Raw() && s.Of(o).Waiting() < EGRESS_CAPACITY
    ensures SamePolicy(s, ForwardOne(s, o, now, w))
  {
  }

  lemma PassAdded(passes: seq<Pass>, p: Pass, from: nat, allow: bool)
    requires PassesUnder(passes, from, allow) && p.permitted == allow
    ensures PassesUnder(passes + [p], from, allow)
  {
  }

  /** Processing a frame of the direction gives it the direction's permission. */
  lemma ForwardOneRuling(s: Gateway, o: Direction, now: U32, w: World, d: Direction, from: nat, allow: bool)
    requires Ruled(s, d, from, allow, w) && 0 < s.Of(o).Raw() && s.Of(o).Waiting() < EGRESS_CAPACITY
    ensures SamePolicy(s, ForwardOne(s, o, now, w)) && AllUnder(ForwardOne(s, o, now, w), d, from, allow)
  {
    hide Inv, ForwardOne, PassesUnder, Processed, PassOk, SamePolicy, Permitted;
    InvOf(s, o, w);
    var l := s.Of(o);
    ForwardPolicy(s, o, now, w);
    ForwardShape(s, o, now, w);
    var p := NextPass(s, l.accepted[|l.passes|], now, w);
    assert l.accepted[|l.passes|].direction == o;
    if o == d { PassAdded(l.passes, p, from, allow); }
  }

  lemma RawTurnRuling(t: Turn, o: Direction, now: U32, w: World, d: Direction, from: nat, allow: bool)
    requires Ruled(t.s, d, from, allow, w)
    ensures Ruled(RawTurn(t, o, now, w).s, d, from, allow, w)
  {
    hide Inv, ForwardOne, AllUnder;
    RawTurnKeeps(t, o, now, w);
    if 0 < t.s.Of(o).Raw() && t.s.Of(o).Waiting() < EGRESS_CAPACITY {
      ForwardOneRuling(t.s, o, now, w, d, from, allow);
    }
  }

  lemma RawRoundRuling(t: Turn, now: U32, w: World, d: Direction, from: nat, allow: bool)
    requires Ruled(t.s, d, from, allow, w)
    ensures Ruled(RawRound(t, now, w).s, d, from, allow, w)
  {
    hide Inv, RawTurn;
    var start, first := t.(moved := false), t.s.nextRaw;
    RawTurnRuling(start, first, now, w, d, from, allow);
    RawTurnRuling(RawTurn(start, first, now, w), first.Opposite(), now, w, d, from, allow);
    RawRoundKeeps(t, now, w);
    SameLane(RawTurn(RawTurn(start, first, now, w), first.Opposite(), now, w).s, RawRound(t, now, w).s, d, from, allow);
  }

  lemma {:induction false} RawLoopRuling(t: Turn, now: U32, w: World, d: Direction, from: nat, allow: bool)
    requires Ruled(t.s, d, from, allow, w)
    ensures Ruled(RawLoop(t, now, w).s, d, from, allow, w)
    decreases RAW_PER_POLL - t.used
  {
    hide Ruled, RawRound;
    if t.used < RAW_PER_POLL {
      RawRoundRuling(t, now, w, d, from, allow);
      RawProgress(t, now, w);
      var r := RawRound(t, now, w);
      if r.moved && !AllBlocked(r.blocked) { RawLoopRuling(r, now, w, d, from, allow); }
    }
  }

  /** A call processes frames of the direction under the policy in force when it is made. */
  lemma StepRuling(s: Gateway, c: Call, w: World, d: Direction, from: nat, allow: bool)
    requires Ruled(s, d, from, allow, w)
    ensures AllUnder(Step(s, c, w), d, from, allow)
  {
    hide Inv, FlushLoop, RawLoop;
    match c
    case PollCall(now) =>
      FlushLoopRuling(Turn(s, {}, 0, false), w, d, from, allow);
      RawLoopRuling(Turn(Flush(s, w), {}, 0, false), now, w, d, from, allow);
    case PurgeCall(o) => if o != d { SameLane(s, Purge(s, o), d, from, allow); }
    case _ => SameLane(s, Step(s, c, w), d, from, allow);
  }

  /** Every number used so far is below the counter. */
  lemma NumbersBelow(calls: seq<Call>, w: World, d: Direction, allow: bool)
    ensures AllUnder(After(calls, w), d, After(calls, w).work, allow)
  {
    InvOf(After(calls, w), d, w);
  }

  /** The policy lets the direction in (or keeps it out) at every call from the n-th on. */
  ghost predicate PolicyHolds(calls: seq<Call>, n: nat, w: World, d: Direction, allow: bool) {
    n <= |calls| && forall k :: n <= k < |calls| ==> Permitted(After(calls[..k], w), d) == allow
  }

  lemma {:induction false} UnderSince(calls: seq<Call>, n: nat, w: World, d: Direction, allow: bool)
    requires PolicyHolds(calls, n, w, d, allow)
    ensures AllUnder(After(calls, w), d, After(calls[..n], w).work, allow)
  {
    hide Step, AllUnder, Permitted;
    if n == |calls| {
      assert calls[..n] == calls;
      NumbersBelow(calls, w, d, allow);
    } else {
      var init := calls[..|calls| - 1];
      assert init[..n] == calls[..n];
      forall k | n <= k < |init| ensures Permitted(After(init[..k], w), d) == allow { assert init[..k] == calls[..k]; }
      UnderSince(init, n, w, d, allow);
      StepRuling(After(init, w), calls[|calls| - 1], w, d, After(calls[..n], w).work, allow);
    }
  }

  lemma OutputIs(calls: seq<Call>, n: nat, w: World, d: Direction, allow: bool, i: nat)
    requires PolicyHolds(calls, n, w, d, allow) && i < |After(calls, w).Of(d).passes|
    requires After(calls, w).Of(d).passes[i].number >= After(calls[..n], w).work
    ensures var p := After(calls, w).Of(d).passes[i];
      p.output == Mutated(p.input, allow, w.outcome(p.number))
  {
    UnderSince(calls, n, w, d, allow);
    InvOf(After(calls, w), d, w);
    var l := After(calls, w).Of(d);
    assert PassOk(l.passes[i], l.accepted[i], w);
  }

  /** In every run: while the policy keeps a direction out, every frame of it that is processed comes
      out exactly as it went in, whatever rules are loaded and whatever the other direction does. */
  lemma ExcludedDirectionUnmodified(calls: seq<Call>, n: nat, w: World, d: Direction, i: nat)
    requires PolicyHolds(calls, n, w, d, false) && i < |After(calls, w).Of(d).passes|
    requires After(calls, w).Of(d).passes[i].number >= After(calls[..n], w).work
    ensures After(calls, w).Of(d).passes[i].output == After(calls, w).Of(d).passes[i].input
  {
    OutputIs(calls, n, w, d, false, i);
  }

  /** And while writes are allowed and the direction is in the mask, every frame of it that is processed
      carries exactly the payload of the engine's outcome for it, if that has rules for it. */
  lemma IncludedDirectionMutated(calls: seq<Call>, n: nat, w: World, d: Direction, i: nat)
    requires PolicyHolds(calls, n, w, d, true) && i < |After(calls, w).Of(d).passes|
    requires After(calls, w).Of(d).passes[i].number >= After(calls[..n], w).work
    ensures var p := After(calls, w).Of(d).passes[i];
      p.output == if w.outcome(p.number).hasRules then p.input.(data := w.outcome(p.number).data) else p.input
  {
    OutputIs(calls, n, w, d, true, i);
  }
}
