/** For which capacities the trace ring (core/can_trace.cpp) delivers what it accepted in every run:
    a run from the beginning that reaches the wrap of the 32-bit indices shows that the others fail. */
module TraceWrap {
  import opened Types
  import opened Modulo
  import opened TraceRing
  import opened TraceQueue

  /** `n` events pushed and then popped, one after the other. */
  function PairSteps(n: nat): seq<Action> {
    if n == 0 then [] else PairSteps(n - 1) + PushSteps(0) + POP_STEPS
  }

  function FillSteps(n: nat): seq<Action> {
    if n == 0 then [] else FillSteps(n - 1) + PushSteps(0)
  }

  /** The multiple of the capacity that the wrap cuts short. */
  function LastTurn(capacity: nat): (y: nat)
    requires 0 < capacity < WORD
  {
    WORD - WORD % capacity
  }

  /** Pairs up to the last multiple of the capacity, pushes up to the wrap, one more push, one pop. */
  function WrapRun(capacity: nat): seq<Action>
    requires 0 < capacity < WORD
  {
    START_STEPS + PairSteps(LastTurn(capacity)) + FillSteps(WORD - LastTurn(capacity)) + PushSteps(1) + POP_STEPS
  }

  /** A session from index 0 has accepted `n` events of body 0 and popped `m` of them. */
  ghost predicate At(s: Ring, n: nat, m: nat) {
    && Shape(s) && s.active && s.producer.Idle? && s.consumer.Resting? && s.inFlight == 0
    && s.write == n % WORD && s.read == m % WORD
    && |Taken(s.fates)| == n && |s.popped| == m
    && forall k :: 0 <= k < n ==> Taken(s.fates)[k].body == 0
  }

  lemma PushedAt(s: Ring, n: nat, m: nat, body: nat)
    requires At(s, n, m) && m <= n < m + s.capacity
    ensures var t := Pushed(s, body); var e := Event(Inc(s.nextSequence), body);
      && Taken(t.fates) == Taken(s.fates) + [e] && t.slots == s.slots[s.write % s.capacity := Some(e)]
      && t.read == s.read && t.write == (n + 1) % WORD && t.popped == s.popped && t.capacity == s.capacity
      && t.consumer.Resting?
      && (body == 0 ==> At(t, n + 1, m))
  {
    hide Taken, Minus;
    var e := Event(Inc(s.nextSequence), body);
    WrappedDistance(n, m);
    Appended(s.fates, Accepted(e));
    IncWraps(n);
  }

  lemma PoppedAt(s: Ring, n: nat, m: nat)
    requires At(s, n, m) && m < n < m + WORD
    ensures At(Popped(s), n, m + 1) && Popped(s).capacity == s.capacity
  {
    hide Taken, Minus;
    WrappedDistance(n, m);
    IncWraps(m);
    assert Minus(s.write, s.read) == n - m;
    DifferentIndices(s.write, s.read);
  }

  lemma DifferentIndices(x: U32, y: U32)
    ensures Minus(x, y) == 0 <==> x == y
  {
  }

  /** A push, or a pop, after a history. */
  lemma AfterPush(capacity: nat, history: seq<Action>, body: nat)
    requires 0 < capacity < WORD && After(capacity, history).producer.Idle?
    ensures Shape(After(capacity, history))
    ensures After(capacity, history + PushSteps(body)) == Pushed(After(capacity, history), body)
  {
    hide Core, Run, After, Step;
    RunExtends(capacity, history, PushSteps(body));
    PushIsSteps(After(capacity, history), body);
  }

  lemma AfterPop(capacity: nat, history: seq<Action>)
    requires 0 < capacity < WORD && After(capacity, history).consumer.Resting?
    ensures Shape(After(capacity, history))
    ensures After(capacity, history + POP_STEPS) == Popped(After(capacity, history))
  {
    hide Core, Run, After, Step;
    RunExtends(capacity, history, POP_STEPS);
    PopIsSteps(After(capacity, history));
  }

  lemma AfterStart(capacity: nat)
    requires 0 < capacity < WORD
    ensures At(After(capacity, START_STEPS), 0, 0)
  {
    hide Core, Run, Step;
    RunExtends(capacity, [], START_STEPS);
    assert [] + START_STEPS == START_STEPS;
    assert After(capacity, []) == Init(capacity);
    StartIsSteps(Init(capacity));
  }

  lemma {:induction false} AfterPairs(capacity: nat, n: nat)
    requires 1 < capacity < WORD && n <= WORD
    ensures At(After(capacity, START_STEPS + PairSteps(n)), n, n)
  {
    hide Core, After, At, PushSteps;
    if n == 0 {
      assert START_STEPS + PairSteps(0) == START_STEPS;
      AfterStart(capacity);
    } else {
      var history := START_STEPS + PairSteps(n - 1);
      AfterPairs(capacity, n - 1);
      assert START_STEPS + PairSteps(n) == history + PushSteps(0) + POP_STEPS;
      OnePair(capacity, history, n - 1);
    }
  }

  lemma OnePair(capacity: nat, history: seq<Action>, n: nat)
    requires 1 < capacity < WORD && At(After(capacity, history), n, n)
    ensures At(After(capacity, history + PushSteps(0) + POP_STEPS), n + 1, n + 1)
  {
    hide Core, After, Pushed, Popped, PushSteps;
    AfterPush(capacity, history, 0);
    PushedAt(After(capacity, history), n, n, 0);
    AfterPop(capacity, history + PushSteps(0));
    PoppedAt(After(capacity, history + PushSteps(0)), n + 1, n);
  }

  lemma {:induction false} AfterFill(capacity: nat, history: seq<Action>, m: nat, k: nat)
    requires 0 < capacity < WORD && k < capacity && At(After(capacity, history), m, m)
    ensures At(After(capacity, history + FillSteps(k)), m + k, m)
  {
    hide Core, After, Pushed, PushSteps;
    if k == 0 {
      assert history + FillSteps(0) == history;
    } else {
      AfterFill(capacity, history, m, k - 1);
      assert history + FillSteps(k) == history + FillSteps(k - 1) + PushSteps(0);
      AfterPush(capacity, history + FillSteps(k - 1), 0);
      PushedAt(After(capacity, history + FillSteps(k - 1)), m + k - 1, m, 0);
    }
  }

  /** When the capacity does not divide 2^32, this run accepts an event into the slot of the oldest
      unread one, and its last pop returns the newest event in place of the oldest. */
  lemma WrapOverwrites(capacity: nat)
    requires 0 < capacity < WORD && WORD % capacity != 0
    ensures var s, y := After(capacity, WrapRun(capacity)), LastTurn(capacity);
      && |s.popped| == y + 1 && |Taken(s.fates)| == WORD + 1
      && s.popped[y] == Some(Taken(s.fates)[WORD])
      && Taken(s.fates)[y].body == 0 && Taken(s.fates)[WORD].body == 1
  {
    hide Core, After, Pushed, PushSteps;
    var y := LastTurn(capacity);
    var pairs := START_STEPS + PairSteps(y);
    var full := pairs + FillSteps(WORD - y);
    AfterPairs(capacity, y);
    AfterFill(capacity, pairs, y, WORD - y);
    var s := After(capacity, full);
    LastMultiple(capacity);
    AfterPush(capacity, full, 1);
    PushedAt(s, WORD, y, 1);
    AfterPop(capacity, full + PushSteps(1));
    assert WrapRun(capacity) == full + PushSteps(1) + POP_STEPS;
  }

  /** What is popped is what was accepted, in order, in every run of the ring, exactly when the
      capacity divides 2^32. */
  lemma PopsAreAcceptedIff(capacity: nat)
    requires 0 < capacity < WORD
    ensures (forall actions :: var s := After(capacity, actions); PoppedAre(s.popped, Taken(s.fates))) <==>
      WORD % capacity == 0
  {
    hide Core, After;
    if WORD % capacity == 0 {
      forall actions ensures var s := After(capacity, actions); PoppedAre(s.popped, Taken(s.fates)) {
        PopsAreAccepted(capacity, actions);
      }
    } else {
      WrapOverwrites(capacity);
      var s := After(capacity, WrapRun(capacity));
      assert !PoppedAre(s.popped, Taken(s.fates));
    }
  }
}
