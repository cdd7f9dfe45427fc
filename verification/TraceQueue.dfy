/** The trace queue's calls (core/can_trace.cpp) on its fields, each run to its end: a call that
    nothing interrupts is the composition of the atomic steps of `TraceRing`. */
module TraceQueue {
  import opened Types
  import opened TraceRing

  function Run(s: Ring, actions: seq<Action>): (t: Ring)
    requires Shape(s)
    ensures Shape(t) && t.capacity == s.capacity
    decreases |actions|
  {
    if actions == [] then s else Run(Step(s, actions[0]), actions[1..])
  }

  /** The steps of one `push`; those that are not due do nothing. */
  function PushSteps(body: nat): seq<Action> {
    [Push(body), CheckActive, AllocateSequence, CheckCapacity, BeginStore, EndStore, AdvanceWrite, CountProduced,
     CountDropped, Leave]
  }

  const POP_STEPS: seq<Action> := [BeginPop, CheckEmpty, CopySlot, AdvanceRead]

  const START_STEPS: seq<Action> :=
    [BeginStart, CheckIdle, StoreReset, StoreReset, StoreReset, StoreReset, Activate]

  /** What one uninterrupted `push` does: nothing while inactive, otherwise one more number, and the
      event in the ring or one more drop. */
  function Pushed(s: Ring, body: nat): Ring
    requires Shape(s)
  {
    var e := Event(Inc(s.nextSequence), body);
    if !s.active then s
    else if Minus(s.write, s.read) >= s.capacity then
      s.(nextSequence := e.sequence, dropped := Inc(s.dropped), fates := s.fates + [Dropped])
    else
      s.(nextSequence := e.sequence, slots := s.slots[s.write % s.capacity := Some(e)], write := Inc(s.write),
         produced := Inc(s.produced), fates := s.fates + [Accepted(e)])
  }

  function Popped(s: Ring): Ring
    requires Shape(s)
  {
    if s.read == s.write then s
    else s.(read := Inc(s.read), popped := s.popped + [s.slots[s.read % s.capacity]])
  }

  function Started(s: Ring): Ring {
    s.(active := true, read := s.write, nextSequence := 0, dropped := 0, produced := 0,
       base := s.base + |Taken(s.fates)|, fates := [], popped := [])
  }

  lemma Run1(s: Ring, a: Action)
    requires Shape(s)
    ensures Run(s, [a]) == Step(s, a)
  {
    hide Step;
    assert [a][1..] == [];
  }

  lemma RunJoin(s: Ring, first: seq<Action>, rest: seq<Action>)
    requires Shape(s)
    ensures Run(s, first + rest) == Run(Run(s, first), rest)
    decreases |first|
  {
    hide Step;
    if first == [] {
      assert first + rest == rest;
    } else {
      assert (first + rest)[1..] == first[1..] + rest;
      RunJoin(Step(s, first[0]), first[1..], rest);
    }
  }

  lemma Run2(s: Ring, a: Action, b: Action)
    requires Shape(s)
    ensures Run(s, [a, b]) == Step(Step(s, a), b)
  {
    hide Step, Run;
    assert [a, b] == [a] + [b];
    RunJoin(s, [a], [b]);
    Run1(s, a);
    Run1(Step(s, a), b);
  }

  /** A push is ignored, dropped or stored. */
  lemma PushCases(s: Ring, body: nat)
    requires Shape(s)
    ensures var e := Event(Inc(s.nextSequence), body);
      && (!s.active ==> Pushed(s, body) == s)
      && (s.active && Minus(s.write, s.read) >= s.capacity ==>
            Pushed(s, body) == s.(nextSequence := e.sequence, dropped := Inc(s.dropped), fates := s.fates + [Dropped]))
      && (s.active && Minus(s.write, s.read) < s.capacity ==>
            Pushed(s, body) == s.(nextSequence := e.sequence, slots := s.slots[s.write % s.capacity := Some(e)],
                                  write := Inc(s.write), produced := Inc(s.produced), fates := s.fates + [Accepted(e)]))
  {
    hide Inc, Minus;
  }

  lemma PushIsSteps(s: Ring, body: nat)
    requires Shape(s) && s.producer.Idle?
    ensures Run(s, PushSteps(body)) == Pushed(s, body)
  {
    hide Step, Run, Pushed;
    var enter: seq<Action> := [Push(body), CheckActive];
    var number: seq<Action> := [AllocateSequence, CheckCapacity];
    var store: seq<Action> := [BeginStore, EndStore];
    var publish: seq<Action> := [AdvanceWrite, CountProduced];
    var leave: seq<Action> := [CountDropped, Leave];
    assert PushSteps(body) == enter + (number + (store + (publish + leave)));
    RunJoin(s, enter, number + (store + (publish + leave)));
    Run2(s, Push(body), CheckActive);
    var s1 := Step(Step(s, Push(body)), CheckActive);
    RunJoin(s1, number, store + (publish + leave));
    Run2(s1, AllocateSequence, CheckCapacity);
    var s2 := Step(Step(s1, AllocateSequence), CheckCapacity);
    RunJoin(s2, store, publish + leave);
    Run2(s2, BeginStore, EndStore);
    var s3 := Step(Step(s2, BeginStore), EndStore);
    RunJoin(s3, publish, leave);
    Run2(s3, AdvanceWrite, CountProduced);
    var s4 := Step(Step(s3, AdvanceWrite), CountProduced);
    Run2(s4, CountDropped, Leave);
    PushChain(s, body);
  }

  lemma PushChain(s: Ring, body: nat)
    requires Shape(s) && s.producer.Idle?
    ensures var s1 := Step(Step(s, Push(body)), CheckActive);
      var s2 := Step(Step(s1, AllocateSequence), CheckCapacity);
      var s3 := Step(Step(s2, BeginStore), EndStore);
      var s4 := Step(Step(s3, AdvanceWrite), CountProduced);
      Step(Step(s4, CountDropped), Leave) == Pushed(s, body)
  {
    hide Inc, Minus, Step, SetLast;
    var e := Event(Inc(s.nextSequence), body);
    EntryChain(s, body);
    if s.active {
      var full := Minus(s.write, s.read) >= s.capacity;
      var numbered := s.(producer := if full then Refused else Claiming(e), inFlight := s.inFlight + 1,
                         nextSequence := e.sequence, fates := s.fates + [Pending]);
      if full { RefusedChain(numbered, s.fates); } else { ClaimingChain(numbered, s.fates); }
    } else {
      LeavingChain(s.(producer := Leaving, inFlight := s.inFlight + 1));
    }
  }

  /** A push up to its check of the capacity. */
  lemma EntryChain(s: Ring, body: nat)
    requires Shape(s) && s.producer.Idle?
    ensures var e := Event(Inc(s.nextSequence), body);
      Step(Step(Step(Step(s, Push(body)), CheckActive), AllocateSequence), CheckCapacity) ==
        if !s.active then s.(producer := Leaving, inFlight := s.inFlight + 1)
        else s.(producer := if Minus(s.write, s.read) >= s.capacity then Refused else Claiming(e),
                inFlight := s.inFlight + 1, nextSequence := e.sequence, fates := s.fates + [Pending])
  {
    hide Inc, Minus;
  }

  /** The rest of a push. */
  function Rest(s: Ring): Ring
    requires Shape(s)
  {
    var stored := Step(Step(s, BeginStore), EndStore);
    Step(Step(Step(Step(stored, AdvanceWrite), CountProduced), CountDropped), Leave)
  }

  lemma LeavingChain(s: Ring)
    requires Shape(s) && s.producer.Leaving? && s.inFlight > 0
    ensures Rest(s) == s.(producer := Idle, inFlight := s.inFlight - 1)
  {
    hide Inc;
  }

  lemma RefusedChain(s: Ring, fates: seq<Fate>)
    requires Shape(s) && s.producer.Refused? && s.inFlight > 0 && s.fates == fates + [Pending]
    ensures Rest(s) ==
      s.(producer := Idle, inFlight := s.inFlight - 1, dropped := Inc(s.dropped), fates := fates + [Dropped])
  {
    hide Inc;
    assert SetLast(fates + [Pending], Dropped) == fates + [Dropped];
  }

  lemma ClaimingChain(s: Ring, fates: seq<Fate>)
    requires Shape(s) && s.producer.Claiming? && s.inFlight > 0 && s.fates == fates + [Pending]
    ensures var e := s.producer.event;
      Rest(s) == s.(producer := Idle, inFlight := s.inFlight - 1, slots := s.slots[s.write % s.capacity := Some(e)],
                    write := Inc(s.write), produced := Inc(s.produced), fates := fates + [Accepted(e)])
  {
    hide Inc;
    var e, i := s.producer.event, s.write % s.capacity;
    assert SetLast(fates + [Pending], Accepted(e)) == fates + [Accepted(e)];
    assert s.slots[i := None][i := Some(e)] == s.slots[i := Some(e)];
  }

  lemma PopIsSteps(s: Ring)
    requires Shape(s) && s.consumer.Resting?
    ensures Run(s, POP_STEPS) == Popped(s)
  {
    hide Inc, Run, Step, Popped;
    assert POP_STEPS == [BeginPop, CheckEmpty] + [CopySlot, AdvanceRead];
    RunJoin(s, [BeginPop, CheckEmpty], [CopySlot, AdvanceRead]);
    Run2(s, BeginPop, CheckEmpty);
    Run2(Step(Step(s, BeginPop), CheckEmpty), CopySlot, AdvanceRead);
    PopChain(s);
  }

  lemma PopChain(s: Ring)
    requires Shape(s) && s.consumer.Resting?
    ensures Step(Step(Step(Step(s, BeginPop), CheckEmpty), CopySlot), AdvanceRead) == Popped(s)
  {
    hide Inc;
  }

  lemma StartIsSteps(s: Ring)
    requires Shape(s) && s.consumer.Resting? && s.inFlight == 0
    ensures Run(s, START_STEPS) == Started(s)
  {
    hide Step, Run;
    var s1 := Step(Step(s, BeginStart), CheckIdle);
    var s2 := Step(Step(s1, StoreReset), StoreReset);
    var s3 := Step(Step(s2, StoreReset), StoreReset);
    var resets: seq<Action> := [StoreReset, StoreReset];
    var begin: seq<Action> := [BeginStart, CheckIdle];
    assert START_STEPS == begin + (resets + (resets + [Activate]));
    RunJoin(s, begin, resets + (resets + [Activate]));
    Run2(s, BeginStart, CheckIdle);
    RunJoin(s1, resets, resets + [Activate]);
    Run2(s1, StoreReset, StoreReset);
    RunJoin(s2, resets, [Activate]);
    Run2(s2, StoreReset, StoreReset);
    Run1(s3, Activate);
    StartChain(s);
  }

  lemma StartChain(s: Ring)
    requires Shape(s) && s.consumer.Resting? && s.inFlight == 0
    ensures var s1 := Step(Step(s, BeginStart), CheckIdle);
      var s2 := Step(Step(s1, StoreReset), StoreReset);
      var s3 := Step(Step(s2, StoreReset), StoreReset);
      Step(s3, Activate) == Started(s)
  {
    hide Taken;
  }

  /** Running more steps after a history is running the longer history. */
  lemma {:induction false} RunExtends(capacity: nat, history: seq<Action>, actions: seq<Action>)
    requires 0 < capacity < WORD
    ensures Shape(After(capacity, history))
    ensures After(capacity, history + actions) == Run(After(capacity, history), actions)
    decreases |actions|
  {
    hide Core, Step;
    CoreShape(After(capacity, history));
    if actions == [] {
      assert history + actions == history;
    } else {
      AfterOne(capacity, history, actions[0]);
      RunExtends(capacity, history + [actions[0]], actions[1..]);
      assert history + [actions[0]] + actions[1..] == history + actions;
    }
  }

  lemma AfterOne(capacity: nat, history: seq<Action>, a: Action)
    requires 0 < capacity < WORD
    ensures Shape(After(capacity, history))
    ensures After(capacity, history + [a]) == Step(After(capacity, history), a)
  {
    hide Step;
    assert (history + [a])[..|history|] == history;
  }

  lemma CoreShape(s: Ring)
    requires Core(s)
    ensures Shape(s)
  {
  }

  class CanTraceQueue {
    const events: array<Option<Event>>
    var writeIndex: U32
    var readIndex: U32
    var nextSequence: U32
    var dropped: U32
    var produced: U32
    var active: bool
    ghost var base: nat
    ghost var fates: seq<Fate>
    ghost var popped: seq<Option<Event>>
    ghost var history: seq<Action>

    /** Between two calls nothing is in flight. */
    ghost function State(): Ring
      reads this, events
    {
      Ring(events.Length, events[..], writeIndex, readIndex, nextSequence, dropped, produced, 0, active,
           Idle, Resting, base, fates, popped)
    }

    /** The queue is in the state that its history of atomic steps leads to, so that what is proved
        of every run holds of it. */
    ghost predicate Valid()
      reads this, events
    {
      0 < events.Length < WORD && State() == After(events.Length, history)
    }

    constructor (capacity: nat)
      requires 2 <= capacity < WORD
      ensures Valid() && State() == Init(capacity) && fresh(events)
    {
      events := new Option<Event>[capacity](_ => None);
      writeIndex, readIndex, nextSequence, dropped, produced, active := 0, 0, 0, 0, 0, false;
      base, fates, popped, history := 0, [], [], [];
      new;
      assert State() == Init(capacity);
    }

    method PushEvent(body: nat)
      requires Valid()
      modifies this`writeIndex, this`nextSequence, this`dropped, this`produced, this`fates, this`history, events
      ensures Valid() && State() == Run(old(State()), PushSteps(body)) == Pushed(old(State()), body)
    {
      hide Core, Run, After, Pushed, PushSteps, Inc, Minus;
      ghost var before := State();
      CoreShape(before);
      PushIsSteps(before, body);
      RunExtends(events.Length, history, PushSteps(body));
      PushCases(before, body);
      history := history + PushSteps(body);
      if !active { return; }
      var event := Event(Inc(nextSequence), body);
      nextSequence := event.sequence;
      if Minus(writeIndex, readIndex) >= events.Length { CountDrop(); } else { StoreEvent(event); }
    }

    method CountDrop()
      modifies this`dropped, this`fates
      ensures dropped == Inc(old(dropped)) && fates == old(fates) + [Dropped]
    {
      dropped := (dropped + 1) % WORD;
      fates := fates + [Dropped];
    }

    method StoreEvent(event: Event)
      requires 0 < events.Length
      modifies this`writeIndex, this`produced, this`fates, events
      ensures events[..] == old(events[..])[old(writeIndex) % events.Length := Some(event)]
      ensures writeIndex == Inc(old(writeIndex)) && produced == Inc(old(produced))
      ensures fates == old(fates) + [Accepted(event)]
    {
      events[writeIndex % events.Length] := Some(event);
      writeIndex := (writeIndex + 1) % WORD;
      produced := (produced + 1) % WORD;
      fates := fates + [Accepted(event)];
    }

    method Pop() returns (event: Option<Event>)
      requires Valid()
      modifies this`readIndex, this`popped, this`history
      ensures Valid() && State() == Run(old(State()), POP_STEPS) == Popped(old(State()))
      ensures event == if old(readIndex) == old(writeIndex) then None
                       else old(events[readIndex % events.Length])
    {
      hide Core, Run, After;
      ghost var before := State();
      CoreShape(before);
      PopIsSteps(before);
      RunExtends(events.Length, history, POP_STEPS);
      history := history + POP_STEPS;
      if readIndex == writeIndex { return None; }
      event := events[readIndex % events.Length];
      readIndex := (readIndex + 1) % WORD;
      popped := popped + [event];
      assert State() == Popped(before);
    }

    /** With no producer in flight `start` succeeds. */
    method Start()
      requires Valid()
      modifies this
      ensures Valid() && State() == Run(old(State()), START_STEPS) == Started(old(State()))
    {
      hide Core, Run, After;
      ghost var before := State();
      CoreShape(before);
      StartIsSteps(before);
      RunExtends(events.Length, history, START_STEPS);
      history := history + START_STEPS;
      readIndex, nextSequence, dropped, produced, active := writeIndex, 0, 0, 0, true;
      base, fates, popped := base + |Taken(fates)|, [], [];
      assert State() == Started(before);
    }

    method StopSession()
      requires Valid()
      modifies this`active, this`history
      ensures Valid() && State() == Step(old(State()), Stop)
    {
      hide Core, After;
      AfterOne(events.Length, history, Stop);
      history := history + [Stop];
      active := false;
    }
  }
}
