/** The single-producer single-consumer trace ring (core/can_trace.cpp) as sequentially consistent
    steps of the CAN task, which pushes, and the application task, which pops and starts sessions.
    Writing and reading a slot take several steps; a slot being written holds no event. */
module TraceRing {
  import opened Types
  import opened Modulo

  const WORD := 0x1_0000_0000

  /** `body` stands for everything in an event but its sequence number. */
  datatype Event = Event(sequence: U32, body: nat)

  /** What became of the sequence number at this place of a session. */
  datatype Fate = Pending | Dropped | Accepted(event: Event)

  datatype Producer =
    | Idle
    | Entered(event: Event)        // in-flight count raised
    | Admitted(event: Event)       // the session is active
    | Numbered(event: Event)       // sequence number allocated
    | Refused                      // ring full, drop still to be counted
    | Claiming(event: Event)       // capacity check passed
    | Storing(event: Event)        // slot partly written
    | Stored(event: Event)
    | Published                    // write index advanced, still to be counted
    | Leaving

  datatype Consumer =
    | Resting
    | Popping                      // own read index loaded
    | Copying                      // the ring is not empty
    | Copied(event: Option<Event>)
    | Stopping                     // `start`: activity cleared
    | Starting(stores: nat)        // `start`: producer was idle, stores done so far

  datatype Ring = Ring(
    capacity: nat, slots: seq<Option<Event>>, write: U32, read: U32,
    nextSequence: U32, dropped: U32, produced: U32, inFlight: nat, active: bool,
    producer: Producer, consumer: Consumer,
    // the session so far: where it began, every number's fate, and what was popped
    base: nat, fates: seq<Fate>, popped: seq<Option<Event>>)

  datatype Action =
    | Push(body: nat) | CheckActive | AllocateSequence | CheckCapacity | BeginStore | EndStore
    | AdvanceWrite | CountProduced | CountDropped | Leave
    | BeginPop | CheckEmpty | CopySlot | AdvanceRead
    | BeginStart | CheckIdle | StoreReset | Activate | Stop

  function Init(capacity: nat): Ring {
    Ring(capacity, seq(capacity, _ => None), 0, 0, 0, 0, 0, 0, false, Idle, Resting, 0, [], [])
  }

  function Slot(capacity: nat, index: nat): (r: nat)
    requires 0 < capacity
    ensures r < capacity
  {
    (index % WORD) % capacity
  }

  function Inc(x: U32): U32 {
    (x + 1) % WORD
  }

  /** Unsigned 32-bit subtraction. */
  function Minus(x: U32, y: U32): U32 {
    (x + WORD - y) % WORD
  }

  function SetLast(fates: seq<Fate>, f: Fate): seq<Fate> {
    if fates == [] then [] else fates[|fates| - 1 := f]
  }

  predicate Shape(s: Ring) {
    0 < s.capacity < WORD && |s.slots| == s.capacity
  }

  function Step(s: Ring, a: Action): (t: Ring)
    requires Shape(s)
    ensures Shape(t) && t.capacity == s.capacity
  {
    match a
    case Push(body) =>
      if s.producer.Idle? then s.(producer := Entered(Event(0, body)), inFlight := s.inFlight + 1) else s
    case CheckActive =>
      if s.producer.Entered? then s.(producer := if s.active then Admitted(s.producer.event) else Leaving) else s
    case AllocateSequence =>
      if s.producer.Admitted? then
        s.(producer := Numbered(s.producer.event.(sequence := Inc(s.nextSequence))),
           nextSequence := Inc(s.nextSequence), fates := s.fates + [Pending])
      else s
    case CheckCapacity =>
      if s.producer.Numbered? then
        s.(producer := if Minus(s.write, s.read) >= s.capacity then Refused else Claiming(s.producer.event))
      else s
    case CountDropped =>
      if s.producer.Refused? then
        s.(producer := Leaving, dropped := Inc(s.dropped), fates := SetLast(s.fates, Dropped))
      else s
    case BeginStore =>
      if s.producer.Claiming? then
        s.(producer := Storing(s.producer.event), slots := s.slots[s.write % s.capacity := None])
      else s
    case EndStore =>
      if s.producer.Storing? then
        s.(producer := Stored(s.producer.event), slots := s.slots[s.write % s.capacity := Some(s.producer.event)])
      else s
    case AdvanceWrite =>
      if s.producer.Stored? then
        s.(producer := Published, write := Inc(s.write), fates := SetLast(s.fates, Accepted(s.producer.event)))
      else s
    case CountProduced =>
      if s.producer.Published? then s.(producer := Leaving, produced := Inc(s.produced)) else s
    case Leave =>
      if s.producer.Leaving? && s.inFlight > 0 then s.(producer := Idle, inFlight := s.inFlight - 1) else s
    case BeginPop => if s.consumer.Resting? then s.(consumer := Popping) else s
    case CheckEmpty =>
      if s.consumer.Popping? then s.(consumer := if s.read == s.write then Resting else Copying) else s
    case CopySlot =>
      if s.consumer.Copying? then s.(consumer := Copied(s.slots[s.read % s.capacity])) else s
    case AdvanceRead =>
      if s.consumer.Copied? then
        s.(consumer := Resting, read := Inc(s.read), popped := s.popped + [s.consumer.event])
      else s
    case BeginStart => if s.consumer.Resting? then s.(consumer := Stopping, active := false) else s
    case CheckIdle =>
      if s.consumer.Stopping? then s.(consumer := if s.inFlight != 0 then Resting else Starting(0)) else s
    case StoreReset =>
      if s.consumer.Starting? then
        match s.consumer.stores
        case 0 => s.(consumer := Starting(1), read := s.write, popped := [],
                     base := s.base + |Taken(s.fates)|, fates := [])
        case 1 => s.(consumer := Starting(2), nextSequence := 0)
        case 2 => s.(consumer := Starting(3), dropped := 0)
        case 3 => s.(consumer := Starting(4), produced := 0)
        case _ => s
      else s
    case Activate => if s.consumer == Starting(4) then s.(consumer := Resting, active := true) else s
    case Stop => s.(active := false)
  }

  // ---------------------------------------------------------------- the session's record

  /** The accepted events of a session, in order. */
  function Taken(fates: seq<Fate>): (r: seq<Event>)
    ensures |r| <= |fates|
  {
    if fates == [] then []
    else Taken(fates[..|fates| - 1]) +
         (if fates[|fates| - 1].Accepted? then [fates[|fates| - 1].event] else [])
  }

  function Drops(fates: seq<Fate>): (n: nat)
    ensures n <= |fates|
  {
    if fates == [] then 0
    else Drops(fates[..|fates| - 1]) + (if fates[|fates| - 1].Dropped? then 1 else 0)
  }

  lemma Appended(fates: seq<Fate>, f: Fate)
    ensures Taken(fates + [f]) == Taken(fates) + (if f.Accepted? then [f.event] else [])
    ensures Drops(fates + [f]) == Drops(fates) + (if f.Dropped? then 1 else 0)
  {
    assert (fates + [f])[..|fates|] == fates;
  }

  lemma AppendedPending(fates: seq<Fate>)
    ensures Taken(fates + [Pending]) == Taken(fates) && Drops(fates + [Pending]) == Drops(fates)
  {
    hide Taken, Drops;
    Appended(fates, Pending);
  }

  lemma LastReplaced(fates: seq<Fate>, f: Fate)
    requires fates != [] && fates[|fates| - 1].Pending?
    ensures fates == fates[..|fates| - 1] + [Pending] && SetLast(fates, f) == fates[..|fates| - 1] + [f]
  {
  }

  lemma Decided(fates: seq<Fate>, f: Fate)
    requires fates != [] && fates[|fates| - 1].Pending?
    ensures Taken(SetLast(fates, f)) == Taken(fates) + (if f.Accepted? then [f.event] else [])
    ensures Drops(SetLast(fates, f)) == Drops(fates) + (if f.Dropped? then 1 else 0)
  {
    hide Taken, Drops, SetLast;
    LastReplaced(fates, f);
    AppendedPending(fates[..|fates| - 1]);
    Appended(fates[..|fates| - 1], f);
  }

  /** Unwrapped indices of the next write and the next read. */
  function Head(s: Ring): nat { s.base + |Taken(s.fates)| }

  function Tail(s: Ring): nat { s.base + |s.popped| }

  // ---------------------------------------------------------------- index arithmetic

  /** Adding a multiple of a multiple of `c` does not change the remainder by `c`. */
  lemma Residue(q: nat, k: nat, c: nat, r: nat)
    requires c > 0
    ensures (q * (k * c) + r) % c == r % c
  {
    var n := q * k + r / c;
    assert q * (k * c) == (q * k) * c;
    assert (q * k + r / c) * c == (q * k) * c + (r / c) * c;
    assert r == (r / c) * c + r % c;
    ModUnique(n, r % c, c);
  }

  /** When the capacity divides the index range, wrapping the index does not move the slot. */
  lemma SlotWithoutWrap(m: nat, capacity: nat, index: nat)
    requires 0 < capacity && 0 < m && m % capacity == 0
    ensures (index % m) % capacity == index % capacity
  {
    var q, r := index / m, index % m;
    assert index == q * m + r;
    assert m == (m / capacity) * capacity;
    Residue(q, m / capacity, capacity, r);
  }

  lemma CloseResidues(c: nat, i: nat, j: nat)
    requires 0 < c && i < j < i + c
    ensures i % c != j % c
  {
    var q, r := i / c, i % c;
    assert i == q * c + r;
    if r + (j - i) < c {
      ModUnique(q, r + (j - i), c);
      assert j == q * c + (r + (j - i));
    } else {
      assert (q + 1) * c == q * c + c;
      ModUnique(q + 1, r + (j - i) - c, c);
      assert j == (q + 1) * c + (r + (j - i) - c);
    }
  }

  /** The indices in use do not meet: the capacity divides 2^32, or no index has wrapped. */
  predicate NoCollision(capacity: nat, head: nat)
    requires 0 < capacity
  {
    WORD % capacity == 0 || head < WORD
  }

  lemma SlotsDiffer(capacity: nat, i: nat, j: nat)
    requires 0 < capacity && i < j < i + capacity && NoCollision(capacity, j)
    ensures Slot(capacity, i) != Slot(capacity, j)
  {
    CloseResidues(capacity, i, j);
    if WORD % capacity == 0 {
      SlotWithoutWrap(WORD, capacity, i);
      SlotWithoutWrap(WORD, capacity, j);
    }
  }

  /** The last multiple of the capacity below 2^32 shares slot 0 with index 2^32. */
  lemma LastMultiple(capacity: nat)
    requires 0 < capacity < WORD && WORD % capacity != 0
    ensures Slot(capacity, WORD - WORD % capacity) == 0 == Slot(capacity, WORD)
  {
    var y := WORD - WORD % capacity;
    assert WORD == (WORD / capacity) * capacity + WORD % capacity;
    ModUnique(WORD / capacity, 0, capacity);
  }

  lemma WrappedDistance(head: nat, tail: nat)
    requires tail <= head < tail + WORD
    ensures Minus(head % WORD, tail % WORD) == head - tail
  {
  }

  // ---------------------------------------------------------------- the invariant

  /** A sequence number is allocated and its fate is still open. */
  predicate InHand(p: Producer) {
    p.Numbered? || p.Refused? || p.Claiming? || p.Storing? || p.Stored?
  }

  ghost predicate FatesOk(s: Ring) {
    && (InHand(s.producer) <==> s.fates != [] && s.fates[|s.fates| - 1].Pending?)
    && (forall k :: 0 <= k < |s.fates| - 1 ==> !s.fates[k].Pending?)
    && (forall k :: 0 <= k < |s.fates| && s.fates[k].Accepted? ==> s.fates[k].event.sequence == (k + 1) % WORD)
    && (s.producer.Numbered? || s.producer.Claiming? || s.producer.Storing? || s.producer.Stored? ==>
          s.producer.event.sequence == |s.fates| % WORD)
  }

  ghost predicate IndicesOk(s: Ring) {
    && s.write == Head(s) % WORD && s.read == Tail(s) % WORD
    && Tail(s) <= Head(s) <= Tail(s) + s.capacity
    && (s.producer.Claiming? || s.producer.Storing? || s.producer.Stored? ==> Head(s) < Tail(s) + s.capacity)
    && (s.consumer.Copying? || s.consumer.Copied? ==> Tail(s) < Head(s))
  }

  /** The accepted events from place `from` on stand in their slots. */
  ghost predicate Live(slots: seq<Option<Event>>, base: nat, record: seq<Event>, from: nat)
    requires 0 < |slots|
  {
    forall k {:trigger record[k]} :: from <= k < |record| ==> slots[Slot(|slots|, base + k)] == Some(record[k])
  }

  /** What was popped is the beginning of what was accepted. */
  ghost predicate PoppedAre(popped: seq<Option<Event>>, record: seq<Event>) {
    |popped| <= |record| && forall k :: 0 <= k < |popped| ==> popped[k] == Some(record[k])
  }

  ghost predicate SlotsOk(s: Ring)
    requires Shape(s)
  {
    && Live(s.slots, s.base, Taken(s.fates), |s.popped|)
    && PoppedAre(s.popped, Taken(s.fates))
    && (s.producer.Stored? ==> s.slots[Slot(s.capacity, Head(s))] == Some(s.producer.event))
    && (s.consumer.Copied? && |s.popped| < |Taken(s.fates)| ==> s.consumer.event == Some(Taken(s.fates)[|s.popped|]))
  }

  predicate SessionOk(s: Ring) {
    && s.inFlight == (if s.producer.Idle? then 0 else 1)
    && (s.consumer.Stopping? || s.consumer.Starting? ==> !s.active)
    && (s.consumer.Starting? ==>
          s.consumer.stores <= 4 && (s.producer.Idle? || s.producer.Entered? || s.producer.Leaving?) &&
          (s.consumer.stores > 0 ==> s.fates == [] && s.popped == []))
  }

  /** `start` has got this far but not beyond. */
  predicate Resetting(s: Ring, last: nat) {
    s.consumer.Starting? && 1 <= s.consumer.stores <= last
  }

  predicate CountersOk(s: Ring) {
    && (!Resetting(s, 1) ==> s.nextSequence == |s.fates| % WORD)
    && (!Resetting(s, 2) ==> s.dropped == Drops(s.fates) % WORD)
    && (!Resetting(s, 3) ==>
          if s.producer.Published? then Inc(s.produced) == |Taken(s.fates)| % WORD
          else s.produced == |Taken(s.fates)| % WORD)
    && |s.fates| == |Taken(s.fates)| + Drops(s.fates) + (if InHand(s.producer) then 1 else 0)
  }

  /** Everything but the contents of the slots. */
  ghost predicate Core(s: Ring) {
    Shape(s) && FatesOk(s) && IndicesOk(s) && SessionOk(s) && CountersOk(s)
  }

  lemma IncWraps(n: nat)
    ensures Inc(n % WORD) == (n + 1) % WORD
  {
  }

  /** Actions that change neither the record nor an index. */
  predicate Quiet(a: Action) {
    !(a.AllocateSequence? || a.CountDropped? || a.AdvanceWrite? || a.AdvanceRead? || a.StoreReset?)
  }

  lemma QuietStep(s: Ring, a: Action)
    requires Shape(s) && Quiet(a)
    ensures var t := Step(s, a);
      && t.fates == s.fates && t.popped == s.popped && t.base == s.base && t.capacity == s.capacity
      && t.write == s.write && t.read == s.read && t.nextSequence == s.nextSequence && t.dropped == s.dropped
      && (a.CountProduced? || t.produced == s.produced)
      && Shape(t)
  {
  }

  // ---------------------------------------------------------------- indices, fates and counters

  lemma QuietFates(s: Ring, a: Action)
    requires Core(s) && Quiet(a)
    ensures FatesOk(Step(s, a))
  {
    hide Taken, Drops, Minus;
    QuietStep(s, a);
  }

  lemma SessionKept(s: Ring, a: Action)
    requires Core(s)
    ensures SessionOk(Step(s, a))
  {
  }

  lemma QuietCounters(s: Ring, a: Action)
    requires Core(s) && Quiet(a)
    ensures CountersOk(Step(s, a))
  {
    hide Taken, Drops, Minus, Inc, FatesOk, IndicesOk;
    QuietStep(s, a);
  }

  /** The unsigned difference of the indices is the number of unread events. */
  lemma Distance(s: Ring)
    requires Shape(s) && IndicesOk(s)
    ensures Minus(s.write, s.read) == Head(s) - Tail(s)
    ensures s.read == s.write <==> Head(s) == Tail(s)
  {
    WrappedDistance(Head(s), Tail(s));
  }

  lemma QuietIndices(s: Ring, a: Action)
    requires Core(s) && Quiet(a)
    ensures IndicesOk(Step(s, a))
  {
    hide Taken, Drops, Minus, Inc, FatesOk, CountersOk;
    QuietStep(s, a);
    Distance(s);
  }

  /** Allocating a number, accepting or dropping its event happens outside `start`. */
  lemma NotStarting(s: Ring)
    requires SessionOk(s) && (s.producer.Admitted? || InHand(s.producer))
    ensures !s.consumer.Starting?
  {
  }

  lemma LastPending(s: Ring)
    requires FatesOk(s) && InHand(s.producer)
    ensures s.fates != [] && s.fates[|s.fates| - 1].Pending?
  {
  }

  lemma AllocateFates(s: Ring)
    requires Core(s) && s.producer.Admitted?
    ensures FatesOk(Step(s, AllocateSequence))
  {
    hide Minus, Taken, Drops, Inc;
    NotStarting(s);
    IncWraps(|s.fates|);
  }

  lemma AllocateKeeps(s: Ring)
    requires Core(s) && s.producer.Admitted?
    ensures Core(Step(s, AllocateSequence)) && Head(Step(s, AllocateSequence)) == Head(s)
  {
    hide Minus, FatesOk, Inc;
    NotStarting(s);
    AllocateFates(s);
    AppendedPending(s.fates);
    IncWraps(|s.fates|);
  }

  lemma DropFates(s: Ring)
    requires Core(s) && s.producer.Refused?
    ensures FatesOk(Step(s, CountDropped))
  {
    hide Minus, Taken, Drops, Inc;
  }

  lemma DropKeeps(s: Ring)
    requires Core(s) && s.producer.Refused?
    ensures Core(Step(s, CountDropped)) && Head(Step(s, CountDropped)) == Head(s)
  {
    hide Minus, FatesOk, Inc;
    NotStarting(s);
    DropFates(s);
    LastPending(s);
    Decided(s.fates, Dropped);
    assert Taken(SetLast(s.fates, Dropped)) == Taken(s.fates);
    IncWraps(Drops(s.fates));
  }

  lemma AcceptFates(s: Ring)
    requires Core(s) && s.producer.Stored?
    ensures FatesOk(Step(s, AdvanceWrite))
  {
    hide Minus, Taken, Drops, Inc;
  }

  lemma AcceptKeeps(s: Ring)
    requires Core(s) && s.producer.Stored?
    ensures Core(Step(s, AdvanceWrite)) && Head(Step(s, AdvanceWrite)) == Head(s) + 1
    ensures Taken(Step(s, AdvanceWrite).fates) == Taken(s.fates) + [s.producer.event]
  {
    hide Minus, FatesOk, Inc, Taken, Drops;
    NotStarting(s);
    AcceptFates(s);
    LastPending(s);
    Decided(s.fates, Accepted(s.producer.event));
    IncWraps(Head(s));
    IncWraps(|Taken(s.fates)|);
  }

  lemma PopKeeps(s: Ring)
    requires Core(s)
    ensures Core(Step(s, AdvanceRead))
  {
    hide Minus;
    IncWraps(Tail(s));
  }

  lemma ResetKeeps(s: Ring)
    requires Core(s)
    ensures Core(Step(s, StoreReset)) && Head(Step(s, StoreReset)) == Head(s)
  {
    hide Minus;
  }

  /** Indices, fates and counters stay consistent under every step, and no step takes the write
      position back. */
  lemma CoreKept(s: Ring, a: Action)
    requires Core(s)
    ensures Core(Step(s, a)) && Head(s) <= Head(Step(s, a))
  {
    hide FatesOk, IndicesOk, CountersOk, SessionOk;
    if Quiet(a) {
      QuietStep(s, a);
      QuietFates(s, a);
      QuietIndices(s, a);
      QuietCounters(s, a);
      SessionKept(s, a);
    } else {
      if a.StoreReset? { ResetKeeps(s); }
      if a.AllocateSequence? && s.producer.Admitted? { AllocateKeeps(s); }
      if a.CountDropped? && s.producer.Refused? { DropKeeps(s); }
      if a.AdvanceWrite? && s.producer.Stored? { AcceptKeeps(s); }
      if a.AdvanceRead? { PopKeeps(s); }
    }
  }

  // ---------------------------------------------------------------- contents of the slots

  /** The slot behind the newest event is free as long as fewer than `capacity` events are unread. */
  lemma LiveStore(slots: seq<Option<Event>>, base: nat, record: seq<Event>, from: nat, x: Option<Event>)
    requires 0 < |slots| && Live(slots, base, record, from)
    requires |record| < from + |slots| && NoCollision(|slots|, base + |record|)
    ensures Live(slots[Slot(|slots|, base + |record|) := x], base, record, from)
  {
    var after := slots[Slot(|slots|, base + |record|) := x];
    forall k | from <= k < |record| ensures after[Slot(|after|, base + k)] == Some(record[k]) {
      SlotsDiffer(|slots|, base + k, base + |record|);
    }
  }

  lemma OldestEvent(s: Ring)
    requires Core(s) && SlotsOk(s) && |s.popped| < |Taken(s.fates)|
    ensures s.slots[s.read % s.capacity] == Some(Taken(s.fates)[|s.popped|])
  {
    assert Slot(|s.slots|, s.base + |s.popped|) == s.read % s.capacity;
  }

  lemma QuietSlots(s: Ring, a: Action)
    requires Core(s) && SlotsOk(s) && Quiet(a) && NoCollision(s.capacity, Head(s))
    ensures SlotsOk(Step(s, a))
  {
    hide Taken, Drops, Minus, Inc, FatesOk, CountersOk, NoCollision, Live, PoppedAre;
    QuietStep(s, a);
    var record := Taken(s.fates);
    if s.producer.Claiming? { LiveStore(s.slots, s.base, record, |s.popped|, None); }
    if s.producer.Storing? { LiveStore(s.slots, s.base, record, |s.popped|, Some(s.producer.event)); }
    if s.consumer.Copying? { OldestEvent(s); }
  }

  lemma LiveAppend(slots: seq<Option<Event>>, base: nat, record: seq<Event>, from: nat, e: Event)
    requires 0 < |slots| && Live(slots, base, record, from)
    requires slots[Slot(|slots|, base + |record|)] == Some(e)
    ensures Live(slots, base, record + [e], from)
  {
  }

  lemma PoppedAppend(popped: seq<Option<Event>>, record: seq<Event>, e: Event)
    requires PoppedAre(popped, record)
    ensures PoppedAre(popped, record + [e])
  {
  }

  lemma AcceptSlots(s: Ring)
    requires Core(s) && SlotsOk(s) && s.producer.Stored?
    ensures SlotsOk(Step(s, AdvanceWrite))
  {
    hide Taken, Drops, Minus, Inc, FatesOk, CountersOk, Live, PoppedAre, Slot;
    AcceptKeeps(s);
    LiveAppend(s.slots, s.base, Taken(s.fates), |s.popped|, s.producer.event);
    PoppedAppend(s.popped, Taken(s.fates), s.producer.event);
  }

  lemma PopSlots(s: Ring)
    requires Core(s) && SlotsOk(s)
    ensures SlotsOk(Step(s, AdvanceRead))
  {
    hide Taken, Minus, Drops, Inc, FatesOk, CountersOk, Slot;
  }

  lemma RecordSlots(s: Ring, a: Action)
    requires Core(s) && SlotsOk(s) && (a.AllocateSequence? || a.CountDropped? || a.StoreReset?)
    ensures SlotsOk(Step(s, a))
  {
    hide Minus;
    if a.AllocateSequence? && s.producer.Admitted? {
      AppendedPending(s.fates);
    }
    if a.CountDropped? && s.producer.Refused? {
      LastPending(s);
      Decided(s.fates, Dropped);
      assert Taken(SetLast(s.fates, Dropped)) == Taken(s.fates);
    }
  }

  lemma SlotsKept(s: Ring, a: Action)
    requires Core(s) && SlotsOk(s) && NoCollision(s.capacity, Head(s))
    ensures SlotsOk(Step(s, a))
  {
    hide FatesOk, IndicesOk, CountersOk, SessionOk, SlotsOk;
    if Quiet(a) { QuietSlots(s, a); }
    else if a.AdvanceWrite? {
      if s.producer.Stored? { AcceptSlots(s); }
    }
    else if a.AdvanceRead? { PopSlots(s); }
    else { RecordSlots(s, a); }
  }

  // ---------------------------------------------------------------- every run

  /** The state after any interleaving of pushes, pops, starts and stops. */
  ghost function After(capacity: nat, actions: seq<Action>): (s: Ring)
    requires 0 < capacity < WORD
    ensures Core(s) && s.capacity == capacity
  {
    if actions == [] then Init(capacity)
    else
      var before := After(capacity, actions[..|actions| - 1]);
      CoreKept(before, actions[|actions| - 1]);
      Step(before, actions[|actions| - 1])
  }

  lemma {:induction false} SlotsInRun(capacity: nat, actions: seq<Action>)
    requires 0 < capacity < WORD && NoCollision(capacity, Head(After(capacity, actions)))
    ensures SlotsOk(After(capacity, actions))
  {
    if actions != [] {
      var before, a := After(capacity, actions[..|actions| - 1]), actions[|actions| - 1];
      CoreKept(before, a);
      SlotsInRun(capacity, actions[..|actions| - 1]);
      SlotsKept(before, a);
    }
  }

  /** In every interleaving the pops of a session are exactly its accepted events, in order and
      unmodified, as long as the capacity divides 2^32 or the index has not wrapped. */
  lemma PopsAreAccepted(capacity: nat, actions: seq<Action>)
    requires 0 < capacity < WORD && NoCollision(capacity, Head(After(capacity, actions)))
    ensures var s := After(capacity, actions); PoppedAre(s.popped, Taken(s.fates))
  {
    SlotsInRun(capacity, actions);
  }

  /** The producer never writes the slot that the consumer is reading. */
  lemma NoOverwriteWhileReading(capacity: nat, actions: seq<Action>)
    requires 0 < capacity < WORD && NoCollision(capacity, Head(After(capacity, actions)))
    ensures var s := After(capacity, actions);
      (s.producer.Claiming? || s.producer.Storing?) && s.consumer.Copying? ==>
        s.write % capacity != s.read % capacity
  {
    var s := After(capacity, actions);
    if (s.producer.Claiming? || s.producer.Storing?) && s.consumer.Copying? {
      SlotsDiffer(capacity, Tail(s), Head(s));
    }
  }

  /** When the producer is idle, every allocated number was either accepted, and is the number of
      its event, or counted as dropped: the gaps are exactly the drops. */
  lemma DropsAreGaps(capacity: nat, actions: seq<Action>)
    requires 0 < capacity < WORD
    ensures var s := After(capacity, actions);
      (s.producer.Idle? && !s.consumer.Starting?) ==>
        && |s.fates| == |Taken(s.fates)| + Drops(s.fates)
        && s.nextSequence == |s.fates| % WORD
        && s.produced == |Taken(s.fates)| % WORD && s.dropped == Drops(s.fates) % WORD
        && forall k :: 0 <= k < |s.fates| ==>
             s.fates[k].Dropped? || (s.fates[k].Accepted? && s.fates[k].event.sequence == (k + 1) % WORD)
  {
    var s := After(capacity, actions);
    assert FatesOk(s) && CountersOk(s);
    forall k | 0 <= k < |s.fates| && s.producer.Idle? ensures !s.fates[k].Pending? {
      assert k < |s.fates| - 1 || k == |s.fates| - 1;
    }
  }
}
