/** Which values successive frames carry under a counter or sequence rule (`applyCounterRule` and
    `applySequenceRule` of core/mutation_engine.cpp). */
module Counters {
  import opened Types
  import opened BitLayout
  import opened Rules
  import opened SignalCodec
  import opened FrameEffect
  import opened Modulo

  /** The stored value after `k` frames in which the rule ran */
  function StoredAfter(r: RuleRequest, initial: U32, k: nat): (v: U32)
    requires Acceptable(r)
    ensures k == 0 ==> v == initial
  {
    if k == 0 then initial
    else if r.kind.Counter? then CounterNext(r, StoredAfter(r, initial, k - 1))
    else if r.kind.Sequence8? then
      (StoredAfter(r, initial, k - 1) % r.sequenceCount + 1) % r.sequenceCount
    else initial
  }

  // ---------------------------------------------------------------- sequences

  /** The k-th frame carries the k-th value from the stored one on, round and round. */
  lemma {:induction false} SequenceGoesRound(r: RuleRequest, initial: U32, k: nat)
    requires Acceptable(r) && r.kind.Sequence8?
    ensures StoredAfter(r, initial, k) % r.sequenceCount == (initial + k) % r.sequenceCount
  {
    if k > 0 {
      SequenceGoesRound(r, initial, k - 1);
      NextResidue(initial + k - 1, r.sequenceCount);
      ModTwice((initial + k - 1) % r.sequenceCount + 1, r.sequenceCount);
    }
  }

  lemma NextResidue(x: nat, m: nat)
    requires m > 0
    ensures (x % m + 1) % m == (x + 1) % m == if x % m + 1 == m then 0 else x % m + 1
  {
    var q, r := x / m, x % m;
    assert x == q * m + r;
    if r + 1 == m {
      ModUnique(q + 1, 0, m);
      assert (q + 1) * m == q * m + m;
      ModUnique(1, 0, m);
    } else {
      ModUnique(q, r + 1, m);
      ModUnique(0, r + 1, m);
    }
  }

  lemma ModTwice(x: nat, m: nat)
    requires m > 0
    ensures x % m % m == x % m
  {
    ModUnique(0, x % m, m);
  }

  // ---------------------------------------------------------------- counters

  function Climb(start: int, step: nat, j: nat): int {
    start + j * step
  }

  lemma ClimbStep(start: int, step: nat, j: nat)
    ensures Climb(start, step, 0) == start && Climb(start, step, j + 1) == Climb(start, step, j) + step
  {
    assert (j + 1) * step == j * step + step;
  }

  lemma {:induction false} ClimbUp(start: int, step: nat, i: nat, j: nat)
    requires i <= j
    ensures Climb(start, step, i) <= Climb(start, step, j)
  {
    hide Climb;
    if i < j {
      ClimbUp(start, step, i, j - 1);
      ClimbStep(start, step, j - 1);
    }
  }

  /** Steps until a value that climbs by `step` is no longer below the limit */
  function Lap(start: nat, step: nat, limit: nat): nat
    requires step > 0
  {
    if start >= limit then 0 else (limit - start + step - 1) / step
  }

  lemma LapReaches(start: nat, step: nat, limit: nat, j: nat)
    requires step > 0 && j <= Lap(start, step, limit)
    ensures j < Lap(start, step, limit) ==> Climb(start, step, j) < limit
    ensures j == Lap(start, step, limit) ==> Climb(start, step, j) >= limit
  {
    hide Climb;
    var lap := Lap(start, step, limit);
    ClimbStep(start, step, 0);
    if start < limit {
      LastClimb(start, step, limit);
      ClimbStep(start, step, lap - 1);
      if j < lap { ClimbUp(start, step, j, lap - 1); }
    }
  }

  lemma LastClimb(start: nat, step: nat, limit: nat)
    requires step > 0 && start < limit
    ensures var lap := Lap(start, step, limit);
      lap > 0 && Climb(start, step, lap - 1) < limit <= Climb(start, step, lap - 1) + step
  {
    var n := limit - start;
    var q := (n + step - 1) / step;
    assert q * step + (n + step - 1) % step == n + step - 1;
    assert (q - 1) * step == q * step - step;
  }

  /** The value of the k-th frame: the counter climbs from its initial value to the first value not
      below the limit, and from then on round and round from the restart value. */
  function CounterValue(r: RuleRequest, initial: U32, k: nat): int
    requires r.counterStep > 0
  {
    var lap := Lap(initial, r.counterStep, r.counterWrapAfter);
    var round := Lap(r.counterWrapTo, r.counterStep, r.counterWrapAfter) + 1;
    if k <= lap then Climb(initial, r.counterStep, k)
    else Climb(r.counterWrapTo, r.counterStep, (k - lap - 1) % round)
  }

  lemma ValueEarly(r: RuleRequest, initial: U32, k: nat)
    requires r.counterStep > 0 && k <= Lap(initial, r.counterStep, r.counterWrapAfter)
    ensures CounterValue(r, initial, k) == Climb(initial, r.counterStep, k)
  {
    hide Climb, Lap;
  }

  lemma ValueLate(r: RuleRequest, initial: U32, q: nat)
    requires r.counterStep > 0
    ensures var lap := Lap(r.counterWrapTo, r.counterStep, r.counterWrapAfter);
      CounterValue(r, initial, Lap(initial, r.counterStep, r.counterWrapAfter) + 1 + q) ==
      Climb(r.counterWrapTo, r.counterStep, q % (lap + 1))
  {
    hide Climb, Lap;
  }

  lemma StoredStep(r: RuleRequest, initial: U32, k: nat)
    requires Acceptable(r) && r.kind.Counter?
    ensures StoredAfter(r, initial, 0) == initial
    ensures var v := StoredAfter(r, initial, k);
      StoredAfter(r, initial, k + 1) ==
        if v >= r.counterWrapAfter then r.counterWrapTo else (v + r.counterStep) % 0x1_0000_0000
  {
  }

  /** A counter that cannot leave 32 bits counts exactly so. */
  lemma {:induction false} CounterGoesRound(r: RuleRequest, initial: U32, k: nat)
    requires Acceptable(r) && r.kind.Counter?
    requires r.counterStep > 0 && r.counterWrapAfter + r.counterStep <= 0x1_0000_0000
    ensures StoredAfter(r, initial, k) == CounterValue(r, initial, k)
  {
    hide Acceptable, Climb, Lap, CounterValue, StoredAfter;
    var lap := Lap(initial, r.counterStep, r.counterWrapAfter);
    if k == 0 {
      StoredStep(r, initial, 0);
      ClimbStep(initial, r.counterStep, 0);
      ValueEarly(r, initial, 0);
    } else {
      CounterGoesRound(r, initial, k - 1);
      if k <= lap + 1 { FirstLap(r, initial, k); } else { LaterLap(r, initial, k); }
    }
  }

  lemma FirstLap(r: RuleRequest, initial: U32, k: nat)
    requires Acceptable(r) && r.kind.Counter?
    requires r.counterStep > 0 && r.counterWrapAfter + r.counterStep <= 0x1_0000_0000
    requires 0 < k <= Lap(initial, r.counterStep, r.counterWrapAfter) + 1
    requires StoredAfter(r, initial, k - 1) == CounterValue(r, initial, k - 1)
    ensures StoredAfter(r, initial, k) == CounterValue(r, initial, k)
  {
    hide Acceptable, Climb, Lap, CounterValue, StoredAfter;
    var lap, step := Lap(initial, r.counterStep, r.counterWrapAfter), r.counterStep;
    StoredStep(r, initial, k - 1);
    ValueEarly(r, initial, k - 1);
    LapReaches(initial, step, r.counterWrapAfter, k - 1);
    ClimbStep(initial, step, k - 1);
    ClimbStep(r.counterWrapTo, step, 0);
    if k <= lap {
      ValueEarly(r, initial, k);
    } else {
      ValueLate(r, initial, 0);
      ModUnique(0, 0, Lap(r.counterWrapTo, step, r.counterWrapAfter) + 1);
    }
  }

  lemma LaterLap(r: RuleRequest, initial: U32, k: nat)
    requires Acceptable(r) && r.kind.Counter?
    requires r.counterStep > 0 && r.counterWrapAfter + r.counterStep <= 0x1_0000_0000
    requires k > Lap(initial, r.counterStep, r.counterWrapAfter) + 1
    requires StoredAfter(r, initial, k - 1) == CounterValue(r, initial, k - 1)
    ensures StoredAfter(r, initial, k) == CounterValue(r, initial, k)
  {
    hide Acceptable, Climb, Lap, CounterValue, StoredAfter;
    var lap, step := Lap(r.counterWrapTo, r.counterStep, r.counterWrapAfter), r.counterStep;
    var q := k - Lap(initial, step, r.counterWrapAfter) - 2;
    StoredStep(r, initial, k - 1);
    ValueLate(r, initial, q);
    ValueLate(r, initial, q + 1);
    NextResidue(q, lap + 1);
    Turn(r.counterWrapTo, step, r.counterWrapAfter, q % (lap + 1));
  }

  /** One step on a lap that starts at `start` */
  lemma Turn(start: nat, step: nat, limit: nat, j: nat)
    requires step > 0 && j <= Lap(start, step, limit)
    ensures Climb(start, step, 0) == start && Climb(start, step, j + 1) == Climb(start, step, j) + step
    ensures j < Lap(start, step, limit) <==> Climb(start, step, j) < limit
    ensures Climb(start, step, j) >= 0
  {
    LapReaches(start, step, limit, j);
    ClimbStep(start, step, j);
    ClimbUp(start, step, 0, j);
  }

  function Climbed(initial: U32, step: U32, k: nat): U32 {
    Climb(initial, step, k) % 0x1_0000_0000
  }

  /** With any parameters: the counter climbs modulo 2^32 as long as it stays below the limit. */
  lemma {:induction false} CounterClimbs(r: RuleRequest, initial: U32, k: nat)
    requires Acceptable(r) && r.kind.Counter?
    requires forall j :: 0 <= j < k ==> Climbed(initial, r.counterStep, j) < r.counterWrapAfter
    ensures StoredAfter(r, initial, k) == Climbed(initial, r.counterStep, k)
  {
    hide Acceptable, StoredAfter, Climbed;
    StoredStep(r, initial, if k > 0 then k - 1 else 0);
    ClimbedStep(initial, r.counterStep, if k > 0 then k - 1 else 0);
    if k > 0 { CounterClimbs(r, initial, k - 1); }
  }

  lemma ClimbedStep(initial: U32, step: U32, j: nat)
    ensures Climbed(initial, step, 0) == initial
    ensures Climbed(initial, step, j + 1) == (Climbed(initial, step, j) + step) % 0x1_0000_0000
  {
    hide Climb;
    ClimbStep(initial, step, j);
    ClimbStep(initial, step, 0);
    AddModulo(Climb(initial, step, j), step);
  }

  lemma AddModulo(x: int, step: nat)
    ensures (x % 0x1_0000_0000 + step) % 0x1_0000_0000 == (x + step) % 0x1_0000_0000
  {
  }

  /** And a value at or above the limit is followed by the restart value and what follows that. */
  lemma {:induction false} CounterRestarts(r: RuleRequest, initial: U32, m: nat, k: nat)
    requires Acceptable(r) && r.kind.Counter?
    requires StoredAfter(r, initial, m) >= r.counterWrapAfter
    ensures StoredAfter(r, initial, m + 1 + k) == StoredAfter(r, r.counterWrapTo, k)
  {
    if k > 0 { CounterRestarts(r, initial, m, k - 1); }
  }
}
