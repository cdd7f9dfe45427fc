/** Contents of a ring buffer, read from its tail. */
module Ring {

  /** The slot `k` places behind the tail. */
  function Slot(capacity: nat, tail: nat, k: nat): (r: nat)
    requires 0 < capacity
    ensures r < capacity
  {
    (tail + k) % capacity
  }

  function Contents<T>(slots: seq<T>, tail: nat, n: nat): (r: seq<T>)
    requires 0 < |slots|
    ensures |r| == n
  {
    seq(n, k requires 0 <= k < n => slots[Slot(|slots|, tail, k)])
  }

  lemma SlotsDiffer(capacity: nat, tail: nat, i: nat, j: nat)
    requires tail < capacity && i < j < capacity
    ensures Slot(capacity, tail, i) != Slot(capacity, tail, j)
  {
    Wrap(capacity, tail + i);
    Wrap(capacity, tail + j);
  }

  lemma Wrap(capacity: nat, x: nat)
    requires 0 < capacity && x < 2 * capacity
    ensures x % capacity == if x < capacity then x else x - capacity
  {
    if x >= capacity { ModAdd(x - capacity, capacity); }
  }

  lemma ModAdd(r: nat, capacity: nat)
    requires r < capacity
    ensures (r + capacity) % capacity == r
  {
    assert (r + capacity) / capacity == 1;
  }

  /** Writing behind the last element appends it. */
  lemma Push<T>(slots: seq<T>, tail: nat, n: nat, x: T)
    requires tail < |slots| && n < |slots|
    ensures Contents(slots[Slot(|slots|, tail, n) := x], tail, n + 1) == Contents(slots, tail, n) + [x]
  {
    var more := slots[Slot(|slots|, tail, n) := x];
    forall k | 0 <= k < n ensures Contents(more, tail, n + 1)[k] == Contents(slots, tail, n)[k] {
      SlotsDiffer(|slots|, tail, k, n);
    }
  }

  /** Advancing the tail drops the first element. */
  lemma Pop<T>(slots: seq<T>, tail: nat, n: nat)
    requires tail < |slots| && 0 < n <= |slots|
    ensures Contents(slots, tail, n)[0] == slots[tail]
    ensures Contents(slots, Slot(|slots|, tail, 1), n - 1) == Contents(slots, tail, n)[1..]
  {
    Wrap(|slots|, tail);
    Wrap(|slots|, tail + 1);
    forall k | 0 <= k < n - 1
      ensures Contents(slots, Slot(|slots|, tail, 1), n - 1)[k] == Contents(slots, tail, n)[1..][k]
    {
      Wrap(|slots|, tail + 1 + k);
      Wrap(|slots|, Slot(|slots|, tail, 1) + k);
    }
  }
}
