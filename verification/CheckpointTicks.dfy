/** How a due checkpoint comes to be committed: the ticks of `processCheckpoint` (fs/session_log.cpp)
    while the power is on, as steps on three numbers. */
module CheckpointTicks {

  const SAVE_CHUNK := 4096

  /** Octets in the checkpoint file, the length it aims at (0: none), and the committed length. */
  datatype Standing = Standing(offset: nat, target: nat, committed: nat)

  /** What one tick finds: the length of the capture, and whether a checkpoint is due. */
  datatype Tick = Tick(size: nat, due: bool)

  predicate InStep(c: Standing) {
    c.committed <= c.offset && (c.target != 0 ==> c.offset <= c.target)
  }

  function Chunk(remaining: nat): nat {
    if remaining < SAVE_CHUNK then remaining else SAVE_CHUNK
  }

  function Aim(c: Standing, t: Tick): nat {
    if c.target != 0 then c.target else if t.due && t.size > c.offset then t.size else 0
  }

  /** One chunk towards the target, and the commit when it was the last */
  function Advanced(c: Standing): (next: Standing)
    requires InStep(c) && c.target != 0
    ensures InStep(next) && (next.target == c.target || (next.target == 0 && next.committed == c.target))
  {
    var offset := c.offset + Chunk(c.target - c.offset);
    if offset >= c.target then Standing(offset, 0, offset) else c.(offset := offset)
  }

  /** One tick of a durable recording */
  function Ticked(c: Standing, t: Tick): (next: Standing)
    requires InStep(c)
    ensures InStep(next)
  {
    if Aim(c, t) == 0 then c else Advanced(c.(target := Aim(c, t)))
  }

  function Run(c: Standing, ts: seq<Tick>): (r: Standing)
    requires InStep(c)
    ensures InStep(r)
  {
    if ts == [] then c else Ticked(Run(c, ts[..|ts| - 1]), ts[|ts| - 1])
  }

  /** While a checkpoint is on its way every tick writes 4096 octets, or what is left. */
  lemma {:induction false} OnTheWay(c: Standing, ts: seq<Tick>, j: nat)
    requires InStep(c) && c.target == 0 && ts != [] && ts[0].due && ts[0].size > c.offset && 0 < j <= |ts|
    requires c.offset + SAVE_CHUNK * (j - 1) < ts[0].size
    ensures c.offset + SAVE_CHUNK * j < ts[0].size ==>
      Run(c, ts[..j]) == Standing(c.offset + SAVE_CHUNK * j, ts[0].size, c.committed)
    ensures c.offset + SAVE_CHUNK * j >= ts[0].size ==> Run(c, ts[..j]) == Standing(ts[0].size, 0, ts[0].size)
  {
    assert ts[..j][..j - 1] == ts[..j - 1];
    if j == 1 {
      assert Run(c, ts[..0]) == c;
    } else {
      OnTheWay(c, ts, j - 1);
    }
  }

  /** Later ticks never take a commit back. */
  lemma {:induction false} NeverTakenBack(c: Standing, ts: seq<Tick>, j: nat)
    requires InStep(c) && j <= |ts|
    ensures Run(c, ts[..j]).committed <= Run(c, ts).committed
  {
    if j < |ts| {
      NeverTakenBack(c, ts[..|ts| - 1], j);
      assert ts[..|ts| - 1][..j] == ts[..j];
    } else {
      assert ts[..j] == ts;
    }
  }

  /** What was captured at a due tick is committed after ceil((captured - written) / 4096) ticks, that
      one included, however the capture grows meanwhile; not before, and for good. */
  lemma DueIsCommitted(c: Standing, ts: seq<Tick>)
    requires InStep(c) && c.target == 0 && ts != [] && ts[0].due && ts[0].size > c.offset
    ensures var n, k := ts[0].size, (ts[0].size - c.offset + 4096 - 1) / 4096;
      && k > 0
      && (forall j :: 0 < j < k && j <= |ts| ==>
            Run(c, ts[..j]) == Standing(c.offset + 4096 * j, n, c.committed))
      && (k <= |ts| ==> Run(c, ts[..k]) == Standing(n, 0, n) && n <= Run(c, ts).committed)
  {
    var n, k := ts[0].size, (ts[0].size - c.offset + SAVE_CHUNK - 1) / SAVE_CHUNK;
    forall j | 0 < j <= k && j <= |ts|
      ensures Run(c, ts[..j]) ==
        if j < k then Standing(c.offset + SAVE_CHUNK * j, n, c.committed) else Standing(n, 0, n)
    {
      OnTheWay(c, ts, j);
    }
    if k <= |ts| { NeverTakenBack(c, ts, k); }
  }

  // ---------------------------------------------------------------- the save

  /** The length saved after `k` ticks of the save with the power on */
  function SavedAfter(start: nat, size: nat, k: nat): (n: nat)
    requires start <= size
    ensures n <= size
  {
    if k == 0 then start
    else SavedAfter(start, size, k - 1) + Chunk(size - SavedAfter(start, size, k - 1))
  }

  /** Every capture is saved, by ticks of 4096 octets. */
  lemma {:induction false} SaveReaches(start: nat, size: nat, k: nat)
    requires start <= size
    ensures SavedAfter(start, size, k) == if start + 4096 * k < size then start + 4096 * k else size
  {
    if k > 0 { SaveReaches(start, size, k - 1); }
  }
}
