/** The frame cache (core/frame_cache.cpp) as a bounded map from (identifier, direction) to the
    updates seen since the key was (re)created, and the probing discipline of its slots. */
module FrameCacheSpec {
  import opened Types

  const SLOTS := 512
  const WORD := 0x1_0000_0000

  datatype FrameKey = FrameKey(canId: U32, direction: Direction)

  /** One call of `update`. */
  datatype Update = Update(frame: CanFrame, mutated: bool, input: Option<CanFrame>, synthetic: bool)
  {
    function Key(): FrameKey { FrameKey(frame.id, frame.direction) }

    /** What the bus delivered: the frame before mutation. */
    function Physical(): CanFrame {
      match input case None => frame case Some(f) => f
    }
  }

  datatype Entry = Entry(
    inUse: bool, key: FrameKey, dlc: nat, data: Payload, inputData: Payload, hasInput: bool, mutated: bool,
    lastTimestampUs: U32, totalFrames: U32,
    physicalAvailable: bool, physicalDlc: nat, physicalData: Payload, physicalTimestampUs: U32, physicalFrames: U32)

  const ZERO: Payload := [0, 0, 0, 0, 0, 0, 0, 0]

  function Created(key: FrameKey): Entry {
    Entry(true, key, 0, ZERO, ZERO, false, false, 0, 0, false, 0, ZERO, 0, 0)
  }

  function ClampDlc(dlc: nat): nat {
    if dlc <= 8 then dlc else 8
  }

  /** The bookkeeping of `update` on an existing entry. */
  function Touched(e: Entry, u: Update): Entry {
    var f := u.frame;
    var live := e.(
      key := u.Key(), dlc := ClampDlc(f.dlc), data := f.data,
      inputData := (match u.input case None => f.data case Some(i) => i.data), hasInput := u.input.Some?,
      mutated := u.mutated, lastTimestampUs := f.timestampUs, totalFrames := (e.totalFrames + 1) % WORD);
    if u.synthetic then live
    else live.(
      physicalAvailable := true, physicalDlc := ClampDlc(u.Physical().dlc), physicalData := u.Physical().data,
      physicalTimestampUs := u.Physical().timestampUs, physicalFrames := (e.physicalFrames + 1) % WORD)
  }

  /** The entry of a key after the updates since its creation. */
  function EntryOf(key: FrameKey, history: seq<Update>): Entry {
    if history == [] then Created(key) else Touched(EntryOf(key, history[..|history| - 1]), history[|history| - 1])
  }

  // ---------------------------------------------------------------- what reads return

  datatype Snapshot = Snapshot(
    key: FrameKey, dlc: nat, data: Payload, inputData: Payload, hasInput: bool, mutated: bool,
    timestampUs: U32, frames: U32)

  function LiveView(e: Entry): Snapshot {
    Snapshot(e.key, e.dlc, e.data, e.inputData, e.hasInput, e.mutated, e.lastTimestampUs, e.totalFrames)
  }

  function PhysicalView(e: Entry): Option<Snapshot> {
    if e.physicalAvailable then
      Some(Snapshot(e.key, e.physicalDlc, e.physicalData, e.physicalData, false, false,
                    e.physicalTimestampUs, e.physicalFrames))
    else None
  }

  /** The updates that came from the bus. */
  function BusUpdates(history: seq<Update>): (r: seq<Update>)
    ensures |r| <= |history|
  {
    if history == [] then []
    else BusUpdates(history[..|history| - 1]) +
         (if history[|history| - 1].synthetic then [] else [history[|history| - 1]])
  }

  ghost predicate OfKey(key: FrameKey, history: seq<Update>) {
    forall i :: 0 <= i < |history| ==> history[i].Key() == key
  }

  lemma IncWraps(n: nat)
    ensures (n % WORD + 1) % WORD == (n + 1) % WORD
  {
  }

  lemma TouchedCounts(e: Entry, u: Update)
    ensures var t := Touched(e, u);
      && t.inUse == e.inUse && t.key == u.Key() && t.totalFrames == (e.totalFrames + 1) % WORD
      && t.physicalAvailable == (e.physicalAvailable || !u.synthetic)
      && t.physicalFrames == (if u.synthetic then e.physicalFrames else (e.physicalFrames + 1) % WORD)
  {
  }

  lemma {:induction false} EntryFacts(key: FrameKey, history: seq<Update>)
    requires OfKey(key, history)
    ensures var e := EntryOf(key, history);
      && e.inUse && e.key == key && e.totalFrames == |history| % WORD
      && (e.physicalAvailable <==> BusUpdates(history) != [])
      && e.physicalFrames == |BusUpdates(history)| % WORD
  {
    hide Touched;
    if history != [] {
      var before, u := history[..|history| - 1], history[|history| - 1];
      EntryFacts(key, before);
      IncWraps(|before|);
      IncWraps(|BusUpdates(before)|);
      assert u.Key() == key;
      TouchedCounts(EntryOf(key, before), u);
    }
  }

  /** `read` shows the last update since the key was created, synthetic or not. */
  lemma ReadIsLastUpdate(key: FrameKey, history: seq<Update>)
    requires OfKey(key, history) && history != []
    ensures var u := history[|history| - 1];
      LiveView(EntryOf(key, history)) ==
        Snapshot(key, if u.frame.dlc <= 8 then u.frame.dlc else 8, u.frame.data,
                 (match u.input case None => u.frame.data case Some(i) => i.data), u.input.Some?,
                 u.mutated, u.frame.timestampUs, |history| % WORD)
  {
    EntryFacts(key, history);
  }

  /** `readPhysical` shows the last frame the bus delivered, as it was before any mutation, whatever
      synthetic updates came between or after, and nothing when there was none. */
  lemma {:induction false} ReadPhysicalIsLastBusFrame(key: FrameKey, history: seq<Update>)
    requires OfKey(key, history)
    ensures PhysicalView(EntryOf(key, history)) ==
      if BusUpdates(history) == [] then None
      else
        var u := BusUpdates(history)[|BusUpdates(history)| - 1];
        var f := if u.input.Some? then u.input.value else u.frame;
        Some(Snapshot(key, if f.dlc <= 8 then f.dlc else 8, f.data, f.data, false, false, f.timestampUs,
                      |BusUpdates(history)| % WORD))
  {
    EntryFacts(key, history);
    if history != [] && history[|history| - 1].synthetic {
      ReadPhysicalIsLastBusFrame(key, history[..|history| - 1]);
      EntryFacts(key, history[..|history| - 1]);
    }
  }

  // ---------------------------------------------------------------- slots

  type Hash = FrameKey -> nat

  /** The slot `p` probes after the key's first one. */
  function Probed(hash: Hash, key: FrameKey, p: nat): (r: nat)
    ensures r < SLOTS
  {
    (hash(key) + p) % SLOTS
  }

  type Keys = s: seq<Option<FrameKey>> | |s| == SLOTS witness seq(SLOTS, _ => None)

  /** The first probe that finds the key or a free slot; 512 when there is neither. */
  function FirstHit(keys: Keys, hash: Hash, key: FrameKey, p: nat): (r: nat)
    requires p <= SLOTS
    ensures p <= r <= SLOTS
    ensures r < SLOTS ==> keys[Probed(hash, key, r)] == None || keys[Probed(hash, key, r)] == Some(key)
    ensures forall q :: p <= q < r ==> keys[Probed(hash, key, q)].Some? && keys[Probed(hash, key, q)] != Some(key)
    decreases SLOTS - p
  {
    if p == SLOTS || keys[Probed(hash, key, p)] == None || keys[Probed(hash, key, p)] == Some(key) then p
    else FirstHit(keys, hash, key, p + 1)
  }

  /** `findOrCreate`: the slot that an update of `key` uses. */
  function Target(keys: Keys, hash: Hash, key: FrameKey, cursor: nat): (r: nat)
    requires cursor < SLOTS
    ensures r < SLOTS
  {
    var p := FirstHit(keys, hash, key, 0);
    if p < SLOTS then Probed(hash, key, p) else cursor
  }

  /** The probe loop meets neither the key nor a free slot. */
  predicate Evicts(keys: Keys, hash: Hash, key: FrameKey) {
    FirstHit(keys, hash, key, 0) == SLOTS
  }

  /** The eviction cursor moves on by one with every eviction, and only then. */
  function NextCursor(keys: Keys, hash: Hash, key: FrameKey, cursor: nat): (r: nat)
    requires cursor < SLOTS
    ensures r < SLOTS
  {
    if Evicts(keys, hash, key) then (cursor + 1) % SLOTS else cursor
  }

  /** How many probes after its first slot `i` is reached. */
  function Distance(hash: Hash, key: FrameKey, i: nat): (d: nat)
    requires i < SLOTS
    ensures d < SLOTS && Probed(hash, key, d) == i
  {
    (i + SLOTS - hash(key) % SLOTS) % SLOTS
  }

  ghost predicate DistinctKeys(keys: Keys) {
    forall i, j :: 0 <= i < j < SLOTS && keys[i].Some? ==> keys[i] != keys[j]
  }

  /** Every probe before the one that reaches a stored key meets a used slot. */
  ghost predicate PathsUsed(keys: Keys, hash: Hash) {
    forall i, q :: 0 <= i < SLOTS && keys[i].Some? && 0 <= q < Distance(hash, keys[i].value, i) ==>
      keys[Probed(hash, keys[i].value, q)].Some?
  }

  /** Probing for a stored key ends at its slot. */
  lemma StoredIsFound(keys: Keys, hash: Hash, i: nat, cursor: nat)
    requires DistinctKeys(keys) && PathsUsed(keys, hash) && i < SLOTS && keys[i].Some? && cursor < SLOTS
    ensures Target(keys, hash, keys[i].value, cursor) == i
  {
    hide FirstHit, Probed;
    var key := keys[i].value;
    var p := FirstHit(keys, hash, key, 0);
    var d := Distance(hash, key, i);
    assert keys[Probed(hash, key, d)] == Some(key);
    if p < d { assert keys[Probed(hash, key, p)].Some?; }
  }

  /** Probing for an absent key ends at a free slot, or nowhere when every slot is used. */
  lemma AbsentGetsFree(keys: Keys, hash: Hash, key: FrameKey, cursor: nat)
    requires Some(key) !in keys && cursor < SLOTS
    ensures var t := Target(keys, hash, key, cursor);
      keys[t] == None || (t == cursor && forall i :: 0 <= i < SLOTS ==> keys[i].Some?)
  {
    var p := FirstHit(keys, hash, key, 0);
    if p == SLOTS {
      forall i | 0 <= i < SLOTS ensures keys[i].Some? {
        assert keys[Probed(hash, key, Distance(hash, key, i))].Some?;
      }
    } else {
      assert keys[Probed(hash, key, p)] != Some(key);
    }
  }

  /** Storing a key in its target slot keeps keys distinct and paths used, with or without eviction. */
  lemma StoreKeeps(keys: Keys, hash: Hash, key: FrameKey, cursor: nat)
    requires DistinctKeys(keys) && PathsUsed(keys, hash) && cursor < SLOTS
    ensures var t := Target(keys, hash, key, cursor);
      DistinctKeys(keys[t := Some(key)]) && PathsUsed(keys[t := Some(key)], hash)
  {
    var t := Target(keys, hash, key, cursor);
    if Some(key) in keys {
      var i :| 0 <= i < SLOTS && keys[i] == Some(key);
      StoredIsFound(keys, hash, i, cursor);
      assert keys[t := Some(key)] == keys;
    } else {
      AbsentGetsFree(keys, hash, key, cursor);
      NewKeyPaths(keys, hash, key, cursor);
    }
  }

  lemma NewKeyPaths(keys: Keys, hash: Hash, key: FrameKey, cursor: nat)
    requires PathsUsed(keys, hash) && cursor < SLOTS && Some(key) !in keys
    ensures PathsUsed(keys[Target(keys, hash, key, cursor) := Some(key)], hash)
  {
    var t := Target(keys, hash, key, cursor);
    var after := keys[t := Some(key)];
    AbsentGetsFree(keys, hash, key, cursor);
    var p := FirstHit(keys, hash, key, 0);
    if p < SLOTS { SameProbe(hash, key, p, Distance(hash, key, t)); }
    forall i, q | 0 <= i < SLOTS && after[i].Some? && 0 <= q < Distance(hash, after[i].value, i)
      ensures after[Probed(hash, after[i].value, q)].Some?
    {
      if i == t {
        assert p == SLOTS || keys[Probed(hash, key, q)].Some?;
      } else {
        assert keys[Probed(hash, keys[i].value, q)].Some?;
      }
    }
  }

  lemma SameProbe(hash: Hash, key: FrameKey, p: nat, q: nat)
    requires p < SLOTS && q < SLOTS && Probed(hash, key, p) == Probed(hash, key, q)
    ensures p == q
  {
  }

  // ---------------------------------------------------------------- the bounded map

  type Cache = map<FrameKey, seq<Update>>

  /** An update of a known key extends its history; an unknown key starts one, in place of the key
      whose slot it takes over. */
  function Updated(cache: Cache, keys: Keys, hash: Hash, cursor: nat, u: Update): Cache
    requires cursor < SLOTS
  {
    var key := u.Key();
    var t := Target(keys, hash, key, cursor);
    if key in cache then cache[key := cache[key] + [u]]
    else
      match keys[t]
      case None => cache[key := [u]]
      case Some(victim) => (cache - {victim})[key := [u]]
  }

  // ---------------------------------------------------------------- round-robin eviction

  /** The slots' keys and the cursor. */
  datatype Table = Table(keys: Keys, cursor: nat)

  function Stored(t: Table, hash: Hash, key: FrameKey): (r: Table)
    requires t.cursor < SLOTS
    ensures r.cursor < SLOTS
  {
    Table(t.keys[Target(t.keys, hash, key, t.cursor) := Some(key)], NextCursor(t.keys, hash, key, t.cursor))
  }

  /** The table after updates of the given keys, in order. */
  function StoredAll(t: Table, hash: Hash, ks: seq<FrameKey>): (r: Table)
    requires t.cursor < SLOTS
    ensures r.cursor < SLOTS
  {
    if ks == [] then t else Stored(StoredAll(t, hash, ks[..|ks| - 1]), hash, ks[|ks| - 1])
  }

  /** The slots that those updates take over from other keys, in order. */
  function Victims(t: Table, hash: Hash, ks: seq<FrameKey>): seq<nat>
    requires t.cursor < SLOTS
  {
    if ks == [] then []
    else
      var before, key := StoredAll(t, hash, ks[..|ks| - 1]), ks[|ks| - 1];
      Victims(t, hash, ks[..|ks| - 1]) +
      (if Evicts(before.keys, hash, key) then [Target(before.keys, hash, key, before.cursor)] else [])
  }

  /** The slot that the cursor reaches `k` evictions on. */
  function Turn(cursor: nat, k: nat): nat {
    (cursor + k) % SLOTS
  }

  lemma NextTurn(cursor: nat, k: nat)
    ensures (Turn(cursor, k) + 1) % SLOTS == Turn(cursor, k + 1)
    ensures cursor < SLOTS ==> Turn(cursor, 0) == cursor
  {
    WrapOnce(cursor + k);
  }

  lemma WrapOnce(n: nat)
    ensures (n % SLOTS + 1) % SLOTS == (n + 1) % SLOTS
  {
    var q := n / SLOTS;
    if n % SLOTS == SLOTS - 1 {
      assert n + 1 == SLOTS * (q + 1);
    } else {
      assert n + 1 == SLOTS * q + (n % SLOTS + 1);
    }
  }

  lemma VictimStep(t: Table, hash: Hash, ks: seq<FrameKey>)
    requires t.cursor < SLOTS && ks != []
    ensures var before := StoredAll(t, hash, ks[..|ks| - 1]);
      && before.cursor < SLOTS
      && ((Victims(t, hash, ks) == Victims(t, hash, ks[..|ks| - 1]) + [before.cursor] &&
           StoredAll(t, hash, ks).cursor == (before.cursor + 1) % SLOTS) ||
          (Victims(t, hash, ks) == Victims(t, hash, ks[..|ks| - 1]) &&
           StoredAll(t, hash, ks).cursor == before.cursor))
  {
    hide FirstHit;
  }

  lemma NoVictims(t: Table, hash: Hash)
    requires t.cursor < SLOTS
    ensures Victims(t, hash, []) == [] && StoredAll(t, hash, []) == t
  {
  }

  /** Evictions go round: the k-th one takes the k-th slot from the cursor. */
  lemma {:induction false} RoundRobin(t: Table, hash: Hash, ks: seq<FrameKey>)
    requires t.cursor < SLOTS
    ensures var v := Victims(t, hash, ks);
      && StoredAll(t, hash, ks).cursor == Turn(t.cursor, |v|)
      && forall k :: 0 <= k < |v| ==> v[k] == Turn(t.cursor, k)
  {
    hide StoredAll, Victims, Turn;
    if ks == [] {
      NoVictims(t, hash);
      NextTurn(t.cursor, 0);
    } else {
      RoundRobin(t, hash, ks[..|ks| - 1]);
      VictimStep(t, hash, ks);
      NextTurn(t.cursor, |Victims(t, hash, ks[..|ks| - 1])|);
    }
  }

  /** An update that evicts nothing, or another slot, leaves a stored key where it is. */
  lemma OtherSlotStays(t: Table, hash: Hash, key: FrameKey, i: nat)
    requires t.cursor < SLOTS && i < SLOTS && t.keys[i].Some?
    requires Evicts(t.keys, hash, key) ==> t.cursor != i
    ensures Stored(t, hash, key).keys[i] == t.keys[i]
  {
  }

  /** A stored key keeps its slot until the cursor has come round to it. */
  lemma {:induction false} KeySurvives(t: Table, hash: Hash, ks: seq<FrameKey>, i: nat)
    requires t.cursor < SLOTS && i < SLOTS && t.keys[i].Some?
    requires |Victims(t, hash, ks)| <= (i + SLOTS - t.cursor) % SLOTS
    ensures StoredAll(t, hash, ks).keys[i] == t.keys[i]
  {
    hide FirstHit, Stored, Evicts, Target;
    if ks != [] {
      var init, key := ks[..|ks| - 1], ks[|ks| - 1];
      KeySurvives(t, hash, init, i);
      RoundRobin(t, hash, init);
      OtherSlotStays(StoredAll(t, hash, init), hash, key, i);
    }
  }

  lemma TurnTo(cursor: nat, from: nat, i: nat) returns (k: nat)
    requires i < SLOTS
    ensures from <= k < from + SLOTS && Turn(cursor, k) == i
  {
    k := from + (i + SLOTS - (cursor + from) % SLOTS) % SLOTS;
  }

  lemma TurnsDiffer(cursor: nat, j: nat, k: nat)
    requires j < k < j + SLOTS
    ensures Turn(cursor, j) != Turn(cursor, k)
  {
  }

  /** Any 512 consecutive evictions take every slot exactly once. */
  lemma EverySlotOnce(t: Table, hash: Hash, ks: seq<FrameKey>, from: nat, i: nat)
    requires t.cursor < SLOTS && i < SLOTS && from + SLOTS <= |Victims(t, hash, ks)|
    ensures exists k :: from <= k < from + SLOTS && Victims(t, hash, ks)[k] == i
    ensures forall j, k :: from <= j < k < from + SLOTS ==> Victims(t, hash, ks)[j] != Victims(t, hash, ks)[k]
  {
    hide Victims, StoredAll, Turn;
    RoundRobin(t, hash, ks);
    var v := Victims(t, hash, ks);
    var k := TurnTo(t.cursor, from, i);
    assert v[k] == i;
    forall j, k | from <= j < k < from + SLOTS ensures v[j] != v[k] { TurnsDiffer(t.cursor, j, k); }
  }
}
