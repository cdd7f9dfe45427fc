/** The frame cache itself (core/frame_cache.cpp): a slot array probed from the key's hash, with
    round-robin reuse when it is full. */
module FrameCacheModule {
  import opened Types
  import opened FrameCacheSpec

  const NO_KEY := FrameKey(0, AToB)
  const FREE := Entry(false, NO_KEY, 0, ZERO, ZERO, false, false, 0, 0, false, 0, ZERO, 0, 0)

  function KeyOf(e: Entry): Option<FrameKey> {
    if e.inUse then Some(e.key) else None
  }

  function KeysIn(entries: seq<Entry>): Keys
    requires |entries| == SLOTS
  {
    seq(SLOTS, i requires 0 <= i < SLOTS => KeyOf(entries[i]))
  }

  lemma ProbeStep(entries: seq<Entry>, hash: Hash, key: FrameKey, p: nat)
    requires |entries| == SLOTS
    ensures Probed(hash, key, p) == (hash(key) + p) % SLOTS
    ensures p < SLOTS ==>
      FirstHit(KeysIn(entries), hash, key, p) ==
        var e := entries[(hash(key) + p) % SLOTS];
        if !e.inUse || e.key == key then p else FirstHit(KeysIn(entries), hash, key, p + 1)
    ensures FirstHit(KeysIn(entries), hash, key, SLOTS) == SLOTS
  {
    assert KeysIn(entries)[Probed(hash, key, p)] == KeyOf(entries[(hash(key) + p) % SLOTS]);
  }

  /** Used slots hold exactly the keys of `cache`, each with the entry of its history. */
  ghost predicate Represents(entries: seq<Entry>, cache: Cache)
    requires |entries| == SLOTS
  {
    && (forall i :: 0 <= i < SLOTS && entries[i].inUse ==>
          entries[i].key in cache && entries[i] == EntryOf(entries[i].key, cache[entries[i].key]))
    && (forall key :: key in cache ==> Some(key) in KeysIn(entries))
    && (forall key :: key in cache ==> cache[key] != [] && OfKey(key, cache[key]))
  }

  ghost predicate TableOk(entries: seq<Entry>, cache: Cache, hash: Hash) {
    && |entries| == SLOTS && Represents(entries, cache)
    && DistinctKeys(KeysIn(entries)) && PathsUsed(KeysIn(entries), hash)
  }

  /** A slot update seen through the keys. */
  lemma KeysUpdated(entries: seq<Entry>, t: nat, e: Entry)
    requires |entries| == SLOTS && t < SLOTS && e.inUse
    ensures KeysIn(entries[t := e]) == KeysIn(entries)[t := Some(e.key)]
  {
  }

  lemma AbsentKey(entries: seq<Entry>, cache: Cache, key: FrameKey)
    requires |entries| == SLOTS && Represents(entries, cache)
    ensures key in cache <==> Some(key) in KeysIn(entries)
  {
    if Some(key) in KeysIn(entries) {
      var i :| 0 <= i < SLOTS && KeysIn(entries)[i] == Some(key);
      assert entries[i].inUse && entries[i].key == key;
    }
  }

  /** Touching the stored entry of a known key extends its history. */
  lemma KnownStep(entries: seq<Entry>, cache: Cache, hash: Hash, cursor: nat, u: Update)
    requires TableOk(entries, cache, hash) && cursor < SLOTS && u.Key() in cache
    ensures var t := Target(KeysIn(entries), hash, u.Key(), cursor);
      && entries[t].inUse && entries[t].key == u.Key()
      && TableOk(entries[t := Touched(entries[t], u)], Updated(cache, KeysIn(entries), hash, cursor, u), hash)
  {
    var key, keys := u.Key(), KeysIn(entries);
    var i :| 0 <= i < SLOTS && keys[i] == Some(key);
    StoredIsFound(keys, hash, i, cursor);
    var e, next := Touched(entries[i], u), Updated(cache, keys, hash, cursor, u);
    KeysUpdated(entries, i, e);
    assert keys[i := Some(key)] == keys;
    assert (cache[key] + [u])[..|cache[key]|] == cache[key];
    KnownRepresents(entries, cache, i, key, u);
  }

  lemma NextUpdate(key: FrameKey, history: seq<Update>, u: Update)
    ensures EntryOf(key, history + [u]) == Touched(EntryOf(key, history), u)
  {
    assert (history + [u])[..|history|] == history;
  }

  lemma KnownRepresents(entries: seq<Entry>, cache: Cache, i: nat, key: FrameKey, u: Update)
    requires |entries| == SLOTS && Represents(entries, cache) && DistinctKeys(KeysIn(entries))
    requires i < SLOTS && KeysIn(entries)[i] == Some(key) && u.Key() == key && key in cache
    ensures Represents(entries[i := Touched(entries[i], u)], cache[key := cache[key] + [u]])
  {
    hide EntryOf;
    var e := Touched(entries[i], u);
    var after, next := entries[i := e], cache[key := cache[key] + [u]];
    NextUpdate(key, cache[key], u);
    KeysUpdated(entries, i, e);
    assert KeysIn(after) == KeysIn(entries);
    forall j | 0 <= j < SLOTS && after[j].inUse
      ensures after[j].key in next && after[j] == EntryOf(after[j].key, next[after[j].key])
    {
      if j != i {
        assert KeysIn(entries)[j] == Some(entries[j].key);
        assert entries[j].key != key;
      }
    }
  }

  /** A fresh entry for an unknown key takes a free slot, or the victim's. */
  lemma UnknownStep(entries: seq<Entry>, cache: Cache, hash: Hash, cursor: nat, u: Update)
    requires TableOk(entries, cache, hash) && cursor < SLOTS && u.Key() !in cache
    ensures var t := Target(KeysIn(entries), hash, u.Key(), cursor);
      TableOk(entries[t := Touched(Created(u.Key()), u)], Updated(cache, KeysIn(entries), hash, cursor, u), hash)
  {
    var key, keys := u.Key(), KeysIn(entries);
    var t := Target(keys, hash, key, cursor);
    var e := Touched(Created(key), u);
    AbsentKey(entries, cache, key);
    StoreKeeps(keys, hash, key, cursor);
    KeysUpdated(entries, t, e);
    NewRepresents(entries, cache, t, key, u);
  }

  /** The map after `key` has taken over the slot of `victim`, if there was one. */
  function TakenOver(cache: Cache, victim: Option<FrameKey>, key: FrameKey, u: Update): Cache {
    match victim case None => cache[key := [u]] case Some(v) => (cache - {v})[key := [u]]
  }

  lemma NewRepresents(entries: seq<Entry>, cache: Cache, t: nat, key: FrameKey, u: Update)
    requires |entries| == SLOTS && Represents(entries, cache) && DistinctKeys(KeysIn(entries))
    requires t < SLOTS && u.Key() == key && key !in cache
    ensures Represents(entries[t := Touched(Created(key), u)], TakenOver(cache, KeysIn(entries)[t], key, u))
  {
    hide Touched, EntryOf;
    var e := Touched(Created(key), u);
    var after, next := entries[t := e], TakenOver(cache, KeysIn(entries)[t], key, u);
    FirstUpdate(key, u);
    KeysUpdated(entries, t, e);
    forall j | 0 <= j < SLOTS && after[j].inUse
      ensures after[j].key in next && after[j] == EntryOf(after[j].key, next[after[j].key])
    {
      if j != t { OtherSlot(entries, cache, t, j); }
    }
    forall k | k in next ensures Some(k) in KeysIn(after) { StillStored(entries, cache, t, key, u, k); }
  }

  lemma FirstUpdate(key: FrameKey, u: Update)
    requires u.Key() == key
    ensures Touched(Created(key), u) == EntryOf(key, [u])
    ensures Touched(Created(key), u).inUse && Touched(Created(key), u).key == key
  {
    assert [u][..0] == [];
  }

  lemma OtherSlot(entries: seq<Entry>, cache: Cache, t: nat, j: nat)
    requires |entries| == SLOTS && DistinctKeys(KeysIn(entries)) && t < SLOTS && j < SLOTS && t != j
    requires entries[j].inUse
    ensures KeysIn(entries)[t] != Some(entries[j].key)
  {
    assert KeysIn(entries)[j] == Some(entries[j].key);
    assert KeysIn(entries)[t] == KeyOf(entries[t]);
  }

  lemma StillStored(entries: seq<Entry>, cache: Cache, t: nat, key: FrameKey, u: Update, k: FrameKey)
    requires |entries| == SLOTS && Represents(entries, cache) && t < SLOTS && u.Key() == key
    requires k in TakenOver(cache, KeysIn(entries)[t], key, u)
    ensures Some(k) in KeysIn(entries[t := Touched(Created(key), u)])
  {
    var after := entries[t := Touched(Created(key), u)];
    if k == key {
      assert KeysIn(after)[t] == Some(key);
    } else {
      var j :| 0 <= j < SLOTS && KeysIn(entries)[j] == Some(k);
      assert KeysIn(after)[j] == Some(k);
    }
  }

  /** A slot after `findOrCreate` has chosen it for `key`. */
  function Slot(entries: seq<Entry>, index: nat, key: FrameKey): Entry
    requires index < |entries|
  {
    if KeyOf(entries[index]) == Some(key) then entries[index] else Created(key)
  }

  lemma UpdateStep(entries: seq<Entry>, cache: Cache, hash: Hash, cursor: nat, u: Update)
    requires |entries| == SLOTS && TableOk(entries, cache, hash) && cursor < SLOTS
    ensures var t := Target(KeysIn(entries), hash, u.Key(), cursor);
      TableOk(entries[t := Touched(Slot(entries, t, u.Key()), u)],
              Updated(cache, KeysIn(entries), hash, cursor, u), hash)
  {
    hide Touched, EntryOf, TableOk, Updated;
    if u.Key() in cache {
      KnownStep(entries, cache, hash, cursor, u);
    } else {
      UnknownStep(entries, cache, hash, cursor, u);
      TableAbsent(entries, cache, hash, u.Key());
      assert KeysIn(entries)[Target(KeysIn(entries), hash, u.Key(), cursor)] != Some(u.Key());
    }
  }

  lemma TouchedKeys(entries: seq<Entry>, t: nat, u: Update, hash: Hash, cursor: nat)
    requires |entries| == SLOTS && cursor < SLOTS && t == Target(KeysIn(entries), hash, u.Key(), cursor)
    ensures var after := entries[t := Touched(Slot(entries, t, u.Key()), u)];
      Table(KeysIn(after), NextCursor(KeysIn(entries), hash, u.Key(), cursor)) ==
        Stored(Table(KeysIn(entries), cursor), hash, u.Key())
  {
    hide Target, NextCursor;
    var after := entries[t := Touched(Slot(entries, t, u.Key()), u)];
    assert KeysIn(after) == KeysIn(entries)[t := Some(u.Key())];
  }

  lemma TableAbsent(entries: seq<Entry>, cache: Cache, hash: Hash, key: FrameKey)
    requires TableOk(entries, cache, hash) && key !in cache
    ensures Some(key) !in KeysIn(entries)
  {
    AbsentKey(entries, cache, key);
  }

  class FrameCache {
    const entries: array<Entry>
    const hash: Hash
    var evictionCursor: nat
    ghost var cache: Cache

    ghost predicate Valid()
      reads this, entries
    {
      entries.Length == SLOTS && evictionCursor < SLOTS && TableOk(entries[..], cache, hash)
    }

    constructor ()
      ensures Valid() && cache == map[] && fresh(entries) && evictionCursor == 0
    {
      entries := new Entry[SLOTS](_ => FREE);
      hash := (key: FrameKey) => IdHash(key.canId, key.direction);
      evictionCursor, cache := 0, map[];
    }

    /** The probe loop of `findOrCreate`: the first free or matching entry, or 512. */
    method Probe(key: FrameKey) returns (probe: nat)
      requires entries.Length == SLOTS
      ensures probe == FirstHit(KeysIn(entries[..]), hash, key, 0)
    {
      hide Probed, FirstHit;
      ghost var was, keys := entries[..], KeysIn(entries[..]);
      probe := 0;
      while probe < SLOTS
        invariant probe <= SLOTS && FirstHit(keys, hash, key, 0) == FirstHit(keys, hash, key, probe)
      {
        var index := (hash(key) + probe) % SLOTS;
        ProbeStep(was, hash, key, probe);
        if !entries[index].inUse || entries[index].key == key { return; }
        probe := probe + 1;
      }
      ProbeStep(was, hash, key, SLOTS);
    }

    /** `findOrCreate`: the index of the key's entry, created or taken over if need be. */
    method FindOrCreate(key: FrameKey) returns (index: nat)
      requires entries.Length == SLOTS && evictionCursor < SLOTS
      modifies entries, this`evictionCursor
      ensures index == Target(KeysIn(old(entries[..])), hash, key, old(evictionCursor))
      ensures evictionCursor == NextCursor(KeysIn(old(entries[..])), hash, key, old(evictionCursor))
      ensures entries[..] == old(entries[..])[index := Slot(old(entries[..]), index, key)]
    {
      hide FirstHit;
      ghost var was := entries[..];
      var probe := Probe(key);
      if probe < SLOTS {
        index := (hash(key) + probe) % SLOTS;
        if entries[index].inUse { return; }
      } else {
        index := evictionCursor;
        NoHit(was, hash, key, index);
        evictionCursor := (evictionCursor + 1) % SLOTS;
      }
      entries[index] := Created(key);
      assert entries[..] == was[index := Created(key)];
    }

    /** The keys of the slots and the cursor. */
    ghost function Keyed(): Table
      requires entries.Length == SLOTS
      reads this, entries
    {
      Table(KeysIn(entries[..]), evictionCursor)
    }

    lemma KeyedIs()
      requires entries.Length == SLOTS
      ensures Keyed() == Table(KeysIn(entries[..]), evictionCursor)
    {
    }

    /** `update`; a contended lock skips the sample. */
    method Update(u: Update, locked: bool)
      requires Valid()
      modifies this, entries
      ensures Valid()
      ensures Keyed() == if locked then Stored(old(Keyed()), hash, u.Key()) else old(Keyed())
      ensures cache == if locked then Updated(old(cache), KeysIn(old(entries[..])), hash, old(evictionCursor), u)
                       else old(cache)
    {
      hide *;
      if !locked { return; }
      ghost var was, cursor := entries[..], evictionCursor;
      ValidTable();
      KeyedIs();
      UpdateStep(was, cache, hash, cursor, u);
      cache := Updated(cache, KeysIn(was), hash, cursor, u);
      var index := FindOrCreate(u.Key());
      entries[index] := Touched(entries[index], u);
      assert entries[..] == was[index := Touched(Slot(was, index, u.Key()), u)];
      TouchedKeys(was, index, u, hash, cursor);
      TableValid();
      KeyedIs();
    }

    lemma ValidTable()
      requires Valid()
      ensures entries.Length == SLOTS && evictionCursor < SLOTS && TableOk(entries[..], cache, hash)
    {
    }

    lemma TableValid()
      requires entries.Length == SLOTS && evictionCursor < SLOTS && TableOk(entries[..], cache, hash)
      ensures Valid()
    {
    }

    /** The probe loop shared by `read` and `readPhysical`: unused slots are passed over. */
    method Find(key: FrameKey) returns (index: nat)
      requires Valid()
      ensures index <= SLOTS
      ensures key in cache ==> index < SLOTS && entries[index] == EntryOf(key, cache[key])
      ensures key !in cache ==> index == SLOTS
    {
      ghost var was := entries[..];
      AbsentKey(was, cache, key);
      var probe := 0;
      while probe < SLOTS
        invariant probe <= SLOTS
        invariant forall q :: 0 <= q < probe ==> KeysIn(was)[Probed(hash, key, q)] != Some(key)
      {
        index := (hash(key) + probe) % SLOTS;
        assert KeysIn(was)[Probed(hash, key, probe)] == KeyOf(entries[index]);
        if entries[index].inUse && entries[index].key == key { return; }
        probe := probe + 1;
      }
      AllProbed(KeysIn(was), hash, key);
      index := SLOTS;
    }

    method Read(key: FrameKey, locked: bool) returns (snapshot: Option<Snapshot>)
      requires Valid()
      ensures snapshot == if locked && key in cache then Some(LiveView(EntryOf(key, cache[key]))) else None
    {
      if !locked { return None; }
      var index := Find(key);
      if index == SLOTS { return None; }
      return Some(LiveView(entries[index]));
    }

    method ReadPhysical(key: FrameKey, locked: bool) returns (snapshot: Option<Snapshot>)
      requires Valid()
      ensures snapshot == if locked && key in cache then PhysicalView(EntryOf(key, cache[key])) else None
    {
      if !locked { return None; }
      var index := Find(key);
      if index == SLOTS { return None; }
      return PhysicalView(entries[index]);
    }
  }

  lemma AllProbed(keys: Keys, hash: Hash, key: FrameKey)
    requires forall q :: 0 <= q < SLOTS ==> keys[Probed(hash, key, q)] != Some(key)
    ensures Some(key) !in keys
  {
    forall i | 0 <= i < SLOTS ensures keys[i] != Some(key) {
      assert keys[Probed(hash, key, Distance(hash, key, i))] != Some(key);
    }
  }

  lemma NoHit(entries: seq<Entry>, hash: Hash, key: FrameKey, i: nat)
    requires |entries| == SLOTS && i < SLOTS && FirstHit(KeysIn(entries), hash, key, 0) == SLOTS
    ensures KeyOf(entries[i]).Some? && KeyOf(entries[i]) != Some(key)
  {
    assert KeysIn(entries)[Probed(hash, key, Distance(hash, key, i))] == KeyOf(entries[i]);
  }
}
