/** The active table: rules stored group by group, groups found through hash chains, and the
    compiler that fills it (`ensureGroup`, `findGroup` and the compile part of `applyCommit`,
    core/mutation_engine.cpp). */
module RuleTable {
  import opened Types
  import opened Rules
  import opened CompileSpec

  const BUCKETS := 128

  /** Nothing below depends on which hash is used, only on every user applying the same one. */
  type Hash = RuleKey -> nat

  ghost predicate Spreads(hash: Hash) {
    forall key :: hash(key) < BUCKETS
  }

  function Bucket(key: RuleKey): nat {
    IdHash(key.canId, key.direction) % BUCKETS
  }

  datatype RuleGroup = RuleGroup(key: RuleKey, firstRule: nat, ruleCount: nat, next: int)

  function KeysOf(groups: seq<RuleGroup>): (r: seq<RuleKey>)
    ensures |r| == |groups|
  {
    seq(|groups|, i requires 0 <= i < |groups| => groups[i].key)
  }

  /** The last of the first `n` keys that falls into bucket `b`, or -1. */
  function LastInBucket(hash: Hash, keys: seq<RuleKey>, n: nat, b: nat): (r: int)
    requires n <= |keys|
    ensures -1 <= r < n
    ensures r >= 0 ==> hash(keys[r]) == b
    ensures forall j :: r < j < n ==> hash(keys[j]) != b
  {
    if n == 0 then -1
    else if hash(keys[n - 1]) == b then n - 1 else LastInBucket(hash, keys, n - 1, b)
  }

  lemma {:induction false} LastInBucketPrefix(hash: Hash, keys: seq<RuleKey>, more: seq<RuleKey>, n: nat, b: nat)
    requires n <= |keys| && keys <= more
    ensures LastInBucket(hash, more, n, b) == LastInBucket(hash, keys, n, b)
  {
    if n > 0 { LastInBucketPrefix(hash, keys, more, n - 1, b); }
  }

  /** Each bucket chains its groups from the newest to the oldest, so links strictly decrease. */
  ghost predicate ChainsOk(hash: Hash, gs: seq<RuleGroup>, heads: seq<int>) {
    && |heads| == BUCKETS
    && (forall i, k :: 0 <= i < k < |gs| ==> gs[i].key != gs[k].key)
    && (forall b {:trigger heads[b]} :: 0 <= b < BUCKETS ==> heads[b] == LastInBucket(hash, KeysOf(gs), |gs|, b))
    && (forall g {:trigger gs[g].next} :: 0 <= g < |gs| ==>
          gs[g].next == LastInBucket(hash, KeysOf(gs), g, hash(gs[g].key)))
  }

  /** `gs` with one more rule counted in group `g` */
  function Grown(gs: seq<RuleGroup>, g: nat): seq<RuleGroup>
    requires g < |gs|
  {
    gs[g := gs[g].(ruleCount := gs[g].ruleCount + 1)]
  }

  /** `mid` is `gs`, with an empty group for `key` at the end if it was missing. */
  ghost predicate Ensured(gs: seq<RuleGroup>, mid: seq<RuleGroup>, key: RuleKey) {
    if key in KeysOf(gs) then mid == gs
    else |mid| == |gs| + 1 && mid[..|gs|] == gs &&
         mid[|gs|].key == key && mid[|gs|].firstRule == mid[|gs|].ruleCount == 0
  }

  /** Prepending a new key to its bucket keeps every chain. */
  lemma KeysOfMore(gs: seq<RuleGroup>, g: RuleGroup)
    ensures KeysOf(gs + [g]) == KeysOf(gs) + [g.key]
    ensures g.key !in KeysOf(gs) ==> forall i :: 0 <= i < |gs| ==> gs[i].key != g.key
  {
    forall i | 0 <= i < |gs| ensures gs[i].key in KeysOf(gs) { assert KeysOf(gs)[i] == gs[i].key; }
  }

  lemma LastInMore(hash: Hash, keys: seq<RuleKey>, key: RuleKey, b: nat)
    ensures LastInBucket(hash, keys + [key], |keys| + 1, b) ==
      if hash(key) == b then |keys| else LastInBucket(hash, keys, |keys|, b)
  {
    LastInBucketPrefix(hash, keys, keys + [key], |keys|, b);
  }

  lemma ChainsExtend(hash: Hash, gs: seq<RuleGroup>, heads: seq<int>, key: RuleKey, first: nat, count: nat)
    requires ChainsOk(hash, gs, heads) && key !in KeysOf(gs) && Spreads(hash)
    ensures var b := hash(key);
      ChainsOk(hash, gs + [RuleGroup(key, first, count, heads[b])], heads[b := |gs|])
  {
    hide LastInBucket, KeysOf;
    var b := hash(key);
    var more := gs + [RuleGroup(key, first, count, heads[b])];
    var keys := KeysOf(gs);
    KeysOfMore(gs, RuleGroup(key, first, count, heads[b]));
    var newHeads := heads[b := |gs|];
    forall c | 0 <= c < BUCKETS ensures newHeads[c] == LastInBucket(hash, KeysOf(more), |more|, c) {
      LastInMore(hash, keys, key, c);
    }
    forall h | 0 <= h < |more|
      ensures more[h].next == LastInBucket(hash, KeysOf(more), h, hash(more[h].key))
    {
      LastInBucketPrefix(hash, keys, KeysOf(more), h, hash(more[h].key));
      assert h < |gs| ==> gs[h].next == more[h].next;
    }
  }

  lemma Members(gs: seq<RuleGroup>, key: RuleKey)
    ensures key in KeysOf(gs) <==> exists g :: 0 <= g < |gs| && gs[g].key == key
  {
    assert forall g :: 0 <= g < |gs| ==> KeysOf(gs)[g] == gs[g].key;
  }

  lemma LastSkips(hash: Hash, keys: seq<RuleKey>, n: nat, key: RuleKey)
    requires n <= |keys|
    ensures var g := LastInBucket(hash, keys, n, hash(key));
      && (g >= 0 ==> hash(keys[g]) == hash(key))
      && forall j :: g < j < n ==> keys[j] != key
  {
    var g := LastInBucket(hash, keys, n, hash(key));
    forall j | g < j < n ensures keys[j] != key {
      assert hash(keys[j]) != hash(key);
    }
  }

  /** Following one link skips only groups that cannot match. */
  lemma ChainStep(hash: Hash, gs: seq<RuleGroup>, heads: seq<int>, n: nat, g: nat, key: RuleKey)
    requires ChainsOk(hash, gs, heads) && n <= |gs|
    requires g == LastInBucket(hash, KeysOf(gs), n, hash(key))
    ensures gs[g].next == LastInBucket(hash, KeysOf(gs), g, hash(key))
    ensures forall j :: g < j < n ==> gs[j].key != key
  {
    var keys := KeysOf(gs);
    LastSkips(hash, keys, n, key);
    assert keys[g] == gs[g].key;
    assert forall j :: g < j < n ==> keys[j] == gs[j].key;
  }

  /** Follow a chain from group `g` to the group of `key`, or to its end. Links that do not
      decrease would end the search; in a table there are none. */
  function Search(gs: seq<RuleGroup>, g: int, key: RuleKey): (r: int)
    requires -1 <= g < |gs|
    ensures -1 <= r <= g && (r >= 0 ==> gs[r].key == key)
  {
    if g < 0 || gs[g].key == key then g
    else if -1 <= gs[g].next < g then Search(gs, gs[g].next, key) else -1
  }

  /** From the newest group of its bucket, a chain leads to a key whenever any group has it. */
  lemma {:induction false} SearchFinds(hash: Hash, gs: seq<RuleGroup>, heads: seq<int>, n: nat, key: RuleKey)
    requires ChainsOk(hash, gs, heads) && n <= |gs|
    ensures var r := Search(gs, LastInBucket(hash, KeysOf(gs), n, hash(key)), key);
      r < 0 ==> forall j :: 0 <= j < n ==> gs[j].key != key
    decreases n
  {
    var g := LastInBucket(hash, KeysOf(gs), n, hash(key));
    if g < 0 {
      LastSkips(hash, KeysOf(gs), n, key);
      assert forall j :: 0 <= j < n ==> KeysOf(gs)[j] == gs[j].key;
    } else if gs[g].key != key {
      ChainStep(hash, gs, heads, n, g, key);
      SearchFinds(hash, gs, heads, g, key);
    }
  }

  /** Counts and starts may change without touching the chains. */
  lemma ChainsIgnoreCounts(hash: Hash, gs: seq<RuleGroup>, hs: seq<RuleGroup>, heads: seq<int>)
    requires ChainsOk(hash, gs, heads) && |hs| == |gs|
    requires forall g :: 0 <= g < |gs| ==> hs[g].key == gs[g].key && hs[g].next == gs[g].next
    ensures ChainsOk(hash, hs, heads) && KeysOf(hs) == KeysOf(gs)
  {
    assert KeysOf(hs) == KeysOf(gs);
  }

  // ---------------------------------------------------------------- where groups start

  function Start(a: seq<StagedRule>, keys: seq<RuleKey>, g: nat): nat
    requires g <= |keys|
  {
    if g == 0 then 0 else Start(a, keys, g - 1) + CountKey(a, keys[g - 1])
  }

  lemma {:induction false} StartMonotone(a: seq<StagedRule>, keys: seq<RuleKey>, g: nat, h: nat)
    requires g < h <= |keys|
    ensures Start(a, keys, g) + CountKey(a, keys[g]) <= Start(a, keys, h)
  {
    if g + 1 < h { StartMonotone(a, keys, g, h - 1); }
  }

  lemma {:induction false} StartStep(a: seq<StagedRule>, j: nat, keys: seq<RuleKey>, g: nat)
    requires j < |a| && g <= |keys|
    requires forall i, k :: 0 <= i < k < |keys| ==> keys[i] != keys[k]
    ensures Start(a[..j + 1], keys, g) ==
      Start(a[..j], keys, g) + (if a[j].request.Key() in keys[..g] then 1 else 0)
  {
    if g > 0 {
      StartStep(a, j, keys, g - 1);
      CountKeyStep(a, j, keys[g - 1]);
      assert keys[..g] == keys[..g - 1] + [keys[g - 1]];
    }
  }

  lemma {:induction false} StartPrefix(a: seq<StagedRule>, keys: seq<RuleKey>, more: seq<RuleKey>, g: nat)
    requires g <= |keys| && keys <= more
    ensures Start(a, more, g) == Start(a, keys, g)
  {
    if g > 0 { StartPrefix(a, keys, more, g - 1); }
  }

  lemma {:induction false} KeysOfAuthored(a: seq<StagedRule>, j: nat)
    requires j <= |a|
    ensures var keys := GroupKeys(a[..j]);
      && |keys| <= j
      && (forall i, k :: 0 <= i < k < |keys| ==> keys[i] != keys[k])
    ensures forall key :: key in GroupKeys(a[..j]) <==> CountKey(a[..j], key) > 0
  {
    if j > 0 {
      KeysOfAuthored(a, j - 1);
      GroupKeysStep(a, j - 1);
      forall q { CountKeyStep(a, j - 1, q); }
    }
  }

  /** One more rule moves the end of the last group by one. */
  lemma StartGrows(a: seq<StagedRule>, j: nat, before: seq<RuleKey>, keys: seq<RuleKey>)
    requires j < |a| && Start(a[..j], before, |before|) == j
    requires keys == if a[j].request.Key() in before then before else before + [a[j].request.Key()]
    requires forall i, k :: 0 <= i < k < |keys| ==> keys[i] != keys[k]
    requires a[j].request.Key() !in before ==> CountKey(a[..j], a[j].request.Key()) == 0
    ensures Start(a[..j + 1], keys, |keys|) == j + 1
  {
    hide CountKey;
    StartStep(a, j, keys, |keys|);
    StartPrefix(a[..j], before, keys, |before|);
    assert keys[..|keys|] == keys;
    assert a[j].request.Key() in keys by {
      assert a[j].request.Key() !in before ==> keys[|before|] == a[j].request.Key();
    }
  }

  lemma StartNone(a: seq<StagedRule>)
    ensures Start(a[..0], GroupKeys(a[..0]), |GroupKeys(a[..0])|) == 0
  {
    assert a[..0] == [];
  }

  lemma {:induction false} StartTotal(a: seq<StagedRule>, j: nat)
    requires j <= |a|
    ensures Start(a[..j], GroupKeys(a[..j]), |GroupKeys(a[..j])|) == j
  {
    hide CountKey, GroupKeys, Start;
    if j == 0 {
      StartNone(a);
    } else {
      StartTotal(a, j - 1);
      KeysOfAuthored(a, j);
      KeysOfAuthored(a, j - 1);
      GroupKeysStep(a, j - 1);
      StartGrows(a, j - 1, GroupKeys(a[..j - 1]), GroupKeys(a[..j]));
    }
  }

  /** Everything placed so far is the beginning of the final kind order. */
  lemma {:induction false} PlacedPrefix(a: seq<StagedRule>, k: nat, j: nat)
    requires k <= LAST_RANK && j <= |a|
    ensures Placed(a, k, j) <= KindSorted(a)
    decreases LAST_RANK - k, |a| - j
  {
    hide ByKind;
    if j < |a| {
      PlacedStep(a, k, j);
      PlacedPrefix(a, k, j + 1);
    } else if k < LAST_RANK {
      NextRank(a, k);
      PlacedPrefix(a, k + 1, 0);
    }
  }

  lemma NextRank(a: seq<StagedRule>, k: nat)
    ensures Placed(a, k + 1, 0) == Placed(a, k, |a|)
  {}

  /** Every placed rule is an authored rule, and there is room for it in its group. */
  lemma RoomForNext(a: seq<StagedRule>, k: nat, j: nat)
    requires k <= LAST_RANK && j < |a| && Rank(a[j].request.kind) == k
    ensures |ForKey(Numbered(Placed(a, k, j)), a[j].request.Key())| < CountKey(a, a[j].request.Key())
  {
    var key := a[j].request.Key();
    var now, full := Numbered(Placed(a, k, j + 1)), Numbered(KindSorted(a));
    PlacedStep(a, k, j);
    NumberedStep(Placed(a, k, j), a[j]);
    ForKeyStep(Numbered(Placed(a, k, j)), Entry(a[j], |Placed(a, k, j)|), key);
    PlacedPrefix(a, k, j + 1);
    assert now == full[..|now|];
    ForKeyMonotone(full, |now|, key);
    GroupSize(a, key);
  }

  lemma {:induction false} PlacedSize(a: seq<StagedRule>, j: nat)
    requires j <= |a|
    ensures |KindSorted(a[..j])| == j
  {
    var b := a[..j];
    if j > 0 {
      PlacedSize(a, j - 1);
      assert a[..j - 1] == b[..j - 1];
      PlacedGrows(b, LAST_RANK);
    } else {
      PlacedEmpty(LAST_RANK);
    }
  }

  lemma {:induction false} PlacedEmpty(k: nat)
    ensures Placed([], k, 0) == []
  {
    if k > 0 { PlacedEmpty(k - 1); }
  }

  lemma ByKindGrows(a: seq<StagedRule>, k: nat)
    requires a != []
    ensures |ByKind(a, k)| == |ByKind(a[..|a| - 1], k)| + (if Rank(a[|a| - 1].request.kind) == k then 1 else 0)
  {
  }

  lemma PlacedSplits(a: seq<StagedRule>, k: nat)
    ensures |Placed(a, k, |a|)| == (if k == 0 then 0 else |Placed(a, k - 1, |a|)|) + |ByKind(a, k)|
  {
    hide ByKind;
    assert a[..|a|] == a;
  }

  lemma {:induction false} PlacedGrows(a: seq<StagedRule>, k: nat)
    requires a != []
    ensures |Placed(a, k, |a|)| ==
      |Placed(a[..|a| - 1], k, |a| - 1)| + (if Rank(a[|a| - 1].request.kind) <= k then 1 else 0)
  {
    hide ByKind, Placed, Rank;
    PlacedSplits(a, k);
    PlacedSplits(a[..|a| - 1], k);
    ByKindGrows(a, k);
    if k > 0 { PlacedGrows(a, k - 1); }
  }

  // ---------------------------------------------------------------- the table

  class ActiveRuleTable {
    var ruleCount: nat
    var groupCount: nat
    const hash: Hash
    const rules: array<CompiledRule>
    const groups: array<RuleGroup>
    const bucketHead: array<int>

    ghost predicate Shaped()
      reads this
    {
      && rules.Length == MAX_RULES && groups.Length == MAX_RULES && bucketHead.Length == BUCKETS
      && groupCount <= MAX_RULES && ruleCount <= MAX_RULES && Spreads(hash)
    }

    function Keys(): seq<RuleKey>
      requires Shaped()
      reads this, groups
    {
      KeysOf(groups[..groupCount])
    }

    ghost predicate Chained()
      reads this, groups, bucketHead
    {
      Shaped() && ChainsOk(hash, groups[..groupCount], bucketHead[..])
    }

    constructor ()
      ensures Chained() && fresh(rules) && fresh(groups) && fresh(bucketHead)
      ensures ruleCount == 0 && groupCount == 0 && hash == Bucket
    {
      hash := Bucket;
      ruleCount, groupCount := 0, 0;
      rules := new CompiledRule[MAX_RULES];
      groups := new RuleGroup[MAX_RULES];
      bucketHead := new int[BUCKETS](_ => -1);
    }

    method Clear()
      requires Shaped()
      modifies this, bucketHead
      ensures Chained() && ruleCount == 0 && groupCount == 0
    {
      ruleCount, groupCount := 0, 0;
      forall b | 0 <= b < BUCKETS { bucketHead[b] := -1; }
    }

    /** The group of a key, or -1 when no rule has it. */
    method FindGroup(key: RuleKey) returns (g: int)
      requires Chained()
      ensures -1 <= g < groupCount
      ensures g >= 0 ==> groups[g].key == key
      ensures g >= 0 <==> key in Keys()
    {
      g := bucketHead[hash(key)];
      ghost var gs := groups[..groupCount];
      ghost var found := Search(gs, g, key);
      while g >= 0 && groups[g].key != key
        invariant -1 <= g < groupCount && Search(gs, g, key) == found
      {
        assert gs[g].next < g;
        g := groups[g].next;
      }
      SearchFinds(hash, gs, bucketHead[..], groupCount, key);
      Members(gs, key);
    }

    /** `++group->rule_count` */
    method Grow(g: nat)
      requires Chained() && g < groupCount
      modifies groups
      ensures Chained()
      ensures groups[..groupCount] == Grown(old(groups[..groupCount]), g)
    {
      ghost var gs := groups[..groupCount];
      groups[g] := groups[g].(ruleCount := groups[g].ruleCount + 1);
      ghost var hs := groups[..groupCount];
      assert hs == Grown(gs, g);
      ChainsIgnoreCounts(hash, gs, hs, bucketHead[..]);
    }

    /** `ensureGroup`: find the group or append an empty one; -1 when the table is full. */
    method EnsureGroup(key: RuleKey) returns (g: int)
      requires Chained()
      modifies this`groupCount, groups, bucketHead
      ensures Chained()
      ensures old(groupCount) < MAX_RULES || key in old(Keys()) ==>
        && Ensured(old(groups[..groupCount]), groups[..groupCount], key)
        && 0 <= g < groupCount && groups[g].key == key
      ensures old(groupCount) == MAX_RULES && key !in old(Keys()) ==>
        g == -1 && groupCount == old(groupCount) && groups[..] == old(groups[..])
    {
      g := FindGroup(key);
      if g >= 0 { return; }
      if groupCount >= MAX_RULES { return -1; }
      var b := hash(key);
      ghost var gs, heads := groups[..groupCount], bucketHead[..];
      ChainsExtend(hash, gs, heads, key, 0, 0);
      groups[groupCount] := RuleGroup(key, 0, 0, bucketHead[b]);
      bucketHead[b] := groupCount;
      g := groupCount;
      groupCount := groupCount + 1;
      assert groups[..groupCount] == gs + [RuleGroup(key, 0, 0, heads[b])];
      assert bucketHead[..] == heads[b := g];
      assert Keys() == KeysOf(gs) + [key];
    }
  }

  ghost predicate Compiled(e: Entry, reg: Registry, c: CompiledRule) {
    Acceptable(e.rule.request) && c == CompiledOf(e.rule, e.priority, reg)
  }
}
