/** What a commit compiles: the order of the staged rules, and the grouped listing of
    `compile_active_rules` (tools/preview_ui.py), which the firmware's table must reproduce. */
module CompileSpec {
  import opened Types
  import opened Rules

  // ---------------------------------------------------------------- authoring order

  /** (sequence, slot), lexicographically */
  predicate Earlier(a: StagedRule, b: StagedRule) {
    a.sequence < b.sequence || (a.sequence == b.sequence && a.ruleId < b.ruleId)
  }

  /** `ids` lists the used slots, each once, by (sequence, slot). */
  ghost predicate IsOrder(staged: seq<StagedRule>, ids: seq<nat>) {
    && (forall i :: 0 <= i < |ids| ==> ids[i] < |staged| && staged[ids[i]].inUse)
    && (forall s :: 0 <= s < |staged| && staged[s].inUse ==> s in ids)
    && OrderedIds(staged, ids)
  }

  ghost predicate OrderedIds(staged: seq<StagedRule>, ids: seq<nat>) {
    forall i, j :: 0 <= i < j < |ids| ==> Before(staged, ids[i], ids[j])
  }

  predicate Before(staged: seq<StagedRule>, a: nat, b: nat) {
    a < |staged| && b < |staged| &&
    (staged[a].sequence < staged[b].sequence || (staged[a].sequence == staged[b].sequence && a < b))
  }

  /** Sequence number of a slot. */
  function Sequence(staged: seq<StagedRule>, slot: nat): nat {
    if slot < |staged| then staged[slot].sequence else 0
  }

  /** One slot inserted from the right, past every larger sequence number. */
  function InsertSlot(staged: seq<StagedRule>, ids: seq<nat>, slot: nat): seq<nat> {
    if |ids| > 0 && Sequence(staged, ids[|ids| - 1]) > Sequence(staged, slot)
    then InsertSlot(staged, ids[..|ids| - 1], slot) + [ids[|ids| - 1]]
    else ids + [slot]
  }

  function OrderUpTo(staged: seq<StagedRule>, n: nat): seq<nat>
    requires n <= |staged|
  {
    if n == 0 then []
    else if staged[n - 1].inUse then InsertSlot(staged, OrderUpTo(staged, n - 1), n - 1)
    else OrderUpTo(staged, n - 1)
  }

  lemma {:induction false} InsertedSlots(staged: seq<StagedRule>, ids: seq<nat>, slot: nat)
    ensures |InsertSlot(staged, ids, slot)| == |ids| + 1
    ensures forall s :: s in InsertSlot(staged, ids, slot) <==> s == slot || s in ids
  {
    if |ids| > 0 {
      InsertedSlots(staged, ids[..|ids| - 1], slot);
      assert ids == ids[..|ids| - 1] + [ids[|ids| - 1]];
    }
  }

  lemma {:induction false} InsertKeepsOrder(staged: seq<StagedRule>, ids: seq<nat>, slot: nat)
    requires slot < |staged| && forall i :: 0 <= i < |ids| ==> ids[i] < slot
    requires OrderedIds(staged, ids)
    ensures OrderedIds(staged, InsertSlot(staged, ids, slot))
  {
    if |ids| > 0 && Sequence(staged, ids[|ids| - 1]) > Sequence(staged, slot) {
      var init, last := ids[..|ids| - 1], ids[|ids| - 1];
      InsertKeepsOrder(staged, init, slot);
      InsertedSlots(staged, init, slot);
      assert ids == init + [last];
      var r := InsertSlot(staged, init, slot);
      assert InsertSlot(staged, ids, slot) == r + [last];
      forall i | 0 <= i < |r| ensures Before(staged, r[i], last) {
        assert r[i] in r;
        if r[i] != slot {
          var k :| 0 <= k < |init| && init[k] == r[i];
          assert Before(staged, ids[k], ids[|ids| - 1]);
        }
      }
      assert forall i :: 0 <= i < |r| ==> (r + [last])[i] == r[i];
    } else {
      InsertAtEnd(staged, ids, slot);
    }
  }

  lemma InsertAtEnd(staged: seq<StagedRule>, ids: seq<nat>, slot: nat)
    requires slot < |staged| && forall i :: 0 <= i < |ids| ==> ids[i] < slot
    requires OrderedIds(staged, ids)
    requires |ids| > 0 ==> staged[ids[|ids| - 1]].sequence <= staged[slot].sequence
    ensures OrderedIds(staged, ids + [slot])
  {
    forall i | 0 <= i < |ids| ensures Before(staged, ids[i], slot) {
      assert i == |ids| - 1 || Before(staged, ids[i], ids[|ids| - 1]);
    }
  }

  lemma {:induction false} OrderUpToSlots(staged: seq<StagedRule>, n: nat)
    requires n <= |staged|
    ensures |OrderUpTo(staged, n)| <= n
    ensures forall s :: s in OrderUpTo(staged, n) <==> 0 <= s < n && staged[s].inUse
  {
    if n > 0 {
      OrderUpToSlots(staged, n - 1);
      if staged[n - 1].inUse { InsertedSlots(staged, OrderUpTo(staged, n - 1), n - 1); }
    }
  }

  lemma {:induction false} OrderUpToSorted(staged: seq<StagedRule>, n: nat)
    requires n <= |staged|
    ensures OrderedIds(staged, OrderUpTo(staged, n))
  {
    if n > 0 {
      OrderUpToSorted(staged, n - 1);
      OrderUpToSlots(staged, n - 1);
      var ids := OrderUpTo(staged, n - 1);
      forall i | 0 <= i < |ids| ensures ids[i] < n - 1 { assert ids[i] in ids; }
      if staged[n - 1].inUse { InsertKeepsOrder(staged, ids, n - 1); }
    }
  }

  function Order(staged: seq<StagedRule>): seq<nat> {
    OrderUpTo(staged, |staged|)
  }

  /** The insertion sort yields the (sequence, slot) order of the used slots. */
  lemma OrderIsOrder(staged: seq<StagedRule>)
    ensures IsOrder(staged, Order(staged))
  {
    OrderUpToSorted(staged, |staged|);
    OrderUpToSlots(staged, |staged|);
    forall i | 0 <= i < |Order(staged)|
      ensures Order(staged)[i] < |staged| && staged[Order(staged)[i]].inUse
    {
      assert Order(staged)[i] in Order(staged);
    }
  }

  /** The order is determined by the candidate alone. */
  lemma OrderUnique(staged: seq<StagedRule>, a: seq<nat>, b: seq<nat>)
    requires IsOrder(staged, a) && IsOrder(staged, b)
    ensures a == b
  {
    PrefixAgrees(staged, a, b, if |a| < |b| then |a| else |b|);
    if |a| < |b| { Excluded(staged, b, |a|); }
    if |b| < |a| { Excluded(staged, a, |b|); }
  }

  lemma {:induction false} PrefixAgrees(staged: seq<StagedRule>, a: seq<nat>, b: seq<nat>, n: nat)
    requires IsOrder(staged, a) && IsOrder(staged, b) && n <= |a| && n <= |b|
    ensures a[..n] == b[..n]
  {
    if n > 0 {
      PrefixAgrees(staged, a, b, n - 1);
      NextAgrees(staged, a, b, n - 1);
      assert a[..n] == a[..n - 1] + [a[n - 1]] && b[..n] == b[..n - 1] + [b[n - 1]];
    }
  }

  lemma NextAgrees(staged: seq<StagedRule>, a: seq<nat>, b: seq<nat>, k: nat)
    requires IsOrder(staged, a) && IsOrder(staged, b) && k < |a| && k < |b| && a[..k] == b[..k]
    ensures a[k] == b[k]
  {
    hide IsOrder;
    forall i | 0 <= i < k ensures a[i] == b[i] { assert a[i] == a[..k][i] && b[i] == b[..k][i]; }
    FirstNotLater(staged, a, b, k);
    FirstNotLater(staged, b, a, k);
  }

  lemma FirstNotLater(staged: seq<StagedRule>, a: seq<nat>, b: seq<nat>, k: nat)
    requires IsOrder(staged, a) && IsOrder(staged, b) && k < |a| && k < |b|
    requires forall i :: 0 <= i < k ==> a[i] == b[i]
    ensures a[k] == b[k] || Before(staged, a[k], b[k])
  {
    assert b[k] in a;
    assert forall i :: 0 <= i < k ==> Before(staged, b[i], b[k]);
    assert forall m :: k < m < |a| ==> Before(staged, a[k], a[m]);
  }

  lemma Excluded(staged: seq<StagedRule>, ids: seq<nat>, n: nat)
    requires OrderedIds(staged, ids) && n < |ids|
    ensures ids[n] !in ids[..n]
  {
    assert forall m :: 0 <= m < n ==> Before(staged, ids[m], ids[n]);
  }

  /** The used rules in authoring order. */
  function Authored(staged: seq<StagedRule>): seq<StagedRule> {
    OrderIsOrder(staged);
    var ids := Order(staged);
    seq(|ids|, i requires 0 <= i < |ids| => staged[ids[i]])
  }

  // ---------------------------------------------------------------- kind order and grouping

  /** The fixed order in which a frame's rules run. */
  function Rank(k: RuleKind): nat {
    match k
    case BitRange => 0 case RawMask => 1 case Counter => 2
    case Sequence8 => 3 case ChecksumXor => 4 case ChecksumCrc8 => 5
  }

  const LAST_RANK := 5

  function ByKind(a: seq<StagedRule>, k: nat): seq<StagedRule> {
    if a == [] then []
    else ByKind(a[..|a| - 1], k) + (if Rank(a[|a| - 1].request.kind) == k then [a[|a| - 1]] else [])
  }

  /** The rules numbered so far when the compiler has finished ranks below `k` and looked at
      `j` rules for rank `k`. */
  function Placed(a: seq<StagedRule>, k: nat, j: nat): seq<StagedRule>
    requires j <= |a|
  {
    (if k == 0 then [] else Placed(a, k - 1, |a|)) + ByKind(a[..j], k)
  }

  function KindSorted(a: seq<StagedRule>): seq<StagedRule> {
    Placed(a, LAST_RANK, |a|)
  }

  /** A rule with its compile priority. */
  datatype Entry = Entry(rule: StagedRule, priority: nat)
  {
    function Key(): RuleKey { rule.request.Key() }
  }

  function Numbered(s: seq<StagedRule>): (r: seq<Entry>)
    ensures |r| == |s|
  {
    seq(|s|, i requires 0 <= i < |s| => Entry(s[i], i))
  }

  function ForKey(es: seq<Entry>, key: RuleKey): seq<Entry> {
    if es == [] then []
    else ForKey(es[..|es| - 1], key) + (if es[|es| - 1].Key() == key then [es[|es| - 1]] else [])
  }

  /** The keys in the order of their first authored rule. */
  function GroupKeys(a: seq<StagedRule>): seq<RuleKey> {
    if a == [] then []
    else
      var keys := GroupKeys(a[..|a| - 1]);
      var key := a[|a| - 1].request.Key();
      if key in keys then keys else keys + [key]
  }

  function Listing(es: seq<Entry>, keys: seq<RuleKey>): seq<Entry> {
    if keys == [] then []
    else Listing(es, keys[..|keys| - 1]) + ForKey(es, keys[|keys| - 1])
  }

  /** The rules of one key, in the order in which a frame meets them. */
  function RulesFor(a: seq<StagedRule>, key: RuleKey): seq<Entry> {
    ForKey(Numbered(KindSorted(a)), key)
  }

  /** The whole listing of an active table. */
  function ActiveListing(a: seq<StagedRule>): seq<Entry> {
    Listing(Numbered(KindSorted(a)), GroupKeys(a))
  }

  // ---------------------------------------------------------------- steps of the compiler

  lemma PlacedStep(a: seq<StagedRule>, k: nat, j: nat)
    requires j < |a|
    ensures Placed(a, k, j + 1) ==
      Placed(a, k, j) + (if Rank(a[j].request.kind) == k then [a[j]] else [])
  {
    assert a[..j + 1][..j] == a[..j];
  }

  lemma NumberedStep(s: seq<StagedRule>, x: StagedRule)
    ensures Numbered(s + [x]) == Numbered(s) + [Entry(x, |s|)]
  {}

  lemma ForKeyStep(es: seq<Entry>, e: Entry, key: RuleKey)
    ensures ForKey(es + [e], key) == ForKey(es, key) + (if e.Key() == key then [e] else [])
  {
    assert (es + [e])[..|es|] == es;
  }

  lemma GroupKeysStep(a: seq<StagedRule>, j: nat)
    requires j < |a|
    ensures GroupKeys(a[..j + 1]) ==
      if a[j].request.Key() in GroupKeys(a[..j]) then GroupKeys(a[..j])
      else GroupKeys(a[..j]) + [a[j].request.Key()]
  {
    assert a[..j + 1][..j] == a[..j];
  }

  // ---------------------------------------------------------------- counting

  function CountKey(s: seq<StagedRule>, key: RuleKey): nat {
    if s == [] then 0
    else CountKey(s[..|s| - 1], key) + (if s[|s| - 1].request.Key() == key then 1 else 0)
  }

  function CountKeyBelow(s: seq<StagedRule>, key: RuleKey, k: nat): nat {
    if s == [] then 0
    else
      var last := s[|s| - 1].request;
      CountKeyBelow(s[..|s| - 1], key, k) + (if last.Key() == key && Rank(last.kind) < k then 1 else 0)
  }

  lemma CountKeyStep(a: seq<StagedRule>, j: nat, key: RuleKey)
    requires j < |a|
    ensures CountKey(a[..j + 1], key) == CountKey(a[..j], key) + (if a[j].request.Key() == key then 1 else 0)
  {
    assert a[..j + 1][..j] == a[..j];
  }

  lemma {:induction false} CountAppend(s: seq<StagedRule>, t: seq<StagedRule>, key: RuleKey)
    ensures CountKey(s + t, key) == CountKey(s, key) + CountKey(t, key)
  {
    if t == [] {
      assert s + t == s;
    } else {
      CountAppend(s, t[..|t| - 1], key);
      assert (s + t)[..|s + t| - 1] == s + t[..|t| - 1];
    }
  }

  lemma {:induction false} CountRank(a: seq<StagedRule>, key: RuleKey, k: nat)
    ensures CountKeyBelow(a, key, k + 1) == CountKeyBelow(a, key, k) + CountKey(ByKind(a, k), key)
  {
    if a != [] {
      CountRank(a[..|a| - 1], key, k);
      CountAppend(ByKind(a[..|a| - 1], k), if Rank(a[|a| - 1].request.kind) == k then [a[|a| - 1]] else [], key);
    }
  }

  lemma {:induction false} CountPlaced(a: seq<StagedRule>, key: RuleKey, k: nat)
    ensures CountKey(Placed(a, k, |a|), key) == CountKeyBelow(a, key, k + 1)
  {
    assert a[..|a|] == a;
    CountRank(a, key, k);
    if k == 0 {
      CountBelowZero(a, key);
      assert Placed(a, 0, |a|) == ByKind(a, 0);
    } else {
      CountPlaced(a, key, k - 1);
      CountAppend(Placed(a, k - 1, |a|), ByKind(a, k), key);
    }
  }

  lemma {:induction false} CountBelowZero(a: seq<StagedRule>, key: RuleKey)
    ensures CountKeyBelow(a, key, 0) == 0
  {
    if a != [] { CountBelowZero(a[..|a| - 1], key); }
  }

  lemma {:induction false} CountBelowAll(a: seq<StagedRule>, key: RuleKey)
    ensures CountKeyBelow(a, key, LAST_RANK + 1) == CountKey(a, key)
  {
    if a != [] { CountBelowAll(a[..|a| - 1], key); }
  }

  lemma {:induction false} ForKeyCount(s: seq<StagedRule>, key: RuleKey)
    ensures |ForKey(Numbered(s), key)| == CountKey(s, key)
  {
    if s != [] {
      ForKeyCount(s[..|s| - 1], key);
      assert Numbered(s)[..|s| - 1] == Numbered(s[..|s| - 1]);
    }
  }

  /** Sorting by kind loses and invents no rule of any key. */
  lemma GroupSize(a: seq<StagedRule>, key: RuleKey)
    ensures |RulesFor(a, key)| == CountKey(a, key)
  {
    ForKeyCount(KindSorted(a), key);
    CountPlaced(a, key, LAST_RANK);
    CountBelowAll(a, key);
  }

  /** The part of a group that has been placed never exceeds the group. */
  lemma {:induction false} ForKeyMonotone(es: seq<Entry>, n: nat, key: RuleKey)
    requires n <= |es|
    ensures |ForKey(es[..n], key)| <= |ForKey(es, key)|
  {
    if n < |es| {
      ForKeyMonotone(es[..|es| - 1], n, key);
      assert es[..|es| - 1][..n] == es[..n];
    } else {
      assert es[..n] == es;
    }
  }

  // ---------------------------------------------------------------- what a frame meets

  /** The order in which two rules of one frame run. */
  predicate RunsBefore(a: StagedRule, b: StagedRule) {
    Rank(a.request.kind) < Rank(b.request.kind) ||
    (Rank(a.request.kind) == Rank(b.request.kind) && Earlier(a, b))
  }

  ghost predicate SortedRules(s: seq<StagedRule>) {
    forall i, j :: 0 <= i < j < |s| ==> RunsBefore(s[i], s[j])
  }

  ghost predicate Ascending(s: seq<StagedRule>) {
    forall i, j :: 0 <= i < j < |s| ==> Earlier(s[i], s[j])
  }

  lemma {:induction false} ByKindFrom(a: seq<StagedRule>, k: nat)
    ensures forall r :: r in ByKind(a, k) ==> r in a
  {
    if a != [] { ByKindFrom(a[..|a| - 1], k); }
  }

  lemma {:induction false} PlacedFrom(a: seq<StagedRule>, k: nat)
    ensures forall r :: r in Placed(a, k, |a|) ==> r in a
  {
    assert a[..|a|] == a;
    ByKindFrom(a, k);
    if k > 0 { PlacedFrom(a, k - 1); }
  }

  lemma {:induction false} ForKeyFrom(es: seq<Entry>, key: RuleKey)
    ensures forall i :: 0 <= i < |ForKey(es, key)| ==> ForKey(es, key)[i] in es && ForKey(es, key)[i].Key() == key
  {
    if es != [] { ForKeyFrom(es[..|es| - 1], key); }
  }

  lemma RulesForAuthored(a: seq<StagedRule>, key: RuleKey)
    ensures forall i :: 0 <= i < |RulesFor(a, key)| ==>
      RulesFor(a, key)[i].rule in a && RulesFor(a, key)[i].Key() == key
  {
    PlacedFrom(a, LAST_RANK);
    var es := Numbered(KindSorted(a));
    ForKeyFrom(es, key);
    forall i | 0 <= i < |RulesFor(a, key)| ensures RulesFor(a, key)[i].rule in a {
      assert RulesFor(a, key)[i] in es;
      assert RulesFor(a, key)[i].rule in KindSorted(a);
    }
  }

  lemma {:induction false} ByKindSound(a: seq<StagedRule>, k: nat)
    requires Ascending(a)
    ensures SortedRules(ByKind(a, k))
    ensures forall r :: r in ByKind(a, k) <==> r in a && Rank(r.request.kind) == k
  {
    if a != [] {
      var init, last := a[..|a| - 1], a[|a| - 1];
      ByKindSound(init, k);
      assert a == init + [last];
      forall i | 0 <= i < |ByKind(init, k)| && Rank(last.request.kind) == k
        ensures RunsBefore(ByKind(init, k)[i], last)
      {
        assert ByKind(init, k)[i] in init;
        var m :| 0 <= m < |init| && init[m] == ByKind(init, k)[i];
        assert Earlier(a[m], a[|a| - 1]);
      }
    }
  }

  lemma {:induction false} PlacedSound(a: seq<StagedRule>, k: nat)
    requires Ascending(a)
    ensures SortedRules(Placed(a, k, |a|))
    ensures forall r :: r in Placed(a, k, |a|) <==> r in a && Rank(r.request.kind) <= k
  {
    assert a[..|a|] == a;
    ByKindSound(a, k);
    if k > 0 {
      PlacedSound(a, k - 1);
      var p, q := Placed(a, k - 1, |a|), ByKind(a, k);
      forall i, j | 0 <= i < j < |p + q| ensures RunsBefore((p + q)[i], (p + q)[j]) {
        if i < |p| <= j {
          assert p[i] in p && q[j - |p|] in q;
        }
      }
    }
  }

  ghost predicate SortedEntries(es: seq<Entry>) {
    forall i, j :: 0 <= i < j < |es| ==>
      RunsBefore(es[i].rule, es[j].rule) && es[i].priority < es[j].priority
  }

  lemma {:induction false} ForKeySound(es: seq<Entry>, key: RuleKey)
    requires SortedEntries(es)
    ensures SortedEntries(ForKey(es, key))
    ensures forall e :: e in ForKey(es, key) <==> e in es && e.Key() == key
  {
    if es != [] {
      var init, last := es[..|es| - 1], es[|es| - 1];
      ForKeySound(init, key);
      assert es == init + [last];
      forall i | 0 <= i < |ForKey(init, key)| && last.Key() == key
        ensures RunsBefore(ForKey(init, key)[i].rule, last.rule) && ForKey(init, key)[i].priority < last.priority
      {
        assert ForKey(init, key)[i] in init;
        var m :| 0 <= m < |init| && init[m] == ForKey(init, key)[i];
        assert es[m] == init[m] && es[|es| - 1] == last;
      }
    }
  }

  /** Frames meet bit ranges first, then masks, counters, sequences, exclusive-or checksums and
      CRCs, and rules of one kind by (sequence, slot). */
  ghost predicate KindsInOrder(es: seq<Entry>) {
    forall i, j :: 0 <= i < j < |es| ==>
      KindFollows(es[i].rule.request.kind, es[j].rule.request.kind)
  }

  /** A rule of kind `l` may come behind one of kind `k`. */
  predicate KindFollows(k: RuleKind, l: RuleKind) {
    && (k.ChecksumCrc8? ==> l.ChecksumCrc8?)
    && (k.ChecksumXor? ==> l.ChecksumXor? || l.ChecksumCrc8?)
    && (k.Sequence8? ==> l.Sequence8? || l.ChecksumXor? || l.ChecksumCrc8?)
    && (k.Counter? ==> l.Counter? || l.Sequence8? || l.ChecksumXor? || l.ChecksumCrc8?)
    && (k.RawMask? ==> !l.BitRange?)
  }

  ghost predicate RanksAscend(s: seq<StagedRule>) {
    forall i, j :: 0 <= i < j < |s| ==> Rank(s[i].request.kind) <= Rank(s[j].request.kind)
  }

  lemma {:induction false} ByKindRank(a: seq<StagedRule>, k: nat)
    ensures forall i :: 0 <= i < |ByKind(a, k)| ==> Rank(ByKind(a, k)[i].request.kind) == k
  {
    if a != [] { ByKindRank(a[..|a| - 1], k); }
  }

  lemma {:induction false} PlacedRanks(a: seq<StagedRule>, k: nat)
    ensures RanksAscend(Placed(a, k, |a|))
    ensures forall i :: 0 <= i < |Placed(a, k, |a|)| ==> Rank(Placed(a, k, |a|)[i].request.kind) <= k
  {
    assert a[..|a|] == a;
    ByKindRank(a, k);
    if k > 0 { PlacedRanks(a, k - 1); }
  }

  ghost predicate EntriesAscend(es: seq<Entry>) {
    forall i, j :: 0 <= i < j < |es| ==> Rank(es[i].rule.request.kind) <= Rank(es[j].rule.request.kind)
  }

  lemma {:induction false} ForKeyRanks(es: seq<Entry>, key: RuleKey)
    requires EntriesAscend(es)
    ensures EntriesAscend(ForKey(es, key))
    ensures forall e :: e in ForKey(es, key) ==> e in es
  {
    hide Rank;
    if es != [] {
      var init, last := es[..|es| - 1], es[|es| - 1];
      assert es == init + [last];
      ForKeyRanks(init, key);
      var part := ForKey(init, key);
      forall i | 0 <= i < |part| ensures Rank(part[i].rule.request.kind) <= Rank(last.rule.request.kind) {
        assert part[i] in init;
        var m :| 0 <= m < |init| && init[m] == part[i];
        assert es[m] == init[m] && es[|es| - 1] == last;
      }
    }
  }

  /** Whatever the authored list, the rules of one key come in the order of the kinds. */
  lemma KindOrder(a: seq<StagedRule>, key: RuleKey)
    ensures KindsInOrder(RulesFor(a, key))
  {
    PlacedRanks(a, LAST_RANK);
    ForKeyRanks(Numbered(KindSorted(a)), key);
    var rs := RulesFor(a, key);
    forall i, j | 0 <= i < j < |rs| ensures KindFollows(rs[i].rule.request.kind, rs[j].rule.request.kind) {
      assert Rank(rs[i].rule.request.kind) <= Rank(rs[j].rule.request.kind);
    }
  }

  /** For every key the table holds exactly the candidate's rules with that key, each once: bit
      ranges, masks, counters, sequences, exclusive-or checksums, CRCs, and rules of one kind by
      (sequence, slot); priorities follow the same order. */
  lemma RulesForKey(staged: seq<StagedRule>, key: RuleKey)
    requires forall s :: 0 <= s < |staged| && staged[s].inUse ==> staged[s].ruleId == s
    ensures var es := RulesFor(Authored(staged), key);
      && KindsInOrder(es)
      && (forall i, j :: 0 <= i < j < |es| && es[i].rule.request.kind == es[j].rule.request.kind ==>
            es[i].rule.sequence < es[j].rule.sequence ||
            (es[i].rule.sequence == es[j].rule.sequence && es[i].rule.ruleId < es[j].rule.ruleId))
      && (forall i, j :: 0 <= i < j < |es| ==> es[i].priority < es[j].priority)
      && (forall e :: e in es ==> e.Key() == key && e.rule in staged && e.rule.inUse)
      && (forall s :: 0 <= s < |staged| && staged[s].inUse && staged[s].request.Key() == key ==>
            exists i :: 0 <= i < |es| && es[i].rule == staged[s])
  {
    hide RulesFor, Authored, KindsInOrder;
    var a := Authored(staged);
    AuthoredAscending(staged);
    RulesForSound(a, key);
    KindOrder(a, key);
    SameKindEarlier(RulesFor(a, key));
    forall s | 0 <= s < |staged| && staged[s].inUse && staged[s].request.Key() == key
      ensures exists i :: 0 <= i < |RulesFor(a, key)| && RulesFor(a, key)[i].rule == staged[s]
    {
      assert staged[s] in a;
    }
  }

  lemma RulesForSound(a: seq<StagedRule>, key: RuleKey)
    requires Ascending(a)
    ensures SortedEntries(RulesFor(a, key))
    ensures forall e :: e in RulesFor(a, key) ==> e.Key() == key && e.rule in a
    ensures forall r :: r in a && r.request.Key() == key ==>
      exists i :: 0 <= i < |RulesFor(a, key)| && RulesFor(a, key)[i].rule == r
  {
    PlacedSound(a, LAST_RANK);
    var k := KindSorted(a);
    var es := Numbered(k);
    ForKeySound(es, key);
    forall e | e in ForKey(es, key) ensures e.rule in a {
      assert e in es && e.rule in k;
    }
    forall r | r in a && r.request.Key() == key
      ensures exists i :: 0 <= i < |ForKey(es, key)| && ForKey(es, key)[i].rule == r
    {
      assert r in k;
      var m :| 0 <= m < |k| && k[m] == r;
      assert es[m] in es && es[m] in ForKey(es, key);
    }
  }

  lemma SameKindEarlier(es: seq<Entry>)
    requires SortedEntries(es)
    ensures forall i, j :: 0 <= i < j < |es| ==> es[i].priority < es[j].priority
    ensures forall i, j :: 0 <= i < j < |es| && es[i].rule.request.kind == es[j].rule.request.kind ==>
      Earlier(es[i].rule, es[j].rule)
  {
  }

  lemma AuthoredAscending(staged: seq<StagedRule>)
    requires forall s :: 0 <= s < |staged| && staged[s].inUse ==> staged[s].ruleId == s
    ensures Ascending(Authored(staged))
    ensures forall r :: r in Authored(staged) <==> r in staged && r.inUse
  {
    OrderIsOrder(staged);
    var ids, a := Order(staged), Authored(staged);
    forall i, j | 0 <= i < j < |a| ensures Earlier(a[i], a[j]) {
      assert Before(staged, ids[i], ids[j]);
    }
    forall r | r in staged && r.inUse ensures r in a {
      var s :| 0 <= s < |staged| && staged[s] == r;
      assert s in ids;
      var i :| 0 <= i < |ids| && ids[i] == s;
      assert a[i] == r;
    }
  }
}
