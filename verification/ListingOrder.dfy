/** What the listing of an active table looks like, whatever was authored: the order in which
    `compile_active_rules` (tools/preview_ui.py) and the firmware's table give the rules. */
module ListingOrder {
  import opened Rules
  import opened CompileSpec
  import opened RuleTable

  /** Some rule of key `k` is authored before any of key `l`. */
  ghost predicate SeenFirst(a: seq<StagedRule>, k: RuleKey, l: RuleKey) {
    exists m :: 0 <= m < |a| && a[m].request.Key() == k && forall n :: 0 <= n <= m ==> a[n].request.Key() != l
  }

  /** Keys in the order of their first authored rule; within a key the order of the kinds, and
      rules of one kind as authored. */
  ghost predicate InListingOrder(a: seq<StagedRule>, listing: seq<Entry>) {
    forall i, j :: 0 <= i < j < |listing| ==> ListedBefore(a, listing[i], listing[j])
  }

  ghost predicate ListedBefore(a: seq<StagedRule>, e: Entry, f: Entry) {
    if e.Key() == f.Key() then InKeyOrder(a, e.rule, f.rule) else SeenFirst(a, e.Key(), f.Key())
  }

  ghost predicate InKeyOrder(a: seq<StagedRule>, r: StagedRule, s: StagedRule) {
    && KindFollows(r.request.kind, s.request.kind)
    && (Ascending(a) && r.request.kind == s.request.kind ==> Earlier(r, s))
  }

  lemma RulesInKeyOrder(a: seq<StagedRule>, key: RuleKey)
    ensures forall e :: e in RulesFor(a, key) ==> e.Key() == key
    ensures var es := RulesFor(a, key);
      forall i, j :: 0 <= i < j < |es| ==> InKeyOrder(a, es[i].rule, es[j].rule)
  {
    hide RulesFor, Ascending, Earlier, KindFollows;
    RulesForAuthored(a, key);
    KindOrder(a, key);
    if Ascending(a) {
      RulesForSound(a, key);
      SameKindEarlier(RulesFor(a, key));
    }
  }

  lemma {:induction false} KeysSeenInOrder(a: seq<StagedRule>)
    ensures forall key :: key in GroupKeys(a) <==> exists m :: 0 <= m < |a| && a[m].request.Key() == key
    ensures forall i, j :: 0 <= i < j < |GroupKeys(a)| ==> SeenFirst(a, GroupKeys(a)[i], GroupKeys(a)[j])
  {
    if a != [] {
      var init, key := a[..|a| - 1], a[|a| - 1].request.Key();
      KeysSeenInOrder(init);
      var keys := GroupKeys(init);
      assert a[|a| - 1].request.Key() == key;
      forall q | q in keys ensures exists m :: 0 <= m < |a| && a[m].request.Key() == q {
        var m :| 0 <= m < |init| && init[m].request.Key() == q;
        assert a[m] == init[m];
      }
      forall m | 0 <= m < |a| ensures a[m].request.Key() in GroupKeys(a) {
        if m < |init| { assert init[m] == a[m]; }
      }
      forall i, j | 0 <= i < j < |keys| ensures SeenFirst(a, keys[i], keys[j]) {
        SeenLater(a, keys[i], keys[j]);
      }
      forall i | 0 <= i < |keys| && key !in keys ensures SeenFirst(a, keys[i], key) {
        assert keys[i] in keys;
        var m :| 0 <= m < |init| && init[m].request.Key() == keys[i];
        assert a[m] == init[m];
        forall n | 0 <= n <= m ensures a[n].request.Key() != key { assert init[n] == a[n]; }
      }
    }
  }

  lemma SeenLater(a: seq<StagedRule>, k: RuleKey, l: RuleKey)
    requires a != [] && SeenFirst(a[..|a| - 1], k, l)
    ensures SeenFirst(a, k, l)
  {
    var init := a[..|a| - 1];
    var m :| 0 <= m < |init| && init[m].request.Key() == k && forall n :: 0 <= n <= m ==> init[n].request.Key() != l;
    assert a[m] == init[m];
    forall n | 0 <= n <= m ensures a[n].request.Key() != l { assert init[n] == a[n]; }
  }

  lemma SeenApart(a: seq<StagedRule>, k: RuleKey)
    ensures !SeenFirst(a, k, k)
  {
  }

  /** The rules of one more key behind those of earlier keys */
  lemma KeyAppended(a: seq<StagedRule>, keys: seq<RuleKey>, before: seq<Entry>, part: seq<Entry>, key: RuleKey)
    requires InListingOrder(a, before) && forall e :: e in before ==> e.Key() in keys
    requires forall i, j :: 0 <= i < j < |part| ==> InKeyOrder(a, part[i].rule, part[j].rule)
    requires forall e :: e in part ==> e.Key() == key
    requires forall k :: k in keys ==> SeenFirst(a, k, key)
    ensures InListingOrder(a, before + part)
  {
    hide SeenFirst, InKeyOrder;
    SeenApart(a, key);
    forall i | 0 <= i < |before| ensures before[i].Key() in keys { assert before[i] in before; }
    forall j | 0 <= j < |part| ensures part[j].Key() == key { assert part[j] in part; }
  }

  /** The listing of the first `n` keys */
  lemma {:induction false} ListingOrdered(a: seq<StagedRule>, n: nat)
    requires n <= |GroupKeys(a)|
    ensures InListingOrder(a, Listing(Numbered(KindSorted(a)), GroupKeys(a)[..n]))
    ensures forall e :: e in Listing(Numbered(KindSorted(a)), GroupKeys(a)[..n]) <==>
      e.Key() in GroupKeys(a)[..n] && e in RulesFor(a, e.Key())
  {
    hide GroupKeys, KindSorted, Numbered, ForKey, SeenFirst, InKeyOrder, InListingOrder;
    var es, keys := Numbered(KindSorted(a)), GroupKeys(a);
    if n == 0 {
      ListingOfNone(a, es);
    } else {
      var key := keys[n - 1];
      ListingOrdered(a, n - 1);
      assert keys[..n][..n - 1] == keys[..n - 1] && keys[..n] == keys[..n - 1] + [key];
      KeysSeenInOrder(a);
      RulesInKeyOrder(a, key);
      assert Listing(es, keys[..n]) == Listing(es, keys[..n - 1]) + RulesFor(a, key);
      KeyAppended(a, keys[..n - 1], Listing(es, keys[..n - 1]), RulesFor(a, key), key);
    }
  }

  lemma ListingOfNone(a: seq<StagedRule>, es: seq<Entry>)
    ensures InListingOrder(a, Listing(es, []))
  {
  }

  lemma {:induction false} ListingLength(a: seq<StagedRule>, n: nat)
    requires n <= |GroupKeys(a)|
    ensures |Listing(Numbered(KindSorted(a)), GroupKeys(a)[..n])| == Start(a, GroupKeys(a), n)
  {
    hide GroupKeys, KindSorted, Numbered, ForKey, CountKey;
    var keys := GroupKeys(a);
    if n > 0 {
      ListingLength(a, n - 1);
      GroupSize(a, keys[n - 1]);
      assert keys[..n][..n - 1] == keys[..n - 1];
    }
  }

  /** The whole listing: the authored rules, none left out and none invented, keys in the order of
      their first rule, kinds in order within a key, rules of one kind by (sequence, slot). */
  lemma ListingIsOrdered(a: seq<StagedRule>)
    ensures InListingOrder(a, ActiveListing(a)) && |ActiveListing(a)| == |a|
    ensures forall e :: e in ActiveListing(a) ==> e.rule in a
    ensures Ascending(a) ==> forall r :: r in a ==> exists e :: e in ActiveListing(a) && e.rule == r
  {
    hide GroupKeys, KindSorted, Numbered, RulesFor, Ascending, Listing, InListingOrder;
    var keys := GroupKeys(a);
    assert keys[..|keys|] == keys && a[..|a|] == a;
    ListingOrdered(a, |keys|);
    ListingLength(a, |keys|);
    StartTotal(a, |a|);
    forall e | e in ActiveListing(a) ensures e.rule in a {
      RulesForAuthored(a, e.Key());
    }
    if Ascending(a) {
      forall r | r in a ensures exists e :: e in ActiveListing(a) && e.rule == r { ListedRule(a, r); }
    }
  }

  lemma ListedRule(a: seq<StagedRule>, r: StagedRule)
    requires Ascending(a) && r in a
    ensures exists e :: e in ActiveListing(a) && e.rule == r
  {
    hide GroupKeys, KindSorted, Numbered, RulesFor, Ascending, Listing, InListingOrder;
    var keys, key := GroupKeys(a), r.request.Key();
    assert keys[..|keys|] == keys;
    ListingOrdered(a, |keys|);
    KeysSeenInOrder(a);
    RulesForSound(a, key);
    var m :| 0 <= m < |a| && a[m] == r;
    assert a[m].request.Key() == key;
    var i :| 0 <= i < |RulesFor(a, key)| && RulesFor(a, key)[i].rule == r;
    assert RulesFor(a, key)[i] in ActiveListing(a);
  }
}
