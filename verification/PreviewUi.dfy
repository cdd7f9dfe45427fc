/** `compile_active_rules` of tools/preview_ui.py: the dictionary-based compile that the
    firmware's table must agree with. */
module PreviewUi {
  import opened Types
  import opened Rules
  import opened CompileSpec
  import opened RuleTable
  import opened Compiler
  import opened ListingOrder

  /** `grouped` holds the part of `es` for every key seen so far. */
  ghost predicate GroupedOk(grouped: map<RuleKey, seq<Entry>>, keys: seq<RuleKey>, es: seq<Entry>) {
    && (forall key :: key in grouped <==> key in keys)
    && (forall key :: key in grouped ==> grouped[key] == ForKey(es, key))
  }

  method CompileActiveRules(authored: seq<StagedRule>) returns (listing: seq<Entry>)
    ensures listing == ActiveListing(authored)
    ensures InListingOrder(authored, listing) && |listing| == |authored|
    ensures forall e :: e in listing ==> e.rule in authored
  {
    var grouped, groupOrder := StartGroups(authored);
    grouped := FillGroups(authored, grouped, groupOrder);
    listing := [];
    var g := 0;
    while g < |groupOrder|
      invariant g <= |groupOrder| && listing == Listing(Numbered(KindSorted(authored)), groupOrder[..g])
    {
      assert groupOrder[..g + 1][..g] == groupOrder[..g];
      listing := listing + grouped[groupOrder[g]];
      g := g + 1;
    }
    assert groupOrder[..g] == groupOrder;
    ListingIsOrdered(authored);
  }

  method StartGroups(authored: seq<StagedRule>)
    returns (grouped: map<RuleKey, seq<Entry>>, groupOrder: seq<RuleKey>)
    ensures groupOrder == GroupKeys(authored) && GroupedOk(grouped, groupOrder, [])
  {
    grouped, groupOrder := map[], [];
    var i := 0;
    while i < |authored|
      invariant i <= |authored| && groupOrder == GroupKeys(authored[..i]) && GroupedOk(grouped, groupOrder, [])
    {
      var key := authored[i].request.Key();
      GroupKeysStep(authored, i);
      if key !in grouped {
        grouped := grouped[key := []];
        groupOrder := groupOrder + [key];
      }
      i := i + 1;
    }
    assert authored[..i] == authored;
  }

  method FillGroups(authored: seq<StagedRule>, empty: map<RuleKey, seq<Entry>>, ghost keys: seq<RuleKey>)
    returns (grouped: map<RuleKey, seq<Entry>>)
    requires keys == GroupKeys(authored) && GroupedOk(empty, keys, [])
    ensures GroupedOk(grouped, keys, Numbered(KindSorted(authored)))
  {
    hide GroupedOk, Done, Rank, ForKey, GroupKeys;
    grouped := empty;
    var priority, wanted := 0, 0;
    DoneEnds(authored);
    while wanted <= LAST_RANK
      invariant wanted <= LAST_RANK + 1 && priority == |Done(authored, wanted, 0)|
      invariant GroupedOk(grouped, keys, Done(authored, wanted, 0))
    {
      var j := 0;
      while j < |authored|
        invariant j <= |authored| && priority == |Done(authored, wanted, j)|
        invariant GroupedOk(grouped, keys, Done(authored, wanted, j))
      {
        var rule := authored[j];
        DoneStep(authored, wanted, j);
        if Rank(rule.request.kind) == wanted {
          KeyPresent(authored, j);
          GroupedStep(grouped, keys, Done(authored, wanted, j), Entry(rule, priority));
          var key := rule.request.Key();
          grouped := grouped[key := grouped[key] + [Entry(rule, priority)]];
          priority := priority + 1;
        }
        j := j + 1;
      }
      DoneNext(authored, wanted);
      wanted := wanted + 1;
    }
  }

  lemma DoneEnds(a: seq<StagedRule>)
    ensures Done(a, 0, 0) == [] && Done(a, LAST_RANK + 1, 0) == Numbered(KindSorted(a))
  {
    DoneNext(a, LAST_RANK);
  }

  lemma GroupedStep(grouped: map<RuleKey, seq<Entry>>, keys: seq<RuleKey>, es: seq<Entry>, e: Entry)
    requires GroupedOk(grouped, keys, es) && e.Key() in keys
    ensures e.Key() in grouped
    ensures GroupedOk(grouped[e.Key() := grouped[e.Key()] + [e]], keys, es + [e])
  {
    forall q { ForKeyStep(es, e, q); }
  }
}
