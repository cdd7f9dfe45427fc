/** Which rows of a package share an identity, and which rows a binding reaches
    (core/rule_package.cpp, `findStagedIdentity` of core/mutation_engine.cpp and `rule_identity` of
    tools/preview_ui.py). */
module PackageBindings {
  import opened Types
  import opened Rules
  import opened RulePackage

  // ---------------------------------------------------------------- identities

  /** The tuples of `rule_identity` */
  datatype Identity =
    | FieldIdentity(kind: RuleKind, canId: U32, direction: Direction,
                    start: nat, length: nat, littleEndian: bool, dynamic: bool)
    | ChecksumIdentity(kind: RuleKind, canId: U32, direction: Direction, target: nat)
    | MaskIdentity(canId: U32, direction: Direction)

  function RuleIdentity(r: RuleRequest): Identity {
    match r.kind
    case RawMask => MaskIdentity(r.canId, r.direction)
    case ChecksumXor => ChecksumIdentity(r.kind, r.canId, r.direction, r.checksumTarget)
    case ChecksumCrc8 => ChecksumIdentity(r.kind, r.canId, r.direction, r.checksumTarget)
    case _ =>
      FieldIdentity(r.kind, r.canId, r.direction, r.startBit, r.bitLength, r.littleEndian, r.dynamicValue)
  }

  /** The engine and the preview tool agree on which rules are the same one. */
  lemma IdentitiesAgree(a: RuleRequest, b: RuleRequest)
    ensures SameIdentity(a, b) <==> RuleIdentity(a) == RuleIdentity(b)
  {
  }

  // ---------------------------------------------------------------- bindings

  /** Row `j` is the last table binding in front of row `i`. */
  predicate LastTable(rows: seq<Row>, j: int, i: int) {
    0 <= j < i <= |rows| && rows[j].BindTable? && forall k :: j < k < i ==> !rows[k].BindTable?
  }

  predicate LastOverride(rows: seq<Row>, j: int, i: int) {
    0 <= j < i <= |rows| && rows[j].BindOverride? && forall k :: j < k < i ==> !rows[k].BindOverride?
  }

  predicate LastGate(rows: seq<Row>, j: int, i: int) {
    0 <= j < i <= |rows| && rows[j].BindActive? && forall k :: j < k < i ==> !rows[k].BindActive?
  }

  lemma NextBindings(rows: seq<Row>, i: nat)
    requires 0 < i <= |rows|
    ensures BindingsAfter(rows[..i]) == Rebound(BindingsAfter(rows[..i - 1]), rows[i - 1])
  {
    assert rows[..i][..i - 1] == rows[..i - 1];
  }

  lemma NoBindings(rows: seq<Row>)
    ensures BindingsAfter(rows[..0]) == UNBOUND
  {
  }

  lemma {:induction false} TableInForce(rows: seq<Row>, i: nat)
    requires i <= |rows|
    ensures forall j :: LastTable(rows, j, i) ==>
      BindingsAfter(rows[..i]).tableSource == rows[j].source && BindingsAfter(rows[..i]).table == rows[j].table
    ensures (forall j :: 0 <= j < i ==> !rows[j].BindTable?) ==> BindingsAfter(rows[..i]).tableSource == ""
  {
    hide BindingsAfter;
    NoBindings(rows);
    if i > 0 {
      TableInForce(rows, i - 1);
      NextBindings(rows, i);
      forall j | LastTable(rows, j, i) && j < i - 1 ensures LastTable(rows, j, i - 1) {}
    }
  }

  lemma {:induction false} OverrideInForce(rows: seq<Row>, i: nat)
    requires i <= |rows|
    ensures forall j :: LastOverride(rows, j, i) ==>
      var b := BindingsAfter(rows[..i]);
      b.overrideSource == rows[j].source && b.overrideActive == rows[j].active && b.overrideValue == rows[j].value
    ensures (forall j :: 0 <= j < i ==> !rows[j].BindOverride?) ==> BindingsAfter(rows[..i]).overrideSource == ""
  {
    hide BindingsAfter;
    NoBindings(rows);
    if i > 0 {
      OverrideInForce(rows, i - 1);
      NextBindings(rows, i);
      forall j | LastOverride(rows, j, i) && j < i - 1 ensures LastOverride(rows, j, i - 1) {}
    }
  }

  lemma {:induction false} GateInForce(rows: seq<Row>, i: nat)
    requires i <= |rows|
    ensures forall j :: LastGate(rows, j, i) ==>
      BindingsAfter(rows[..i]).gateSource == rows[j].selector && BindingsAfter(rows[..i]).gateStates == rows[j].states
    ensures (forall j :: 0 <= j < i ==> !rows[j].BindActive?) ==> BindingsAfter(rows[..i]).gateSource == ""
  {
    hide BindingsAfter;
    NoBindings(rows);
    if i > 0 {
      GateInForce(rows, i - 1);
      NextBindings(rows, i);
      forall j | LastGate(rows, j, i) && j < i - 1 ensures LastGate(rows, j, i - 1) {}
    }
  }

  /** The last table row in front of a rule reaches it when it names the rule's source. */
  ghost predicate TableReaches(rows: seq<Row>, i: int, q: RuleRequest, r: RuleRequest) {
    forall j :: LastTable(rows, j, i) ==>
      r.lookupTable == if rows[j].source != "" && q.valueSource == rows[j].source then rows[j].table else q.lookupTable
  }

  /** So does the last override row. */
  ghost predicate OverrideReaches(rows: seq<Row>, i: int, q: RuleRequest, r: RuleRequest) {
    forall j :: LastOverride(rows, j, i) ==>
      if rows[j].source != "" && q.valueSource == rows[j].source
      then r.overrideActive == rows[j].active && r.overrideValue == rows[j].value
      else r.overrideActive == q.overrideActive && r.overrideValue == q.overrideValue
  }

  /** The last gate row reaches every rule without a selector of its own. */
  ghost predicate GateReaches(rows: seq<Row>, i: int, q: RuleRequest, r: RuleRequest) {
    forall j :: LastGate(rows, j, i) ==>
      if rows[j].selector != "" && q.selectorSource == ""
      then r.selectorSource == rows[j].selector && r.selectorActive == rows[j].states
      else r.selectorSource == q.selectorSource && r.selectorActive == q.selectorActive
  }

  lemma BoundTable(q: RuleRequest, b: Bindings)
    ensures Bound(q, b).lookupTable ==
      if b.tableSource != "" && q.valueSource == b.tableSource then b.table else q.lookupTable
  {
  }

  lemma BoundOverride(q: RuleRequest, b: Bindings)
    ensures var r := Bound(q, b);
      if b.overrideSource != "" && q.valueSource == b.overrideSource
      then r.overrideActive == b.overrideActive && r.overrideValue == b.overrideValue
      else r.overrideActive == q.overrideActive && r.overrideValue == q.overrideValue
  {
  }

  lemma BoundGate(q: RuleRequest, b: Bindings)
    ensures var r := Bound(q, b);
      if b.gateSource != "" && q.selectorSource == ""
      then r.selectorSource == b.gateSource && r.selectorActive == b.gateStates
      else r.selectorSource == q.selectorSource && r.selectorActive == q.selectorActive
  {
  }

  /** A rule without the five fields that bindings may fill */
  function Unbound(q: RuleRequest): RuleRequest {
    q.(lookupTable := "", overrideActive := "", overrideValue := "", selectorSource := "", selectorActive := {})
  }

  lemma UnboundIgnores(q: RuleRequest)
    ensures forall t :: Unbound(q.(lookupTable := t)) == Unbound(q)
    ensures forall a, v :: Unbound(q.(overrideActive := a, overrideValue := v)) == Unbound(q)
    ensures forall c, states :: Unbound(q.(selectorSource := c, selectorActive := states)) == Unbound(q)
  {
  }

  /** The bindings touch no other field. */
  lemma BoundKeeps(q: RuleRequest, b: Bindings)
    ensures Unbound(Bound(q, b)) == Unbound(q)
  {
    hide Unbound;
    var tabled := if b.tableSource != "" && b.tableSource == q.valueSource then q.(lookupTable := b.table) else q;
    var overridden :=
      if b.overrideSource != "" && b.overrideSource == tabled.valueSource
      then tabled.(overrideActive := b.overrideActive, overrideValue := b.overrideValue) else tabled;
    UnboundIgnores(q);
    UnboundIgnores(tabled);
    UnboundIgnores(overridden);
  }

  predicate SameBindings(q: RuleRequest, r: RuleRequest) {
    && r.lookupTable == q.lookupTable && r.overrideActive == q.overrideActive && r.overrideValue == q.overrideValue
    && r.selectorSource == q.selectorSource && r.selectorActive == q.selectorActive
  }

  /** A binding holds until the next one of its kind, and nothing else reaches a rule: it keeps whatever
      else its row says, and everything when no binding stands in front of it. */
  lemma BindingsReach(rows: seq<Row>, i: nat)
    requires i < |rows| && rows[i].RuleRow?
    ensures var q, r := rows[i].request, RuleOf(rows, i);
      && TableReaches(rows, i, q, r) && OverrideReaches(rows, i, q, r) && GateReaches(rows, i, q, r)
      && ((forall j :: 0 <= j < i ==> rows[j].RuleRow? || rows[j].Malformed?) ==> SameBindings(q, r))
      && Unbound(r) == Unbound(q)
  {
    hide Unbound, BindingsAfter, Bound, LastTable, LastOverride, LastGate;
    TableInForce(rows, i);
    OverrideInForce(rows, i);
    GateInForce(rows, i);
    var q, b := rows[i].request, BindingsAfter(rows[..i]);
    BoundTable(q, b);
    BoundOverride(q, b);
    BoundGate(q, b);
    BoundKeeps(q, b);
  }
}
