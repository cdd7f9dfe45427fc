/** `RulePackageLoader::loadCsv` on the engine itself (core/rule_package.cpp): one pass over the rows
    with the bindings as variables, and the guard that puts the candidate back on every failure. */
module PackageLoader {
  import opened Types
  import opened Rules
  import opened CompileSpec
  import opened RuleTable
  import opened Compiler
  import opened FrameEffect
  import opened EngineState
  import opened EngineInvariant
  import opened RulePackage
  import opened MutationCore

  lemma {:induction false} StopsAt(e: Engine, rows: seq<Row>, n: nat, i: nat)
    requires n <= i <= |rows| && StageRows(e, rows[..i]).Some?
    requires i < |rows| ==> StageRows(e, rows[..i + 1]).None?
    ensures Stops(e, rows, n) == i
    decreases i - n
  {
    hide StageRows;
    if n < i {
      StagedBefore(e, rows, n + 1, i);
      StopsAt(e, rows, n + 1, i);
    }
  }

  /** What is staged of a package was staged of every shorter one. */
  lemma {:induction false} StagedBefore(e: Engine, rows: seq<Row>, n: nat, i: nat)
    requires n <= i <= |rows| && StageRows(e, rows[..i]).Some?
    ensures StageRows(e, rows[..n]).Some?
    decreases i - n
  {
    if n < i {
      assert rows[..i][..i - 1] == rows[..i - 1];
      StagedBefore(e, rows, n, i - 1);
    }
  }

  lemma NextRow(e: Engine, rows: seq<Row>, i: nat, s: Engine)
    requires i < |rows| && StageRows(e, rows[..i]) == Some(s)
    ensures StageRows(e, rows[..i + 1]) == RowStaged(s, rows[i], BindingsAfter(rows[..i]))
    ensures BindingsAfter(rows[..i + 1]) == Rebound(BindingsAfter(rows[..i]), rows[i])
    ensures RuleRows(rows[..i + 1]) == RuleRows(rows[..i]) + (if rows[i].RuleRow? then 1 else 0)
  {
    hide Stage, CanStage, Bound, Rebound;
    assert rows[..i + 1][..i] == rows[..i];
  }

  function RowStaged(s: Engine, row: Row, b: Bindings): Option<Engine> {
    if row.Malformed? then None
    else if !row.RuleRow? then Some(s)
    else if CanStage(s, Bound(row.request, b)) then Some(Stage(s, Bound(row.request, b)))
    else None
  }

  lemma EmptyRows(e: Engine, rows: seq<Row>)
    ensures StageRows(e, rows[..0]) == Some(Clear(e))
    ensures BindingsAfter(rows[..0]) == UNBOUND && RuleRows(rows[..0]) == 0
  {}

  /** Where the row loop stands: rows before `i` are staged and, if `stuck`, row `i` cannot be. */
  ghost predicate At(e: Engine, rows: seq<Row>, i: nat, stuck: bool, s: Engine, b: Bindings, loaded: nat) {
    && i <= |rows| && StageRows(e, rows[..i]) == Some(s)
    && b == BindingsAfter(rows[..i]) && loaded == RuleRows(rows[..i])
    && (stuck ==> i < |rows| && StageRows(e, rows[..i + 1]).None?)
  }

  lemma AtStart(e: Engine, rows: seq<Row>)
    ensures At(e, rows, 0, false, Clear(e), UNBOUND, 0)
  {
    EmptyRows(e, rows);
  }

  lemma AtNext(e: Engine, rows: seq<Row>, i: nat, s: Engine, b: Bindings, loaded: nat)
    requires At(e, rows, i, false, s, b, loaded) && i < |rows|
    ensures var next, row := RowStaged(s, rows[i], b), rows[i];
      if next.None? then At(e, rows, i, true, s, b, loaded)
      else At(e, rows, i + 1, false, next.value, Rebound(b, row), loaded + if row.RuleRow? then 1 else 0)
  {
    hide StageRows, RowStaged, Rebound;
    NextRow(e, rows, i, s);
  }

  lemma AtEnd(e: Engine, rows: seq<Row>, i: nat, stuck: bool, s: Engine, b: Bindings, loaded: nat)
    requires At(e, rows, i, stuck, s, b, loaded) && (stuck || i == |rows|)
    ensures s == StagedAtStop(e, rows)
    ensures stuck <==> StageRows(e, rows).None?
    ensures !stuck ==> s == StageRows(e, rows).value && loaded == RuleRows(rows)
  {
    hide StageRows;
    assert rows[..|rows|] == rows;
    StopsAt(e, rows, 0, i);
    if StageRows(e, rows).Some? && stuck { StagedBefore(e, rows, i + 1, |rows|); }
  }

  lemma NotStaged(s: Engine, r: RuleRequest)
    ensures !CanStage(s, r) ==> Stage(s, r) == s
  {
    hide Acceptable;
  }

  /** The row loop: with a failure the candidate is left where it stopped. */
  method StageAll(engine: MutationEngine, rows: seq<Row>) returns (ok: bool, loaded: nat)
    requires engine.Valid()
    modifies engine`count, engine`dirty, engine`epoch, engine`nextSequence, engine.staged
    ensures engine.Valid() && engine.State() == StagedAtStop(old(engine.State()), rows)
    ensures ok == StageRows(old(engine.State()), rows).Some?
    ensures ok ==> engine.State() == StageRows(old(engine.State()), rows).value && loaded == RuleRows(rows)
  {
    hide Holds, Inv, StageRows, StagedAtStop, Stage, CanStage, Clear, At, Bound, RuleRows;
    ghost var before := engine.State();
    AtStart(before, rows);
    engine.ClearStaging();
    var bindings := UNBOUND;
    var i := 0;
    ok, loaded := true, 0;
    while ok && i < |rows|
      invariant i <= |rows| && engine.Valid()
      invariant At(before, rows, i, !ok, engine.State(), bindings, loaded)
      decreases |rows| - i, ok
    {
      AtNext(before, rows, i, engine.State(), bindings, loaded);
      var row := rows[i];
      if row.RuleRow? {
        NotStaged(engine.State(), Bound(row.request, bindings));
        var id := engine.StageRule(Bound(row.request, bindings));
        ok := id.Some?;
      } else {
        ok := !row.Malformed?;
      }
      if ok {
        bindings := Rebound(bindings, row);
        loaded := if row.RuleRow? then loaded + 1 else loaded;
        i := i + 1;
      }
    }
    AtEnd(before, rows, i, !ok, engine.State(), bindings, loaded);
  }

  lemma AllStaged(e: Engine, rows: seq<Row>)
    requires StageRows(e, rows).Some?
    ensures StagedAtStop(e, rows) == StageRows(e, rows).value
  {
    hide StageRows;
    assert rows[..|rows|] == rows;
    StopsAt(e, rows, 0, |rows|);
  }

  /** The number of rules loaded, or nothing: then the candidate is the committed rules again. */
  method LoadCsv(engine: MutationEngine, rows: seq<Row>, reg: Registry) returns (loaded: Option<nat>)
    requires engine.Valid()
    modifies engine, engine.staged, engine.shadow, engine.runtime
    modifies engine.table0, engine.table0.rules, engine.table0.groups, engine.table0.bucketHead
    modifies engine.table1, engine.table1.rules, engine.table1.groups, engine.table1.bucketHead
    ensures engine.Valid() && engine.State() == Load(old(engine.State()), rows, reg)
    ensures loaded == if Loads(old(engine.State()), rows, reg) then Some(RuleRows(rows)) else None
  {
    hide Holds, Inv, StageRows, StagedAtStop, Commit, CommitSucceeds, Revert, RuleRows;
    ghost var before := engine.State();
    var ok, n := StageAll(engine, rows);
    loaded := None;
    if ok && n > 0 {
      AllStaged(before, rows);
      RejectedCommit(engine.State(), reg);
      var done := engine.ApplyCommit(reg);
      if done { loaded := Some(n); }
    }
    if loaded.None? { engine.RevertStagingToActive(); }
  }
}
