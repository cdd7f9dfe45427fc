/** The mutation reader gate (`beginMutationRead`, `pauseMutationReads`, `resumeMutationReads` and
    the publishing half of `applyCommit`, core/mutation_engine.cpp) as sequentially consistent
    atomic steps of any number of readers and one committer.

    Table entries and runtime slots carry the number of the commit they belong to; a reader
    remembers the numbers it has met in its current read section. */
module ReaderGate {

  const SLOTS := 96

  datatype Reader =
    | Outside
    | SawEnabled                       // first load of the enable flag succeeded
    | Counted                          // incremented, second load still to come
    | Refused                          // second load failed, decrement still to come
    | Inside(table: int, entered: nat, seen: set<nat>)   // table is -1 until the pointer is loaded

  datatype Committer =
    | Resting
    | Compiling(written: nat)          // entries of the inactive table rewritten so far
    | Draining                         // flag cleared, waiting for the count to reach zero
    | Publishing(published: nat)       // runtime slots published so far
    | Swapped                          // new table active, flag still clear

  datatype Gate = Gate(
    enabled: bool, count: nat, readers: seq<Reader>,
    active: nat, tables: seq<seq<nat>>, slots: seq<nat>,
    committer: Committer, commit: nat)

  datatype Action =
    | LoadFlag(r: nat) | Increment(r: nat) | ReloadFlag(r: nat) | Leave(r: nat)
    | LoadTable(r: nat) | ReadEntry(r: nat, k: nat) | ReadSlot(r: nat, k: nat)
    | BeginCommit | RewriteEntry | Abandon | ClearFlag | SeeZero | PublishSlot | Swap | SetFlag

  function Start(readers: nat): Gate {
    Gate(true, 0, seq(readers, _ => Outside), 0,
         [seq(SLOTS, _ => 0), seq(SLOTS, _ => 0)], seq(SLOTS, _ => 0), Resting, 0)
  }

  predicate Holding(r: Reader) {
    r.Counted? || r.Refused? || r.Inside?
  }

  function Holders(readers: seq<Reader>): nat {
    if readers == [] then 0
    else Holders(readers[..|readers| - 1]) + (if Holding(readers[|readers| - 1]) then 1 else 0)
  }

  predicate Shape(g: Gate) {
    g.active < 2 && |g.tables| == 2 && |g.tables[0]| == |g.tables[1]| == |g.slots| == SLOTS
  }

  /** One atomic step of a reader; a step that is not due leaves the reader where it is. */
  function ReaderStep(g: Gate, a: Action, r: Reader): Reader
    requires Shape(g)
  {
    match a
    case LoadFlag(_) => if r.Outside? && g.enabled then SawEnabled else r
    case Increment(_) => if r.SawEnabled? then Counted else r
    case ReloadFlag(_) =>
      if r.Counted? then (if g.enabled then Inside(-1, g.commit, {}) else Refused) else r
    case Leave(_) => if r.Refused? || r.Inside? then Outside else r
    case LoadTable(_) => if r.Inside? && r.table < 0 then r.(table := g.active) else r
    case ReadEntry(_, k) =>
      if r.Inside? && 0 <= r.table < 2 && k < SLOTS then r.(seen := r.seen + {g.tables[r.table][k]}) else r
    case ReadSlot(_, k) => if r.Inside? && k < SLOTS then r.(seen := r.seen + {g.slots[k]}) else r
    case _ => r
  }

  function CountAfter(g: Gate, before: Reader, after: Reader): nat {
    if !Holding(before) && Holding(after) then g.count + 1
    else if Holding(before) && !Holding(after) && g.count > 0 then g.count - 1
    else g.count
  }

  function Tagged(s: seq<nat>, k: nat, tag: nat): seq<nat>
    requires k < |s|
  {
    s[k := tag]
  }

  /** One atomic step of the committer. */
  function CommitterStep(g: Gate, a: Action): Gate
    requires Shape(g)
  {
    match a
    case BeginCommit => if g.committer.Resting? then g.(committer := Compiling(0)) else g
    case RewriteEntry =>
      if g.committer.Compiling? && g.committer.written < SLOTS then
        g.(tables := g.tables[1 - g.active := Tagged(g.tables[1 - g.active], g.committer.written, g.commit + 1)],
           committer := Compiling(g.committer.written + 1))
      else g
    case Abandon => if g.committer.Compiling? then g.(committer := Resting) else g
    case ClearFlag =>
      if g.committer == Compiling(SLOTS) then g.(enabled := false, committer := Draining) else g
    case SeeZero => if g.committer.Draining? && g.count == 0 then g.(committer := Publishing(0)) else g
    case PublishSlot =>
      if g.committer.Publishing? && g.committer.published < SLOTS then
        g.(slots := Tagged(g.slots, g.committer.published, g.commit + 1),
           committer := Publishing(g.committer.published + 1))
      else g
    case Swap =>
      if g.committer == Publishing(SLOTS) then
        g.(active := 1 - g.active, commit := g.commit + 1, committer := Swapped)
      else g
    case SetFlag => if g.committer.Swapped? then g.(enabled := true, committer := Resting) else g
    case _ => g
  }

  predicate OfReader(a: Action) {
    a.LoadFlag? || a.Increment? || a.ReloadFlag? || a.Leave? || a.LoadTable? || a.ReadEntry? || a.ReadSlot?
  }

  function Step(g: Gate, a: Action): Gate
    requires Shape(g)
  {
    if !OfReader(a) then CommitterStep(g, a)
    else if a.r >= |g.readers| then g
    else
      var next := ReaderStep(g, a, g.readers[a.r]);
      g.(readers := g.readers[a.r := next], count := CountAfter(g, g.readers[a.r], next))
  }

  // ---------------------------------------------------------------- the invariant

  /** The committer is between the return of `pauseMutationReads` and `resumeMutationReads`. */
  predicate Exclusive(c: Committer) {
    c.Publishing? || c.Swapped?
  }

  predicate ReaderOk(g: Gate, r: Reader) {
    r.Inside? ==>
      && !Exclusive(g.committer)
      && (r.table == -1 || r.table == g.active)
      && r.entered == g.commit && r.seen <= {g.commit}
  }

  /** The committer has rewritten entry `k` of the inactive table. */
  predicate Rewritten(c: Committer, k: nat) {
    c.Draining? || c.Publishing? || (c.Compiling? && k < c.written)
  }

  ghost predicate TagsOk(g: Gate)
    requires Shape(g)
  {
    && (forall k :: 0 <= k < SLOTS ==> g.tables[g.active][k] == g.commit)
    && (forall k :: 0 <= k < SLOTS ==>
          g.slots[k] == if g.committer.Publishing? && k < g.committer.published then g.commit + 1 else g.commit)
    && (forall k :: 0 <= k < SLOTS && Rewritten(g.committer, k) ==> g.tables[1 - g.active][k] == g.commit + 1)
    && (g.committer.Publishing? ==> g.committer.published <= SLOTS)
    && (g.committer.Compiling? ==> g.committer.written <= SLOTS)
  }

  ghost predicate Inv(g: Gate) {
    && Shape(g) && TagsOk(g)
    && g.count == Holders(g.readers)
    && (g.enabled <==> g.committer.Resting? || g.committer.Compiling?)
    && forall r :: 0 <= r < |g.readers| ==> ReaderOk(g, g.readers[r])
  }

  lemma {:induction false} HoldersUpdate(readers: seq<Reader>, i: nat, r: Reader)
    requires i < |readers|
    ensures Holders(readers[i := r]) ==
      Holders(readers) - (if Holding(readers[i]) then 1 else 0) + (if Holding(r) then 1 else 0)
  {
    var n := |readers| - 1;
    if i < n {
      HoldersUpdate(readers[..n], i, r);
      assert readers[i := r][..n] == readers[..n][i := r];
    } else {
      assert readers[i := r][..n] == readers[..n];
    }
  }

  lemma {:induction false} ZeroHolders(readers: seq<Reader>, i: nat)
    requires Holders(readers) == 0 && i < |readers|
    ensures !Holding(readers[i])
  {
    if i < |readers| - 1 { ZeroHolders(readers[..|readers| - 1], i); }
  }

  lemma {:induction false} StartHolders(n: nat)
    ensures Holders(seq(n, _ => Outside)) == 0
  {
    if n > 0 {
      StartHolders(n - 1);
      assert seq(n, _ => Outside)[..n - 1] == seq(n - 1, _ => Outside);
    }
  }

  lemma ReaderStepKeeps(g: Gate, a: Action)
    requires Inv(g) && OfReader(a)
    ensures Inv(Step(g, a))
  {
    hide Holders, ReaderStep, TagsOk, ReaderOk;
    if a.r < |g.readers| {
      var before, h := g.readers[a.r], Step(g, a);
      var next := ReaderStep(g, a, before);
      HoldersUpdate(g.readers, a.r, next);
      ReaderMoves(g, a, before);
      ReaderLeaves(g, h);
      forall r | 0 <= r < |h.readers| ensures ReaderOk(h, h.readers[r]) {
        assert ReaderOk(g, g.readers[r]);
      }
    }
  }

  lemma ReaderMoves(g: Gate, a: Action, r: Reader)
    requires Inv(g) && OfReader(a) && ReaderOk(g, r)
    ensures ReaderOk(g, ReaderStep(g, a, r))
  {
  }

  /** What a step of a reader leaves alone. */
  lemma ReaderLeaves(g: Gate, h: Gate)
    requires Shape(g) && TagsOk(g) && h == g.(readers := h.readers, count := h.count)
    ensures Shape(h) && TagsOk(h) && forall r: Reader :: ReaderOk(g, r) <==> ReaderOk(h, r)
  {
  }

  lemma TagsKept(g: Gate, a: Action)
    requires Inv(g) && !OfReader(a)
    ensures TagsOk(Step(g, a))
  {
    var h := Step(g, a);
    if a.Swap? {
      if g.committer == Publishing(SLOTS) {
        forall k | 0 <= k < SLOTS ensures h.tables[h.active][k] == h.commit {
          assert Rewritten(g.committer, k) && h.active == 1 - g.active;
        }
      }
    } else {
      assert h.tables[g.active] == g.tables[g.active];
      forall k | 0 <= k < SLOTS && Rewritten(h.committer, k)
        ensures h.tables[1 - h.active][k] == h.commit + 1
      {
        assert Rewritten(g.committer, k) || (a.RewriteEntry? && k == g.committer.written);
      }
    }
  }

  lemma CommitterStepKeeps(g: Gate, a: Action)
    requires Inv(g) && !OfReader(a)
    ensures Inv(Step(g, a))
  {
    var h := Step(g, a);
    TagsKept(g, a);
    forall r | 0 <= r < |h.readers| ensures ReaderOk(h, h.readers[r]) {
      assert ReaderOk(g, g.readers[r]);
      if a.SeeZero? && g.count == 0 { ZeroHolders(g.readers, r); }
    }
  }

  /** The state after any interleaving of steps of any number of readers and the committer. */
  ghost function After(readers: nat, actions: seq<Action>): (g: Gate)
    ensures Inv(g) && |g.readers| == readers
  {
    if actions == [] then
      StartHolders(readers);
      Start(readers)
    else
      var before := After(readers, actions[..|actions| - 1]);
      var a := actions[|actions| - 1];
      assert Inv(Step(before, a)) by {
        if OfReader(a) { ReaderStepKeeps(before, a); } else { CommitterStepKeeps(before, a); }
      }
      Step(before, a)
  }

  // ---------------------------------------------------------------- theorems

  /** Between pause and resume no reader is inside its read section. */
  lemma MutualExclusion(readers: nat, actions: seq<Action>, r: nat)
    requires r < readers && Exclusive(After(readers, actions).committer)
    ensures !After(readers, actions).readers[r].Inside?
  {
    assert ReaderOk(After(readers, actions), After(readers, actions).readers[r]);
  }

  /** No step of the committer writes an entry of a table that a reader holds, and none changes a
      runtime slot while a reader is inside. */
  lemma HeldTableIsStable(readers: nat, actions: seq<Action>, a: Action, r: nat)
    requires r < readers && !OfReader(a)
    ensures var g := After(readers, actions);
      var h := Step(g, a);
      g.readers[r].Inside? ==>
        && (g.readers[r].table >= 0 ==> h.tables[g.readers[r].table] == g.tables[g.readers[r].table])
        && h.slots == g.slots && h.commit == g.commit && h.active == g.active
  {
    var g := After(readers, actions);
    assert ReaderOk(g, g.readers[r]);
  }

  /** Everything a reader has met in its section belongs to one commit, and that is the commit
      that was current when it entered. */
  lemma OneCommitPerSection(readers: nat, actions: seq<Action>, r: nat)
    requires r < readers && After(readers, actions).readers[r].Inside?
    ensures var me := After(readers, actions).readers[r];
      me.seen <= {me.entered} && me.entered == After(readers, actions).commit
  {
    assert ReaderOk(After(readers, actions), After(readers, actions).readers[r]);
  }

  /** Steps a reader still takes before it no longer holds the count. */
  function Remaining(readers: seq<Reader>): nat {
    if readers == [] then 0
    else
      var r := readers[|readers| - 1];
      Remaining(readers[..|readers| - 1]) +
      (match r case Outside => 0 case SawEnabled => 3 case Counted => 2 case Refused => 1 case Inside(_, _, _) => 1)
  }

  lemma {:induction false} RemainingUpdate(readers: seq<Reader>, i: nat, r: Reader)
    requires i < |readers|
    ensures Remaining(readers[i := r]) - Remaining([r]) == Remaining(readers) - Remaining([readers[i]])
  {
    var n := |readers| - 1;
    assert [r][..0] == [] && [readers[i]][..0] == [];
    if i < n {
      RemainingUpdate(readers[..n], i, r);
      assert readers[i := r][..n] == readers[..n][i := r];
    } else {
      assert readers[i := r][..n] == readers[..n];
    }
  }

  /** A reader's step never adds work while the gate is closed, and a step on the way out takes some. */
  lemma StepRemaining(g: Gate, a: Action)
    requires Inv(g) && g.committer.Draining? && OfReader(a) && a.r < |g.readers|
    ensures var h := Step(g, a);
      && |h.readers| == |g.readers| && Remaining(h.readers) <= Remaining(g.readers)
      && (h.readers[a.r] != g.readers[a.r] && (a.Increment? || a.ReloadFlag? || a.Leave?) ==>
            Remaining(h.readers) < Remaining(g.readers))
  {
    hide Remaining, Holders, CountAfter;
    var next := ReaderStep(g, a, g.readers[a.r]);
    RemainingUpdate(g.readers, a.r, next);
    RemainingOne(next);
    RemainingOne(g.readers[a.r]);
  }

  lemma RemainingOne(r: Reader)
    ensures Remaining([r]) ==
      match r case Outside => 0 case SawEnabled => 3 case Counted => 2 case Refused => 1 case Inside(_, _, _) => 1
  {
    assert [r][..0] == [];
  }

  lemma CountIsHolders(g: Gate)
    requires Inv(g)
    ensures g.count == Holders(g.readers)
  {
  }

  /** Draining ends: with the flag clear no reader step adds work, and every step that moves a
      reader on (all but the reads inside a section) brings the count closer to zero. */
  lemma DrainProgress(readers: nat, actions: seq<Action>, a: Action)
    requires After(readers, actions).committer.Draining? && OfReader(a) && a.r < readers
    ensures var g := After(readers, actions);
      var h := Step(g, a);
      && Remaining(h.readers) <= Remaining(g.readers)
      && (h.readers[a.r] != g.readers[a.r] && (a.Increment? || a.ReloadFlag? || a.Leave?) ==>
            Remaining(h.readers) < Remaining(g.readers))
      && (Remaining(h.readers) == 0 ==> h.count == 0)
  {
    hide After, Step, Remaining;
    var g := After(readers, actions);
    ReaderStepKeeps(g, a);
    StepRemaining(g, a);
    NoWorkNoHolders(Step(g, a).readers);
    CountIsHolders(Step(g, a));
  }

  lemma {:induction false} NoWorkNoHolders(readers: seq<Reader>)
    ensures Remaining(readers) == 0 ==> Holders(readers) == 0
  {
    if readers != [] { NoWorkNoHolders(readers[..|readers| - 1]); }
  }
}
