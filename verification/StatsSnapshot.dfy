/** The triple-buffered statistics of the gateway (`publishStats`, `snapshotStats`,
    core/gateway.cpp) as sequentially consistent steps of one publisher and any number of readers.
    A buffer is copied word by word; a published value is a number, repeated in every word. */
module StatsSnapshot {

  const BUFFERS := 3

  datatype Publisher =
    | Idle
    | Checking(offset: nat, value: nat)              // looking for a buffer without readers
    | Copying(target: nat, words: nat, value: nat)   // words written so far

  datatype Reader =
    | Out
    | Loaded(index: nat)                 // active index loaded, reader not counted yet
    | Counted(index: nat)                // counted, re-check still to come
    | Failed(index: nat)                 // re-check failed, count still to be released
    | Reading(index: nat, copied: seq<nat>, value: nat)
    | Done(snapshot: seq<nat>, value: nat)

  datatype Stats = Stats(
    words: nat, buffers: seq<seq<nat>>, counts: seq<nat>, active: nat,
    publisher: Publisher, readers: seq<Reader>, tags: seq<nat>, latest: nat)

  datatype Action =
    | BeginPublish(value: nat) | CheckBuffer | CopyWord | Activate
    | Load(r: nat) | Count(r: nat) | Recheck(r: nat) | Release(r: nat) | ReadWord(r: nat) | Finish(r: nat)

  function Start(words: nat, readers: nat): Stats {
    Stats(words, seq(BUFFERS, _ => seq(words, _ => 0)), [0, 0, 0], 0, Idle, seq(readers, _ => Out), [0, 0, 0], 0)
  }

  predicate Shape(s: Stats) {
    && |s.buffers| == |s.counts| == |s.tags| == BUFFERS && s.active < BUFFERS
    && forall i :: 0 <= i < BUFFERS ==> |s.buffers[i]| == s.words
  }

  predicate Counts(r: Reader, i: nat) {
    (r.Counted? && r.index == i) || (r.Failed? && r.index == i) || (r.Reading? && r.index == i)
  }

  function Counting(readers: seq<Reader>, i: nat): nat {
    if readers == [] then 0
    else Counting(readers[..|readers| - 1], i) + (if Counts(readers[|readers| - 1], i) then 1 else 0)
  }

  function Candidate(s: Stats, offset: nat): nat {
    (s.active + offset) % BUFFERS
  }

  function PublisherStep(s: Stats, a: Action): Stats
    requires Shape(s)
  {
    match a
    case BeginPublish(v) => if s.publisher.Idle? then s.(publisher := Checking(1, v)) else s
    case CheckBuffer =>
      if s.publisher.Checking? then
        if s.publisher.offset >= BUFFERS then s.(publisher := Idle)
        else if s.counts[Candidate(s, s.publisher.offset)] != 0 then
          s.(publisher := Checking(s.publisher.offset + 1, s.publisher.value))
        else s.(publisher := Copying(Candidate(s, s.publisher.offset), 0, s.publisher.value))
      else s
    case CopyWord =>
      if s.publisher.Copying? && s.publisher.target < BUFFERS && s.publisher.words < s.words then
        s.(buffers := s.buffers[s.publisher.target :=
             Written(s.buffers[s.publisher.target], s.publisher.words, s.publisher.value)],
           publisher := s.publisher.(words := s.publisher.words + 1))
      else s
    case Activate =>
      if s.publisher.Copying? && s.publisher.target < BUFFERS && s.publisher.words == s.words then
        s.(active := s.publisher.target, latest := s.publisher.value, publisher := Idle,
           tags := Written(s.tags, s.publisher.target, s.publisher.value))
      else s
    case _ => s
  }

  function Written(b: seq<nat>, k: nat, v: nat): (r: seq<nat>)
    requires k < |b|
    ensures |r| == |b|
  {
    b[k := v]
  }

  function ReaderStep(s: Stats, a: Action, r: Reader): Reader
    requires Shape(s)
  {
    match a
    case Load(_) => if r.Out? || r.Done? then Loaded(s.active) else r
    case Count(_) => if r.Loaded? then Counted(r.index) else r
    case Recheck(_) =>
      if r.Counted? then (if s.active == r.index then Reading(r.index, [], s.latest) else Failed(r.index)) else r
    case Release(_) => if r.Failed? then Out else r
    case ReadWord(_) =>
      if r.Reading? && r.index < BUFFERS && |r.copied| < s.words
      then r.(copied := r.copied + [s.buffers[r.index][|r.copied|]]) else r
    case Finish(_) => if r.Reading? && |r.copied| == s.words then Done(r.copied, r.value) else r
    case _ => r
  }

  predicate OfReader(a: Action) {
    a.Load? || a.Count? || a.Recheck? || a.Release? || a.ReadWord? || a.Finish?
  }

  function Recount(s: Stats, before: Reader, after: Reader, i: nat): nat
    requires i < |s.counts|
  {
    if !Counts(before, i) && Counts(after, i) then s.counts[i] + 1
    else if Counts(before, i) && !Counts(after, i) && s.counts[i] > 0 then s.counts[i] - 1
    else s.counts[i]
  }

  function Step(s: Stats, a: Action): Stats
    requires Shape(s)
  {
    if !OfReader(a) then PublisherStep(s, a)
    else if a.r >= |s.readers| then s
    else
      var before := s.readers[a.r];
      var after := ReaderStep(s, a, before);
      s.(readers := s.readers[a.r := after],
         counts := [Recount(s, before, after, 0), Recount(s, before, after, 1), Recount(s, before, after, 2)])
  }

  // ---------------------------------------------------------------- the invariant

  /** The publisher is writing buffer `i`. */
  predicate Dirty(p: Publisher, i: nat) {
    p.Copying? && p.target == i
  }

  predicate ReaderOk(s: Stats, r: Reader)
    requires |s.tags| == BUFFERS
  {
    match r
    case Out => true
    case Loaded(i) => i < BUFFERS
    case Counted(i) => i < BUFFERS
    case Failed(i) => i < BUFFERS
    case Reading(i, copied, value) =>
      && i < BUFFERS && !Dirty(s.publisher, i) && s.tags[i] == value
      && |copied| <= s.words && copied == seq(|copied|, _ => value)
    case Done(snapshot, value) => snapshot == seq(s.words, _ => value)
  }

  ghost predicate BuffersOk(s: Stats)
    requires Shape(s)
  {
    && (forall i, k :: 0 <= i < BUFFERS && 0 <= k < s.words && !Dirty(s.publisher, i) ==>
          s.buffers[i][k] == s.tags[i])
    && s.tags[s.active] == s.latest
    && (s.publisher.Checking? ==> 1 <= s.publisher.offset <= BUFFERS)
    && (s.publisher.Copying? ==>
          s.publisher.target < BUFFERS && s.publisher.target != s.active && s.publisher.words <= s.words &&
          forall k :: 0 <= k < s.publisher.words ==> s.buffers[s.publisher.target][k] == s.publisher.value)
  }

  ghost predicate Inv(s: Stats) {
    && Shape(s) && BuffersOk(s)
    && (forall i :: 0 <= i < BUFFERS ==> s.counts[i] == Counting(s.readers, i))
    && forall r :: 0 <= r < |s.readers| ==> ReaderOk(s, s.readers[r])
  }

  lemma {:induction false} CountingUpdate(readers: seq<Reader>, k: nat, r: Reader, i: nat)
    requires k < |readers|
    ensures Counting(readers[k := r], i) ==
      Counting(readers, i) - (if Counts(readers[k], i) then 1 else 0) + (if Counts(r, i) then 1 else 0)
  {
    var n := |readers| - 1;
    if k < n {
      CountingUpdate(readers[..n], k, r, i);
      assert readers[k := r][..n] == readers[..n][k := r];
    } else {
      assert readers[k := r][..n] == readers[..n];
    }
  }

  lemma {:induction false} NobodyCounts(readers: seq<Reader>, i: nat, k: nat)
    requires Counting(readers, i) == 0 && k < |readers|
    ensures !Counts(readers[k], i)
  {
    if k < |readers| - 1 { NobodyCounts(readers[..|readers| - 1], i, k); }
  }

  lemma {:induction false} NobodyAtStart(n: nat, i: nat)
    ensures Counting(seq(n, _ => Out), i) == 0
  {
    if n > 0 {
      NobodyAtStart(n - 1, i);
      assert seq(n, _ => Out)[..n - 1] == seq(n - 1, _ => Out);
    }
  }

  lemma ReaderMoves(s: Stats, a: Action, r: Reader)
    requires Inv(s) && ReaderOk(s, r)
    ensures ReaderOk(s, ReaderStep(s, a, r))
  {
  }

  lemma RecountIs(s: Stats, k: nat, after: Reader, i: nat)
    requires Shape(s) && k < |s.readers| && i < BUFFERS && s.counts[i] == Counting(s.readers, i)
    ensures Recount(s, s.readers[k], after, i) == Counting(s.readers[k := after], i)
  {
    hide Counting, Counts;
    CountingUpdate(s.readers, k, after, i);
  }

  /** What a step of a reader leaves alone. */
  lemma ReaderLeaves(s: Stats, t: Stats)
    requires Shape(s) && BuffersOk(s) && t == s.(readers := t.readers, counts := t.counts) && |t.counts| == BUFFERS
    ensures Shape(t) && BuffersOk(t) && forall r: Reader :: ReaderOk(s, r) <==> ReaderOk(t, r)
  {
  }

  lemma ReaderStepKeeps(s: Stats, a: Action)
    requires Inv(s) && OfReader(a)
    ensures Inv(Step(s, a))
  {
    hide ReaderStep, Counting, Recount, BuffersOk, ReaderOk;
    if a.r < |s.readers| {
      var before, t := s.readers[a.r], Step(s, a);
      var after := ReaderStep(s, a, before);
      ReaderMoves(s, a, before);
      RecountIs(s, a.r, after, 0);
      RecountIs(s, a.r, after, 1);
      RecountIs(s, a.r, after, 2);
      ReaderLeaves(s, t);
      forall r | 0 <= r < |t.readers| ensures ReaderOk(t, t.readers[r]) {
        assert ReaderOk(s, s.readers[r]);
      }
    }
  }

  lemma PublisherStepKeeps(s: Stats, a: Action)
    requires Inv(s) && !OfReader(a)
    ensures Inv(Step(s, a))
  {
    var t := Step(s, a);
    forall r | 0 <= r < |t.readers| ensures ReaderOk(t, t.readers[r]) {
      assert ReaderOk(s, s.readers[r]);
      if a.CheckBuffer? && t.publisher.Copying? && s.publisher.Checking? {
        NobodyCounts(s.readers, t.publisher.target, r);
      }
    }
  }

  /** The state after any interleaving of the publisher and any number of readers. */
  ghost function After(words: nat, readers: nat, actions: seq<Action>): (s: Stats)
    ensures Inv(s) && s.words == words && |s.readers| == readers
  {
    if actions == [] then
      NobodyAtStart(readers, 0);
      NobodyAtStart(readers, 1);
      NobodyAtStart(readers, 2);
      Start(words, readers)
    else
      var before := After(words, readers, actions[..|actions| - 1]);
      var a := actions[|actions| - 1];
      assert Inv(Step(before, a)) by {
        if OfReader(a) { ReaderStepKeeps(before, a); } else { PublisherStepKeeps(before, a); }
      }
      Step(before, a)
  }

  // ---------------------------------------------------------------- theorems

  /** Every finished snapshot is one whole published value. */
  lemma SnapshotIsWhole(words: nat, readers: nat, actions: seq<Action>, r: nat)
    requires r < readers && After(words, readers, actions).readers[r].Done?
    ensures var done := After(words, readers, actions).readers[r];
      done.snapshot == seq(words, _ => done.value)
  {
    assert ReaderOk(After(words, readers, actions), After(words, readers, actions).readers[r]);
  }

  lemma SameReaders(s: Stats, a: Action)
    requires Shape(s)
    ensures |Step(s, a).readers| == |s.readers|
  {
  }

  lemma RecheckSeesLatest(s: Stats, r: nat, a: Action)
    requires Inv(s) && r < |s.readers| && a == Recheck(r)
    requires s.readers[r].Counted? && Step(s, a).readers[r].Reading?
    ensures Step(s, a).readers[r].value == s.latest
    ensures s.readers[r].index < BUFFERS && s.buffers[s.readers[r].index] == seq(s.words, _ => s.latest)
  {
    assert !Dirty(s.publisher, s.active);
  }

  lemma ValueStays(s: Stats, r: nat, a: Action)
    requires Inv(s) && r < |s.readers| && s.readers[r].Reading? && Step(s, a).readers[r] != s.readers[r]
    ensures Step(s, a).readers[r].Reading? || Step(s, a).readers[r].Done?
    ensures Step(s, a).readers[r].value == s.readers[r].value
  {
    hide Recount;
  }

  lemma BufferStays(s: Stats, r: nat, a: Action)
    requires Inv(s) && r < |s.readers| && s.readers[r].Reading?
    ensures s.readers[r].index < BUFFERS
    ensures Step(s, a).buffers[s.readers[r].index] == s.buffers[s.readers[r].index]
  {
    hide Recount, ReaderStep;
    assert ReaderOk(s, s.readers[r]);
  }

  /** That value is the latest one published when the reader re-checked: the re-check records it,
      the active buffer holds it then, and no later step of anyone changes it under the reader. */
  lemma SnapshotIsLatestAtRecheck(words: nat, readers: nat, actions: seq<Action>, r: nat, a: Action)
    requires r < readers
    ensures var s := After(words, readers, actions);
      var t := Step(s, a);
      && (a == Recheck(r) && s.readers[r].Counted? && t.readers[r].Reading? ==>
            t.readers[r].value == s.latest && s.buffers[s.readers[r].index] == seq(words, _ => s.latest))
      && (s.readers[r].Reading? && t.readers[r] != s.readers[r] ==>
            (t.readers[r].Reading? || t.readers[r].Done?) && t.readers[r].value == s.readers[r].value)
      && (s.readers[r].Reading? ==> t.buffers[s.readers[r].index] == s.buffers[s.readers[r].index])
  {
    hide Step, After;
    var s := After(words, readers, actions);
    SameReaders(s, a);
    if a == Recheck(r) && s.readers[r].Counted? && Step(s, a).readers[r].Reading? { RecheckSeesLatest(s, r, a); }
    if s.readers[r].Reading? {
      BufferStays(s, r, a);
      if Step(s, a).readers[r] != s.readers[r] { ValueStays(s, r, a); }
    }
  }

  /** Steps left in one call of `publishStats`, whatever the readers do. */
  function PublishSteps(s: Stats): int {
    match s.publisher
    case Idle => 0
    case Checking(offset, _) => (BUFFERS - offset) + s.words + 3
    case Copying(_, written, _) => s.words - written + 1
  }

  /** The publisher never waits: its next step brings it closer to the end of the call in every
      state, and no reader step sets it back. */
  lemma PublisherNeverWaits(words: nat, readers: nat, actions: seq<Action>, a: Action)
    ensures var s := After(words, readers, actions);
      && 0 <= PublishSteps(s) <= words + 5
      && (OfReader(a) ==> PublishSteps(Step(s, a)) == PublishSteps(s))
      && (s.publisher.Checking? ==> PublishSteps(Step(s, CheckBuffer)) < PublishSteps(s))
      && (s.publisher.Copying? && s.publisher.words < words ==>
            PublishSteps(Step(s, CopyWord)) < PublishSteps(s))
      && (s.publisher.Copying? && s.publisher.words == words ==> Step(s, Activate).publisher.Idle?)
  {
    hide After, BuffersOk, ReaderOk, Counting, ReaderStep, Recount;
    var s := After(words, readers, actions);
    PublisherBounds(s);
  }

  lemma PublisherBounds(s: Stats)
    requires Inv(s)
    ensures 0 <= PublishSteps(s) <= s.words + 5
    ensures s.publisher.Copying? ==> s.publisher.target < BUFFERS && s.publisher.words <= s.words
    ensures s.publisher.Checking? ==> 1 <= s.publisher.offset <= BUFFERS
  {
  }
}
