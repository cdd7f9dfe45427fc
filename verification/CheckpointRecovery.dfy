/** What a durable recording keeps through power failures: from the last committed checkpoint on,
    every boot recovers a record-aligned prefix of the capture that is at least that long. */
module CheckpointRecovery {
  import opened Types
  import opened SessionDisk
  import opened SessionRecovery

  /** The file agrees with the capture for `k` octets; behind that there is at most (part of) an End
      record, at a record boundary. */
  ghost predicate FromCapture(c: Content, data: Content, k: nat) {
    && k <= |c| && k <= |data| && c[..k] == data[..k]
    && (|c| > k ==> Aligned(data[..k]) && c[k].Start? && c[k].kind.End?)
  }

  /** How much the manifest that recovery would trust has committed. */
  function Committed(d: Disk): nat {
    match Chosen(d) case None => 0 case Some(s) => d.Slot(s).value.committed
  }

  /** The temporary file comes from the capture and a manifest vouches for at least `n` octets. */
  ghost predicate Safe(d: Disk, data: Content, n: nat) {
    && d.temp.Some? && Chosen(d).Some? && n <= Committed(d)
    && exists k: nat :: FromCapture(d.temp.value, data, k)
  }

  /** A finished session whose recorded part is an aligned prefix of the capture of at least `n` octets. */
  ghost predicate Finished(c: Content, data: Content, n: nat) {
    Usable(Inspect(c)) && exists k: nat :: n <= k < |c| && FromCapture(c, data, k)
  }

  ghost predicate TempFinished(d: Disk, data: Content, n: nat) {
    d.temp.Some? && Finished(d.temp.value, data, n)
  }

  ghost predicate LogFinished(d: Disk, data: Content, n: nat) {
    d.temp.None? && d.log.Some? && Finished(d.log.value, data, n)
  }

  ghost predicate Progress(d: Disk, data: Content, n: nat) {
    Safe(d, data, n) || TempFinished(d, data, n) || LogFinished(d, data, n)
  }

  // ---------------------------------------------------------------- prefixes

  lemma EndBlocks(a: Content, c: Content)
    requires Aligned(a) && a <= c && |a| < |c| && c[|a|].Start? && c[|a|].kind.End?
    ensures Inspect(c) != Checkpoint
  {
    InspectThrough(a, c);
  }

  lemma {:induction false} WalkPrefix(c: Content, n: nat, offset: nat, required: bool)
    requires offset <= n <= |c| && Walk(c, offset, required) == Checkpoint
    ensures !Usable(Walk(c[..n], offset, required))
    decreases n - offset
  {
    if offset < n {
      assert c[..n][offset] == c[offset];
      if offset + c[offset].length <= n { WalkPrefix(c, n, offset + c[offset].length, required); }
    }
  }

  /** No part of a running capture looks like a finished session. */
  lemma RunningIsNotFinished(data: Content, n: nat)
    requires Aligned(data) && n <= |data|
    ensures !Usable(Inspect(data[..n]))
  {
    if HeaderOk(data[..n]) {
      assert data[..n][0] == data[0];
      WalkPrefix(data, n, HEADER_BYTES, data[0].kind.endCrcRequired);
    }
  }

  /** A manifest only ever vouches for an aligned prefix of the capture. */
  lemma VouchedPrefix(m: Option<Manifest>, temp: Content, data: Content, k: nat)
    requires FromCapture(temp, data, k) && Vouches(m, Some(temp))
    ensures m.value.committed <= k
    ensures temp[..m.value.committed] == data[..m.value.committed] && Aligned(data[..m.value.committed])
  {
    var n := m.value.committed;
    if |temp| > k {
      assert temp[..k] == data[..k];
      if n > k {
        assert data[..k] <= temp[..n] && temp[..n][k] == temp[k];
        EndBlocks(data[..k], temp[..n]);
      }
    }
    assert n <= k ==> temp[..n] == temp[..k][..n] == data[..k][..n] == data[..n];
  }

  /** A temporary file that already looks finished is finished from the capture. */
  lemma UsableIsFinished(d: Disk, data: Content, n: nat)
    requires Safe(d, data, n) && Aligned(data) && Usable(StateOf(d.temp))
    ensures TempFinished(d, data, n)
  {
    var c := d.temp.value;
    var k: nat :| FromCapture(c, data, k);
    VouchedPrefix(d.Slot(Chosen(d).value), c, data, k);
    if |c| == k {
      assert c == data[..k];
      RunningIsNotFinished(data, k);
    }
    assert k < |c| ==> n <= k < |c| && FromCapture(c, data, k);
  }

  // ---------------------------------------------------------------- the steps of `begin`

  lemma ResetKeepsChoice(d: Disk, s: nat, boot: Boot)
    requires Chosen(d) == Some(s)
    ensures var r := RecordReset(d, s, boot);
      && r.temp == d.temp && Chosen(r).Some? && Committed(r) == Committed(d)
      && Vouches(r.Slot(s), r.temp) && r.Slot(s) == d.Slot(s)
  {
  }

  /** Changing the temporary file behind the committed prefix, with no record boundary beyond it,
      does not change which prefix recovery trusts. */
  lemma TailKeepsChoice(d: Disk, e: Disk, data: Content, s: nat)
    requires Chosen(d) == Some(s) && e.ck0 == d.ck0 && e.ck1 == d.ck1 && e.temp.Some?
    requires var n := Committed(d);
      FromCapture(e.temp.value, data, n) && e.temp.value[..n] == d.temp.value[..n]
    ensures Chosen(e) == Some(s) && Committed(e) == Committed(d)
  {
    assert Chosen(d).value == s && s < 2;
    var n, o: nat := Committed(d), 1 - s;
    assert Vouches(e.Slot(s), e.temp);
    if Vouches(e.Slot(o), e.temp) {
      VouchedPrefix(e.Slot(o), e.temp.value, data, n);
      var m := e.Slot(o).value.committed;
      assert e.temp.value[..m] == e.temp.value[..n][..m] == d.temp.value[..n][..m] == d.temp.value[..m];
      assert Vouches(d.Slot(o), d.temp);
    }
  }

  /** Recovery leaves the choice intact until the End record is whole, and then the file is finished. */
  lemma RecoverProgress(d: Disk, data: Content, n: nat, boot: Boot)
    requires Safe(d, data, n) && Aligned(data)
    ensures var r := RecoverCandidate(d, Chosen(d).value, boot);
      && (Safe(r, data, n) || TempFinished(r, data, n))
      && (r.power > 0 ==> TempFinished(r, data, n)) && r.log == d.log && r.backup == d.backup
  {
    var s, m := Chosen(d).value, Committed(d);
    ResetKeepsChoice(d, s, boot);
    var noted := RecordReset(d, s, boot);
    var r := RecoverCandidate(d, s, boot);
    var a := d.temp.value[..m];
    FinalizeShape(noted, m, boot.endText);
    var k: nat :| FromCapture(d.temp.value, data, k);
    VouchedPrefix(d.Slot(s), d.temp.value, data, k);
    if r.temp != d.temp || r.power > 0 {
      EndTailState(a, r.temp.value, boot.endText);
      CutFromCapture(r.temp.value, a, data, m, boot.endText);
      NotedChoice(noted, r, data);
      if Inspect(r.temp.value) == Recovered {
        assert n <= m < |r.temp.value| && FromCapture(r.temp.value, data, m);
      }
    } else {
      assert FromCapture(r.temp.value, data, k);
      SameChoice(noted, r);
    }
  }

  lemma SameChoice(d: Disk, e: Disk)
    requires e.ck0 == d.ck0 && e.ck1 == d.ck1 && e.temp == d.temp
    ensures Chosen(e) == Chosen(d) && Committed(e) == Committed(d)
  {
  }

  lemma NotedChoice(d: Disk, e: Disk, data: Content)
    requires Chosen(d).Some? && e.ck0 == d.ck0 && e.ck1 == d.ck1 && e.temp.Some?
    requires FromCapture(e.temp.value, data, Committed(d)) && Committed(d) <= |e.temp.value|
    requires e.temp.value[..Committed(d)] == d.temp.value[..Committed(d)]
    ensures Chosen(e) == Chosen(d) && Committed(e) == Committed(d)
  {
    TailKeepsChoice(d, e, data, Chosen(d).value);
  }

  /** A committed prefix with part of its End record comes from the capture. */
  lemma CutFromCapture(c: Content, a: Content, data: Content, m: nat, text: EndText)
    requires m <= |data| && a == data[..m] && Aligned(a) && a <= c <= a + EndRecord(a, text)
    ensures FromCapture(c, data, m)
  {
    assert c[..m] == a;
    if |c| > m { assert c[m] == (a + EndRecord(a, text))[m] == EndRecord(a, text)[0]; }
  }

  lemma PromoteProgress(d: Disk, data: Content, n: nat)
    requires TempFinished(d, data, n)
    ensures Progress(Promote(d), data, n)
    ensures Promote(d).power > 0 ==> LogFinished(Promote(d), data, n)
  {
    var kept := PreserveLog(d);
    var moved := Rename(kept, Temp, Log);
    assert kept.temp == d.temp;
    if moved.temp.None? {
      assert LogFinished(moved, data, n);
      assert Promote(d).log == moved.log && Promote(d).temp.None?;
    } else {
      assert TempFinished(moved, data, n) && moved.power == 0;
    }
  }

  /** A boot, interrupted anywhere, keeps the way to the committed prefix open; a boot that finishes
      has it in the log. */
  lemma BeginProgress(d: Disk, data: Content, n: nat, boot: Boot)
    requires Progress(d, data, n) && Aligned(data)
    ensures Progress(Begin(d, boot), data, n)
    ensures Begin(d, boot).power > 0 ==> LogFinished(Begin(d, boot), data, n)
  {
    RestoreKeepsNewest(d);
    DropKeepsNewest(RestorePrimary(d));
    var ready := DropBackup(RestorePrimary(d));
    if LogFinished(d, data, n) {
      assert ready.log == d.log && ready.temp.None?;
      ArtifactsKeepNewest(ready, true);
      assert Begin(d, boot).log == d.log && Begin(d, boot).temp.None?;
    } else {
      SameChoice(d, ready);
      if Safe(d, data, n) {
        assert Safe(ready, data, n);
        if Usable(StateOf(ready.temp)) {
          UsableIsFinished(ready, data, n);
          PromoteProgress(ready, data, n);
        } else {
          RecoverProgress(ready, data, n, boot);
          RecoveredPromotes(RecoverCandidate(ready, Chosen(ready).value, boot), data, n);
        }
      } else {
        assert TempFinished(ready, data, n);
        PromoteProgress(ready, data, n);
      }
    }
  }

  lemma RecoveredPromotes(d: Disk, data: Content, n: nat)
    requires Safe(d, data, n) || TempFinished(d, data, n)
    requires d.power > 0 ==> TempFinished(d, data, n)
    ensures Progress(Promote(d), data, n)
    ensures Promote(d).power > 0 ==> LogFinished(Promote(d), data, n)
  {
    if d.power > 0 {
      PromoteProgress(d, data, n);
    } else {
      PromoteOff(d);
    }
  }

  lemma PromoteOff(d: Disk)
    requires d.power == 0
    ensures Promote(d) == d
  {
  }

  /** Power may fail during recording and in any number of boots: as long as some octets were
      committed, the recovered session is a record-aligned prefix of the capture of at least that
      length, and a boot that finishes has it in the log. */
  lemma {:induction false} RebootsRecover(d: Disk, data: Content, n: nat, cycles: seq<PowerCycle>)
    requires Progress(d, data, n) && Aligned(data)
    ensures Progress(Reboots(d, cycles), data, n)
    ensures cycles != [] && Reboots(d, cycles).power > 0 ==> LogFinished(Reboots(d, cycles), data, n)
  {
    if cycles != [] {
      var c := cycles[|cycles| - 1];
      var before := Reboots(d, cycles[..|cycles| - 1]);
      RebootsRecover(d, data, n, cycles[..|cycles| - 1]);
      PowerIsNotProgress(before, before.(power := c.power, tear := c.tear), data, n);
      BeginProgress(before.(power := c.power, tear := c.tear), data, n, c.boot);
    }
  }

  lemma PowerIsNotProgress(d: Disk, e: Disk, data: Content, n: nat)
    requires Progress(d, data, n) && e == d.(power := e.power, tear := e.tear)
    ensures Progress(e, data, n)
  {
    SameChoice(d, e);
  }
}
