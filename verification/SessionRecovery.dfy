/** Boot-time recovery and save promotion (`begin`, `finalizeRecoveredCheckpoint` and the promotion
    half of `processSaveChunk`, fs/session_log.cpp), and what survives power failures in them. */
module SessionRecovery {
  import opened Types
  import opened SessionDisk

  /** What an End record says: its header and its text. */
  datatype EndText = EndText(header: RecordHeader, text: Bytes)

  /** What a boot brings along: the reset reason and the End record it would write. */
  datatype Boot = Boot(reset: nat, endText: EndText)

  // ---------------------------------------------------------------- the steps of `begin`

  function RestorePrimary(d: Disk): Disk {
    if StateOf(d.log) != Invalid then d
    else
      var cleared := RemoveIfPresent(d, Log);
      if StateOf(d.backup) != Invalid then Rename(cleared, Backup, Log) else cleared
  }

  function DropBackup(d: Disk): Disk {
    if StateOf(d.log) == Complete || StateOf(d.backup) == Invalid then RemoveIfPresent(d, Backup) else d
  }

  /** `readCheckpointManifest`: the manifest vouches for a prefix of the temporary file. */
  predicate Vouches(m: Option<Manifest>, temp: Option<Content>) {
    && m.Some? && m.value.Manifest? && temp.Some?
    && HEADER_BYTES <= m.value.committed <= |temp.value|
    && m.value.checksum == temp.value[..m.value.committed]
    && Aligned(temp.value[..m.value.committed])
  }

  /** The manifest slot that recovery trusts. */
  function Chosen(d: Disk): (r: Option<nat>)
    ensures r.Some? ==> r.value < 2 && Vouches(d.Slot(r.value), d.temp)
  {
    var valid0, valid1 := Vouches(d.ck0, d.temp), Vouches(d.ck1, d.temp);
    if valid0 && (!valid1 || d.ck0.value.generation > d.ck1.value.generation ||
                  (d.ck0.value.generation == d.ck1.value.generation &&
                   d.ck0.value.committed >= d.ck1.value.committed)) then Some(0)
    else if valid1 then Some(1)
    else None
  }

  function EndRecord(prefix: Content, text: EndText): Content {
    Record(End(EndInfo(|prefix|, prefix, true, true)), text.header + text.text)
  }

  /** `finalizeRecoveredCheckpoint`: cut the temporary file to `n` octets and append an End record. */
  function Finalize(d: Disk, n: nat, text: EndText): Disk
    requires d.temp.Some? && n <= |d.temp.value|
  {
    var end := EndRecord(d.temp.value[..n], text);
    Append(Append(Truncate(d, Temp, n), Temp, end[..RECORD_HEADER_BYTES]), Temp, end[RECORD_HEADER_BYTES..])
  }

  /** Record why the device was reset, once, in the other slot. */
  function RecordReset(d: Disk, s: nat, boot: Boot): Disk
    requires s < 2 && Vouches(d.Slot(s), d.temp)
  {
    var m := d.Slot(s).value;
    if m.reset == 0
    then WriteManifest(d, 1 - s, Manifest(m.committed, m.checksum, m.generation + 1, boot.reset)) else d
  }

  /** The first boot that recovers a recording notes its reset reason in the other manifest, which is the
      newest from then on; a reason once noted is never written over. */
  lemma ResetNotedOnce(d: Disk, s: nat, boot: Boot)
    requires s < 2 && Vouches(d.Slot(s), d.temp) && Chosen(d) == Some(s)
    ensures var m, r := d.Slot(s).value, RecordReset(d, s, boot);
      && (m.reset != 0 ==> r == d)
      && (m.reset == 0 && r.power > 0 ==>
            r.Slot(1 - s) == Some(Manifest(m.committed, m.checksum, m.generation + 1, boot.reset)) &&
            r.Slot(s) == d.Slot(s) && r.temp == d.temp && Chosen(r) == Some(1 - s))
  {
    hide Aligned;
  }

  function RecoverCandidate(d: Disk, s: nat, boot: Boot): Disk
    requires s < 2 && Vouches(d.Slot(s), d.temp)
  {
    Finalize(RecordReset(d, s, boot), d.Slot(s).value.committed, boot.endText)
  }

  /** Make room for the candidate without losing the last valid log. */
  function PreserveLog(d: Disk): Disk {
    if d.log.None? then d
    else if StateOf(d.backup) != Invalid then Remove(d, Log)
    else Rename(RemoveIfPresent(d, Backup), Log, Backup)
  }

  predicate Usable(s: FileState) {
    s == Complete || s == Recovered || s == CompleteLegacy
  }

  /** Promote the temporary file; only a completed one replaces the backup. */
  function Promote(d: Disk): Disk {
    var moved := Rename(PreserveLog(d), Temp, Log);
    if moved.power == 0 then moved
    else RemoveArtifacts(if StateOf(d.temp) == Complete then RemoveIfPresent(moved, Backup) else moved, true)
  }

  /** `begin` */
  function Begin(d: Disk, boot: Boot): Disk {
    var ready := DropBackup(RestorePrimary(d));
    if Usable(StateOf(ready.temp)) then Promote(ready)
    else if ready.temp.Some? && Chosen(ready).Some? then
      Promote(RecoverCandidate(ready, Chosen(ready).value, boot))
    else RemoveArtifacts(ready, true)
  }

  /** The promotion half of `processSaveChunk`, behind the validation of the temporary file. */
  function SavePromote(d: Disk): Disk {
    var moved := Rename(PreserveLog(d), Temp, Log);
    if moved.power == 0 then moved else RemoveArtifacts(RemoveIfPresent(moved, Backup), false)
  }

  // ---------------------------------------------------------------- the newest complete session

  /** The temporary file is newer than the log, the log newer than the backup. */
  function Newest(d: Disk): Option<Content> {
    if StateOf(d.temp) == Complete then d.temp
    else if StateOf(d.log) == Complete then d.log
    else if StateOf(d.backup) == Complete then d.backup
    else None
  }

  lemma RestoreKeepsNewest(d: Disk)
    ensures Newest(RestorePrimary(d)) == Newest(d) && RestorePrimary(d).temp == d.temp
    ensures RestorePrimary(d).power > 0 ==> StateOf(RestorePrimary(d).log) != Invalid || StateOf(d.backup) == Invalid
    ensures RestorePrimary(d).ck0 == d.ck0 && RestorePrimary(d).ck1 == d.ck1
  {
  }

  lemma DropKeepsNewest(d: Disk)
    ensures Newest(DropBackup(d)) == Newest(d) && DropBackup(d).temp == d.temp
    ensures DropBackup(d).ck0 == d.ck0 && DropBackup(d).ck1 == d.ck1 && DropBackup(d).log == d.log
    ensures DropBackup(d).power > 0 && StateOf(d.log) == Complete ==> DropBackup(d).backup.None?
  {
  }

  /** Making room may drop a log only when the backup, or the candidate, is what counts. */
  lemma PreserveKeepsNewest(d: Disk)
    requires d.power == 0 || StateOf(d.temp) == Complete || StateOf(d.log) != Complete || d.backup.None?
    ensures Newest(PreserveLog(d)) == Newest(d) && PreserveLog(d).temp == d.temp
    ensures PreserveLog(d).power > 0 ==> PreserveLog(d).log.None?
    ensures PreserveLog(d).ck0 == d.ck0 && PreserveLog(d).ck1 == d.ck1
  {
    hide Inspect;
  }

  lemma PromoteKeepsNewest(d: Disk)
    requires d.temp.Some?
    requires d.power == 0 || StateOf(d.temp) == Complete || StateOf(d.log) != Complete || d.backup.None?
    ensures Newest(Promote(d)) == Newest(d)
    ensures Promote(d).power > 0 ==> Promote(d).temp.None? && Promote(d).log == d.temp
  {
    hide Inspect, PreserveLog;
    PreserveKeepsNewest(d);
  }

  /** Recovery rewrites the temporary file, which stays anything but a completed session. */
  lemma RecoverKeepsNewest(d: Disk, s: nat, boot: Boot)
    requires s < 2 && Vouches(d.Slot(s), d.temp) && StateOf(d.temp) != Complete
    ensures Newest(RecoverCandidate(d, s, boot)) == Newest(d)
  {
    var n := d.Slot(s).value.committed;
    var a := d.temp.value[..n];
    var r := RecoverCandidate(d, s, boot);
    FinalizeShape(RecordReset(d, s, boot), n, boot.endText);
    if r.temp != d.temp {
      EndTailState(a, r.temp.value, boot.endText);
    }
  }

  /** After any amount of finalizing, the file is as before or an aligned prefix with a beginning of
      its End record. */
  lemma FinalizeShape(d: Disk, n: nat, text: EndText)
    requires d.temp.Some? && n <= |d.temp.value|
    ensures var r := Finalize(d, n, text);
      var a, end := d.temp.value[..n], EndRecord(d.temp.value[..n], text);
      && r.log == d.log && r.backup == d.backup && r.ck0 == d.ck0 && r.ck1 == d.ck1 && r.temp.Some?
      && (r.temp == d.temp || (a <= r.temp.value <= a + end))
      && (r.power > 0 ==> r.temp == Some(a + end))
  {
    hide Append;
    var a, end := d.temp.value[..n], EndRecord(d.temp.value[..n], text);
    var head, tail := end[..RECORD_HEADER_BYTES], end[RECORD_HEADER_BYTES..];
    assert head + tail == end;
    AppendTwice(Truncate(d, Temp, n), head, tail);
  }

  lemma AppendTwice(d: Disk, head: Content, tail: Content)
    requires d.temp.Some?
    ensures var r := Append(Append(d, Temp, head), Temp, tail);
      && r.temp.Some? && r.log == d.log && r.backup == d.backup && r.ck0 == d.ck0 && r.ck1 == d.ck1
      && (d.power == 0 ==> r == d)
      && d.temp.value <= r.temp.value <= d.temp.value + (head + tail)
      && (r.power > 0 ==> d.power > 0 && r.temp.value == d.temp.value + (head + tail))
  {
    hide Append;
    var a, one := d.temp.value, Append(d, Temp, head);
    AppendOff(d, head);
    AppendOff(one, tail);
    assert a + (head + tail) == (a + head) + tail;
    assert a <= a + (head + tail);
    if d.power > 0 {
      AppendShape(d, head);
      if one.power > 0 { AppendShape(one, tail); }
      assert a + head <= (a + head) + tail;
    } else {
      AppendOff(d, tail);
    }
  }

  lemma AppendShape(d: Disk, data: Content)
    requires d.power > 0 && d.temp.Some?
    ensures var r := Append(d, Temp, data);
      && r.temp.Some? && d.temp.value <= r.temp.value <= d.temp.value + data
      && (r.power > 0 ==> r.temp.value == d.temp.value + data)
      && r.log == d.log && r.backup == d.backup && r.ck0 == d.ck0 && r.ck1 == d.ck1
  {
    assert data[..|data|] == data;
    AppendPrefix(d.temp.value, data, Persisted(d, |data|));
  }

  lemma AppendOff(d: Disk, data: Content)
    ensures d.power == 0 && d.temp.Some? ==> Append(d, Temp, data) == d
  {
    if d.power == 0 && d.temp.Some? { assert d.temp.value + data[..0] == d.temp.value; }
  }

  lemma AppendPrefix(a: Content, b: Content, k: nat)
    requires k <= |b|
    ensures a <= a + b[..k] <= a + b
  {
  }

  /** An aligned prefix followed by part of an End record is not complete: the cut file is a
      checkpoint, the torn one invalid, the whole one recovered. */
  lemma EndTailState(a: Content, c: Content, text: EndText)
    requires Aligned(a) && a <= c <= a + EndRecord(a, text)
    ensures Inspect(c) ==
      if |c| == |a| then Checkpoint
      else if |c| == |a| + |EndRecord(a, text)| then Recovered else Invalid
  {
    InspectThrough(a, c);
    if |c| > |a| {
      assert c[|a|] == (a + EndRecord(a, text))[|a|] == EndRecord(a, text)[0];
      assert c[..|a|] == a;
    }
  }

  lemma ArtifactsKeepNewest(d: Disk, temporary: bool)
    requires StateOf(d.temp) != Complete || !temporary
    ensures Newest(RemoveArtifacts(d, temporary)) == Newest(d)
    ensures RemoveArtifacts(d, temporary).log == d.log && RemoveArtifacts(d, temporary).backup == d.backup
    ensures RemoveArtifacts(d, temporary).power > 0 && temporary ==> RemoveArtifacts(d, temporary).temp.None?
  {
  }

  /** A boot, interrupted or not, keeps the newest complete session; a boot that finishes has it in
      the log or the backup. */
  lemma BeginKeepsNewest(d: Disk, boot: Boot)
    ensures Newest(Begin(d, boot)) == Newest(d)
    ensures Begin(d, boot).power > 0 ==> Begin(d, boot).temp.None?
  {
    hide Inspect, Promote, RestorePrimary, DropBackup, Newest;
    RestoreKeepsNewest(d);
    DropKeepsNewest(RestorePrimary(d));
    var ready := DropBackup(RestorePrimary(d));
    if Usable(StateOf(ready.temp)) {
      PromoteKeepsNewest(ready);
    } else if ready.temp.Some? && Chosen(ready).Some? {
      var s := Chosen(ready).value;
      RecoverKeepsNewest(ready, s, boot);
      FinalizeShape(RecordReset(ready, s, boot), ready.Slot(s).value.committed, boot.endText);
      PromoteKeepsNewest(RecoverCandidate(ready, s, boot));
    } else {
      ArtifactsKeepNewest(ready, true);
    }
  }

  /** One more boot: how much power it gets, how an interrupted write is torn, and its reasons. */
  datatype PowerCycle = PowerCycle(power: nat, tear: nat, boot: Boot)

  function Reboots(d: Disk, cycles: seq<PowerCycle>): Disk {
    if cycles == [] then d
    else
      var before := Reboots(d, cycles[..|cycles| - 1]);
      var c := cycles[|cycles| - 1];
      Begin(before.(power := c.power, tear := c.tear), c.boot)
  }

  lemma {:induction false} RebootsKeepNewest(d: Disk, cycles: seq<PowerCycle>)
    ensures Newest(Reboots(d, cycles)) == Newest(d)
  {
    if cycles != [] {
      var c := cycles[|cycles| - 1];
      RebootsKeepNewest(d, cycles[..|cycles| - 1]);
      BeginKeepsNewest(Reboots(d, cycles[..|cycles| - 1]).(power := c.power, tear := c.tear), c.boot);
    }
  }

  /** Power may fail anywhere in the promotion of a saved session and in any number of boots after
      it: the session is never lost, and after a boot that finishes it is the log or the backup. */
  lemma SavedSessionSurvives(d: Disk, cycles: seq<PowerCycle>)
    requires StateOf(d.temp) == Complete
    ensures var end := Reboots(SavePromote(d), cycles);
      && (end.temp == d.temp || end.log == d.temp || end.backup == d.temp)
      && (cycles != [] && end.power > 0 ==> end.log == d.temp || end.backup == d.temp)
  {
    var saved := SavePromote(d);
    PreserveKeepsNewest(d);
    assert Newest(saved) == d.temp;
    RebootsKeepNewest(saved, cycles);
    if cycles != [] {
      var c := cycles[|cycles| - 1];
      BeginKeepsNewest(Reboots(saved, cycles[..|cycles| - 1]).(power := c.power, tear := c.tear), c.boot);
    }
  }
}
