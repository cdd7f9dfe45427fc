/** The session recorder (fs/session_log.cpp): durable checkpoints while recording, the save at the
    end, and recovery at boot, as step-by-step updates of the recorder and of the disk. */
module SessionLog {
  import opened Types
  import opened SessionDisk
  import opened SessionRecovery
  import opened CheckpointRecovery
  import opened CheckpointTicks

  const FOOTER_RESERVE := 512
  const MINIMUM_CAPTURE := 65536

  /** An operation succeeded exactly when power outlasted it. */
  predicate Worked(d: Disk) {
    d.power > 0
  }

  /** The newest manifest vouches for `n` octets of the capture; the other slot is older or unreadable. */
  ghost predicate LastCommit(d: Disk, data: Content, n: nat, generation: nat, s: nat)
    requires s < 2
  {
    && HEADER_BYTES <= n <= |data| && Aligned(data[..n])
    && (exists reset :: d.Slot(s) == Some(Manifest(n, data[..n], generation, reset)))
    && OlderSlot(d.Slot(1 - s), generation)
  }

  predicate OlderSlot(m: Option<Manifest>, generation: nat) {
    m.None? || m.value.Torn? || m.value.generation < generation
  }

  /** With the newest commit in place and a temporary file taken from the capture, recovery finds it. */
  lemma LastCommitSafe(d: Disk, data: Content, n: nat, generation: nat, s: nat, k: nat)
    requires s < 2 && LastCommit(d, data, n, generation, s)
    requires d.temp.Some? && FromCapture(d.temp.value, data, k) && n <= k
    ensures Safe(d, data, n)
  {
    var c := d.temp.value;
    assert c[..n] == c[..k][..n] == data[..k][..n] == data[..n];
    assert Vouches(d.Slot(s), d.temp);
  }

  lemma PrefixFromCapture(data: Content, n: nat)
    requires n <= |data|
    ensures FromCapture(data[..n], data, n)
  {
    assert data[..n][..n] == data[..n];
  }

  /** Appending a record to an aligned capture keeps it aligned. */
  lemma RecordKeepsAligned(c: Content, kind: Kind, octets: Bytes)
    requires Aligned(c) && octets != [] && (kind.Frame? || kind.Annotation?)
    ensures Aligned(c + Record(kind, octets))
  {
    InspectThrough(c, c + Record(kind, octets));
  }

  lemma EndCompletes(c: Content, octets: Bytes)
    requires Aligned(c) && octets != []
    ensures Inspect(c + Record(End(EndInfo(|c|, c, true, false)), octets)) == Complete
  {
    var e := c + Record(End(EndInfo(|c|, c, true, false)), octets);
    InspectThrough(c, e);
    assert e[..|c|] == c;
  }

  lemma HeaderAligned(required: bool, header: FileHeader)
    ensures Aligned(Record(Header(required), header))
    ensures AnnotationOctets(Record(Header(required), header)) == 0
  {
    RecordAnnotations(Header(required), header);
  }

  lemma ArtifactsGone(d: Disk, temporary: bool)
    ensures var r := RemoveArtifacts(d, temporary);
      && (r.power > 0 ==> r.ck0.None? && r.ck1.None?)
      && (!temporary ==> r.temp == d.temp) && r.log == d.log && r.backup == d.backup
  {
  }

  /** Without a temporary file, manifests do not matter. */
  lemma NoTemporaryProgress(d: Disk, e: Disk, data: Content, n: nat)
    requires d.temp.None? && e.temp == d.temp && e.log == d.log
    ensures Progress(d, data, n) ==> Progress(e, data, n)
  {
    hide Finished;
  }

  /** A recorded part with its End record. */
  ghost predicate Closed(capture: Content, data: Content) {
    exists octets: Bytes {:trigger Record(End(EndInfo(|data|, data, true, false)), octets)} ::
      octets != [] && capture == data + Record(End(EndInfo(|data|, data, true, false)), octets)
  }

  /** `recording_`, `stopping_` and `saving_`, of which at most one is set. */
  datatype Mode = Idle | Recording | Stopping | Saving

  class SessionLogRecorder {
    var disk: Disk
    var capture: Content
    var capacity: nat
    var mode: Mode
    var durable: bool
    var checkpointFailed: bool
    var checkpointOpen: bool
    var checkpointOffset: nat
    var checkpointTarget: nat
    var generation: nat
    var manifestSlot: nat
    var saveOpen: bool
    var saveOffset: nat
    var annotationBytes: nat
    /** The recorded part of the capture, and how much of it the last manifest covers. */
    ghost var data: Content
    ghost var committed: nat

    /** The temporary file holds what the recorder believes it has written. */
    ghost predicate TempAgrees()
      reads this
    {
      if saveOpen then
        mode.Saving? && committed <= saveOffset <= |capture| && disk.temp == Some(capture[..saveOffset])
      else
        checkpointOpen || checkpointOffset > 0 ==>
          (checkpointOffset <= |data| && disk.temp == Some(data[..checkpointOffset]))
    }

    ghost predicate ManifestsAgree()
      reads this
    {
      && manifestSlot < 2
      && if committed > 0 then LastCommit(disk, data, committed, generation, 1 - manifestSlot)
         else disk.ck0.None? && disk.ck1.None?
    }

    ghost predicate OffsetsOk()
      reads this
    {
      && !checkpointFailed && (checkpointOpen || checkpointOffset > 0 ==> durable)
      && committed <= checkpointOffset <= |data|
      && (checkpointTarget != 0 ==> checkpointOffset <= checkpointTarget <= |data| && Aligned(data[..checkpointTarget]))
    }

    /** Memory and disk agree while the power is on. */
    ghost predicate Coherent()
      reads this
    {
      OffsetsOk() && TempAgrees() && ManifestsAgree()
    }

    /** The capture is the recorded part, closed by an End record once the recording has stopped. */
    ghost predicate CaptureOk()
      reads this
    {
      && Aligned(data)
      && (mode.Recording? || mode.Stopping? ==> capture == data && !saveOpen)
      && (mode.Saving? ==> Closed(capture, data))
    }

    /** While records may come, there is room for the End record behind them, and annotations take at
        most a quarter of the capacity. */
    ghost predicate RoomOk()
      reads this
    {
      mode.Recording? || mode.Stopping? ==>
        |capture| + FOOTER_RESERVE <= capacity && annotationBytes == AnnotationOctets(capture) <= capacity / 4
    }

    /** What was committed stays recoverable whatever happens to the power. */
    ghost predicate Valid()
      reads this
    {
      && CaptureOk() && RoomOk()
      && (disk.power > 0 && !mode.Idle? ==> Coherent())
      && (committed > 0 ==> Progress(disk, data, committed))
    }

    // ---------------------------------------------------------------- recording

    constructor (d: Disk)
      ensures Valid() && disk == d && committed == 0 && mode.Idle?
    {
      var empty: FileHeader := seq(HEADER_BYTES, _ => 0);
      disk, capture, capacity, mode := d, [], 0, Idle;
      durable, checkpointFailed := false, false;
      checkpointOpen, checkpointOffset, checkpointTarget, generation, manifestSlot := false, 0, 0, 0, 0;
      saveOpen, saveOffset, annotationBytes := false, 0, 0;
      data, committed := Record(Header(true), empty), 0;
      new;
      HeaderAligned(true, empty);
    }

    method ResetOffsets(isDurable: bool)
      modifies this`durable, this`checkpointFailed, this`checkpointOpen, this`checkpointOffset,
        this`checkpointTarget, this`generation, this`manifestSlot, this`saveOpen, this`saveOffset
      ensures durable == isDurable && !checkpointFailed && !checkpointOpen && !saveOpen
      ensures checkpointOffset == checkpointTarget == generation == manifestSlot == saveOffset == 0
    {
      durable, checkpointFailed, saveOpen, saveOffset := isDurable, false, false, 0;
      checkpointOpen, checkpointOffset, checkpointTarget, generation, manifestSlot := false, 0, 0, 0, 0;
    }

    /** `start`: refused while busy, while an earlier recording waits for recovery, or without a
        capture of the minimum size. The session begins with the annotation that names it; a text that
        could not be composed is empty. */
    method StartRecording(isDurable: bool, size: nat, header: FileHeader, note: Bytes) returns (ok: bool)
      requires Valid() && disk.power > 0
      modifies this
      ensures Valid() && ok == (old(mode).Idle? && old(disk.temp).None? && size >= MINIMUM_CAPTURE)
      ensures ok ==> mode.Recording? && committed == 0 && capacity == size
      ensures ok ==>
        capture == data == Record(Header(true), header) +
          (if note == [] || |note| > size / 4 || HEADER_BYTES + |note| + FOOTER_RESERVE > size then []
           else Record(Annotation, note))
    {
      hide Aligned, Progress, LastCommit, Closed, Record, AnnotationOctets;
      ok := OpenCapture(isDurable, size, header);
      if ok && note != [] {
        HeaderAligned(true, header);
        var _ := AppendRecord(Annotation, note);
      }
    }

    method DropManifests()
      requires Valid() && mode.Idle? && disk.temp.None?
      modifies this`disk
      ensures Valid() && disk.temp.None? && (disk.power > 0 ==> disk.ck0.None? && disk.ck1.None?)
    {
      hide Aligned, Progress, LastCommit, Closed, RemoveArtifacts, AnnotationOctets;
      ArtifactsGone(disk, false);
      NoTemporaryProgress(disk, RemoveArtifacts(disk, false), data, committed);
      disk := RemoveArtifacts(disk, false);
    }

    method OpenCapture(isDurable: bool, size: nat, header: FileHeader) returns (ok: bool)
      requires Valid() && disk.power > 0
      modifies this
      ensures Valid() && ok == (old(mode).Idle? && old(disk.temp).None? && size >= MINIMUM_CAPTURE)
      ensures ok ==> mode.Recording? && committed == 0 && capture == data == Record(Header(true), header) &&
                     capacity == size
    {
      hide Aligned, Progress, LastCommit, Closed, RemoveArtifacts, Record, AnnotationOctets;
      if !mode.Idle? || disk.temp.Some? { return false; }
      DropManifests();
      if size < MINIMUM_CAPTURE { return false; }
      ResetOffsets(isDurable);
      mode, capacity, capture, annotationBytes := Recording, size, Record(Header(true), header), 0;
      data, committed := capture, 0;
      HeaderAligned(true, header);
      return true;
    }

    /** `appendRecord` for frames and annotations: a record is taken exactly when it fits in front of
        the footer reserve and, for an annotation, within the annotations' quarter. */
    method AppendRecord(kind: Kind, octets: Bytes) returns (ok: bool)
      requires Valid() && (mode.Recording? || mode.Stopping?) && octets != [] && (kind.Frame? || kind.Annotation?)
      modifies this`capture, this`data, this`annotationBytes
      ensures Valid() && old(data) <= data == capture
      ensures ok <==> |old(capture)| + |octets| + FOOTER_RESERVE <= capacity &&
                      (kind.Annotation? ==> AnnotationOctets(old(capture)) + |octets| <= capacity / 4)
      ensures capture == if ok then old(capture) + Record(kind, octets) else old(capture)
    {
      hide Aligned, Progress, LastCommit, Closed, Record, AnnotationOctets;
      if kind.Annotation? && annotationBytes + |octets| > capacity / 4 { return false; }
      if |capture| + |octets| + FOOTER_RESERVE > capacity { return false; }
      RecordKeepsAligned(data, kind, octets);
      CaptureGrows(Record(kind, octets));
      AnnotationSum(capture, Record(kind, octets));
      RecordAnnotations(kind, octets);
      capture := capture + Record(kind, octets);
      if kind.Annotation? { annotationBytes := annotationBytes + |octets|; }
      data := capture;
      return true;
    }

    /** A longer capture keeps everything that was said about the shorter one. */
    lemma CaptureGrows(more: Content)
      requires Valid() && (mode.Recording? || mode.Stopping?)
      ensures committed > 0 ==> Progress(disk, data + more, committed)
      ensures disk.power > 0 && committed > 0 ==>
        LastCommit(disk, data + more, committed, generation, 1 - manifestSlot)
      ensures forall n :: 0 <= n <= |data| ==> (data + more)[..n] == data[..n]
    {
      hide Progress;
      forall n | 0 <= n <= |data| ensures (data + more)[..n] == data[..n] { PrefixOfSum(data, more, n); }
      if committed > 0 { ProgressGrows(disk, data, data + more, committed); }
    }

    // ---------------------------------------------------------------- checkpoints

    method OpenCheckpoint()
      requires Valid() && mode.Recording? && durable && !checkpointOpen
      modifies this`disk, this`checkpointOpen, this`checkpointFailed
      ensures Valid() && (checkpointFailed || checkpointOpen) && disk.ck0 == old(disk.ck0) && disk.ck1 == old(disk.ck1)
      ensures disk.power <= old(disk.power)
      ensures old(committed) == 0 || disk == old(disk)
    {
      hide Progress, LastCommit, Closed, Aligned, AnnotationOctets;
      if checkpointOffset == 0 {
        if disk.power > 0 { NothingCommitted(); }
        ghost var before := disk;
        disk := RemoveIfPresent(disk, Temp);
        disk := Create(disk, Temp);
        if before.power == 0 { assert disk == before; }
        checkpointOpen := disk.power > 0;
      } else if disk.temp.Some? && |disk.temp.value| == checkpointOffset {
        checkpointOpen := true;
      }
      if !checkpointOpen { checkpointFailed := true; }
    }

    lemma NothingCommitted()
      requires Valid() && disk.power > 0 && !mode.Idle? && checkpointOffset == 0
      ensures committed == 0
    {
    }

    method WriteCheckpointChunk()
      requires Valid() && mode.Recording? && durable && checkpointOpen && checkpointOffset < checkpointTarget
      modifies this`disk, this`checkpointOpen, this`checkpointFailed, this`checkpointOffset
      ensures Valid() && disk.ck0 == old(disk.ck0) && disk.ck1 == old(disk.ck1) && disk.power <= old(disk.power)
      ensures disk.power > 0 ==> !checkpointFailed && checkpointOpen
      ensures old(checkpointOffset) <= checkpointOffset <= checkpointTarget
      ensures disk.power > 0 ==>
        checkpointOffset == old(checkpointOffset) + Chunk(checkpointTarget - old(checkpointOffset))
    {
      hide LastCommit, Safe, TempFinished, LogFinished, FromCapture, Aligned, Closed, Append;
      if disk.power == 0 {
        checkpointFailed := true;
        return;
      }
      var remaining := checkpointTarget - checkpointOffset;
      var chunk := Chunk(remaining);
      var part := capture[checkpointOffset..checkpointOffset + chunk];
      ghost var was := disk;
      AppendToTemp(was, data, checkpointOffset, part);
      disk := Append(disk, Temp, part);
      if committed > 0 { StillCommitted(was, disk, data, committed, generation, 1 - manifestSlot, |disk.temp.value|); }
      if disk.power == 0 {
        checkpointOpen, checkpointFailed := false, true;
        return;
      }
      checkpointOffset := checkpointOffset + chunk;
    }

    /** `commitCheckpoint`: the older manifest slot is rewritten. The source's length guard cannot
        fire, because a record-aligned target contains the header. */
    method CommitCheckpoint() returns (ok: bool)
      requires Valid() && mode.Recording? && durable && 0 < checkpointOffset == checkpointTarget
      modifies this`disk, this`generation, this`manifestSlot, this`committed
      ensures Valid() && ok == Worked(disk) && old(committed) <= committed && disk.power <= old(disk.power)
      ensures ok ==> committed == checkpointOffset
    {
      hide LastCommit, Safe, TempFinished, LogFinished, FromCapture, Aligned, Closed, WriteManifest;
      if disk.power == 0 { return false; }
      var m := Manifest(checkpointOffset, capture[..checkpointOffset], generation + 1, 0);
      ghost var was := disk;
      CommitStep(was, data, committed, generation, manifestSlot, checkpointOffset);
      disk := WriteManifest(disk, manifestSlot, m);
      generation := generation + 1;
      ok := disk.power > 0;
      if ok {
        manifestSlot := 1 - manifestSlot;
        committed := checkpointOffset;
      }
    }

    /** A due checkpoint aims at the end of the capture. */
    method ChooseTarget(due: bool) returns (go: bool)
      requires Valid() && mode.Recording? && durable
      modifies this`checkpointTarget
      ensures Valid() && go == (checkpointTarget != 0)
      ensures checkpointTarget ==
        if old(checkpointTarget) != 0 then old(checkpointTarget)
        else if due && |capture| > checkpointOffset then |capture| else 0
    {
      if checkpointTarget != 0 { return true; }
      if !due || |capture| <= checkpointOffset { return false; }
      WholeIsAligned();
      checkpointTarget := |capture|;
      return true;
    }

    /** The target is on the disk: close the file and commit. */
    method FinishCheckpoint()
      requires Valid() && mode.Recording? && durable && 0 < checkpointOffset == checkpointTarget
      modifies this`disk, this`checkpointOpen, this`checkpointFailed, this`checkpointTarget,
        this`generation, this`manifestSlot, this`committed
      ensures Valid() && old(committed) <= committed && disk.power <= old(disk.power)
      ensures disk.power > 0 ==> committed == checkpointOffset && checkpointTarget == 0
    {
      hide Progress, LastCommit, Closed, Aligned, AnnotationOctets, Inspect;
      checkpointOpen := false;
      var ok := CommitCheckpoint();
      if !ok {
        checkpointFailed := true;
      } else {
        checkpointTarget := 0;
      }
    }

    /** Where the checkpoint stands while the power is on. */
    ghost function Stands(): Standing
      reads this
    {
      Standing(checkpointOffset, checkpointTarget, committed)
    }

    lemma StandsInStep()
      requires Valid() && mode.Recording? && disk.power > 0
      ensures InStep(Stands())
    {
    }

    /** `processCheckpoint`: one step towards the next checkpoint. A due one aims at the whole capture;
        each step writes 4096 octets of what is missing, or the rest and then the manifest. */
    method ProcessCheckpoint(due: bool)
      requires Valid() && mode.Recording?
      modifies this`disk, this`checkpointOpen, this`checkpointFailed, this`checkpointOffset, this`checkpointTarget,
        this`generation, this`manifestSlot, this`committed
      ensures Valid() && old(committed) <= committed
      ensures disk.power > 0 && durable ==>
        InStep(old(Stands())) && Stands() == Ticked(old(Stands()), Tick(|capture|, due))
      ensures disk.power > 0 && durable && due && old(checkpointTarget) == 0 && old(checkpointOffset) < |capture| ==>
        checkpointTarget == |capture| || (checkpointTarget == 0 && committed == |capture|)
      ensures disk.power > 0 && durable && checkpointTarget == 0 && old(checkpointTarget) > 0 ==>
        committed == old(checkpointTarget)
      ensures !durable ==> Stands() == old(Stands()) && disk == old(disk)
    {
      hide Valid, Ticked, Advanced, InStep, Aim, Chunk;
      ghost var before := Stands();
      if !durable || checkpointFailed { FailedIsOff(); return; }
      if disk.power > 0 { StandsInStep(); }
      var go := ChooseTarget(due);
      if disk.power > 0 { Targeted(before, due); }
      if go { StepTowardsTarget(); }
    }

    /** After the target is chosen */
    lemma Targeted(before: Standing, due: bool)
      requires InStep(before) && Stands() == before.(target := checkpointTarget)
      requires checkpointTarget ==
        if before.target != 0 then before.target else if due && |capture| > before.offset then |capture| else 0
      ensures Ticked(before, Tick(|capture|, due)) ==
        if checkpointTarget == 0 then Stands() else Advanced(Stands())
    {
    }

    /** One chunk, and the commit when it was the last. */
    method StepTowardsTarget()
      requires Valid() && mode.Recording? && durable && !checkpointFailed && checkpointTarget > 0
      modifies this`disk, this`checkpointOpen, this`checkpointFailed, this`checkpointOffset, this`checkpointTarget,
        this`generation, this`manifestSlot, this`committed
      ensures Valid() && old(committed) <= committed && disk.power <= old(disk.power)
      ensures disk.power > 0 ==> InStep(old(Stands())) && Stands() == Advanced(old(Stands()))
    {
      hide Valid, Advanced, InStep;
      ghost var before := Stands();
      if disk.power > 0 { StandsInStep(); }
      if !checkpointOpen {
        OpenCheckpoint();
        if checkpointFailed { FailedIsOff(); return; }
      }
      if checkpointOffset < checkpointTarget {
        WriteCheckpointChunk();
        if checkpointFailed { FailedIsOff(); return; }
      }
      if checkpointOffset >= checkpointTarget {
        if disk.power == 0 { return; }
        TargetReached();
        FinishCheckpoint();
      }
      if disk.power > 0 { AdvancedFrom(before); }
    }

    lemma AdvancedFrom(before: Standing)
      requires InStep(before) && before.target > 0
      requires var offset := before.offset + Chunk(before.target - before.offset);
        && checkpointOffset == offset
        && (if offset >= before.target then checkpointTarget == 0 && committed == offset
            else checkpointTarget == before.target && committed == before.committed)
      ensures Stands() == Advanced(before)
    {
    }

    lemma FailedIsOff()
      requires Valid() && mode.Recording?
      ensures checkpointFailed ==> disk.power == 0
    {
    }

    lemma TargetReached()
      requires Valid() && mode.Recording? && disk.power > 0 && checkpointTarget > 0
      ensures checkpointOffset <= checkpointTarget
    {
    }

    lemma WholeIsAligned()
      requires Valid() && mode.Recording?
      ensures capture[..|capture|] == data && Aligned(data[..|data|])
    {
      assert data[..|data|] == data;
    }

    // ---------------------------------------------------------------- stopping and saving

    /** At every moment of a recording: whatever happens to the power from here on, the boots after
        it keep a record-aligned prefix of the recording of at least the committed length, and a boot
        that finishes has it in the log. */
    lemma CommittedSurvives(cycles: seq<PowerCycle>)
      requires Valid() && committed > 0
      ensures Progress(Reboots(disk, cycles), data, committed)
      ensures cycles != [] && Reboots(disk, cycles).power > 0 ==>
        LogFinished(Reboots(disk, cycles), data, committed)
    {
      hide Progress, LogFinished, Aligned;
      RebootsRecover(disk, data, committed, cycles);
    }

    /** `beginStopping` */
    method BeginStopping()
      requires Valid() && mode.Recording?
      modifies this`mode, this`checkpointOpen
      ensures Valid() && mode.Stopping?
    {
      checkpointOpen, mode := false, Stopping;
    }

    /** `finalizeMemory`: the End record closes the capture. A text that could not be composed is
        empty. The reserve is what the record needs: with a text of at most 500 octets it always fits. */
    method FinalizeMemory(end: EndText) returns (ok: bool)
      requires Valid() && mode.Stopping?
      modifies this`mode, this`capture, this`saveOffset, this`saveOpen
      ensures Valid() && ok == mode.Saving? && (!ok ==> mode.Idle? && capture == old(capture))
      ensures ok <==> end.text != [] && |old(capture)| + RECORD_HEADER_BYTES + |end.text| <= capacity
      ensures 0 < |end.text| <= FOOTER_RESERVE - RECORD_HEADER_BYTES ==> ok
      ensures ok ==> Inspect(capture) == Complete && data == old(capture) &&
                     capture == data + Record(End(EndInfo(|data|, data, true, false)), end.header + end.text)
    {
      hide Progress, LastCommit, Aligned, AnnotationOctets, Record, Inspect;
      if end.text == [] || |capture| + RECORD_HEADER_BYTES + |end.text| > capacity {
        mode := Idle;
        return false;
      }
      EndCompletes(data, end.header + end.text);
      capture := capture + Record(End(EndInfo(|capture|, capture, true, false)), end.header + end.text);
      mode, saveOffset, saveOpen := Saving, 0, false;
      return true;
    }

    /** The first save tick: continue the checkpointed file, or start over. */
    method OpenSave()
      requires Valid() && mode.Saving? && !saveOpen
      modifies this`disk, this`saveOpen, this`saveOffset, this`mode
      ensures Valid() && disk.power <= old(disk.power)
      ensures disk.power > 0 ==> saveOpen && mode.Saving? && saveOffset == checkpointOffset
    {
      hide Progress, LastCommit, Closed, Aligned, AnnotationOctets;
      if durable && !checkpointFailed && checkpointOffset > 0 && disk.temp.Some? &&
         |disk.temp.value| == checkpointOffset {
        if disk.power > 0 { ResumeAt(checkpointOffset); }
        saveOffset, saveOpen := checkpointOffset, true;
      } else {
        ghost var was := disk;
        if disk.power > 0 { FreshSave(); }
        disk := RemoveIfPresent(disk, Temp);
        disk := Create(disk, Temp);
        saveOffset := 0;
        if was.power == 0 { assert disk == was; }
        if disk.power == 0 { mode := Idle; } else { saveOpen := true; }
      }
    }

    lemma ResumeAt(n: nat)
      requires Valid() && mode.Saving? && n <= |data|
      ensures n <= |capture| && capture[..n] == data[..n]
    {
      assert data <= capture;
    }

    lemma FreshSave()
      requires Valid() && mode.Saving? && !saveOpen && disk.power > 0
      requires !(durable && !checkpointFailed && checkpointOffset > 0 && disk.temp.Some? &&
                 |disk.temp.value| == checkpointOffset)
      ensures committed == 0
    {
    }

    /** One chunk of the capture. */
    method WriteSaveChunk()
      requires Valid() && mode.Saving? && saveOpen && disk.power > 0 && saveOffset < |capture|
      modifies this`disk, this`saveOffset, this`mode, this`saveOpen
      ensures Valid() && disk.power <= old(disk.power)
      ensures disk.power > 0 ==>
        mode.Saving? && saveOpen && saveOffset == old(saveOffset) + Chunk(|capture| - old(saveOffset))
    {
      hide LastCommit, Safe, TempFinished, LogFinished, Aligned, Append;
      var remaining := |capture| - saveOffset;
      var chunk := Chunk(remaining);
      var part := capture[saveOffset..saveOffset + chunk];
      ghost var was := disk;
      SaveAppend(was, capture, data, saveOffset, part);
      disk := Append(disk, Temp, part);
      if committed > 0 {
        SavedBeginning(disk.temp.value, capture, data);
        StillCommitted(was, disk, data, committed, generation, 1 - manifestSlot,
                           if |disk.temp.value| < |data| then |disk.temp.value| else |data|);
      }
      if disk.power == 0 {
        mode, saveOpen := Idle, false;
        return;
      }
      saveOffset := saveOffset + chunk;
    }

    /** Make room for the candidate: a log is removed only behind a valid backup, else it becomes
        the backup. */
    method KeepPrevious() returns (preserved: bool)
      modifies this`disk
      ensures disk == PreserveLog(old(disk))
      ensures preserved == (old(disk).log.None? || disk.power > 0)
    {
      preserved := disk.log.None?;
      if disk.log.Some? {
        if StateOf(disk.backup) != Invalid {
          disk := Remove(disk, Log);
        } else {
          disk := RemoveIfPresent(disk, Backup);
          disk := Rename(disk, Log, Backup);
        }
        preserved := disk.power > 0;
      }
    }

    /** The candidate was not promoted: put the backup back. With every operation either done or cut
        off by the power, this is only reached when the power is gone. */
    method PutBackupBack()
      modifies this`disk
      ensures old(disk).power == 0 ==> disk == old(disk)
    {
      ghost var was := disk;
      disk := RemoveIfPresent(disk, Log);
      if disk.backup.Some? { disk := Rename(disk, Backup, Log); }
      if was.power == 0 { assert disk == was; }
    }

    /** The end of `processSaveChunk`: validate the temporary file and make it the log. */
    method FinishSave() returns (ok: bool)
      requires Valid() && mode.Saving? && saveOpen && disk.power > 0 && saveOffset == |capture|
      modifies this`disk, this`mode, this`saveOpen
      ensures Valid() && mode.Idle? && disk == SavePromote(old(disk)) && Newest(disk) == Some(capture)
      ensures disk.power <= old(disk.power)
      ensures disk.power > 0 ==> ok && disk.log == Some(capture) && disk.temp.None?
    {
      ghost var was := disk;
      SavedIsComplete();
      SavePromoteKeeps(disk, data, committed);
      saveOpen, mode := false, Idle;
      if StateOf(disk.temp) != Complete { return false; }
      var preserved := KeepPrevious();
      if !preserved { return false; }
      disk := Rename(disk, Temp, Log);
      if disk.power == 0 {
        PutBackupBack();
        return false;
      }
      disk := RemoveIfPresent(disk, Backup);
      disk := RemoveArtifacts(disk, false);
      return true;
    }

    /** `failSave`, reached only when the power is gone */
    method AbandonSave()
      requires Valid() && mode.Saving? && disk.power == 0
      modifies this`mode, this`saveOpen
      ensures Valid() && mode.Idle?
    {
      mode, saveOpen := Idle, false;
    }

    /** Where the save goes on: behind what it has written, or behind the checkpoints. */
    ghost function SavedSoFar(): nat
      reads this
    {
      if saveOpen then saveOffset else checkpointOffset
    }

    lemma SaveUnfinished()
      requires Valid() && mode.Saving? && disk.power > 0
      ensures SavedSoFar() <= |capture| && (!saveOpen ==> SavedSoFar() < |capture|)
    {
      assert |data| < |capture|;
    }

    /** `processSaveChunk`: 4096 octets of what is missing, or the rest; when nothing is missing the
        temporary file becomes the log. A durable recording goes on behind its checkpoints. */
    method ProcessSaveChunk()
      requires Valid() && mode.Saving?
      modifies this`disk, this`saveOpen, this`saveOffset, this`mode
      ensures Valid() && disk.power <= old(disk.power)
      ensures disk.power > 0 ==> old(SavedSoFar()) <= |capture|
      ensures disk.power > 0 && old(SavedSoFar()) < |capture| ==>
        mode.Saving? && SavedSoFar() == old(SavedSoFar()) + Chunk(|capture| - old(SavedSoFar()))
      ensures disk.power > 0 && old(SavedSoFar()) == |capture| ==>
        mode.Idle? && disk.log == Some(capture) && disk.temp.None?
    {
      hide Valid, Newest, SavePromote;
      if disk.power > 0 { SaveUnfinished(); }
      if !saveOpen {
        OpenSave();
        if disk.power == 0 { return; }
      } else if disk.power == 0 {
        AbandonSave();
        return;
      }
      if saveOffset < |capture| {
        WriteSaveChunk();
      } else {
        var _ := FinishSave();
      }
    }

    lemma SavedIsComplete()
      requires Valid() && mode.Saving? && saveOpen && disk.power > 0 && saveOffset == |capture|
      ensures disk.temp == Some(capture) && Inspect(capture) == Complete
      ensures committed > 0 ==> TempFinished(disk, data, committed)
    {
      assert capture[..|capture|] == capture;
      var octets: Bytes :| octets != [] && capture == data + Record(End(EndInfo(|data|, data, true, false)), octets);
      EndCompletes(data, octets);
      SavedBeginning(capture, capture, data);
      assert committed <= |data| < |capture|;
    }

    // ---------------------------------------------------------------- boot

    /** `finalizeRecoveredCheckpoint` */
    method FinalizeRecovered(n: nat, text: EndText) returns (ok: bool)
      requires disk.temp.Some? && n <= |disk.temp.value| && Aligned(disk.temp.value[..n])
      modifies this`disk
      ensures disk == Finalize(old(disk), n, text)
      ensures ok <==> disk.power > 0
    {
      ghost var was := disk;
      var prefix := disk.temp.value[..n];
      FinalizeShape(disk, n, text);
      FinalizeOff(disk, n, text);
      disk := Truncate(disk, Temp, n);
      if disk.power == 0 || StateOf(disk.temp) != Checkpoint { return false; }
      var end := EndRecord(prefix, text);
      disk := Append(disk, Temp, end[..RECORD_HEADER_BYTES]);
      disk := Append(disk, Temp, end[RECORD_HEADER_BYTES..]);
      EndTailState(prefix, prefix + end, text);
      ok := disk.power > 0 && StateOf(disk.temp) == Recovered;
    }

    /** The log and the backup, before any candidate is looked at. */
    method RestoreLog()
      modifies this`disk
      ensures disk == DropBackup(RestorePrimary(old(disk)))
    {
      var primaryState, backupState := StateOf(disk.log), StateOf(disk.backup);
      if primaryState == Invalid {
        disk := RemoveIfPresent(disk, Log);
        if backupState != Invalid {
          disk := Rename(disk, Backup, Log);
          if disk.power > 0 { primaryState, backupState := StateOf(disk.log), Invalid; }
        }
      }
      if primaryState == Complete && disk.backup.Some? {
        disk := Remove(disk, Backup);
      } else if backupState == Invalid && disk.backup.Some? {
        disk := Remove(disk, Backup);
      }
    }

    /** Note the reset reason in the other manifest, then cut and close the temporary file. */
    method RecoverTemporary(s: nat, boot: Boot) returns (ok: bool)
      requires s < 2 && Vouches(disk.Slot(s), disk.temp)
      modifies this`disk
      ensures disk == RecoverCandidate(old(disk), s, boot) && disk.temp.Some?
      ensures ok <==> disk.power > 0
      ensures ok ==> StateOf(disk.temp) == Recovered
    {
      hide Finalize, Inspect;
      var m := disk.Slot(s).value;
      ghost var noted := RecordReset(disk, s, boot);
      FinalizeShape(noted, m.committed, boot.endText);
      EndTailState(disk.temp.value[..m.committed],
                   disk.temp.value[..m.committed] + EndRecord(disk.temp.value[..m.committed], boot.endText),
                   boot.endText);
      if m.reset == 0 {
        disk := WriteManifest(disk, 1 - s, Manifest(m.committed, m.checksum, m.generation + 1, boot.reset));
        if disk.power == 0 {
          FinalizeOff(disk, m.committed, boot.endText);
          return false;
        }
      }
      assert disk == noted;
      ok := FinalizeRecovered(m.committed, boot.endText);
    }

    /** The candidate becomes the log; only a completed one also replaces the backup. */
    method PromoteCandidate(state: FileState)
      requires disk.temp.Some? && state == StateOf(disk.temp)
      modifies this`disk
      ensures disk == Promote(old(disk))
    {
      hide Inspect;
      ghost var was := disk;
      PreserveClears(disk);
      var promoted := false;
      var preserved := KeepPrevious();
      if preserved && disk.log.None? {
        disk := Rename(disk, Temp, Log);
        promoted := disk.power > 0 && StateOf(disk.log) == state;
      }
      if promoted {
        if state == Complete { disk := RemoveIfPresent(disk, Backup); }
        disk := RemoveArtifacts(disk, true);
      } else {
        PutBackupBack();
      }
    }

    method Begin(boot: Boot)
      modifies this`disk
      ensures disk == SessionRecovery.Begin(old(disk), boot)
    {
      hide Promote, RecoverCandidate;
      RestoreLog();
      ghost var ready := disk;
      var candidate, recoverable := Usable(StateOf(disk.temp)), false;
      if !candidate && disk.temp.Some? {
        var slot := Chosen(disk);
        if slot.Some? {
          recoverable := true;
          candidate := RecoverTemporary(slot.value, boot);
        }
      }
      if candidate {
        PromoteCandidate(StateOf(disk.temp));
      } else if !recoverable && disk.temp.Some? {
        disk := RemoveArtifacts(disk, true);
      } else if disk.temp.None? {
        NoTemporary(disk);
        disk := RemoveArtifacts(disk, false);
      } else {
        PromoteOff(disk);
      }
    }
  }

  lemma PreserveClears(d: Disk)
    ensures PreserveLog(d).power > 0 ==> PreserveLog(d).log.None?
    ensures PreserveLog(d).temp == d.temp
    ensures PreserveLog(d).power == 0 ==> Rename(PreserveLog(d), Temp, Log) == PreserveLog(d)
  {
  }

  lemma NoTemporary(d: Disk)
    requires d.temp.None?
    ensures RemoveArtifacts(d, true) == RemoveArtifacts(d, false)
  {
  }

  /** Without power nothing is finalized. */
  lemma FinalizeOff(d: Disk, n: nat, text: EndText)
    requires d.temp.Some? && n <= |d.temp.value|
    ensures Truncate(d, Temp, n).power == 0 ==> Finalize(d, n, text) == Truncate(d, Temp, n)
  {
    var cut, end := Truncate(d, Temp, n), EndRecord(d.temp.value[..n], text);
    AppendOff(cut, end[..RECORD_HEADER_BYTES]);
    AppendOff(cut, end[RECORD_HEADER_BYTES..]);
  }

  lemma SavePromoteKeeps(d: Disk, data: Content, n: nat)
    requires StateOf(d.temp) == Complete && (n > 0 ==> TempFinished(d, data, n))
    ensures Newest(SavePromote(d)) == d.temp && (n > 0 ==> Progress(SavePromote(d), data, n))
    ensures SavePromote(d).power > 0 ==> SavePromote(d).log == d.temp && SavePromote(d).temp.None?
  {
    PreserveKeepsNewest(d);
    var moved := Rename(PreserveLog(d), Temp, Log);
    if n > 0 {
      if moved.temp.None? {
        assert LogFinished(moved, data, n);
        assert SavePromote(d).log == moved.log && SavePromote(d).temp.None?;
      } else {
        assert TempFinished(moved, data, n) && moved.power == 0;
      }
    }
  }

  /** Part of a closed capture, torn anywhere, comes from the capture. */
  lemma SavedBeginning(c: Content, capture: Content, data: Content)
    requires Aligned(data) && Closed(capture, data) && c <= capture
    ensures FromCapture(c, data, if |c| < |data| then |c| else |data|)
  {
    assert data <= capture;
    if |c| <= |data| {
      assert c == data[..|c|];
      PrefixFromCapture(data, |c|);
    } else {
      assert c[|data|] == capture[|data|];
      assert data[..|data|] == data && c[..|data|] == data;
    }
  }

  lemma SaveAppend(d: Disk, capture: Content, data: Content, offset: nat, part: Content)
    requires offset + |part| <= |capture| && part == capture[offset..offset + |part|]
    requires d.temp == Some(capture[..offset])
    ensures var r := Append(d, Temp, part);
      && r.temp.Some? && offset <= |r.temp.value| <= offset + |part| && r.temp.value <= capture
      && (r.power > 0 ==> r.temp == Some(capture[..offset + |part|]))
      && r.ck0 == d.ck0 && r.ck1 == d.ck1
  {
    var j := Persisted(d, |part|);
    assert capture[..offset] + part[..j] == capture[..offset + j];
  }

  lemma StillCommitted(was: Disk, now: Disk, data: Content, n: nat, generation: nat, s: nat, k: nat)
    requires s < 2 && LastCommit(was, data, n, generation, s) && now.ck0 == was.ck0 && now.ck1 == was.ck1
    requires now.temp.Some? && n <= k && FromCapture(now.temp.value, data, k)
    ensures LastCommit(now, data, n, generation, s) && Safe(now, data, n)
  {
    LastCommitSafe(now, data, n, generation, s, k);
  }

  /** Committing `m` octets: the old commit holds until the new one does, and then the new one. */
  lemma CommitStep(d: Disk, data: Content, n: nat, generation: nat, slot: nat, m: nat)
    requires slot < 2 && n <= m <= |data| && 0 < m && Aligned(data[..m]) && d.temp == Some(data[..m])
    requires if n > 0 then LastCommit(d, data, n, generation, 1 - slot) else d.ck0.None? && d.ck1.None?
    ensures var r := WriteManifest(d, slot, Manifest(m, data[..m], generation + 1, 0));
      && r.temp == d.temp
      && (r.power > 0 ==> LastCommit(r, data, m, generation + 1, slot) && Safe(r, data, m))
      && (n > 0 ==> Safe(r, data, n))
  {
    var r := WriteManifest(d, slot, Manifest(m, data[..m], generation + 1, 0));
    PrefixFromCapture(data, m);
    if r.power > 0 {
      assert r.Slot(slot) == Some(Manifest(m, data[..m], generation + 1, 0));
      LastCommitSafe(r, data, m, generation + 1, slot, m);
    } else if n > 0 {
      assert r.Slot(1 - slot) == d.Slot(1 - slot);
      assert LastCommit(r, data, n, generation, 1 - slot);
      LastCommitSafe(r, data, n, generation, 1 - slot, m);
    }
  }

  /** Writing the next part of the capture leaves a longer beginning of it, however the write is torn. */
  lemma AppendToTemp(d: Disk, data: Content, offset: nat, part: Content)
    requires offset + |part| <= |data| && part == data[offset..offset + |part|]
    requires d.temp == Some(data[..offset])
    ensures var r := Append(d, Temp, part);
      && r.temp.Some? && offset <= |r.temp.value| <= offset + |part|
      && r.temp.value == data[..|r.temp.value|] && FromCapture(r.temp.value, data, |r.temp.value|)
      && (r.power > 0 ==> |r.temp.value| == offset + |part|)
      && r.ck0 == d.ck0 && r.ck1 == d.ck1
  {
    var j := Persisted(d, |part|);
    assert data[..offset] + part[..j] == data[..offset + j];
    PrefixFromCapture(data, offset + j);
  }

  lemma PrefixOfSum(a: Content, b: Content, n: nat)
    requires n <= |a|
    ensures (a + b)[..n] == a[..n]
  {
  }

  lemma FromCaptureGrows(c: Content, data: Content, more: Content, k: nat)
    requires FromCapture(c, data, k) && data <= more
    ensures FromCapture(c, more, k)
  {
    assert more[..k] == data[..k];
  }

  lemma ProgressGrows(d: Disk, data: Content, more: Content, n: nat)
    requires Progress(d, data, n) && data <= more
    ensures Progress(d, more, n)
  {
    if Safe(d, data, n) {
      var k: nat :| FromCapture(d.temp.value, data, k);
      FromCaptureGrows(d.temp.value, data, more, k);
    } else if TempFinished(d, data, n) {
      FinishedGrows(d.temp.value, data, more, n);
    } else {
      FinishedGrows(d.log.value, data, more, n);
    }
  }

  lemma FinishedGrows(c: Content, data: Content, more: Content, n: nat)
    requires Finished(c, data, n) && data <= more
    ensures Finished(c, more, n)
  {
    var k: nat :| n <= k < |c| && FromCapture(c, data, k);
    FromCaptureGrows(c, data, more, k);
  }
}
