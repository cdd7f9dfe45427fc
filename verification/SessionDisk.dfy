/** Session files and the flash file system they live on (fs/session_log.cpp). A session is a
    sequence of octets with their values; the first octet of a record also tells what its header
    says, the kind and length. A checksum is the checked content itself. Power may fail at any file
    operation: the operation in flight leaves a torn result, every later one has no effect. */
module SessionDisk {
  import opened Types

  // ---------------------------------------------------------------- session contents

  /** `checksum` is the content the record's CRC was computed over. */
  datatype EndInfo = EndInfo(dataBytes: nat, checksum: seq<Octet>, hasEndCrc: bool, recovered: bool)

  datatype Kind = Header(endCrcRequired: bool) | Frame | Annotation | End(info: EndInfo)

  type Byte = x: int | 0 <= x < 256

  type Bytes = seq<Byte>

  datatype Octet = Start(kind: Kind, length: nat, value: Byte) | More(value: Byte)

  type Content = seq<Octet>

  const HEADER_BYTES := 32
  const RECORD_HEADER_BYTES := 12

  type FileHeader = b: Bytes | |b| == HEADER_BYTES witness seq(HEADER_BYTES, _ => 0)

  type RecordHeader = b: Bytes | |b| == RECORD_HEADER_BYTES witness seq(RECORD_HEADER_BYTES, _ => 0)

  /** One record: all its octets, header included. */
  function Record(kind: Kind, octets: Bytes): (r: Content)
    requires octets != []
    ensures |r| == |octets| && forall i :: 0 <= i < |r| ==> r[i].value == octets[i]
  {
    [Start(kind, |octets|, octets[0])] +
    seq(|octets| - 1, i requires 0 <= i < |octets| - 1 => More(octets[i + 1]))
  }

  /** The octets of annotations, headers included. */
  function AnnotationOctets(c: Content): nat {
    if c == [] then 0
    else
      var o := c[|c| - 1];
      AnnotationOctets(c[..|c| - 1]) + (if o.Start? && o.kind.Annotation? then o.length else 0)
  }

  lemma {:induction false} AnnotationSum(a: Content, b: Content)
    ensures AnnotationOctets(a + b) == AnnotationOctets(a) + AnnotationOctets(b)
  {
    if b == [] {
      assert a + b == a;
    } else {
      AnnotationSum(a, b[..|b| - 1]);
      assert (a + b)[..|a + b| - 1] == a + b[..|b| - 1];
    }
  }

  lemma {:induction false} NoStarts(c: Content)
    requires forall i :: 0 <= i < |c| ==> c[i].More?
    ensures AnnotationOctets(c) == 0
  {
    if c != [] { NoStarts(c[..|c| - 1]); }
  }

  lemma RecordAnnotations(kind: Kind, octets: Bytes)
    requires octets != []
    ensures AnnotationOctets(Record(kind, octets)) == if kind.Annotation? then |octets| else 0
  {
    var r := Record(kind, octets);
    assert r == r[..1] + r[1..];
    AnnotationSum(r[..1], r[1..]);
    NoStarts(r[1..]);
    assert r[..1][..0] == [];
  }

  datatype FileState = Invalid | Checkpoint | Complete | Recovered | CompleteLegacy

  predicate HeaderOk(c: Content) {
    |c| >= HEADER_BYTES && c[0].Start? && c[0].kind.Header? && c[0].length == HEADER_BYTES
  }

  /** The verdict on an End record that starts at `offset` and must be the last one. */
  function EndState(c: Content, offset: nat, info: EndInfo, required: bool): FileState
    requires offset <= |c|
  {
    if info.dataBytes != offset || (required && !info.hasEndCrc) || info.checksum != c[..offset] then Invalid
    else if info.recovered && info.hasEndCrc then Recovered
    else if info.hasEndCrc then Complete else CompleteLegacy
  }

  /** The record walk of `inspectSessionPrefix`. */
  function Walk(c: Content, offset: nat, required: bool): FileState
    requires offset <= |c|
    decreases |c| - offset
  {
    if offset == |c| then Checkpoint
    else if !c[offset].Start? || c[offset].length == 0 || offset + c[offset].length > |c| then Invalid
    else
      match c[offset].kind
      case Frame => Walk(c, offset + c[offset].length, required)
      case Annotation => Walk(c, offset + c[offset].length, required)
      case End(info) => if offset + c[offset].length == |c| then EndState(c, offset, info, required) else Invalid
      case Header(_) => Invalid
  }

  /** `inspectSessionPrefix`; with a limit it looks at that prefix only. */
  function Inspect(c: Content): FileState {
    if HeaderOk(c) then Walk(c, HEADER_BYTES, c[0].kind.endCrcRequired) else Invalid
  }

  /** A missing file is invalid. */
  function StateOf(f: Option<Content>): FileState {
    match f case None => Invalid case Some(c) => Inspect(c)
  }

  /** A session that ends at a record boundary and has no End record yet. */
  predicate Aligned(c: Content) {
    Inspect(c) == Checkpoint
  }

  lemma {:induction false} WalkThrough(a: Content, c: Content, offset: nat, required: bool)
    requires a <= c && offset <= |a| && Walk(a, offset, required) == Checkpoint
    ensures Walk(c, offset, required) == Walk(c, |a|, required)
    decreases |a| - offset
  {
    if offset < |a| {
      assert a[offset] == c[offset];
      WalkThrough(a, c, offset + a[offset].length, required);
    }
  }

  /** What follows an aligned prefix decides the verdict. */
  lemma InspectThrough(a: Content, c: Content)
    requires Aligned(a) && a <= c
    ensures HeaderOk(c) && Inspect(c) == Walk(c, |a|, a[0].kind.endCrcRequired)
  {
    WalkThrough(a, c, HEADER_BYTES, a[0].kind.endCrcRequired);
  }

  // ---------------------------------------------------------------- the disk

  datatype Path = Log | Temp | Backup

  datatype Manifest = Torn | Manifest(committed: nat, checksum: Content, generation: nat, reset: nat)

  /** `power` operations are left before power fails; the operation in flight then persists at most
      `tear` octets. Zero means the power is off. */
  datatype Disk = Disk(
    power: nat, tear: nat,
    log: Option<Content>, temp: Option<Content>, backup: Option<Content>,
    ck0: Option<Manifest>, ck1: Option<Manifest>)
  {
    function File(p: Path): Option<Content> {
      match p case Log => log case Temp => temp case Backup => backup
    }

    function WithFile(p: Path, f: Option<Content>): Disk {
      match p case Log => this.(log := f) case Temp => this.(temp := f) case Backup => this.(backup := f)
    }

    function Slot(s: nat): Option<Manifest> {
      if s == 0 then ck0 else ck1
    }

    function WithSlot(s: nat, m: Option<Manifest>): Disk {
      if s == 0 then this.(ck0 := m) else this.(ck1 := m)
    }

    function Spent(): Disk {
      this.(power := if power > 0 then power - 1 else 0)
    }
  }

  function Remove(d: Disk, p: Path): Disk {
    if d.power > 1 then d.WithFile(p, None).Spent() else d.Spent()
  }

  function RemoveIfPresent(d: Disk, p: Path): Disk {
    if d.File(p).Some? then Remove(d, p) else d
  }

  function Rename(d: Disk, from: Path, target: Path): Disk {
    if d.power > 1 && d.File(from).Some?
    then d.WithFile(target, d.File(from)).WithFile(from, None).Spent() else d.Spent()
  }

  /** Opening for writing empties the file. */
  function Create(d: Disk, p: Path): Disk {
    if d.power > 1 then d.WithFile(p, Some([])).Spent() else d.Spent()
  }

  function Truncate(d: Disk, p: Path, n: nat): Disk {
    if d.power > 1 && d.File(p).Some? && n <= |d.File(p).value|
    then d.WithFile(p, Some(d.File(p).value[..n])).Spent() else d.Spent()
  }

  /** How much of a write of `n` octets persists. */
  function Persisted(d: Disk, n: nat): (k: nat)
    ensures k <= n
  {
    if d.power > 1 then n else if d.power == 1 && d.tear < n then d.tear else if d.power == 1 then n else 0
  }

  function Append(d: Disk, p: Path, data: Content): (r: Disk)
    ensures r.power <= d.power
  {
    if d.File(p).Some? then d.WithFile(p, Some(d.File(p).value + data[..Persisted(d, |data|)])).Spent() else d.Spent()
  }

  /** Manifests are rewritten in place; an interrupted rewrite leaves nothing readable. */
  function WriteManifest(d: Disk, s: nat, m: Manifest): (r: Disk)
    ensures r.power <= d.power
  {
    if d.power > 1 then d.WithSlot(s, Some(m)).Spent()
    else if d.power == 1 && d.tear > 0 then d.WithSlot(s, Some(Torn)).Spent()
    else d.Spent()
  }

  function RemoveManifest(d: Disk, s: nat): Disk {
    if d.Slot(s).None? then d
    else if d.power > 1 then d.WithSlot(s, None).Spent() else d.Spent()
  }

  function RemoveArtifacts(d: Disk, temporary: bool): Disk {
    RemoveManifest(RemoveManifest(if temporary then RemoveIfPresent(d, Temp) else d, 0), 1)
  }
}
