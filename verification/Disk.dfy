/**
 What a power cut can do to the files of a store: the crash model of
 tests/powerloss_harness.rs, and the four files of the store directory.
 */
module Disk {
  import opened Types

  /**
   A file (or directory) whose unsynced changes are still volatile.
   `durable` is the content at the last completed sync; `pending[k]` is the
   content after the first k + 1 unsynced changes.
   */
  datatype Volatile<T> = Volatile(durable: T, pending: seq<T>) {

    /** The content once the first k unsynced changes are applied. */
    function At(k: nat): T
      requires k <= |pending|
    {
      if k == 0 then durable else pending[k - 1]
    }

    /** What a running process reads. */
    function Live(): T { At(|pending|) }

    function Write(x: T): Volatile<T> { Volatile(durable, pending + [x]) }

    /** The effect of a completed sync, or of the kernel writing back on its own. */
    function Sync(): Volatile<T> { Volatile(Live(), []) }

    predicate Settled() { pending == [] }
  }

  // ---- the write-ahead log ----

  /** The intact frames of the log, and whether bytes that form no frame follow them. */
  datatype Log = Log(recs: seq<WalRecord>, torn: bool)

  /** The unsynced append leading from `a` to `b` reached the disk only in part. */
  predicate TornLog(a: Log, b: Log, l: Log) {
    |a.recs| < |b.recs| && l == Log(a.recs, true)
  }

  /** A power cut may leave `l`: some leading changes in full, the next one torn. */
  ghost predicate LogImage(w: Volatile<Log>, l: Log) {
    exists k: nat :: k <= |w.pending| &&
      (l == w.At(k) || (k < |w.pending| && TornLog(w.At(k), w.At(k + 1), l)))
  }

  // ---- the COMMIT sidecar ----

  datatype CommitRecord = CommitRecord(epoch: nat, committedSeq: nat, gen: nat)

  /** The decoded slots; a slot whose checksum fails is None. */
  datatype Slots = Slots(s0: Option<CommitRecord>, s1: Option<CommitRecord>) {

    function Get(i: nat): Option<CommitRecord> { if i == 0 then s0 else s1 }

    function Set(i: nat, r: Option<CommitRecord>): Slots {
      if i == 0 then Slots(r, s1) else Slots(s0, r)
    }

    /** The slot recovery trusts: checksum-valid with the higher generation. */
    function ChosenSlot(): nat
      requires s0.Some? || s1.Some?
    {
      match (s0, s1)
      case (Some(a), Some(b)) => if a.gen >= b.gen then 0 else 1
      case (Some(_), None) => 0
      case (None, _) => 1
    }

    function Chosen(): CommitRecord
      requires s0.Some? || s1.Some?
    {
      Get(ChosenSlot()).value
    }
  }

  /** The unsynced slot write leading from `a` to `b` was torn, and the checksum rejects it. */
  predicate TornSlots(a: Slots, b: Slots, x: Slots) {
    (b == a.Set(0, b.s0) && x == a.Set(0, None)) || (b == a.Set(1, b.s1) && x == a.Set(1, None))
  }

  ghost predicate SlotImage(c: Volatile<Slots>, x: Slots) {
    exists k: nat :: k <= |c.pending| &&
      (x == c.At(k) || (k < |c.pending| && TornSlots(c.At(k), c.At(k + 1), x)))
  }

  // ---- the directory: the MANIFEST and the snapshot files ----

  /** snapshot-{seq}-{cid}.og */
  datatype SnapName = SnapName(seqNo: nat, cid: nat)

  datatype Manifest = Manifest(
    file: SnapName,
    snapshotSeq: nat,
    epoch: nat,
    highSeq: nat,
    clean: bool,
    cid: nat)

  /**
   The directory. A file renamed into place before its bytes were synced reads
   as None: its content is not to be relied on. A snapshot is named by the
   batches folded into it.
   */
  datatype Dir = Dir(manifest: Option<Manifest>, snaps: map<SnapName, Option<seq<Batch>>>)

  /** Renames and deletions are atomic, and reach the disk in order. */
  ghost predicate DirImage(d: Volatile<Dir>, x: Dir) {
    exists k: nat :: k <= |d.pending| && x == d.At(k)
  }

  datatype Payload = Snapshot(name: SnapName, content: seq<Batch>) | Root(manifest: Manifest)

  /** The temporary file of write_file_atomic. */
  datatype Tmp = Tmp(payload: Payload, synced: bool)

  /** The effect on the directory of renaming `t` over its final name. */
  function Renamed(x: Dir, t: Tmp): Dir {
    match t.payload
    case Snapshot(name, content) => x.(snaps := x.snaps[name := if t.synced then Some(content) else None])
    case Root(m) => x.(manifest := if t.synced then Some(m) else None)
  }

  datatype Files = Files(wal: Volatile<Log>, commit: Volatile<Slots>, dir: Volatile<Dir>, tmp: Option<Tmp>) {
    /** Nothing on disk is at the mercy of a power cut. */
    predicate Settled() { wal.Settled() && commit.Settled() && dir.Settled() }
  }

  // ---- what each change does to the set of images ----

  lemma LogImageWrite(w: Volatile<Log>, b: Log, l: Log)
    requires LogImage(w.Write(b), l)
    ensures LogImage(w, l) || l == b || TornLog(w.Live(), b, l)
  {
    var v := w.Write(b);
    var k: nat :| k <= |v.pending| &&
      (l == v.At(k) || (k < |v.pending| && TornLog(v.At(k), v.At(k + 1), l)));
    if k <= |w.pending| {
      assert v.At(k) == w.At(k);
      if k < |w.pending| {
        assert v.At(k + 1) == w.At(k + 1);
      }
    }
  }

  lemma LogImageSync(w: Volatile<Log>, l: Log)
    requires LogImage(w.Sync(), l)
    ensures l == w.Live() && LogImage(w, l)
  {
    assert w.Live() == w.At(|w.pending|);
  }

  lemma SlotImageWrite(c: Volatile<Slots>, b: Slots, x: Slots)
    requires SlotImage(c.Write(b), x)
    ensures SlotImage(c, x) || x == b || TornSlots(c.Live(), b, x)
  {
    var v := c.Write(b);
    var k: nat :| k <= |v.pending| &&
      (x == v.At(k) || (k < |v.pending| && TornSlots(v.At(k), v.At(k + 1), x)));
    if k <= |c.pending| {
      assert v.At(k) == c.At(k);
      if k < |c.pending| {
        assert v.At(k + 1) == c.At(k + 1);
      }
    }
  }

  lemma SlotImageSync(c: Volatile<Slots>, x: Slots)
    requires SlotImage(c.Sync(), x)
    ensures x == c.Live() && SlotImage(c, x)
  {
    assert c.Live() == c.At(|c.pending|);
  }

  lemma DirImageWrite(d: Volatile<Dir>, b: Dir, x: Dir)
    requires DirImage(d.Write(b), x)
    ensures DirImage(d, x) || x == b
  {
    var v := d.Write(b);
    var k: nat :| k <= |v.pending| && x == v.At(k);
    if k <= |d.pending| {
      assert v.At(k) == d.At(k);
    }
  }

  lemma DirImageSync(d: Volatile<Dir>, x: Dir)
    requires DirImage(d.Sync(), x)
    ensures x == d.Live() && DirImage(d, x)
  {
    assert d.Live() == d.At(|d.pending|);
  }

  lemma LiveImages(f: Files)
    ensures LogImage(f.wal, f.wal.Live())
    ensures SlotImage(f.commit, f.commit.Live())
    ensures DirImage(f.dir, f.dir.Live())
  {
    assert f.wal.Live() == f.wal.At(|f.wal.pending|);
    assert f.commit.Live() == f.commit.At(|f.commit.pending|);
    assert f.dir.Live() == f.dir.At(|f.dir.pending|);
  }
}
