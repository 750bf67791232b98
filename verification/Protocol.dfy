/**
 The crash-safe commit protocol of src/persist/mod.rs as a state machine whose
 steps are the single durability actions: an append, a slot write, a sync, a
 rename, a truncate, a deletion. A process may die, and the power may fail,
 between any two of them.
 */
module Protocol {
  import opened Types
  import opened Disk
  import opened Recovery

  // ---------------------------------------------------------------------
  // State
  // ---------------------------------------------------------------------

  /** The open COMMIT sidecar. `inflight` is a slot record written but not yet known to be synced. */
  datatype Handle = Handle(nextSlot: nat, nextGen: nat, inflight: Option<CommitRecord>)

  /** Everything mutated under the writer lock. `view` is the content of base and delta as batches. */
  datatype Writer = Writer(
    seqNo: nat,
    durableSeq: nat,
    epoch: nat,
    view: seq<Batch>,
    snapshotSeq: nat,
    file: SnapName,
    cid: nat,
    commit: Handle,
    poisoned: bool)

  datatype Proc =
    | Down
    | Opening(r: Recovered, epoch: Option<nat>, handle: Handle, stamped: bool)
    | Up(w: Writer)
    | Closing

  /** A state handed to readers: its identity (epoch, seq) and its content. */
  datatype Published = Published(epoch: nat, seqNo: nat, hist: seq<Batch>)

  /**
   `hist` is the sequence of batches handed to the log on the current timeline,
   `acked` the highest committed_seq any caller has observed, `published` every
   state ever handed to a reader, and `epochs` every epoch ever minted.
   */
  datatype State = State(
    files: Files,
    proc: Proc,
    hist: seq<Batch>,
    acked: nat,
    published: set<Published>,
    epochs: set<nat>)

  // ---------------------------------------------------------------------
  // Steps
  // ---------------------------------------------------------------------

  datatype FileId = WalLog | CommitSidecar | Directory

  datatype Action =
    // the disk and the operating system
    | Writeback(f: FileId)
    | Crash(x: Dir, slots: Slots, log: Log)
    | Die
    // write_file_atomic, up to its rename
    | TmpWrite(p: Payload)
    | TmpSync
    // apply, flush, compact_locked and close
    | Append(b: Batch)
    | MarkerWrite(n: nat)
    | MarkerAck
    | Publish
    | RenameSnapshot
    | RenameRoot
    | Adopt
    | Truncate
    | Delete(name: SnapName)
    | Poison
    | CloseRename(clean: bool)
    | CloseEnd
    // open_with_vfs
    | Open
    | OpenTruncate
    | OpenMint(e: nat)
    | OpenKeepEpoch
    | OpenMarkerWrite
    | OpenMarkerAck
    | OpenRenameRoot
    | OpenDelete(other: SnapName)
    | OpenPublish

  /** Every version of the directory, durable or pending, has MANIFEST `m`. */
  predicate RootIs(d: Volatile<Dir>, m: Manifest) {
    d.durable.manifest == Some(m) && forall k :: 0 <= k < |d.pending| ==> d.pending[k].manifest == Some(m)
  }

  function Record(w: Writer, n: nat): CommitRecord { CommitRecord(w.epoch, n, w.commit.nextGen) }

  function CompactedName(w: Writer): SnapName { SnapName(w.seqNo, w.cid + 1) }

  /** The MANIFEST written by compact_locked. */
  function CompactedRoot(w: Writer): Manifest {
    Manifest(CompactedName(w), w.seqNo, w.epoch, w.seqNo, false, w.cid + 1)
  }

  /** Writer::build_manifest. */
  function ClosingRoot(w: Writer, clean: bool): Manifest {
    Manifest(w.file, w.snapshotSeq, w.epoch, w.durableSeq, clean, w.cid)
  }

  /** The MANIFEST written by recovery. */
  function ReopenedRoot(r: Recovered, epoch: nat): Manifest {
    r.m.(epoch := epoch, highSeq := r.marker, clean := false)
  }

  /** The log once recovery has cut it back to the committed frames. */
  function Trimmed(l: Log, r: Recovered): Log {
    if r.kept <= |l.recs| then Log(l.recs[..r.kept], false) else l
  }

  /** A healthy writer between two operations. */
  predicate Idle(s: State) {
    s.proc.Up? && !s.proc.w.poisoned && s.proc.w.commit.inflight.None? && |s.hist| == s.proc.w.seqNo
  }

  ghost predicate Enabled(s: State, a: Action) {
    match a
    case Writeback(_) => true
    case Crash(x, slots, log) =>
      DirImage(s.files.dir, x) && SlotImage(s.files.commit, slots) && LogImage(s.files.wal, log)
    case Die => true
    case TmpWrite(_) => s.proc.Up? || s.proc.Opening?
    case TmpSync => s.files.tmp.Some?
    case Append(_) => Idle(s)
    case MarkerWrite(n) => CanMark(s, n)
    case MarkerAck =>
      s.proc.Up? && !s.proc.w.poisoned && s.proc.w.commit.inflight.Some? && s.files.commit.Settled()
    case Publish =>
      && s.proc.Up? && !s.proc.w.poisoned && s.proc.w.commit.inflight.None?
      && |s.hist| == s.proc.w.seqNo + 1
    case RenameSnapshot =>
      Idle(s) && s.files.tmp == Some(Tmp(Snapshot(CompactedName(s.proc.w), s.proc.w.view), true))
    case RenameRoot =>
      && Idle(s) && s.files.tmp == Some(Tmp(Root(CompactedRoot(s.proc.w)), true))
      && s.files.dir.Settled()
      && CompactedName(s.proc.w) in s.files.dir.durable.snaps
      && s.files.dir.durable.snaps[CompactedName(s.proc.w)] == Some(s.proc.w.view)
    case Adopt =>
      Idle(s) && s.files.dir.Settled() && s.files.dir.durable.manifest == Some(CompactedRoot(s.proc.w))
    case Truncate => Idle(s) && s.proc.w.snapshotSeq == s.proc.w.seqNo && RootCovers(s, s.proc.w.seqNo)
    case Delete(name) =>
      && s.proc.Up? && name != s.proc.w.file && s.files.dir.durable.manifest.Some?
      && s.files.dir.durable.manifest.value.file == s.proc.w.file
      && RootIs(s.files.dir, s.files.dir.durable.manifest.value)
    case Poison => s.proc.Up?
    case CloseRename(clean) =>
      && s.proc.Up? && s.files.tmp == Some(Tmp(Root(ClosingRoot(s.proc.w, clean)), true))
      && (clean ==> Idle(s) && s.files.wal.Settled() && s.proc.w.durableSeq == s.proc.w.seqNo)
    case CloseEnd => s.proc.Closing? && s.files.dir.Settled()
    case Open =>
      && s.proc.Down? && s.files.Settled()
      && Recover(s.files.dir.durable, s.files.commit.durable, s.files.wal.durable).Ok?
    case OpenTruncate => s.proc.Opening? && s.proc.r.truncates && s.files.wal.Settled()
    case OpenMint(e) =>
      && s.proc.Opening? && s.proc.epoch.None? && LogTrimmed(s)
      && (s.proc.r.truncates || !s.proc.r.m.clean) && e !in s.epochs
    case OpenKeepEpoch =>
      && s.proc.Opening? && s.proc.epoch.None? && LogTrimmed(s)
      && !s.proc.r.truncates && s.proc.r.m.clean
    case OpenMarkerWrite =>
      s.proc.Opening? && s.proc.epoch.Some? && s.proc.handle.inflight.None? && !s.proc.stamped
    case OpenMarkerAck => s.proc.Opening? && s.proc.handle.inflight.Some? && s.files.commit.Settled()
    case OpenRenameRoot =>
      && s.proc.Opening? && s.proc.epoch.Some? && s.proc.stamped
      && s.files.tmp == Some(Tmp(Root(ReopenedRoot(s.proc.r, s.proc.epoch.value)), true))
    case OpenDelete(other) =>
      && s.proc.Opening? && s.proc.epoch.Some? && other != s.proc.r.m.file
      && RootIs(s.files.dir, ReopenedRoot(s.proc.r, s.proc.epoch.value))
    case OpenPublish =>
      && s.proc.Opening? && s.proc.epoch.Some? && s.proc.stamped && LogTrimmed(s)
      && RootIs(s.files.dir, ReopenedRoot(s.proc.r, s.proc.epoch.value))
  }

  /** The durable MANIFEST already names a snapshot of everything up to n. */
  predicate RootCovers(s: State, n: nat) {
    s.files.dir.Settled() && s.files.dir.durable.manifest.Some? && s.files.dir.durable.manifest.value.snapshotSeq == n
  }

  /**
   The marker may move to n, the end of the timeline, once n is durable: the
   log is synced, or the snapshot of the current MANIFEST has it all.
   */
  predicate CanMark(s: State, n: nat) {
    && s.proc.Up? && !s.proc.w.poisoned && s.proc.w.commit.inflight.None? && n == |s.hist|
    && (s.files.wal.Settled() || (s.proc.w.snapshotSeq == n && RootCovers(s, n)))
  }

  /** The committed frames, all synced, are all the log holds. */
  predicate LogTrimmed(s: State)
    requires s.proc.Opening?
  {
    s.files.wal.Settled() && s.files.wal.durable == Trimmed(s.files.wal.durable, s.proc.r)
  }

  function Flip(h: Handle): Handle {
    Handle(if h.nextSlot == 0 then 1 else 0, h.nextGen + 1, None)
  }

  ghost function Do(s: State, a: Action): State
    requires Enabled(s, a)
  {
    var f := s.files;
    match a
    case Writeback(WalLog) => s.(files := f.(wal := f.wal.Sync()))
    case Writeback(CommitSidecar) => s.(files := f.(commit := f.commit.Sync()))
    case Writeback(Directory) => s.(files := f.(dir := f.dir.Sync()))
    case Crash(x, slots, log) =>
      s.(files := Files(Volatile(log, []), Volatile(slots, []), Volatile(x, []), None), proc := Down)
    case Die => s.(proc := Down)
    case TmpWrite(p) => s.(files := f.(tmp := Some(Tmp(p, false))))
    case TmpSync => s.(files := f.(tmp := Some(f.tmp.value.(synced := true))))
    case Append(b) =>
      var live := f.wal.Live();
      s.(files := f.(wal := f.wal.Write(Log(live.recs + [WalRecord(|s.hist| + 1, b)], live.torn))),
         hist := s.hist + [b])
    case MarkerWrite(n) =>
      var w := s.proc.w;
      s.(files := f.(commit := f.commit.Write(f.commit.Live().Set(w.commit.nextSlot, Some(Record(w, n))))),
         proc := Up(w.(commit := w.commit.(inflight := Some(Record(w, n))))))
    case MarkerAck =>
      var w := s.proc.w;
      var n := w.commit.inflight.value.committedSeq;
      s.(proc := Up(w.(durableSeq := n, commit := Flip(w.commit))), acked := n)
    case Publish =>
      var w := s.proc.w;
      s.(proc := Up(w.(seqNo := |s.hist|, view := s.hist)),
         published := s.published + {Published(w.epoch, |s.hist|, s.hist)})
    case RenameSnapshot => s.(files := f.(dir := f.dir.Write(Renamed(f.dir.Live(), f.tmp.value)), tmp := None))
    case RenameRoot => s.(files := f.(dir := f.dir.Write(Renamed(f.dir.Live(), f.tmp.value)), tmp := None))
    case Adopt =>
      var w := s.proc.w;
      s.(proc := Up(w.(snapshotSeq := w.seqNo, file := CompactedName(w), cid := w.cid + 1)))
    case Truncate => s.(files := f.(wal := f.wal.Write(Log([], false))))
    case Delete(name) => s.(files := f.(dir := f.dir.Write(Without(f.dir.Live(), name))))
    case Poison => s.(proc := Up(s.proc.w.(poisoned := true)))
    case CloseRename(_) =>
      s.(files := f.(dir := f.dir.Write(Renamed(f.dir.Live(), f.tmp.value)), tmp := None), proc := Closing)
    case CloseEnd => s.(proc := Down)
    case Open =>
      var r := Recover(f.dir.durable, f.commit.durable, f.wal.durable).value;
      s.(proc := Opening(r, None, Handle(r.nextSlot, r.nextGen, None), false))
    case OpenTruncate => s.(files := f.(wal := f.wal.Write(Trimmed(f.wal.durable, s.proc.r))))
    case OpenMint(e) => s.(proc := s.proc.(epoch := Some(e)), epochs := s.epochs + {e})
    case OpenKeepEpoch => s.(proc := s.proc.(epoch := Some(s.proc.r.m.epoch)))
    case OpenMarkerWrite =>
      var h := s.proc.handle;
      var rec := CommitRecord(s.proc.epoch.value, s.proc.r.marker, h.nextGen);
      s.(files := f.(commit := f.commit.Write(f.commit.Live().Set(h.nextSlot, Some(rec)))),
         proc := s.proc.(handle := h.(inflight := Some(rec))))
    case OpenMarkerAck => s.(proc := s.proc.(handle := Flip(s.proc.handle), stamped := true))
    case OpenRenameRoot => s.(files := f.(dir := f.dir.Write(Renamed(f.dir.Live(), f.tmp.value)), tmp := None))
    case OpenDelete(other) => s.(files := f.(dir := f.dir.Write(Without(f.dir.Live(), other))))
    case OpenPublish =>
      var r, e := s.proc.r, s.proc.epoch.value;
      s.(proc := Up(Writer(r.marker, r.marker, e, r.View(), r.m.snapshotSeq, r.m.file, r.m.cid, s.proc.handle, false)),
         hist := r.View(),
         acked := r.marker,
         published := s.published + {Published(e, r.marker, r.View())})
  }

  function Without(x: Dir, name: SnapName): Dir { x.(snaps := x.snaps - {name}) }

  /** What each write puts on disk, field by field. */
  lemma WritesAre(s: State, a: Action)
    requires Enabled(s, a)
    ensures a.Append? ==>
      Do(s, a).files.wal.Live().recs == s.files.wal.Live().recs + [WalRecord(s.proc.w.seqNo + 1, a.b)]
    ensures a.MarkerWrite? && s.proc.w.commit.nextSlot <= 1 ==> var w, now := s.proc.w, Do(s, a).files.commit.Live();
      && now.Get(w.commit.nextSlot) == Some(CommitRecord(w.epoch, |s.hist|, w.commit.nextGen))
      && now.Get(1 - w.commit.nextSlot) == s.files.commit.Live().Get(1 - w.commit.nextSlot)
    ensures a.OpenMarkerWrite? && s.proc.handle.nextSlot <= 1 ==> var h, now := s.proc.handle, Do(s, a).files.commit.Live();
      && now.Get(h.nextSlot) == Some(CommitRecord(s.proc.epoch.value, s.proc.r.marker, h.nextGen))
      && now.Get(1 - h.nextSlot) == s.files.commit.Live().Get(1 - h.nextSlot)
    ensures a.RenameRoot? ==> var w := s.proc.w;
      Do(s, a).files.dir.Live().manifest
        == Some(Manifest(SnapName(w.seqNo, w.cid + 1), w.seqNo, w.epoch, w.seqNo, false, w.cid + 1))
    ensures a.CloseRename? ==> var w := s.proc.w;
      Do(s, a).files.dir.Live().manifest == Some(Manifest(w.file, w.snapshotSeq, w.epoch, w.durableSeq, a.clean, w.cid))
    ensures a.OpenRenameRoot? ==> var r := s.proc.r;
      Do(s, a).files.dir.Live().manifest
        == Some(Manifest(r.m.file, r.m.snapshotSeq, s.proc.epoch.value, r.marker, false, r.m.cid))
    ensures a.OpenTruncate? && s.proc.r.kept <= |s.files.wal.durable.recs| ==>
      Do(s, a).files.wal.Live() == Log(s.files.wal.durable.recs[..s.proc.r.kept], false)
  {
  }

  /** What create_with_vfs leaves behind: snapshot 0, an empty log, one COMMIT slot, and an open writer. */
  ghost predicate Initial(s: State) {
    exists epoch: nat ::
      var file := SnapName(0, 0);
      s == State(
        Files(
          Volatile(Log([], false), []),
          Volatile(Slots(Some(CommitRecord(epoch, 0, 0)), None), []),
          Volatile(Dir(Some(Manifest(file, 0, epoch, 0, false, 0)), map[file := Some([])]), []),
          None),
        Up(Writer(0, 0, epoch, [], 0, file, 0, Handle(1, 1, None), false)),
        [], 0, {Published(epoch, 0, [])}, {epoch})
  }

  // ---------------------------------------------------------------------
  // The invariant
  // ---------------------------------------------------------------------

  /** Whatever a power cut leaves can be recovered. */
  ghost predicate ImagesOk(f: Files, hist: seq<Batch>, acked: nat) {
    forall x, k, l :: DirImage(f.dir, x) && SlotImage(f.commit, k) && LogImage(f.wal, l) ==>
      Recoverable(x, k, l, hist, acked)
  }

  /** Everything published in epoch e is a prefix of h. */
  ghost predicate InTimeline(published: set<Published>, e: nat, h: seq<Batch>) {
    forall p :: p in published && p.epoch == e ==> p.hist <= h
  }

  /** Published states carry the batches their seq counts, and within one epoch they form a single line. */
  ghost predicate PublishedOk(published: set<Published>, epochs: set<nat>) {
    && (forall p :: p in published ==> p.seqNo == |p.hist| && p.epoch in epochs)
    && (forall p, q :: p in published && q in published && p.epoch == q.epoch ==> p.hist <= q.hist || q.hist <= p.hist)
  }

  /** A MANIFEST that says "closed cleanly" stands beside a marker that covers the whole timeline. */
  ghost predicate CleanOk(s: State) {
    forall x, k | DirImage(s.files.dir, x) && SlotImage(s.files.commit, k)
        && x.manifest.Some? && x.manifest.value.clean && SlotsOk(k) ::
      && k.Chosen().committedSeq == |s.hist|
      && x.manifest.value.epoch in s.epochs
      && InTimeline(s.published, x.manifest.value.epoch, s.hist)
  }

  /** Beside such a MANIFEST the log has no torn tail. */
  ghost predicate CleanLogOk(f: Files) {
    forall x, l :: DirImage(f.dir, x) && LogImage(f.wal, l) && x.manifest.Some? && x.manifest.value.clean ==> !l.torn
  }

  /** The live slot is never the one about to be overwritten, and it alone decides until the next one is whole. */
  ghost predicate HandleOk(c: Volatile<Slots>, h: Handle) {
    && h.nextSlot <= 1
    && c.Live().Get(1 - h.nextSlot).Some?
    && var cur := c.Live().Get(1 - h.nextSlot).value;
    && cur.gen < h.nextGen
    && (forall x :: SlotImage(c, x) ==>
          && x.Get(1 - h.nextSlot) == Some(cur)
          && (x.Get(h.nextSlot).None? || x.Get(h.nextSlot).value.gen < cur.gen || x.Get(h.nextSlot) == h.inflight))
    && (h.inflight.None? ==> c.Settled())
    && (h.inflight.Some? ==> h.inflight.value.gen == h.nextGen && c.Live().Get(h.nextSlot) == h.inflight)
  }

  ghost predicate CountersOk(s: State, w: Writer) {
    && w.seqNo <= |s.hist| <= w.seqNo + 1
    && w.view == s.hist[..w.seqNo]
    && w.durableSeq == s.acked
    && w.epoch in s.epochs
    && InTimeline(s.published, w.epoch, w.view)
  }

  /** No version of the MANIFEST claims a clean shutdown while the store is open. */
  ghost predicate NoClean(d: Volatile<Dir>) {
    forall x :: DirImage(d, x) && x.manifest.Some? ==> !x.manifest.value.clean
  }

  /** The snapshot the writer would name on close is still there, and the log still covers what it lacks. */
  ghost predicate PointerOk(f: Files, w: Writer, hist: seq<Batch>) {
    && w.file.seqNo == w.snapshotSeq <= w.seqNo <= |hist|
    && (forall x :: DirImage(f.dir, x) ==> w.file in x.snaps && x.snaps[w.file] == Some(hist[..w.snapshotSeq]))
    && (forall k, l :: SlotImage(f.commit, k) && LogImage(f.wal, l) && SlotsOk(k) ==>
          Covers(l.recs, w.snapshotSeq, k.Chosen().committedSeq))
  }

  /** The live log holds every batch beyond any snapshot that may become current. */
  ghost predicate LiveLogOk(f: Files, w: Writer, hist: seq<Batch>) {
    && !f.wal.Live().torn
    && Covers(f.wal.Live().recs, w.snapshotSeq, |hist|)
    && (forall x :: DirImage(f.dir, x) && x.manifest.Some? ==>
          Covers(f.wal.Live().recs, x.manifest.value.snapshotSeq, |hist|))
  }

  ghost predicate UpOk(s: State, w: Writer) {
    && CountersOk(s, w)
    && NoClean(s.files.dir)
    && PointerOk(s.files, w, s.hist)
    && LiveLogOk(s.files, w, s.hist)
    && HandleOk(s.files.commit, w.commit)
    && (w.commit.inflight.Some? ==> w.commit.inflight.value.committedSeq == |s.hist|)
  }

  /** Every image recovers to the same marker and the same snapshot as the one being opened. */
  ghost predicate SameOutcome(f: Files, r: Recovered, epoch: Option<nat>) {
    && (forall x :: DirImage(f.dir, x) && x.manifest.Some? ==>
          x.manifest.value == r.m || (epoch.Some? && x.manifest.value == ReopenedRoot(r, epoch.value)))
    && (forall k :: SlotImage(f.commit, k) && SlotsOk(k) ==>
          Max(k.Chosen().committedSeq, r.m.snapshotSeq) == r.marker)
  }

  /** The log is the one that was read, or has been cut back to its committed frames. */
  ghost predicate OpeningLogOk(w: Volatile<Log>, r: Recovered) {
    && SplitAt(w.durable.recs, r.kept, r.marker)
    && (w.pending == [] || w.pending == [Trimmed(w.durable, r)])
    && (!r.truncates ==> w.durable == Trimmed(w.durable, r))
  }

  ghost predicate OpeningOk(s: State, r: Recovered, epoch: Option<nat>, h: Handle, stamped: bool) {
    && s.acked <= r.marker <= |s.hist|
    && r.View() == s.hist[..r.marker]
    && r.m.snapshotSeq <= r.marker
    && r.m.file.seqNo == r.m.snapshotSeq
    && SameOutcome(s.files, r, epoch)
    && OpeningLogOk(s.files.wal, r)
    && HandleOk(s.files.commit, h)
    && (h.inflight.Some? ==> h.inflight.value.committedSeq == r.marker)
    && (stamped ==> h.inflight.None? && forall k :: SlotImage(s.files.commit, k) && SlotsOk(k) ==> k.Chosen().committedSeq == r.marker)
    && (r.m.clean ==> r.marker == |s.hist| && r.m.epoch in s.epochs && InTimeline(s.published, r.m.epoch, s.hist))
    && (epoch.Some? ==> epoch.value in s.epochs && InTimeline(s.published, epoch.value, r.View()))
  }

  ghost predicate ProcOk(s: State) {
    match s.proc
    case Down => true
    case Closing => true
    case Up(w) => UpOk(s, w)
    case Opening(r, epoch, h, stamped) => OpeningOk(s, r, epoch, h, stamped)
  }

  ghost predicate Inv(s: State) {
    && ImagesOk(s.files, s.hist, s.acked)
    && PublishedOk(s.published, s.epochs)
    && CleanOk(s)
    && CleanLogOk(s.files)
    && ProcOk(s)
  }
}
