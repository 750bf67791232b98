/** Every step of the protocol keeps the invariant, and what the invariant means for whole runs. */
module Safety {
  import opened Types
  import opened Disk
  import opened Recovery
  import opened Protocol

  // ---------------------------------------------------------------------
  // Steps that only shrink the set of crash images
  // ---------------------------------------------------------------------

  /** Each crash image of `g` is already one of `f`. */
  ghost predicate FewerImages(f: Files, g: Files) {
    && (forall x :: DirImage(g.dir, x) ==> DirImage(f.dir, x))
    && (forall k :: SlotImage(g.commit, k) ==> SlotImage(f.commit, k))
    && (forall l :: LogImage(g.wal, l) ==> LogImage(f.wal, l))
  }

  lemma WritebackShrinks(s: State, f: FileId)
    ensures FewerImages(s.files, Do(s, Writeback(f)).files)
    ensures var g := Do(s, Writeback(f)).files;
      && g.wal.Live() == s.files.wal.Live()
      && g.commit.Live() == s.files.commit.Live()
      && g.dir.Live() == s.files.dir.Live()
  {
    var g := Do(s, Writeback(f)).files;
    forall x | DirImage(g.dir, x) ensures DirImage(s.files.dir, x) {
      if f == Directory { DirImageSync(s.files.dir, x); }
    }
    forall k | SlotImage(g.commit, k) ensures SlotImage(s.files.commit, k) {
      if f == CommitSidecar { SlotImageSync(s.files.commit, k); }
    }
    forall l | LogImage(g.wal, l) ensures LogImage(s.files.wal, l) {
      if f == WalLog { LogImageSync(s.files.wal, l); }
    }
  }

  /** What a restart reads stays true of fewer images. */
  lemma FewerImagesOk(s: State, t: State)
    requires Inv(s) && FewerImages(s.files, t.files)
    requires t.hist == s.hist && t.acked == s.acked && t.published == s.published && t.epochs == s.epochs
    ensures ImagesOk(t.files, t.hist, t.acked) && PublishedOk(t.published, t.epochs) && CleanOk(t) && CleanLogOk(t.files)
  {
  }

  lemma WritebackKeepsWriter(s: State, f: FileId)
    requires ProcOk(s)
    ensures ProcOk(Do(s, Writeback(f)))
  {
    WritebackShrinks(s, f);
    var t := Do(s, Writeback(f));
    assert FewerImages(s.files, t.files);
  }

  lemma KeepsWriteback(s: State, f: FileId)
    requires Inv(s)
    ensures Inv(Do(s, Writeback(f)))
  {
    WritebackShrinks(s, f);
    FewerImagesOk(s, Do(s, Writeback(f)));
    WritebackKeepsWriter(s, f);
  }

  lemma CrashShrinks(s: State, x: Dir, k: Slots, l: Log)
    requires Enabled(s, Crash(x, k, l))
    ensures FewerImages(s.files, Do(s, Crash(x, k, l)).files)
    ensures var g := Do(s, Crash(x, k, l)).files;
      DirImage(g.dir, x) && SlotImage(g.commit, k) && LogImage(g.wal, l)
  {
    var g := Do(s, Crash(x, k, l)).files;
    LiveImages(g);
  }

  lemma KeepsCrash(s: State, x: Dir, k: Slots, l: Log)
    requires Inv(s) && Enabled(s, Crash(x, k, l))
    ensures Inv(Do(s, Crash(x, k, l)))
  {
    CrashShrinks(s, x, k, l);
  }

  lemma KeepsProcessSteps(s: State, a: Action)
    requires Inv(s) && Enabled(s, a)
    requires a.Die? || a.TmpWrite? || a.TmpSync? || a.Poison? || a.CloseEnd?
    ensures Inv(Do(s, a))
  {
    assert Do(s, a).files.dir == s.files.dir && Do(s, a).files.commit == s.files.commit && Do(s, a).files.wal == s.files.wal;
  }

  // ---------------------------------------------------------------------
  // apply, flush, compact, close
  // ---------------------------------------------------------------------

  lemma CoversAppend(recs: seq<WalRecord>, rec: WalRecord, from: nat, upTo: nat)
    requires Covers(recs, from, upTo)
    ensures Covers(recs + [rec], from, upTo)
    ensures rec.seqNo == upTo + 1 ==> Covers(recs + [rec], from, upTo + 1)
  {
    var more := recs + [rec];
    forall q | from < q <= upTo ensures HasSeq(more, q) {
      assert HasSeq(recs, q);
      var i :| 0 <= i < |recs| && recs[i].seqNo == q;
      assert more[i].seqNo == q;
    }
    assert more[|recs|] == rec;
  }

  lemma RecoverableGrows(x: Dir, k: Slots, l: Log, hist: seq<Batch>, b: Batch, acked: nat)
    requires Recoverable(x, k, l, hist, acked)
    ensures Recoverable(x, k, l, hist + [b], acked)
  {
    assert (hist + [b])[..x.manifest.value.snapshotSeq] == hist[..x.manifest.value.snapshotSeq];
  }

  /** The frame appended next continues any log of the history. */
  lemma RecoverableAppended(x: Dir, k: Slots, l: Log, hist: seq<Batch>, b: Batch, acked: nat)
    requires Recoverable(x, k, l, hist, acked)
    ensures Recoverable(x, k, Log(l.recs + [WalRecord(|hist| + 1, b)], l.torn), hist + [b], acked)
  {
    RecoverableGrows(x, k, l, hist, b, acked);
    var rec := WalRecord(|hist| + 1, b);
    CoversAppend(l.recs, rec, x.manifest.value.snapshotSeq, k.Chosen().committedSeq);
  }

  function Appended(l: Log, hist: seq<Batch>, b: Batch): Log {
    Log(l.recs + [WalRecord(|hist| + 1, b)], l.torn)
  }

  lemma AppendImage(f: Files, hist: seq<Batch>, acked: nat, b: Batch, x: Dir, k: Slots, l: Log)
    requires ImagesOk(f, hist, acked)
    requires DirImage(f.dir, x) && SlotImage(f.commit, k) && LogImage(f.wal.Write(Appended(f.wal.Live(), hist, b)), l)
    ensures Recoverable(x, k, l, hist + [b], acked)
  {
    var live := f.wal.Live();
    LiveImages(f);
    LogImageWrite(f.wal, Appended(live, hist, b), l);
    if LogImage(f.wal, l) {
      assert Recoverable(x, k, l, hist, acked);
      RecoverableGrows(x, k, l, hist, b, acked);
    } else {
      assert Recoverable(x, k, live, hist, acked);
      RecoverableGrows(x, k, live, hist, b, acked);
      RecoverableAppended(x, k, live, hist, b, acked);
    }
  }

  lemma AppendImages(s: State, b: Batch)
    requires Inv(s) && Enabled(s, Append(b))
    ensures ImagesOk(Do(s, Append(b)).files, s.hist + [b], s.acked)
  {
    var f := Do(s, Append(b)).files;
    forall x, k, l | DirImage(f.dir, x) && SlotImage(f.commit, k) && LogImage(f.wal, l)
      ensures Recoverable(x, k, l, s.hist + [b], s.acked)
    {
      AppendImage(s.files, s.hist, s.acked, b, x, k, l);
    }
  }

  lemma AppendLive(s: State, b: Batch)
    requires Inv(s) && Enabled(s, Append(b))
    ensures LiveLogOk(Do(s, Append(b)).files, s.proc.w, s.hist + [b])
  {
    var t := Do(s, Append(b));
    var live := s.files.wal.Live();
    var rec := WalRecord(|s.hist| + 1, b);
    CoversAppend(live.recs, rec, s.proc.w.snapshotSeq, |s.hist|);
    forall x | DirImage(t.files.dir, x) && x.manifest.Some?
      ensures Covers(t.files.wal.Live().recs, x.manifest.value.snapshotSeq, |t.hist|)
    {
      CoversAppend(live.recs, rec, x.manifest.value.snapshotSeq, |s.hist|);
    }
  }

  lemma AppendPointer(s: State, b: Batch)
    requires Inv(s) && Enabled(s, Append(b))
    ensures PointerOk(Do(s, Append(b)).files, s.proc.w, s.hist + [b])
  {
    var t := Do(s, Append(b));
    var w := s.proc.w;
    var live := s.files.wal.Live();
    assert t.hist[..w.snapshotSeq] == s.hist[..w.snapshotSeq];
    LiveImages(s.files);
    forall k, l | SlotImage(t.files.commit, k) && LogImage(t.files.wal, l) && SlotsOk(k)
      ensures Covers(l.recs, w.snapshotSeq, k.Chosen().committedSeq)
    {
      LogImageWrite(s.files.wal, t.files.wal.Live(), l);
      CoversAppend(live.recs, WalRecord(|s.hist| + 1, b), w.snapshotSeq, k.Chosen().committedSeq);
    }
  }

  lemma AppendUp(s: State, b: Batch)
    requires Inv(s) && Enabled(s, Append(b))
    ensures UpOk(Do(s, Append(b)), s.proc.w)
  {
    assert (s.hist + [b])[..s.proc.w.seqNo] == s.hist[..s.proc.w.seqNo];
    AppendLive(s, b);
    AppendPointer(s, b);
  }

  lemma KeepsAppend(s: State, b: Batch)
    requires Inv(s) && Enabled(s, Append(b))
    ensures Inv(Do(s, Append(b)))
  {
    AppendImages(s, b);
    AppendUp(s, b);
  }

  /** Until the slot in flight is whole the other slot decides; once it is, the new record does. */
  lemma HandleChooses(c: Volatile<Slots>, h: Handle, x: Slots)
    requires HandleOk(c, h) && SlotImage(c, x)
    ensures SlotsOk(x)
    ensures var cur := c.Live().Get(1 - h.nextSlot).value;
      x.Chosen() == cur || (h.inflight.Some? && x.Chosen() == h.inflight.value)
    ensures h.inflight.None? ==> x.Chosen() == c.Live().Get(1 - h.nextSlot).value && x.ChosenSlot() == 1 - h.nextSlot
    ensures x.Get(h.nextSlot) == h.inflight && h.inflight.Some? ==> x.Chosen() == h.inflight.value
  {
  }

  /** Writing the next slot adds two images: the slot torn, and the slot whole. Neither touches the live slot. */
  lemma HandleAfterWrite(c: Volatile<Slots>, h: Handle, rec: CommitRecord)
    requires HandleOk(c, h) && h.inflight.None?
    requires rec.gen == h.nextGen
    ensures HandleOk(c.Write(c.Live().Set(h.nextSlot, Some(rec))), h.(inflight := Some(rec)))
  {
    var c' := c.Write(c.Live().Set(h.nextSlot, Some(rec)));
    assert c'.Live() == c.Live().Set(h.nextSlot, Some(rec));
    assert SlotImage(c, c.Live()) by { assert c.Live() == c.At(0); }
    forall x | SlotImage(c', x)
      ensures x.Get(1 - h.nextSlot) == c.Live().Get(1 - h.nextSlot)
      ensures x.Get(h.nextSlot).None? || x.Get(h.nextSlot).value.gen < c.Live().Get(1 - h.nextSlot).value.gen
        || x.Get(h.nextSlot) == Some(rec)
    {
      SlotImageWrite(c, c'.Live(), x);
    }
  }

  lemma HandleAfterAck(c: Volatile<Slots>, h: Handle)
    requires HandleOk(c, h) && h.inflight.Some? && c.Settled()
    ensures HandleOk(c, Flip(h))
    ensures forall x :: SlotImage(c, x) ==> SlotsOk(x) && x.Chosen() == h.inflight.value
  {
    forall x | SlotImage(c, x) ensures x == c.Live() {
      assert c.At(0) == c.Live();
    }
  }

  /** A whole slot image of a write in flight differs from an older one only in the chosen record. */
  lemma MarkerMoves(x: Dir, k: Slots, k': Slots, l: Log, hist: seq<Batch>, acked: nat)
    requires Recoverable(x, k, l, hist, acked)
    requires SlotsOk(k') && k.Chosen().committedSeq <= k'.Chosen().committedSeq <= |hist|
    requires Covers(l.recs, x.manifest.value.snapshotSeq, k'.Chosen().committedSeq)
    ensures Recoverable(x, k', l, hist, acked)
  {
  }

  /**
   Whatever MANIFEST and log survive, the log already covers the new marker:
   the frames are synced, or the snapshot has them.
   */
  lemma MarkerIsCovered(s: State, n: nat, x: Dir, l: Log)
    requires Inv(s) && Enabled(s, MarkerWrite(n))
    requires DirImage(s.files.dir, x) && LogImage(s.files.wal, l)
    ensures x.manifest.Some? && Covers(l.recs, x.manifest.value.snapshotSeq, n)
  {
    LiveImages(s.files);
    assert Recoverable(x, s.files.commit.Live(), l, s.hist, s.acked);
    if s.files.wal.Settled() {
      assert l == s.files.wal.Live();
    } else {
      assert x == s.files.dir.durable;
    }
  }

  lemma KeepsMarkerWrite(s: State, n: nat)
    requires Inv(s) && Enabled(s, MarkerWrite(n))
    ensures Inv(Do(s, MarkerWrite(n)))
  {
    var t := Do(s, MarkerWrite(n));
    var w := s.proc.w;
    var c, h := s.files.commit, w.commit;
    HandleAfterWrite(c, h, Record(w, n));
    LiveImages(s.files);
    forall x, k, l | DirImage(t.files.dir, x) && SlotImage(t.files.commit, k) && LogImage(t.files.wal, l)
      ensures Recoverable(x, k, l, t.hist, t.acked)
    {
      HandleChooses(t.files.commit, t.proc.w.commit, k);
      HandleChooses(c, h, c.Live());
      assert Recoverable(x, c.Live(), l, s.hist, s.acked);
      MarkerIsCovered(s, n, x, l);
      MarkerMoves(x, c.Live(), k, l, s.hist, s.acked);
    }
    forall k, l | SlotImage(t.files.commit, k) && LogImage(t.files.wal, l) && SlotsOk(k)
      ensures Covers(l.recs, w.snapshotSeq, k.Chosen().committedSeq)
    {
      HandleChooses(t.files.commit, t.proc.w.commit, k);
      HandleChooses(c, h, c.Live());
      MarkerIsCoveredForWriter(s, n, l);
    }
  }

  /** The writer's own snapshot pointer is covered as well. */
  lemma MarkerIsCoveredForWriter(s: State, n: nat, l: Log)
    requires Inv(s) && Enabled(s, MarkerWrite(n)) && LogImage(s.files.wal, l)
    ensures Covers(l.recs, s.proc.w.snapshotSeq, n)
  {
    LiveImages(s.files);
    if s.files.wal.Settled() {
      assert l == s.files.wal.Live();
    } else {
      assert RootCovers(s, n);
    }
  }

  lemma KeepsMarkerAck(s: State)
    requires Inv(s) && Enabled(s, MarkerAck)
    ensures Inv(Do(s, MarkerAck))
  {
    var t := Do(s, MarkerAck);
    HandleAfterAck(s.files.commit, s.proc.w.commit);
    forall x, k, l | DirImage(t.files.dir, x) && SlotImage(t.files.commit, k) && LogImage(t.files.wal, l)
      ensures Recoverable(x, k, l, t.hist, t.acked)
    {
      assert Recoverable(x, k, l, s.hist, s.acked);
    }
  }

  lemma PublishedGrows(published: set<Published>, epochs: set<nat>, e: nat, h: seq<Batch>)
    requires PublishedOk(published, epochs) && e in epochs
    requires InTimeline(published, e, h)
    ensures PublishedOk(published + {Published(e, |h|, h)}, epochs)
    ensures InTimeline(published + {Published(e, |h|, h)}, e, h)
  {
  }

  lemma InTimelineGrows(published: set<Published>, e: nat, h: seq<Batch>, h': seq<Batch>)
    requires InTimeline(published, e, h) && h <= h'
    ensures InTimeline(published, e, h')
  {
  }

  lemma KeepsPublish(s: State)
    requires Inv(s) && Enabled(s, Publish)
    ensures Inv(Do(s, Publish))
  {
    var t := Do(s, Publish);
    InTimelineGrows(s.published, s.proc.w.epoch, s.proc.w.view, s.hist);
    PublishedGrows(s.published, s.epochs, s.proc.w.epoch, s.hist);
    assert t.hist[..t.proc.w.seqNo] == t.hist;
  }

  /** A snapshot file put in place under the name of its own seq never disturbs a MANIFEST that may name it. */
  lemma RootSurvivesSnapshot(x: Dir, hist: seq<Batch>, name: SnapName)
    requires RootOk(x, hist)
    requires name.seqNo <= |hist|
    ensures RootOk(Renamed(x, Tmp(Snapshot(name, hist[..name.seqNo]), true)), hist)
  {
  }

  lemma KeepsRenameSnapshot(s: State)
    requires Inv(s) && Enabled(s, RenameSnapshot)
    ensures Inv(Do(s, RenameSnapshot))
  {
    var t := Do(s, RenameSnapshot);
    var w := s.proc.w;
    var live := s.files.dir.Live();
    LiveImages(s.files);
    assert s.hist[..CompactedName(w).seqNo] == w.view;
    forall x, k, l | DirImage(t.files.dir, x) && SlotImage(t.files.commit, k) && LogImage(t.files.wal, l)
      ensures Recoverable(x, k, l, t.hist, t.acked)
    {
      DirImageWrite(s.files.dir, t.files.dir.Live(), x);
      assert Recoverable(live, k, l, s.hist, s.acked);
      RootSurvivesSnapshot(live, s.hist, CompactedName(w));
    }
    forall x | DirImage(t.files.dir, x)
      ensures x.manifest.Some? ==> !x.manifest.value.clean
      ensures w.file in x.snaps && x.snaps[w.file] == Some(s.hist[..w.snapshotSeq])
      ensures x.manifest.Some? ==> Covers(t.files.wal.Live().recs, x.manifest.value.snapshotSeq, |t.hist|)
    {
      DirImageWrite(s.files.dir, t.files.dir.Live(), x);
    }
  }

  lemma CoversNothing(recs: seq<WalRecord>, from: nat, upTo: nat)
    requires upTo <= from
    ensures Covers(recs, from, upTo)
  {
  }

  /** The commit point of a compaction: every marker and every log fit the new MANIFEST. */
  lemma KeepsRenameRoot(s: State)
    requires Inv(s) && Enabled(s, RenameRoot)
    ensures Inv(Do(s, RenameRoot))
  {
    var t := Do(s, RenameRoot);
    var w := s.proc.w;
    var live := s.files.dir.Live();
    LiveImages(s.files);
    assert s.hist[..w.seqNo] == w.view;
    forall x, k, l | DirImage(t.files.dir, x) && SlotImage(t.files.commit, k) && LogImage(t.files.wal, l)
      ensures Recoverable(x, k, l, t.hist, t.acked)
    {
      DirImageWrite(s.files.dir, t.files.dir.Live(), x);
      assert Recoverable(live, k, l, s.hist, s.acked);
      CoversNothing(l.recs, w.seqNo, k.Chosen().committedSeq);
    }
    forall x | DirImage(t.files.dir, x)
      ensures x.manifest.Some? ==> !x.manifest.value.clean
      ensures w.file in x.snaps && x.snaps[w.file] == Some(s.hist[..w.snapshotSeq])
      ensures x.manifest.Some? ==> Covers(t.files.wal.Live().recs, x.manifest.value.snapshotSeq, |t.hist|)
    {
      DirImageWrite(s.files.dir, t.files.dir.Live(), x);
      CoversNothing(t.files.wal.Live().recs, w.seqNo, |t.hist|);
    }
  }

  lemma KeepsAdopt(s: State)
    requires Inv(s) && Enabled(s, Adopt)
    ensures Inv(Do(s, Adopt))
  {
    var t := Do(s, Adopt);
    var w := s.proc.w;
    LiveImages(s.files);
    assert Recoverable(s.files.dir.Live(), s.files.commit.Live(), s.files.wal.Live(), s.hist, s.acked);
    forall x | DirImage(t.files.dir, x)
      ensures t.proc.w.file in x.snaps && x.snaps[t.proc.w.file] == Some(t.hist[..t.proc.w.snapshotSeq])
    {
      assert x == s.files.dir.durable;
    }
    forall k, l | SlotImage(t.files.commit, k) && LogImage(t.files.wal, l) && SlotsOk(k)
      ensures Covers(l.recs, t.proc.w.snapshotSeq, k.Chosen().committedSeq)
    {
      assert Recoverable(s.files.dir.Live(), k, l, s.hist, s.acked);
    }
  }

  lemma KeepsTruncate(s: State)
    requires Inv(s) && Enabled(s, Truncate)
    ensures Inv(Do(s, Truncate))
  {
    var t := Do(s, Truncate);
    var w := s.proc.w;
    LiveImages(s.files);
    forall x | DirImage(s.files.dir, x) ensures x == s.files.dir.durable {
    }
    forall x, k, l | DirImage(t.files.dir, x) && SlotImage(t.files.commit, k) && LogImage(t.files.wal, l)
      ensures Recoverable(x, k, l, t.hist, t.acked)
    {
      LogImageWrite(s.files.wal, t.files.wal.Live(), l);
      assert Recoverable(x, k, s.files.wal.Live(), s.hist, s.acked);
      CoversNothing(l.recs, w.seqNo, k.Chosen().committedSeq);
    }
    forall k, l | SlotImage(t.files.commit, k) && LogImage(t.files.wal, l) && SlotsOk(k)
      ensures Covers(l.recs, w.snapshotSeq, k.Chosen().committedSeq)
    {
      assert Recoverable(s.files.dir.durable, k, s.files.wal.Live(), s.hist, s.acked);
      CoversNothing(l.recs, w.seqNo, k.Chosen().committedSeq);
    }
  }

  /** Every image of the directory carries the one MANIFEST. */
  lemma RootIsEverywhere(d: Volatile<Dir>, m: Manifest, x: Dir)
    requires RootIs(d, m) && DirImage(d, x)
    ensures x.manifest == Some(m)
  {
  }

  /** Garbage collection never removes a snapshot that some surviving MANIFEST names. */
  lemma KeepsDelete(s: State, name: SnapName)
    requires Inv(s) && Enabled(s, Delete(name))
    ensures Inv(Do(s, Delete(name)))
  {
    var t := Do(s, Delete(name));
    var w := s.proc.w;
    var live := s.files.dir.Live();
    LiveImages(s.files);
    RootIsEverywhere(s.files.dir, s.files.dir.durable.manifest.value, live);
    forall x, k, l | DirImage(t.files.dir, x) && SlotImage(t.files.commit, k) && LogImage(t.files.wal, l)
      ensures Recoverable(x, k, l, t.hist, t.acked)
    {
      DirImageWrite(s.files.dir, t.files.dir.Live(), x);
      assert Recoverable(live, k, l, s.hist, s.acked);
    }
    forall x | DirImage(t.files.dir, x)
      ensures x.manifest.Some? ==> !x.manifest.value.clean
      ensures w.file in x.snaps && x.snaps[w.file] == Some(s.hist[..w.snapshotSeq])
      ensures x.manifest.Some? ==> Covers(t.files.wal.Live().recs, x.manifest.value.snapshotSeq, |t.hist|)
    {
      DirImageWrite(s.files.dir, t.files.dir.Live(), x);
    }
  }

  /** The MANIFEST written by close fits every marker and every log. */
  lemma ClosedImage(s: State, clean: bool, x: Dir, k: Slots, l: Log)
    requires Inv(s) && Enabled(s, CloseRename(clean))
    requires DirImage(Do(s, CloseRename(clean)).files.dir, x)
    requires SlotImage(s.files.commit, k) && LogImage(s.files.wal, l)
    ensures Recoverable(x, k, l, s.hist, s.acked)
    ensures x.manifest.value.clean ==>
      && k.Chosen().committedSeq == |s.hist|
      && x.manifest.value.epoch == s.proc.w.epoch
      && s.proc.w.view == s.hist
      && !l.torn
  {
    var live := s.files.dir.Live();
    LiveImages(s.files);
    DirImageWrite(s.files.dir, Do(s, CloseRename(clean)).files.dir.Live(), x);
    assert Recoverable(live, k, l, s.hist, s.acked);
  }

  lemma ClosedImages(s: State, clean: bool)
    requires Inv(s) && Enabled(s, CloseRename(clean))
    ensures ImagesOk(Do(s, CloseRename(clean)).files, s.hist, s.acked)
  {
    var t := Do(s, CloseRename(clean));
    forall x, k, l | DirImage(t.files.dir, x) && SlotImage(t.files.commit, k) && LogImage(t.files.wal, l)
      ensures Recoverable(x, k, l, t.hist, t.acked)
    {
      ClosedImage(s, clean, x, k, l);
    }
  }

  lemma ClosedLogs(s: State, clean: bool)
    requires Inv(s) && Enabled(s, CloseRename(clean))
    ensures CleanLogOk(Do(s, CloseRename(clean)).files)
  {
    var t := Do(s, CloseRename(clean));
    LiveImages(s.files);
    forall x, l | DirImage(t.files.dir, x) && LogImage(t.files.wal, l) && x.manifest.Some? && x.manifest.value.clean
      ensures !l.torn
    {
      ClosedImage(s, clean, x, s.files.commit.Live(), l);
    }
  }

  lemma ClosedMarkers(s: State, clean: bool)
    requires Inv(s) && Enabled(s, CloseRename(clean))
    ensures CleanOk(Do(s, CloseRename(clean)))
  {
    var t := Do(s, CloseRename(clean));
    LiveImages(s.files);
    forall x, k | DirImage(t.files.dir, x) && SlotImage(t.files.commit, k)
        && x.manifest.Some? && x.manifest.value.clean && SlotsOk(k)
      ensures k.Chosen().committedSeq == |t.hist| && x.manifest.value.epoch == s.proc.w.epoch && s.proc.w.view == s.hist
    {
      ClosedImage(s, clean, x, k, s.files.wal.Live());
    }
  }

  lemma KeepsCloseRename(s: State, clean: bool)
    requires Inv(s) && Enabled(s, CloseRename(clean))
    ensures Inv(Do(s, CloseRename(clean)))
  {
    ClosedImages(s, clean);
    ClosedLogs(s, clean);
    ClosedMarkers(s, clean);
  }

  // ---------------------------------------------------------------------
  // open_with_vfs
  // ---------------------------------------------------------------------

  lemma SettledImages(f: Files, x: Dir, k: Slots, l: Log)
    requires f.Settled()
    ensures DirImage(f.dir, x) <==> x == f.dir.durable
    ensures SlotImage(f.commit, k) <==> k == f.commit.durable
    ensures LogImage(f.wal, l) <==> l == f.wal.durable
  {
    assert f.dir.At(0) == f.dir.durable && f.commit.At(0) == f.commit.durable && f.wal.At(0) == f.wal.durable;
  }

  /** The handle recovery opens points at the slot that is not the one it trusts. */
  lemma FreshHandle(c: Volatile<Slots>)
    requires c.Settled() && SlotsOk(c.durable)
    ensures HandleOk(c, Handle(1 - c.durable.ChosenSlot(), c.durable.Chosen().gen + 1, None))
  {
    forall x | SlotImage(c, x) ensures x == c.durable {
      assert c.At(0) == c.durable;
    }
  }

  lemma KeepsOpen(s: State)
    requires Inv(s) && Enabled(s, Open)
    ensures Inv(Do(s, Open))
  {
    var f := s.files;
    var t := Do(s, Open);
    LiveImages(f);
    assert Recoverable(f.dir.durable, f.commit.durable, f.wal.durable, s.hist, s.acked);
    RecoverableOpens(f.dir.durable, f.commit.durable, f.wal.durable, s.hist, s.acked);
    FreshHandle(f.commit);
    forall x, k, l
      ensures DirImage(f.dir, x) <==> x == f.dir.durable
      ensures SlotImage(f.commit, k) <==> k == f.commit.durable
      ensures LogImage(f.wal, l) <==> l == f.wal.durable
    {
      SettledImages(f, x, k, l);
    }
    var r := t.proc.r;
    assert r.View() == s.hist[..r.marker];
    if !r.truncates {
      assert f.wal.durable.recs[..r.kept] == f.wal.durable.recs;
    }
  }

  /** Cutting the log back to the kept frames loses nothing below the marker. */
  lemma TrimmedCovers(l: Log, r: Recovered, from: nat, upTo: nat)
    requires SplitAt(l.recs, r.kept, r.marker)
    requires Covers(l.recs, from, upTo) && upTo <= r.marker
    ensures Covers(Trimmed(l, r).recs, from, upTo)
  {
    forall q | from < q <= upTo ensures HasSeq(Trimmed(l, r).recs, q) {
      assert HasSeq(l.recs, q);
      var i :| 0 <= i < |l.recs| && l.recs[i].seqNo == q;
      assert Trimmed(l, r).recs[i].seqNo == q;
    }
  }

  lemma TrimmedRecoverable(x: Dir, k: Slots, l: Log, r: Recovered, hist: seq<Batch>, acked: nat)
    requires Recoverable(x, k, l, hist, acked)
    requires SplitAt(l.recs, r.kept, r.marker)
    requires k.Chosen().committedSeq <= r.marker
    ensures Recoverable(x, k, Trimmed(l, r), hist, acked)
  {
    TrimmedCovers(l, r, x.manifest.value.snapshotSeq, k.Chosen().committedSeq);
  }

  lemma OpenTruncateImages(s: State)
    requires Inv(s) && Enabled(s, OpenTruncate)
    ensures ImagesOk(Do(s, OpenTruncate).files, s.hist, s.acked)
  {
    var t := Do(s, OpenTruncate);
    LiveImages(s.files);
    forall x, k, l | DirImage(t.files.dir, x) && SlotImage(t.files.commit, k) && LogImage(t.files.wal, l)
      ensures Recoverable(x, k, l, t.hist, t.acked)
    {
      LogImageWrite(s.files.wal, t.files.wal.Live(), l);
      assert Recoverable(x, k, s.files.wal.Live(), s.hist, s.acked);
      TrimmedRecoverable(x, k, s.files.wal.durable, s.proc.r, s.hist, s.acked);
    }
  }

  lemma OpenTruncateLogs(s: State)
    requires Inv(s) && Enabled(s, OpenTruncate)
    ensures CleanLogOk(Do(s, OpenTruncate).files)
  {
    var t := Do(s, OpenTruncate);
    LiveImages(s.files);
    forall x, l | DirImage(t.files.dir, x) && LogImage(t.files.wal, l) && x.manifest.Some? && x.manifest.value.clean
      ensures !l.torn
    {
      LogImageWrite(s.files.wal, t.files.wal.Live(), l);
    }
  }

  lemma KeepsOpenTruncate(s: State)
    requires Inv(s) && Enabled(s, OpenTruncate)
    ensures Inv(Do(s, OpenTruncate))
  {
    OpenTruncateImages(s);
    OpenTruncateLogs(s);
  }

  /** A freshly minted epoch has never been published under. */
  lemma KeepsOpenEpoch(s: State, a: Action)
    requires Inv(s) && Enabled(s, a) && (a.OpenMint? || a.OpenKeepEpoch?)
    ensures Inv(Do(s, a))
  {
    var t := Do(s, a);
    if a.OpenKeepEpoch? {
      assert s.proc.r.View() == s.hist;
    }
    assert t.files == s.files;
  }

  /** With the new record written, every image still recovers, to the same marker. */
  lemma StampedImage(s: State, x: Dir, k: Slots, l: Log)
    requires Inv(s) && Enabled(s, OpenMarkerWrite)
    requires var f := Do(s, OpenMarkerWrite).files; DirImage(f.dir, x) && SlotImage(f.commit, k) && LogImage(f.wal, l)
    ensures Recoverable(x, k, l, s.hist, s.acked)
    ensures Max(k.Chosen().committedSeq, s.proc.r.m.snapshotSeq) == s.proc.r.marker
    ensures x.manifest.Some? && x.manifest.value.clean ==> k.Chosen().committedSeq == |s.hist|
  {
    var t := Do(s, OpenMarkerWrite);
    var r, h, c := s.proc.r, s.proc.handle, s.files.commit;
    HandleAfterWrite(c, h, t.proc.handle.inflight.value);
    LiveImages(s.files);
    HandleChooses(c, h, c.Live());
    HandleChooses(t.files.commit, t.proc.handle, k);
    assert Recoverable(x, c.Live(), l, s.hist, s.acked);
    assert x.manifest.value.snapshotSeq == r.m.snapshotSeq;
    CoversUpToSnapshot(l.recs, r.m.snapshotSeq, c.Live().Chosen().committedSeq, r.marker);
    MarkerMoves(x, c.Live(), k, l, s.hist, s.acked);
  }

  lemma KeepsOpenMarkerWrite(s: State)
    requires Inv(s) && Enabled(s, OpenMarkerWrite)
    ensures Inv(Do(s, OpenMarkerWrite))
  {
    var t := Do(s, OpenMarkerWrite);
    HandleAfterWrite(s.files.commit, s.proc.handle, t.proc.handle.inflight.value);
    LiveImages(t.files);
    forall x, k, l | DirImage(t.files.dir, x) && SlotImage(t.files.commit, k) && LogImage(t.files.wal, l)
      ensures Recoverable(x, k, l, t.hist, t.acked)
    {
      StampedImage(s, x, k, l);
    }
    forall k | SlotImage(t.files.commit, k) && SlotsOk(k)
      ensures Max(k.Chosen().committedSeq, s.proc.r.m.snapshotSeq) == s.proc.r.marker
    {
      StampedImage(s, t.files.dir.Live(), k, t.files.wal.Live());
    }
    forall x, k | DirImage(t.files.dir, x) && SlotImage(t.files.commit, k)
        && x.manifest.Some? && x.manifest.value.clean && SlotsOk(k)
      ensures k.Chosen().committedSeq == |t.hist|
    {
      StampedImage(s, x, k, t.files.wal.Live());
    }
  }

  /** Raising the marker to the snapshot asks nothing more of the log. */
  lemma CoversUpToSnapshot(recs: seq<WalRecord>, from: nat, committed: nat, marker: nat)
    requires Covers(recs, from, committed) && marker == Max(committed, from)
    ensures Covers(recs, from, marker)
  {
  }

  lemma KeepsOpenMarkerAck(s: State)
    requires Inv(s) && Enabled(s, OpenMarkerAck)
    ensures Inv(Do(s, OpenMarkerAck))
  {
    HandleAfterAck(s.files.commit, s.proc.handle);
  }

  lemma KeepsOpenRenameRoot(s: State)
    requires Inv(s) && Enabled(s, OpenRenameRoot)
    ensures Inv(Do(s, OpenRenameRoot))
  {
    var t := Do(s, OpenRenameRoot);
    var r := s.proc.r;
    var live := s.files.dir.Live();
    LiveImages(s.files);
    forall x, k, l | DirImage(t.files.dir, x) && SlotImage(t.files.commit, k) && LogImage(t.files.wal, l)
      ensures Recoverable(x, k, l, t.hist, t.acked)
    {
      DirImageWrite(s.files.dir, t.files.dir.Live(), x);
      assert Recoverable(live, k, l, s.hist, s.acked);
    }
    forall x | DirImage(t.files.dir, x) && x.manifest.Some?
      ensures x.manifest.value == r.m || x.manifest.value == ReopenedRoot(r, s.proc.epoch.value)
      ensures x.manifest.value.clean ==> DirImage(s.files.dir, x)
    {
      DirImageWrite(s.files.dir, t.files.dir.Live(), x);
    }
  }

  /** The open-time sweep never removes the snapshot the surviving MANIFEST names. */
  lemma KeepsOpenDelete(s: State, other: SnapName)
    requires Inv(s) && Enabled(s, OpenDelete(other))
    ensures Inv(Do(s, OpenDelete(other)))
  {
    var t := Do(s, OpenDelete(other));
    var m := ReopenedRoot(s.proc.r, s.proc.epoch.value);
    var live := s.files.dir.Live();
    LiveImages(s.files);
    RootIsEverywhere(s.files.dir, m, live);
    forall x, k, l | DirImage(t.files.dir, x) && SlotImage(t.files.commit, k) && LogImage(t.files.wal, l)
      ensures Recoverable(x, k, l, t.hist, t.acked)
    {
      DirImageWrite(s.files.dir, t.files.dir.Live(), x);
      assert Recoverable(live, k, l, s.hist, s.acked);
    }
    forall x | DirImage(t.files.dir, x) && x.manifest.Some?
      ensures x.manifest.value == m
    {
      DirImageWrite(s.files.dir, t.files.dir.Live(), x);
      if DirImage(s.files.dir, x) {
        RootIsEverywhere(s.files.dir, m, x);
      }
    }
  }

  /** An image whose log stops at the marker recovers just as well on the shortened timeline. */
  lemma RecoverableCut(x: Dir, k: Slots, l: Log, hist: seq<Batch>, acked: nat, marker: nat)
    requires Recoverable(x, k, l, hist, acked)
    requires marker <= |hist| && k.Chosen().committedSeq == marker
    requires x.manifest.value.snapshotSeq <= marker
    requires SplitAt(l.recs, |l.recs|, marker)
    ensures Recoverable(x, k, l, hist[..marker], marker)
  {
    assert hist[..marker][..x.manifest.value.snapshotSeq] == hist[..x.manifest.value.snapshotSeq];
  }

  lemma KeepsOpenPublish(s: State)
    requires Inv(s) && Enabled(s, OpenPublish)
    ensures Inv(Do(s, OpenPublish))
  {
    var t := Do(s, OpenPublish);
    var r, m := s.proc.r, ReopenedRoot(s.proc.r, s.proc.epoch.value);
    LiveImages(s.files);
    forall x | DirImage(s.files.dir, x) ensures x.manifest == Some(m) {
      RootIsEverywhere(s.files.dir, m, x);
    }
    forall l | LogImage(s.files.wal, l) ensures l == s.files.wal.durable {
    }
    forall x, k, l | DirImage(t.files.dir, x) && SlotImage(t.files.commit, k) && LogImage(t.files.wal, l)
      ensures Recoverable(x, k, l, t.hist, t.acked)
    {
      assert Recoverable(x, k, l, s.hist, s.acked);
      RecoverableCut(x, k, l, s.hist, s.acked, r.marker);
    }
    PublishedGrows(s.published, s.epochs, s.proc.epoch.value, r.View());
    assert t.hist[..r.marker] == t.hist;
    forall x | DirImage(t.files.dir, x)
      ensures r.m.file in x.snaps && x.snaps[r.m.file] == Some(t.hist[..r.m.snapshotSeq])
    {
      assert Recoverable(x, t.files.commit.Live(), t.files.wal.Live(), t.hist, t.acked);
    }
    forall k, l | SlotImage(t.files.commit, k) && LogImage(t.files.wal, l) && SlotsOk(k)
      ensures Covers(l.recs, r.m.snapshotSeq, k.Chosen().committedSeq)
    {
      assert Recoverable(t.files.dir.Live(), k, l, t.hist, t.acked);
    }
    HandleChooses(s.files.commit, s.proc.handle, s.files.commit.Live());
  }

  // ---------------------------------------------------------------------
  // All steps
  // ---------------------------------------------------------------------

  predicate OfDisk(a: Action) { a.Writeback? || a.Crash? }

  predicate OfWriter(a: Action) {
    a.Append? || a.MarkerWrite? || a.MarkerAck? || a.Publish?
  }

  predicate OfCompaction(a: Action) {
    a.RenameSnapshot? || a.RenameRoot? || a.Adopt? || a.Truncate? || a.Delete? || a.CloseRename?
  }

  predicate OfRecovery(a: Action) {
    a.Open? || a.OpenTruncate? || a.OpenMint? || a.OpenKeepEpoch? || a.OpenMarkerWrite?
  }

  predicate OfReopening(a: Action) {
    a.OpenMarkerAck? || a.OpenRenameRoot? || a.OpenDelete? || a.OpenPublish?
  }

  lemma KeepsDiskSteps(s: State, a: Action)
    requires Inv(s) && Enabled(s, a) && OfDisk(a)
    ensures Inv(Do(s, a))
  {
    if a.Writeback? { KeepsWriteback(s, a.f); } else { KeepsCrash(s, a.x, a.slots, a.log); }
  }

  lemma KeepsWriterSteps(s: State, a: Action)
    requires Inv(s) && Enabled(s, a) && OfWriter(a)
    ensures Inv(Do(s, a))
  {
    if a.Append? { KeepsAppend(s, a.b); }
    else if a.MarkerWrite? { KeepsMarkerWrite(s, a.n); }
    else if a.MarkerAck? { KeepsMarkerAck(s); }
    else { KeepsPublish(s); }
  }

  lemma KeepsCompactionSteps(s: State, a: Action)
    requires Inv(s) && Enabled(s, a) && OfCompaction(a)
    ensures Inv(Do(s, a))
  {
    if a.RenameSnapshot? { KeepsRenameSnapshot(s); }
    else if a.RenameRoot? { KeepsRenameRoot(s); }
    else if a.Adopt? { KeepsAdopt(s); }
    else if a.Truncate? { KeepsTruncate(s); }
    else if a.Delete? { KeepsDelete(s, a.name); }
    else { KeepsCloseRename(s, a.clean); }
  }

  lemma KeepsRecoverySteps(s: State, a: Action)
    requires Inv(s) && Enabled(s, a) && OfRecovery(a)
    ensures Inv(Do(s, a))
  {
    if a.Open? { KeepsOpen(s); }
    else if a.OpenTruncate? { KeepsOpenTruncate(s); }
    else if a.OpenMarkerWrite? { KeepsOpenMarkerWrite(s); }
    else { KeepsOpenEpoch(s, a); }
  }

  lemma KeepsReopeningSteps(s: State, a: Action)
    requires Inv(s) && Enabled(s, a) && OfReopening(a)
    ensures Inv(Do(s, a))
  {
    if a.OpenMarkerAck? { KeepsOpenMarkerAck(s); }
    else if a.OpenRenameRoot? { KeepsOpenRenameRoot(s); }
    else if a.OpenDelete? { KeepsOpenDelete(s, a.other); }
    else { KeepsOpenPublish(s); }
  }

  /** Every step, from whatever component and with whatever outcome, keeps the invariant. */
  lemma KeepsInv(s: State, a: Action)
    requires Inv(s) && Enabled(s, a)
    ensures Inv(Do(s, a))
  {
    if OfDisk(a) { KeepsDiskSteps(s, a); }
    else if OfWriter(a) { KeepsWriterSteps(s, a); }
    else if OfCompaction(a) { KeepsCompactionSteps(s, a); }
    else if OfRecovery(a) { KeepsRecoverySteps(s, a); }
    else if OfReopening(a) { KeepsReopeningSteps(s, a); }
    else { KeepsProcessSteps(s, a); }
  }

  lemma InitialInv(s: State)
    requires Initial(s)
    ensures Inv(s)
  {
    forall x, k, l
      ensures DirImage(s.files.dir, x) <==> x == s.files.dir.durable
      ensures SlotImage(s.files.commit, k) <==> k == s.files.commit.durable
      ensures LogImage(s.files.wal, l) <==> l == s.files.wal.durable
    {
      SettledImages(s.files, x, k, l);
    }
    assert s.hist[..0] == [];
    assert s.proc.w.view == s.hist[..0];
  }
}
