/**
 Why every reopening in the runs starts from a settled image: recovery makes the
 COMMIT record durable before the MANIFEST it was derived from
 (src/persist/mod.rs:706-742).
 */
module UnsettledReopen {
  import opened Types
  import opened Disk
  import opened Recovery
  import opened Protocol
  import opened Safety
  import opened Runs

  /** The slots once recovery, having read the live files, has stamped its marker and synced it. */
  function Stamped(k: Slots, r: Recovered, epoch: nat): Slots {
    k.Set(r.nextSlot, Some(CommitRecord(epoch, r.marker, r.nextGen)))
  }

  /** A log that may survive: recovery cuts off and syncs an uncommitted or torn tail, and otherwise leaves the log alone. */
  ghost predicate LogThen(f: Files, r: Recovered, l: Log) {
    if r.truncates then l == Trimmed(f.wal.Live(), r) else LogImage(f.wal, l)
  }

  /** A directory that may survive: recovery syncs it together with the log it has cut. */
  ghost predicate DirThen(f: Files, r: Recovered, x: Dir) {
    if r.truncates then x == f.dir.Live() else DirImage(f.dir, x)
  }

  /** A power cut right after the stamp opens again, whatever of the directory and the log survives. */
  ghost predicate StampIsSafe(f: Files, r: Recovered, epoch: nat) {
    forall x, l :: DirThen(f, r, x) && LogThen(f, r, l) ==>
      Recover(x, Stamped(f.commit.Live(), r, epoch), l).Ok?
  }

  /** Each MANIFEST that may survive, with the log that may survive beside it, reaches the marker. */
  ghost predicate MarkerIsBacked(f: Files, r: Recovered) {
    forall x, l :: DirThen(f, r, x) && LogThen(f, r, l) && x.manifest.Some? ==>
      Covers(l.recs, x.manifest.value.snapshotSeq, r.marker)
  }

  /**
   A process killed at any point and restarted at once, without a power cut, is safe
   against a power cut after its stamp exactly when the marker it stamps is backed by
   every image of the directory and the log.
   */
  lemma ReopenIsSafeWhenBacked(s0: State, run: seq<Action>, epoch: nat)
    requires Initial(s0) && Legal(s0, run)
    requires var f := Exec(s0, run).files; Recover(f.dir.Live(), f.commit.Live(), f.wal.Live()).Ok?
    ensures var f := Exec(s0, run).files;
      var r := Recover(f.dir.Live(), f.commit.Live(), f.wal.Live()).value;
      StampIsSafe(f, r, epoch) <==> MarkerIsBacked(f, r)
  {
    InitialInv(s0);
    RunsKeepInv(s0, run);
    var f := Exec(s0, run).files;
    var r := Recover(f.dir.Live(), f.commit.Live(), f.wal.Live()).value;
    forall x, l | DirThen(f, r, x) && LogThen(f, r, l) ensures OpensIfCovered(f, r, epoch, x, l) {
      StampedImage(Exec(s0, run), r, x, l, epoch);
    }
    ImageByImage(f, r, epoch);
  }

  ghost predicate OpensIfCovered(f: Files, r: Recovered, epoch: nat, x: Dir, l: Log) {
    x.manifest.Some?
    && (Recover(x, Stamped(f.commit.Live(), r, epoch), l).Ok? <==> Covers(l.recs, x.manifest.value.snapshotSeq, r.marker))
  }

  lemma ImageByImage(f: Files, r: Recovered, epoch: nat)
    requires forall x, l :: DirThen(f, r, x) && LogThen(f, r, l) ==> OpensIfCovered(f, r, epoch, x, l)
    ensures StampIsSafe(f, r, epoch) <==> MarkerIsBacked(f, r)
  {
    if StampIsSafe(f, r, epoch) {
      forall x, l | DirThen(f, r, x) && LogThen(f, r, l) ensures Covers(l.recs, x.manifest.value.snapshotSeq, r.marker) {
        assert OpensIfCovered(f, r, epoch, x, l);
      }
    }
    if MarkerIsBacked(f, r) {
      forall x, l | DirThen(f, r, x) && LogThen(f, r, l) ensures Recover(x, Stamped(f.commit.Live(), r, epoch), l).Ok? {
        assert OpensIfCovered(f, r, epoch, x, l);
      }
    }
  }

  lemma StampedImage(s: State, r: Recovered, x: Dir, l: Log, epoch: nat)
    requires Inv(s)
    requires Recover(s.files.dir.Live(), s.files.commit.Live(), s.files.wal.Live()) == Ok(r)
    requires DirThen(s.files, r, x) && LogThen(s.files, r, l)
    ensures OpensIfCovered(s.files, r, epoch, x, l)
  {
    var f := s.files;
    LiveImages(f);
    RecoverableOpens(f.dir.Live(), f.commit.Live(), f.wal.Live(), s.hist, s.acked);
    var read := if r.truncates then f.wal.Live() else l;
    assert Recoverable(x, f.commit.Live(), read, s.hist, s.acked);
    StampedOpens(x, f.commit.Live(), l, s.hist, r, epoch);
  }

  lemma StampedOpens(x: Dir, live: Slots, l: Log, hist: seq<Batch>, r: Recovered, epoch: nat)
    requires RootOk(x, hist) && SlotsOk(live) && LogOk(l, hist) && r.marker <= |hist|
    requires r.nextSlot == 1 - live.ChosenSlot() && r.nextGen == live.Chosen().gen + 1
    requires x.manifest.value.highSeq <= Max(r.marker, x.manifest.value.snapshotSeq)
    ensures Recover(x, Stamped(live, r, epoch), l).Ok? <==> Covers(l.recs, x.manifest.value.snapshotSeq, r.marker)
  {
    var k := Stamped(live, r, epoch);
    assert SlotsOk(k) && k.Chosen().committedSeq == r.marker;
    OpensOnlyIfCovered(x, k, l, hist);
  }

  // ---------------------------------------------------------------------
  // What the restarting process can check
  // ---------------------------------------------------------------------

  /**
   The live log reaches from any MANIFEST that may survive to the live one: the fold
   that wrote the live one found those batches there.
   */
  ghost predicate LogReachesRoot(f: Files) {
    forall x :: DirImage(f.dir, x) && x.manifest.Some? && f.dir.Live().manifest.Some? ==>
      Covers(f.wal.Live().recs, x.manifest.value.snapshotSeq, f.dir.Live().manifest.value.snapshotSeq)
  }

  /** Steps that leave log and directory as the processes read them, and no more images of the directory than before. */
  lemma ReachesAsBefore(f: Files, g: Files)
    requires LogReachesRoot(f) && g.wal.Live() == f.wal.Live()
    requires g.dir.Live().manifest == f.dir.Live().manifest
    requires forall x :: DirImage(g.dir, x) ==> DirImage(f.dir, x) || x.manifest == f.dir.Live().manifest
    ensures LogReachesRoot(g)
  {
  }

  /** Replacing the live MANIFEST by one that the live log reaches from all the others. */
  lemma ReachesNewRoot(f: Files, t: Tmp)
    requires t.payload.Root? && t.synced
    requires forall x :: DirImage(f.dir, x) && x.manifest.Some? ==>
      Covers(f.wal.Live().recs, x.manifest.value.snapshotSeq, t.payload.manifest.snapshotSeq)
    ensures LogReachesRoot(f.(dir := f.dir.Write(Renamed(f.dir.Live(), t)), tmp := None))
  {
    var g := f.(dir := f.dir.Write(Renamed(f.dir.Live(), t)), tmp := None);
    forall x | DirImage(g.dir, x) && x.manifest.Some?
      ensures Covers(g.wal.Live().recs, x.manifest.value.snapshotSeq, g.dir.Live().manifest.value.snapshotSeq)
    {
      DirImageWrite(f.dir, Renamed(f.dir.Live(), t), x);
    }
  }

  /** Every MANIFEST that may survive has the same snapshot. */
  lemma ReachesSameRoot(f: Files, n: nat)
    requires forall x :: DirImage(f.dir, x) && x.manifest.Some? ==> x.manifest.value.snapshotSeq == n
    ensures LogReachesRoot(f)
  {
    LiveImages(f);
  }

  lemma ReachesAfterDirWrite(f: Files, b: Dir)
    requires LogReachesRoot(f) && b.manifest == f.dir.Live().manifest
    ensures LogReachesRoot(f.(dir := f.dir.Write(b), tmp := None)) && LogReachesRoot(f.(dir := f.dir.Write(b)))
  {
    var g := f.(dir := f.dir.Write(b));
    forall x | DirImage(g.dir, x) ensures DirImage(f.dir, x) || x.manifest == f.dir.Live().manifest {
      DirImageWrite(f.dir, b, x);
    }
    ReachesAsBefore(f, g);
    ReachesAsBefore(f, g.(tmp := None));
  }

  lemma ReachesAfterAppend(s: State, b: Batch)
    requires LogReachesRoot(s.files) && Enabled(s, Append(b))
    ensures LogReachesRoot(Do(s, Append(b)).files)
  {
    var f, g := s.files, Do(s, Append(b)).files;
    forall x | DirImage(g.dir, x) && x.manifest.Some? && g.dir.Live().manifest.Some?
      ensures Covers(g.wal.Live().recs, x.manifest.value.snapshotSeq, g.dir.Live().manifest.value.snapshotSeq)
    {
      CoversAppend(f.wal.Live().recs, WalRecord(|s.hist| + 1, b), x.manifest.value.snapshotSeq, f.dir.Live().manifest.value.snapshotSeq);
    }
  }

  /** The renames of a MANIFEST, by compaction, close and recovery. */
  lemma ReachesAfterRename(s: State, a: Action)
    requires Inv(s) && Enabled(s, a) && (a.RenameRoot? || a.CloseRename? || a.OpenRenameRoot?)
    ensures LogReachesRoot(Do(s, a).files)
  {
    var t := s.files.tmp.value;
    if a.OpenRenameRoot? {
      forall x | DirImage(s.files.dir, x) && x.manifest.Some?
        ensures Covers(s.files.wal.Live().recs, x.manifest.value.snapshotSeq, t.payload.manifest.snapshotSeq)
      {
        assert x.manifest.value.snapshotSeq == s.proc.r.m.snapshotSeq;
      }
    }
    ReachesNewRoot(s.files, t);
  }

  lemma ReachesAfterCut(s: State, a: Action)
    requires Inv(s) && Enabled(s, a) && (a.Crash? || a.Truncate? || a.OpenTruncate?)
    ensures LogReachesRoot(Do(s, a).files)
  {
    var g := Do(s, a).files;
    LiveImages(g);
    if a.OpenTruncate? {
      ReachesSameRoot(g, s.proc.r.m.snapshotSeq);
    } else {
      forall x | DirImage(g.dir, x) ensures x == g.dir.Live() { }
      if g.dir.Live().manifest.Some? {
        ReachesSameRoot(g, g.dir.Live().manifest.value.snapshotSeq);
      }
    }
  }

  predicate WritesDir(a: Action) {
    a.RenameSnapshot? || a.Delete? || a.OpenDelete? || a.RenameRoot? || a.CloseRename? || a.OpenRenameRoot?
  }

  predicate WritesLog(a: Action) { a.Append? || a.Truncate? || a.OpenTruncate? || a.Crash? }

  lemma ReachesAfterDir(s: State, a: Action)
    requires Inv(s) && LogReachesRoot(s.files) && Enabled(s, a) && WritesDir(a)
    ensures LogReachesRoot(Do(s, a).files)
  {
    match a {
      case RenameSnapshot => ReachesAfterDirWrite(s.files, Renamed(s.files.dir.Live(), s.files.tmp.value));
      case Delete(name) => ReachesAfterDirWrite(s.files, Without(s.files.dir.Live(), name));
      case OpenDelete(name) => ReachesAfterDirWrite(s.files, Without(s.files.dir.Live(), name));
      case RenameRoot => ReachesAfterRename(s, a);
      case CloseRename(_) => ReachesAfterRename(s, a);
      case OpenRenameRoot => ReachesAfterRename(s, a);
    }
  }

  lemma ReachesAfterOther(s: State, a: Action)
    requires LogReachesRoot(s.files) && Enabled(s, a) && !WritesDir(a) && !WritesLog(a)
    ensures LogReachesRoot(Do(s, a).files)
  {
    var g := Do(s, a).files;
    if a.Writeback? {
      WritebackShrinks(s, a.f);
    } else {
      assert g.dir == s.files.dir && g.wal == s.files.wal;
    }
    ReachesAsBefore(s.files, g);
  }

  lemma StepKeepsReach(s: State, a: Action)
    requires Inv(s) && LogReachesRoot(s.files) && Enabled(s, a)
    ensures LogReachesRoot(Do(s, a).files)
  {
    if WritesDir(a) {
      ReachesAfterDir(s, a);
    } else if !WritesLog(a) {
      ReachesAfterOther(s, a);
    } else if a.Append? {
      ReachesAfterAppend(s, a.b);
    } else {
      ReachesAfterCut(s, a);
    }
  }

  lemma {:induction false} RunKeepsReach(s: State, run: seq<Action>)
    requires Inv(s) && LogReachesRoot(s.files) && Legal(s, run)
    ensures LogReachesRoot(Exec(s, run).files)
    decreases |run|
  {
    if run != [] {
      StepKeepsReach(s, run[0]);
      KeepsInv(s, run[0]);
      RunKeepsReach(Do(s, run[0]), run[1..]);
    }
  }

  /**
   What the process reads off the files it has just opened, or has seen to: the COMMIT
   record is not behind the MANIFEST, recovery is cutting the log and so syncs the
   directory, or the log or the directory has been synced. Then no MANIFEST that may
   still vanish is the only witness of the marker.
   */
  predicate ReadyToStamp(f: Files, r: Recovered) {
    || f.dir.Settled() || f.wal.Settled() || r.truncates
    || (SlotsOk(f.commit.Live()) && r.m.snapshotSeq <= f.commit.Live().Chosen().committedSeq)
  }

  /** Under that guard the stamp is safe in every reachable state, however unsettled the other files. */
  lemma GuardedStampIsSafe(s0: State, run: seq<Action>, epoch: nat)
    requires Initial(s0) && Legal(s0, run)
    requires var f := Exec(s0, run).files; Recover(f.dir.Live(), f.commit.Live(), f.wal.Live()).Ok?
    ensures var f := Exec(s0, run).files;
      var r := Recover(f.dir.Live(), f.commit.Live(), f.wal.Live()).value;
      ReadyToStamp(f, r) ==> StampIsSafe(f, r, epoch)
  {
    InitialInv(s0);
    RunsKeepInv(s0, run);
    ReachesSameRoot(s0.files, 0);
    RunKeepsReach(s0, run);
    var s := Exec(s0, run);
    var f := s.files;
    var r := Recover(f.dir.Live(), f.commit.Live(), f.wal.Live()).value;
    if ReadyToStamp(f, r) {
      forall x, l | DirThen(f, r, x) && LogThen(f, r, l) && x.manifest.Some?
        ensures Covers(l.recs, x.manifest.value.snapshotSeq, r.marker)
      {
        GuardedImage(s, r, x, l);
      }
      ReopenIsSafeWhenBacked(s0, run, epoch);
    }
  }

  lemma GuardedImage(s: State, r: Recovered, x: Dir, l: Log)
    requires Inv(s) && LogReachesRoot(s.files)
    requires Recover(s.files.dir.Live(), s.files.commit.Live(), s.files.wal.Live()) == Ok(r)
    requires ReadyToStamp(s.files, r)
    requires DirThen(s.files, r, x) && LogThen(s.files, r, l) && x.manifest.Some?
    ensures Covers(l.recs, x.manifest.value.snapshotSeq, r.marker)
  {
    var f := s.files;
    LiveImages(f);
    RecoverableOpens(f.dir.Live(), f.commit.Live(), f.wal.Live(), s.hist, s.acked);
    var read := if r.truncates then f.wal.Live() else l;
    assert Recoverable(x, f.commit.Live(), read, s.hist, s.acked);
    var c := f.commit.Live().Chosen().committedSeq;
    var from := x.manifest.value.snapshotSeq;
    if c < r.marker {
      assert r.marker == f.dir.Live().manifest.value.snapshotSeq;
      assert x == f.dir.Live() || l == f.wal.Live();
    } else {
      assert Covers(read.recs, from, r.marker);
      if r.truncates {
        TrimmedCovers(f.wal.Live(), r, from, r.marker);
      }
    }
  }

  // ---------------------------------------------------------------------
  // A run in which it is not backed
  // ---------------------------------------------------------------------

  lemma {:induction false} LegalSnoc(s: State, run: seq<Action>, a: Action)
    requires Legal(s, run) && Enabled(Exec(s, run), a)
    ensures Legal(s, run + [a]) && Exec(s, run + [a]) == Do(Exec(s, run), a)
  {
    OneStep(Exec(s, run), a);
    RunsCompose(s, run, [a]);
  }

  function Snap(n: nat): SnapName { SnapName(n, n) }

  function FirstRoot(epoch: nat): Manifest { Manifest(Snap(0), 0, epoch, 0, false, 0) }

  function SecondRoot(epoch: nat): Manifest { Manifest(Snap(1), 1, epoch, 1, false, 1) }

  function Before(b: Batch): map<SnapName, Option<seq<Batch>>> { map[Snap(0) := Some([]), Snap(1) := Some([b])] }

  /** One batch appended but not synced, then folded: the new MANIFEST is renamed into place but its directory is not synced. */
  function Midway(epoch: nat, b: Batch): Files {
    Files(
      Volatile(Log([], false), [Log([WalRecord(1, b)], false)]),
      Volatile(Slots(Some(CommitRecord(epoch, 0, 0)), None), []),
      Volatile(Dir(Some(FirstRoot(epoch)), Before(b)), [Dir(Some(SecondRoot(epoch)), Before(b))]),
      None)
  }

  /** The process reads the new MANIFEST and stamps marker 1; the cut brings back the old one and an empty log. */
  lemma MidwayIsUnsafe(epoch: nat, b: Batch, e: nat)
    ensures var f := Midway(epoch, b);
      var r := Recover(f.dir.Live(), f.commit.Live(), f.wal.Live());
      && r.Ok? && r.value.marker == 1 && !r.value.truncates
      && DirImage(f.dir, f.dir.durable) && LogImage(f.wal, f.wal.durable)
      && Recover(f.dir.durable, Stamped(f.commit.Live(), r.value, e), f.wal.durable) == Err(LostCommitted(0, 1))
  {
    var f := Midway(epoch, b);
    assert f.dir.durable == f.dir.At(0) && f.wal.durable == f.wal.At(0);
    var recs := [WalRecord(1, b)];
    assert recs[..0] == [];
    assert Replay(recs, 1, 1) == Ok(Progress(1, [], 1, 0));
  }

  lemma MidwayNeverSafe(epoch: nat, b: Batch)
    ensures var f := Midway(epoch, b);
      var r := Recover(f.dir.Live(), f.commit.Live(), f.wal.Live());
      r.Ok? && forall e :: !StampIsSafe(f, r.value, e)
  {
    var f := Midway(epoch, b);
    var r := Recover(f.dir.Live(), f.commit.Live(), f.wal.Live());
    MidwayIsUnsafe(epoch, b, 0);
    forall e ensures !StampIsSafe(f, r.value, e) {
      MidwayIsUnsafe(epoch, b, e);
      assert LogThen(f, r.value, f.wal.durable);
    }
  }

  function Created(epoch: nat): State {
    State(
      Files(
        Volatile(Log([], false), []),
        Volatile(Slots(Some(CommitRecord(epoch, 0, 0)), None), []),
        Volatile(Dir(Some(FirstRoot(epoch)), map[Snap(0) := Some([])]), []),
        None),
      Up(Writer(0, 0, epoch, [], 0, Snap(0), 0, Handle(1, 1, None), false)),
      [], 0, {Published(epoch, 0, [])}, {epoch})
  }

  function AfterApply(epoch: nat, b: Batch): State {
    var s := Created(epoch);
    s.(files := s.files.(wal := Volatile(Log([], false), [Log([WalRecord(1, b)], false)])),
       proc := Up(s.proc.w.(seqNo := 1, view := [b])),
       hist := [b],
       published := s.published + {Published(epoch, 1, [b])})
  }

  function AfterSnapshot(epoch: nat, b: Batch): State {
    var s := AfterApply(epoch, b);
    s.(files := s.files.(dir := Volatile(Dir(Some(FirstRoot(epoch)), Before(b)), [])))
  }

  lemma ApplyOnce(epoch: nat, b: Batch)
    ensures Legal(Created(epoch), [Append(b), Publish])
    ensures Exec(Created(epoch), [Append(b), Publish]) == AfterApply(epoch, b)
  {
    var s := Created(epoch);
    LegalSnoc(s, [], Append(b));
    assert [] + [b] == [b] && [] + [WalRecord(1, b)] == [WalRecord(1, b)];
    var appended := Do(s, Append(b));
    assert appended.hist == [b];
    assert appended.files == AfterApply(epoch, b).files;
    LegalSnoc(s, [] + [Append(b)], Publish);
    assert [] + [Append(b)] + [Publish] == [Append(b), Publish];
  }

  lemma WriteSnapshot(epoch: nat, b: Batch) returns (run: seq<Action>)
    ensures Legal(AfterApply(epoch, b), run) && Exec(AfterApply(epoch, b), run) == AfterSnapshot(epoch, b)
  {
    var s := AfterApply(epoch, b);
    run := [];
    LegalSnoc(s, run, TmpWrite(Snapshot(Snap(1), [b])));
    run := run + [TmpWrite(Snapshot(Snap(1), [b]))];
    LegalSnoc(s, run, TmpSync);
    run := run + [TmpSync];
    LegalSnoc(s, run, RenameSnapshot);
    run := run + [RenameSnapshot];
    LegalSnoc(s, run, Writeback(Directory));
    run := run + [Writeback(Directory)];
    assert map[Snap(0) := Some([])][Snap(1) := Some([b])] == Before(b);
  }

  lemma RenameAndDie(epoch: nat, b: Batch) returns (run: seq<Action>)
    ensures Legal(AfterSnapshot(epoch, b), run)
    ensures Exec(AfterSnapshot(epoch, b), run).files == Midway(epoch, b) && Exec(AfterSnapshot(epoch, b), run).proc.Down?
  {
    var s := AfterSnapshot(epoch, b);
    run := [];
    LegalSnoc(s, run, TmpWrite(Root(SecondRoot(epoch))));
    run := run + [TmpWrite(Root(SecondRoot(epoch)))];
    LegalSnoc(s, run, TmpSync);
    run := run + [TmpSync];
    LegalSnoc(s, run, RenameRoot);
    run := run + [RenameRoot];
    LegalSnoc(s, run, Die);
    run := run + [Die];
  }

  /** A legal run ends there: so a restart on an unsettled image, then a power cut, can lose the store. */
  lemma MidwayIsReached(epoch: nat, b: Batch) returns (s0: State, run: seq<Action>)
    ensures Initial(s0) && Legal(s0, run)
    ensures Exec(s0, run).proc.Down? && Exec(s0, run).files == Midway(epoch, b)
    ensures var f := Exec(s0, run).files;
      var r := Recover(f.dir.Live(), f.commit.Live(), f.wal.Live());
      r.Ok? && forall e :: !StampIsSafe(f, r.value, e)
  {
    MidwayNeverSafe(epoch, b);
    s0 := Created(epoch);
    ApplyOnce(epoch, b);
    var write := WriteSnapshot(epoch, b);
    var rename := RenameAndDie(epoch, b);
    RunsCompose(AfterApply(epoch, b), write, rename);
    RunsCompose(s0, [Append(b), Publish], write + rename);
    run := [Append(b), Publish] + (write + rename);
  }
}
