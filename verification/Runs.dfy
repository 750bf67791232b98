/** What holds over whole runs of the store: any actions, any outcomes, any number of power cuts and reopenings. */
module Runs {
  import opened Types
  import opened Disk
  import opened Recovery
  import opened Protocol
  import opened Safety

  /** Each action is enabled in the state the ones before it lead to. */
  ghost predicate Legal(s: State, run: seq<Action>)
    decreases |run|
  {
    run == [] || (Enabled(s, run[0]) && Legal(Do(s, run[0]), run[1..]))
  }

  ghost function Exec(s: State, run: seq<Action>): State
    requires Legal(s, run)
    decreases |run|
  {
    if run == [] then s else Exec(Do(s, run[0]), run[1..])
  }

  lemma OneStep(s: State, a: Action)
    requires Enabled(s, a)
    ensures Legal(s, [a]) && Exec(s, [a]) == Do(s, a)
  {
    var rest := [a][1..];
    assert rest == [];
    assert Legal(Do(s, a), rest) && Exec(Do(s, a), rest) == Do(s, a);
  }

  lemma {:induction false} RunsKeepInv(s: State, run: seq<Action>)
    requires Inv(s) && Legal(s, run)
    ensures Inv(Exec(s, run))
    decreases |run|
  {
    if run != [] {
      KeepsInv(s, run[0]);
      RunsKeepInv(Do(s, run[0]), run[1..]);
    }
  }

  lemma {:induction false} RunsCompose(s: State, a: seq<Action>, b: seq<Action>)
    requires Legal(s, a) && Legal(Exec(s, a), b)
    ensures Legal(s, a + b) && Exec(s, a + b) == Exec(Exec(s, a), b)
    decreases |a|
  {
    if a == [] {
      assert a + b == b;
    } else {
      assert (a + b)[1..] == a[1..] + b;
      RunsCompose(Do(s, a[0]), a[1..], b);
    }
  }

  /** Cutting a run short leaves a run: a power cut may come after any of its steps. */
  lemma {:induction false} RunsSplit(s: State, run: seq<Action>, n: nat)
    requires Legal(s, run) && n <= |run|
    ensures Legal(s, run[..n]) && Legal(Exec(s, run[..n]), run[n..])
    ensures Exec(Exec(s, run[..n]), run[n..]) == Exec(s, run)
    decreases |run|
  {
    if n == 0 {
      assert run[..0] == [] && run[0..] == run;
    } else {
      assert run[..n][1..] == run[1..][..n - 1];
      assert run[n..] == run[1..][n - 1..];
      RunsSplit(Do(s, run[0]), run[1..], n - 1);
    }
  }

  // ---------------------------------------------------------------------
  // Recovery is never Corrupt and keeps every acknowledged batch
  // ---------------------------------------------------------------------

  /**
   Whenever the power fails, whatever survives opens, and holds exactly the
   batches 1..r, each once and in order, with r at least every committed_seq
   ever observed and at most the last seq handed to the log.
   */
  lemma CrashAnywhereRecovers(s0: State, run: seq<Action>, x: Dir, k: Slots, l: Log)
    requires Initial(s0) && Legal(s0, run)
    requires var f := Exec(s0, run).files; DirImage(f.dir, x) && SlotImage(f.commit, k) && LogImage(f.wal, l)
    ensures Recover(x, k, l).Ok?
    ensures var r, s := Recover(x, k, l).value, Exec(s0, run);
      && s.acked <= r.marker <= |s.hist|
      && r.View() == s.hist[..r.marker]
  {
    InitialInv(s0);
    RunsKeepInv(s0, run);
    var s := Exec(s0, run);
    RecoverableOpens(x, k, l, s.hist, s.acked);
  }

  /** A settled store can always be reopened. */
  lemma SettledStoreOpens(s0: State, run: seq<Action>)
    requires Initial(s0) && Legal(s0, run)
    requires Exec(s0, run).proc.Down? && Exec(s0, run).files.Settled()
    ensures Enabled(Exec(s0, run), Open)
  {
    var s := Exec(s0, run);
    LiveImages(s.files);
    CrashAnywhereRecovers(s0, run, s.files.dir.durable, s.files.commit.durable, s.files.wal.durable);
  }

  /** `after` still has every batch acknowledged in `before`, unchanged. */
  ghost predicate KeepsAcked(before: State, after: State) {
    && before.acked <= after.acked <= |after.hist|
    && before.acked <= |before.hist|
    && after.hist[..before.acked] == before.hist[..before.acked]
  }

  lemma AckedWithinHistory(s: State)
    requires Inv(s)
    ensures s.acked <= |s.hist|
  {
    LiveImages(s.files);
    assert Recoverable(s.files.dir.Live(), s.files.commit.Live(), s.files.wal.Live(), s.hist, s.acked);
  }

  lemma StepKeepsAcked(s: State, a: Action)
    requires Inv(s) && Enabled(s, a)
    ensures KeepsAcked(s, Do(s, a))
  {
    KeepsInv(s, a);
    AckedWithinHistory(s);
    AckedWithinHistory(Do(s, a));
  }

  /**
   What a caller has once seen as committed is never lost or altered: not by
   later failures, not by any number of power cuts and recoveries.
   */
  lemma {:induction false} AckedBatchesSurvive(s: State, run: seq<Action>)
    requires Inv(s) && Legal(s, run)
    ensures KeepsAcked(s, Exec(s, run))
    decreases |run|
  {
    AckedWithinHistory(s);
    if run != [] {
      var t := Do(s, run[0]);
      StepKeepsAcked(s, run[0]);
      KeepsInv(s, run[0]);
      AckedBatchesSurvive(t, run[1..]);
      var u := Exec(s, run);
      assert u.hist[..s.acked] == u.hist[..t.acked][..s.acked];
      assert t.hist[..s.acked] == t.hist[..t.acked][..s.acked];
    }
  }

  /** committed_seq() of an open store is the acknowledged high-water the theorems speak of. */
  lemma CommittedSeqIsAcked(s0: State, run: seq<Action>)
    requires Initial(s0) && Legal(s0, run) && Exec(s0, run).proc.Up?
    ensures var s := Exec(s0, run);
      && s.proc.w.durableSeq == s.acked <= |s.hist|
      && s.proc.w.seqNo <= |s.hist| <= s.proc.w.seqNo + 1
      && s.proc.w.view == s.hist[..s.proc.w.seqNo]
  {
    InitialInv(s0);
    RunsKeepInv(s0, run);
    AckedWithinHistory(Exec(s0, run));
  }

  // ---------------------------------------------------------------------
  // (epoch, seq) identifies a state for ever
  // ---------------------------------------------------------------------

  lemma {:induction false} PublishedOnlyGrows(s: State, run: seq<Action>)
    requires Legal(s, run)
    ensures s.published <= Exec(s, run).published
    decreases |run|
  {
    if run != [] {
      PublishedOnlyGrows(Do(s, run[0]), run[1..]);
    }
  }

  /**
   Although sequence numbers are issued again after an uncommitted tail is cut
   off, no pair (epoch, seq) ever names two different contents: neither at one
   time nor at two different times of a run.
   */
  lemma EpochAndSeqIdentify(s0: State, run: seq<Action>, n: nat, p: Published, q: Published)
    requires Initial(s0) && Legal(s0, run) && n <= |run|
    requires Legal(s0, run[..n])
    requires p in Exec(s0, run[..n]).published && q in Exec(s0, run).published
    requires p.epoch == q.epoch && p.seqNo == q.seqNo
    ensures p.hist == q.hist
  {
    InitialInv(s0);
    RunsKeepInv(s0, run);
    RunsSplit(s0, run, n);
    PublishedOnlyGrows(Exec(s0, run[..n]), run[n..]);
    assert p in Exec(s0, run).published;
  }

  // ---------------------------------------------------------------------
  // Snapshots
  // ---------------------------------------------------------------------

  /**
   In every reachable state each MANIFEST that may survive names a snapshot that
   survives with it, complete, holding exactly batches 1..snapshotSeq.
   */
  lemma SurvivingRootHasItsSnapshot(s0: State, run: seq<Action>, x: Dir)
    requires Initial(s0) && Legal(s0, run) && DirImage(Exec(s0, run).files.dir, x)
    ensures RootOk(x, Exec(s0, run).hist)
  {
    InitialInv(s0);
    RunsKeepInv(s0, run);
    var s := Exec(s0, run);
    LiveImages(s.files);
    assert Recoverable(x, s.files.commit.Live(), s.files.wal.Live(), s.hist, s.acked);
  }

  // ---------------------------------------------------------------------
  // Recovery is idempotent
  // ---------------------------------------------------------------------

  /** A power cut anywhere inside recovery leaves an image that recovers the very same batches. */
  lemma CrashInsideRecovery(s0: State, run: seq<Action>, x: Dir, k: Slots, l: Log)
    requires Initial(s0) && Legal(s0, run) && Exec(s0, run).proc.Opening?
    requires var f := Exec(s0, run).files; DirImage(f.dir, x) && SlotImage(f.commit, k) && LogImage(f.wal, l)
    ensures Recover(x, k, l).Ok?
    ensures var first, second := Exec(s0, run).proc.r, Recover(x, k, l).value;
      second.marker == first.marker && second.View() == first.View()
  {
    InitialInv(s0);
    RunsKeepInv(s0, run);
    var s := Exec(s0, run);
    assert Recoverable(x, k, l, s.hist, s.acked);
    RecoverableOpens(x, k, l, s.hist, s.acked);
  }

  /** Once open, an undisturbed store reopens to the same batches and reports no uncommitted and no torn frame. */
  lemma ReopenAfterRecovery(s: State, x: Dir, k: Slots, l: Log)
    requires Inv(s) && Enabled(s, OpenPublish)
    requires var f := Do(s, OpenPublish).files; DirImage(f.dir, x) && SlotImage(f.commit, k) && LogImage(f.wal, l)
    ensures Recover(x, k, l).Ok?
    ensures var first, second := s.proc.r, Recover(x, k, l).value;
      && second.View() == first.View() && second.marker == first.marker
      && second.uncommitted == 0 && second.tornFrames == 0 && !second.truncates
  {
    var t := Do(s, OpenPublish);
    assert Recoverable(x, k, l, s.hist, s.acked);
    RecoverableOpens(x, k, l, s.hist, s.acked);
    assert l == s.files.wal.durable;
    var r := Recover(x, k, l).value;
    SplitUnique(l.recs, r.kept, |l.recs|, r.marker);
  }

  /** A store closed cleanly reopens with its whole timeline, in the same epoch, dropping nothing. */
  lemma CleanCloseReopens(s0: State, run: seq<Action>)
    requires Initial(s0) && Legal(s0, run)
    requires var s := Exec(s0, run);
      && s.proc.Down? && s.files.Settled()
      && s.files.dir.durable.manifest.Some? && s.files.dir.durable.manifest.value.clean
    ensures var s := Exec(s0, run);
      var r := Recover(s.files.dir.durable, s.files.commit.durable, s.files.wal.durable);
      && r.Ok?
      && r.value.View() == s.hist
      && !r.value.truncates
      && InTimeline(s.published, r.value.m.epoch, s.hist)
  {
    InitialInv(s0);
    RunsKeepInv(s0, run);
    var s := Exec(s0, run);
    LiveImages(s.files);
    assert Recoverable(s.files.dir.durable, s.files.commit.durable, s.files.wal.durable, s.hist, s.acked);
    RecoverableOpens(s.files.dir.durable, s.files.commit.durable, s.files.wal.durable, s.hist, s.acked);
    var r := Recover(s.files.dir.durable, s.files.commit.durable, s.files.wal.durable).value;
    SplitUnique(s.files.wal.durable.recs, r.kept, |s.files.wal.durable.recs|, r.marker);
  }

  // ---------------------------------------------------------------------
  // The COMMIT sidecar
  // ---------------------------------------------------------------------

  /** The slot writer of an open store, or of one that recovery is opening. */
  function Writing(p: Proc): Option<Handle> {
    match p
    case Up(w) => Some(w.commit)
    case Opening(_, _, h, _) => Some(h)
    case _ => None
  }

  /**
   Whatever happens to the slot being written, in normal operation or while
   recovery stamps it, a slot decodes; the record chosen is the last one
   acknowledged or the one in flight, and in every reachable state it is never
   behind an acknowledged committed_seq.
   */
  lemma MarkerNeverRegresses(s0: State, run: seq<Action>, k: Slots)
    requires Initial(s0) && Legal(s0, run)
    requires SlotImage(Exec(s0, run).files.commit, k)
    ensures var s := Exec(s0, run);
      && SlotsOk(k)
      && s.acked <= k.Chosen().committedSeq
    ensures var s := Exec(s0, run);
      match Writing(s.proc)
      case None => true
      case Some(h) =>
        && h.nextSlot <= 1
        && (Some(k.Chosen()) == s.files.commit.Live().Get(1 - h.nextSlot) || Some(k.Chosen()) == h.inflight)
  {
    InitialInv(s0);
    RunsKeepInv(s0, run);
    var s := Exec(s0, run);
    LiveImages(s.files);
    assert Recoverable(s.files.dir.Live(), k, s.files.wal.Live(), s.hist, s.acked);
    if Writing(s.proc).Some? {
      HandleChooses(s.files.commit, Writing(s.proc).value, k);
    }
  }
}
