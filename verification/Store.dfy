/**
 The operations of src/persist/mod.rs as imperative code over the abstract
 disk. Every durability action may fail, and a failed sync may have persisted
 its data all the same; `if *` stands for what the file system decides. Each
 operation is shown to be a run of the protocol, so that whatever holds of all
 runs, with the power failing between any two actions, holds of this code.
 */
module Store {
  import opened Types
  import opened Arith
  import opened Disk
  import opened Recovery
  import opened Protocol
  import opened Safety
  import opened Runs

  datatype Policy = OnFlush | EveryBatch | EveryN(n: nat)

  datatype BaseMode = Owned | Mmap

  /** What opening a store threw away: intact frames beyond the marker, and a torn one. */
  datatype RecoveryReport = RecoveryReport(uncommittedTailFrames: nat, tornTailFrames: nat)

  datatype StoreError =
    | Poisoned
    | Conflict(expected: nat, actual: nat)
    | Delta
    | Unencodable
    | Io
    | Corrupt(why: Error)

  /** `states` are the states a run passes through, from a freshly created store on. Code need not look inside. */
  ghost predicate IsTrace(states: seq<State>, run: seq<Action>) {
    && |states| == |run| + 1
    && forall i {:trigger Sealed(i)} :: Sealed(i) && 0 <= i <= |run| ==>
         && (i == 0 ==> Initial(states[0]))
         && (i < |run| ==> Enabled(states[i], run[i]) && states[i + 1] == Do(states[i], run[i]))
  }

  lemma TraceExtends(states: seq<State>, run: seq<Action>, a: Action)
    requires IsTrace(states, run) && Enabled(states[|run|], a)
    ensures IsTrace(states + [Do(states[|run|], a)], run + [a])
  {
    var states', run' := states + [Do(states[|run|], a)], run + [a];
    forall i | Sealed(i) && 0 <= i <= |run'|
      ensures i == 0 ==> Initial(states'[0])
      ensures i < |run'| ==> Enabled(states'[i], run'[i]) && states'[i + 1] == Do(states'[i], run'[i])
    {
      assert Sealed(0);
    }
  }

  /** A recorded trace is a legal run, and so is the part of it up to any of its states. */
  lemma {:induction false} TraceIsRun(states: seq<State>, run: seq<Action>, n: nat)
    requires IsTrace(states, run) && n <= |run|
    ensures Initial(states[0])
    ensures Legal(states[0], run[..n]) && Exec(states[0], run[..n]) == states[n]
  {
    assert Sealed(0);
    if n == 0 {
      assert run[..0] == [];
    } else {
      TraceIsRun(states, run, n - 1);
      assert Sealed(n - 1);
      var s, a := states[n - 1], run[n - 1];
      OneStep(s, a);
      RunsCompose(states[0], run[..n - 1], [a]);
      assert run[..n - 1] + [a] == run[..n];
    }
  }

  /** auto_compact_threshold: a tenth of the nodes, and never less than a thousand. */
  function AutoCompactThreshold(baseNodes: nat): (t: nat)
    ensures t >= 1000 && baseNodes < 10 * (t + 1)
    ensures t > 1000 ==> 10 * t <= baseNodes
  {
    Max(1000, baseNodes / 10)
  }

  // ---------------------------------------------------------------------
  // How far the durable seq lags behind
  // ---------------------------------------------------------------------

  /** The counters that decide when the log is synced, and say what a sync made durable. */
  datatype Pace = Pace(seqNo: nat, durableSeq: nat, sinceFsync: nat) {
    /** Every batch that is not committed was counted since the last sync. */
    predicate Counted() { durableSeq <= seqNo <= durableSeq + sinceFsync }
  }

  predicate SyncDue(policy: Policy, sinceFsync: nat) {
    match policy
    case OnFlush => false
    case EveryBatch => true
    case EveryN(n) => sinceFsync + 1 >= n
  }

  /** One batch that goes through. */
  function Applied(policy: Policy, p: Pace): Pace {
    if SyncDue(policy, p.sinceFsync) then Pace(p.seqNo + 1, p.seqNo + 1, 0)
    else Pace(p.seqNo + 1, p.durableSeq, if policy.EveryN? then p.sinceFsync + 1 else p.sinceFsync)
  }

  /** A series of batches that go through, none of which sets off a compaction. */
  function AppliedTimes(policy: Policy, p: Pace, k: nat): Pace {
    if k == 0 then p else Applied(policy, AppliedTimes(policy, p, k - 1))
  }

  /** From a sync on, every n-th batch commits all before it, and between two syncs n - 1 batches at most are uncommitted. */
  lemma {:induction false} EveryNthCommits(n: nat, p: Pace, k: nat)
    requires p.durableSeq == p.seqNo && p.sinceFsync == 0
    ensures var m := if n == 0 then 1 else n;
      var q := AppliedTimes(EveryN(n), p, k);
      && q.seqNo == p.seqNo + k
      && q.seqNo - q.durableSeq == q.sinceFsync == k % m < m
  {
    var m := if n == 0 then 1 else n;
    if k == 0 {
      OnlyRemainder(0, m, 0, 0);
    } else {
      EveryNthCommits(n, p, k - 1);
      NextRemainder(k - 1, m);
    }
  }

  lemma AppliedIs(policy: Policy, p: Pace, synced: bool)
    requires synced <==> policy.EveryBatch? || (policy.EveryN? && p.sinceFsync + 1 >= policy.n)
    ensures Applied(policy, p) == Pace(p.seqNo + 1, if synced then p.seqNo + 1 else p.durableSeq,
      if synced then 0 else if policy.EveryN? then p.sinceFsync + 1 else p.sinceFsync)
  {
  }

  /** From anywhere: at most n - 1 batches are uncommitted after a batch, unless some other policy left them so. */
  lemma AppliedKeepsCount(n: nat, p: Pace)
    requires p.Counted()
    ensures var q := Applied(EveryN(n), p);
      q.Counted() && (q.sinceFsync < n || q.sinceFsync == 0) && (q.seqNo - q.durableSeq < n || q.seqNo == q.durableSeq)
  {
  }

  /** A delta records nothing exactly when none of its batches holds an op. */
  predicate EmptyDelta(delta: seq<Batch>) { forall i :: 0 <= i < |delta| ==> delta[i] == [] }

  predicate IsRename(a: Action) { a.RenameSnapshot? || a.RenameRoot? || a.CloseRename? || a.OpenRenameRoot? }

  /** What the disk does to the code: how often it failed an action, and how often a deletion, which is only attempted. */
  class Device {
    ghost var faults: nat
    ghost var leaks: nat

    constructor ()
    {
      faults, leaks := 0, 0;
    }

    method Fails() returns (fails: bool)
      modifies this`faults
      ensures faults == old(faults) + (if fails then 1 else 0)
    {
      fails := *;
      if fails {
        faults := faults + 1;
      }
    }

    method FailsToDelete() returns (fails: bool)
      modifies this`leaks
      ensures leaks == old(leaks) + (if fails then 1 else 0)
    {
      fails := *;
      if fails {
        leaks := leaks + 1;
      }
    }
  }

  class PersistentGraph {
    const device: Device
    var files: Files

    // the writer
    var seqNo: nat
    var durableSeq: nat
    var epoch: nat
    var base: seq<Batch>
    var delta: seq<Batch>
    var snapshotSeq: nat
    var snapshotFile: SnapName
    var compactionId: nat
    var deltaOps: nat
    var autoCompactOverride: Option<nat>
    var mode: BaseMode
    var recovery: RecoveryReport

    // its log and its COMMIT sidecar
    var policy: Policy
    var sinceFsync: nat
    var poisoned: bool
    var nextSlot: nat
    var nextGen: nat

    // the protocol run this code has performed so far
    ghost var states: seq<State>
    ghost var log: seq<Action>
    ghost var st: State
    ghost var inflight: Option<CommitRecord>
    ghost var view: seq<Batch>

    /** What create_with_vfs leaves once its MANIFEST is in place; `minted` is the newly drawn random epoch. */
    constructor Create(minted: nat)
      ensures Ready() && !poisoned && files.Settled()
      ensures seqNo == durableSeq == 0 && epoch == minted && View() == []
      ensures log == [] && st.published == {Published(minted, 0, [])} && fresh(device)
      ensures policy == OnFlush && sinceFsync == deltaOps == 0 && autoCompactOverride.None?
      ensures recovery == RecoveryReport(0, 0)
    {
      device := new Device();
      var file := SnapName(0, 0);
      var dir := Dir(Some(Manifest(file, 0, minted, 0, false, 0)), map[file := Some([])]);
      var slots := Slots(Some(CommitRecord(minted, 0, 0)), None);
      var created := Files(Volatile(Log([], false), []), Volatile(slots, []), Volatile(dir, []), None);
      ghost var first := State(
        created, Up(Writer(0, 0, minted, [], 0, file, 0, Handle(1, 1, None), false)),
        [], 0, {Published(minted, 0, [])}, {minted});
      files := created;
      seqNo, durableSeq, epoch := 0, 0, minted;
      base, delta := [], [];
      snapshotSeq, snapshotFile, compactionId := 0, file, 0;
      deltaOps, autoCompactOverride, mode := 0, None, Mmap;
      policy, sinceFsync, poisoned, recovery := OnFlush, 0, false, RecoveryReport(0, 0);
      nextSlot, nextGen := 1, 1;
      states, log, st, inflight, view := [first], [], first, None, [];
      new;
      assert Initial(first);
    }

    /** The recorded actions form a run from a freshly created store to `st`. */
    ghost predicate Traced()
      reads this`states, this`log, this`st
    {
      IsTrace(states, log) && states[|log|] == st
    }

    ghost predicate OnRun()
      reads this
    {
      Traced() && files == st.files
    }

    /** The base graph overlaid with the delta, as the batches it results from. */
    function View(): seq<Batch>
      reads this
    {
      base + delta
    }

    function ThePace(): Pace
      reads this`seqNo, this`durableSeq, this`sinceFsync
    {
      Pace(seqNo, durableSeq, sinceFsync)
    }

    /** With `n` more ops the delta outgrows the threshold for a base of `baseNodes` nodes. */
    predicate Crowded(n: nat, baseNodes: nat)
      reads this`deltaOps, this`autoCompactOverride
    {
      deltaOps + n > if autoCompactOverride.Some? then autoCompactOverride.value else AutoCompactThreshold(baseNodes)
    }

    ghost function TheWriter(): Writer
      reads this
    {
      Writer(seqNo, durableSeq, epoch, view, snapshotSeq, snapshotFile, compactionId,
        Handle(nextSlot, nextGen, inflight), poisoned)
    }

    /** An open store: on a run of the protocol, with the writer's fields those of the run. */
    ghost predicate Valid()
      reads this
    {
      OnRun() && st.proc == Up(TheWriter()) && view == base + delta
    }

    /** Between operations a store that is not poisoned has nothing in flight. */
    ghost predicate Ready()
      reads this
    {
      Valid() && (!poisoned ==> Idle(st))
    }

    /** Take one step of the protocol. */
    ghost method Take(a: Action)
      requires Traced() && Enabled(st, a)
      modifies this`st, this`states, this`log
      ensures log == old(log) + [a]
      ensures st == Do(old(st), a)
      ensures Traced()
    {
      TraceExtends(states, log, a);
      states, log, st := states + [Do(st, a)], log + [a], Do(st, a);
    }

    // Each kind of step with its guard and its effect spelled out.

    ghost method TakePoison()
      requires Traced() && st.proc.Up?
      modifies this`st, this`states, this`log
      ensures Traced() && log == old(log) + [Poison]
      ensures st == old(st).(proc := Up(old(st).proc.w.(poisoned := true)))
    {
      Take(Poison);
    }

    ghost method TakeWalSync()
      requires Traced()
      modifies this`st, this`states, this`log
      ensures Traced() && log == old(log) + [Writeback(WalLog)]
      ensures st == old(st).(files := old(st).files.(wal := old(st).files.wal.Sync()))
    {
      Take(Writeback(WalLog));
    }

    ghost method TakeCommitSync()
      requires Traced()
      modifies this`st, this`states, this`log
      ensures Traced() && log == old(log) + [Writeback(CommitSidecar)]
      ensures st == old(st).(files := old(st).files.(commit := old(st).files.commit.Sync()))
    {
      Take(Writeback(CommitSidecar));
    }

    ghost method TakeDirSync()
      requires Traced()
      modifies this`st, this`states, this`log
      ensures Traced() && log == old(log) + [Writeback(Directory)]
      ensures st == old(st).(files := old(st).files.(dir := old(st).files.dir.Sync()))
    {
      Take(Writeback(Directory));
    }

    ghost method TakeAppend(b: Batch)
      requires Traced() && Idle(st)
      modifies this`st, this`states, this`log
      ensures Traced() && log == old(log) + [Append(b)]
      ensures var live := old(st).files.wal.Live();
        st == old(st).(
          files := old(st).files.(wal := old(st).files.wal.Write(Log(live.recs + [WalRecord(|old(st).hist| + 1, b)], live.torn))),
          hist := old(st).hist + [b])
    {
      Take(Append(b));
    }

    ghost method TakeTruncate()
      requires Traced() && Idle(st)
      requires st.proc.w.snapshotSeq == st.proc.w.seqNo && RootCovers(st, st.proc.w.seqNo)
      modifies this`st, this`states, this`log
      ensures Traced() && log == old(log) + [Truncate]
      ensures st == old(st).(files := old(st).files.(wal := old(st).files.wal.Write(Log([], false))))
    {
      Take(Truncate);
    }

    ghost method TakeMarkerWrite(n: nat)
      requires Traced() && CanMark(st, n)
      modifies this`st, this`states, this`log
      ensures Traced() && log == old(log) + [MarkerWrite(n)]
      ensures var w := old(st).proc.w;
        st == old(st).(
          files := old(st).files.(commit :=
            old(st).files.commit.Write(old(st).files.commit.Live().Set(w.commit.nextSlot, Some(Record(w, n))))),
          proc := Up(w.(commit := w.commit.(inflight := Some(Record(w, n))))))
    {
      Take(MarkerWrite(n));
    }

    ghost method TakeMarkerAck()
      requires Traced() && st.proc.Up? && !st.proc.w.poisoned
      requires st.proc.w.commit.inflight.Some? && st.files.commit.Settled()
      modifies this`st, this`states, this`log
      ensures Traced() && log == old(log) + [MarkerAck]
      ensures var w := old(st).proc.w;
        var n := w.commit.inflight.value.committedSeq;
        st == old(st).(proc := Up(w.(durableSeq := n, commit := Flip(w.commit))), acked := n)
    {
      Take(MarkerAck);
    }

    ghost method TakePublish()
      requires Traced() && st.proc.Up? && !st.proc.w.poisoned && st.proc.w.commit.inflight.None?
      requires |st.hist| == st.proc.w.seqNo + 1
      modifies this`st, this`states, this`log
      ensures Traced() && log == old(log) + [Publish]
      ensures var w, h := old(st).proc.w, old(st).hist;
        st == old(st).(proc := Up(w.(seqNo := |h|, view := h)), published := old(st).published + {Published(w.epoch, |h|, h)})
    {
      Take(Publish);
    }

    ghost method TakeTmp(p: Payload)
      requires Traced() && (st.proc.Up? || st.proc.Opening?)
      modifies this`st, this`states, this`log
      ensures Traced() && log == old(log) + [TmpWrite(p)]
      ensures st == old(st).(files := old(st).files.(tmp := Some(Tmp(p, false))))
    {
      Take(TmpWrite(p));
    }

    ghost method TakeTmpSync(p: Payload)
      requires Traced() && st.files.tmp == Some(Tmp(p, false))
      modifies this`st, this`states, this`log
      ensures Traced() && log == old(log) + [TmpSync]
      ensures st == old(st).(files := old(st).files.(tmp := Some(Tmp(p, true))))
    {
      Take(TmpSync);
    }

    ghost method TakeRename(p: Payload, a: Action)
      requires Traced() && IsRename(a) && Enabled(st, a) && st.files.tmp == Some(Tmp(p, true))
      modifies this`st, this`states, this`log
      ensures Traced() && log == old(log) + [a]
      ensures st == old(st).(
        files := old(st).files.(dir := old(st).files.dir.Write(Renamed(old(st).files.dir.Live(), Tmp(p, true))), tmp := None),
        proc := if a.CloseRename? then Closing else old(st).proc)
    {
      Take(a);
    }

    ghost method TakeAdopt()
      requires Traced() && Idle(st) && st.files.dir.Settled()
      requires st.files.dir.durable.manifest == Some(CompactedRoot(st.proc.w))
      modifies this`st, this`states, this`log
      ensures Traced() && log == old(log) + [Adopt]
      ensures var w := old(st).proc.w;
        st == old(st).(proc := Up(w.(snapshotSeq := w.seqNo, file := CompactedName(w), cid := w.cid + 1)))
    {
      Take(Adopt);
    }

    ghost method TakeDelete(name: SnapName)
      requires Traced() && st.proc.Up? && name != st.proc.w.file && st.files.dir.Settled()
      requires st.files.dir.durable.manifest.Some? && st.files.dir.durable.manifest.value.file == st.proc.w.file
      modifies this`st, this`states, this`log
      ensures Traced() && log == old(log) + [Delete(name)]
      ensures st == old(st).(files := old(st).files.(dir := old(st).files.dir.Write(Without(old(st).files.dir.Live(), name))))
    {
      Take(Delete(name));
    }

    ghost method TakeCloseEnd()
      requires Traced() && st.proc.Closing? && st.files.dir.Settled()
      modifies this`st, this`states, this`log
      ensures Traced() && log == old(log) + [CloseEnd]
      ensures st == old(st).(proc := Down)
    {
      Take(CloseEnd);
    }

    // ------------------------------------------------------------------
    // WalWriter
    // ------------------------------------------------------------------

    /** fsync_now: on failure the data may have reached the disk, or may not. */
    method FsyncNow() returns (ok: bool)
      requires Valid()
      modifies this`files, this`sinceFsync, this`poisoned, this`st, this`states, this`log, device`faults
      ensures Valid() && old(log) <= log
      ensures st.hist == old(st).hist && st.published == old(st).published && st.acked == old(st).acked
      ensures files.dir == old(files).dir && files.commit == old(files).commit
      ensures ok ==> poisoned == old(poisoned) && files.wal == old(files).wal.Sync()
      ensures !ok ==> poisoned
      ensures sinceFsync == if ok then 0 else old(sinceFsync)
      ensures device.faults == old(device.faults) + (if ok then 0 else 1)
    {
      var failed := device.Fails();
      if !failed {
        SyncLog();
        sinceFsync := 0;
        return true;
      }
      if * {
        SyncLog();
      }
      PoisonWriter();
      return false;
    }

    /** The log reaches the disk. */
    method SyncLog()
      requires Valid()
      modifies this`files, this`st, this`states, this`log
      ensures Valid() && old(log) <= log
      ensures st.hist == old(st).hist && st.published == old(st).published && st.acked == old(st).acked
      ensures files == old(files).(wal := old(files).wal.Sync())
    {
      files := files.(wal := files.wal.Sync());
      TakeWalSync();
    }

    /** write_all: a failed write may leave the frame whole, in part or not at all. */
    method WriteFrame(rec: WalRecord) returns (ok: bool)
      requires Valid() && Idle(st) && rec.seqNo == seqNo + 1
      modifies this`files, this`poisoned, this`st, this`states, this`log, device`faults
      ensures Valid() && old(log) <= log
      ensures st.hist == old(st).hist + [rec.ops]
      ensures st.published == old(st).published && st.acked == old(st).acked
      ensures poisoned == !ok
      ensures device.faults == old(device.faults) + (if ok then 0 else 1)
    {
      var live := files.wal.Live();
      files := files.(wal := files.wal.Write(Log(live.recs + [rec], live.torn)));
      TakeAppend(rec.ops);
      var failed := device.Fails();
      ok := !failed;
      if !ok {
        PoisonWriter();
      }
    }

    /** Whether the policy asks for a sync after this append. */
    method SyncIsDue() returns (due: bool)
      requires Valid()
      modifies this`sinceFsync
      ensures Valid()
      ensures due <==> policy.EveryBatch? || (policy.EveryN? && old(sinceFsync) + 1 >= policy.n)
      ensures sinceFsync == if policy.EveryN? then old(sinceFsync) + 1 else old(sinceFsync)
    {
      due := policy.EveryBatch?;
      if policy.EveryN? {
        sinceFsync := sinceFsync + 1;
        due := sinceFsync >= Max(policy.n, 1);
      }
    }

    /**
     WalWriter::append: returns whether this call synced the log. Under EveryN it does so
     with every n-th append since the last sync, whatever made that sync.
     */
    method WalAppend(rec: WalRecord) returns (r: Result<bool, StoreError>)
      requires Valid() && Idle(st) && rec.seqNo == seqNo + 1
      modifies this`files, this`sinceFsync, this`poisoned, this`st, this`states, this`log, device`faults
      ensures Valid() && old(log) <= log
      ensures st.hist == old(st).hist + [rec.ops]
      ensures st.published == old(st).published && st.acked == old(st).acked
      ensures r.Ok? ==> !poisoned && (r.value ==> files.wal.Settled())
      ensures inflight.None? && |st.hist| == seqNo + 1
      ensures r.Ok? ==> (r.value <==> policy.EveryBatch? || (policy.EveryN? && old(sinceFsync) + 1 >= policy.n))
      ensures r.Ok? ==> sinceFsync == if r.value then 0 else if policy.EveryN? then old(sinceFsync) + 1 else old(sinceFsync)
      ensures r.Err? ==> poisoned && r.error == Io
      ensures device.faults == old(device.faults) + (if r.Ok? then 0 else 1)
    {
      var ok := WriteFrame(rec);
      if !ok {
        return Err(Io);
      }
      r := SyncIfDue();
    }

    method SyncIfDue() returns (r: Result<bool, StoreError>)
      requires Valid() && !poisoned
      modifies this`files, this`sinceFsync, this`poisoned, this`st, this`states, this`log, device`faults
      ensures Valid() && old(log) <= log
      ensures st.hist == old(st).hist && st.published == old(st).published && st.acked == old(st).acked
      ensures r.Ok? ==> !poisoned && (r.value ==> files.wal.Settled())
      ensures r.Ok? ==> (r.value <==> policy.EveryBatch? || (policy.EveryN? && old(sinceFsync) + 1 >= policy.n))
      ensures r.Ok? ==> sinceFsync == if r.value then 0 else if policy.EveryN? then old(sinceFsync) + 1 else old(sinceFsync)
      ensures r.Err? ==> poisoned && r.error == Io
      ensures device.faults == old(device.faults) + (if r.Ok? then 0 else 1)
    {
      var due := SyncIsDue();
      var ok := true;
      if due {
        ok := FsyncNow();
      }
      return if ok then Ok(due) else Err(Io);
    }

    /** set_len(0) */
    method EmptyLog()
      requires Valid() && Idle(st) && snapshotSeq == seqNo && RootCovers(st, seqNo)
      modifies this`files, this`sinceFsync, this`st, this`states, this`log
      ensures Valid() && old(log) <= log
      ensures st.hist == old(st).hist && st.published == old(st).published && st.acked == old(st).acked
      ensures files.dir == old(files).dir && files.wal.Live() == Log([], false) && sinceFsync == 0
    {
      files := files.(wal := files.wal.Write(Log([], false)));
      TakeTruncate();
      sinceFsync := 0;
    }

    /** WalWriter::truncate, the log rotation of a compaction. */
    method WalTruncate() returns (ok: bool)
      requires Valid() && Idle(st) && snapshotSeq == seqNo && RootCovers(st, seqNo)
      modifies this`files, this`sinceFsync, this`poisoned, this`st, this`states, this`log, device`faults
      ensures Valid() && old(log) <= log
      ensures st.hist == old(st).hist && st.published == old(st).published && st.acked == old(st).acked
      ensures files.dir == old(files).dir
      ensures ok ==> !poisoned && files.wal == Volatile(Log([], false), []) && sinceFsync == 0
      ensures !ok ==> poisoned && sinceFsync <= old(sinceFsync)
      ensures device.faults == old(device.faults) + (if ok then 0 else 1)
    {
      var failed := device.Fails();
      ok := !failed;
      if !ok {
        PoisonWriter();
        return false;
      }
      EmptyLog();
      ok := FsyncNow();
    }

    // ------------------------------------------------------------------
    // The COMMIT marker
    // ------------------------------------------------------------------

    /** Write the slot that does not hold the current record. */
    method WriteSlot(rec: CommitRecord)
      requires Valid() && CanMark(st, rec.committedSeq) && rec == Record(TheWriter(), rec.committedSeq)
      modifies this`files, this`inflight, this`st, this`states, this`log
      ensures Valid() && log == old(log) + [MarkerWrite(rec.committedSeq)] && inflight == Some(rec)
      ensures st.hist == old(st).hist && st.published == old(st).published
      ensures files.wal == old(files).wal && files.dir == old(files).dir
    {
      files := files.(commit := files.commit.Write(files.commit.Live().Set(nextSlot, Some(rec))));
      TakeMarkerWrite(rec.committedSeq);
      inflight := Some(rec);
    }

    /** The slot is known to be synced: durable_seq moves, and the slots change roles. */
    method AckSlot(n: nat)
      requires Valid() && !poisoned && inflight.Some? && inflight.value.committedSeq == n && files.commit.Settled()
      modifies this`durableSeq, this`nextSlot, this`nextGen, this`inflight, this`st, this`states, this`log
      ensures Valid() && old(log) <= log
      ensures st.hist == old(st).hist && st.published == old(st).published
      ensures durableSeq == n && inflight.None?
    {
      TakeMarkerAck();
      durableSeq := n;
      nextSlot, nextGen := if nextSlot == 0 then 1 else 0, nextGen + 1;
      inflight := None;
    }

    /** sync_all on the sidecar: a failure may have persisted the slot all the same. */
    method SyncSlot() returns (ok: bool)
      requires Valid()
      modifies this`files, this`st, this`states, this`log, device`faults
      ensures Valid() && old(log) <= log
      ensures st.hist == old(st).hist && st.published == old(st).published
      ensures files.wal == old(files).wal && files.dir == old(files).dir
      ensures ok ==> files.commit.Settled()
      ensures device.faults == old(device.faults) + (if ok then 0 else 1)
    {
      var failed := device.Fails();
      ok := !failed;
      var persisted := *;
      if ok || persisted {
        files := files.(commit := files.commit.Sync());
        TakeCommitSync();
      }
    }

    /** The writer's one signal that durability broke. */
    method PoisonWriter()
      requires Valid()
      modifies this`poisoned, this`st, this`states, this`log
      ensures Valid() && poisoned && old(log) <= log
      ensures st.hist == old(st).hist && st.published == old(st).published && st.acked == old(st).acked
    {
      poisoned := true;
      TakePoison();
    }

    method CommitSlot(n: nat) returns (ok: bool)
      requires Valid() && !poisoned && inflight.Some? && inflight.value.committedSeq == n
      modifies this`files, this`durableSeq, this`nextSlot, this`nextGen, this`poisoned, this`inflight, this`st, this`states, this`log,
        device`faults
      ensures Valid() && old(log) <= log
      ensures st.hist == old(st).hist && st.published == old(st).published
      ensures files.wal == old(files).wal && files.dir == old(files).dir
      ensures ok ==> !poisoned && durableSeq == n && inflight.None? && files.commit.Settled()
      ensures !ok ==> poisoned && durableSeq == old(durableSeq)
      ensures device.faults == old(device.faults) + (if ok then 0 else 1)
    {
      ok := SyncSlot();
      if !ok {
        PoisonWriter();
        return false;
      }
      AckSlot(n);
    }

    /** Writer::advance_commit: any failure poisons the writer. */
    method AdvanceCommit(n: nat) returns (ok: bool)
      requires Valid() && CanMark(st, n)
      modifies this`files, this`durableSeq, this`nextSlot, this`nextGen, this`poisoned, this`inflight, this`st, this`states, this`log,
        device`faults
      ensures Valid() && old(log) <= log
      ensures st.hist == old(st).hist && st.published == old(st).published
      ensures files.wal == old(files).wal && files.dir == old(files).dir
      ensures ok ==> !poisoned && durableSeq == n && inflight.None? && files.commit.Settled()
      ensures !ok ==> poisoned && durableSeq == old(durableSeq)
      ensures device.faults == old(device.faults) + (if ok then 0 else 1)
    {
      var failed := device.Fails();
      if failed {
        PoisonWriter();
        return false;
      }
      WriteSlot(CommitRecord(epoch, n, nextGen));
      ok := CommitSlot(n);
    }

    // ------------------------------------------------------------------
    // write_file_atomic
    // ------------------------------------------------------------------

    /** `a` is a rename of the temporary file, and allowed once `p` has been written and synced there. */
    ghost predicate RenamesBy(p: Payload, a: Action)
      reads this
    {
      && IsRename(a)
      && Enabled(st.(files := st.files.(tmp := Some(Tmp(p, true)))), a)
    }

    /** tmp, fsync, rename, fsync(dir), any of which may fail. */
    method WriteFileAtomic(p: Payload, ghost rename: Action) returns (ok: bool)
      requires OnRun() && (st.proc.Up? || st.proc.Opening?) && RenamesBy(p, rename)
      modifies this`files, this`st, this`states, this`log, device`faults
      ensures OnRun() && old(log) <= log
      ensures files.wal == old(files).wal && files.commit == old(files).commit
      ensures st.hist == old(st).hist && st.published == old(st).published
      ensures st.acked == old(st).acked && st.epochs == old(st).epochs
      ensures st.proc == old(st).proc || (rename.CloseRename? && st.proc == Closing)
      ensures ok ==> files.dir == Volatile(Renamed(old(files).dir.Live(), Tmp(p, true)), [])
      ensures ok && rename.CloseRename? ==> st.proc == Closing
      ensures device.faults == old(device.faults) + (if ok then 0 else 1)
    {
      var failed := device.Fails();
      if failed { return false; }
      files := files.(tmp := Some(Tmp(p, false)));
      TakeTmp(p);
      failed := device.Fails();
      if failed { return false; }
      files := files.(tmp := Some(Tmp(p, true)));
      TakeTmpSync(p);
      failed := device.Fails();
      if failed { return false; }
      assert st == old(st).(files := old(st).files.(tmp := Some(Tmp(p, true))));
      files := files.(dir := files.dir.Write(Renamed(files.dir.Live(), Tmp(p, true))), tmp := None);
      TakeRename(p, rename);
      failed := device.Fails();
      var persisted := *;
      if !failed || persisted {
        files := files.(dir := files.dir.Sync());
        TakeDirSync();
      }
      return !failed;
    }

    // ------------------------------------------------------------------
    // apply, compact, flush, close
    // ------------------------------------------------------------------

    /** A caller that names a seq wants the store to be there. */
    predicate Expects(expectedSeq: Option<nat>)
      reads this`seqNo
    {
      expectedSeq.None? || expectedSeq.value == seqNo
    }

    /**
     apply. `accepted` is the verdict of the delta's own validation of the batch,
     `fits` whether its record can be encoded. On success the batch is visible under
     the next seq, and with EveryBatch it is committed; on any error the visible state
     is as before. It fails for I/O only if the disk failed it. `folded` says that the
     compaction this may set off went through.
     */
    method Apply(ops: Batch, expectedSeq: Option<nat>, accepted: bool, fits: bool, baseNodes: nat)
      returns (r: Result<nat, StoreError>, folded: bool)
      requires Ready()
      modifies this, device`faults, device`leaks
      ensures Ready() && old(log) <= log
      ensures r.Ok? ==>
        && r.value == seqNo == old(seqNo) + 1
        && View() == old(View()) + [ops]
        && st.published == old(st).published + {Published(epoch, seqNo, View())}
      ensures r.Ok? ==> Paced(old(ThePace()), old(Crowded(|ops|, baseNodes)), folded)
      ensures r.Err? ==> seqNo == old(seqNo) && View() == old(View()) && st.published == old(st).published
      ensures r.Err? && !r.error.Io? ==> log == old(log) && !folded && device.faults == old(device.faults)
      ensures r.Err? && r.error.Io? ==> poisoned && device.faults == old(device.faults) + 1
      ensures r == Err(Poisoned) <==> old(poisoned)
      ensures r.Err? && r.error.Conflict? <==> !old(poisoned) && !old(Expects(expectedSeq))
      ensures r.Err? && r.error.Conflict? ==> r.error == Conflict(expectedSeq.value, old(seqNo))
      ensures r == Err(Delta) <==> !old(poisoned) && old(Expects(expectedSeq)) && !accepted
      ensures r == Err(Unencodable) <==> !old(poisoned) && old(Expects(expectedSeq)) && accepted && !fits
      ensures r.Err? ==> !folded && delta == old(delta)
      ensures r.Ok? ==> delta == if folded then [] else old(delta) + [ops]
      ensures r.Ok? ==> Folds(old(Crowded(|ops|, baseNodes)), old(delta) + [ops], old(device.faults), folded)
      ensures r.Ok? ==> deltaOps == if old(Crowded(|ops|, baseNodes)) then 0 else old(deltaOps) + |ops|
      ensures epoch == old(epoch) && policy == old(policy)
    {
      folded := false;
      if poisoned {
        r := Err(Poisoned);
      } else if expectedSeq.Some? && expectedSeq.value != seqNo {
        r := Err(Conflict(expectedSeq.value, seqNo));
      } else if !accepted {
        r := Err(Delta);
      } else if !fits {
        r := Err(Unencodable);
      } else {
        r, folded := Commit(ops, baseNodes);
      }
    }

    /**
     What a batch does to the counters: committed at once exactly if the policy has a
     sync due, and otherwise not unless a compaction, which commits too, was due.
     */
    predicate Paced(was: Pace, crowded: bool, folded: bool)
      reads this`policy, this`seqNo, this`durableSeq, this`sinceFsync
    {
      var next := Applied(policy, was);
      && (!crowded ==> ThePace() == next)
      && (crowded ==> ThePace() == next || (durableSeq == seqNo == next.seqNo && sinceFsync <= next.sinceFsync))
      && (folded ==> ThePace() == Pace(next.seqNo, next.seqNo, 0))
    }

    /** A crowded delta is folded, unless it records nothing or the disk fails. */
    ghost predicate Folds(crowded: bool, recorded: seq<Batch>, faults: nat, folded: bool)
      reads device`faults
    {
      && (folded <==> crowded && !EmptyDelta(recorded) && device.faults == faults)
      && faults <= device.faults <= faults + (if crowded && !EmptyDelta(recorded) then 1 else 0)
    }

    /** Steps 4 to 9 of apply. */
    method Commit(ops: Batch, baseNodes: nat) returns (r: Result<nat, StoreError>, folded: bool)
      requires Ready() && !poisoned
      modifies this, device`faults, device`leaks
      ensures Ready() && old(log) <= log
      ensures r.Ok? ==>
        && r.value == seqNo == old(seqNo) + 1
        && View() == old(View()) + [ops]
        && st.published == old(st).published + {Published(epoch, seqNo, View())}
      ensures r.Ok? ==> Paced(old(ThePace()), old(Crowded(|ops|, baseNodes)), folded)
      ensures r.Err? ==> r.error == Io && poisoned && !folded && device.faults == old(device.faults) + 1
      ensures r.Err? ==> seqNo == old(seqNo) && View() == old(View()) && delta == old(delta) && st.published == old(st).published
      ensures r.Ok? ==> delta == if folded then [] else old(delta) + [ops]
      ensures r.Ok? ==> Folds(old(Crowded(|ops|, baseNodes)), old(delta) + [ops], old(device.faults), folded)
      ensures r.Ok? ==> deltaOps == if old(Crowded(|ops|, baseNodes)) then 0 else old(deltaOps) + |ops|
      ensures epoch == old(epoch) && policy == old(policy)
    {
      var committed := AppendAndPublish(ops);
      if !committed {
        return Err(Io), false;
      }
      folded := AutoCompact(baseNodes);
      r := Ok(seqNo);
    }

    /** Steps 4 to 8 of apply: the log, the marker if the log was synced, then the published state. */
    method AppendAndPublish(ops: Batch) returns (ok: bool)
      requires Valid() && Idle(st)
      modifies this`files, this`seqNo, this`durableSeq, this`delta, this`deltaOps, this`sinceFsync, this`poisoned,
        this`nextSlot, this`nextGen, this`inflight, this`view, this`st, this`states, this`log, device`faults
      ensures Valid() && (!poisoned ==> Idle(st)) && old(log) <= log
      ensures ok ==>
        && !poisoned && seqNo == old(seqNo) + 1 && View() == old(View()) + [ops]
        && st.published == old(st).published + {Published(epoch, seqNo, View())}
        && ThePace() == Applied(policy, old(ThePace())) && deltaOps == old(deltaOps) + |ops|
      ensures device.faults == old(device.faults) + (if ok then 0 else 1)
      ensures !ok ==> poisoned && seqNo == old(seqNo) && View() == old(View()) && st.published == old(st).published
      ensures delta == if ok then old(delta) + [ops] else old(delta)
    {
      KnowView();
      var synced;
      ok, synced := AppendAndCommit(ops);
      if !ok {
        return false;
      }
      AppliedIs(policy, Pace(seqNo, old(durableSeq), old(sinceFsync)), synced);
      PublishBatch(ops);
    }

    /** Steps 7 and 8 of apply: the batch joins the delta and becomes visible under the next seq. */
    method PublishBatch(ops: Batch)
      requires Valid() && !poisoned && inflight.None? && st.hist == view + [ops] && |view| == seqNo
      modifies this`seqNo, this`delta, this`deltaOps, this`view, this`st, this`states, this`log
      ensures Valid() && Idle(st) && old(log) <= log
      ensures seqNo == old(seqNo) + 1 && View() == old(View()) + [ops] && delta == old(delta) + [ops]
      ensures deltaOps == old(deltaOps) + |ops|
      ensures st.published == old(st).published + {Published(epoch, seqNo, View())}
    {
      TakePublish();
      seqNo := seqNo + 1;
      deltaOps := deltaOps + |ops|;
      assert base + (delta + [ops]) == (base + delta) + [ops];
      delta, view := delta + [ops], view + [ops];
    }

    /** Steps 4 to 6 of apply. */
    method AppendAndCommit(ops: Batch) returns (ok: bool, synced: bool)
      requires Valid() && Idle(st)
      modifies this`files, this`durableSeq, this`sinceFsync, this`poisoned, this`nextSlot, this`nextGen, this`inflight,
        this`st, this`states, this`log, device`faults
      ensures Valid() && old(log) <= log
      ensures st.hist == old(st).hist + [ops] && st.published == old(st).published
      ensures ok ==> !poisoned && inflight.None?
      ensures ok ==> (synced <==> policy.EveryBatch? || (policy.EveryN? && old(sinceFsync) + 1 >= policy.n))
      ensures ok ==> durableSeq == if synced then seqNo + 1 else old(durableSeq)
      ensures ok ==> sinceFsync == if synced then 0 else if policy.EveryN? then old(sinceFsync) + 1 else old(sinceFsync)
      ensures !ok ==> poisoned
      ensures device.faults == old(device.faults) + (if ok then 0 else 1)
    {
      var fsynced := WalAppend(WalRecord(seqNo + 1, ops));
      if fsynced.Err? {
        return false, false;
      }
      synced := fsynced.value;
      ghost var since := sinceFsync;
      assert durableSeq == old(durableSeq);
      ok := MarkIfSynced(synced);
      assert sinceFsync == since;
    }

    /** Step 6: the marker moves only once the frame is on stable storage. */
    method MarkIfSynced(synced: bool) returns (ok: bool)
      requires Valid() && !poisoned && inflight.None? && |st.hist| == seqNo + 1 && (synced ==> files.wal.Settled())
      modifies this`files, this`durableSeq, this`poisoned, this`nextSlot, this`nextGen, this`inflight,
        this`st, this`states, this`log, device`faults
      ensures Valid() && old(log) <= log
      ensures st.hist == old(st).hist && st.published == old(st).published
      ensures ok ==> !poisoned && inflight.None? && durableSeq == if synced then seqNo + 1 else old(durableSeq)
      ensures !ok ==> poisoned
      ensures device.faults == old(device.faults) + (if ok then 0 else 1)
    {
      ok := true;
      if synced {
        ok := AdvanceCommit(seqNo + 1);
      }
    }

    /** Step 9 of apply: a compaction that fails must not turn a committed batch into an error. */
    method AutoCompact(baseNodes: nat) returns (folded: bool)
      requires Valid() && Idle(st)
      modifies this, device`faults, device`leaks
      ensures Ready() && old(log) <= log
      ensures seqNo == old(seqNo) && epoch == old(epoch) && policy == old(policy) && View() == old(View())
      ensures st.published == old(st).published
      ensures ThePace() == old(ThePace()) || (old(Crowded(0, baseNodes)) && durableSeq == seqNo && sinceFsync <= old(sinceFsync))
      ensures folded ==> durableSeq == seqNo && sinceFsync == 0
      ensures delta == if folded then [] else old(delta)
      ensures Folds(old(Crowded(0, baseNodes)), old(delta), old(device.faults), folded)
      ensures deltaOps == if old(Crowded(0, baseNodes)) then 0 else old(deltaOps)
    {
      var threshold := if autoCompactOverride.Some? then autoCompactOverride.value else AutoCompactThreshold(baseNodes);
      folded := false;
      if deltaOps > threshold {
        var worth := !EmptyDelta(delta);
        var c := CompactLocked();
        folded := c.Ok? && worth;
        if c.Err? {
          deltaOps := 0;
        }
      }
    }

    method Compact() returns (r: Result<(), StoreError>)
      requires Ready()
      modifies this, device`faults, device`leaks
      ensures Ready() && old(log) <= log
      ensures old(poisoned) <==> r == Err(Poisoned)
      ensures device.faults == old(device.faults) + (if r == Err(Io) then 1 else 0)
      ensures r.Ok? && !EmptyDelta(old(delta)) ==>
        compactionId == old(compactionId) + 1 && snapshotFile == SnapName(seqNo, compactionId) && sinceFsync == deltaOps == 0
      ensures r.Ok? && EmptyDelta(old(delta)) ==> files == old(files) && log == old(log) && ThePace() == old(ThePace())
      ensures seqNo == old(seqNo) && epoch == old(epoch) && View() == old(View()) && st.published == old(st).published
      ensures r.Ok? && !EmptyDelta(old(delta)) ==> snapshotSeq == durableSeq == seqNo && delta == []
      ensures r.Err? || EmptyDelta(old(delta)) ==> delta == old(delta)
      ensures r.Err? ==> r.error == Io || r.error == Poisoned
    {
      if poisoned {
        return Err(Poisoned);
      }
      r := CompactLocked();
    }

    /** set_fsync_policy */
    method SetFsyncPolicy(p: Policy)
      requires Ready()
      modifies this`policy
      ensures Ready() && policy == p
    {
      policy := p;
    }

    /** set_auto_compact_threshold; None restores the computed one. */
    method SetAutoCompactThreshold(threshold: Option<nat>)
      requires Ready()
      modifies this`autoCompactOverride
      ensures Ready() && autoCompactOverride == threshold
    {
      autoCompactOverride := threshold;
    }

    /**
     compact_locked: folds what is visible into a new snapshot at the current
     seq. It changes where the batches are kept, never what is visible.
     */
    method CompactLocked() returns (r: Result<(), StoreError>)
      requires Valid() && Idle(st)
      modifies this`files, this`base, this`delta, this`deltaOps, this`snapshotSeq, this`snapshotFile, this`compactionId,
        this`durableSeq, this`nextSlot, this`nextGen, this`sinceFsync, this`poisoned, this`inflight,
        this`st, this`states, this`log, device`faults, device`leaks
      ensures Ready() && old(log) <= log
      ensures seqNo == old(seqNo) && epoch == old(epoch) && View() == old(View())
      ensures policy == old(policy) && st.published == old(st).published
      ensures ThePace() == old(ThePace()) || (durableSeq == seqNo && sinceFsync <= old(sinceFsync))
      ensures r.Err? ==> r.error == Io && !EmptyDelta(old(delta))
      ensures device.faults == old(device.faults) + (if r.Ok? then 0 else 1)
      ensures r.Ok? && !EmptyDelta(old(delta)) ==>
        && snapshotSeq == durableSeq == seqNo && sinceFsync == 0
        && compactionId == old(compactionId) + 1 && snapshotFile == SnapName(seqNo, compactionId)
        && base == old(View()) && delta == []
        && files.wal == Volatile(Log([], false), [])
        && (device.leaks == old(device.leaks) ==> snapshotFile == old(snapshotFile) || old(snapshotFile) !in files.dir.Live().snaps)
      ensures r.Ok? && EmptyDelta(old(delta)) ==> files == old(files) && log == old(log) && ThePace() == old(ThePace())
      ensures r.Ok? ==> deltaOps == 0
      ensures r.Err? || EmptyDelta(old(delta)) ==> delta == old(delta)
    {
      if EmptyDelta(delta) {
        deltaOps := 0;
        return Ok(());
      }
      r := FoldNow();
    }

    /** Steps 3 to 8, for a delta that holds something. */
    method FoldNow() returns (r: Result<(), StoreError>)
      requires Valid() && Idle(st)
      modifies this`files, this`base, this`delta, this`deltaOps, this`snapshotSeq, this`snapshotFile, this`compactionId,
        this`durableSeq, this`nextSlot, this`nextGen, this`sinceFsync, this`poisoned, this`inflight,
        this`st, this`states, this`log, device`faults, device`leaks
      ensures Ready() && old(log) <= log
      ensures View() == old(View()) && st.published == old(st).published
      ensures ThePace() == old(ThePace()) || (durableSeq == seqNo && sinceFsync <= old(sinceFsync))
      ensures r.Err? ==> r.error == Io
      ensures device.faults == old(device.faults) + (if r.Ok? then 0 else 1)
      ensures r.Ok? ==>
        && snapshotSeq == durableSeq == seqNo && sinceFsync == deltaOps == 0
        && compactionId == old(compactionId) + 1 && snapshotFile == SnapName(seqNo, compactionId)
        && base == old(View()) && delta == []
        && files.wal == Volatile(Log([], false), [])
        && (device.leaks == old(device.leaks) ==> snapshotFile == old(snapshotFile) || old(snapshotFile) !in files.dir.Live().snaps)
      ensures r.Err? ==> delta == old(delta)
    {
      var oldFile := snapshotFile;
      var ok := FoldAndMap();
      if !ok {
        return Err(Io);
      }
      Rebase(oldFile);
      return Ok(());
    }

    /** Steps 3 to 6, and opening the new snapshot. */
    method FoldAndMap() returns (ok: bool)
      requires Valid() && Idle(st)
      modifies this`files, this`snapshotSeq, this`snapshotFile, this`compactionId, this`durableSeq, this`nextSlot,
        this`nextGen, this`sinceFsync, this`poisoned, this`inflight, this`st, this`states, this`log, device`faults
      ensures Ready() && old(log) <= log
      ensures st.published == old(st).published
      ensures ThePace() == old(ThePace()) || (durableSeq == seqNo && sinceFsync <= old(sinceFsync))
      ensures device.faults == old(device.faults) + (if ok then 0 else 1)
      ensures ok ==>
        && !poisoned && snapshotSeq == durableSeq == seqNo && sinceFsync == 0
        && compactionId == old(compactionId) + 1 && snapshotFile == SnapName(seqNo, compactionId)
        && files.wal == Volatile(Log([], false), [])
        && RootCovers(st, seqNo) && files.dir.durable.manifest.value.file == snapshotFile
    {
      ok := FoldToDisk();
      if ok {
        ok := Remap();
      }
    }

    /** Mapping the new snapshot may fail; keeping the folded graph in memory does not. */
    method Remap() returns (ok: bool)
      modifies device`faults
      ensures mode == Owned ==> ok
      ensures device.faults == old(device.faults) + (if ok then 0 else 1)
    {
      ok := true;
      if mode == Mmap {
        var failed := device.Fails();
        ok := !failed;
      }
    }

    /** Steps 3 to 6: everything a compaction does on disk before it republishes. */
    method FoldToDisk() returns (ok: bool)
      requires Valid() && Idle(st)
      modifies this`files, this`snapshotSeq, this`snapshotFile, this`compactionId, this`durableSeq, this`nextSlot,
        this`nextGen, this`sinceFsync, this`poisoned, this`inflight, this`st, this`states, this`log, device`faults
      ensures Valid() && (!poisoned ==> Idle(st)) && old(log) <= log
      ensures st.published == old(st).published
      ensures ThePace() == old(ThePace()) || (durableSeq == seqNo && sinceFsync <= old(sinceFsync))
      ensures device.faults == old(device.faults) + (if ok then 0 else 1)
      ensures ok ==>
        && !poisoned && snapshotSeq == durableSeq == seqNo && sinceFsync == 0
        && compactionId == old(compactionId) + 1 && snapshotFile == SnapName(seqNo, compactionId)
        && files.wal == Volatile(Log([], false), [])
        && RootCovers(st, seqNo) && files.dir.durable.manifest.value.file == snapshotFile
    {
      ok := MoveRoot();
      if ok {
        ok := CommitAndRotate();
      }
    }

    /** Steps 3 to 5: the snapshot, then the MANIFEST that names it. */
    method MoveRoot() returns (ok: bool)
      requires Valid() && Idle(st)
      modifies this`files, this`snapshotSeq, this`snapshotFile, this`compactionId, this`st, this`states, this`log, device`faults
      ensures Valid() && Idle(st) && old(log) <= log
      ensures st.hist == old(st).hist && st.published == old(st).published
      ensures files.wal == old(files).wal && files.commit == old(files).commit
      ensures ok ==> snapshotSeq == seqNo && RootCovers(st, seqNo) && files.dir.durable.manifest.value.file == snapshotFile
      ensures ok ==> compactionId == old(compactionId) + 1 && snapshotFile == SnapName(seqNo, compactionId)
      ensures device.faults == old(device.faults) + (if ok then 0 else 1)
    {
      ok := WriteSnapshot();
      if ok {
        ok := SwitchRoot();
      }
    }

    /** Steps 3 and 4: the snapshot of what is visible, durable under a name of its own. */
    method WriteSnapshot() returns (ok: bool)
      requires Valid() && Idle(st)
      modifies this`files, this`st, this`states, this`log, device`faults
      ensures Valid() && Idle(st) && old(log) <= log
      ensures st.hist == old(st).hist && st.published == old(st).published
      ensures files.wal == old(files).wal && files.commit == old(files).commit
      ensures ok ==> SnapshotReady()
      ensures device.faults == old(device.faults) + (if ok then 0 else 1)
    {
      ok := WriteFileAtomic(Snapshot(SnapName(seqNo, compactionId + 1), View()), RenameSnapshot);
    }

    /** The next snapshot is durably in place. */
    ghost predicate SnapshotReady()
      reads this
    {
      && files.dir.Settled()
      && SnapName(seqNo, compactionId + 1) in files.dir.durable.snaps
      && files.dir.durable.snaps[SnapName(seqNo, compactionId + 1)] == Some(view)
    }

    /** Step 5: the MANIFEST that names it, and with it the writer's own pointer. */
    method SwitchRoot() returns (ok: bool)
      requires Valid() && Idle(st) && SnapshotReady()
      modifies this`files, this`snapshotSeq, this`snapshotFile, this`compactionId, this`st, this`states, this`log, device`faults
      ensures Valid() && Idle(st) && old(log) <= log
      ensures st.hist == old(st).hist && st.published == old(st).published
      ensures files.wal == old(files).wal && files.commit == old(files).commit
      ensures ok ==> snapshotSeq == seqNo && RootCovers(st, seqNo) && files.dir.durable.manifest.value.file == snapshotFile
      ensures ok ==> compactionId == old(compactionId) + 1 && snapshotFile == SnapName(seqNo, compactionId)
      ensures device.faults == old(device.faults) + (if ok then 0 else 1)
    {
      var newRoot := Manifest(SnapName(seqNo, compactionId + 1), seqNo, epoch, seqNo, false, compactionId + 1);
      ok := WriteFileAtomic(Root(newRoot), RenameRoot);
      if !ok {
        return false;
      }
      TakeAdopt();
      snapshotSeq, snapshotFile, compactionId := newRoot.snapshotSeq, newRoot.file, newRoot.cid;
    }

    /** Steps 7 and 8: the folded content becomes the base, and the superseded snapshot goes. */
    method Rebase(oldFile: SnapName)
      requires Valid() && files.dir.Settled()
      requires files.dir.durable.manifest.Some? && files.dir.durable.manifest.value.file == snapshotFile
      modifies this`files, this`base, this`delta, this`deltaOps, this`st, this`states, this`log, device`leaks
      ensures Valid() && old(log) <= log
      ensures base == old(View()) && delta == [] && View() == old(View()) && deltaOps == 0
      ensures device.leaks == old(device.leaks) ==> oldFile == snapshotFile || oldFile !in files.dir.Live().snaps
      ensures files.wal == old(files).wal && files.commit == old(files).commit
      ensures st.hist == old(st).hist && st.published == old(st).published
    {
      base, delta, deltaOps := base + delta, [], 0;
      assert base + [] == base;
      if oldFile != snapshotFile {
        RemoveSnapshotFile(oldFile);
      }
    }

    /** Steps 5b and 6: the marker catches up with the snapshot, then the log is emptied. */
    method CommitAndRotate() returns (ok: bool)
      requires Valid() && Idle(st) && snapshotSeq == seqNo && RootCovers(st, seqNo)
      modifies this`files, this`durableSeq, this`nextSlot, this`nextGen, this`sinceFsync, this`poisoned, this`inflight,
        this`st, this`states, this`log, device`faults
      ensures Valid() && (!poisoned ==> Idle(st)) && old(log) <= log
      ensures st.hist == old(st).hist && st.published == old(st).published
      ensures files.dir == old(files).dir
      ensures ThePace() == old(ThePace()) || (durableSeq == seqNo && sinceFsync <= old(sinceFsync))
      ensures ok ==> !poisoned && durableSeq == seqNo && files.wal == Volatile(Log([], false), []) && sinceFsync == 0
      ensures device.faults == old(device.faults) + (if ok then 0 else 1)
    {
      KnowView();
      ok := AdvanceCommit(Max(durableSeq, snapshotSeq));
      if ok {
        ok := WalTruncate();
      }
    }

    /** remove_snapshot_file: best effort. */
    method RemoveSnapshotFile(name: SnapName)
      requires Valid() && name != snapshotFile && files.dir.Settled()
      requires files.dir.durable.manifest.Some? && files.dir.durable.manifest.value.file == snapshotFile
      modifies this`files, this`st, this`states, this`log, device`leaks
      ensures Valid() && old(log) <= log
      ensures files.wal == old(files).wal && files.commit == old(files).commit
      ensures st.hist == old(st).hist && st.published == old(st).published && st.proc == old(st).proc
      ensures device.leaks == old(device.leaks) ==> name !in files.dir.Live().snaps
    {
      var failed := device.FailsToDelete();
      if !failed {
        files := files.(dir := files.dir.Write(Without(files.dir.Live(), name)));
        TakeDelete(name);
      }
    }

    /** What is visible is the timeline up to seq, and durable_seq never runs ahead of it. */
    ghost method KnowView()
      requires Valid() && Idle(st)
      ensures durableSeq <= seqNo && View() == st.hist
    {
      TraceIsRun(states, log, |log|);
      assert log[..|log|] == log;
      InitialInv(states[0]);
      RunsKeepInv(states[0], log);
      AckedWithinHistory(st);
      assert st.hist[..seqNo] == st.hist;
    }

    /** flush: everything visible becomes committed. */
    method Flush() returns (r: Result<(), StoreError>)
      requires Ready()
      modifies this`files, this`durableSeq, this`sinceFsync, this`poisoned, this`nextSlot, this`nextGen, this`inflight,
        this`st, this`states, this`log, device`faults
      ensures Ready() && old(log) <= log
      ensures r.Ok? ==> !poisoned && durableSeq == seqNo && files.wal.Settled() && files.commit.Settled() && sinceFsync == 0
      ensures r.Err? ==> poisoned && durableSeq == old(durableSeq)
      ensures r == Err(Poisoned) <==> old(poisoned)
      ensures r.Err? ==> r.error == Poisoned || r.error == Io
      ensures device.faults == old(device.faults) + (if r == Err(Io) then 1 else 0)
      ensures seqNo == old(seqNo) && epoch == old(epoch) && View() == old(View()) && st.published == old(st).published
    {
      if poisoned {
        return Err(Poisoned);
      }
      var ok := SyncAndMark();
      return if ok then Ok(()) else Err(Io);
    }

    /** The log first, then the marker. */
    method SyncAndMark() returns (ok: bool)
      requires Valid() && Idle(st)
      modifies this`files, this`durableSeq, this`sinceFsync, this`poisoned, this`nextSlot, this`nextGen, this`inflight,
        this`st, this`states, this`log, device`faults
      ensures Ready() && old(log) <= log
      ensures st.published == old(st).published
      ensures ok ==> !poisoned && durableSeq == seqNo && files.wal.Settled() && files.commit.Settled() && sinceFsync == 0
      ensures !ok ==> poisoned && durableSeq == old(durableSeq)
      ensures device.faults == old(device.faults) + (if ok then 0 else 1)
    {
      ok := FsyncNow();
      if ok {
        ok := AdvanceCommit(seqNo);
      }
    }

    /**
     close: a clean shutdown is recorded only when log and marker are durable up
     to the last seq. After Ok the store is settled and marked clean.
     */
    method Close() returns (r: Result<(), StoreError>)
      requires Ready()
      modifies this, device`faults
      ensures OnRun() && old(log) <= log
      ensures r.Ok? ==>
        && st.proc.Down? && files.Settled()
        && files.dir.durable.manifest == Some(Manifest(
             old(snapshotFile), old(snapshotSeq), old(epoch), old(seqNo), true, old(compactionId)))
        && st.hist == old(View())
      ensures r == Err(Poisoned) ==>
        && st.proc.Down? && files.dir.Settled()
        && files.dir.durable.manifest == Some(Manifest(
             old(snapshotFile), old(snapshotSeq), old(epoch), old(durableSeq), false, old(compactionId)))
      ensures r.Ok? <==> !old(poisoned) && device.faults == old(device.faults)
      ensures r.Err? ==> r.error == Poisoned || (r.error == Io && device.faults > old(device.faults))
    {
      var clean := false;
      if !poisoned {
        var flushed := Flush();
        clean := flushed.Ok?;
        if clean {
          KnowView();
        }
      }
      var root := Manifest(snapshotFile, snapshotSeq, epoch, durableSeq, clean, compactionId);
      var ok := WriteFileAtomic(Root(root), CloseRename(clean));
      if !ok {
        return Err(Io);
      }
      TakeCloseEnd();
      return if clean then Ok(()) else Err(Poisoned);
    }

    // ------------------------------------------------------------------
    // open_with_vfs
    // ------------------------------------------------------------------

    /** A store being opened, at a given stage of recovery. */
    ghost predicate OpeningAt(r: Recovered, e: Option<nat>, h: Handle, stamped: bool)
      reads this
    {
      OnRun() && st.proc == Opening(r, e, h, stamped)
    }

    ghost predicate CanTake(a: Action)
      reads this`st
    {
      Enabled(st, a)
    }

    /** Steps 1 to 3c: read the MANIFEST, its snapshot, the log and the marker; change nothing. */
    method ReadImage() returns (r: Result<Recovered, Error>)
      requires files.Settled()
      ensures r == Recover(files.dir.durable, files.commit.durable, files.wal.durable)
    {
      var dir, slots, wal := files.dir.Live(), files.commit.Live(), files.wal.Live();
      if dir.manifest.None? {
        return Err(ManifestUnreadable);
      }
      var m := dir.manifest.value;
      if m.file !in dir.snaps || dir.snaps[m.file].None? {
        return Err(SnapshotUnreadable);
      }
      if slots.s0.None? && slots.s1.None? {
        return Err(CommitUnreadable);
      }
      var record := slots.Chosen();
      var marker := Max(record.committedSeq, m.snapshotSeq);
      if marker < m.highSeq {
        return Err(MarkerBehindManifest);
      }
      var replayed := ReplayFrames(wal.recs, m.snapshotSeq, marker);
      if replayed.Err? {
        return Err(replayed.error);
      }
      var p := replayed.value;
      if p.lastApplied < marker {
        return Err(LostCommitted(p.lastApplied, marker));
      }
      return Ok(Recovered(m, dir.snaps[m.file].value, p.delta, marker, p.kept, p.uncommitted,
        if wal.torn then 1 else 0, p.kept < |wal.recs| || wal.torn, 1 - slots.ChosenSlot(), record.gen + 1));
    }

    ghost method TakeOpen(r: Recovered)
      requires Traced() && st.proc.Down? && st.files.Settled()
      requires Recover(st.files.dir.durable, st.files.commit.durable, st.files.wal.durable) == Ok(r)
      modifies this`st, this`states, this`log
      ensures Traced() && log == old(log) + [Open]
      ensures st == old(st).(proc := Opening(r, None, Handle(r.nextSlot, r.nextGen, None), false))
    {
      Take(Open);
    }

    ghost method TakeOpenTruncate()
      requires Traced() && st.proc.Opening? && st.proc.r.truncates && st.files.wal.Settled()
      modifies this`st, this`states, this`log
      ensures Traced() && log == old(log) + [OpenTruncate]
      ensures st == old(st).(files := old(st).files.(wal :=
        old(st).files.wal.Write(Trimmed(old(st).files.wal.durable, old(st).proc.r))))
    {
      Take(OpenTruncate);
    }

    /** Step 4: cut the log back to the committed boundary, and sync the cut. */
    method TruncateTail(r: Recovered, ghost h: Handle) returns (ok: bool)
      requires OpeningAt(r, None, h, false) && files.wal.Settled() && r.kept <= |files.wal.durable.recs|
      requires r.truncates <==> r.kept < |files.wal.durable.recs| || files.wal.durable.torn
      modifies this`files, this`st, this`states, this`log, device`faults
      ensures OpeningAt(r, None, h, false) && old(log) <= log
      ensures st.hist == old(st).hist && st.epochs == old(st).epochs && st.published == old(st).published
      ensures files.commit == old(files).commit && files.dir == old(files).dir
      ensures ok ==> LogTrimmed(st)
      ensures device.faults == old(device.faults) + (if ok then 0 else 1)
    {
      var wal := files.wal.durable;
      if !r.truncates {
        assert wal.recs[..r.kept] == wal.recs;
        return true;
      }
      var failed := device.Fails();
      if failed { return false; }
      files := files.(wal := files.wal.Write(Log(wal.recs[..r.kept], false)));
      TakeOpenTruncate();
      failed := device.Fails();
      var persisted := *;
      if !failed || persisted {
        files := files.(wal := files.wal.Sync());
        TakeWalSync();
      }
      return !failed;
    }

    /** Step 5: a timeline that may have forked gets an epoch never used before. */
    method ChooseEpoch(r: Recovered, minted: nat, ghost h: Handle) returns (e: nat)
      requires OpeningAt(r, None, h, false) && LogTrimmed(st) && minted !in st.epochs
      modifies this`st, this`states, this`log
      ensures OpeningAt(r, Some(e), h, false) && old(log) <= log
      ensures st.hist == old(st).hist && st.published == old(st).published && st.files == old(st).files
      ensures e == if r.truncates || !r.m.clean then minted else r.m.epoch
    {
      if r.truncates || !r.m.clean {
        e := minted;
        Take(OpenMint(minted));
      } else {
        e := r.m.epoch;
        Take(OpenKeepEpoch);
      }
    }

    ghost method TakeOpenMarkerWrite()
      requires Traced() && st.proc.Opening? && st.proc.epoch.Some? && st.proc.handle.inflight.None? && !st.proc.stamped
      modifies this`st, this`states, this`log
      ensures Traced() && log == old(log) + [OpenMarkerWrite]
      ensures var h := old(st).proc.handle;
        var rec := CommitRecord(old(st).proc.epoch.value, old(st).proc.r.marker, h.nextGen);
        st == old(st).(
          files := old(st).files.(commit := old(st).files.commit.Write(old(st).files.commit.Live().Set(h.nextSlot, Some(rec)))),
          proc := old(st).proc.(handle := h.(inflight := Some(rec))))
    {
      Take(OpenMarkerWrite);
    }

    ghost method TakeOpenMarkerAck()
      requires Traced() && st.proc.Opening? && st.proc.handle.inflight.Some? && st.files.commit.Settled()
      modifies this`st, this`states, this`log
      ensures Traced() && log == old(log) + [OpenMarkerAck]
      ensures st == old(st).(proc := old(st).proc.(handle := Flip(old(st).proc.handle), stamped := true))
    {
      Take(OpenMarkerAck);
    }

    /** Step 5b: stamp the marker into this incarnation. */
    method Stamp(r: Recovered, e: nat, h: Handle) returns (ok: bool)
      requires OpeningAt(r, Some(e), h, false) && h.inflight.None?
      modifies this`files, this`st, this`states, this`log, device`faults
      ensures OnRun() && old(log) <= log
      ensures st.hist == old(st).hist && st.published == old(st).published
      ensures files.wal == old(files).wal && files.dir == old(files).dir
      ensures ok ==> OpeningAt(r, Some(e), Flip(h), true)
      ensures device.faults == old(device.faults) + (if ok then 0 else 1)
    {
      var failed := device.Fails();
      if failed { return false; }
      var rec := CommitRecord(e, r.marker, h.nextGen);
      files := files.(commit := files.commit.Write(files.commit.Live().Set(h.nextSlot, Some(rec))));
      TakeOpenMarkerWrite();
      failed := device.Fails();
      if !failed {
        files := files.(commit := files.commit.Sync());
        TakeCommitSync();
        TakeOpenMarkerAck();
        return true;
      }
      if * {
        files := files.(commit := files.commit.Sync());
        TakeCommitSync();
      }
      return false;
    }

    ghost method TakeOpenDelete(name: SnapName)
      requires Traced() && CanTake(OpenDelete(name))
      modifies this`st, this`states, this`log
      ensures Traced() && log == old(log) + [OpenDelete(name)]
      ensures st == old(st).(files := old(st).files.(dir := old(st).files.dir.Write(Without(old(st).files.dir.Live(), name))))
    {
      Take(OpenDelete(name));
    }

    /** gc_orphan_snapshots: whatever the MANIFEST does not name, best effort. */
    method SweepOrphans(r: Recovered, e: nat, ghost h: Handle)
      requires OpeningAt(r, Some(e), h, true) && RootIs(files.dir, ReopenedRoot(r, e))
      modifies this`files, this`st, this`states, this`log, device`leaks
      ensures OpeningAt(r, Some(e), h, true) && RootIs(files.dir, ReopenedRoot(r, e)) && old(log) <= log
      ensures st.hist == old(st).hist && st.published == old(st).published
      ensures files.wal == old(files).wal && files.commit == old(files).commit
      ensures device.leaks >= old(device.leaks)
      ensures device.leaks == old(device.leaks) ==> files.dir.Live().snaps.Keys <= {r.m.file}
    {
      var orphans := files.dir.Live().snaps.Keys - {r.m.file};
      while orphans != {}
        invariant r.m.file !in orphans
        invariant OpeningAt(r, Some(e), h, true) && RootIs(files.dir, ReopenedRoot(r, e)) && old(log) <= log
        invariant st.hist == old(st).hist && st.published == old(st).published
        invariant files.wal == old(files).wal && files.commit == old(files).commit
        invariant device.leaks >= old(device.leaks)
        invariant device.leaks == old(device.leaks) ==> files.dir.Live().snaps.Keys <= orphans + {r.m.file}
        decreases orphans
      {
        var name :| name in orphans;
        orphans := orphans - {name};
        var failed := device.FailsToDelete();
        if !failed {
          RootIsEverywhere(files.dir, ReopenedRoot(r, e), files.dir.Live());
          files := files.(dir := files.dir.Write(Without(files.dir.Live(), name)));
          TakeOpenDelete(name);
        }
      }
    }

    ghost method TakeOpenPublish()
      requires Traced() && CanTake(OpenPublish)
      modifies this`st, this`states, this`log
      ensures Traced() && log == old(log) + [OpenPublish]
      ensures var r, e := old(st).proc.r, old(st).proc.epoch.value;
        && st.files == old(st).files
        && st.proc == Up(Writer(r.marker, r.marker, e, r.View(), r.m.snapshotSeq, r.m.file, r.m.cid, old(st).proc.handle, false))
        && st.hist == r.View()
        && st.published == old(st).published + {Published(e, r.marker, r.View())}
    {
      Take(OpenPublish);
    }

    /** The settings and counters an opened store starts with. */
    predicate AsOpened()
      reads this`policy, this`sinceFsync, this`deltaOps, this`autoCompactOverride
    {
      policy == OnFlush && sinceFsync == deltaOps == 0 && autoCompactOverride.None?
    }

    method LoadCounters(w: Writer)
      requires OnRun()
      modifies this`seqNo, this`durableSeq, this`epoch, this`snapshotSeq, this`snapshotFile, this`compactionId
      ensures OnRun()
      ensures seqNo == w.seqNo && durableSeq == w.durableSeq && epoch == w.epoch
      ensures snapshotSeq == w.snapshotSeq && snapshotFile == w.file && compactionId == w.cid
    {
      seqNo, durableSeq, epoch := w.seqNo, w.durableSeq, w.epoch;
      snapshotSeq, snapshotFile, compactionId := w.snapshotSeq, w.file, w.cid;
    }

    method LoadLog(w: Writer)
      requires OnRun()
      modifies this`policy, this`sinceFsync, this`poisoned, this`nextSlot, this`nextGen, this`inflight
      ensures OnRun()
      ensures policy == OnFlush && sinceFsync == 0 && !poisoned
      ensures nextSlot == w.commit.nextSlot && nextGen == w.commit.nextGen && inflight.None?
    {
      policy, sinceFsync, poisoned := OnFlush, 0, false;
      nextSlot, nextGen, inflight := w.commit.nextSlot, w.commit.nextGen, None;
    }

    /** The writer's fields as the published state has them. */
    method Load(w: Writer, b: seq<Batch>, d: seq<Batch>)
      requires OnRun() && st.proc == Up(w) && w.view == b + d
      requires !w.poisoned && w.commit.inflight.None?
      modifies this`seqNo, this`durableSeq, this`epoch, this`base, this`delta, this`snapshotSeq, this`snapshotFile,
        this`compactionId, this`deltaOps, this`autoCompactOverride, this`policy, this`sinceFsync, this`poisoned,
        this`nextSlot, this`nextGen, this`inflight, this`view
      ensures Valid() && TheWriter() == w && policy == OnFlush && base == b && delta == d
      ensures sinceFsync == deltaOps == 0 && autoCompactOverride.None?
    {
      LoadCounters(w);
      LoadLog(w);
      base, delta, view := b, d, w.view;
      deltaOps, autoCompactOverride := 0, None;
      assert TheWriter() == w && st.proc == Up(w);
    }

    /** Steps 7 and 8: prime the writer at the committed boundary and publish. */
    method Prime(r: Recovered, e: nat, h: Handle)
      requires OpeningAt(r, Some(e), h, true) && LogTrimmed(st) && RootIs(files.dir, ReopenedRoot(r, e))
      requires h.inflight.None?
      modifies this
      ensures Valid() && old(log) <= log && !poisoned
      ensures AsOpened() && snapshotFile == r.m.file && base == r.base && delta == r.delta && files == old(files)
      ensures seqNo == durableSeq == r.marker && epoch == e && View() == r.View() == st.hist
      ensures st.published == old(st).published + {Published(e, r.marker, r.View())}
    {
      TakeOpenPublish();
      Load(Writer(r.marker, r.marker, e, r.View(), r.m.snapshotSeq, r.m.file, r.m.cid, h, false), r.base, r.delta);
    }

    /** Steps 4 to 8, once the image has been read. */
    method Recovering(r: Recovered, minted: nat) returns (ok: bool)
      requires OpeningAt(r, None, Handle(r.nextSlot, r.nextGen, None), false) && files.Settled()
      requires r.kept <= |files.wal.durable.recs|
      requires r.truncates <==> r.kept < |files.wal.durable.recs| || files.wal.durable.torn
      requires minted !in st.epochs
      modifies this, device`faults, device`leaks
      ensures device.faults == old(device.faults) + (if ok then 0 else 1)
      ensures ok && device.leaks == old(device.leaks) ==> files.dir.Live().snaps.Keys <= {snapshotFile}
      ensures ok ==> AsOpened() && base == r.base && delta == r.delta
      ensures OnRun() && old(log) <= log
      ensures ok ==> Valid() && !poisoned && seqNo == durableSeq == r.marker && View() == r.View() == st.hist
      ensures ok ==> epoch == if r.truncates || !r.m.clean then minted else r.m.epoch
      ensures ok ==> st.published == old(st).published + {Published(epoch, seqNo, View())}
    {
      var h := Handle(r.nextSlot, r.nextGen, None);
      ok := TruncateTail(r, h);
      if !ok { return false; }
      var e := ChooseEpoch(r, minted, h);
      ok := Stamp(r, e, h);
      if !ok { return false; }
      ok := WriteFileAtomic(Root(ReopenedRoot(r, e)), OpenRenameRoot);
      if !ok { return false; }
      SweepOrphans(r, e, Flip(h));
      Prime(r, e, Flip(h));
    }

    /**
     open_with_vfs on a settled store. It never reports Corrupt: it fails exactly when
     the disk fails it. When it succeeds the visible content is exactly the committed
     prefix of what was handed to the log, and nothing acknowledged is missing.
     `minted` is the newly drawn random epoch, `openMode` how the base is to be kept.
     */
    method Reopen(minted: nat, openMode: BaseMode) returns (r: Result<(), StoreError>)
      requires OnRun() && st.proc.Down? && files.Settled() && minted !in st.epochs
      modifies this, device`faults, device`leaks
      ensures OnRun() && old(log) <= log
      ensures r.Err? ==> r.error == Io
      ensures device.faults == old(device.faults) + (if r.Ok? then 0 else 1)
      ensures r.Ok? ==>
        && Valid() && !poisoned && st.proc.Up? && mode == openMode
        && old(st).acked <= seqNo == durableSeq <= |old(st).hist|
        && View() == old(st).hist[..seqNo]
        && Published(epoch, seqNo, View()) in st.published
        && AsOpened()
      ensures r.Ok? ==>
        var read := Recover(old(files).dir.durable, old(files).commit.durable, old(files).wal.durable);
        && read.Ok? && seqNo == read.value.marker && base == read.value.base && delta == read.value.delta
        && epoch == if read.value.truncates || !read.value.m.clean then minted else read.value.m.epoch
      ensures r.Ok? && device.leaks == old(device.leaks) ==> files.dir.Live().snaps.Keys <= {snapshotFile}
      ensures r.Ok? ==> Reports(recovery, old(files).wal.durable, seqNo)
    {
      var read := ReadImage();
      KnowImage();
      if read.Err? {
        assert false; // here the source reports Corrupt
      }
      TakeOpen(read.value);
      var ok := Recovering(read.value, minted);
      if !ok {
        return Err(Io);
      }
      Keep(openMode, RecoveryReport(read.value.uncommitted, read.value.tornFrames));
      return Ok(());
    }

    method Keep(openMode: BaseMode, report: RecoveryReport)
      requires Valid()
      modifies this`mode, this`recovery
      ensures Valid() && mode == openMode && recovery == report
    {
      mode, recovery := openMode, report;
    }

    /** The frames counted as uncommitted are those beyond the recovered seq. */
    static ghost predicate Reports(report: RecoveryReport, l: Log, seqNo: nat) {
      && report.uncommittedTailFrames <= |l.recs|
      && SplitAt(l.recs, |l.recs| - report.uncommittedTailFrames, seqNo)
      && report.tornTailFrames == if l.torn then 1 else 0
    }

    /** What the protocol guarantees about the image being read, above all that it opens. */
    ghost method KnowImage()
      requires OnRun() && files.Settled()
      ensures Recover(files.dir.durable, files.commit.durable, files.wal.durable).Ok?
      ensures var r := Recover(files.dir.durable, files.commit.durable, files.wal.durable).value;
        && st.acked <= r.marker <= |st.hist| && r.View() == st.hist[..r.marker]
        && r.kept <= |files.wal.durable.recs|
        && (r.truncates <==> r.kept < |files.wal.durable.recs| || files.wal.durable.torn)
        && Reports(RecoveryReport(r.uncommitted, r.tornFrames), files.wal.durable, r.marker)
    {
      TraceIsRun(states, log, |log|);
      assert log[..|log|] == log;
      LiveImages(files);
      CrashAnywhereRecovers(states[0], log, files.dir.durable, files.commit.durable, files.wal.durable);
      InitialInv(states[0]);
      RunsKeepInv(states[0], log);
      RecoverableOpens(files.dir.durable, files.commit.durable, files.wal.durable, st.hist, st.acked);
    }
  }
}
