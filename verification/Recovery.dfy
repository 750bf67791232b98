/**
 What `open_with_vfs` reads out of a crash image (src/persist/mod.rs:518-710),
 and exactly which images it opens.
 */
module Recovery {
  import opened Types
  import opened Disk

  datatype Error =
    | ManifestUnreadable
    | SnapshotUnreadable
    | CommitUnreadable
    | MarkerBehindManifest
    | SeqGap(expected: nat, found: nat)
    | LostCommitted(recovered: nat, marker: nat)

  // ---------------------------------------------------------------------
  // The replay loop
  // ---------------------------------------------------------------------

  /**
   The state of the replay loop. `kept` counts the frames at or below the
   marker, `uncommitted` the frames beyond it, and `delta` holds the batches
   replayed on top of the snapshot.
   */
  datatype Progress = Progress(lastApplied: nat, delta: seq<Batch>, kept: nat, uncommitted: nat)

  function Step(p: Progress, rec: WalRecord, snapshotSeq: nat, marker: nat): Result<Progress, Error> {
    if rec.seqNo > marker then
      Ok(p.(uncommitted := p.uncommitted + 1))
    else if rec.seqNo <= snapshotSeq then
      Ok(p.(kept := p.kept + 1))
    else if rec.seqNo != p.lastApplied + 1 then
      Err(SeqGap(p.lastApplied + 1, rec.seqNo))
    else
      Ok(Progress(rec.seqNo, p.delta + [rec.ops], p.kept + 1, p.uncommitted))
  }

  function Replay(recs: seq<WalRecord>, snapshotSeq: nat, marker: nat): Result<Progress, Error> {
    if recs == [] then
      Ok(Progress(snapshotSeq, [], 0, 0))
    else
      match Replay(recs[..|recs| - 1], snapshotSeq, marker)
      case Err(e) => Err(e)
      case Ok(p) => Step(p, recs[|recs| - 1], snapshotSeq, marker)
  }

  lemma {:induction false} ReplayErrorStays(recs: seq<WalRecord>, i: nat, snapshotSeq: nat, marker: nat)
    requires i <= |recs|
    requires Replay(recs[..i], snapshotSeq, marker).Err?
    ensures Replay(recs, snapshotSeq, marker) == Replay(recs[..i], snapshotSeq, marker)
    decreases |recs| - i
  {
    if i < |recs| {
      assert recs[..i + 1][..i] == recs[..i];
      ReplayErrorStays(recs, i + 1, snapshotSeq, marker);
    } else {
      assert recs[..i] == recs;
    }
  }

  /** The loop of the source, which stops at the first gap. */
  method ReplayFrames(recs: seq<WalRecord>, snapshotSeq: nat, marker: nat)
    returns (r: Result<Progress, Error>)
    ensures r == Replay(recs, snapshotSeq, marker)
  {
    var delta: seq<Batch> := [];
    var expectedNext := snapshotSeq + 1;
    var lastApplied := snapshotSeq;
    var kept, uncommitted := 0, 0;
    for i := 0 to |recs|
      invariant expectedNext == lastApplied + 1
      invariant Replay(recs[..i], snapshotSeq, marker) == Ok(Progress(lastApplied, delta, kept, uncommitted))
    {
      var rec := recs[i];
      assert recs[..i + 1][..i] == recs[..i];
      if rec.seqNo > marker {
        uncommitted := uncommitted + 1;
      } else {
        if rec.seqNo > snapshotSeq && rec.seqNo != expectedNext {
          ReplayErrorStays(recs, i + 1, snapshotSeq, marker);
          return Err(SeqGap(expectedNext, rec.seqNo));
        }
        kept := kept + 1;
        if rec.seqNo > snapshotSeq {
          delta := delta + [rec.ops];
          lastApplied := rec.seqNo;
          expectedNext := expectedNext + 1;
        }
      }
    }
    assert recs[..|recs|] == recs;
    return Ok(Progress(lastApplied, delta, kept, uncommitted));
  }

  // ---------------------------------------------------------------------
  // Logs that agree with a history of batches
  // ---------------------------------------------------------------------

  ghost predicate HasSeq(recs: seq<WalRecord>, q: int) {
    exists i :: 0 <= i < |recs| && recs[i].seqNo == q
  }

  /** Every batch after `from` up to `upTo` has its frame in the log. */
  ghost predicate Covers(recs: seq<WalRecord>, from: nat, upTo: nat) {
    forall q :: from < q <= upTo ==> HasSeq(recs, q)
  }

  /** Frames in strictly increasing order, each holding its own batch of `hist`. */
  ghost predicate Agrees(recs: seq<WalRecord>, hist: seq<Batch>) {
    && (forall i :: 0 <= i < |recs| ==> 1 <= recs[i].seqNo <= |hist| && recs[i].ops == hist[recs[i].seqNo - 1])
    && (forall i, j :: 0 <= i < j < |recs| ==> recs[i].seqNo < recs[j].seqNo)
  }

  /** Frames at or below the marker come first. */
  ghost predicate SplitAt(recs: seq<WalRecord>, kept: nat, marker: nat) {
    && kept <= |recs|
    && (forall i :: 0 <= i < kept ==> recs[i].seqNo <= marker)
    && (forall i :: kept <= i < |recs| ==> recs[i].seqNo > marker)
  }

  /** There is only one place to split a log. */
  lemma SplitUnique(recs: seq<WalRecord>, a: nat, b: nat, marker: nat)
    requires SplitAt(recs, a, marker) && SplitAt(recs, b, marker)
    ensures a == b
  {
    var atA := if a < |recs| then recs[a].seqNo else 0;
    var atB := if b < |recs| then recs[b].seqNo else 0;
    if a != b {
      assert false;
    }
  }

  /** How far a sorted log has got after n frames. */
  function Reached(recs: seq<WalRecord>, n: nat, snapshotSeq: nat, marker: nat): nat
    requires n <= |recs|
  {
    if n == 0 then snapshotSeq else Max(snapshotSeq, Min(recs[n - 1].seqNo, marker))
  }

  /** In a covering log each frame up to the marker directly follows what was replayed before it. */
  lemma NextFrameFollows(recs: seq<WalRecord>, hist: seq<Batch>, n: nat, snapshotSeq: nat, marker: nat)
    requires n < |recs|
    requires Agrees(recs, hist)
    requires snapshotSeq <= marker
    requires Covers(recs, snapshotSeq, marker)
    ensures var last := Reached(recs, n, snapshotSeq, marker);
      && (recs[n].seqNo > marker ==> last == marker)
      && (snapshotSeq < recs[n].seqNo <= marker ==> recs[n].seqNo == last + 1)
  {
    var q := Min(recs[n].seqNo - 1, marker);
    if snapshotSeq < q {
      assert HasSeq(recs, q);
      var j :| 0 <= j < |recs| && recs[j].seqNo == q;
      assert j < n - 1 ==> recs[j].seqNo < recs[n - 1].seqNo;
      assert recs[n - 1].seqNo < recs[n].seqNo;
    } else if n > 0 {
      assert recs[n - 1].seqNo < recs[n].seqNo;
    }
  }

  /** What the loop knows after the first n frames of a sorted, covering log. */
  ghost predicate ReplayedTo(p: Progress, recs: seq<WalRecord>, n: nat, hist: seq<Batch>, snapshotSeq: nat, marker: nat)
    requires n <= |recs|
  {
    && p.lastApplied == Reached(recs, n, snapshotSeq, marker)
    && snapshotSeq <= p.lastApplied <= |hist|
    && p.delta == hist[snapshotSeq..p.lastApplied]
    && p.kept + p.uncommitted == n
    && (forall i :: 0 <= i < p.kept ==> recs[i].seqNo <= marker)
    && (forall i :: p.kept <= i < n ==> recs[i].seqNo > marker)
  }

  lemma ReplayStep(p: Progress, recs: seq<WalRecord>, n: nat, hist: seq<Batch>, snapshotSeq: nat, marker: nat)
    requires n < |recs|
    requires Agrees(recs, hist)
    requires snapshotSeq <= marker <= |hist|
    requires Covers(recs, snapshotSeq, marker)
    requires ReplayedTo(p, recs, n, hist, snapshotSeq, marker)
    ensures Step(p, recs[n], snapshotSeq, marker).Ok?
    ensures ReplayedTo(Step(p, recs[n], snapshotSeq, marker).value, recs, n + 1, hist, snapshotSeq, marker)
  {
    NextFrameFollows(recs, hist, n, snapshotSeq, marker);
    var rec := recs[n];
    if p.kept < n {
      assert recs[p.kept].seqNo < rec.seqNo;
    }
    if snapshotSeq < rec.seqNo <= marker {
      assert hist[snapshotSeq..p.lastApplied] + [rec.ops] == hist[snapshotSeq..rec.seqNo];
    } else if n > 0 {
      assert recs[n - 1].seqNo < rec.seqNo;
    }
  }

  lemma {:induction false} ReplayPrefix(recs: seq<WalRecord>, hist: seq<Batch>, n: nat, snapshotSeq: nat, marker: nat)
    requires n <= |recs|
    requires Agrees(recs, hist)
    requires snapshotSeq <= marker <= |hist|
    requires Covers(recs, snapshotSeq, marker)
    ensures Replay(recs[..n], snapshotSeq, marker).Ok?
    ensures ReplayedTo(Replay(recs[..n], snapshotSeq, marker).value, recs, n, hist, snapshotSeq, marker)
  {
    if n > 0 {
      ReplayPrefix(recs, hist, n - 1, snapshotSeq, marker);
      assert recs[..n][..n - 1] == recs[..n - 1];
      ReplayStep(Replay(recs[..n - 1], snapshotSeq, marker).value, recs, n - 1, hist, snapshotSeq, marker);
    }
  }

  /**
   Replaying a log that agrees with a history and covers it up to the marker
   never finds a gap, and yields exactly the batches after the snapshot, once
   each and in order.
   */
  lemma ReplayOfCoveringLog(recs: seq<WalRecord>, hist: seq<Batch>, snapshotSeq: nat, marker: nat)
    requires Agrees(recs, hist)
    requires snapshotSeq <= marker <= |hist|
    requires Covers(recs, snapshotSeq, marker)
    ensures Replay(recs, snapshotSeq, marker).Ok?
    ensures var p := Replay(recs, snapshotSeq, marker).value;
      && p.lastApplied == marker
      && p.delta == hist[snapshotSeq..marker]
      && p.kept + p.uncommitted == |recs|
      && SplitAt(recs, p.kept, marker)
  {
    assert recs[..|recs|] == recs;
    ReplayPrefix(recs, hist, |recs|, snapshotSeq, marker);
    if snapshotSeq < marker {
      assert HasSeq(recs, marker);
      var j :| 0 <= j < |recs| && recs[j].seqNo == marker;
      assert j < |recs| - 1 ==> recs[j].seqNo < recs[|recs| - 1].seqNo;
    }
  }

  // ---------------------------------------------------------------------
  // Reading a crash image
  // ---------------------------------------------------------------------

  /** What recovery settles on before it changes anything. */
  datatype Recovered = Recovered(
    m: Manifest,
    base: seq<Batch>,
    delta: seq<Batch>,
    marker: nat,
    kept: nat,
    uncommitted: nat,
    tornFrames: nat,
    truncates: bool,
    nextSlot: nat,
    nextGen: nat)
  {
    function View(): seq<Batch> { base + delta }
  }

  /** Steps 1 to 3c of open_with_vfs, in the order in which the source tests for each defect. */
  function Recover(x: Dir, s: Slots, l: Log): Result<Recovered, Error> {
    if x.manifest.None? then Err(ManifestUnreadable) else
    var m := x.manifest.value;
    if m.file !in x.snaps || x.snaps[m.file].None? then Err(SnapshotUnreadable) else
    if s.s0.None? && s.s1.None? then Err(CommitUnreadable) else
    var marker := Max(s.Chosen().committedSeq, m.snapshotSeq);
    if marker < m.highSeq then Err(MarkerBehindManifest) else
    match Replay(l.recs, m.snapshotSeq, marker)
    case Err(e) => Err(e)
    case Ok(p) =>
      if p.lastApplied < marker then Err(LostCommitted(p.lastApplied, marker)) else
      Ok(Recovered(m, x.snaps[m.file].value, p.delta, marker, p.kept, p.uncommitted,
        if l.torn then 1 else 0,
        p.kept < |l.recs| || l.torn,
        1 - s.ChosenSlot(), s.Chosen().gen + 1))
  }

  /** The MANIFEST is readable and its snapshot is present in full, holding exactly batches 1..snapshotSeq. */
  ghost predicate RootOk(x: Dir, hist: seq<Batch>) {
    && x.manifest.Some?
    && var m := x.manifest.value;
       && m.file.seqNo == m.snapshotSeq <= |hist|
       && m.file in x.snaps
       && x.snaps[m.file] == Some(hist[..m.snapshotSeq])
  }

  /** A slot decodes, and two decodable slots are told apart by generation. */
  predicate SlotsOk(s: Slots) {
    && (s.s0.Some? || s.s1.Some?)
    && (s.s0.Some? && s.s1.Some? ==> s.s0.value.gen != s.s1.value.gen)
  }

  ghost predicate LogOk(l: Log, hist: seq<Batch>) {
    Agrees(l.recs, hist)
  }

  /** The durable pointers fit each other and the log holds everything they promise. */
  ghost predicate Fits(m: Manifest, committed: nat, l: Log, hist: seq<Batch>, acked: nat) {
    && acked <= committed <= |hist|
    && m.highSeq <= Max(committed, m.snapshotSeq)
    && Covers(l.recs, m.snapshotSeq, committed)
  }

  ghost predicate Recoverable(x: Dir, s: Slots, l: Log, hist: seq<Batch>, acked: nat) {
    && RootOk(x, hist)
    && SlotsOk(s)
    && LogOk(l, hist)
    && Fits(x.manifest.value, s.Chosen().committedSeq, l, hist, acked)
  }

  /**
   A recoverable image opens: recovery is never Corrupt, and it returns the
   batches 1..r of the history, each once and in order, for an r between the
   acknowledged seq and the last appended one.
   */
  lemma RecoverableOpens(x: Dir, s: Slots, l: Log, hist: seq<Batch>, acked: nat)
    requires Recoverable(x, s, l, hist, acked)
    ensures Recover(x, s, l).Ok?
    ensures var r := Recover(x, s, l).value;
      && acked <= r.marker <= |hist|
      && r.View() == hist[..r.marker]
      && r.marker == Max(s.Chosen().committedSeq, x.manifest.value.snapshotSeq)
      && SplitAt(l.recs, r.kept, r.marker)
      && r.kept + r.uncommitted == |l.recs|
      && (r.truncates <==> (r.uncommitted > 0 || r.tornFrames > 0))
  {
    var m := x.manifest.value;
    var marker := Max(s.Chosen().committedSeq, m.snapshotSeq);
    ReplayOfCoveringLog(l.recs, hist, m.snapshotSeq, marker);
    assert hist[..m.snapshotSeq] + hist[m.snapshotSeq..marker] == hist[..marker];
  }

  /**
   Conversely an image whose log agrees with the history opens only if the
   frames between its snapshot and its marker are all there: nothing
   acknowledged is ever silently dropped.
   */
  lemma OpensOnlyIfCovered(x: Dir, s: Slots, l: Log, hist: seq<Batch>)
    requires RootOk(x, hist) && SlotsOk(s) && LogOk(l, hist)
    requires s.Chosen().committedSeq <= |hist|
    ensures var m := x.manifest.value;
      var c := s.Chosen().committedSeq;
      Recover(x, s, l).Ok? <==> (m.highSeq <= Max(c, m.snapshotSeq) && Covers(l.recs, m.snapshotSeq, c))
  {
    var m := x.manifest.value;
    var marker := Max(s.Chosen().committedSeq, m.snapshotSeq);
    if Recover(x, s, l).Ok? {
      ReplayReachesAll(l.recs, m.snapshotSeq, marker);
    } else if m.highSeq <= marker && Covers(l.recs, m.snapshotSeq, s.Chosen().committedSeq) {
      RecoverableOpens(x, s, l, hist, 0);
      assert false;
    }
  }

  /** A replay that reaches `lastApplied` has met every frame on the way. */
  lemma {:induction false} ReplayReachesAll(recs: seq<WalRecord>, snapshotSeq: nat, marker: nat)
    requires Replay(recs, snapshotSeq, marker).Ok?
    ensures Covers(recs, snapshotSeq, Replay(recs, snapshotSeq, marker).value.lastApplied)
  {
    if recs != [] {
      var n := |recs| - 1;
      ReplayReachesAll(recs[..n], snapshotSeq, marker);
      var last := Replay(recs, snapshotSeq, marker).value.lastApplied;
      var prev := Replay(recs[..n], snapshotSeq, marker).value.lastApplied;
      forall q | snapshotSeq < q <= last
        ensures HasSeq(recs, q)
      {
        if q <= prev {
          assert HasSeq(recs[..n], q);
          var i :| 0 <= i < n && recs[..n][i].seqNo == q;
          assert recs[i].seqNo == q;
        } else {
          assert recs[n].seqNo == q;
        }
      }
    }
  }
}
