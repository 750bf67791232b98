/**
 Runs of the commit protocol together with the graphs their batches make: which
 graph each snapshot file holds, and which base and overlay the process reads. What
 a power cut leaves is the graph that was shown, not only the batches.
 */
module GraphRuns {
  import opened Types
  import opened Seqs
  import opened Disk
  import opened Recovery
  import opened Protocol
  import opened Safety
  import opened Runs
  import opened Graphs
  import opened DeltaModel
  import opened Compaction

  // ---------------------------------------------------------------------
  // The same graph, but for ranks
  // ---------------------------------------------------------------------

  lemma SameRefl(a: Graph)
    ensures SameGraph(a, a)
  {
  }

  lemma SameSym(a: Graph, b: Graph)
    requires SameGraph(a, b)
    ensures SameGraph(b, a)
  {
    forall n | n in b.nodes ensures a.nodes[n] == b.nodes[n].(pagerankWeight := a.nodes[n].pagerankWeight) {
      assert n in a.nodes.Keys;
    }
  }

  lemma SameTrans(a: Graph, b: Graph, c: Graph)
    requires SameGraph(a, b) && SameGraph(b, c)
    ensures SameGraph(a, c)
  {
    forall n | n in a.nodes ensures c.nodes[n] == a.nodes[n].(pagerankWeight := c.nodes[n].pagerankWeight) {
      assert n in b.nodes.Keys && n in c.nodes.Keys;
    }
  }

  // ---------------------------------------------------------------------
  // The graphs beside a run
  // ---------------------------------------------------------------------

  /** The graph in each snapshot file of one version of the directory. */
  type Stored = map<SnapName, Graph>

  /** A graph handed to readers under its identity. */
  datatype Shown = Shown(epoch: nat, seqNo: nat, graph: Graph)

  /**
   `stored` goes version by version with the directory. `base` and `overlay` are what
   the store reads, open or being opened; `timeline[n]` is the graph the first n batches of the
   timeline made.
   */
  datatype Shadow = Shadow(
    stored: Volatile<Stored>,
    base: Graph,
    overlay: Delta,
    timeline: seq<Graph>,
    shown: set<Shown>)

  /** An action, with the version of the directory a power cut leaves and the graph a fold writes. */
  datatype GraphAction = GraphAction(a: Action, at: nat, folded: Graph)

  /** Every MANIFEST that may survive names this snapshot. */
  ghost predicate RootsName(d: Volatile<Dir>, file: SnapName) {
    forall x :: DirImage(d, x) && x.manifest.Some? ==> x.manifest.value.file == file
  }

  /**
   The code writes the fold of what it reads, makes a MANIFEST name the fold it has
   just written, and appends only on top of the snapshot that every surviving MANIFEST
   names: no compaction has failed between its MANIFEST and its own switch to the fold.
   */
  ghost predicate Possible(s: State, g: Shadow, t: GraphAction) {
    && Enabled(s, t.a)
    && match t.a
       case Crash(x, _, _) => t.at <= |s.files.dir.pending| && x == s.files.dir.At(t.at)
       case RenameSnapshot => SameGraph(Merged(g.base, g.overlay), t.folded)
       case RenameRoot =>
         && CompactedName(s.proc.w) in g.stored.durable
         && SameGraph(Merged(g.base, g.overlay), g.stored.durable[CompactedName(s.proc.w)])
       case Append(_) => RootsName(s.files.dir, s.proc.w.file)
       case _ => true
  }

  function Held(stored: Stored, name: SnapName, default: Graph): Graph {
    if name in stored then stored[name] else default
  }

  /** What the action does to the graphs. The switch to the fold is counted with the switch of the pointer, Adopt. */
  ghost function Carry(s: State, g: Shadow, t: GraphAction): Shadow
    requires Enabled(s, t.a)
  {
    var v := g.stored;
    match t.a
    case Writeback(f) => if f == Directory then g.(stored := v.Sync()) else g
    case Crash(_, _, _) => g.(stored := Volatile(if t.at <= |v.pending| then v.At(t.at) else v.Live(), []))
    case RenameSnapshot => g.(stored := v.Write(v.Live()[CompactedName(s.proc.w) := t.folded]))
    case RenameRoot => g.(stored := v.Write(v.Live()))
    case CloseRename(_) => g.(stored := v.Write(v.Live()))
    case OpenRenameRoot => g.(stored := v.Write(v.Live()))
    case Delete(name) => g.(stored := v.Write(v.Live() - {name}))
    case OpenDelete(name) => g.(stored := v.Write(v.Live() - {name}))
    case Append(b) => g.(timeline := g.timeline + [Merged(g.base, ApplyOps(g.overlay, b))])
    case Publish =>
      var overlay := ApplyOps(g.overlay, s.hist[|s.hist| - 1]);
      g.(overlay := overlay, shown := g.shown + {Shown(s.proc.w.epoch, |s.hist|, Merged(g.base, overlay))})
    case Adopt =>
      var folded := Held(v.durable, CompactedName(s.proc.w), g.base);
      g.(base := folded, overlay := DeltaModel.EMPTY, shown := g.shown + {Shown(s.proc.w.epoch, s.proc.w.seqNo, folded)})
    case Open =>
      var r := Recover(s.files.dir.durable, s.files.commit.durable, s.files.wal.durable).value;
      g.(base := Held(v.durable, r.m.file, g.base), overlay := ApplyAll(DeltaModel.EMPTY, r.delta))
    case OpenPublish =>
      var n := s.proc.r.marker;
      g.(timeline := if n < |g.timeline| then g.timeline[..n + 1] else g.timeline,
         shown := g.shown + {Shown(s.proc.epoch.value, n, Merged(g.base, g.overlay))})
    case _ => g
  }

  // ---------------------------------------------------------------------
  // The invariant
  // ---------------------------------------------------------------------

  /** The graph of a root with later batches replayed on top. */
  function LineAt(root: Graph, batches: seq<Batch>): Graph { Merged(root, ApplyAll(DeltaModel.EMPTY, batches)) }

  /** Replaying the history from `from` on top of `root` gives, at each seq, the graph of the timeline. Looked into only by hand. */
  ghost predicate Tells(root: Graph, from: nat, hist: seq<Batch>, timeline: seq<Graph>) {
    && from <= |hist| && |timeline| == |hist| + 1
    && forall i {:trigger Sealed(i)} :: Sealed(i) ==>
        forall q {:trigger timeline[q]} :: from <= q <= |hist| ==> SameGraph(timeline[q], LineAt(root, hist[from..q]))
  }

  lemma TellsAt(root: Graph, from: nat, hist: seq<Batch>, timeline: seq<Graph>, q: nat)
    requires Tells(root, from, hist, timeline) && from <= q <= |hist|
    ensures SameGraph(timeline[q], LineAt(root, hist[from..q]))
  {
    assert Sealed(0);
  }

  /** So does the snapshot that the MANIFEST names. */
  ghost predicate RootTells(x: Dir, stored: Stored, hist: seq<Batch>, timeline: seq<Graph>) {
    x.manifest.Some? ==>
      var m := x.manifest.value;
      m.file in stored && m.file.cid == m.cid && Tells(stored[m.file], m.snapshotSeq, hist, timeline)
  }

  ghost predicate RootsTell(d: Volatile<Dir>, v: Volatile<Stored>, hist: seq<Batch>, timeline: seq<Graph>) {
    && |v.pending| == |d.pending|
    && forall i {:trigger Sealed(i)} :: Sealed(i) ==>
        forall j: nat {:trigger d.At(j)} :: j <= |d.pending| ==> RootTells(d.At(j), v.At(j), hist, timeline)
  }

  lemma RootAt(d: Volatile<Dir>, v: Volatile<Stored>, hist: seq<Batch>, timeline: seq<Graph>, j: nat)
    requires RootsTell(d, v, hist, timeline) && j <= |d.pending|
    ensures RootTells(d.At(j), v.At(j), hist, timeline)
  {
    assert Sealed(0);
  }

  /** Everything shown in epoch e lies on the timeline, up to n. */
  ghost predicate ShownOn(shown: set<Shown>, e: nat, n: nat, timeline: seq<Graph>) {
    forall p :: p in shown && p.epoch == e ==> p.seqNo <= n && p.seqNo < |timeline| && SameGraph(timeline[p.seqNo], p.graph)
  }

  /** One epoch never shows two graphs under one seq. */
  ghost predicate ShownOk(shown: set<Shown>, epochs: set<nat>) {
    && (forall p :: p in shown ==> p.epoch in epochs)
    && (forall p, q :: p in shown && q in shown && p.epoch == q.epoch && p.seqNo == q.seqNo ==> SameGraph(p.graph, q.graph))
  }

  /** A MANIFEST that says "closed cleanly" has everything its epoch showed on the timeline. */
  ghost predicate CleanShown(d: Volatile<Dir>, shown: set<Shown>, n: nat, timeline: seq<Graph>) {
    forall x :: DirImage(d, x) && x.manifest.Some? && x.manifest.value.clean ==>
      ShownOn(shown, x.manifest.value.epoch, n, timeline)
  }

  /** The writer's own snapshot is in every version of the directory, and is the base. */
  ghost predicate BaseKept(v: Volatile<Stored>, file: SnapName, base: Graph) {
    forall i {:trigger Sealed(i)} :: Sealed(i) ==>
      forall j: nat {:trigger v.At(j)} :: j <= |v.pending| ==> file in v.At(j) && v.At(j)[file] == base
  }

  lemma BaseAt(v: Volatile<Stored>, file: SnapName, base: Graph, j: nat)
    requires BaseKept(v, file, base) && j <= |v.pending|
    ensures file in v.At(j) && v.At(j)[file] == base
  {
    assert Sealed(0);
  }

  /** The overlay holds the batches after `from` up to `to`. Looked into only by hand. */
  ghost predicate Replays(overlay: Delta, hist: seq<Batch>, from: nat, to: nat) {
    && from <= to <= |hist|
    && forall i {:trigger Sealed(i)} :: Sealed(i) ==> overlay == ApplyAll(DeltaModel.EMPTY, hist[from..to])
  }

  lemma ReplaysCut(overlay: Delta, hist: seq<Batch>, from: nat, n: nat)
    requires Replays(overlay, hist, from, n)
    ensures Replays(overlay, hist[..n], from, n)
  {
    assert hist[..n][from..n] == hist[from..n];
  }

  lemma ReplaysGrown(overlay: Delta, hist: seq<Batch>, from: nat, n: nat, b: Batch)
    requires Replays(overlay, hist, from, n)
    ensures Replays(overlay, hist + [b], from, n)
  {
    assert (hist + [b])[from..n] == hist[from..n];
  }

  lemma ReplaysNothing(hist: seq<Batch>, n: nat)
    requires n <= |hist|
    ensures Replays(DeltaModel.EMPTY, hist, n, n)
  {
    assert hist[n..n] == [];
  }

  lemma ReplaysNext(overlay: Delta, hist: seq<Batch>, from: nat)
    requires hist != [] && Replays(overlay, hist, from, |hist| - 1)
    ensures Replays(ApplyOps(overlay, hist[|hist| - 1]), hist, from, |hist|)
  {
    assert hist[from..|hist|] == hist[from..|hist| - 1] + [hist[|hist| - 1]];
    ApplyAllSnoc(DeltaModel.EMPTY, hist[from..|hist| - 1], hist[|hist| - 1]);
  }

  /** Where the overlay ends, root and overlay make the graph of the timeline. */
  lemma TellsOverlaid(root: Graph, overlay: Delta, from: nat, to: nat, hist: seq<Batch>, timeline: seq<Graph>)
    requires Tells(root, from, hist, timeline) && Replays(overlay, hist, from, to)
    ensures SameGraph(timeline[to], Merged(root, overlay))
  {
    assert Sealed(0);
  }

  ghost predicate WriterTells(hist: seq<Batch>, g: Shadow, w: Writer) {
    && w.file.cid == w.cid
    && w.snapshotSeq <= w.seqNo <= |hist|
    && BaseKept(g.stored, w.file, g.base)
    && Replays(g.overlay, hist, w.snapshotSeq, w.seqNo)
    && Tells(g.base, w.snapshotSeq, hist, g.timeline)
    && ShownOn(g.shown, w.epoch, w.seqNo, g.timeline)
  }

  ghost predicate OpeningTells(hist: seq<Batch>, g: Shadow, r: Recovered, epoch: Option<nat>) {
    && r.m.file.cid == r.m.cid
    && BaseKept(g.stored, r.m.file, g.base)
    && Tells(g.base, r.m.snapshotSeq, hist, g.timeline)
    && r.m.snapshotSeq <= r.marker <= |hist|
    && Replays(g.overlay, hist, r.m.snapshotSeq, r.marker)
    && (r.m.clean ==> ShownOn(g.shown, r.m.epoch, |hist|, g.timeline))
    && (epoch.Some? ==> ShownOn(g.shown, epoch.value, r.marker, g.timeline))
  }

  ghost predicate ProcTells(s: State, g: Shadow) {
    match s.proc
    case Up(w) => WriterTells(s.hist, g, w)
    case Opening(r, epoch, _, _) => OpeningTells(s.hist, g, r, epoch)
    case _ => true
  }

  ghost predicate GraphInv(s: State, g: Shadow) {
    && |g.timeline| == |s.hist| + 1
    && RootsTell(s.files.dir, g.stored, s.hist, g.timeline)
    && ShownOk(g.shown, s.epochs)
    && CleanShown(s.files.dir, g.shown, |s.hist|, g.timeline)
    && ProcTells(s, g)
  }

  // ---------------------------------------------------------------------
  // Each action keeps it
  // ---------------------------------------------------------------------

  /** Actions that touch neither directory, history nor graphs, and none of the writer's pointers. */
  predicate Quiet(a: Action) {
    || (a.Writeback? && a.f != Directory) || a.Die? || a.TmpWrite? || a.TmpSync? || a.MarkerWrite? || a.MarkerAck? || a.Poison?
    || a.CloseEnd? || a.OpenTruncate? || a.OpenMarkerWrite? || a.OpenMarkerAck?
  }

  lemma KeepsQuiet(s: State, g: Shadow, t: GraphAction)
    requires GraphInv(s, g) && Possible(s, g, t) && Quiet(t.a)
    ensures GraphInv(Do(s, t.a), Carry(s, g, t))
  {
    var u := Do(s, t.a);
    assert u.files.dir == s.files.dir && u.hist == s.hist && u.epochs == s.epochs && Carry(s, g, t) == g;
  }

  lemma RootsSync(d: Volatile<Dir>, v: Volatile<Stored>, hist: seq<Batch>, timeline: seq<Graph>)
    requires RootsTell(d, v, hist, timeline)
    ensures RootsTell(d.Sync(), v.Sync(), hist, timeline)
  {
    assert d.At(|d.pending|) == d.Live() && v.At(|v.pending|) == v.Live();
    RootAt(d, v, hist, timeline, |d.pending|);
  }

  lemma BaseSync(v: Volatile<Stored>, file: SnapName, base: Graph)
    requires BaseKept(v, file, base)
    ensures BaseKept(v.Sync(), file, base)
  {
    assert v.At(|v.pending|) == v.Live();
    BaseAt(v, file, base, |v.pending|);
  }

  lemma CleanFewer(d: Volatile<Dir>, e: Volatile<Dir>, shown: set<Shown>, n: nat, timeline: seq<Graph>)
    requires CleanShown(d, shown, n, timeline) && forall x :: DirImage(e, x) ==> DirImage(d, x)
    ensures CleanShown(e, shown, n, timeline)
  {
  }

  lemma CleanWrite(d: Volatile<Dir>, x: Dir, shown: set<Shown>, n: nat, timeline: seq<Graph>)
    requires CleanShown(d, shown, n, timeline)
    requires x.manifest.Some? && x.manifest.value.clean ==> ShownOn(shown, x.manifest.value.epoch, n, timeline)
    ensures CleanShown(d.Write(x), shown, n, timeline)
  {
    forall y | DirImage(d.Write(x), y) && y.manifest.Some? && y.manifest.value.clean
      ensures ShownOn(shown, y.manifest.value.epoch, n, timeline)
    {
      DirImageWrite(d, x, y);
    }
  }

  lemma KeepsDirSync(s: State, g: Shadow, t: GraphAction)
    requires GraphInv(s, g) && Possible(s, g, t) && t.a == Writeback(Directory)
    ensures GraphInv(Do(s, t.a), Carry(s, g, t))
  {
    var u, h := Do(s, t.a), Carry(s, g, t);
    RootsSync(s.files.dir, g.stored, s.hist, g.timeline);
    forall x | DirImage(u.files.dir, x) ensures DirImage(s.files.dir, x) { DirImageSync(s.files.dir, x); }
    CleanFewer(s.files.dir, u.files.dir, g.shown, |s.hist|, g.timeline);
    if s.proc.Up? {
      BaseSync(g.stored, s.proc.w.file, g.base);
    }
    if s.proc.Opening? {
      BaseSync(g.stored, s.proc.r.m.file, g.base);
    }
  }

  lemma KeepsGraphCrash(s: State, g: Shadow, t: GraphAction)
    requires GraphInv(s, g) && Possible(s, g, t) && t.a.Crash?
    ensures GraphInv(Do(s, t.a), Carry(s, g, t))
  {
    var u, h := Do(s, t.a), Carry(s, g, t);
    RootAt(s.files.dir, g.stored, s.hist, g.timeline, t.at);
    assert u.files.dir.pending == [] && h.stored.pending == [];
    forall x | DirImage(u.files.dir, x) ensures DirImage(s.files.dir, x) { }
    CleanFewer(s.files.dir, u.files.dir, g.shown, |s.hist|, g.timeline);
  }

  lemma RootsWrite(d: Volatile<Dir>, v: Volatile<Stored>, x: Dir, stored: Stored, hist: seq<Batch>, timeline: seq<Graph>)
    requires RootsTell(d, v, hist, timeline) && RootTells(x, stored, hist, timeline)
    ensures RootsTell(d.Write(x), v.Write(stored), hist, timeline)
  {
    var e, w := d.Write(x), v.Write(stored);
    forall j: nat | j <= |e.pending| ensures RootTells(e.At(j), w.At(j), hist, timeline) {
      if j <= |d.pending| {
        assert e.At(j) == d.At(j) && w.At(j) == v.At(j);
        RootAt(d, v, hist, timeline, j);
      }
    }
  }

  lemma BaseWrite(v: Volatile<Stored>, stored: Stored, file: SnapName, base: Graph)
    requires BaseKept(v, file, base) && file in stored && stored[file] == base
    ensures BaseKept(v.Write(stored), file, base)
  {
    var w := v.Write(stored);
    forall j: nat | j <= |w.pending| ensures file in w.At(j) && w.At(j)[file] == base {
      if j <= |v.pending| {
        assert w.At(j) == v.At(j);
        BaseAt(v, file, base, j);
      }
    }
  }

  /** A new version of the directory that tells the timeline too, and in which the snapshot in use stays. */
  ghost predicate GoodVersion(s: State, g: Shadow, x: Dir, stored: Stored) {
    && RootTells(x, stored, s.hist, g.timeline)
    && (x.manifest.Some? && x.manifest.value.clean ==> ShownOn(g.shown, x.manifest.value.epoch, |s.hist|, g.timeline))
    && (s.proc.Up? ==> s.proc.w.file in stored && stored[s.proc.w.file] == g.base)
    && (s.proc.Opening? ==> s.proc.r.m.file in stored && stored[s.proc.r.m.file] == g.base)
  }

  lemma VersionWritten(s: State, g: Shadow, x: Dir, stored: Stored, u: State, h: Shadow)
    requires GraphInv(s, g) && GoodVersion(s, g, x, stored)
    requires u.files.dir == s.files.dir.Write(x) && h == g.(stored := g.stored.Write(stored))
    requires u.hist == s.hist && u.epochs == s.epochs && (u.proc == s.proc || u.proc == Closing)
    ensures GraphInv(u, h)
  {
    RootsWrite(s.files.dir, g.stored, x, stored, s.hist, g.timeline);
    CleanWrite(s.files.dir, x, g.shown, |s.hist|, g.timeline);
    if s.proc.Up? {
      BaseWrite(g.stored, stored, s.proc.w.file, g.base);
    }
    if s.proc.Opening? {
      BaseWrite(g.stored, stored, s.proc.r.m.file, g.base);
    }
  }

  /** What the live version of the directory says. */
  lemma LiveTells(s: State, g: Shadow)
    requires Inv(s) && GraphInv(s, g)
    ensures GoodVersion(s, g, s.files.dir.Live(), g.stored.Live())
    ensures s.files.dir.Live().manifest.Some?
    ensures s.files.dir.Live().manifest.value.file.seqNo == s.files.dir.Live().manifest.value.snapshotSeq
  {
    var d, v := s.files.dir, g.stored;
    assert d.At(|d.pending|) == d.Live() && v.At(|v.pending|) == v.Live();
    RootAt(d, v, s.hist, g.timeline, |d.pending|);
    if s.proc.Up? { BaseAt(v, s.proc.w.file, g.base, |v.pending|); }
    if s.proc.Opening? { BaseAt(v, s.proc.r.m.file, g.base, |v.pending|); }
    LiveImages(s.files);
    assert Recoverable(d.Live(), s.files.commit.Live(), s.files.wal.Live(), s.hist, s.acked);
  }

  /** The graph of the timeline at the writer's seq is the one it reads. */
  lemma WriterAtSeq(hist: seq<Batch>, g: Shadow, w: Writer)
    requires WriterTells(hist, g, w)
    ensures w.seqNo < |g.timeline| && SameGraph(g.timeline[w.seqNo], Merged(g.base, g.overlay))
  {
    TellsOverlaid(g.base, g.overlay, w.snapshotSeq, w.seqNo, hist, g.timeline);
  }

  /** A root written at the end of the timeline tells it. */
  lemma TellsAtEnd(root: Graph, hist: seq<Batch>, timeline: seq<Graph>)
    requires |timeline| == |hist| + 1 && SameGraph(timeline[|hist|], root)
    ensures Tells(root, |hist|, hist, timeline)
  {
    FreshOverlayIsBase(root);
    forall q | |hist| <= q <= |hist| ensures SameGraph(timeline[q], LineAt(root, hist[|hist|..q])) {
      assert hist[|hist|..q] == [];
    }
  }

  /** A fold of what the writer reads tells the timeline from the writer's seq on. */
  lemma FoldTells(hist: seq<Batch>, g: Shadow, w: Writer, folded: Graph)
    requires WriterTells(hist, g, w) && w.seqNo == |hist| && SameGraph(Merged(g.base, g.overlay), folded)
    ensures Tells(folded, w.seqNo, hist, g.timeline)
  {
    WriterAtSeq(hist, g, w);
    SameTrans(g.timeline[w.seqNo], Merged(g.base, g.overlay), folded);
    TellsAtEnd(folded, hist, g.timeline);
  }

  lemma KeepsRenameSnapshotGraph(s: State, g: Shadow, t: GraphAction)
    requires Inv(s) && GraphInv(s, g) && Possible(s, g, t) && t.a.RenameSnapshot?
    ensures GraphInv(Do(s, t.a), Carry(s, g, t))
  {
    var u, h := Do(s, t.a), Carry(s, g, t);
    LiveTells(s, g);
    FoldTells(s.hist, g, s.proc.w, t.folded);
    VersionWritten(s, g, u.files.dir.Live(), h.stored.Live(), u, h);
  }

  lemma KeepsRenameRootGraph(s: State, g: Shadow, t: GraphAction)
    requires Inv(s) && GraphInv(s, g) && Possible(s, g, t) && t.a.RenameRoot?
    ensures GraphInv(Do(s, t.a), Carry(s, g, t))
  {
    var u, h := Do(s, t.a), Carry(s, g, t);
    LiveTells(s, g);
    FoldTells(s.hist, g, s.proc.w, h.stored.Live()[CompactedName(s.proc.w)]);
    VersionWritten(s, g, u.files.dir.Live(), h.stored.Live(), u, h);
  }

  lemma KeepsCloseGraph(s: State, g: Shadow, t: GraphAction)
    requires Inv(s) && GraphInv(s, g) && Possible(s, g, t) && t.a.CloseRename?
    ensures GraphInv(Do(s, t.a), Carry(s, g, t))
  {
    var u, h := Do(s, t.a), Carry(s, g, t);
    LiveTells(s, g);
    VersionWritten(s, g, u.files.dir.Live(), h.stored.Live(), u, h);
  }

  lemma KeepsOpenRenameGraph(s: State, g: Shadow, t: GraphAction)
    requires Inv(s) && GraphInv(s, g) && Possible(s, g, t) && t.a.OpenRenameRoot?
    ensures GraphInv(Do(s, t.a), Carry(s, g, t))
  {
    var u, h := Do(s, t.a), Carry(s, g, t);
    LiveTells(s, g);
    VersionWritten(s, g, u.files.dir.Live(), h.stored.Live(), u, h);
  }

  /** Only files that the live MANIFEST does not name are removed. */
  lemma KeepsDeleteGraph(s: State, g: Shadow, t: GraphAction)
    requires Inv(s) && GraphInv(s, g) && Possible(s, g, t) && (t.a.Delete? || t.a.OpenDelete?)
    ensures GraphInv(Do(s, t.a), Carry(s, g, t))
  {
    var u, h := Do(s, t.a), Carry(s, g, t);
    LiveTells(s, g);
    LiveImages(s.files);
    RootIsEverywhere(s.files.dir,
      if t.a.Delete? then s.files.dir.durable.manifest.value else ReopenedRoot(s.proc.r, s.proc.epoch.value), s.files.dir.Live());
    VersionWritten(s, g, u.files.dir.Live(), h.stored.Live(), u, h);
  }

  // ---- the timeline grows ----

  /** One more batch on a root that tells the timeline. */
  lemma TellsOneMore(root: Graph, overlay: Delta, from: nat, hist: seq<Batch>, timeline: seq<Graph>, b: Batch)
    requires Tells(root, from, hist, timeline) && Replays(overlay, hist, from, |hist|)
    ensures Tells(root, from, hist + [b], timeline + [Merged(root, ApplyOps(overlay, b))])
  {
    var more, next := hist + [b], timeline + [Merged(root, ApplyOps(overlay, b))];
    forall q | from <= q <= |more| ensures SameGraph(next[q], LineAt(root, more[from..q])) {
      if q < |more| {
        assert more[from..q] == hist[from..q] && next[q] == timeline[q];
        TellsAt(root, from, hist, timeline, q);
      } else {
        assert Sealed(0);
        assert more[from..q] == hist[from..|hist|] + [b];
        ApplyAllSnoc(DeltaModel.EMPTY, hist[from..|hist|], b);
        SameRefl(next[q]);
      }
    }
  }

  lemma ShownLater(shown: set<Shown>, e: nat, n: nat, timeline: seq<Graph>, next: Graph)
    requires ShownOn(shown, e, n, timeline)
    ensures ShownOn(shown, e, n, timeline + [next])
  {
  }

  lemma KeepsAppendGraph(s: State, g: Shadow, t: GraphAction)
    requires Inv(s) && GraphInv(s, g) && Possible(s, g, t) && t.a.Append?
    ensures GraphInv(Do(s, t.a), Carry(s, g, t))
  {
    var u, h, w := Do(s, t.a), Carry(s, g, t), s.proc.w;
    var next := Merged(g.base, ApplyOps(g.overlay, t.a.b));
    TellsOneMore(g.base, g.overlay, w.snapshotSeq, s.hist, g.timeline, t.a.b);
    forall j: nat | j <= |u.files.dir.pending| ensures RootTells(u.files.dir.At(j), h.stored.At(j), u.hist, h.timeline) {
      RootOfWriter(s, g, w, j);
    }
    ShownLater(g.shown, w.epoch, w.seqNo, g.timeline, next);
    ReplaysGrown(g.overlay, s.hist, w.snapshotSeq, w.seqNo, t.a.b);
  }

  /** While every MANIFEST names the writer's snapshot, every version's root is the writer's base. */
  lemma RootOfWriter(s: State, g: Shadow, w: Writer, j: nat)
    requires Inv(s) && GraphInv(s, g) && s.proc == Up(w) && RootsName(s.files.dir, w.file) && j <= |s.files.dir.pending|
    ensures s.files.dir.At(j).manifest.Some? ==>
      var m := s.files.dir.At(j).manifest.value;
      && m.file == w.file && m.snapshotSeq == w.snapshotSeq && m.file in g.stored.At(j) && g.stored.At(j)[m.file] == g.base
      && m.file.cid == m.cid
  {
    var x := s.files.dir.At(j);
    assert DirImage(s.files.dir, x);
    LiveImages(s.files);
    assert Recoverable(x, s.files.commit.Live(), s.files.wal.Live(), s.hist, s.acked);
    RootAt(s.files.dir, g.stored, s.hist, g.timeline, j);
    BaseAt(g.stored, w.file, g.base, j);
  }

  // ---- graphs are shown ----

  /** One more graph, of the timeline, at a seq not before the last one shown in its epoch. */
  lemma ShowOne(shown: set<Shown>, epochs: set<nat>, e: nat, n: nat, m: nat, timeline: seq<Graph>, graph: Graph)
    requires ShownOk(shown, epochs) && e in epochs && ShownOn(shown, e, n, timeline)
    requires n <= m < |timeline| && SameGraph(timeline[m], graph)
    ensures ShownOk(shown + {Shown(e, m, graph)}, epochs) && ShownOn(shown + {Shown(e, m, graph)}, e, m, timeline)
  {
    var more := shown + {Shown(e, m, graph)};
    SameRefl(graph);
    forall p | p in shown && p.epoch == e && p.seqNo == m ensures SameGraph(p.graph, graph) && SameGraph(graph, p.graph) {
      SameSym(timeline[m], p.graph);
      SameTrans(p.graph, timeline[m], graph);
      SameSym(p.graph, graph);
    }
  }

  lemma CleanGone(d: Volatile<Dir>, shown: set<Shown>, n: nat, timeline: seq<Graph>)
    requires NoClean(d)
    ensures CleanShown(d, shown, n, timeline)
  {
  }

  lemma KeepsPublishGraph(s: State, g: Shadow, t: GraphAction)
    requires Inv(s) && GraphInv(s, g) && Possible(s, g, t) && t.a.Publish?
    ensures GraphInv(Do(s, t.a), Carry(s, g, t))
  {
    var u, h, w := Do(s, t.a), Carry(s, g, t), s.proc.w;
    var n := |s.hist|;
    ReplaysNext(g.overlay, s.hist, w.snapshotSeq);
    TellsOverlaid(g.base, h.overlay, w.snapshotSeq, n, s.hist, g.timeline);
    ShowOne(g.shown, s.epochs, w.epoch, w.seqNo, n, g.timeline, Merged(g.base, h.overlay));
    CleanGone(u.files.dir, h.shown, |u.hist|, h.timeline);
  }

  lemma KeepsAdoptGraph(s: State, g: Shadow, t: GraphAction)
    requires Inv(s) && GraphInv(s, g) && Possible(s, g, t) && t.a.Adopt?
    ensures GraphInv(Do(s, t.a), Carry(s, g, t))
  {
    var u, h, w := Do(s, t.a), Carry(s, g, t), s.proc.w;
    var name := CompactedName(w);
    LiveTells(s, g);
    assert s.files.dir.Live() == s.files.dir.durable && g.stored.Live() == g.stored.durable;
    assert h.base == g.stored.durable[name];
    FreshOverlayIsBase(h.base);
    ReplaysNothing(s.hist, w.seqNo);
    TellsOverlaid(h.base, DeltaModel.EMPTY, w.seqNo, w.seqNo, s.hist, g.timeline);
    ShowOne(g.shown, s.epochs, w.epoch, w.seqNo, w.seqNo, g.timeline, h.base);
    CleanGone(u.files.dir, h.shown, |u.hist|, h.timeline);
  }

  // ---- recovery ----

  lemma KeepsOpenGraph(s: State, g: Shadow, t: GraphAction)
    requires Inv(s) && GraphInv(s, g) && Possible(s, g, t) && t.a.Open?
    ensures GraphInv(Do(s, t.a), Carry(s, g, t))
  {
    var x, k, l := s.files.dir.durable, s.files.commit.durable, s.files.wal.durable;
    LiveTells(s, g);
    LiveImages(s.files);
    assert x == s.files.dir.Live() && g.stored.durable == g.stored.Live();
    RecoverableOpens(x, k, l, s.hist, s.acked);
    var r := Recover(x, k, l).value;
    ReplayedPart(x, k, l, s.hist, s.acked);
    assert g.stored.pending == [];
  }

  /** The batches recovery replays are those between snapshot and marker. */
  lemma ReplayedPart(x: Dir, k: Slots, l: Log, hist: seq<Batch>, acked: nat)
    requires Recoverable(x, k, l, hist, acked) && Recover(x, k, l).Ok?
    ensures var r := Recover(x, k, l).value;
      && r.m == x.manifest.value && r.m.snapshotSeq <= r.marker <= |hist|
      && r.delta == hist[r.m.snapshotSeq..r.marker]
  {
    RecoverableOpens(x, k, l, hist, acked);
    var r := Recover(x, k, l).value;
    assert r.base == hist[..r.m.snapshotSeq];
    assert r.delta == (r.base + r.delta)[|r.base|..];
    assert hist[..r.marker][r.m.snapshotSeq..] == hist[r.m.snapshotSeq..r.marker];
  }

  lemma KeepsEpochGraph(s: State, g: Shadow, t: GraphAction)
    requires Inv(s) && GraphInv(s, g) && Possible(s, g, t) && (t.a.OpenMint? || t.a.OpenKeepEpoch?)
    ensures GraphInv(Do(s, t.a), Carry(s, g, t))
  {
  }

  /** A timeline cut back to n is still told. */
  lemma TellsCut(root: Graph, from: nat, hist: seq<Batch>, timeline: seq<Graph>, n: nat)
    requires Tells(root, from, hist, timeline) && from <= n <= |hist|
    ensures Tells(root, from, hist[..n], timeline[..n + 1])
  {
    var less, cut := hist[..n], timeline[..n + 1];
    forall q | from <= q <= n ensures SameGraph(cut[q], LineAt(root, less[from..q])) {
      assert less[from..q] == hist[from..q] && cut[q] == timeline[q];
      TellsAt(root, from, hist, timeline, q);
    }
  }

  lemma RootsCut(d: Volatile<Dir>, v: Volatile<Stored>, hist: seq<Batch>, timeline: seq<Graph>, n: nat)
    requires RootsTell(d, v, hist, timeline) && n <= |hist| && |timeline| == |hist| + 1
    requires forall x :: DirImage(d, x) && x.manifest.Some? ==> x.manifest.value.snapshotSeq <= n
    ensures RootsTell(d, v, hist[..n], timeline[..n + 1])
  {
    forall j: nat | j <= |d.pending| ensures RootTells(d.At(j), v.At(j), hist[..n], timeline[..n + 1]) {
      assert DirImage(d, d.At(j));
      RootAt(d, v, hist, timeline, j);
      if d.At(j).manifest.Some? {
        var m := d.At(j).manifest.value;
        TellsCut(v.At(j)[m.file], m.snapshotSeq, hist, timeline, n);
      }
    }
  }

  lemma ShownCut(shown: set<Shown>, e: nat, n: nat, timeline: seq<Graph>)
    requires ShownOn(shown, e, n, timeline) && n < |timeline|
    ensures ShownOn(shown, e, n, timeline[..n + 1])
  {
  }

  /** What recovery shows is the graph of the timeline at its marker. */
  lemma OpenedShown(hist: seq<Batch>, g: Shadow, r: Recovered, e: nat, epochs: set<nat>)
    requires OpeningTells(hist, g, r, Some(e)) && e in epochs && ShownOk(g.shown, epochs) && |g.timeline| == |hist| + 1
    ensures var n := r.marker;
      var more := g.shown + {Shown(e, n, Merged(g.base, g.overlay))};
      ShownOk(more, epochs) && ShownOn(more, e, n, g.timeline[..n + 1])
  {
    var n := r.marker;
    ShownCut(g.shown, e, n, g.timeline);
    TellsOverlaid(g.base, g.overlay, r.m.snapshotSeq, n, hist, g.timeline);
    ShowOne(g.shown, epochs, e, n, n, g.timeline[..n + 1], Merged(g.base, g.overlay));
  }

  /** Recovery's base and overlay become the writer's. */
  lemma OpenedTells(hist: seq<Batch>, g: Shadow, r: Recovered, e: nat, epochs: set<nat>, commit: Handle)
    requires OpeningTells(hist, g, r, Some(e)) && e in epochs && ShownOk(g.shown, epochs) && |g.timeline| == |hist| + 1
    ensures var n, graph := r.marker, Merged(g.base, g.overlay);
      var h := g.(timeline := g.timeline[..n + 1], shown := g.shown + {Shown(e, n, graph)});
      && WriterTells(hist[..n], h, Writer(n, n, e, hist[..n], r.m.snapshotSeq, r.m.file, r.m.cid, commit, false))
      && ShownOk(h.shown, epochs)
  {
    TellsCut(g.base, r.m.snapshotSeq, hist, g.timeline, r.marker);
    OpenedShown(hist, g, r, e, epochs);
    ReplaysCut(g.overlay, hist, r.m.snapshotSeq, r.marker);
  }

  lemma OneRootLeft(s: State)
    requires Enabled(s, OpenPublish)
    ensures NoClean(s.files.dir)
    ensures forall x :: DirImage(s.files.dir, x) && x.manifest.Some? ==> x.manifest.value.snapshotSeq == s.proc.r.m.snapshotSeq
  {
    forall x | DirImage(s.files.dir, x) ensures x.manifest == Some(ReopenedRoot(s.proc.r, s.proc.epoch.value)) {
      RootIsEverywhere(s.files.dir, ReopenedRoot(s.proc.r, s.proc.epoch.value), x);
    }
  }

  /** State and graphs once recovery has published at n in epoch e. */
  predicate Opened(s: State, g: Shadow, r: Recovered, e: nat, commit: Handle, u: State, h: Shadow)
    requires r.marker <= |s.hist| < |g.timeline|
  {
    var n := r.marker;
    && u.files == s.files && u.hist == s.hist[..n] && u.epochs == s.epochs
    && u.proc == Up(Writer(n, n, e, s.hist[..n], r.m.snapshotSeq, r.m.file, r.m.cid, commit, false))
    && h == g.(timeline := g.timeline[..n + 1], shown := g.shown + {Shown(e, n, Merged(g.base, g.overlay))})
  }

  lemma OpenedInv(s: State, g: Shadow, r: Recovered, e: nat, commit: Handle, u: State, h: Shadow)
    requires r.marker <= |s.hist| < |g.timeline| && |g.timeline| == |s.hist| + 1 && Opened(s, g, r, e, commit, u, h)
    requires RootsTell(s.files.dir, g.stored, s.hist, g.timeline) && ShownOk(g.shown, s.epochs) && e in s.epochs
    requires OpeningTells(s.hist, g, r, Some(e)) && NoClean(s.files.dir)
    requires forall x :: DirImage(s.files.dir, x) && x.manifest.Some? ==> x.manifest.value.snapshotSeq == r.m.snapshotSeq
    ensures GraphInv(u, h)
  {
    RootsCut(s.files.dir, g.stored, s.hist, g.timeline, r.marker);
    OpenedTells(s.hist, g, r, e, s.epochs, commit);
    Assembled(u, h);
  }

  lemma AfterOpenPublish(s: State, g: Shadow, t: GraphAction)
    requires Enabled(s, t.a) && t.a.OpenPublish? && s.proc.r.marker <= |s.hist| < |g.timeline|
    requires s.proc.r.View() == s.hist[..s.proc.r.marker]
    ensures Opened(s, g, s.proc.r, s.proc.epoch.value, s.proc.handle, Do(s, t.a), Carry(s, g, t))
  {
  }

  lemma KeepsOpenPublishGraph(s: State, g: Shadow, t: GraphAction)
    requires GraphInv(s, g) && Possible(s, g, t) && t.a.OpenPublish?
    requires s.proc.epoch.value in s.epochs && s.proc.r.marker <= |s.hist| && s.proc.r.View() == s.hist[..s.proc.r.marker]
    ensures GraphInv(Do(s, t.a), Carry(s, g, t))
  {
    OneRootLeft(s);
    AfterOpenPublish(s, g, t);
    OpenedInv(s, g, s.proc.r, s.proc.epoch.value, s.proc.handle, Do(s, t.a), Carry(s, g, t));
  }

  lemma Assembled(s: State, g: Shadow)
    requires |g.timeline| == |s.hist| + 1 && RootsTell(s.files.dir, g.stored, s.hist, g.timeline) && ShownOk(g.shown, s.epochs)
    requires NoClean(s.files.dir) && s.proc.Up? && WriterTells(s.hist, g, s.proc.w)
    ensures GraphInv(s, g)
  {
    CleanGone(s.files.dir, g.shown, |s.hist|, g.timeline);
  }

  // ---- all together ----

  predicate ByWriter(a: Action) {
    a.RenameSnapshot? || a.RenameRoot? || a.CloseRename? || a.Delete? || a.Append? || a.Publish? || a.Adopt? || a.Truncate?
  }

  lemma KeepsByWriter(s: State, g: Shadow, t: GraphAction)
    requires Inv(s) && GraphInv(s, g) && Possible(s, g, t) && ByWriter(t.a)
    ensures GraphInv(Do(s, t.a), Carry(s, g, t))
  {
    match t.a {
      case RenameSnapshot => KeepsRenameSnapshotGraph(s, g, t);
      case RenameRoot => KeepsRenameRootGraph(s, g, t);
      case CloseRename(_) => KeepsCloseGraph(s, g, t);
      case Delete(_) => KeepsDeleteGraph(s, g, t);
      case Append(_) => KeepsAppendGraph(s, g, t);
      case Publish => KeepsPublishGraph(s, g, t);
      case Adopt => KeepsAdoptGraph(s, g, t);
      case Truncate => KeepsTruncateGraph(s, g, t);
    }
  }

  lemma KeepsByOthers(s: State, g: Shadow, t: GraphAction)
    requires Inv(s) && GraphInv(s, g) && Possible(s, g, t) && !Quiet(t.a) && !ByWriter(t.a)
    ensures GraphInv(Do(s, t.a), Carry(s, g, t))
  {
    match t.a {
      case Writeback(_) => KeepsDirSync(s, g, t);
      case Crash(_, _, _) => KeepsGraphCrash(s, g, t);
      case OpenRenameRoot => KeepsOpenRenameGraph(s, g, t);
      case OpenDelete(_) => KeepsDeleteGraph(s, g, t);
      case Open => KeepsOpenGraph(s, g, t);
      case OpenMint(_) => KeepsEpochGraph(s, g, t);
      case OpenKeepEpoch => KeepsEpochGraph(s, g, t);
      case OpenPublish => KeepsOpenPublishGraph(s, g, t);
    }
  }

  lemma KeepsGraphInv(s: State, g: Shadow, t: GraphAction)
    requires Inv(s) && GraphInv(s, g) && Possible(s, g, t)
    ensures Inv(Do(s, t.a)) && GraphInv(Do(s, t.a), Carry(s, g, t))
  {
    KeepsInv(s, t.a);
    if Quiet(t.a) {
      KeepsQuiet(s, g, t);
    } else if ByWriter(t.a) {
      KeepsByWriter(s, g, t);
    } else {
      KeepsByOthers(s, g, t);
    }
  }

  lemma KeepsTruncateGraph(s: State, g: Shadow, t: GraphAction)
    requires GraphInv(s, g) && Possible(s, g, t) && t.a.Truncate?
    ensures GraphInv(Do(s, t.a), Carry(s, g, t))
  {
    assert Do(s, t.a).files.dir == s.files.dir && Carry(s, g, t) == g;
  }

  // ---------------------------------------------------------------------
  // Whole runs
  // ---------------------------------------------------------------------

  ghost predicate Follows(s: State, g: Shadow, run: seq<GraphAction>)
    decreases |run|
  {
    run == [] || (Possible(s, g, run[0]) && Follows(Do(s, run[0].a), Carry(s, g, run[0]), run[1..]))
  }

  ghost function Reached(s: State, g: Shadow, run: seq<GraphAction>): (State, Shadow)
    requires Follows(s, g, run)
    decreases |run|
  {
    if run == [] then (s, g) else Reached(Do(s, run[0].a), Carry(s, g, run[0]), run[1..])
  }

  /** A freshly created store over a graph. */
  ghost predicate Created(s: State, g: Shadow) {
    && Initial(s) && s.proc.Up?
    && g == Shadow(Volatile(map[s.proc.w.file := g.base], []), g.base, DeltaModel.EMPTY, [g.base], {Shown(s.proc.w.epoch, 0, g.base)})
  }

  lemma CreatedInv(s: State, g: Shadow)
    requires Created(s, g)
    ensures Inv(s) && GraphInv(s, g)
  {
    InitialInv(s);
    SameRefl(g.base);
    assert s.hist == [] && s.files.dir.pending == [] && g.stored.pending == [];
    TellsAtEnd(g.base, s.hist, g.timeline);
    ReplaysNothing(s.hist, 0);
  }

  lemma {:induction false} RunsKeepGraphInv(s: State, g: Shadow, run: seq<GraphAction>)
    requires Inv(s) && GraphInv(s, g) && Follows(s, g, run)
    ensures var end := Reached(s, g, run); Inv(end.0) && GraphInv(end.0, end.1)
    decreases |run|
  {
    if run != [] {
      KeepsGraphInv(s, g, run[0]);
      RunsKeepGraphInv(Do(s, run[0].a), Carry(s, g, run[0]), run[1..]);
    }
  }

  /** Every state the protocol has published has its graph among those shown. */
  ghost predicate AllShown(s: State, g: Shadow) {
    forall p :: p in s.published ==> exists x :: x in g.shown && x.epoch == p.epoch && x.seqNo == p.seqNo
  }

  lemma StepShowsAll(s: State, g: Shadow, t: GraphAction)
    requires AllShown(s, g) && Enabled(s, t.a)
    ensures AllShown(Do(s, t.a), Carry(s, g, t))
  {
    var u, h := Do(s, t.a), Carry(s, g, t);
    assert g.shown <= h.shown;
    forall p | p in u.published ensures exists x :: x in h.shown && x.epoch == p.epoch && x.seqNo == p.seqNo {
      if p in s.published {
        var x :| x in g.shown && x.epoch == p.epoch && x.seqNo == p.seqNo;
        assert x in h.shown;
      } else if t.a.Publish? {
        assert Shown(p.epoch, p.seqNo, Merged(h.base, h.overlay)) in h.shown;
      } else {
        assert Shown(p.epoch, p.seqNo, Merged(g.base, g.overlay)) in h.shown;
      }
    }
  }

  lemma {:induction false} RunsShowAll(s: State, g: Shadow, run: seq<GraphAction>)
    requires AllShown(s, g) && Follows(s, g, run)
    ensures var end := Reached(s, g, run); AllShown(end.0, end.1)
    decreases |run|
  {
    if run != [] {
      StepShowsAll(s, g, run[0]);
      RunsShowAll(Do(s, run[0].a), Carry(s, g, run[0]), run[1..]);
    }
  }

  /** Its actions alone are a run of the protocol. */
  lemma {:induction false} FollowsIsLegal(s: State, g: Shadow, run: seq<GraphAction>)
    requires Follows(s, g, run)
    ensures Legal(s, Map(run, ActionOf)) && Exec(s, Map(run, ActionOf)) == Reached(s, g, run).0
    decreases |run|
  {
    if run != [] {
      FollowsIsLegal(Do(s, run[0].a), Carry(s, g, run[0]), run[1..]);
      assert Map(run, ActionOf)[1..] == Map(run[1..], ActionOf);
    }
  }

  function ActionOf(t: GraphAction): Action { t.a }

  /** Every published pair (epoch, seq) has a graph, and never two. */
  lemma EpochAndSeqIdentifyGraphs(s0: State, g0: Shadow, run: seq<GraphAction>, p: Shown, q: Shown)
    requires Created(s0, g0) && Follows(s0, g0, run)
    requires p in Reached(s0, g0, run).1.shown && q in Reached(s0, g0, run).1.shown
    requires p.epoch == q.epoch && p.seqNo == q.seqNo
    ensures SameGraph(p.graph, q.graph) && AllShown(Reached(s0, g0, run).0, Reached(s0, g0, run).1)
  {
    CreatedInv(s0, g0);
    RunsKeepGraphInv(s0, g0, run);
    RunsShowAll(s0, g0, run);
  }

  /** What recovery reads from the version `at` of the directory beside a marker and a log that survive. */
  function RecoveredGraph(stored: Stored, r: Recovered): Graph
    requires r.m.file in stored
  {
    LineAt(stored[r.m.file], r.delta)
  }

  /**
   Whenever the power fails, recovery presents the graph that the recovered batches had
   made when they were applied: at its marker, the graph of the timeline.
   */
  lemma CrashRecoversTheGraph(s0: State, g0: Shadow, run: seq<GraphAction>, at: nat, k: Slots, l: Log)
    requires Created(s0, g0) && Follows(s0, g0, run)
    requires var f := Reached(s0, g0, run).0.files;
      at <= |f.dir.pending| && SlotImage(f.commit, k) && LogImage(f.wal, l)
    ensures var (s, g) := Reached(s0, g0, run);
      && at <= |g.stored.pending|
      && Recover(s.files.dir.At(at), k, l).Ok?
      && var r := Recover(s.files.dir.At(at), k, l).value;
      && r.m.file in g.stored.At(at) && r.marker < |g.timeline|
      && SameGraph(g.timeline[r.marker], RecoveredGraph(g.stored.At(at), r))
  {
    CreatedInv(s0, g0);
    RunsKeepGraphInv(s0, g0, run);
    var (s, g) := Reached(s0, g0, run);
    var x := s.files.dir.At(at);
    assert DirImage(s.files.dir, x);
    RecoverableOpens(x, k, l, s.hist, s.acked);
    ReplayedPart(x, k, l, s.hist, s.acked);
    RootAt(s.files.dir, g.stored, s.hist, g.timeline, at);
    TellsAt(g.stored.At(at)[x.manifest.value.file], x.manifest.value.snapshotSeq, s.hist, g.timeline, Recover(x, k, l).value.marker);
  }

  /** In particular a graph the open store has published in its epoch is recovered, if its seq is the recovered one. */
  lemma PublishedGraphSurvives(s0: State, g0: Shadow, run: seq<GraphAction>, at: nat, k: Slots, l: Log, p: Shown)
    requires Created(s0, g0) && Follows(s0, g0, run)
    requires var f := Reached(s0, g0, run).0.files;
      at <= |f.dir.pending| && SlotImage(f.commit, k) && LogImage(f.wal, l)
    requires var (s, g) := Reached(s0, g0, run); s.proc.Up? && p in g.shown && p.epoch == s.proc.w.epoch
    ensures var (s, g) := Reached(s0, g0, run);
      && at <= |g.stored.pending|
      && Recover(s.files.dir.At(at), k, l).Ok?
      && var r := Recover(s.files.dir.At(at), k, l).value;
      && r.m.file in g.stored.At(at)
      && (p.seqNo == r.marker ==> SameGraph(p.graph, RecoveredGraph(g.stored.At(at), r)))
  {
    CreatedInv(s0, g0);
    RunsKeepGraphInv(s0, g0, run);
    CrashRecoversTheGraph(s0, g0, run, at, k, l);
    var (s, g) := Reached(s0, g0, run);
    var r := Recover(s.files.dir.At(at), k, l).value;
    if p.seqNo == r.marker {
      SameSym(g.timeline[r.marker], p.graph);
      SameTrans(p.graph, g.timeline[r.marker], RecoveredGraph(g.stored.At(at), r));
    }
  }
}
