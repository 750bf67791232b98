/**
 When folding commutes with later operations (src/persist/mod.rs:934-1056 against
 src/delta.rs:298-411): two ways to hold one graph, as base and overlay, drift apart
 exactly where an insertion clears a node tombstone and revives different base edges.
 */
module Folding {
  import opened Types
  import opened Seqs
  import opened Graphs
  import opened Perms
  import opened DeltaModel
  import opened Compaction

  // ---------------------------------------------------------------------
  // What clearing a tombstone brings back
  // ---------------------------------------------------------------------

  /** Masked by the tombstone of `name` and by nothing else. */
  function OnlyBy(d: Delta, name: string): Edge -> bool {
    (e: Edge) => Masked(d, e) && !Masked(d.(removedNodes := d.removedNodes - {name}), e)
  }

  /** The base edges that come back when `name` is inserted: none unless it is tombstoned. */
  function Revived(base: Graph, d: Delta, name: string): seq<Edge> {
    Filter(base.edges, OnlyBy(d, name))
  }

  /** Inserting a node adds exactly those base edges to the merged graph. */
  lemma UpsertRevives(base: Graph, d: Delta, nd: NodeData)
    ensures multiset(Merged(base, Upsert(d, nd)).edges) == multiset(Merged(base, d).edges) + multiset(Revived(base, d, nd.name))
  {
    var t := Upsert(d, nd);
    forall e ensures multiset(BaseEdges(base, t))[e] == (multiset(BaseEdges(base, d)) + multiset(Revived(base, d, nd.name)))[e] {
      FilterMultiset(base.edges, Unmasked(t), e);
      FilterMultiset(base.edges, Unmasked(d), e);
      FilterMultiset(base.edges, OnlyBy(d, nd.name), e);
    }
    assert multiset(BaseEdges(base, t)) == multiset(BaseEdges(base, d)) + multiset(Revived(base, d, nd.name));
    assert LiveDelta(t) == LiveDelta(d);
  }

  // ---------------------------------------------------------------------
  // Two lines side by side
  // ---------------------------------------------------------------------

  /** Whether an op revives the same edges on both lines; only an insertion revives any. */
  ghost predicate RevivesAlike(base: Graph, d: Delta, folded: Graph, e: Delta, op: Op) {
    op.UpsertNode? ==> multiset(Revived(base, d, op.nd.name)) == multiset(Revived(folded, e, op.nd.name))
  }

  lemma SameNodesSet(a: map<string, NodeData>, b: map<string, NodeData>, nd: NodeData)
    requires SameNodes(a, b)
    ensures SameNodes(a[nd.name := nd], b[nd.name := nd])
  {
    assert a[nd.name := nd].Keys == a.Keys + {nd.name} && b[nd.name := nd].Keys == b.Keys + {nd.name};
  }

  lemma SameNodesDrop(a: map<string, NodeData>, b: map<string, NodeData>, name: string)
    requires SameNodes(a, b)
    ensures SameNodes(a - {name}, b - {name})
  {
    assert (a - {name}).Keys == a.Keys - {name} && (b - {name}).Keys == b.Keys - {name};
  }

  /** Node names and data follow the operations alone, so they stay the same on both lines. */
  lemma NodesStay(base: Graph, d: Delta, folded: Graph, e: Delta, op: Op)
    requires SameNodes(Merged(base, d).nodes, Merged(folded, e).nodes)
    ensures SameNodes(Merged(base, ApplyOp(d, op)).nodes, Merged(folded, ApplyOp(e, op)).nodes)
  {
    var a, b := Merged(base, d).nodes, Merged(folded, e).nodes;
    match op {
      case UpsertNode(nd) =>
        UpsertNodes(base, d, nd);
        UpsertNodes(folded, e, nd);
        SameNodesSet(a, b, nd);
      case RemoveNode(name) =>
        RemoveNodeLaw(base, d, name);
        RemoveNodeLaw(folded, e, name);
        SameNodesDrop(a, b, name);
      case AddEdge(from, to, edge) =>
        AddEdgeLaw(base, d, from, to, edge);
        AddEdgeLaw(folded, e, from, to, edge);
      case RemoveEdge(from, to, kind) =>
        RemoveEdgeLaw(base, d, EdgeKey(from, to, kind));
        RemoveEdgeLaw(folded, e, EdgeKey(from, to, kind));
    }
  }

  /** Edges leave and arrive alike, except for those an insertion revives. */
  lemma EdgesStay(base: Graph, d: Delta, folded: Graph, e: Delta, op: Op)
    requires multiset(Merged(base, d).edges) == multiset(Merged(folded, e).edges)
    ensures multiset(Merged(base, ApplyOp(d, op)).edges) == multiset(Merged(folded, ApplyOp(e, op)).edges)
      <==> RevivesAlike(base, d, folded, e, op)
  {
    var a, b := Merged(base, d).edges, Merged(folded, e).edges;
    match op {
      case UpsertNode(nd) =>
        UpsertRevives(base, d, nd);
        UpsertRevives(folded, e, nd);
        Cancel(multiset(a), multiset(Revived(base, d, nd.name)), multiset(Revived(folded, e, nd.name)));
      case RemoveNode(name) =>
        RemoveNodeLaw(base, d, name);
        RemoveNodeLaw(folded, e, name);
        FilterPermuted(a, b, AwayFrom(name));
      case AddEdge(from, to, edge) =>
        AddEdgeLaw(base, d, from, to, edge);
        AddEdgeLaw(folded, e, from, to, edge);
      case RemoveEdge(from, to, kind) =>
        RemoveEdgeLaw(base, d, EdgeKey(from, to, kind));
        RemoveEdgeLaw(folded, e, EdgeKey(from, to, kind));
        FilterPermuted(a, b, OtherKey(EdgeKey(from, to, kind)));
    }
  }

  lemma Cancel<T>(a: multiset<T>, x: multiset<T>, y: multiset<T>)
    ensures a + x == a + y <==> x == y
  {
    assert a + x - a == x && a + y - a == y;
  }

  /** One op keeps the two lines equal if and only if it revives the same edges on both. */
  lemma StepCommutes(base: Graph, d: Delta, folded: Graph, e: Delta, op: Op)
    requires SameGraph(Merged(base, d), Merged(folded, e))
    ensures SameGraph(Merged(base, ApplyOp(d, op)), Merged(folded, ApplyOp(e, op))) <==> RevivesAlike(base, d, folded, e, op)
  {
    NodesStay(base, d, folded, e, op);
    EdgesStay(base, d, folded, e, op);
  }

  // ---------------------------------------------------------------------
  // A whole history after the fold
  // ---------------------------------------------------------------------

  /** The two lines agree after every one of the ops. */
  ghost predicate AgreeThroughout(base: Graph, d: Delta, folded: Graph, e: Delta, ops: Batch) {
    forall i :: 0 <= i <= |ops| ==> SameGraph(Merged(base, ApplyOps(d, ops[..i])), Merged(folded, ApplyOps(e, ops[..i])))
  }

  ghost predicate ReviveAlike(base: Graph, d: Delta, folded: Graph, e: Delta, ops: Batch) {
    forall i :: 0 <= i < |ops| ==> RevivesAlike(base, ApplyOps(d, ops[..i]), folded, ApplyOps(e, ops[..i]), ops[i])
  }

  lemma {:induction false} AgreeUpTo(base: Graph, d: Delta, folded: Graph, e: Delta, ops: Batch, i: nat)
    requires i <= |ops| && SameGraph(Merged(base, d), Merged(folded, e)) && ReviveAlike(base, d, folded, e, ops)
    ensures SameGraph(Merged(base, ApplyOps(d, ops[..i])), Merged(folded, ApplyOps(e, ops[..i])))
  {
    if i == 0 {
      assert ops[..0] == [];
    } else {
      AgreeUpTo(base, d, folded, e, ops, i - 1);
      var x, y := ApplyOps(d, ops[..i - 1]), ApplyOps(e, ops[..i - 1]);
      assert RevivesAlike(base, x, folded, y, ops[i - 1]);
      StepCommutes(base, x, folded, y, ops[i - 1]);
      ApplyStep(d, ops, i - 1);
      ApplyStep(e, ops, i - 1);
    }
  }

  /** Two lines that start equal stay equal throughout if and only if every op revives the same edges on both. */
  lemma LinesAgree(base: Graph, d: Delta, folded: Graph, e: Delta, ops: Batch)
    requires SameGraph(Merged(base, d), Merged(folded, e))
    ensures AgreeThroughout(base, d, folded, e, ops) <==> ReviveAlike(base, d, folded, e, ops)
  {
    if ReviveAlike(base, d, folded, e, ops) {
      forall i | 0 <= i <= |ops| ensures SameGraph(Merged(base, ApplyOps(d, ops[..i])), Merged(folded, ApplyOps(e, ops[..i]))) {
        AgreeUpTo(base, d, folded, e, ops, i);
      }
    }
    if AgreeThroughout(base, d, folded, e, ops) {
      forall i | 0 <= i < |ops|
        ensures RevivesAlike(base, ApplyOps(d, ops[..i]), folded, ApplyOps(e, ops[..i]), ops[i])
      {
        ApplyStep(d, ops, i);
        ApplyStep(e, ops, i);
        assert SameGraph(Merged(base, ApplyOps(d, ops[..i + 1])), Merged(folded, ApplyOps(e, ops[..i + 1])));
        StepCommutes(base, ApplyOps(d, ops[..i]), folded, ApplyOps(e, ops[..i]), ops[i]);
      }
    }
  }

  /** Which operations are accepted never depends on the fold, not even once edges have drifted apart. */
  lemma {:induction false} SameAcceptance(base: Graph, d: Delta, folded: Graph, e: Delta, ops: Batch)
    requires SameNodes(Merged(base, d).nodes, Merged(folded, e).nodes)
    ensures SameNodes(Merged(base, ApplyOps(d, ops)).nodes, Merged(folded, ApplyOps(e, ops)).nodes)
    ensures Accepted(base, d, ops) <==> Accepted(folded, e, ops)
  {
    if ops != [] {
      var last := |ops| - 1;
      var init, op := ops[..last], ops[last];
      SameAcceptance(base, d, folded, e, init);
      var x, y := ApplyOps(d, init), ApplyOps(e, init);
      NodesStay(base, x, folded, y, op);
      AcceptedAtLast(base, d, ops);
      AcceptedAtLast(folded, e, ops);
      SameVerdict(base, x, folded, y, op);
    }
  }

  lemma AcceptedAtLast(base: Graph, d: Delta, ops: Batch)
    requires ops != []
    ensures var last := |ops| - 1;
      Accepted(base, d, ops) <==> Accepted(base, d, ops[..last]) && OpOk(base, ApplyOps(d, ops[..last]), ops[last])
  {
    assert ops[..|ops|] == ops;
    AcceptedStep(base, d, ops, |ops| - 1);
  }

  lemma SameVerdict(base: Graph, d: Delta, folded: Graph, e: Delta, op: Op)
    requires SameNodes(Merged(base, d).nodes, Merged(folded, e).nodes)
    ensures OpOk(base, d, op) <==> OpOk(folded, e, op)
  {
    forall n ensures Present(base, d, n) <==> Present(folded, e, n) {
      PresentIsNode(base, d, n);
      PresentIsNode(folded, e, n);
      assert n in Merged(base, d).nodes.Keys <==> n in Merged(folded, e).nodes.Keys;
    }
  }

  // ---------------------------------------------------------------------
  // The fold itself: base and overlay against the folded graph and no overlay
  // ---------------------------------------------------------------------

  /** The base edges the fold drops for good. */
  function Dropped(base: Graph, d: Delta): seq<Edge> { Filter(base.edges, MaskedBy(d)) }

  /** With overlays `now` and `anew` grown from d and from nothing: inserting `name` revives no edge the fold treated specially. */
  ghost predicate NothingReturns(base: Graph, d: Delta, now: Delta, anew: Delta, name: string) {
    && (forall x :: x in LiveDelta(d) ==> !OnlyBy(anew, name)(x))
    && (forall x :: x in Dropped(base, d) ==> !OnlyBy(now, name)(x))
  }

  /** How the tombstones of two overlays grown by the same ops, one from d and one from nothing, relate. */
  ghost predicate GrownTogether(d: Delta, now: Delta, anew: Delta) {
    && now.removedEdges == d.removedEdges + anew.removedEdges
    && anew.removedNodes <= now.removedNodes
    && forall n :: n !in d.removedNodes ==> (n in now.removedNodes <==> n in anew.removedNodes)
  }

  lemma {:induction false} GrowTogether(d: Delta, ops: Batch)
    ensures GrownTogether(d, ApplyOps(d, ops), ApplyOps(DeltaModel.EMPTY, ops))
  {
    if ops != [] {
      GrowTogether(d, ops[..|ops| - 1]);
    }
  }

  lemma UntouchedAlike(d: Delta, now: Delta, anew: Delta, name: string, x: Edge)
    requires GrownTogether(d, now, anew) && !Masked(d, x)
    ensures OnlyBy(now, name)(x) == OnlyBy(anew, name)(x)
  {
  }

  /** What comes back on the folded line: surviving base edges, and overlay edges now in the base. */
  lemma RevivedAfterFold(base: Graph, d: Delta, folded: Graph, anew: Delta, name: string)
    requires multiset(Merged(base, d).edges) == multiset(folded.edges)
    ensures multiset(Revived(folded, anew, name))
      == multiset(Filter(BaseEdges(base, d), OnlyBy(anew, name))) + multiset(Filter(LiveDelta(d), OnlyBy(anew, name)))
  {
    FilterPermuted(Merged(base, d).edges, folded.edges, OnlyBy(anew, name));
    FilterAppend(BaseEdges(base, d), LiveDelta(d), OnlyBy(anew, name));
  }

  /** What is selected of the base is selected of the edges that survived the fold and of those it dropped. */
  lemma SplitBase(base: Graph, d: Delta, p: Edge -> bool)
    ensures multiset(Filter(base.edges, p)) == multiset(Filter(BaseEdges(base, d), p)) + multiset(Filter(Dropped(base, d), p))
  {
    forall x ensures multiset(Filter(base.edges, p))[x]
      == (multiset(Filter(BaseEdges(base, d), p)) + multiset(Filter(Dropped(base, d), p)))[x]
    {
      FilterMultiset(base.edges, p, x);
      FilterMultiset(base.edges, Unmasked(d), x);
      FilterMultiset(base.edges, MaskedBy(d), x);
      FilterMultiset(BaseEdges(base, d), p, x);
      FilterMultiset(Dropped(base, d), p, x);
    }
  }

  /** An edge alive in the overlay that the fold also dropped from the base was dropped by an edge tombstone, for good. */
  lemma DroppedByKey(base: Graph, d: Delta, now: Delta, anew: Delta, x: Edge)
    requires DeltaOk(base, d) && GrownTogether(d, now, anew)
    requires x in LiveDelta(d) && x in Dropped(base, d)
    ensures KeyOf(x) in now.removedEdges
  {
    MapMembers(Filter(d.edges, Alive), AsEdge, x);
    var y :| y in Filter(d.edges, Alive) && AsEdge(y) == x;
    assert Alive(y) && MaskedBy(d)(x);
    LiveEndpoints(base, d, y);
  }

  lemma NoMembers<T>(s: seq<T>)
    requires forall x :: x !in s
    ensures s == []
  {
    if s != [] {
      HasFirst(s);
    }
  }

  lemma HasFirst<T>(s: seq<T>)
    requires s != []
    ensures s[0] in s
  {
  }

  /** Lists without a common member do not make up for each other. */
  lemma NothingCancels<T>(a: seq<T>, b: seq<T>)
    requires forall x :: x in a ==> x !in b
    ensures multiset(a) == multiset(b) <==> a == [] && b == []
  {
    if multiset(a) == multiset(b) {
      forall x ensures x !in a && x !in b {
        assert x in multiset(a) <==> x in multiset(b);
      }
      NoMembers(a);
      NoMembers(b);
    }
  }

  lemma SurvivorsAlike(base: Graph, d: Delta, now: Delta, anew: Delta, name: string)
    requires GrownTogether(d, now, anew)
    ensures Filter(BaseEdges(base, d), OnlyBy(now, name)) == Filter(BaseEdges(base, d), OnlyBy(anew, name))
  {
    forall x | x in BaseEdges(base, d) ensures OnlyBy(now, name)(x) == OnlyBy(anew, name)(x) {
      assert Unmasked(d)(x);
      UntouchedAlike(d, now, anew, name, x);
    }
    FilterSame(BaseEdges(base, d), OnlyBy(now, name), OnlyBy(anew, name));
  }

  /** A selection is empty exactly when nothing meets its predicate. */
  lemma NoneSelected<T>(s: seq<T>, p: T -> bool)
    ensures Filter(s, p) == [] <==> forall x :: x in s ==> !p(x)
  {
    if forall x :: x in s ==> !p(x) {
      FilterNone(s, p);
    }
    if Filter(s, p) == [] {
      forall x | x in s ensures !p(x) {
        assert p(x) ==> x in Filter(s, p);
      }
    }
  }

  /** What comes back on either line only has nothing in common, so the lines agree only if there is none. */
  lemma AlikeIfNothingReturns(base: Graph, d: Delta, folded: Graph, now: Delta, anew: Delta, name: string)
    requires DeltaOk(base, d) && GrownTogether(d, now, anew) && multiset(Merged(base, d).edges) == multiset(folded.edges)
    ensures multiset(Revived(base, now, name)) == multiset(Revived(folded, anew, name)) <==> NothingReturns(base, d, now, anew, name)
  {
    RevivedAfterFold(base, d, folded, anew, name);
    SplitBase(base, d, OnlyBy(now, name));
    SurvivorsAlike(base, d, now, anew, name);
    var gone, kept := Filter(Dropped(base, d), OnlyBy(now, name)), Filter(LiveDelta(d), OnlyBy(anew, name));
    Cancel(multiset(Filter(BaseEdges(base, d), OnlyBy(now, name))), multiset(gone), multiset(kept));
    forall x | x in gone ensures x !in kept {
      if x in kept {
        DroppedByKey(base, d, now, anew, x);
      }
    }
    NothingCancels(gone, kept);
    NoneSelected(Dropped(base, d), OnlyBy(now, name));
    NoneSelected(LiveDelta(d), OnlyBy(anew, name));
  }

  /** No insertion among the ops brings back an edge that was in the overlay at the fold, or one that the fold dropped. */
  ghost predicate FoldInvisible(base: Graph, d: Delta, ops: Batch) {
    forall i :: 0 <= i < |ops| && ops[i].UpsertNode? ==>
      NothingReturns(base, d, ApplyOps(d, ops[..i]), ApplyOps(DeltaModel.EMPTY, ops[..i]), ops[i].nd.name)
  }

  /**
   Folding commutes with a history of later operations if and only if no insertion
   in it brings back an edge that was in the overlay at the fold, or one the fold
   dropped. Batches are accepted or rejected alike in any case.
   */
  lemma FoldCommutes(base: Graph, d: Delta, folded: Graph, ops: Batch)
    requires DeltaOk(base, d) && SameGraph(Merged(base, d), folded)
    ensures AgreeThroughout(base, d, folded, DeltaModel.EMPTY, ops) <==> FoldInvisible(base, d, ops)
    ensures Accepted(base, d, ops) <==> Accepted(folded, DeltaModel.EMPTY, ops)
  {
    FreshOverlayIsBase(folded);
    LinesAgree(base, d, folded, DeltaModel.EMPTY, ops);
    SameAcceptance(base, d, folded, DeltaModel.EMPTY, ops);
    forall i | 0 <= i < |ops| && ops[i].UpsertNode?
      ensures RevivesAlike(base, ApplyOps(d, ops[..i]), folded, ApplyOps(DeltaModel.EMPTY, ops[..i]), ops[i])
        <==> NothingReturns(base, d, ApplyOps(d, ops[..i]), ApplyOps(DeltaModel.EMPTY, ops[..i]), ops[i].nd.name)
    {
      GrowTogether(d, ops[..i]);
      AlikeIfNothingReturns(base, d, folded, ApplyOps(d, ops[..i]), ApplyOps(DeltaModel.EMPTY, ops[..i]), ops[i].nd.name);
    }
  }

  /** The guard of the branch that can tell: some insertion clears a tombstone of the unfolded overlay. */
  predicate ClearsTombstone(d: Delta, ops: Batch) {
    exists i :: 0 <= i < |ops| && ops[i].UpsertNode? && ops[i].nd.name in ApplyOps(d, ops[..i]).removedNodes
  }

  /** A history that clears no tombstone never sees whether, or when, the overlay was folded. */
  lemma FoldCommutesWithoutRevival(base: Graph, d: Delta, folded: Graph, ops: Batch)
    requires DeltaOk(base, d) && SameGraph(Merged(base, d), folded) && !ClearsTombstone(d, ops)
    ensures AgreeThroughout(base, d, folded, DeltaModel.EMPTY, ops)
  {
    FoldCommutes(base, d, folded, ops);
    forall i | 0 <= i < |ops| && ops[i].UpsertNode?
      ensures NothingReturns(base, d, ApplyOps(d, ops[..i]), ApplyOps(DeltaModel.EMPTY, ops[..i]), ops[i].nd.name)
    {
      GrowTogether(d, ops[..i]);
      var name := ops[i].nd.name;
      assert name !in ApplyOps(d, ops[..i]).removedNodes;
      NoTombstoneNoReturn(ApplyOps(d, ops[..i]), name);
      NoTombstoneNoReturn(ApplyOps(DeltaModel.EMPTY, ops[..i]), name);
    }
  }

  lemma NoTombstoneNoReturn(d: Delta, name: string)
    requires name !in d.removedNodes
    ensures forall x :: !OnlyBy(d, name)(x)
  {
    assert d.removedNodes - {name} == d.removedNodes;
  }

  // ---------------------------------------------------------------------
  // Agreement at the end, whatever happened on the way
  // ---------------------------------------------------------------------

  /** Old edges, in place: an edge only ever dies, and one still alive has seen no tombstone of `anew`. */
  ghost predicate Ages(olds: seq<DeltaEdge>, nows: seq<DeltaEdge>, anew: Delta) {
    && |olds| == |nows|
    && forall k :: 0 <= k < |olds| ==>
        && AsEdge(nows[k]) == AsEdge(olds[k])
        && (olds[k].dead ==> nows[k].dead)
        && (!nows[k].dead ==> !Masked(anew, AsEdge(olds[k])))
  }

  /** Of `now`, grown from d: the old edges, some dead by now, then the edges of `anew`, grown from nothing. */
  ghost predicate EdgesGrown(d: Delta, now: Delta, anew: Delta) {
    && |d.edges| <= |now.edges|
    && now.edges[|d.edges|..] == anew.edges
    && Ages(d.edges, now.edges[..|d.edges|], anew)
  }

  /** Killing what an op hits keeps this, if what it does not hit stays unmasked. */
  lemma AgesOn(olds: seq<DeltaEdge>, nows: seq<DeltaEdge>, anew: Delta, anew': Delta, kill: DeltaEdge -> DeltaEdge, keep: Edge -> bool)
    requires Ages(olds, nows, anew)
    requires forall e :: kill(e) == e.(dead := e.dead || !keep(AsEdge(e)))
    requires forall x :: !Masked(anew, x) && keep(x) ==> !Masked(anew', x)
    ensures Ages(olds, Map(nows, kill), anew')
  {
    var after := Map(nows, kill);
    forall k | 0 <= k < |olds|
      ensures AsEdge(after[k]) == AsEdge(olds[k]) && (olds[k].dead ==> after[k].dead)
      ensures !after[k].dead ==> !Masked(anew', AsEdge(olds[k]))
    {
      assert after[k] == kill(nows[k]);
      assert AsEdge(nows[k]) == AsEdge(olds[k]);
    }
  }

  lemma KillGrown(d: Delta, now: Delta, anew: Delta, now': Delta, anew': Delta, kill: DeltaEdge -> DeltaEdge, keep: Edge -> bool)
    requires EdgesGrown(d, now, anew)
    requires now'.edges == Map(now.edges, kill) && anew'.edges == Map(anew.edges, kill)
    requires forall e :: kill(e) == e.(dead := e.dead || !keep(AsEdge(e)))
    requires forall x :: !Masked(anew, x) && keep(x) ==> !Masked(anew', x)
    ensures EdgesGrown(d, now', anew')
  {
    var n := |d.edges|;
    assert now.edges == now.edges[..n] + now.edges[n..];
    MapAppend(now.edges[..n], now.edges[n..], kill);
    AgesOn(d.edges, now.edges[..n], anew, anew', kill, keep);
  }

  lemma RemoveGrown(d: Delta, now: Delta, anew: Delta, name: string)
    requires EdgesGrown(d, now, anew)
    ensures EdgesGrown(d, Remove(now, name), Remove(anew, name))
  {
    KillGrown(d, now, anew, Remove(now, name), Remove(anew, name), KillNode(name), AwayFrom(name));
  }

  lemma RemoveEdgesGrown(d: Delta, now: Delta, anew: Delta, key: EdgeKey)
    requires EdgesGrown(d, now, anew)
    ensures EdgesGrown(d, RemoveEdges(now, key), RemoveEdges(anew, key))
  {
    KillGrown(d, now, anew, RemoveEdges(now, key), RemoveEdges(anew, key), KillEdge(key), OtherKey(key));
  }

  /** Masking no more than before, and adding the same edges at the end. */
  lemma AppendGrown(d: Delta, now: Delta, anew: Delta, now': Delta, anew': Delta, added: seq<DeltaEdge>)
    requires EdgesGrown(d, now, anew)
    requires now'.edges == now.edges + added && anew'.edges == anew.edges + added
    requires anew'.removedNodes <= anew.removedNodes && anew'.removedEdges == anew.removedEdges
    ensures EdgesGrown(d, now', anew')
  {
    var n := |d.edges|;
    assert now'.edges[n..] == now.edges[n..] + added;
    assert now'.edges[..n] == now.edges[..n];
  }

  lemma EdgesGrowBy(d: Delta, now: Delta, anew: Delta, op: Op)
    requires EdgesGrown(d, now, anew)
    ensures EdgesGrown(d, ApplyOp(now, op), ApplyOp(anew, op))
  {
    match op {
      case UpsertNode(nd) => AppendGrown(d, now, anew, Upsert(now, nd), Upsert(anew, nd), []);
      case RemoveNode(name) => RemoveGrown(d, now, anew, name);
      case AddEdge(from, to, edge) =>
        AppendGrown(d, now, anew, Add(now, from, to, edge), Add(anew, from, to, edge), [DeltaEdge(from, to, Canonical(edge), false)]);
      case RemoveEdge(from, to, kind) => RemoveEdgesGrown(d, now, anew, EdgeKey(from, to, kind));
    }
  }

  lemma {:induction false} EdgesGrow(d: Delta, ops: Batch)
    ensures EdgesGrown(d, ApplyOps(d, ops), ApplyOps(DeltaModel.EMPTY, ops))
  {
    if ops == [] {
      assert d.edges[|d.edges|..] == [] && d.edges[..|d.edges|] == d.edges;
    } else {
      var last := |ops| - 1;
      EdgesGrow(d, ops[..last]);
      EdgesGrowBy(d, ApplyOps(d, ops[..last]), ApplyOps(DeltaModel.EMPTY, ops[..last]), ops[last]);
    }
  }

  function LiveOf(edges: seq<DeltaEdge>): seq<Edge> { Map(Filter(edges, Alive), AsEdge) }

  /** The overlay edges that died since the fold although no tombstone set since then masks them any more. */
  function Lost(olds: seq<DeltaEdge>, nows: seq<DeltaEdge>, anew: Delta): seq<Edge>
    requires |olds| == |nows|
  {
    if olds == [] then []
    else if !olds[0].dead && nows[0].dead && !Masked(anew, AsEdge(olds[0])) then [AsEdge(olds[0])] + Lost(olds[1..], nows[1..], anew)
    else Lost(olds[1..], nows[1..], anew)
  }

  lemma LiveOfFirst(edges: seq<DeltaEdge>)
    requires edges != []
    ensures LiveOf(edges) == (if edges[0].dead then [] else [AsEdge(edges[0])]) + LiveOf(edges[1..])
  {
    if !edges[0].dead {
      MapAppend([edges[0]], Filter(edges[1..], Alive), AsEdge);
      assert Map([edges[0]], AsEdge) == [AsEdge(edges[0])];
    }
  }

  lemma FilterFirst<T>(first: seq<T>, rest: seq<T>, p: T -> bool)
    requires |first| <= 1
    ensures Filter(first + rest, p) == (if first != [] && p(first[0]) then first else []) + Filter(rest, p)
  {
    FilterAppend(first, rest, p);
    if first != [] {
      assert first[1..] == [] && first == [first[0]];
    }
  }

  lemma BothInFront<T>(p: seq<T>, q: seq<T>, r: seq<T>, shown: seq<T>, live: seq<T>, lost: seq<T>)
    requires multiset(p) == multiset(q) + multiset(r) && multiset(shown) == multiset(live) + multiset(lost)
    ensures multiset(p + shown) == multiset(q + live) + multiset(r + lost)
  {
  }

  function OneIf<T>(x: T, here: bool): seq<T> { if here then [x] else [] }

  /** What the folded line still shows of them: those that live on, and the lost ones. */
  lemma {:induction false} ShownOrLost(olds: seq<DeltaEdge>, nows: seq<DeltaEdge>, anew: Delta)
    requires Ages(olds, nows, anew)
    ensures multiset(Filter(LiveOf(olds), Unmasked(anew))) == multiset(LiveOf(nows)) + multiset(Lost(olds, nows, anew))
  {
    if olds != [] {
      var x, masked := AsEdge(olds[0]), Masked(anew, AsEdge(olds[0]));
      var p, q, r := OneIf(x, !olds[0].dead && !masked), OneIf(x, !nows[0].dead), OneIf(x, !olds[0].dead && nows[0].dead && !masked);
      ShownOrLost(olds[1..], nows[1..], anew);
      BothInFront(p, q, r, Filter(LiveOf(olds[1..]), Unmasked(anew)), LiveOf(nows[1..]), Lost(olds[1..], nows[1..], anew));
      LiveOfFirst(olds);
      LiveOfFirst(nows);
      FilterFirst(OneIf(x, !olds[0].dead), LiveOf(olds[1..]), Unmasked(anew));
      assert Lost(olds, nows, anew) == r + Lost(olds[1..], nows[1..], anew);
    }
  }

  lemma {:induction false} NoneLost(olds: seq<DeltaEdge>, nows: seq<DeltaEdge>, anew: Delta)
    requires |olds| == |nows|
    ensures Lost(olds, nows, anew) == []
      <==> forall k :: 0 <= k < |olds| && !olds[k].dead && nows[k].dead ==> Masked(anew, AsEdge(olds[k]))
  {
    if olds != [] {
      NoneLost(olds[1..], nows[1..], anew);
      assert forall k :: 0 < k < |olds| ==> olds[k] == olds[1..][k - 1] && nows[k] == nows[1..][k - 1];
    }
  }

  lemma {:induction false} LostWereLive(olds: seq<DeltaEdge>, nows: seq<DeltaEdge>, anew: Delta, x: Edge)
    requires |olds| == |nows| && x in Lost(olds, nows, anew)
    ensures x in LiveOf(olds)
  {
    if x in Lost(olds[1..], nows[1..], anew) {
      LostWereLive(olds[1..], nows[1..], anew, x);
    }
  }

  /** The base edges the fold dropped that show again. */
  function Returned(base: Graph, d: Delta, now: Delta): seq<Edge> { Filter(Dropped(base, d), Unmasked(now)) }

  /** What both lines show: base edges that survived the fold, overlay edges that live on, and the new overlay. */
  function Shared(base: Graph, d: Delta, now: Delta, anew: Delta): multiset<Edge>
    requires |d.edges| <= |now.edges|
  {
    multiset(Filter(BaseEdges(base, d), Unmasked(now))) + multiset(LiveOf(now.edges[..|d.edges|])) + multiset(LiveDelta(anew))
  }

  /** The unfolded line shows also the base edges that returned. */
  lemma UnfoldedEdges(base: Graph, d: Delta, now: Delta, anew: Delta)
    requires EdgesGrown(d, now, anew)
    ensures multiset(Merged(base, now).edges) == Shared(base, d, now, anew) + multiset(Returned(base, d, now))
  {
    SplitBase(base, d, Unmasked(now));
    var n := |d.edges|;
    assert now.edges == now.edges[..n] + anew.edges;
    FilterAppend(now.edges[..n], anew.edges, Alive);
    MapAppend(Filter(now.edges[..n], Alive), Filter(anew.edges, Alive), AsEdge);
    assert LiveDelta(now) == LiveOf(now.edges[..n]) + LiveDelta(anew);
  }

  /** The folded line shows also the lost ones. */
  lemma FoldedEdges(base: Graph, d: Delta, folded: Graph, now: Delta, anew: Delta)
    requires GrownTogether(d, now, anew) && EdgesGrown(d, now, anew)
    requires multiset(Merged(base, d).edges) == multiset(folded.edges)
    ensures multiset(Merged(folded, anew).edges)
      == Shared(base, d, now, anew) + multiset(Lost(d.edges, now.edges[..|d.edges|], anew))
  {
    FilterPermuted(Merged(base, d).edges, folded.edges, Unmasked(anew));
    FilterAppend(BaseEdges(base, d), LiveDelta(d), Unmasked(anew));
    forall x | x in BaseEdges(base, d) ensures Unmasked(now)(x) == Unmasked(anew)(x) {
      assert Unmasked(d)(x);
    }
    FilterSame(BaseEdges(base, d), Unmasked(now), Unmasked(anew));
    ShownOrLost(d.edges, now.edges[..|d.edges|], anew);
    assert LiveDelta(d) == LiveOf(d.edges);
  }

  /**
   What the overlays show of the fold at the end: every base edge it dropped is still
   masked, and every overlay edge it took in that has died since is masked by a
   tombstone set since.
   */
  ghost predicate LeavesNoTrace(base: Graph, d: Delta, now: Delta, anew: Delta) {
    && (forall x :: x in Dropped(base, d) ==> Masked(now, x))
    && |d.edges| <= |now.edges|
    && (forall k :: 0 <= k < |d.edges| && !d.edges[k].dead && now.edges[k].dead ==> Masked(anew, AsEdge(d.edges[k])))
  }

  lemma EdgesAgree(base: Graph, d: Delta, folded: Graph, now: Delta, anew: Delta)
    requires DeltaOk(base, d) && GrownTogether(d, now, anew) && EdgesGrown(d, now, anew)
    requires multiset(Merged(base, d).edges) == multiset(folded.edges)
    ensures multiset(Merged(base, now).edges) == multiset(Merged(folded, anew).edges) <==> LeavesNoTrace(base, d, now, anew)
  {
    UnfoldedEdges(base, d, now, anew);
    FoldedEdges(base, d, folded, now, anew);
    Cancel(Shared(base, d, now, anew), multiset(Returned(base, d, now)), multiset(Lost(d.edges, now.edges[..|d.edges|], anew)));
    LostStayAway(base, d, now, anew);
    NothingCancels(Returned(base, d, now), Lost(d.edges, now.edges[..|d.edges|], anew));
    TraceIs(base, d, now, anew);
  }

  lemma LostStayAway(base: Graph, d: Delta, now: Delta, anew: Delta)
    requires DeltaOk(base, d) && GrownTogether(d, now, anew) && |d.edges| <= |now.edges|
    ensures forall x :: x in Returned(base, d, now) ==> x !in Lost(d.edges, now.edges[..|d.edges|], anew)
  {
    var lost := Lost(d.edges, now.edges[..|d.edges|], anew);
    forall x | x in Returned(base, d, now) ensures x !in lost {
      assert Unmasked(now)(x);
      if x in lost {
        LostWereLive(d.edges, now.edges[..|d.edges|], anew, x);
        DroppedByKey(base, d, now, anew, x);
      }
    }
  }

  lemma TraceIs(base: Graph, d: Delta, now: Delta, anew: Delta)
    requires |d.edges| <= |now.edges|
    ensures LeavesNoTrace(base, d, now, anew) <==> Returned(base, d, now) == [] && Lost(d.edges, now.edges[..|d.edges|], anew) == []
  {
    NoneLost(d.edges, now.edges[..|d.edges|], anew);
    NoneSelected(Dropped(base, d), Unmasked(now));
    assert forall x :: Unmasked(now)(x) <==> !Masked(now, x);
  }

  /**
   After any later operations the folded and the unfolded line show the same graph if
   and only if these leave no trace of the fold, whether or not the lines agreed in between.
   */
  lemma FoldAgreesAtEnd(base: Graph, d: Delta, folded: Graph, ops: Batch)
    requires DeltaOk(base, d) && SameGraph(Merged(base, d), folded)
    ensures var now, anew := ApplyOps(d, ops), ApplyOps(DeltaModel.EMPTY, ops);
      SameGraph(Merged(base, now), Merged(folded, anew)) <==> LeavesNoTrace(base, d, now, anew)
  {
    GrowTogether(d, ops);
    EdgesGrow(d, ops);
    FreshOverlayIsBase(folded);
    SameAcceptance(base, d, folded, DeltaModel.EMPTY, ops);
    EdgesAgree(base, d, folded, ApplyOps(d, ops), ApplyOps(DeltaModel.EMPTY, ops));
  }

  // ---------------------------------------------------------------------
  // Recovery after a compaction that stopped half-way
  // ---------------------------------------------------------------------

  function Flatten(batches: seq<Batch>): Batch {
    if batches == [] then [] else Flatten(batches[..|batches| - 1]) + batches[|batches| - 1]
  }

  lemma {:induction false} OpsInTwoParts(d: Delta, a: Batch, b: Batch)
    ensures ApplyOps(d, a + b) == ApplyOps(ApplyOps(d, a), b)
    decreases |b|
  {
    if b == [] {
      assert a + b == a;
    } else {
      var last := |b| - 1;
      OpsInTwoParts(d, a, b[..last]);
      assert (a + b)[..|a + b| - 1] == a + b[..last];
    }
  }

  lemma {:induction false} BatchesAreOps(d: Delta, batches: seq<Batch>)
    ensures ApplyAll(d, batches) == ApplyOps(d, Flatten(batches))
  {
    if batches != [] {
      var last := |batches| - 1;
      BatchesAreOps(d, batches[..last]);
      OpsInTwoParts(d, Flatten(batches[..last]), batches[last]);
    }
  }

  /**
   A compaction that fails after its MANIFEST is in place leaves the running store
   on the old base and overlay, while recovery will replay the later batches on the
   folded snapshot. What it then presents is what the store presented if and only if
   those batches leave no trace of the fold.
   */
  lemma RecoveredGraphAgrees(base: Graph, d: Delta, folded: Graph, later: seq<Batch>)
    requires DeltaOk(base, d) && SameGraph(Merged(base, d), folded)
    ensures var now, anew := ApplyAll(d, later), ApplyAll(DeltaModel.EMPTY, later);
      SameGraph(Merged(base, now), Merged(folded, anew)) <==> LeavesNoTrace(base, d, now, anew)
  {
    FoldAgreesAtEnd(base, d, folded, Flatten(later));
    BatchesAreOps(d, later);
    BatchesAreOps(DeltaModel.EMPTY, later);
  }

  // ---------------------------------------------------------------------
  // A history where it shows
  // ---------------------------------------------------------------------

  function TwoNodes(a: NodeData, b: NodeData): map<string, NodeData> { map[a.name := a, b.name := b] }

  /**
   The shortest one: removing and re-inserting a node brings its base edges back
   but leaves its overlay edges dead, so whether an edge was folded before shows.
   For any two nodes and any edge data between them:
   */
  lemma FoldDoesNotCommute(a: NodeData, b: NodeData, edge: EdgeData)
    requires a.name != b.name && WindowOk(edge)
    ensures var base := Graph(TwoNodes(a, b), []);
      var d := Add(DeltaModel.EMPTY, a.name, b.name, edge);
      var folded := Graph(TwoNodes(a, b), [Edge(a.name, b.name, Canonical(edge))]);
      var bounce := [RemoveNode(a.name), UpsertNode(a)];
      && Merged(base, d) == Merged(folded, DeltaModel.EMPTY) == folded
      && Accepted(base, d, bounce) && Accepted(folded, DeltaModel.EMPTY, bounce)
      && Merged(base, ApplyOps(d, bounce)).edges == []
      && Merged(folded, ApplyOps(DeltaModel.EMPTY, bounce)).edges == folded.edges
  {
    var base := Graph(TwoNodes(a, b), []);
    var d := Add(DeltaModel.EMPTY, a.name, b.name, edge);
    var folded := Graph(TwoNodes(a, b), [Edge(a.name, b.name, Canonical(edge))]);
    FreshOverlayIsBase(base);
    FreshOverlayIsBase(folded);
    AddEdgeLaw(base, DeltaModel.EMPTY, a.name, b.name, edge);
    Bounce(base, d, a);
    Bounce(folded, DeltaModel.EMPTY, a);
    RemoveNodeLaw(base, d, a.name);
    BounceKillsOverlay(base, d, a);
    BounceRestoresBase(folded, DeltaModel.EMPTY, a);
  }

  /** Removing a node and inserting it again is always accepted. */
  lemma Bounce(base: Graph, d: Delta, nd: NodeData)
    ensures Accepted(base, d, [RemoveNode(nd.name), UpsertNode(nd)])
    ensures ApplyOps(d, [RemoveNode(nd.name), UpsertNode(nd)]) == Upsert(Remove(d, nd.name), nd)
  {
    var ops := [RemoveNode(nd.name), UpsertNode(nd)];
    assert ops[..0] == [] && ops[..1] == [RemoveNode(nd.name)];
    assert [RemoveNode(nd.name)][..0] == [];
  }

  /** The overlay edges at the node stay dead. */
  lemma BounceKillsOverlay(base: Graph, d: Delta, nd: NodeData)
    requires base.edges == [] && forall e :: e in Merged(base, d).edges ==> Touches(e, nd.name)
    ensures Merged(base, Upsert(Remove(d, nd.name), nd)).edges == []
  {
    RemoveNodeLaw(base, d, nd.name);
    FilterNone(Merged(base, d).edges, AwayFrom(nd.name));
    UpsertNodeLaw(base, Remove(d, nd.name), nd);
  }

  /** The base edges at the node come back. */
  lemma BounceRestoresBase(base: Graph, d: Delta, nd: NodeData)
    requires d == DeltaModel.EMPTY
    ensures Merged(base, Upsert(Remove(d, nd.name), nd)).edges == base.edges
  {
    var t := Upsert(Remove(d, nd.name), nd);
    assert t.removedNodes == {} && t.removedEdges == {} && t.edges == [];
    FilterAll(base.edges, Unmasked(t));
  }
}
