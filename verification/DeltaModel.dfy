/**
 The overlay of src/delta.rs as a value: what its four mutations do, the merged
 graph it stands for, and the counts that graph has.
 */
module DeltaModel {
  import opened Types
  import opened Seqs
  import opened Strings
  import opened Overlay
  import opened Graphs

  datatype DeltaEdge = DeltaEdge(from: string, to: string, edge: EdgeData, dead: bool)

  datatype EdgeKey = EdgeKey(from: string, to: string, kind: string)

  /** Shadowed or added nodes, append-only edges, and the two kinds of tombstone. */
  datatype Delta = Delta(
    added: map<string, NodeData>,
    edges: seq<DeltaEdge>,
    removedNodes: set<string>,
    removedEdges: set<EdgeKey>)

  const EMPTY := Delta(map[], [], {}, {})

  // ---------------------------------------------------------------------
  // The four mutations
  // ---------------------------------------------------------------------

  function Upsert(d: Delta, nd: NodeData): Delta {
    d.(added := d.added[nd.name := nd], removedNodes := d.removedNodes - {nd.name})
  }

  function KillNode(name: string): DeltaEdge -> DeltaEdge {
    (e: DeltaEdge) => e.(dead := e.dead || e.from == name || e.to == name)
  }

  function KillEdge(key: EdgeKey): DeltaEdge -> DeltaEdge {
    (e: DeltaEdge) => e.(dead := e.dead || EdgeKey(e.from, e.to, e.edge.kind) == key)
  }

  function Remove(d: Delta, name: string): Delta {
    d.(added := d.added - {name}, removedNodes := d.removedNodes + {name}, edges := Map(d.edges, KillNode(name)))
  }

  function Canonical(e: EdgeData): EdgeData { e.(acl := NormalizeAcl(e.acl)) }

  function Add(d: Delta, from: string, to: string, edge: EdgeData): Delta {
    d.(edges := d.edges + [DeltaEdge(from, to, Canonical(edge), false)])
  }

  function RemoveEdges(d: Delta, key: EdgeKey): Delta {
    d.(edges := Map(d.edges, KillEdge(key)), removedEdges := d.removedEdges + {key})
  }

  function ApplyOp(d: Delta, op: Op): Delta {
    match op
    case UpsertNode(nd) => Upsert(d, nd)
    case RemoveNode(name) => Remove(d, name)
    case AddEdge(from, to, edge) => Add(d, from, to, edge)
    case RemoveEdge(from, to, kind) => RemoveEdges(d, EdgeKey(from, to, kind))
  }

  function ApplyOps(d: Delta, ops: Batch): Delta {
    if ops == [] then d else ApplyOp(ApplyOps(d, ops[..|ops| - 1]), ops[|ops| - 1])
  }

  // ---------------------------------------------------------------------
  // The merged graph
  // ---------------------------------------------------------------------

  /** get_node resolves the name: shadow first, then tombstone, then base. */
  predicate Present(base: Graph, d: Delta, name: string) {
    name in d.added || (name !in d.removedNodes && name in base.nodes)
  }

  function KeyOf(e: Edge): EdgeKey { EdgeKey(e.from, e.to, e.data.kind) }

  predicate NodeMasked(d: Delta, e: Edge) { e.from in d.removedNodes || e.to in d.removedNodes }

  predicate Masked(d: Delta, e: Edge) {
    NodeMasked(d, e) || KeyOf(e) in d.removedEdges
  }

  function Unmasked(d: Delta): Edge -> bool { e => !Masked(d, e) }

  function AsEdge(e: DeltaEdge): Edge { Edge(e.from, e.to, e.edge) }

  predicate Alive(e: DeltaEdge) { !e.dead }

  function BaseEdges(base: Graph, d: Delta): seq<Edge> {
    Filter(base.edges, Unmasked(d))
  }

  function LiveDelta(d: Delta): seq<Edge> {
    Map(Filter(d.edges, Alive), AsEdge)
  }

  function Merged(base: Graph, d: Delta): Graph {
    Graph(
      (map n | n in base.nodes.Keys - d.removedNodes - d.added.Keys :: base.nodes[n]) + d.added,
      BaseEdges(base, d) + LiveDelta(d))
  }

  lemma PresentIsNode(base: Graph, d: Delta, name: string)
    ensures Present(base, d, name) <==> name in Merged(base, d).nodes
    ensures name in Merged(base, d).nodes ==>
      Merged(base, d).nodes[name] == if name in d.added then d.added[name] else base.nodes[name]
  {
  }

  /** What every delta built from accepted operations keeps. */
  ghost predicate DeltaOk(base: Graph, d: Delta) {
    && d.added.Keys !! d.removedNodes
    && (forall n :: n in d.added ==> d.added[n].name == n)
    && (forall e :: e in d.edges && !e.dead ==>
          Present(base, d, e.from) && Present(base, d, e.to) && WindowOk(e.edge) && StrictlySorted(e.edge.acl))
  }

  /** The merged graph is itself a well-formed graph: no edge ever dangles. */
  lemma MergedWellFormed(base: Graph, d: Delta)
    requires WellFormed(base) && DeltaOk(base, d)
    ensures WellFormed(Merged(base, d))
  {
    var m := Merged(base, d);
    forall e | e in m.edges ensures EdgeOk(m.nodes, e) {
      if e in BaseEdges(base, d) {
        assert e in base.edges && !Masked(d, e);
        assert EdgeOk(base.nodes, e);
      } else {
        var live := Filter(d.edges, Alive);
        var i :| 0 <= i < |live| && LiveDelta(d)[i] == e;
        assert live[i] in d.edges && Alive(live[i]);
      }
    }
  }

  // ---------------------------------------------------------------------
  // Which batches are accepted
  // ---------------------------------------------------------------------

  /** An AddEdge needs a satisfiable window and both endpoints present at that point. */
  predicate OpOk(base: Graph, d: Delta, op: Op) {
    op.AddEdge? ==> WindowOk(op.edge) && Present(base, d, op.from) && Present(base, d, op.to)
  }

  ghost predicate Accepted(base: Graph, d: Delta, ops: Batch) {
    forall i :: 0 <= i < |ops| ==> OpOk(base, ApplyOps(d, ops[..i]), ops[i])
  }

  /** An edge is accepted exactly between two nodes of the merged graph, unless its window closes before it opens; the other ops always. */
  lemma AcceptedAlone(base: Graph, d: Delta, op: Op)
    ensures op.AddEdge? ==> (Accepted(base, d, [op]) <==>
      && op.from in Merged(base, d).nodes && op.to in Merged(base, d).nodes
      && !(op.edge.validFrom.Some? && op.edge.validTo.Some? && op.edge.validTo.value < op.edge.validFrom.value))
    ensures !op.AddEdge? ==> Accepted(base, d, [op])
  {
    assert [op][..0] == [];
    assert Accepted(base, d, [op]) <==> OpOk(base, ApplyOps(d, [op][..0]), [op][0]);
    if op.AddEdge? {
      PresentIsNode(base, d, op.from);
      PresentIsNode(base, d, op.to);
    }
  }

  lemma ApplyStep(d: Delta, ops: Batch, i: nat)
    requires i < |ops|
    ensures ApplyOps(d, ops[..i + 1]) == ApplyOp(ApplyOps(d, ops[..i]), ops[i])
  {
    assert ops[..i + 1][..i] == ops[..i];
  }

  lemma AcceptedStep(base: Graph, d: Delta, ops: Batch, i: nat)
    requires i < |ops|
    ensures Accepted(base, d, ops[..i + 1]) <==> Accepted(base, d, ops[..i]) && OpOk(base, ApplyOps(d, ops[..i]), ops[i])
  {
    var more, less := ops[..i + 1], ops[..i];
    assert forall j :: 0 <= j <= i ==> more[..j] == ops[..j];
    assert forall j :: 0 <= j < i ==> less[..j] == ops[..j];
    if Accepted(base, d, more) {
      assert OpOk(base, ApplyOps(d, more[..i]), more[i]);
      forall j | 0 <= j < i ensures OpOk(base, ApplyOps(d, less[..j]), less[j]) {
        assert OpOk(base, ApplyOps(d, more[..j]), more[j]);
      }
    }
    if Accepted(base, d, less) {
      forall j | 0 <= j < i ensures OpOk(base, ApplyOps(d, more[..j]), more[j]) {
        assert OpOk(base, ApplyOps(d, less[..j]), less[j]);
      }
    }
  }

  lemma RejectedPrefix(base: Graph, d: Delta, ops: Batch, i: nat)
    requires i < |ops| && !OpOk(base, ApplyOps(d, ops[..i]), ops[i])
    ensures !Accepted(base, d, ops)
  {
  }

  lemma MapMembers<T, U>(s: seq<T>, f: T -> U, y: U)
    requires y in Map(s, f)
    ensures exists x :: x in s && f(x) == y
  {
    var i :| 0 <= i < |s| && Map(s, f)[i] == y;
    assert s[i] in s;
  }

  lemma OpKeepsOk(base: Graph, d: Delta, op: Op)
    requires DeltaOk(base, d) && OpOk(base, d, op)
    ensures DeltaOk(base, ApplyOp(d, op))
  {
    var t := ApplyOp(d, op);
    forall e | e in t.edges && !e.dead
      ensures Present(base, t, e.from) && Present(base, t, e.to) && WindowOk(e.edge) && StrictlySorted(e.edge.acl)
    {
      match op {
        case UpsertNode(nd) =>
        case RemoveNode(name) =>
          MapMembers(d.edges, KillNode(name), e);
        case AddEdge(from, to, edge) =>
          NormalizedIsSorted(edge.acl);
        case RemoveEdge(from, to, kind) =>
          MapMembers(d.edges, KillEdge(EdgeKey(from, to, kind)), e);
      }
    }
  }

  lemma {:induction false} BatchKeepsOk(base: Graph, d: Delta, ops: Batch)
    requires DeltaOk(base, d) && Accepted(base, d, ops)
    ensures DeltaOk(base, ApplyOps(d, ops))
  {
    if ops != [] {
      var init := ops[..|ops| - 1];
      assert Accepted(base, d, init) by {
        forall i | 0 <= i < |init| ensures OpOk(base, ApplyOps(d, init[..i]), init[i]) {
          assert init[..i] == ops[..i];
        }
      }
      BatchKeepsOk(base, d, init);
      assert OpOk(base, ApplyOps(d, ops[..|ops| - 1]), ops[|ops| - 1]);
      OpKeepsOk(base, ApplyOps(d, init), ops[|ops| - 1]);
    }
  }

  // ---------------------------------------------------------------------
  // What each operation does to the merged graph
  // ---------------------------------------------------------------------

  /** The live edges after a killing pass are the live edges it keeps. */
  lemma {:induction false} LiveAfterKill(edges: seq<DeltaEdge>, kill: DeltaEdge -> DeltaEdge, keep: Edge -> bool)
    requires forall e :: kill(e) == e.(dead := e.dead || !keep(AsEdge(e)))
    ensures Map(Filter(Map(edges, kill), Alive), AsEdge) == Filter(Map(Filter(edges, Alive), AsEdge), keep)
  {
    if edges != [] {
      var rest := edges[1..];
      LiveAfterKill(rest, kill, keep);
      assert Map(edges, kill)[1..] == Map(rest, kill);
      var live := Filter(rest, Alive);
      var after := Filter(Map(rest, kill), Alive);
      if Alive(edges[0]) {
        assert ([edges[0]] + live)[1..] == live;
        assert ([AsEdge(edges[0])] + Map(live, AsEdge))[1..] == Map(live, AsEdge);
        assert ([kill(edges[0])] + after)[1..] == after;
      }
    }
  }

  predicate Touches(e: Edge, name: string) { e.from == name || e.to == name }

  function AwayFrom(name: string): Edge -> bool { e => !Touches(e, name) }

  function OtherKey(key: EdgeKey): Edge -> bool { e => KeyOf(e) != key }

  /** A mutation that only masks base edges and kills delta edges keeps exactly the edges it does not hit. */
  lemma RemovalKeeps(base: Graph, d: Delta, t: Delta, kill: DeltaEdge -> DeltaEdge, keep: Edge -> bool)
    requires t.edges == Map(d.edges, kill)
    requires forall e :: kill(e) == e.(dead := e.dead || !keep(AsEdge(e)))
    requires forall e :: e in base.edges ==> Unmasked(t)(e) == (Unmasked(d)(e) && keep(e))
    ensures Merged(base, t).edges == Filter(Merged(base, d).edges, keep)
  {
    FilterAppend(BaseEdges(base, d), LiveDelta(d), keep);
    FilterTwice(base.edges, Unmasked(d), keep, Unmasked(t));
    LiveAfterKill(d.edges, kill, keep);
  }

  /** RemoveNode takes away the node and exactly the edges at it. */
  lemma RemoveNodeLaw(base: Graph, d: Delta, name: string)
    ensures Merged(base, Remove(d, name)).edges == Filter(Merged(base, d).edges, AwayFrom(name))
    ensures Merged(base, Remove(d, name)).nodes == Merged(base, d).nodes - {name}
  {
    RemovalKeeps(base, d, Remove(d, name), KillNode(name), AwayFrom(name));
  }

  /** RemoveEdge takes away exactly the edges of that source, target and kind. */
  lemma RemoveEdgeLaw(base: Graph, d: Delta, key: EdgeKey)
    ensures Merged(base, RemoveEdges(d, key)).edges == Filter(Merged(base, d).edges, OtherKey(key))
    ensures Merged(base, RemoveEdges(d, key)).nodes == Merged(base, d).nodes
  {
    RemovalKeeps(base, d, RemoveEdges(d, key), KillEdge(key), OtherKey(key));
  }

  /** AddEdge always adds one more, parallel, edge. */
  lemma AddEdgeLaw(base: Graph, d: Delta, from: string, to: string, edge: EdgeData)
    ensures Merged(base, Add(d, from, to, edge)).edges == Merged(base, d).edges + [Edge(from, to, Canonical(edge))]
    ensures Merged(base, Add(d, from, to, edge)).nodes == Merged(base, d).nodes
  {
    var t := Add(d, from, to, edge);
    SameBaseEdges(base, d, t);
    var added := DeltaEdge(from, to, Canonical(edge), false);
    LiveAppend(d.edges, added);
  }

  lemma SameBaseEdges(base: Graph, d: Delta, t: Delta)
    requires t.removedNodes == d.removedNodes && t.removedEdges == d.removedEdges
    ensures BaseEdges(base, t) == BaseEdges(base, d)
  {
    FilterSame(base.edges, Unmasked(t), Unmasked(d));
  }

  lemma LiveAppend(edges: seq<DeltaEdge>, e: DeltaEdge)
    requires !e.dead
    ensures Map(Filter(edges + [e], Alive), AsEdge) == Map(Filter(edges, Alive), AsEdge) + [AsEdge(e)]
  {
    FilterSnoc(edges, e, Alive);
    MapAppend(Filter(edges, Alive), [e], AsEdge);
  }

  /** The base edges away from a node do not depend on its tombstone. */
  lemma UnmaskedAway(base: Graph, d: Delta, t: Delta, name: string)
    requires d.removedNodes - {name} == t.removedNodes - {name} && t.removedEdges == d.removedEdges
    ensures Filter(BaseEdges(base, t), AwayFrom(name)) == Filter(BaseEdges(base, d), AwayFrom(name))
  {
    var both := (e: Edge) => Unmasked(d)(e) && AwayFrom(name)(e);
    FilterTwice(base.edges, Unmasked(d), AwayFrom(name), both);
    forall e | e in base.edges ensures both(e) == (Unmasked(t)(e) && AwayFrom(name)(e)) {
      assert e.from != name ==> (e.from in d.removedNodes - {name} <==> e.from in d.removedNodes);
      assert e.from != name ==> (e.from in t.removedNodes - {name} <==> e.from in t.removedNodes);
      assert e.to != name ==> (e.to in d.removedNodes - {name} <==> e.to in d.removedNodes);
      assert e.to != name ==> (e.to in t.removedNodes - {name} <==> e.to in t.removedNodes);
    }
    FilterTwice(base.edges, Unmasked(t), AwayFrom(name), both);
  }

  /**
   UpsertNode sets the node. On a node that is not tombstoned no edge changes; on
   a tombstoned one the base edges at it that nothing else masks come back, while
   delta edges killed with it stay dead.
   */
  lemma UpsertNodeLaw(base: Graph, d: Delta, nd: NodeData)
    ensures Merged(base, Upsert(d, nd)).nodes == Merged(base, d).nodes[nd.name := nd]
    ensures nd.name !in d.removedNodes ==> Merged(base, Upsert(d, nd)).edges == Merged(base, d).edges
    ensures LiveDelta(Upsert(d, nd)) == LiveDelta(d)
    ensures Filter(BaseEdges(base, Upsert(d, nd)), AwayFrom(nd.name)) == Filter(BaseEdges(base, d), AwayFrom(nd.name))
  {
    UpsertNodes(base, d, nd);
    UnmaskedAway(base, d, Upsert(d, nd), nd.name);
    if nd.name !in d.removedNodes {
      SameBaseEdges(base, d, Upsert(d, nd));
    }
  }

  lemma UpsertNodes(base: Graph, d: Delta, nd: NodeData)
    ensures Merged(base, Upsert(d, nd)).nodes == Merged(base, d).nodes[nd.name := nd]
  {
    var m, t := Merged(base, d).nodes, Merged(base, Upsert(d, nd)).nodes;
    forall n ensures n in t <==> n in m || n == nd.name {
      PresentIsNode(base, d, n);
      PresentIsNode(base, Upsert(d, nd), n);
    }
    forall n | n in t ensures t[n] == m[nd.name := nd][n] {
      PresentIsNode(base, d, n);
      PresentIsNode(base, Upsert(d, nd), n);
    }
  }

  // ---------------------------------------------------------------------
  // The four counters
  // ---------------------------------------------------------------------

  datatype Counts = Counts(tombstoneBaseHits: nat, addedNonBase: nat, maskedBase: nat, liveDelta: nat)

  function MaskedBy(d: Delta): Edge -> bool { e => Masked(d, e) }

  function MaskedCount(base: Graph, d: Delta): nat { Count(base.edges, MaskedBy(d)) }

  /** The counters from scratch. */
  function CountsOf(base: Graph, d: Delta): Counts {
    Counts(
      |d.removedNodes * base.nodes.Keys|,
      |d.added.Keys - base.nodes.Keys|,
      MaskedCount(base, d),
      Count(d.edges, Alive))
  }

  lemma NamesCount(all: set<string>, removed: set<string>, added: set<string>)
    requires added !! removed
    ensures |removed * all| <= |all|
    ensures |(all - removed - added) + added| == |all| + |added - all| - |removed * all|
  {
    var kept := all - removed;
    assert all == kept + removed * all;
    assert (all - removed - added) + added == kept + (added - all);
  }

  lemma KeyCount(m: map<string, NodeData>)
    ensures |m| == |m.Keys|
  {
  }

  lemma MergedNames(base: Graph, d: Delta)
    ensures Merged(base, d).nodes.Keys == (base.nodes.Keys - d.removedNodes - d.added.Keys) + d.added.Keys
  {
    forall n ensures n in Merged(base, d).nodes.Keys <==> n in (base.nodes.Keys - d.removedNodes - d.added.Keys) + d.added.Keys {
      PresentIsNode(base, d, n);
    }
  }

  /** node_count, computed from the counters, counts the merged nodes; nothing underflows. */
  lemma NodeCounters(base: Graph, d: Delta)
    requires d.added.Keys !! d.removedNodes
    ensures var c := CountsOf(base, d);
      && |base.nodes| + c.addedNonBase >= c.tombstoneBaseHits
      && |Merged(base, d).nodes| == |base.nodes| + c.addedNonBase - c.tombstoneBaseHits
  {
    var all := base.nodes.Keys;
    NamesCount(all, d.removedNodes, d.added.Keys);
    MergedNames(base, d);
    KeyCount(base.nodes);
    KeyCount(Merged(base, d).nodes);
  }

  /** edge_count, likewise. */
  lemma EdgeCounters(base: Graph, d: Delta)
    ensures var c := CountsOf(base, d);
      && |base.edges| + c.liveDelta >= c.maskedBase
      && |Merged(base, d).edges| == |base.edges| + c.liveDelta - c.maskedBase
  {
    CountComplement(base.edges, MaskedBy(d), Unmasked(d));
  }

  // ---------------------------------------------------------------------
  // Any history of accepted batches
  // ---------------------------------------------------------------------

  function ApplyAll(d: Delta, batches: seq<Batch>): Delta {
    if batches == [] then d else ApplyOps(ApplyAll(d, batches[..|batches| - 1]), batches[|batches| - 1])
  }

  lemma ApplyAllSnoc(d: Delta, batches: seq<Batch>, b: Batch)
    ensures ApplyAll(d, batches + [b]) == ApplyOps(ApplyAll(d, batches), b)
  {
    assert (batches + [b])[..|batches|] == batches;
  }

  /** Each batch is accepted in the state the earlier ones leave. */
  ghost predicate AllAccepted(base: Graph, d: Delta, batches: seq<Batch>) {
    forall i :: 0 <= i < |batches| ==> Accepted(base, ApplyAll(d, batches[..i]), batches[i])
  }

  lemma {:induction false} HistoryKeepsOk(base: Graph, d: Delta, batches: seq<Batch>)
    requires DeltaOk(base, d) && AllAccepted(base, d, batches)
    ensures DeltaOk(base, ApplyAll(d, batches))
  {
    if batches != [] {
      var last := |batches| - 1;
      var init := batches[..last];
      forall i | 0 <= i < last ensures Accepted(base, ApplyAll(d, init[..i]), init[i]) {
        assert init[..i] == batches[..i];
      }
      HistoryKeepsOk(base, d, init);
      assert Accepted(base, ApplyAll(d, batches[..last]), batches[last]);
      BatchKeepsOk(base, ApplyAll(d, init), batches[last]);
    }
  }

  /**
   After any accepted history over a well-formed base the merged graph is well
   formed, node_count counts its nodes, and edge_count is both the total of the
   outgoing lists and the total of the incoming lists of its nodes.
   */
  lemma HistoryCounts(base: Graph, batches: seq<Batch>)
    requires WellFormed(base) && AllAccepted(base, EMPTY, batches)
    ensures var d := ApplyAll(EMPTY, batches);
      var m, c := Merged(base, d), CountsOf(base, d);
      && WellFormed(m)
      && |m.nodes| == |base.nodes| + c.addedNonBase - c.tombstoneBaseHits
      && SumOver(m.nodes.Keys, OutDegree(m)) == |base.edges| + c.liveDelta - c.maskedBase == SumOver(m.nodes.Keys, InDegree(m))
  {
    var d := ApplyAll(EMPTY, batches);
    HistoryKeepsOk(base, EMPTY, batches);
    MergedWellFormed(base, d);
    NodeCounters(base, d);
    EdgeCounters(base, d);
    DegreesSumToEdges(Merged(base, d));
  }

  /** is_empty: nothing shadowed, appended or tombstoned. */
  predicate RecordsNothing(d: Delta) {
    d.added == map[] && d.edges == [] && d.removedNodes == {} && d.removedEdges == {}
  }

  lemma OpLeavesATrace(d: Delta, op: Op)
    ensures !RecordsNothing(ApplyOp(d, op))
  {
    match op {
      case UpsertNode(nd) => assert nd.name in ApplyOp(d, op).added;
      case RemoveNode(name) => assert name in ApplyOp(d, op).removedNodes;
      case AddEdge(from, to, edge) =>
      case RemoveEdge(from, to, kind) => assert EdgeKey(from, to, kind) in ApplyOp(d, op).removedEdges;
    }
  }

  /** An overlay is empty exactly when no batch folded into it held an op, even if later ops took earlier ones back. */
  lemma {:induction false} EmptyIffNoOps(batches: seq<Batch>)
    ensures RecordsNothing(ApplyAll(EMPTY, batches)) <==> forall i :: 0 <= i < |batches| ==> batches[i] == []
  {
    if batches != [] {
      var last := |batches| - 1;
      EmptyIffNoOps(batches[..last]);
      if batches[last] != [] {
        var ops := batches[last];
        OpLeavesATrace(ApplyOps(ApplyAll(EMPTY, batches[..last]), ops[..|ops| - 1]), ops[|ops| - 1]);
      } else {
        assert forall i :: 0 <= i < last ==> batches[..last][i] == batches[i];
      }
    }
  }

  // ---------------------------------------------------------------------
  // How many base edges an operation masks
  // ---------------------------------------------------------------------

  /** Among the outgoing views of `name`: those neither the other endpoint nor an edge tombstone masks. */
  function OpenOut(nodes: set<string>, edges: set<EdgeKey>, name: string): NeighborView -> bool {
    (v: NeighborView) => v.target !in nodes && EdgeKey(name, v.target, v.kind) !in edges
  }

  /** Likewise among the incoming views, a self-loop excepted. */
  function OpenIn(nodes: set<string>, edges: set<EdgeKey>, name: string): NeighborView -> bool {
    (v: NeighborView) => v.target != name && v.target !in nodes && EdgeKey(v.target, name, v.kind) !in edges
  }

  /** How many base edges at `name` the tombstones in `nodes` and `edges` leave open. */
  function OpenAt(base: Graph, nodes: set<string>, edges: set<EdgeKey>, name: string): nat {
    Count(Out(base, name), OpenOut(nodes, edges, name)) + Count(In(base, name), OpenIn(nodes, edges, name))
  }

  function FreshOut(d: Delta, name: string): Edge -> bool {
    (e: Edge) => e.from == name && !Masked(d, e)
  }

  function FreshIn(d: Delta, name: string): Edge -> bool {
    (e: Edge) => e.to == name && e.from != name && !Masked(d, e)
  }

  /**
   Tombstoning a node masks its open outgoing edges and its open incoming edges,
   a self-loop counted once; clearing the tombstone gives exactly those back.
   */
  lemma TombstoneMasks(base: Graph, d: Delta, t: Delta, name: string)
    requires name !in d.removedNodes && t.removedNodes == d.removedNodes + {name} && t.removedEdges == d.removedEdges
    ensures MaskedCount(base, t) == MaskedCount(base, d) + OpenAt(base, d.removedNodes, d.removedEdges, name)
  {
    OpenOutAreFresh(base, d, name);
    OpenInAreFresh(base, d, name);
    var out := (e: Edge) => Masked(d, e) || FreshOut(d, name)(e);
    forall e | e in base.edges
      ensures (MaskedBy(t)(e) <==> out(e) || FreshIn(d, name)(e)) && !(out(e) && FreshIn(d, name)(e))
    {
      TombstoneMasksEdge(d, t, name, e);
    }
    CountSplit(base.edges, MaskedBy(t), out, FreshIn(d, name));
    CountSplit(base.edges, out, MaskedBy(d), FreshOut(d, name));
  }

  lemma TombstoneMasksEdge(d: Delta, t: Delta, name: string, e: Edge)
    requires name !in d.removedNodes && t.removedNodes == d.removedNodes + {name} && t.removedEdges == d.removedEdges
    ensures Masked(t, e) <==> Masked(d, e) || FreshOut(d, name)(e) || FreshIn(d, name)(e)
  {
  }

  lemma OpenOutAreFresh(base: Graph, d: Delta, name: string)
    requires name !in d.removedNodes
    ensures Count(Out(base, name), OpenOut(d.removedNodes, d.removedEdges, name)) == Count(base.edges, FreshOut(d, name))
  {
    SelectViews(base.edges, From(name), OutView, OpenOut(d.removedNodes, d.removedEdges, name), FreshOut(d, name));
  }

  lemma OpenInAreFresh(base: Graph, d: Delta, name: string)
    requires name !in d.removedNodes
    ensures Count(In(base, name), OpenIn(d.removedNodes, d.removedEdges, name)) == Count(base.edges, FreshIn(d, name))
  {
    SelectViews(base.edges, To(name), InView, OpenIn(d.removedNodes, d.removedEdges, name), FreshIn(d, name));
  }

  /** A node the base does not have masks nothing. */
  lemma StrangerMasksNothing(base: Graph, d: Delta, t: Delta, name: string)
    requires WellFormed(base) && name !in base.nodes
    requires t.removedNodes - {name} == d.removedNodes - {name} && t.removedEdges == d.removedEdges
    ensures MaskedCount(base, t) == MaskedCount(base, d)
  {
    forall e | e in base.edges ensures MaskedBy(t)(e) == MaskedBy(d)(e) {
      assert EdgeOk(base.nodes, e);
      assert e.from in d.removedNodes - {name} <==> e.from in d.removedNodes;
      assert e.from in t.removedNodes - {name} <==> e.from in t.removedNodes;
      assert e.to in d.removedNodes - {name} <==> e.to in d.removedNodes;
      assert e.to in t.removedNodes - {name} <==> e.to in t.removedNodes;
    }
    CountSame(base.edges, MaskedBy(t), MaskedBy(d));
  }

  /** The outgoing views an edge tombstone would hit. */
  function Matches(key: EdgeKey): NeighborView -> bool {
    (v: NeighborView) => v.target == key.to && v.kind == key.kind
  }

  function MatchingLive(base: Graph, nodes: set<string>, key: EdgeKey): nat {
    if key.from in nodes || key.to in nodes then 0
    else Count(Out(base, key.from), Matches(key))
  }

  function FreshKey(d: Delta, key: EdgeKey): Edge -> bool { (e: Edge) => KeyOf(e) == key && !Masked(d, e) }

  lemma EdgeTombstoneMasks(base: Graph, d: Delta, t: Delta, key: EdgeKey)
    requires key !in d.removedEdges && t.removedNodes == d.removedNodes && t.removedEdges == d.removedEdges + {key}
    ensures MaskedCount(base, t) == MaskedCount(base, d) + MatchingLive(base, d.removedNodes, key)
  {
    CountSplit(base.edges, MaskedBy(t), MaskedBy(d), FreshKey(d, key));
    if key.from in d.removedNodes || key.to in d.removedNodes {
      FilterNone(base.edges, FreshKey(d, key));
    } else {
      SelectViews(base.edges, From(key.from), OutView, Matches(key), FreshKey(d, key));
    }
  }

  // ---------------------------------------------------------------------
  // Reading the merged graph through the base's own lists
  // ---------------------------------------------------------------------

  /** Among the incoming views of `name`, self-loops included: those no other tombstone masks. */
  function KeepIn(nodes: set<string>, edges: set<EdgeKey>, name: string): NeighborView -> bool {
    (v: NeighborView) => v.target !in nodes && EdgeKey(v.target, name, v.kind) !in edges
  }

  lemma OutOfMerged(base: Graph, d: Delta, name: string)
    requires name !in d.removedNodes
    ensures Out(Merged(base, d), name)
      == Filter(Out(base, name), OpenOut(d.removedNodes, d.removedEdges, name)) + Map(Filter(LiveDelta(d), From(name)), OutView)
  {
    var both := (e: Edge) => !Masked(d, e) && e.from == name;
    FilterAppend(BaseEdges(base, d), LiveDelta(d), From(name));
    MapAppend(Filter(BaseEdges(base, d), From(name)), Filter(LiveDelta(d), From(name)), OutView);
    FilterTwice(base.edges, Unmasked(d), From(name), both);
    SelectViews(base.edges, From(name), OutView, OpenOut(d.removedNodes, d.removedEdges, name), both);
  }

  lemma InOfMerged(base: Graph, d: Delta, name: string)
    requires name !in d.removedNodes
    ensures In(Merged(base, d), name)
      == Filter(In(base, name), KeepIn(d.removedNodes, d.removedEdges, name)) + Map(Filter(LiveDelta(d), To(name)), InView)
  {
    var both := (e: Edge) => !Masked(d, e) && e.to == name;
    FilterAppend(BaseEdges(base, d), LiveDelta(d), To(name));
    MapAppend(Filter(BaseEdges(base, d), To(name)), Filter(LiveDelta(d), To(name)), InView);
    FilterTwice(base.edges, Unmasked(d), To(name), both);
    SelectViews(base.edges, To(name), InView, KeepIn(d.removedNodes, d.removedEdges, name), both);
  }

  lemma LiveEndpoints(base: Graph, d: Delta, e: DeltaEdge)
    requires DeltaOk(base, d) && e in d.edges && !e.dead
    ensures e.from !in d.removedNodes && e.to !in d.removedNodes
  {
  }

  /** A tombstoned node has no edges at all. */
  lemma RemovedHasNoEdges(base: Graph, d: Delta, name: string)
    requires DeltaOk(base, d) && name in d.removedNodes
    ensures Out(Merged(base, d), name) == [] && In(Merged(base, d), name) == []
  {
    forall e | e in Merged(base, d).edges ensures !From(name)(e) && !To(name)(e) {
      if e in LiveDelta(d) {
        MapMembers(Filter(d.edges, Alive), AsEdge, e);
        var x :| x in Filter(d.edges, Alive) && AsEdge(x) == e;
        assert Alive(x);
        LiveEndpoints(base, d, x);
      } else {
        assert e in BaseEdges(base, d) && Unmasked(d)(e);
      }
    }
    FilterNone(Merged(base, d).edges, From(name));
    FilterNone(Merged(base, d).edges, To(name));
  }

  // ---------------------------------------------------------------------
  // The counters after each operation
  // ---------------------------------------------------------------------

  lemma HitsGrow(s: set<string>, within: set<string>, x: string)
    ensures |(s + {x}) * within| == |s * within| + (if x in within && x !in s then 1 else 0)
  {
    if x in s {
      assert s + {x} == s;
    } else if x in within {
      assert (s + {x}) * within == s * within + {x};
    } else {
      assert (s + {x}) * within == s * within;
    }
  }

  lemma StrangersGrow(s: set<string>, within: set<string>, x: string)
    ensures |(s + {x}) - within| == |s - within| + (if x !in within && x !in s then 1 else 0)
  {
    if x in s {
      assert s + {x} == s;
    } else if x in within {
      assert (s + {x}) - within == s - within;
    } else {
      assert (s + {x}) - within == s - within + {x};
    }
  }

  lemma AddedAfterRemove(added: map<string, NodeData>, names: set<string>, name: string)
    ensures |added.Keys - names| == |(added - {name}).Keys - names| + (if name in added && name !in names then 1 else 0)
  {
    assert (added - {name}).Keys == added.Keys - {name};
    StrangersShrink(added.Keys, names, name);
  }

  lemma AddedAfterUpsert(added: map<string, NodeData>, names: set<string>, nd: NodeData)
    ensures |added[nd.name := nd].Keys - names| == |added.Keys - names| + (if nd.name !in added && nd.name !in names then 1 else 0)
  {
    assert added[nd.name := nd].Keys == added.Keys + {nd.name};
    StrangersGrow(added.Keys, names, nd.name);
  }

  lemma HitsShrink(s: set<string>, within: set<string>, x: string)
    ensures |s * within| == |(s - {x}) * within| + (if x in s && x in within then 1 else 0)
  {
    HitsGrow(s - {x}, within, x);
    assert x in s ==> s - {x} + {x} == s;
    assert x !in s ==> s - {x} == s;
  }

  lemma StrangersShrink(s: set<string>, within: set<string>, x: string)
    ensures |s - within| == |(s - {x}) - within| + (if x in s && x !in within then 1 else 0)
  {
    StrangersGrow(s - {x}, within, x);
    assert x in s ==> s - {x} + {x} == s;
    assert x !in s ==> s - {x} == s;
  }

  lemma SameTombstones(base: Graph, d: Delta, t: Delta)
    requires t.removedNodes == d.removedNodes && t.removedEdges == d.removedEdges
    ensures MaskedCount(base, t) == MaskedCount(base, d)
  {
    CountSame(base.edges, MaskedBy(t), MaskedBy(d));
  }

  lemma MaskedAfterRemove(base: Graph, d: Delta, name: string)
    requires WellFormed(base)
    ensures MaskedCount(base, Remove(d, name)) == MaskedCount(base, d)
      + if name in base.nodes && name !in d.removedNodes then OpenAt(base, d.removedNodes, d.removedEdges, name) else 0
  {
    var t := Remove(d, name);
    if name in d.removedNodes {
      assert t.removedNodes == d.removedNodes;
      SameTombstones(base, d, t);
    } else if name in base.nodes {
      TombstoneMasks(base, d, t, name);
    } else {
      StrangerMasksNothing(base, d, t, name);
    }
  }

  lemma MaskedAfterUpsert(base: Graph, d: Delta, nd: NodeData)
    requires WellFormed(base)
    ensures MaskedCount(base, d) == MaskedCount(base, Upsert(d, nd))
      + if nd.name in base.nodes && nd.name in d.removedNodes
        then OpenAt(base, d.removedNodes - {nd.name}, d.removedEdges, nd.name) else 0
  {
    var t := Upsert(d, nd);
    if nd.name !in d.removedNodes {
      assert t.removedNodes == d.removedNodes;
      SameTombstones(base, d, t);
    } else if nd.name in base.nodes {
      assert d.removedNodes == t.removedNodes + {nd.name};
      TombstoneMasks(base, t, d, nd.name);
    } else {
      StrangerMasksNothing(base, d, t, nd.name);
    }
  }

  /** The counters are the counts from scratch, as a fact to carry around unopened. */
  ghost predicate Counted(base: Graph, d: Delta, c: Counts) {
    forall i {:trigger Sealed(i)} :: Sealed(i) ==> c == CountsOf(base, d)
  }

  lemma Seal(base: Graph, d: Delta)
    ensures Counted(base, d, CountsOf(base, d))
  {
  }

  lemma Unseal(base: Graph, d: Delta, c: Counts)
    requires Counted(base, d, c)
    ensures c == CountsOf(base, d)
  {
    assert Sealed(0);
  }

  ghost function AfterRemove(base: Graph, d: Delta, c: Counts, name: string): Counts {
    var hit := name in base.nodes && name !in d.removedNodes;
    Counts(
      c.tombstoneBaseHits + (if hit then 1 else 0),
      Less(c.addedNonBase, if name in d.added && name !in base.nodes then 1 else 0),
      c.maskedBase + (if hit then OpenAt(base, d.removedNodes, d.removedEdges, name) else 0),
      Count(Map(d.edges, KillNode(name)), Alive))
  }

  /** Counters after an upsert that clears a base node's tombstone (`hit`), adds a new name (`newly`) and unmasks `open` edges. */
  function Adjusted(c: Counts, hit: bool, newly: bool, open: nat): Counts {
    Counts(
      Less(c.tombstoneBaseHits, if hit then 1 else 0),
      c.addedNonBase + (if newly then 1 else 0),
      Less(c.maskedBase, if hit then open else 0),
      c.liveDelta)
  }

  ghost function AfterUpsert(base: Graph, d: Delta, c: Counts, nd: NodeData): Counts {
    Adjusted(c,
      nd.name in base.nodes && nd.name in d.removedNodes, nd.name !in d.added && nd.name !in base.nodes,
      OpenAt(base, d.removedNodes - {nd.name}, d.removedEdges, nd.name))
  }

  function Less(a: nat, b: nat): nat { if a >= b then a - b else 0 }

  lemma CountedAfterRemove(base: Graph, d: Delta, c: Counts, name: string)
    requires WellFormed(base) && Counted(base, d, c)
    ensures name in d.added && name !in base.nodes ==> c.addedNonBase >= 1
    ensures Counted(base, Remove(d, name), AfterRemove(base, d, c, name))
  {
    Unseal(base, d, c);
    HitsGrow(d.removedNodes, base.nodes.Keys, name);
    AddedAfterRemove(d.added, base.nodes.Keys, name);
    MaskedAfterRemove(base, d, name);
    Seal(base, Remove(d, name));
  }

  lemma FromParts(t: Counts, c: Counts, hit: bool, newly: bool, open: nat)
    requires t.addedNonBase == c.addedNonBase + (if newly then 1 else 0)
    requires c.tombstoneBaseHits == t.tombstoneBaseHits + (if hit then 1 else 0)
    requires c.maskedBase == t.maskedBase + (if hit then open else 0)
    requires c.liveDelta == t.liveDelta
    ensures t == Adjusted(c, hit, newly, open)
  {
  }

  lemma Counting(base: Graph, d: Delta) returns (c: Counts)
    ensures Counted(base, d, c)
  {
    c := CountsOf(base, d);
  }

  /** How the counters before and after an upsert relate. */
  lemma UpsertRelation(base: Graph, d: Delta, c: Counts, t: Counts, nd: NodeData)
    requires WellFormed(base) && Counted(base, d, c) && Counted(base, Upsert(d, nd), t)
    ensures t.addedNonBase == c.addedNonBase + (if nd.name !in d.added && nd.name !in base.nodes then 1 else 0)
    ensures c.tombstoneBaseHits == t.tombstoneBaseHits + (if nd.name in base.nodes && nd.name in d.removedNodes then 1 else 0)
    ensures c.maskedBase == t.maskedBase
      + if nd.name in base.nodes && nd.name in d.removedNodes
        then OpenAt(base, d.removedNodes - {nd.name}, d.removedEdges, nd.name) else 0
    ensures c.liveDelta == t.liveDelta
  {
    Unseal(base, d, c);
    Unseal(base, Upsert(d, nd), t);
    UpsertCounts(base, d, nd);
    MaskedAfterUpsert(base, d, nd);
  }

  lemma CountedAfterUpsert(base: Graph, d: Delta, c: Counts, nd: NodeData)
    requires WellFormed(base) && Counted(base, d, c)
    ensures nd.name in base.nodes && nd.name in d.removedNodes ==>
      c.tombstoneBaseHits >= 1 && c.maskedBase >= OpenAt(base, d.removedNodes - {nd.name}, d.removedEdges, nd.name)
    ensures Counted(base, Upsert(d, nd), AfterUpsert(base, d, c, nd))
  {
    var t := Counting(base, Upsert(d, nd));
    UpsertRelation(base, d, c, t, nd);
    FromParts(t, c,
      nd.name in base.nodes && nd.name in d.removedNodes, nd.name !in d.added && nd.name !in base.nodes,
      OpenAt(base, d.removedNodes - {nd.name}, d.removedEdges, nd.name));
  }

  lemma UpsertCounts(base: Graph, d: Delta, nd: NodeData)
    ensures var c, t := CountsOf(base, d), CountsOf(base, Upsert(d, nd));
      && t.addedNonBase == c.addedNonBase + (if nd.name !in d.added && nd.name !in base.nodes then 1 else 0)
      && c.tombstoneBaseHits == t.tombstoneBaseHits + (if nd.name in base.nodes && nd.name in d.removedNodes then 1 else 0)
      && c.liveDelta == t.liveDelta
  {
    HitsShrink(d.removedNodes, base.nodes.Keys, nd.name);
    AddedAfterUpsert(d.added, base.nodes.Keys, nd);
  }

  /** Which delta edges are alive changes no counter but one. */
  lemma CountedAfterKill(base: Graph, d: Delta, c: Counts, edges: seq<DeltaEdge>)
    requires Counted(base, d, c)
    ensures Counted(base, d.(edges := edges), c.(liveDelta := Count(edges, Alive)))
  {
    Unseal(base, d, c);
    SameTombstones(base, d, d.(edges := edges));
    Seal(base, d.(edges := edges));
  }

  /** A tombstone on a key masks what was live under it, and nothing the second time. */
  lemma MaskedAfterTombstone(base: Graph, d: Delta, key: EdgeKey)
    ensures MaskedCount(base, d.(removedEdges := d.removedEdges + {key}))
      == MaskedCount(base, d) + if key !in d.removedEdges then MatchingLive(base, d.removedNodes, key) else 0
  {
    var t := d.(removedEdges := d.removedEdges + {key});
    if key in d.removedEdges {
      assert t.removedEdges == d.removedEdges;
      SameTombstones(base, d, t);
    } else {
      EdgeTombstoneMasks(base, d, t, key);
    }
  }

  lemma CountedAfterTombstone(base: Graph, d: Delta, c: Counts, key: EdgeKey)
    requires Counted(base, d, c)
    ensures Counted(base, d.(removedEdges := d.removedEdges + {key}),
      c.(maskedBase := c.maskedBase + if key !in d.removedEdges then MatchingLive(base, d.removedNodes, key) else 0))
  {
    Unseal(base, d, c);
    MaskedAfterTombstone(base, d, key);
    Seal(base, d.(removedEdges := d.removedEdges + {key}));
  }

  lemma CountedAfterAdd(base: Graph, d: Delta, c: Counts, from: string, to: string, edge: EdgeData)
    requires Counted(base, d, c)
    ensures Counted(base, Add(d, from, to, edge), c.(liveDelta := c.liveDelta + 1))
  {
    Unseal(base, d, c);
    var t := Add(d, from, to, edge);
    SameTombstones(base, d, t);
    FilterSnoc(d.edges, DeltaEdge(from, to, Canonical(edge), false), Alive);
    Seal(base, t);
  }

  // ---------------------------------------------------------------------
  // Recomputing the masked count by inclusion and exclusion
  // ---------------------------------------------------------------------

  /** Edges counted once the tombstones in `done` are: by their source, or by a target whose source is not tombstoned. */
  function CountedVia(done: set<string>, removed: set<string>): Edge -> bool {
    (e: Edge) => e.from in done || (e.to in done && e.from !in removed)
  }

  function SourceAlive(removed: set<string>): NeighborView -> bool {
    (v: NeighborView) => v.target !in removed
  }

  function EntersFromAlive(name: string, removed: set<string>): Edge -> bool {
    (e: Edge) => e.to == name && e.from !in removed
  }

  lemma CountOneTombstone(base: Graph, done: set<string>, removed: set<string>, name: string)
    requires name in removed && name !in done && done <= removed
    ensures Count(base.edges, CountedVia(done + {name}, removed))
      == Count(base.edges, CountedVia(done, removed)) + |Out(base, name)| + Count(In(base, name), SourceAlive(removed))
  {
    var out := (e: Edge) => e.from in done || (e.to in done && e.from !in removed) || e.from == name;
    forall e | e in base.edges
      ensures CountedVia(done + {name}, removed)(e) <==> out(e) || EntersFromAlive(name, removed)(e)
      ensures !(out(e) && EntersFromAlive(name, removed)(e))
    {
      assert e.from in done + {name} <==> e.from in done || e.from == name;
      assert e.to in done + {name} <==> e.to in done || e.to == name;
      assert e.from in done ==> e.from in removed;
    }
    SelectViews(base.edges, To(name), InView, SourceAlive(removed), EntersFromAlive(name, removed));
    CountSplit(base.edges, CountedVia(done + {name}, removed), out, EntersFromAlive(name, removed));
    CountSplit(base.edges, out, CountedVia(done, removed), From(name));
  }

  lemma StrangerCountsNothing(base: Graph, done: set<string>, removed: set<string>, name: string)
    requires WellFormed(base) && name !in base.nodes
    ensures Count(base.edges, CountedVia(done + {name}, removed)) == Count(base.edges, CountedVia(done, removed))
  {
    forall e | e in base.edges ensures CountedVia(done + {name}, removed)(e) == CountedVia(done, removed)(e) {
      assert EdgeOk(base.nodes, e);
    }
    CountSame(base.edges, CountedVia(done + {name}, removed), CountedVia(done, removed));
  }

  /** Edges only an edge tombstone in `done` masks. */
  function EdgeOnly(done: set<EdgeKey>, removed: set<string>): Edge -> bool {
    (e: Edge) => KeyOf(e) in done && e.from !in removed && e.to !in removed
  }

  function LiveKey(key: EdgeKey, removed: set<string>): Edge -> bool {
    (e: Edge) => KeyOf(e) == key && e.from !in removed && e.to !in removed
  }

  lemma CountOneKey(base: Graph, done: set<EdgeKey>, removed: set<string>, key: EdgeKey)
    requires key !in done
    ensures Count(base.edges, EdgeOnly(done + {key}, removed))
      == Count(base.edges, EdgeOnly(done, removed)) + MatchingLive(base, removed, key)
  {
    CountSplit(base.edges, EdgeOnly(done + {key}, removed), EdgeOnly(done, removed), LiveKey(key, removed));
    if key.from in removed || key.to in removed {
      FilterNone(base.edges, LiveKey(key, removed));
    } else {
      SelectViews(base.edges, From(key.from), OutView, Matches(key), LiveKey(key, removed));
    }
  }

  /** The two passes together count every masked base edge exactly once. */
  lemma PassesCountMasked(base: Graph, d: Delta)
    ensures Count(base.edges, MaskedBy(d))
      == Count(base.edges, CountedVia(d.removedNodes, d.removedNodes)) + Count(base.edges, EdgeOnly(d.removedEdges, d.removedNodes))
  {
    CountSplit(base.edges, MaskedBy(d), CountedVia(d.removedNodes, d.removedNodes), EdgeOnly(d.removedEdges, d.removedNodes));
  }
}
