/**
 Folding base and overlay into a new snapshot (src/delta.rs:737-788,
 src/persist/mod.rs:943-955): the logical graph stays the same.
 */
module Compaction {
  import opened Types
  import opened Seqs
  import opened Strings
  import opened Overlay
  import opened Graphs
  import opened Perms
  import opened NameTable
  import opened Csr
  import opened CsrWriter
  import opened DeltaModel
  import opened DeltaOverlay
  import opened Builder

  // ---------------------------------------------------------------------
  // materialize
  // ---------------------------------------------------------------------

  function AsInput(nd: NodeData): NodeInput {
    NodeInput(nd.name, nd.kind, nd.metadata, nd.baseWeight, nd.noisePenalty)
  }

  /** An outgoing view of `name`, as an edge input again. */
  function Emitted(name: string): NeighborView -> Edge {
    (v: NeighborView) => Edge(name, v.target, EdgeData(v.kind, v.fieldName, v.weight, v.validFrom, v.validTo, v.acl))
  }

  function SourceIn(done: set<string>): Edge -> bool { (e: Edge) => e.from in done }

  /** The views of a node carry all the fields of its edges. */
  lemma EmittedIsFiltered(g: Graph, name: string)
    ensures Map(Out(g, name), Emitted(name)) == Filter(g.edges, From(name))
  {
    var mine := Filter(g.edges, From(name));
    var same := (e: Edge) => e;
    forall e | e in mine ensures same(e) == Emitted(name)(OutView(e)) { }
    MapTwice(mine, OutView, Emitted(name), same);
    assert Map(mine, same) == mine;
  }

  lemma OneMoreSource(g: Graph, done: set<string>, name: string, emitted: seq<Edge>)
    requires name !in done && multiset(emitted) == multiset(Filter(g.edges, SourceIn(done)))
    ensures multiset(emitted + Filter(g.edges, From(name))) == multiset(Filter(g.edges, SourceIn(done + {name})))
  {
    forall e ensures multiset(emitted + Filter(g.edges, From(name)))[e] == multiset(Filter(g.edges, SourceIn(done + {name})))[e] {
      FilterMultiset(g.edges, SourceIn(done), e);
      FilterMultiset(g.edges, From(name), e);
      FilterMultiset(g.edges, SourceIn(done + {name}), e);
    }
  }

  /** What materialize hands to the builder: each live node once, every live edge once, all fields kept. */
  ghost predicate Materialized(g: Graph, nodes: seq<NodeInput>, edges: seq<Edge>) {
    && Unique(InputNames(nodes))
    && (forall i :: 0 <= i < |nodes| ==> nodes[i].name in g.nodes && nodes[i] == AsInput(g.nodes[nodes[i].name]))
    && (forall name :: name in g.nodes ==> name in InputNames(nodes))
    && multiset(edges) == multiset(g.edges)
  }

  /** The names to emit: base names neither shadowed nor tombstoned, then the shadows and additions. */
  method LiveNames(acc: DeltaAccessor, baseNames: seq<string>, addedNames: seq<string>) returns (names: seq<string>)
    requires acc.Valid() && forall n :: n in acc.base.nodes ==> n in baseNames
    requires forall n :: n in addedNames <==> n in acc.delta.addedNodes
    ensures Unique(names) && forall n :: n in acc.View().nodes ==> n in names
  {
    names := [];
    var seen: set<string> := {};
    for i := 0 to |baseNames|
      invariant Unique(names) && forall n :: n in names <==> n in seen
      invariant forall j :: 0 <= j < i ==>
        baseNames[j] in names || baseNames[j] in acc.delta.addedNodes || baseNames[j] in acc.delta.removedNodes
    {
      var n := baseNames[i];
      if n in acc.delta.addedNodes || n in acc.delta.removedNodes {
        continue;
      }
      if n !in seen {
        seen := seen + {n};
        names := names + [n];
      }
    }
    for i := 0 to |addedNames|
      invariant Unique(names) && forall n :: n in names <==> n in seen
      invariant forall j :: 0 <= j < i ==> addedNames[j] in names
      invariant forall j :: 0 <= j < |baseNames| ==>
        baseNames[j] in names || baseNames[j] in acc.delta.addedNodes || baseNames[j] in acc.delta.removedNodes
    {
      var n := addedNames[i];
      if n !in seen {
        seen := seen + {n};
        names := names + [n];
      }
    }
    forall n | n in acc.View().nodes ensures n in names {
      PresentIsNode(acc.base, acc.delta.Model(), n);
    }
  }

  function Listed(names: seq<string>): set<string> { set n | n in names }

  /** What has been emitted for the first i names. */
  ghost predicate NodesTo(g: Graph, names: seq<string>, i: nat, nodes: seq<NodeInput>) {
    && i <= |names| && Unique(InputNames(nodes))
    && (forall k :: 0 <= k < |nodes| ==> nodes[k].name in names[..i])
    && (forall k :: 0 <= k < |nodes| ==> nodes[k].name in g.nodes && nodes[k] == AsInput(g.nodes[nodes[k].name]))
    && (forall j :: 0 <= j < i && names[j] in g.nodes ==> names[j] in InputNames(nodes))
  }

  ghost predicate EdgesTo(g: Graph, names: seq<string>, i: nat, edges: seq<Edge>) {
    i <= |names| && multiset(edges) == multiset(Filter(g.edges, SourceIn(Listed(names[..i]))))
  }

  lemma NodesStep(g: Graph, names: seq<string>, i: nat, nodes: seq<NodeInput>)
    requires i < |names| && Unique(names) && NodesTo(g, names, i, nodes)
    requires names[i] in g.nodes ==> g.nodes[names[i]].name == names[i]
    ensures NodesTo(g, names, i + 1, if names[i] in g.nodes then nodes + [AsInput(g.nodes[names[i]])] else nodes)
  {
    assert names[..i + 1] == names[..i] + [names[i]];
    assert names[i] !in names[..i];
    if names[i] in g.nodes {
      NodesGrow(g, names, i, nodes, AsInput(g.nodes[names[i]]));
    }
  }

  lemma NodesGrow(g: Graph, names: seq<string>, i: nat, nodes: seq<NodeInput>, x: NodeInput)
    requires i < |names| && NodesTo(g, names, i, nodes) && names[i] !in names[..i] && names[..i + 1] == names[..i] + [names[i]]
    requires names[i] in g.nodes && x == AsInput(g.nodes[names[i]]) && x.name == names[i]
    ensures NodesTo(g, names, i + 1, nodes + [x])
  {
    var more := nodes + [x];
    NamesGrow(nodes, x);
    forall k | 0 <= k < |more| ensures more[k].name in names[..i + 1] {
      assert k < |nodes| ==> more[k] == nodes[k];
    }
    forall j, k | 0 <= j < k < |more| ensures InputNames(more)[j] != InputNames(more)[k] {
      assert InputNames(nodes)[j] == nodes[j].name;
    }
  }

  lemma NamesGrow(nodes: seq<NodeInput>, x: NodeInput)
    ensures InputNames(nodes + [x]) == InputNames(nodes) + [x.name]
  {
    MapAppend(nodes, [x], InputName);
    assert Map([x], InputName) == [x.name];
  }

  /** In whatever order the accessor lists them. */
  lemma EmittedInAnyOrder(g: Graph, name: string, out: seq<NeighborView>)
    requires multiset(out) == multiset(Out(g, name))
    ensures multiset(Map(out, Emitted(name))) == multiset(Filter(g.edges, From(name)))
  {
    EmittedIsFiltered(g, name);
    MapPermuted(out, Out(g, name), Emitted(name));
  }

  lemma EdgesStep(g: Graph, names: seq<string>, i: nat, edges: seq<Edge>, emitted: seq<Edge>)
    requires i < |names| && Unique(names) && EdgesTo(g, names, i, edges)
    requires multiset(emitted) == multiset(Filter(g.edges, From(names[i])))
    ensures EdgesTo(g, names, i + 1, edges + emitted)
  {
    assert names[..i + 1] == names[..i] + [names[i]];
    assert Listed(names[..i + 1]) == Listed(names[..i]) + {names[i]};
    OneMoreSource(g, Listed(names[..i]), names[i], edges);
  }

  lemma AllEmitted(g: Graph, names: seq<string>, nodes: seq<NodeInput>, edges: seq<Edge>)
    requires WellFormed(g) && (forall n :: n in g.nodes ==> n in names)
    requires NodesTo(g, names, |names|, nodes) && EdgesTo(g, names, |names|, edges)
    ensures Materialized(g, nodes, edges)
  {
    assert names[..|names|] == names;
    forall e | e in g.edges ensures SourceIn(Listed(names))(e) { assert EdgeOk(g.nodes, e); }
    FilterAll(g.edges, SourceIn(Listed(names)));
  }

  method Materialize(acc: DeltaAccessor, baseNames: seq<string>, addedNames: seq<string>)
    returns (nodes: seq<NodeInput>, edges: seq<Edge>)
    requires acc.Valid() && forall n :: n in acc.base.nodes ==> n in baseNames
    requires forall n :: n in addedNames <==> n in acc.delta.addedNodes
    ensures Materialized(acc.View(), nodes, edges)
  {
    ghost var g := acc.View();
    MergedWellFormed(acc.base, acc.delta.Model());
    var names := LiveNames(acc, baseNames, addedNames);
    nodes, edges := [], [];
    FilterNone(g.edges, SourceIn(Listed(names[..0])));
    for i := 0 to |names|
      invariant NodesTo(g, names, i, nodes) && EdgesTo(g, names, i, edges)
    {
      NodesStep(g, names, i, nodes);
      var found := acc.GetNode(names[i]);
      if found.Some? {
        nodes := nodes + [AsInput(found.value)];
      }
      var out := acc.OutgoingNeighbors(names[i]);
      EmittedInAnyOrder(g, names[i], out);
      EdgesStep(g, names, i, edges, Map(out, Emitted(names[i])));
      edges := edges + Map(out, Emitted(names[i]));
    }
    AllEmitted(g, names, nodes, edges);
  }

  // ---------------------------------------------------------------------
  // The fold
  // ---------------------------------------------------------------------

  /** The same names, the same node data but for the rank. */
  ghost predicate SameNodes(a: map<string, NodeData>, b: map<string, NodeData>) {
    && a.Keys == b.Keys
    && forall n :: n in a ==> b[n] == a[n].(pagerankWeight := b[n].pagerankWeight)
  }

  /** Moreover the same edges with all their fields. */
  ghost predicate SameGraph(a: Graph, b: Graph) {
    SameNodes(a.nodes, b.nodes) && multiset(a.edges) == multiset(b.edges)
  }

  /** Then every read agrees: counts, and each node's outgoing and incoming edges as multisets. */
  lemma SameReads(a: Graph, b: Graph, name: string)
    requires SameGraph(a, b)
    ensures |a.nodes| == |b.nodes| && |a.edges| == |b.edges|
    ensures multiset(Out(a, name)) == multiset(Out(b, name))
    ensures multiset(In(a, name)) == multiset(In(b, name))
  {
    KeyCount(a.nodes);
    KeyCount(b.nodes);
    assert |a.edges| == |multiset(a.edges)| && |b.edges| == |multiset(b.edges)|;
    FilterPermuted(a.edges, b.edges, From(name));
    MapPermuted(Filter(a.edges, From(name)), Filter(b.edges, From(name)), OutView);
    FilterPermuted(a.edges, b.edges, To(name));
    MapPermuted(Filter(a.edges, To(name)), Filter(b.edges, To(name)), InView);
  }

  lemma SameWellFormed(a: Graph, b: Graph)
    requires SameGraph(a, b) && WellFormed(a)
    ensures WellFormed(b)
  {
    forall n | n in b.nodes ensures b.nodes[n].name == n {
      assert n in a.nodes.Keys;
    }
    forall e | e in b.edges ensures EdgeOk(b.nodes, e) {
      assert e in multiset(b.edges);
      assert e in a.edges && EdgeOk(a.nodes, e);
      assert e.from in b.nodes.Keys && e.to in b.nodes.Keys;
    }
  }

  /** On materialized input none of the builder's skip rules fires and no tag list changes. */
  lemma NothingSkipped(g: Graph, names: seq<string>, edges: seq<Edge>)
    requires WellFormed(g) && multiset(edges) == multiset(g.edges)
    requires forall n :: n in g.nodes ==> n in names
    ensures Filter(edges, Kept(names)) == edges
    ensures Map(edges, NormalizedEdge) == edges
  {
    forall e | e in edges ensures Kept(names)(e) && NormalizedEdge(e) == e {
      assert e in multiset(edges);
      assert EdgeOk(g.nodes, e);
      NormalizeCanonical(e.data.acl, e.data.acl);
    }
    FilterAll(edges, Kept(names));
    forall i | 0 <= i < |edges| ensures Map(edges, NormalizedEdge)[i] == edges[i] {
      assert edges[i] in edges;
    }
  }

  lemma {:induction false} LastOfUnique(xs: seq<NodeInput>, i: nat)
    requires Unique(InputNames(xs)) && i < |xs|
    ensures LastInput(xs, xs[i].name) == Some(xs[i])
  {
    var last := |xs| - 1;
    if i < last {
      assert InputNames(xs)[i] != InputNames(xs)[last];
      assert forall j :: 0 <= j < last ==> InputNames(xs[..last])[j] == InputNames(xs)[j];
      LastOfUnique(xs[..last], i);
    }
  }

  /** A name is an input's name exactly when it is a node of the merged graph; its input is that node's. */
  lemma InputIsNode(g: Graph, xs: seq<NodeInput>, edges: seq<Edge>, name: string)
    requires Materialized(g, xs, edges)
    ensures LastInput(xs, name).Some? <==> name in g.nodes
    ensures name in g.nodes ==> LastInput(xs, name) == Some(AsInput(g.nodes[name]))
  {
    LastInputNamed(xs, name);
    if name in g.nodes {
      assert name in InputNames(xs);
      var i :| 0 <= i < |xs| && InputNames(xs)[i] == name;
      LastOfUnique(xs, i);
    }
    if LastInput(xs, name).Some? {
      var i :| 0 <= i < |xs| && xs[i] == LastInput(xs, name).value;
      assert xs[i].name in g.nodes;
    }
  }

  /** A prenormalized build of materialized input is the merged graph again. */
  lemma BuiltIsSame(g: Graph, xs: seq<NodeInput>, edges: seq<Edge>, built: Owned)
    requires WellFormed(g) && Materialized(g, xs, edges) && OwnedOk(built)
    requires forall i :: 0 <= i < |built.nodes| ==> Carries(built.nodes, xs, false, 1.0, i)
    requires forall name :: name in Names(built.nodes) <==> LastInput(xs, name).Some?
    requires Meaning(built).edges == Map(Filter(edges, Kept(Names(built.nodes))), NormalizedEdge)
    ensures SameGraph(g, Meaning(built))
  {
    var nodes := Meaning(built).nodes;
    forall n ensures n in Names(built.nodes) <==> n in g.nodes { InputIsNode(g, xs, edges, n); }
    NothingSkipped(g, Names(built.nodes), edges);
    forall n ensures n in nodes <==> n in g.nodes {
      NodeMapAt(built.nodes, n);
      NamePosition(built.nodes, n);
    }
    assert nodes.Keys == g.nodes.Keys;
    forall n | n in g.nodes ensures nodes[n] == g.nodes[n].(pagerankWeight := nodes[n].pagerankWeight) {
      BuiltNode(g, xs, edges, built, n);
    }
  }

  lemma BuiltNode(g: Graph, xs: seq<NodeInput>, edges: seq<Edge>, built: Owned, n: string)
    requires Materialized(g, xs, edges) && n in g.nodes
    requires forall i :: 0 <= i < |built.nodes| ==> Carries(built.nodes, xs, false, 1.0, i)
    requires n in NodeMap(built.nodes)
    ensures NodeMap(built.nodes)[n] == g.nodes[n].(pagerankWeight := NodeMap(built.nodes)[n].pagerankWeight)
  {
    NodeMapAt(built.nodes, n);
    var i := PositionOf(built.nodes, n).value;
    assert Carries(built.nodes, xs, false, 1.0, i);
    InputIsNode(g, xs, edges, n);
  }

  lemma UniqueWithin(names: seq<string>, within: set<string>)
    requires Unique(names) && forall n :: n in names ==> n in within
    ensures |names| <= |within|
    decreases names
  {
    if names != [] {
      forall n | n in names[1..] ensures n in within - {names[0]} {
        var k :| 0 <= k < |names[1..]| && names[1..][k] == n;
        assert names[0] != names[k + 1];
      }
      UniqueWithin(names[1..], within - {names[0]});
    }
  }

  /**
   Materialize, build without normalizing, write: the snapshot passes validation and,
   under a fresh empty overlay, presents the graph the old base and overlay presented.
   */
  method FoldSnapshot(hash: string -> nat, acc: DeltaAccessor, baseNames: seq<string>, addedNames: seq<string>)
    returns (a: Snapshot)
    requires acc.Valid() && forall n :: n in acc.base.nodes ==> n in baseNames
    requires forall n :: n in addedNames <==> n in acc.delta.addedNodes
    requires |acc.View().nodes| <= NameTable.EMPTY
    ensures CsrOk(hash, a)
    ensures SameGraph(acc.View(), GraphOf(a.nodes, a.edges)) && WellFormed(GraphOf(a.nodes, a.edges))
    ensures RanksFollow(GraphOf(a.nodes, a.edges))
  {
    ghost var g := acc.View();
    MergedWellFormed(acc.base, acc.delta.Model());
    var nodes, edges := Materialize(acc, baseNames, addedNames);
    var built, divisor := BuildGraph(nodes, edges, false);
    BuiltIsSame(g, nodes, edges, built);
    BuiltFits(g, built);
    a := ToRkyvV2(hash, built);
    SameWellFormed(g, GraphOf(a.nodes, a.edges));
    SameRanks(Meaning(built), GraphOf(a.nodes, a.edges));
  }

  lemma SameRanks(a: Graph, b: Graph)
    requires RanksFollow(a) && a.nodes == b.nodes && multiset(a.edges) == multiset(b.edges)
    ensures RanksFollow(b)
  {
    forall n ensures Entered(a, n) <==> Entered(b, n) {
      if e :| e in a.edges && e.to == n {
        assert e in multiset(b.edges);
      }
      if e :| e in b.edges && e.to == n {
        assert e in multiset(a.edges);
      }
    }
  }

  lemma BuiltFits(g: Graph, built: Owned)
    requires SameGraph(g, Meaning(built)) && OwnedOk(built)
    ensures |built.nodes| <= |g.nodes|
  {
    forall n | n in Names(built.nodes) ensures n in g.nodes.Keys {
      NamePosition(built.nodes, n);
      NodeMapAt(built.nodes, n);
    }
    UniqueWithin(Names(built.nodes), g.nodes.Keys);
    KeyCount(g.nodes);
  }

  /** A fresh overlay over the folded graph presents the folded graph. */
  lemma FreshOverlayIsBase(base: Graph)
    ensures Merged(base, DeltaModel.EMPTY) == base && DeltaOk(base, DeltaModel.EMPTY)
  {
    FilterAll(base.edges, Unmasked(DeltaModel.EMPTY));
    assert LiveDelta(DeltaModel.EMPTY) == [];
    assert Merged(base, DeltaModel.EMPTY).nodes == base.nodes;
  }
}
