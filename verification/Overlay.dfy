/**
 The neighbour relation every traversal expands through: a graph's own edges and
 the overlay edges of the request, filtered by visibility (src/overlay.rs,
 src/types.rs:217-257).
 */
module Overlay {
  import opened Types
  import opened Seqs

  /** A neighbour as a graph reports it; for incoming edges `target` is the source. */
  datatype NeighborView = NeighborView(
    target: string,
    kind: string,
    fieldName: Option<string>,
    weight: real,
    validFrom: Option<nat>,
    validTo: Option<nat>,
    acl: seq<string>)

  datatype NeighborEntry = NeighborEntry(
    name: string,
    kind: string,
    fieldName: Option<string>,
    weight: real,
    isOverlay: bool,
    validFrom: Option<nat>,
    validTo: Option<nat>,
    acl: seq<string>)

  datatype OverlayEdge = OverlayEdge(from: string, to: string, edge: EdgeData)

  /** What a traversal reads of a graph. */
  datatype GraphView = GraphView(nodes: map<string, NodeData>, out: map<string, seq<NeighborView>>) {
    function Outgoing(name: string): seq<NeighborView> { if name in out then out[name] else [] }
  }

  /** The per-request context. `score` is the weight compute_score gives a node under its other fields. */
  datatype Context = Context(
    score: NodeData -> real,
    overlayNodes: seq<NodeData>,
    overlayEdges: seq<OverlayEdge>,
    semanticBoosts: map<string, real>,
    maxFanOut: Option<nat>,
    pagerankBypass: Option<real>,
    asOf: Option<nat>,
    principals: seq<string>)

  // ---------------------------------------------------------------------
  // Visibility
  // ---------------------------------------------------------------------

  predicate IsVisible(ctx: Context, validFrom: Option<nat>, validTo: Option<nat>, acl: seq<string>) {
    && (ctx.asOf.Some? ==>
          && (validFrom.Some? ==> ctx.asOf.value >= validFrom.value)
          && (validTo.Some? ==> ctx.asOf.value < validTo.value))
    && (acl == [] || exists t :: t in acl && t in ctx.principals)
  }

  predicate EntryVisible(ctx: Context, n: NeighborEntry) {
    IsVisible(ctx, n.validFrom, n.validTo, n.acl)
  }

  // ---------------------------------------------------------------------
  // The overlay index
  // ---------------------------------------------------------------------

  function ListAt(edges: map<string, seq<OverlayEdge>>, name: string): seq<OverlayEdge> {
    if name in edges then edges[name] else []
  }

  datatype OverlayIndex = OverlayIndex(edges: map<string, seq<OverlayEdge>>, nodes: map<string, NodeData>) {
    function EdgesFrom(name: string): seq<OverlayEdge> { ListAt(edges, name) }
  }

  /** The last overlay node of a given name. */
  function LastNamed(nodes: seq<NodeData>, name: string): Option<NodeData> {
    if nodes == [] then None
    else if nodes[|nodes| - 1].name == name then Some(nodes[|nodes| - 1])
    else LastNamed(nodes[..|nodes| - 1], name)
  }

  function OverlaySource(name: string): OverlayEdge -> bool { (e: OverlayEdge) => e.from == name }

  function OverlayFrom(ctx: Context, name: string): seq<OverlayEdge> {
    Filter(ctx.overlayEdges, OverlaySource(name))
  }

  /** The index agrees with a scan of the context. */
  ghost predicate Indexes(index: OverlayIndex, ctx: Context) {
    && (forall name :: index.EdgesFrom(name) == OverlayFrom(ctx, name))
    && (forall name :: (name in index.nodes <==> LastNamed(ctx.overlayNodes, name).Some?)
          && (name in index.nodes ==> Some(index.nodes[name]) == LastNamed(ctx.overlayNodes, name)))
  }

  /** The overlay edges of each source, among the first i. */
  ghost predicate IndexedTo(edges: map<string, seq<OverlayEdge>>, es: seq<OverlayEdge>, i: nat) {
    i <= |es| && forall name :: ListAt(edges, name) == Filter(es[..i], OverlaySource(name))
  }

  lemma IndexOneMore(edges: map<string, seq<OverlayEdge>>, es: seq<OverlayEdge>, i: nat)
    requires i < |es| && IndexedTo(edges, es, i)
    ensures IndexedTo(edges[es[i].from := ListAt(edges, es[i].from) + [es[i]]], es, i + 1)
  {
    var e := es[i];
    var next := edges[e.from := ListAt(edges, e.from) + [e]];
    assert es[..i + 1] == es[..i] + [e];
    forall name ensures ListAt(next, name) == Filter(es[..i + 1], OverlaySource(name)) {
      FilterSnoc(es[..i], e, OverlaySource(name));
      assert ListAt(edges, name) == Filter(es[..i], OverlaySource(name));
    }
  }

  method IndexEdges(es: seq<OverlayEdge>) returns (edges: map<string, seq<OverlayEdge>>)
    ensures IndexedTo(edges, es, |es|)
  {
    edges := map[];
    for i := 0 to |es|
      invariant IndexedTo(edges, es, i)
    {
      var e := es[i];
      IndexOneMore(edges, es, i);
      edges := edges[e.from := ListAt(edges, e.from) + [e]];
    }
  }

  method IndexNodes(ns: seq<NodeData>) returns (nodes: map<string, NodeData>)
    ensures forall name :: name in nodes <==> LastNamed(ns, name).Some?
    ensures forall name :: name in nodes ==> Some(nodes[name]) == LastNamed(ns, name)
  {
    nodes := map[];
    for i := 0 to |ns|
      invariant forall name :: name in nodes <==> LastNamed(ns[..i], name).Some?
      invariant forall name :: name in nodes ==> Some(nodes[name]) == LastNamed(ns[..i], name)
    {
      assert ns[..i + 1][..i] == ns[..i];
      nodes := nodes[ns[i].name := ns[i]];
    }
    assert ns[..|ns|] == ns;
  }

  /** OverlayIndex::build */
  method BuildIndex(ctx: Context) returns (index: OverlayIndex)
    ensures Indexes(index, ctx)
  {
    var edges := IndexEdges(ctx.overlayEdges);
    assert ctx.overlayEdges[..|ctx.overlayEdges|] == ctx.overlayEdges;
    var nodes := IndexNodes(ctx.overlayNodes);
    index := OverlayIndex(edges, nodes);
  }

  // ---------------------------------------------------------------------
  // Neighbours
  // ---------------------------------------------------------------------

  function FromGraph(n: NeighborView): NeighborEntry {
    NeighborEntry(n.target, n.kind, n.fieldName, n.weight, false, n.validFrom, n.validTo, n.acl)
  }

  function FromOverlay(e: OverlayEdge): NeighborEntry {
    NeighborEntry(e.to, e.edge.kind, e.edge.fieldName, e.edge.baseWeight, true, e.edge.validFrom, e.edge.validTo, e.edge.acl)
  }

  /** A node too wide to expand, neither boosted nor structurally central. */
  predicate CutOff(g: GraphView, ctx: Context, name: string)
    requires name in g.nodes
  {
    && ctx.maxFanOut.Some? && |g.Outgoing(name)| > ctx.maxFanOut.value
    && !(name in ctx.semanticBoosts && ctx.semanticBoosts[name] > 0.0)
    && !(ctx.pagerankBypass.Some? && g.nodes[name].pagerankWeight > ctx.pagerankBypass.value)
  }

  function BaseEntries(g: GraphView, ctx: Context, name: string): seq<NeighborEntry> {
    if name in g.nodes && !CutOff(g, ctx, name) then Map(g.Outgoing(name), FromGraph) else []
  }

  function Unfiltered(g: GraphView, ctx: Context, name: string): seq<NeighborEntry> {
    BaseEntries(g, ctx, name) + Map(OverlayFrom(ctx, name), FromOverlay)
  }

  function Neighbors(g: GraphView, ctx: Context, name: string): seq<NeighborEntry> {
    Filter(Unfiltered(g, ctx, name), (n: NeighborEntry) => EntryVisible(ctx, n))
  }

  /** neighbors_with_overlay_unfiltered */
  method CollectUnfiltered(g: GraphView, ctx: Context, index: OverlayIndex, name: string) returns (result: seq<NeighborEntry>)
    requires Indexes(index, ctx)
    ensures result == Unfiltered(g, ctx, name)
  {
    result := [];
    if name in g.nodes {
      var base := g.Outgoing(name);
      var cut := false;
      if ctx.maxFanOut.Some? && |base| > ctx.maxFanOut.value {
        var boosted := name in ctx.semanticBoosts && ctx.semanticBoosts[name] > 0.0;
        var central := ctx.pagerankBypass.Some? && g.nodes[name].pagerankWeight > ctx.pagerankBypass.value;
        cut := !boosted && !central;
      }
      if !cut {
        for i := 0 to |base|
          invariant result == Map(base[..i], FromGraph)
        {
          assert base[..i + 1] == base[..i] + [base[i]];
          MapAppend(base[..i], [base[i]], FromGraph);
          result := result + [FromGraph(base[i])];
        }
        assert base[..|base|] == base;
      }
    }
    assert result == BaseEntries(g, ctx, name);
    result := CollectOverlay(index.EdgesFrom(name), result);
  }

  /** collect_overlay_edges */
  method CollectOverlay(es: seq<OverlayEdge>, start: seq<NeighborEntry>) returns (result: seq<NeighborEntry>)
    ensures result == start + Map(es, FromOverlay)
  {
    result := start;
    for i := 0 to |es|
      invariant result == start + Map(es[..i], FromOverlay)
    {
      assert es[..i + 1] == es[..i] + [es[i]];
      MapAppend(es[..i], [es[i]], FromOverlay);
      result := result + [FromOverlay(es[i])];
    }
    assert es[..|es|] == es;
  }

  /** neighbors_with_overlay_indexed */
  method NeighborsIndexed(g: GraphView, ctx: Context, index: OverlayIndex, name: string) returns (result: seq<NeighborEntry>)
    requires Indexes(index, ctx)
    ensures result == Neighbors(g, ctx, name)
  {
    var all := CollectUnfiltered(g, ctx, index, name);
    result := Filter(all, (n: NeighborEntry) => EntryVisible(ctx, n));
  }

  /** The node a name stands for: the graph's own before the overlay's. */
  function Resolve(g: GraphView, ctx: Context, name: string): Option<NodeData> {
    if name in g.nodes then Some(g.nodes[name]) else LastNamed(ctx.overlayNodes, name)
  }

  // ---------------------------------------------------------------------
  // What a request sees, spelled out
  // ---------------------------------------------------------------------

  /** nd is what the name stands for: the graph's own node, else the last overlay node of that name. */
  ghost predicate StandsFor(g: GraphView, ctx: Context, name: string, nd: NodeData) {
    if name in g.nodes then nd == g.nodes[name]
    else exists i :: LastAt(ctx.overlayNodes, name, i) && ctx.overlayNodes[i] == nd
  }

  ghost predicate LastAt(nodes: seq<NodeData>, name: string, i: int) {
    && 0 <= i < |nodes| && nodes[i].name == name
    && forall j :: i < j < |nodes| ==> nodes[j].name != name
  }

  ghost predicate Unknown(g: GraphView, ctx: Context, name: string) {
    name !in g.nodes && forall i :: 0 <= i < |ctx.overlayNodes| ==> ctx.overlayNodes[i].name != name
  }

  lemma {:induction false} LastNamedIs(nodes: seq<NodeData>, name: string) returns (i: int)
    ensures LastNamed(nodes, name).Some? ==> LastAt(nodes, name, i) && LastNamed(nodes, name) == Some(nodes[i])
    ensures LastNamed(nodes, name).None? ==> forall j :: 0 <= j < |nodes| ==> nodes[j].name != name
  {
    i := -1;
    if nodes != [] {
      var last := |nodes| - 1;
      if nodes[last].name == name {
        i := last;
      } else {
        i := LastNamedIs(nodes[..last], name);
      }
    }
  }

  lemma OneLast(nodes: seq<NodeData>, name: string, i: int, j: int)
    requires LastAt(nodes, name, i) && LastAt(nodes, name, j)
    ensures i == j
  {
  }

  /** Every name stands for one node or for none. */
  lemma ResolveIs(g: GraphView, ctx: Context, name: string)
    ensures Resolve(g, ctx, name).None? <==> Unknown(g, ctx, name)
    ensures forall nd :: StandsFor(g, ctx, name, nd) <==> Resolve(g, ctx, name) == Some(nd)
  {
    var i := LastNamedIs(ctx.overlayNodes, name);
    forall nd, j | LastAt(ctx.overlayNodes, name, j) && ctx.overlayNodes[j] == nd ensures LastNamed(ctx.overlayNodes, name) == Some(nd) {
      if LastNamed(ctx.overlayNodes, name).Some? {
        OneLast(ctx.overlayNodes, name, i, j);
      }
    }
  }

  /** Public or shared, and, if the request asks about an instant, in force then: from validFrom on, until just before validTo. */
  ghost predicate InForce(ctx: Context, e: NeighborEntry) {
    && (e.acl == [] || exists tag :: tag in e.acl && tag in ctx.principals)
    && forall t :: ctx.asOf == Some(t) ==>
         !(e.validFrom.Some? && t < e.validFrom.value) && !(e.validTo.Some? && e.validTo.value <= t)
  }

  /** The graph's edges at a node are left out exactly if they are too many for a node neither boosted nor central. */
  ghost predicate LeftOut(g: GraphView, ctx: Context, name: string) {
    && ctx.maxFanOut.Some? && |g.Outgoing(name)| > ctx.maxFanOut.value
    && (name in ctx.semanticBoosts ==> ctx.semanticBoosts[name] <= 0.0)
    && (name in g.nodes && ctx.pagerankBypass.Some? ==> g.nodes[name].pagerankWeight <= ctx.pagerankBypass.value)
  }

  ghost predicate FromView(v: NeighborView, e: NeighborEntry) {
    && !e.isOverlay && e.name == v.target && e.kind == v.kind && e.fieldName == v.fieldName && e.weight == v.weight
    && e.validFrom == v.validFrom && e.validTo == v.validTo && e.acl == v.acl
  }

  ghost predicate FromRequest(o: OverlayEdge, e: NeighborEntry) {
    && e.isOverlay && e.name == o.to && e.kind == o.edge.kind && e.fieldName == o.edge.fieldName
    && e.weight == o.edge.baseWeight && e.validFrom == o.edge.validFrom && e.validTo == o.edge.validTo && e.acl == o.edge.acl
  }

  /** What expanding a name yields, field by field: of the graph's edges and the request's own, those in force. */
  lemma NeighborsAre(g: GraphView, ctx: Context, name: string, e: NeighborEntry)
    ensures e in Neighbors(g, ctx, name) <==>
      && InForce(ctx, e)
      && ((name in g.nodes && !LeftOut(g, ctx, name) && exists v :: v in g.Outgoing(name) && FromView(v, e))
        || exists o :: o in ctx.overlayEdges && o.from == name && FromRequest(o, e))
  {
    ViewEntries(g.Outgoing(name), e);
    RequestEntries(ctx, name, e);
    assert e in Unfiltered(g, ctx, name) <==> e in BaseEntries(g, ctx, name) || e in Map(OverlayFrom(ctx, name), FromOverlay);
    assert EntryVisible(ctx, e) <==> InForce(ctx, e);
  }

  lemma ViewEntries(views: seq<NeighborView>, e: NeighborEntry)
    ensures e in Map(views, FromGraph) <==> exists v :: v in views && FromView(v, e)
  {
    if e in Map(views, FromGraph) {
      var i :| 0 <= i < |views| && Map(views, FromGraph)[i] == e;
      assert views[i] in views && FromView(views[i], e);
    }
    if v :| v in views && FromView(v, e) {
      var i :| 0 <= i < |views| && views[i] == v;
      assert Map(views, FromGraph)[i] == e;
    }
  }

  lemma RequestEntries(ctx: Context, name: string, e: NeighborEntry)
    ensures e in Map(OverlayFrom(ctx, name), FromOverlay)
      <==> exists o :: o in ctx.overlayEdges && o.from == name && FromRequest(o, e)
  {
    var mine := OverlayFrom(ctx, name);
    if e in Map(mine, FromOverlay) {
      var i :| 0 <= i < |mine| && Map(mine, FromOverlay)[i] == e;
      assert mine[i] in mine && OverlaySource(name)(mine[i]) && FromRequest(mine[i], e);
    }
    if o :| o in ctx.overlayEdges && o.from == name && FromRequest(o, e) {
      assert OverlaySource(name)(o);
      var i :| 0 <= i < |mine| && mine[i] == o;
      assert Map(mine, FromOverlay)[i] == e;
    }
  }

  /** A boost of zero or less counts as no boost, and a positive one shows every edge, however wide the node is. */
  lemma BoostsDecide(g: GraphView, ctx: Context, name: string)
    requires name in ctx.semanticBoosts
    ensures ctx.semanticBoosts[name] <= 0.0 ==>
      Neighbors(g, ctx, name) == Neighbors(g, ctx.(semanticBoosts := ctx.semanticBoosts - {name}), name)
    ensures ctx.semanticBoosts[name] > 0.0 ==>
      Neighbors(g, ctx, name) == Neighbors(g, ctx.(maxFanOut := None), name)
  {
    var plain, narrow := ctx.(semanticBoosts := ctx.semanticBoosts - {name}), ctx.(maxFanOut := None);
    var visible := (n: NeighborEntry) => EntryVisible(ctx, n);
    if ctx.semanticBoosts[name] <= 0.0 {
      assert Unfiltered(g, ctx, name) == Unfiltered(g, plain, name);
      FilterSame(Unfiltered(g, ctx, name), visible, (n: NeighborEntry) => EntryVisible(plain, n));
    } else {
      assert Unfiltered(g, ctx, name) == Unfiltered(g, narrow, name);
      FilterSame(Unfiltered(g, ctx, name), visible, (n: NeighborEntry) => EntryVisible(narrow, n));
    }
  }

  // ---------------------------------------------------------------------
  // Query-time visibility is the same as a graph filtered beforehand
  // ---------------------------------------------------------------------

  predicate ViewVisible(ctx: Context, n: NeighborView) {
    IsVisible(ctx, n.validFrom, n.validTo, n.acl)
  }

  function StripView(n: NeighborView): NeighborView {
    n.(validFrom := None, validTo := None, acl := [])
  }

  function StripOverlay(e: OverlayEdge): OverlayEdge {
    e.(edge := e.edge.(validFrom := None, validTo := None, acl := []))
  }

  predicate OverlayVisible(ctx: Context, e: OverlayEdge) {
    IsVisible(ctx, e.edge.validFrom, e.edge.validTo, e.edge.acl)
  }

  /** The graph with the edges invisible under ctx removed and the visibility of the rest erased. */
  function Prefiltered(g: GraphView, ctx: Context): GraphView {
    g.(out := map name | name in g.out ::
      Map(Filter(g.out[name], (n: NeighborView) => ViewVisible(ctx, n)), StripView))
  }

  /** The same request without any temporal or ACL filter. */
  function Unrestricted(ctx: Context): Context {
    ctx.(asOf := None, principals := [],
      overlayEdges := Map(Filter(ctx.overlayEdges, (e: OverlayEdge) => OverlayVisible(ctx, e)), StripOverlay))
  }

  function StripEntry(n: NeighborEntry): NeighborEntry {
    n.(validFrom := None, validTo := None, acl := [])
  }

  lemma BasePrefiltered(g: GraphView, ctx: Context, name: string)
    requires ctx.maxFanOut.None?
    ensures BaseEntries(Prefiltered(g, ctx), Unrestricted(ctx), name)
      == Map(Filter(BaseEntries(g, ctx, name), (n: NeighborEntry) => EntryVisible(ctx, n)), StripEntry)
  {
    var all := (n: NeighborView) => true;
    StripThenConvert(g.Outgoing(name), all, (n: NeighborView) => ViewVisible(ctx, n), StripView,
      FromGraph, (n: NeighborEntry) => EntryVisible(ctx, n), StripEntry);
    FilterAll(g.Outgoing(name), all);
    FilterAll(Prefiltered(g, ctx).Outgoing(name), all);
  }

  lemma OverlayPrefiltered(ctx: Context, name: string)
    ensures Map(OverlayFrom(Unrestricted(ctx), name), FromOverlay)
      == Map(Filter(Map(OverlayFrom(ctx, name), FromOverlay), (n: NeighborEntry) => EntryVisible(ctx, n)), StripEntry)
  {
    StripThenConvert(ctx.overlayEdges, OverlaySource(name), (e: OverlayEdge) => OverlayVisible(ctx, e),
      StripOverlay, FromOverlay, (n: NeighborEntry) => EntryVisible(ctx, n), StripEntry);
  }

  /** Node by node, filtering at query time finds what the prefiltered graph holds. */
  lemma NeighborsPrefiltered(g: GraphView, ctx: Context, name: string)
    requires ctx.maxFanOut.None?
    ensures Neighbors(Prefiltered(g, ctx), Unrestricted(ctx), name) == Map(Neighbors(g, ctx, name), StripEntry)
  {
    var evis := (n: NeighborEntry) => EntryVisible(ctx, n);
    var g', ctx' := Prefiltered(g, ctx), Unrestricted(ctx);
    BasePrefiltered(g, ctx, name);
    OverlayPrefiltered(ctx, name);
    var a, b := BaseEntries(g, ctx, name), Map(OverlayFrom(ctx, name), FromOverlay);
    FilterAppend(a, b, evis);
    MapAppend(Filter(a, evis), Filter(b, evis), StripEntry);
    assert Unfiltered(g', ctx', name) == Map(Neighbors(g, ctx, name), StripEntry);
    FilterAll(Unfiltered(g', ctx', name), (n: NeighborEntry) => EntryVisible(ctx', n));
  }
}
