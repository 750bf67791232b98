/** A plain directed multigraph with named nodes: what every accessor of the repository presents. */
module Graphs {
  import opened Types
  import opened Seqs
  import opened Strings
  import opened Overlay

  datatype Edge = Edge(from: string, to: string, data: EdgeData)

  /** Parallel edges and self-loops are allowed. */
  datatype Graph = Graph(nodes: map<string, NodeData>, edges: seq<Edge>)

  /** A validity window that some instant can satisfy or that merely touches: from does not exceed to. */
  predicate WindowOk(d: EdgeData) {
    d.validFrom.Some? && d.validTo.Some? ==> d.validFrom.value <= d.validTo.value
  }

  ghost predicate EdgeOk(nodes: map<string, NodeData>, e: Edge) {
    e.from in nodes && e.to in nodes && WindowOk(e.data) && StrictlySorted(e.data.acl)
  }

  /** Unique names, endpoints present, sane windows, canonical tag lists: what the builder emits. */
  ghost predicate WellFormed(g: Graph) {
    && (forall n :: n in g.nodes ==> g.nodes[n].name == n)
    && (forall e :: e in g.edges ==> EdgeOk(g.nodes, e))
  }

  function ViewOf(other: string, d: EdgeData): NeighborView {
    NeighborView(other, d.kind, d.fieldName, d.baseWeight, d.validFrom, d.validTo, d.acl)
  }

  function OutView(e: Edge): NeighborView { ViewOf(e.to, e.data) }

  function InView(e: Edge): NeighborView { ViewOf(e.from, e.data) }

  /** Selects the edges that leave n. */
  function From(n: string): Edge -> bool { (e: Edge) => e.from == n }

  /** Selects the edges that enter n. */
  function To(n: string): Edge -> bool { (e: Edge) => e.to == n }

  /** outgoing_neighbors, as a scan of all edges. */
  function Out(g: Graph, n: string): seq<NeighborView> {
    Map(Filter(g.edges, From(n)), OutView)
  }

  /** incoming_neighbors; each view names the source. */
  function In(g: Graph, n: string): seq<NeighborView> {
    Map(Filter(g.edges, To(n)), InView)
  }

  /** What a traversal reads of a graph: its nodes, and the outgoing list of each. */
  function SearchView(g: Graph): GraphView {
    GraphView(g.nodes, map n | n in g.nodes :: Out(g, n))
  }

  /** A name that is no node has no outgoing edges either, so the search reads the full scan everywhere. */
  lemma SearchViewReads(g: Graph, name: string)
    requires WellFormed(g)
    ensures SearchView(g).Outgoing(name) == Out(g, name)
  {
    if name !in g.nodes {
      forall e | e in g.edges ensures !From(name)(e) {
        assert EdgeOk(g.nodes, e);
      }
      FilterNone(g.edges, From(name));
    }
  }

  ghost predicate FromEdge(d: Edge, e: NeighborEntry) {
    && !e.isOverlay && e.name == d.to && e.kind == d.data.kind && e.fieldName == d.data.fieldName
    && e.weight == d.data.baseWeight && e.validFrom == d.data.validFrom && e.validTo == d.data.validTo && e.acl == d.data.acl
  }

  /** What expanding a node of the graph yields: its outgoing edges and those of the request, of either the ones in force. */
  lemma ExpansionIs(g: Graph, ctx: Context, name: string, e: NeighborEntry)
    requires WellFormed(g)
    ensures e in Neighbors(SearchView(g), ctx, name) <==>
      && InForce(ctx, e)
      && ((name in g.nodes && !LeftOut(SearchView(g), ctx, name) && exists d :: d in g.edges && d.from == name && FromEdge(d, e))
        || exists o :: o in ctx.overlayEdges && o.from == name && FromRequest(o, e))
  {
    NeighborsAre(SearchView(g), ctx, name, e);
    SearchViewReads(g, name);
    OutgoingEntries(g, name, e);
  }

  lemma OutgoingEntries(g: Graph, name: string, e: NeighborEntry)
    ensures (exists v :: v in Out(g, name) && FromView(v, e)) <==> (exists d :: d in g.edges && d.from == name && FromEdge(d, e))
  {
    var mine := Filter(g.edges, From(name));
    if v :| v in Out(g, name) && FromView(v, e) {
      var i :| 0 <= i < |mine| && Out(g, name)[i] == v;
      assert mine[i] in mine && From(name)(mine[i]) && FromEdge(mine[i], e);
    }
    if d :| d in g.edges && d.from == name && FromEdge(d, e) {
      assert From(name)(d);
      var i :| 0 <= i < |mine| && mine[i] == d;
      assert Out(g, name)[i] == OutView(d) && FromView(OutView(d), e);
      assert Out(g, name)[i] in Out(g, name);
    }
  }

  /** The incoming list of a node: its edges, each seen from the far end. */
  lemma IncomingEntries(g: Graph, name: string, v: NeighborView)
    ensures v in In(g, name) <==> exists d :: d in g.edges && d.to == name && v.target == d.from && ShowsData(v, d)
  {
    var mine := Filter(g.edges, To(name));
    if v in In(g, name) {
      var i :| 0 <= i < |mine| && In(g, name)[i] == v;
      assert mine[i] in mine && To(name)(mine[i]) && ShowsData(v, mine[i]);
    }
    if d :| d in g.edges && d.to == name && v.target == d.from && ShowsData(v, d) {
      assert To(name)(d);
      var i :| 0 <= i < |mine| && mine[i] == d;
      assert In(g, name)[i] == InView(d) == v;
    }
  }

  ghost predicate ShowsData(v: NeighborView, d: Edge) {
    && v.kind == d.data.kind && v.fieldName == d.data.fieldName && v.weight == d.data.baseWeight
    && v.validFrom == d.data.validFrom && v.validTo == d.data.validTo && v.acl == d.data.acl
  }

  ghost predicate Entered(g: Graph, n: string) { exists e :: e in g.edges && e.to == n }

  /** A node that some edge enters outranks every node that none enters. */
  ghost predicate RanksFollow(g: Graph) {
    forall m, n :: m in g.nodes && n in g.nodes && Entered(g, m) && !Entered(g, n) ==>
      g.nodes[n].pagerankWeight < g.nodes[m].pagerankWeight
  }

  // ---------------------------------------------------------------------
  // Counting edges node by node
  // ---------------------------------------------------------------------

  ghost function SumOver(names: set<string>, f: string -> nat): nat {
    if names == {} then 0 else
    var n :| n in names;
    f(n) + SumOver(names - {n}, f)
  }

  lemma {:induction false} SumZero(names: set<string>, f: string -> nat)
    requires forall n :: n in names ==> f(n) == 0
    ensures SumOver(names, f) == 0
  {
    if names != {} {
      var n :| n in names && SumOver(names, f) == f(n) + SumOver(names - {n}, f);
      SumZero(names - {n}, f);
    }
  }

  /** Adding one at a single name adds one to the sum. */
  lemma {:induction false} SumBump(names: set<string>, f: string -> nat, g: string -> nat, at: string)
    requires at in names
    requires forall n :: n in names ==> g(n) == f(n) + (if n == at then 1 else 0)
    ensures SumOver(names, g) == SumOver(names, f) + 1
  {
    SumRemove(names, f, at);
    SumRemove(names, g, at);
    SumSame(names - {at}, f, g);
  }

  lemma {:induction false} SumSame(names: set<string>, f: string -> nat, g: string -> nat)
    requires forall n :: n in names ==> g(n) == f(n)
    ensures SumOver(names, g) == SumOver(names, f)
  {
    if names != {} {
      var n :| n in names && SumOver(names, f) == f(n) + SumOver(names - {n}, f);
      SumRemove(names, g, n);
      SumSame(names - {n}, f, g);
    }
  }

  /** Any member may be taken first. */
  lemma {:induction false} SumRemove(names: set<string>, f: string -> nat, at: string)
    requires at in names
    ensures SumOver(names, f) == f(at) + SumOver(names - {at}, f)
    decreases names
  {
    var n :| n in names && SumOver(names, f) == f(n) + SumOver(names - {n}, f);
    if n != at {
      SumRemove(names - {n}, f, at);
      SumRemove(names - {at}, f, n);
      assert names - {n} - {at} == names - {at} - {n};
    }
  }

  /** How many members of s fall under each name. */
  function ClassSize<T>(s: seq<T>, key: T -> string): string -> nat { n => Count(s, x => key(x) == n) }

  function OutDegree(g: Graph): string -> nat { n => |Out(g, n)| }

  function InDegree(g: Graph): string -> nat { n => |In(g, n)| }

  /** Classifying each member of s under one of the names loses nothing. */
  lemma {:induction false} SumOfClasses<T>(names: set<string>, s: seq<T>, key: T -> string)
    requires forall x :: x in s ==> key(x) in names
    ensures SumOver(names, ClassSize(s, key)) == |s|
  {
    if s == [] {
      SumZero(names, ClassSize(s, key));
    } else {
      SumOfClasses(names, s[1..], key);
      SumBump(names, ClassSize(s[1..], key), ClassSize(s, key), key(s[0]));
    }
  }

  lemma ClassCount<T>(s: seq<T>, key: T -> string, n: string, p: T -> bool)
    requires forall x :: x in s ==> p(x) == (key(x) == n)
    ensures Count(s, p) == ClassSize(s, key)(n)
  {
    FilterSame(s, p, x => key(x) == n);
  }

  lemma OutDegrees(g: Graph)
    requires WellFormed(g)
    ensures SumOver(g.nodes.Keys, OutDegree(g)) == |g.edges|
  {
    var key := (e: Edge) => e.from;
    SumOfClasses(g.nodes.Keys, g.edges, key);
    forall n | n in g.nodes ensures OutDegree(g)(n) == ClassSize(g.edges, key)(n) {
      ClassCount(g.edges, key, n, From(n));
    }
    SumSame(g.nodes.Keys, ClassSize(g.edges, key), OutDegree(g));
  }

  lemma InDegrees(g: Graph)
    requires WellFormed(g)
    ensures SumOver(g.nodes.Keys, InDegree(g)) == |g.edges|
  {
    var key := (e: Edge) => e.to;
    SumOfClasses(g.nodes.Keys, g.edges, key);
    forall n | n in g.nodes ensures InDegree(g)(n) == ClassSize(g.edges, key)(n) {
      ClassCount(g.edges, key, n, To(n));
    }
    SumSame(g.nodes.Keys, ClassSize(g.edges, key), InDegree(g));
  }

  /** The number of edges is the total of the outgoing lists over the nodes, and of the incoming lists. */
  lemma DegreesSumToEdges(g: Graph)
    requires WellFormed(g)
    ensures SumOver(g.nodes.Keys, OutDegree(g)) == |g.edges| == SumOver(g.nodes.Keys, InDegree(g))
  {
    OutDegrees(g);
    InDegrees(g);
  }
}
