/** Building a graph from raw node and edge inputs (src/builder.rs:57-198). */
module Builder {
  import opened Types
  import opened Seqs
  import opened Strings
  import opened Graphs
  import opened Perms
  import opened NameTable
  import opened Csr
  import opened CsrOrder
  import opened CsrWriter
  import PageRank

  datatype NodeInput = NodeInput(
    name: string,
    kind: string,
    metadata: map<string, string>,
    baseWeight: real,
    noisePenalty: real)

  function InputName(x: NodeInput): string { x.name }

  function InputNames(xs: seq<NodeInput>): seq<string> { Map(xs, InputName) }

  // ---------------------------------------------------------------------
  // Dedup: last occurrence wins
  // ---------------------------------------------------------------------

  function LastInput(xs: seq<NodeInput>, name: string): Option<NodeInput> {
    if xs == [] then None
    else if xs[|xs| - 1].name == name then Some(xs[|xs| - 1])
    else LastInput(xs[..|xs| - 1], name)
  }

  /** One entry per name, holding that name's last input. */
  ghost predicate Deduped(xs: seq<NodeInput>, r: seq<NodeInput>) {
    && Unique(InputNames(r))
    && (forall p :: 0 <= p < |r| ==> LastInput(xs, r[p].name) == Some(r[p]))
    && (forall name :: LastInput(xs, name).Some? ==> LastInput(xs, name).value in r)
  }

  ghost predicate PositionsOk(r: seq<NodeInput>, pos: map<string, nat>) {
    && (forall name :: name in pos ==> pos[name] < |r| && r[pos[name]].name == name)
    && (forall p :: 0 <= p < |r| ==> r[p].name in pos && pos[r[p].name] == p)
  }

  lemma PositionsUnique(r: seq<NodeInput>, pos: map<string, nat>)
    requires PositionsOk(r, pos)
    ensures Unique(InputNames(r))
  {
    forall i, j | 0 <= i < j < |r| ensures InputNames(r)[i] != InputNames(r)[j] {
      assert pos[r[i].name] == i && pos[r[j].name] == j;
    }
  }

  lemma LastInputStep(xs: seq<NodeInput>, i: nat, name: string)
    requires i < |xs|
    ensures LastInput(xs[..i + 1], name) == if xs[i].name == name then Some(xs[i]) else LastInput(xs[..i], name)
  {
    assert xs[..i + 1][..i] == xs[..i];
  }

  /** What the pass has after i inputs. */
  ghost predicate DedupedTo(xs: seq<NodeInput>, i: nat, r: seq<NodeInput>, pos: map<string, nat>) {
    && i <= |xs| && PositionsOk(r, pos)
    && (forall name :: name in pos <==> LastInput(xs[..i], name).Some?)
    && (forall name :: name in pos ==> r[pos[name]] == LastInput(xs[..i], name).value)
  }

  lemma DedupStep(xs: seq<NodeInput>, i: nat, r: seq<NodeInput>, pos: map<string, nat>)
    requires i < |xs| && DedupedTo(xs, i, r, pos)
    ensures xs[i].name in pos ==> DedupedTo(xs, i + 1, r[pos[xs[i].name] := xs[i]], pos)
    ensures xs[i].name !in pos ==> DedupedTo(xs, i + 1, r + [xs[i]], pos[xs[i].name := |r|])
  {
    forall name
      ensures LastInput(xs[..i + 1], name) == if xs[i].name == name then Some(xs[i]) else LastInput(xs[..i], name)
    {
      LastInputStep(xs, i, name);
    }
  }

  method Dedup(xs: seq<NodeInput>) returns (r: seq<NodeInput>)
    ensures Deduped(xs, r)
  {
    r := [];
    var pos: map<string, nat> := map[];
    for i := 0 to |xs|
      invariant DedupedTo(xs, i, r, pos)
    {
      DedupStep(xs, i, r, pos);
      if xs[i].name in pos {
        r := r[pos[xs[i].name] := xs[i]];
      } else {
        pos := pos[xs[i].name := |r|];
        r := r + [xs[i]];
      }
    }
    assert xs[..|xs|] == xs;
    PositionsUnique(r, pos);
  }

  // ---------------------------------------------------------------------
  // Weights
  // ---------------------------------------------------------------------

  /** Negative weights count as 0. */
  function Sanitize(w: real): real { if w < 0.0 then 0.0 else w }

  function Clamp(w: real): real { if w < 0.0 then 0.0 else if w > 1.0 then 1.0 else w }

  function MaxWeight(xs: seq<NodeInput>): (m: real)
    ensures m >= 0.0 && forall x :: x in xs ==> Sanitize(x.baseWeight) <= m
  {
    if xs == [] then 0.0
    else
      var rest := MaxWeight(xs[..|xs| - 1]);
      assert forall x :: x in xs ==> x in xs[..|xs| - 1] || x == xs[|xs| - 1];
      if Sanitize(xs[|xs| - 1].baseWeight) > rest then Sanitize(xs[|xs| - 1].baseWeight) else rest
  }

  /** w is an input weight of some member, or 0 where that is negative. */
  ghost predicate WeightIn(xs: seq<NodeInput>, w: real) {
    exists x :: x in xs && w == if x.baseWeight < 0.0 then 0.0 else x.baseWeight
  }

  /** The divisor is the largest weight, if that is large enough to divide by. */
  ghost predicate DividesBy(xs: seq<NodeInput>, d: real) {
    || (d > PageRank.EPSILON && WeightIn(xs, d) && forall x :: x in xs ==> x.baseWeight <= d)
    || (d == 1.0 && forall x :: x in xs ==> x.baseWeight <= PageRank.EPSILON)
  }

  lemma {:induction false} MaxWeightIsIn(xs: seq<NodeInput>)
    ensures MaxWeight(xs) > 0.0 ==> WeightIn(xs, MaxWeight(xs))
  {
    if xs != [] {
      var init, x := xs[..|xs| - 1], xs[|xs| - 1];
      MaxWeightIsIn(init);
      if Sanitize(x.baseWeight) > MaxWeight(init) {
        assert x in xs && Sanitize(x.baseWeight) == if x.baseWeight < 0.0 then 0.0 else x.baseWeight;
      } else if MaxWeight(init) > 0.0 {
        var y :| y in init && MaxWeight(init) == if y.baseWeight < 0.0 then 0.0 else y.baseWeight;
        assert y in xs;
      }
    }
  }

  lemma DivisorIs(xs: seq<NodeInput>)
    ensures DividesBy(xs, Divisor(xs, true))
  {
    MaxWeightIsIn(xs);
    forall x | x in xs ensures x.baseWeight <= MaxWeight(xs) {
      assert Sanitize(x.baseWeight) <= MaxWeight(xs);
    }
  }

  function Divisor(xs: seq<NodeInput>, normalize: bool): (d: real)
    ensures d > 0.0
  {
    if normalize && MaxWeight(xs) > PageRank.EPSILON then MaxWeight(xs) else 1.0
  }

  /** The node an input becomes; without normalization its weights are kept exactly as given. */
  function Node(x: NodeInput, normalize: bool, divisor: real, rank: real): NodeData
    requires divisor > 0.0
  {
    if normalize
    then NodeData(x.name, x.kind, x.metadata, Sanitize(x.baseWeight) / divisor, Clamp(Sanitize(x.noisePenalty)), rank)
    else NodeData(x.name, x.kind, x.metadata, x.baseWeight, x.noisePenalty, rank)
  }

  /** What a node keeps of its input, field by field; `divisor` scales the weight alone. */
  ghost predicate KeptFrom(nd: NodeData, x: NodeInput, normalize: bool, divisor: real) {
    && nd.name == x.name && nd.kind == x.kind && nd.metadata == x.metadata
    && (!normalize ==> nd.baseWeight == x.baseWeight && nd.noisePenalty == x.noisePenalty)
    && (normalize ==>
          && nd.baseWeight * divisor == (if x.baseWeight < 0.0 then 0.0 else x.baseWeight)
          && (x.baseWeight == divisor ==> nd.baseWeight == 1.0)
          && (x.noisePenalty <= 0.0 ==> nd.noisePenalty == 0.0)
          && (0.0 <= x.noisePenalty <= 1.0 ==> nd.noisePenalty == x.noisePenalty)
          && (x.noisePenalty >= 1.0 ==> nd.noisePenalty == 1.0))
  }

  lemma NodeKeeps(x: NodeInput, normalize: bool, divisor: real, rank: real)
    requires divisor > 0.0
    ensures KeptFrom(Node(x, normalize, divisor, rank), x, normalize, divisor)
  {
    TimesBack(Sanitize(x.baseWeight), divisor);
  }

  lemma TimesBack(a: real, b: real)
    requires b > 0.0
    ensures (a / b) * b == a && (a == b ==> a / b == 1.0)
  {
  }

  /** Ingested weights land in [0,1]. */
  lemma NormalizedWeights(xs: seq<NodeInput>, x: NodeInput, rank: real)
    requires x in xs
    ensures 0.0 <= Node(x, true, Divisor(xs, true), rank).baseWeight <= 1.0
    ensures 0.0 <= Node(x, true, Divisor(xs, true), rank).noisePenalty <= 1.0
  {
    Quotient(Sanitize(x.baseWeight), Divisor(xs, true));
  }

  lemma Quotient(a: real, b: real)
    requires 0.0 <= a <= b && b > 0.0
    ensures 0.0 <= a / b <= 1.0
  {
  }

  // ---------------------------------------------------------------------
  // Edges
  // ---------------------------------------------------------------------

  /** An edge input survives if both ends are known and some instant can satisfy its window. */
  function Kept(names: seq<string>): Edge -> bool {
    (e: Edge) => e.from in names && e.to in names && WindowOk(e.data)
  }

  lemma NamePosition(nodes: seq<NodeData>, name: string)
    ensures name in Names(nodes) <==> PositionOf(nodes, name).Some?
  {
    if i :| 0 <= i < |nodes| && nodes[i].name == name {
      assert Names(nodes)[i] == name;
    }
    if name in Names(nodes) {
      var i :| 0 <= i < |nodes| && Names(nodes)[i] == name;
    }
  }

  function Indexed(nodes: seq<NodeData>): Edge -> IndexedEdge {
    (e: Edge) => IndexedEdge(IndexIn(nodes, e.from), IndexIn(nodes, e.to), e.data.(acl := NormalizeAcl(e.data.acl)))
  }

  /** One edge input: skipped, or an edge between positions with its tags sorted and deduplicated. */
  method InsertEdge(nodes: seq<NodeData>, e: Edge) returns (r: Option<IndexedEdge>)
    ensures r == if Kept(Names(nodes))(e) then Some(Indexed(nodes)(e)) else None
  {
    NamePosition(nodes, e.from);
    NamePosition(nodes, e.to);
    var from, to := PositionOf(nodes, e.from), PositionOf(nodes, e.to);
    if from.None? {
      return None;
    }
    if to.None? {
      return None;
    }
    if e.data.validFrom.Some? && e.data.validTo.Some? && e.data.validFrom.value > e.data.validTo.value {
      return None;
    }
    var acl := Normalize(e.data.acl);
    return Some(IndexedEdge(from.value, to.value, e.data.(acl := acl)));
  }

  method InsertEdges(nodes: seq<NodeData>, edges: seq<Edge>) returns (r: seq<IndexedEdge>)
    ensures r == Map(Filter(edges, Kept(Names(nodes))), Indexed(nodes))
  {
    r := [];
    for i := 0 to |edges|
      invariant r == Map(Filter(edges[..i], Kept(Names(nodes))), Indexed(nodes))
    {
      assert edges[..i + 1] == edges[..i] + [edges[i]];
      MapFilterSnoc(edges[..i], edges[i], Kept(Names(nodes)), Indexed(nodes));
      var one := InsertEdge(nodes, edges[i]);
      if one.Some? {
        r := r + [one.value];
      }
    }
    assert edges[..|edges|] == edges;
  }

  function NormalizedEdge(e: Edge): Edge { e.(data := e.data.(acl := NormalizeAcl(e.data.acl))) }

  /** The named edges of the built graph: the survivors in input order, tags canonical. */
  lemma BuiltEdges(nodes: seq<NodeData>, edges: seq<Edge>)
    ensures var built := Map(Filter(edges, Kept(Names(nodes))), Indexed(nodes));
      && EndpointsOk(built, |nodes|)
      && Map(built, Named(nodes)) == Map(Filter(edges, Kept(Names(nodes))), NormalizedEdge)
  {
    var kept := Filter(edges, Kept(Names(nodes)));
    forall e | e in kept
      ensures Indexed(nodes)(e).from < |nodes| && Indexed(nodes)(e).to < |nodes|
      ensures NormalizedEdge(e) == Named(nodes)(Indexed(nodes)(e))
    {
      assert Kept(Names(nodes))(e);
      NamePosition(nodes, e.from);
      NamePosition(nodes, e.to);
    }
    var built := Map(kept, Indexed(nodes));
    forall k | 0 <= k < |built| ensures built[k].from < |nodes| && built[k].to < |nodes| {
      assert kept[k] in kept;
    }
    MapTwice(kept, Indexed(nodes), Named(nodes), NormalizedEdge);
  }

  /** Both ends known, and not a window that closes before it opens. */
  ghost predicate Survives(names: seq<string>, e: Edge) {
    && e.from in names && e.to in names
    && !(e.data.validFrom.Some? && e.data.validTo.Some? && e.data.validTo.value < e.data.validFrom.value)
  }

  /** The edge as it was put in, but for its tags, which are sorted and listed once. */
  ghost predicate CanonOf(b: Edge, e: Edge) {
    && b.from == e.from && b.to == e.to && b.data == e.data.(acl := b.data.acl)
    && StrictlySorted(b.data.acl) && forall tag :: tag in b.data.acl <==> tag in e.data.acl
  }

  /** Exactly the inputs that survive, one after the other. */
  ghost predicate SurvivorsOf(names: seq<string>, edges: seq<Edge>, built: seq<Edge>)
    decreases |edges|
  {
    if edges == [] then built == []
    else if Survives(names, edges[0]) then
      built != [] && CanonOf(built[0], edges[0]) && SurvivorsOf(names, edges[1..], built[1..])
    else SurvivorsOf(names, edges[1..], built)
  }

  lemma {:induction false} BuiltAreSurvivors(names: seq<string>, edges: seq<Edge>)
    ensures SurvivorsOf(names, edges, Map(Filter(edges, Kept(names)), NormalizedEdge))
  {
    if edges != [] {
      BuiltAreSurvivors(names, edges[1..]);
      NormalizedIsSorted(edges[0].data.acl);
      var rest := Filter(edges[1..], Kept(names));
      if Kept(names)(edges[0]) {
        assert ([edges[0]] + rest)[1..] == rest;
      }
    }
  }

  // ---------------------------------------------------------------------
  // build_graph_inner
  // ---------------------------------------------------------------------

  predicate InputLe(a: NodeInput, b: NodeInput) { StringLe(a.name, b.name) }

  function ToNode(normalize: bool, divisor: real): NodeInput -> NodeData
    requires divisor > 0.0
  {
    (x: NodeInput) => Node(x, normalize, divisor, 0.0)
  }

  function Ranked(nodes: seq<NodeData>, weights: seq<real>): (r: seq<NodeData>)
    requires |weights| == |nodes|
    ensures |r| == |nodes| && forall i :: 0 <= i < |r| ==> r[i] == nodes[i].(pagerankWeight := weights[i])
  {
    if nodes == [] then []
    else Ranked(nodes[..|nodes| - 1], weights[..|nodes| - 1]) + [nodes[|nodes| - 1].(pagerankWeight := weights[|nodes| - 1])]
  }

  const DAMPING: real := 0.85

  const ITERATIONS: nat := 20

  lemma InputLeIsTotal()
    ensures TotalPreorder(InputLe)
  {
    StringLeIsTotal();
  }

  lemma SortedInputs(xs: seq<NodeInput>, deduped: seq<NodeInput>)
    requires Deduped(xs, deduped)
    ensures Deduped(xs, SortBy(deduped, InputLe)) && StrictlySorted(InputNames(SortBy(deduped, InputLe)))
  {
    var sorted := SortBy(deduped, InputLe);
    InputLeIsTotal();
    SortByIs(deduped, InputLe);
    MapPermuted(sorted, deduped, InputName);
    PermutedUnique(InputNames(sorted), InputNames(deduped));
    forall p | 0 <= p < |sorted| ensures LastInput(xs, sorted[p].name) == Some(sorted[p]) {
      assert sorted[p] in multiset(deduped);
      var q :| 0 <= q < |deduped| && deduped[q] == sorted[p];
    }
    forall name | LastInput(xs, name).Some? ensures LastInput(xs, name).value in sorted {
      assert LastInput(xs, name).value in multiset(sorted);
    }
    forall i, j | 0 <= i < j < |sorted| ensures Lt(InputNames(sorted)[i], InputNames(sorted)[j]) {
      assert InputLe(sorted[i], sorted[j]);
    }
  }

  /** Node i of the built graph holds its name's last input, whatever the rank. */
  ghost predicate Carries(nodes: seq<NodeData>, xs: seq<NodeInput>, normalize: bool, divisor: real, i: nat)
    requires i < |nodes| && divisor > 0.0
  {
    var x := LastInput(xs, nodes[i].name);
    x.Some? && nodes[i] == Node(x.value, normalize, divisor, nodes[i].pagerankWeight)
  }

  function BuiltNodes(sorted: seq<NodeInput>, normalize: bool, divisor: real, weights: seq<real>): (r: seq<NodeData>)
    requires divisor > 0.0 && |weights| == |sorted|
    ensures |r| == |sorted| && forall i :: 0 <= i < |r| ==> r[i] == Node(sorted[i], normalize, divisor, weights[i])
  {
    Ranked(Map(sorted, ToNode(normalize, divisor)), weights)
  }

  lemma BuiltNames(sorted: seq<NodeInput>, normalize: bool, divisor: real, weights: seq<real>)
    requires divisor > 0.0 && |weights| == |sorted|
    ensures Names(BuiltNodes(sorted, normalize, divisor, weights)) == InputNames(sorted)
      == Names(Map(sorted, ToNode(normalize, divisor)))
  {
  }

  lemma SortedNames(xs: seq<NodeInput>, sorted: seq<NodeInput>, name: string)
    requires Deduped(xs, sorted)
    ensures name in InputNames(sorted) <==> LastInput(xs, name).Some?
  {
    if name in InputNames(sorted) {
      var i :| 0 <= i < |sorted| && InputNames(sorted)[i] == name;
      assert LastInput(xs, sorted[i].name) == Some(sorted[i]);
    }
    if LastInput(xs, name).Some? {
      LastInputNamed(xs, name);
      var i :| 0 <= i < |sorted| && sorted[i] == LastInput(xs, name).value;
      assert InputNames(sorted)[i] == name;
    }
  }

  lemma NodesAre(xs: seq<NodeInput>, sorted: seq<NodeInput>, normalize: bool, divisor: real, weights: seq<real>)
    requires divisor > 0.0 && Deduped(xs, sorted) && |weights| == |sorted|
    ensures var nodes := BuiltNodes(sorted, normalize, divisor, weights);
      forall i :: 0 <= i < |nodes| ==> Carries(nodes, xs, normalize, divisor, i)
  {
    var nodes := BuiltNodes(sorted, normalize, divisor, weights);
    forall i | 0 <= i < |nodes| ensures Carries(nodes, xs, normalize, divisor, i) {
      assert LastInput(xs, sorted[i].name) == Some(sorted[i]);
    }
  }

  lemma {:induction false} LastInputNamed(xs: seq<NodeInput>, name: string)
    ensures LastInput(xs, name).Some? ==> LastInput(xs, name).value.name == name && LastInput(xs, name).value in xs
    ensures LastInput(xs, name).None? ==> forall i :: 0 <= i < |xs| ==> xs[i].name != name
  {
    if xs != [] {
      LastInputNamed(xs[..|xs| - 1], name);
    }
  }

  /** Edges mean the same between nodes of the same names. */
  lemma SameMeaning(a: seq<NodeData>, b: seq<NodeData>, edges: seq<IndexedEdge>)
    requires Names(a) == Names(b)
    ensures Map(edges, Named(a)) == Map(edges, Named(b))
  {
    assert |a| == |b|;
    forall e | e in edges ensures Named(a)(e) == Named(b)(e) {
      assert e.from < |a| ==> Names(a)[e.from] == Names(b)[e.from];
      assert e.to < |a| ==> Names(a)[e.to] == Names(b)[e.to];
    }
    MapSame(edges, Named(a), Named(b));
  }

  function Weight(nd: NodeData): real { nd.pagerankWeight }

  /** The last inputs of all names. */
  ghost predicate LastInputs(xs: seq<NodeInput>, last: seq<NodeInput>) {
    forall x :: x in last <==> LastInput(xs, x.name) == Some(x)
  }

  lemma DedupedAreLast(xs: seq<NodeInput>, r: seq<NodeInput>)
    requires Deduped(xs, r)
    ensures LastInputs(xs, r)
  {
    forall x ensures x in r <==> LastInput(xs, x.name) == Some(x) {
      if x in r {
        var p :| 0 <= p < |r| && r[p] == x;
        assert LastInput(xs, r[p].name) == Some(r[p]);
      }
    }
  }

  /** Whose last input: it is in the list, and no later one has its name. */
  lemma {:induction false} LastInputIs(xs: seq<NodeInput>, name: string)
    ensures LastInput(xs, name).Some? ==>
      exists i :: 0 <= i < |xs| && xs[i] == LastInput(xs, name).value && xs[i].name == name
        && forall j :: i < j < |xs| ==> xs[j].name != name
    ensures LastInput(xs, name).None? ==> forall i :: 0 <= i < |xs| ==> xs[i].name != name
  {
    if xs != [] {
      var init := xs[..|xs| - 1];
      LastInputIs(init, name);
      if xs[|xs| - 1].name != name && LastInput(xs, name).Some? {
        var i :| 0 <= i < |init| && init[i] == LastInput(init, name).value && init[i].name == name
          && forall j :: i < j < |init| ==> init[j].name != name;
        assert xs[i] == LastInput(xs, name).value;
      }
    }
  }

  /** Node i of the built graph keeps its name's last input. */
  ghost predicate KeepsLast(nodes: seq<NodeData>, xs: seq<NodeInput>, normalize: bool, divisor: real, i: nat)
    requires i < |nodes|
  {
    var x := LastInput(xs, nodes[i].name);
    x.Some? && KeptFrom(nodes[i], x.value, normalize, divisor)
  }

  lemma CarriedIsKept(nodes: seq<NodeData>, xs: seq<NodeInput>, normalize: bool, divisor: real, i: nat)
    requires i < |nodes| && divisor > 0.0 && Carries(nodes, xs, normalize, divisor, i)
    ensures KeepsLast(nodes, xs, normalize, divisor, i)
  {
    NodeKeeps(LastInput(xs, nodes[i].name).value, normalize, divisor, nodes[i].pagerankWeight);
  }

  /**
   Name-sorted nodes, one per distinct input name, each from that name's last input;
   the surviving edges, in input order; and PageRank weights. With normalization the
   divisor is the largest weight, so that the heaviest node weighs exactly 1.
   */
  method BuildGraph(xs: seq<NodeInput>, edges: seq<Edge>, normalize: bool) returns (g: Owned, divisor: real)
    ensures OwnedOk(g) && StrictlySorted(Names(g.nodes))
    ensures divisor > 0.0 && (!normalize ==> divisor == 1.0)
    ensures forall i :: 0 <= i < |g.nodes| ==> Carries(g.nodes, xs, normalize, divisor, i)
    ensures forall name :: name in Names(g.nodes) <==> LastInput(xs, name).Some?
    ensures Meaning(g).edges == Map(Filter(edges, Kept(Names(g.nodes))), NormalizedEdge)
    ensures Map(g.nodes, Weight) == PageRank.Weights(g.edges, |g.nodes|, DAMPING, ITERATIONS)
    ensures forall i :: 0 <= i < |g.nodes| ==> KeepsLast(g.nodes, xs, normalize, divisor, i)
    ensures normalize ==> exists last :: LastInputs(xs, last) && DividesBy(last, divisor)
    ensures SurvivorsOf(Names(g.nodes), edges, Meaning(g).edges)
    ensures RanksFollow(Meaning(g))
  {
    var deduped := Dedup(xs);
    SortedInputs(xs, deduped);
    var sorted := SortBy(deduped, InputLe);
    divisor := Divisor(sorted, normalize);
    var nodes := Map(sorted, ToNode(normalize, divisor));
    var indexed := InsertEdges(nodes, edges);
    BuiltEdges(nodes, edges);
    var weights := PageRank.ComputePageRank(indexed, |nodes|, DAMPING, ITERATIONS);
    g := Owned(Ranked(nodes, weights), indexed);
    assert g.nodes == BuiltNodes(sorted, normalize, divisor, weights);
    NodesAre(xs, sorted, normalize, divisor, weights);
    BuiltNames(sorted, normalize, divisor, weights);
    forall name ensures name in Names(g.nodes) <==> LastInput(xs, name).Some? { SortedNames(xs, sorted, name); }
    SameMeaning(nodes, g.nodes, indexed);
    assert Map(g.nodes, Weight) == weights;
    DivisorIs(sorted);
    DedupedAreLast(xs, sorted);
    BuiltAreSurvivors(Names(g.nodes), edges);
    forall i | 0 <= i < |g.nodes| ensures KeepsLast(g.nodes, xs, normalize, divisor, i) {
      CarriedIsKept(g.nodes, xs, normalize, divisor, i);
    }
    RanksInMeaning(g);
  }

  /** Rank by position is rank by name. */
  lemma RanksInMeaning(g: Owned)
    requires OwnedOk(g) && PageRank.Outranks(g.edges, Map(g.nodes, Weight))
    ensures RanksFollow(Meaning(g))
  {
    var named := Meaning(g);
    forall m, n | m in named.nodes && n in named.nodes && Entered(named, m) && !Entered(named, n)
      ensures named.nodes[n].pagerankWeight < named.nodes[m].pagerankWeight
    {
      NodeMapAt(g.nodes, m);
      NodeMapAt(g.nodes, n);
      var i, j := PositionOf(g.nodes, m).value, PositionOf(g.nodes, n).value;
      EnteredAt(g, i);
      EnteredAt(g, j);
      assert Map(g.nodes, Weight)[i] == g.nodes[i].pagerankWeight && Map(g.nodes, Weight)[j] == g.nodes[j].pagerankWeight;
    }
  }

  lemma EnteredAt(g: Owned, i: nat)
    requires OwnedOk(g) && i < |g.nodes|
    ensures PageRank.Enters(g.edges, i) <==> Entered(Meaning(g), g.nodes[i].name)
  {
    var named := Meaning(g).edges;
    if PageRank.Enters(g.edges, i) {
      var k :| 0 <= k < |g.edges| && g.edges[k].to == i;
      assert named[k] in named && named[k].to == g.nodes[i].name;
    }
    if Entered(Meaning(g), g.nodes[i].name) {
      var e :| e in named && e.to == g.nodes[i].name;
      var k :| 0 <= k < |named| && named[k] == e;
      assert g.edges[k].to < |g.nodes| && named[k].to == g.nodes[g.edges[k].to].name;
      SameName(g.nodes, g.edges[k].to, i);
    }
  }
}
