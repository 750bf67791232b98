/**
 Searches do not see a fold (src/traversal.rs over src/persist/mod.rs:943-955):
 the merged view and the folded snapshot list a node's edges in different orders
 and disagree on ranks, and still both searches answer alike.
 */
module FoldedSearch {
  import opened Types
  import opened Overlay
  import opened Graphs
  import opened Perms
  import opened Compaction
  import opened Filtered
  import P = PathSearch
  import B = BeamSearch

  /** compute_score reads no rank. */
  ghost predicate BlindToRank(ctx: Context) {
    forall nd: NodeData, rank: real :: ctx.score(nd.(pagerankWeight := rank)) == ctx.score(nd)
  }

  /** The only thing in a request that looks at ranks is the bypass of the fan-out cutoff. */
  ghost predicate NoRankAsked(ctx: Context) {
    BlindToRank(ctx) && (ctx.maxFanOut.None? || ctx.pagerankBypass.None?)
  }

  lemma SameCutOff(a: Graph, b: Graph, ctx: Context, name: string)
    requires SameGraph(a, b) && WellFormed(a) && NoRankAsked(ctx) && name in a.nodes
    ensures name in b.nodes && CutOff(SearchView(a), ctx, name) == CutOff(SearchView(b), ctx, name)
  {
    assert name in b.nodes.Keys;
    SameWellFormed(a, b);
    SearchViewReads(a, name);
    SearchViewReads(b, name);
    SameReads(a, b, name);
    assert |multiset(Out(a, name))| == |Out(a, name)| && |multiset(Out(b, name))| == |Out(b, name)|;
  }

  lemma SameBaseEntries(a: Graph, b: Graph, ctx: Context, name: string)
    requires SameGraph(a, b) && WellFormed(a) && NoRankAsked(ctx)
    ensures multiset(BaseEntries(SearchView(a), ctx, name)) == multiset(BaseEntries(SearchView(b), ctx, name))
  {
    assert name in a.nodes.Keys <==> name in b.nodes.Keys;
    if name in a.nodes {
      SameCutOff(a, b, ctx, name);
      SameWellFormed(a, b);
      SearchViewReads(a, name);
      SearchViewReads(b, name);
      SameReads(a, b, name);
      MapPermuted(Out(a, name), Out(b, name), FromGraph);
    }
  }

  /** The neighbours of a node are the same up to order, cutoff, overlay and visibility included. */
  lemma SameNeighbors(a: Graph, b: Graph, ctx: Context, name: string)
    requires SameGraph(a, b) && WellFormed(a) && NoRankAsked(ctx)
    ensures multiset(Neighbors(SearchView(a), ctx, name)) == multiset(Neighbors(SearchView(b), ctx, name))
  {
    SameBaseEntries(a, b, ctx, name);
    FilterPermuted(Unfiltered(SearchView(a), ctx, name), Unfiltered(SearchView(b), ctx, name),
      (n: NeighborEntry) => EntryVisible(ctx, n));
  }

  lemma SameMembers<T>(s: seq<T>, t: seq<T>)
    requires multiset(s) == multiset(t)
    ensures forall x :: x in s <==> x in t
  {
    assert forall x :: x in s <==> x in multiset(s);
    assert forall x :: x in t <==> x in multiset(t);
  }

  /** A name stands for a node of the same score. */
  lemma SameScore(a: Graph, b: Graph, ctx: Context, name: string)
    requires SameGraph(a, b) && NoRankAsked(ctx)
    ensures var x, y := Resolve(SearchView(a), ctx, name), Resolve(SearchView(b), ctx, name);
      && (x.Some? <==> y.Some?)
      && (x.Some? ==> ctx.score(x.value) == ctx.score(y.value))
  {
    assert name in a.nodes.Keys <==> name in b.nodes.Keys;
    if name in a.nodes {
      assert b.nodes[name] == a.nodes[name].(pagerankWeight := b.nodes[name].pagerankWeight);
    }
  }

  // ---------------------------------------------------------------------
  // Paths
  // ---------------------------------------------------------------------

  lemma FoldKeepsSteps(a: Graph, b: Graph, ctx: Context)
    requires SameGraph(a, b) && WellFormed(a) && NoRankAsked(ctx)
    ensures SameSteps(P.NetOf(SearchView(a), ctx), P.NetOf(SearchView(b), ctx))
  {
    var x, y := P.NetOf(SearchView(a), ctx), P.NetOf(SearchView(b), ctx);
    forall n ensures forall e :: e in x.next(n) <==> e in y.next(n) {
      SameNeighbors(a, b, ctx, n);
      SameMembers(x.next(n), y.next(n));
    }
    forall n ensures x.cost(n) == y.cost(n) {
      SameScore(a, b, ctx, n);
    }
    forall n, step ensures P.StepOk(x, n, step) <==> P.StepOk(y, n, step) { }
    forall m, n ensures P.Linked(x, m, n) <==> P.Linked(y, m, n) { }
  }

  /** The fold changes neither which ends are reachable nor which routes are shortest, nor their cost. */
  lemma FoldKeepsPaths(a: Graph, b: Graph, ctx: Context, start: string, end: string, r: seq<P.PathStep>)
    requires SameGraph(a, b) && WellFormed(a) && NoRankAsked(ctx)
    ensures var x, y := P.NetOf(SearchView(a), ctx), P.NetOf(SearchView(b), ctx);
      && (P.Shortest(x, r, start, end) <==> P.Shortest(y, r, start, end))
      && (r != [] ==> P.RouteCost(x, r) == P.RouteCost(y, r))
      && (forall p :: P.PathFromTo(x, p, start, end) <==> P.PathFromTo(y, p, start, end))
  {
    FoldKeepsSteps(a, b, ctx);
    SameAnswers(P.NetOf(SearchView(a), ctx), P.NetOf(SearchView(b), ctx), start, end, r);
  }

  // ---------------------------------------------------------------------
  // Beams
  // ---------------------------------------------------------------------

  lemma FoldKeepsView(a: Graph, b: Graph, ctx: Context)
    requires SameGraph(a, b) && WellFormed(a) && NoRankAsked(ctx)
    ensures SameView(B.NetOf(SearchView(a), ctx), B.NetOf(SearchView(b), ctx))
  {
    var x, y := B.NetOf(SearchView(a), ctx), B.NetOf(SearchView(b), ctx);
    forall n ensures x.score(n) == y.score(n) {
      SameScore(a, b, ctx, n);
    }
    forall m, n ensures B.Linked(x, m, n) <==> B.Linked(y, m, n) {
      SameNeighbors(a, b, ctx, m);
      SameMembers(x.next(m), y.next(m));
    }
  }

  /** Beam search before and after the fold returns, level by level, exactly the same results in the same order. */
  lemma FoldKeepsBeams(a: Graph, b: Graph, ctx: Context, start: string, k: nat, depth: nat,
      levels: seq<seq<B.NodeResult>>, levels': seq<seq<B.NodeResult>>)
    requires SameGraph(a, b) && WellFormed(a) && NoRankAsked(ctx)
    requires B.IsBeam(B.NetOf(SearchView(a), ctx), [start], {start}, k, depth, levels)
    requires B.IsBeam(B.NetOf(SearchView(b), ctx), [start], {start}, k, depth, levels')
    ensures levels == levels'
  {
    var x, y := B.NetOf(SearchView(a), ctx), B.NetOf(SearchView(b), ctx);
    FoldKeepsView(a, b, ctx);
    SameBeam(x, y, [start], {start}, k, depth, levels);
    B.BeamIsUnique(y, [start], {start}, k, depth, levels, levels');
  }
}
