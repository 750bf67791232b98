/**
 Searching under a temporal and ACL context is searching a graph from which the
 invisible edges were removed beforehand (src/overlay.rs:57-91), for requests
 without a fan-out cutoff.
 */
module Filtered {
  import opened Types
  import opened Seqs
  import opened Overlay
  import P = PathSearch
  import B = BeamSearch

  /** The neighbours at query time are those of the prefiltered graph, but for the visibility fields. */
  ghost predicate Stripped(before: seq<NeighborEntry>, after: seq<NeighborEntry>) {
    after == Map(before, StripEntry)
  }

  lemma StrippedMembers(before: seq<NeighborEntry>, after: seq<NeighborEntry>)
    requires Stripped(before, after)
    ensures forall e :: e in before ==> StripEntry(e) in after
    ensures forall e :: e in after ==> exists d :: d in before && StripEntry(d) == e
  {
    forall e | e in before ensures StripEntry(e) in after {
      var i :| 0 <= i < |before| && before[i] == e;
      assert after[i] == StripEntry(e);
    }
    forall e | e in after ensures exists d :: d in before && StripEntry(d) == e {
      var i :| 0 <= i < |after| && after[i] == e;
      assert before[i] in before;
    }
  }

  // ---------------------------------------------------------------------
  // Paths
  // ---------------------------------------------------------------------

  /** The same steps at the same costs. */
  ghost predicate SameSteps(a: P.Net, b: P.Net) {
    && (forall n, step :: P.StepOk(a, n, step) <==> P.StepOk(b, n, step))
    && (forall m, n :: P.Linked(a, m, n) <==> P.Linked(b, m, n))
    && (forall n :: a.cost(n) == b.cost(n))
  }

  lemma StrippedNeighbors(g: GraphView, ctx: Context)
    requires ctx.maxFanOut.None?
    ensures var a, b := P.NetOf(g, ctx), P.NetOf(Prefiltered(g, ctx), Unrestricted(ctx));
      forall n :: Stripped(a.next(n), b.next(n)) && a.cost(n) == b.cost(n)
  {
    var a, b := P.NetOf(g, ctx), P.NetOf(Prefiltered(g, ctx), Unrestricted(ctx));
    forall n ensures Stripped(a.next(n), b.next(n)) && a.cost(n) == b.cost(n) {
      NeighborsPrefiltered(g, ctx, n);
      assert Resolve(g, ctx, n) == Resolve(Prefiltered(g, ctx), Unrestricted(ctx), n);
    }
  }

  lemma NetsHaveSameSteps(g: GraphView, ctx: Context)
    requires ctx.maxFanOut.None?
    ensures SameSteps(P.NetOf(g, ctx), P.NetOf(Prefiltered(g, ctx), Unrestricted(ctx)))
  {
    StrippedNeighbors(g, ctx);
    StrippedNets(P.NetOf(g, ctx), P.NetOf(Prefiltered(g, ctx), Unrestricted(ctx)));
  }

  lemma StrippedNets(a: P.Net, b: P.Net)
    requires forall n :: Stripped(a.next(n), b.next(n))
    requires forall n :: a.cost(n) == b.cost(n)
    ensures SameSteps(a, b)
  {
    forall n, step ensures P.StepOk(a, n, step) <==> P.StepOk(b, n, step) {
      SameStep(a, b, n, step);
    }
    forall m, n ensures P.Linked(a, m, n) <==> P.Linked(b, m, n) {
      SameLink(a, b, m, n);
    }
  }

  lemma SameStep(a: P.Net, b: P.Net, n: string, step: P.PathStep)
    requires Stripped(a.next(n), b.next(n))
    ensures P.StepOk(a, n, step) <==> P.StepOk(b, n, step)
  {
    StrippedMembers(a.next(n), b.next(n));
    if P.StepOk(a, n, step) {
      var e :| e in a.next(n) && step == P.StepAlong(e);
      assert StripEntry(e) in b.next(n) && step == P.StepAlong(StripEntry(e));
    }
    if P.StepOk(b, n, step) {
      var e :| e in b.next(n) && step == P.StepAlong(e);
      var d :| d in a.next(n) && StripEntry(d) == e;
      assert step == P.StepAlong(d);
    }
  }

  lemma SameLink(a: P.Net, b: P.Net, m: string, n: string)
    requires Stripped(a.next(m), b.next(m))
    ensures P.Linked(a, m, n) <==> P.Linked(b, m, n)
  {
    StrippedMembers(a.next(m), b.next(m));
    if P.Linked(a, m, n) {
      var e :| e in a.next(m) && e.name == n;
      assert StripEntry(e) in b.next(m);
    }
    if P.Linked(b, m, n) {
      var e :| e in b.next(m) && e.name == n;
      var d :| d in a.next(m) && StripEntry(d) == e;
    }
  }

  lemma {:induction false} SameRoutes(a: P.Net, b: P.Net, from: string, steps: seq<P.PathStep>)
    requires SameSteps(a, b)
    ensures P.RouteFrom(a, from, steps) <==> P.RouteFrom(b, from, steps)
    ensures P.StepsCost(a, steps) == P.StepsCost(b, steps)
    decreases |steps|
  {
    if steps != [] {
      SameRoutes(a, b, steps[0].node, steps[1..]);
    }
  }

  lemma {:induction false} SamePathCost(a: P.Net, b: P.Net, p: seq<string>)
    requires SameSteps(a, b) && p != []
    ensures P.PathCost(a, p) == P.PathCost(b, p)
  {
    if |p| > 1 {
      SamePathCost(a, b, p[..|p| - 1]);
    }
  }

  lemma ShortestCarriesOver(a: P.Net, b: P.Net, r: seq<P.PathStep>, start: string, end: string)
    requires SameSteps(a, b) && P.Shortest(a, r, start, end)
    ensures P.Shortest(b, r, start, end)
  {
    SameRoutes(a, b, start, r[1..]);
    forall p | P.PathFromTo(b, p, start, end) ensures P.RouteCost(b, r) <= P.PathCost(b, p) {
      assert P.PathFromTo(a, p, start, end);
      SamePathCost(a, b, p);
    }
  }

  /** Then the same ends are reachable, and the same routes are shortest at the same cost. */
  lemma SameAnswers(a: P.Net, b: P.Net, start: string, end: string, r: seq<P.PathStep>)
    requires SameSteps(a, b)
    ensures P.Shortest(a, r, start, end) <==> P.Shortest(b, r, start, end)
    ensures r != [] ==> P.RouteCost(a, r) == P.RouteCost(b, r)
    ensures forall p :: P.PathFromTo(a, p, start, end) <==> P.PathFromTo(b, p, start, end)
  {
    if P.Shortest(a, r, start, end) {
      ShortestCarriesOver(a, b, r, start, end);
    }
    if P.Shortest(b, r, start, end) {
      ShortestCarriesOver(b, a, r, start, end);
    }
    if r != [] {
      SameRoutes(a, b, start, r[1..]);
    }
  }

  /** Path search under ctx has the same answers as on the prefiltered graph. */
  lemma FilteredPaths(g: GraphView, ctx: Context, start: string, end: string, r: seq<P.PathStep>)
    requires ctx.maxFanOut.None?
    ensures var a, b := P.NetOf(g, ctx), P.NetOf(Prefiltered(g, ctx), Unrestricted(ctx));
      && (P.Shortest(a, r, start, end) <==> P.Shortest(b, r, start, end))
      && (r != [] ==> P.RouteCost(a, r) == P.RouteCost(b, r))
      && (forall p :: P.PathFromTo(a, p, start, end) <==> P.PathFromTo(b, p, start, end))
  {
    NetsHaveSameSteps(g, ctx);
    SameAnswers(P.NetOf(g, ctx), P.NetOf(Prefiltered(g, ctx), Unrestricted(ctx)), start, end, r);
  }

  /** Relaxing looks at no visibility field. */
  lemma SameRelaxing(a: P.Net, b: P.Net, q: P.Queue, top: P.Entry, o: P.Open, e: NeighborEntry)
    requires a.cost(e.name) == b.cost(e.name)
    ensures P.RelaxOne(a, q, top, o, e) == P.RelaxOne(b, q, top, o, StripEntry(e))
  {
  }

  lemma StrippedInit(before: seq<NeighborEntry>, after: seq<NeighborEntry>)
    requires Stripped(before, after) && before != []
    ensures |after| == |before| && Stripped(before[..|before| - 1], after[..|before| - 1])
    ensures after[|before| - 1] == StripEntry(before[|before| - 1])
  {
    var last := |before| - 1;
    assert before == before[..last] + [before[last]];
    MapAppend(before[..last], [before[last]], StripEntry);
  }

  /** So both searches relax alike, edge by edge. */
  lemma {:induction false} SameRelaxed(a: P.Net, b: P.Net, q: P.Queue, top: P.Entry, o: P.Open,
      before: seq<NeighborEntry>, after: seq<NeighborEntry>)
    requires Stripped(before, after) && forall n :: a.cost(n) == b.cost(n)
    ensures P.RelaxEach(a, q, top, o, before) == P.RelaxEach(b, q, top, o, after)
    decreases |before|
  {
    if before == [] {
      assert after == [];
    } else {
      var last := |before| - 1;
      StrippedInit(before, after);
      SameRelaxed(a, b, q, top, o, before[..last], after[..last]);
      SameRelaxing(a, b, q, top, P.RelaxEach(a, q, top, o, before[..last]), before[last]);
    }
  }

  /** The second net lists the stripped neighbours of the first, at the same costs. Looked into only by hand. */
  ghost predicate StripsTo(a: P.Net, b: P.Net) {
    forall i {:trigger Sealed(i)} :: Sealed(i) ==> forall m :: Stripped(a.next(m), b.next(m)) && a.cost(m) == b.cost(m)
  }

  lemma SameTurn(a: P.Net, b: P.Net, q: P.Queue, end: string, stage: P.Stage)
    requires StripsTo(a, b)
    ensures P.Turn(a, q, end, stage) == P.Turn(b, q, end, stage)
  {
    assert Sealed(0);
    if stage.Running? && stage.open.heap != [] {
      var (top, rest) := q.pop(stage.open.heap);
      SameRelaxed(a, b, q, top, stage.open.(heap := rest), a.next(top.node), b.next(top.node));
    }
  }

  lemma {:induction false} SameTurns(a: P.Net, b: P.Net, q: P.Queue, start: string, end: string, n: nat)
    requires StripsTo(a, b)
    ensures P.Turns(a, q, start, end, n) == P.Turns(b, q, start, end, n)
  {
    if n > 0 {
      SameTurns(a, b, q, start, end, n - 1);
      SameTurn(a, b, q, end, P.Turns(a, q, start, end, n - 1));
    }
  }

  /**
   With the same heap, breaking ties however it does, path search under ctx and on
   the prefiltered graph runs in step and returns the very same route, or none.
   */
  lemma FilteredRoutes(g: GraphView, ctx: Context, q: P.Queue, start: string, end: string, r: Option<seq<P.PathStep>>)
    requires ctx.maxFanOut.None?
    ensures P.Finds(P.NetOf(g, ctx), q, start, end, r)
      <==> P.Finds(P.NetOf(Prefiltered(g, ctx), Unrestricted(ctx)), q, start, end, r)
  {
    var a, b := P.NetOf(g, ctx), P.NetOf(Prefiltered(g, ctx), Unrestricted(ctx));
    StrippedNeighbors(g, ctx);
    forall n: nat ensures P.Turns(a, q, start, end, n) == P.Turns(b, q, start, end, n) {
      SameTurns(a, b, q, start, end, n);
    }
  }

  // ---------------------------------------------------------------------
  // Beams
  // ---------------------------------------------------------------------

  ghost predicate SameView(a: B.Net, b: B.Net) {
    && (forall m, n :: B.Linked(a, m, n) <==> B.Linked(b, m, n))
    && (forall n :: a.score(n) == b.score(n))
  }

  lemma NetsHaveSameView(g: GraphView, ctx: Context)
    requires ctx.maxFanOut.None?
    ensures SameView(B.NetOf(g, ctx), B.NetOf(Prefiltered(g, ctx), Unrestricted(ctx)))
  {
    var a, b := B.NetOf(g, ctx), B.NetOf(Prefiltered(g, ctx), Unrestricted(ctx));
    forall n ensures Stripped(a.next(n), b.next(n)) { NeighborsPrefiltered(g, ctx, n); }
    forall n ensures a.score(n) == b.score(n) {
      assert Resolve(g, ctx, n) == Resolve(Prefiltered(g, ctx), Unrestricted(ctx), n);
    }
    forall m, n ensures B.Linked(a, m, n) <==> B.Linked(b, m, n) {
      SameHop(a, b, m, n);
    }
  }

  lemma SameHop(a: B.Net, b: B.Net, m: string, n: string)
    requires Stripped(a.next(m), b.next(m))
    ensures B.Linked(a, m, n) <==> B.Linked(b, m, n)
  {
    StrippedMembers(a.next(m), b.next(m));
    if B.Linked(a, m, n) {
      var e :| e in a.next(m) && e.name == n;
      assert StripEntry(e) in b.next(m);
    }
    if B.Linked(b, m, n) {
      var e :| e in b.next(m) && e.name == n;
      var d :| d in a.next(m) && StripEntry(d) == e;
    }
  }

  lemma SameLevel(a: B.Net, b: B.Net, frontier: seq<string>, visited: set<string>, k: nat, level: seq<B.NodeResult>)
    requires SameView(a, b) && B.IsLevel(a, frontier, visited, k, level)
    ensures B.IsLevel(b, frontier, visited, k, level)
  {
    assert Sealed(0);
    var all :| B.RanksCandidates(a, frontier, visited, all) && level == all[..Min(k, |all|)];
    forall r ensures r in all <==> B.IsResult(b, r) && B.Candidate(b, frontier, visited, r.name) {
      assert B.Candidate(a, frontier, visited, r.name) <==> B.Candidate(b, frontier, visited, r.name);
    }
    assert B.RanksCandidates(b, frontier, visited, all);
  }

  lemma {:induction false} SameBeam(a: B.Net, b: B.Net, frontier: seq<string>, visited: set<string>, k: nat, depth: nat, levels: seq<seq<B.NodeResult>>)
    requires SameView(a, b) && B.IsBeam(a, frontier, visited, k, depth, levels)
    ensures B.IsBeam(b, frontier, visited, k, depth, levels)
    decreases depth
  {
    if depth > 0 && frontier != [] {
      SameLevel(a, b, frontier, visited, k, levels[0]);
      SameBeam(a, b, B.Names(levels[0]), visited + B.NameSet(levels[0]), k, depth - 1, levels[1..]);
    }
  }

  /** Beam search under ctx returns, level by level, exactly what it returns on the prefiltered graph. */
  lemma FilteredBeams(g: GraphView, ctx: Context, start: string, k: nat, depth: nat,
      levels: seq<seq<B.NodeResult>>, levels': seq<seq<B.NodeResult>>)
    requires ctx.maxFanOut.None?
    requires B.IsBeam(B.NetOf(g, ctx), [start], {start}, k, depth, levels)
    requires B.IsBeam(B.NetOf(Prefiltered(g, ctx), Unrestricted(ctx)), [start], {start}, k, depth, levels')
    ensures levels == levels'
  {
    var a, b := B.NetOf(g, ctx), B.NetOf(Prefiltered(g, ctx), Unrestricted(ctx));
    NetsHaveSameView(g, ctx);
    SameBeam(a, b, [start], {start}, k, depth, levels);
    B.BeamIsUnique(b, [start], {start}, k, depth, levels, levels');
  }
}
