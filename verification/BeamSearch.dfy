/** beam_traverse: a breadth-first search that keeps the k best nodes of each level (src/traversal.rs:11-113). */
module BeamSearch {
  import opened Types
  import opened Strings
  import opened Overlay

  datatype NodeResult = NodeResult(name: string, weight: real)

  /** Weight descending, then name ascending. */
  predicate Before(a: NodeResult, b: NodeResult) {
    a.weight > b.weight || (a.weight == b.weight && Lt(a.name, b.name))
  }

  lemma BeforeOrder(a: NodeResult, b: NodeResult, c: NodeResult)
    ensures !Before(a, a)
    ensures Before(a, b) && Before(b, c) ==> Before(a, c)
    ensures a == b || Before(a, b) || Before(b, a)
    ensures Before(a, b) ==> !Before(b, a)
  {
    LtIrreflexive(a.name);
    LtTotal(a.name, b.name);
    if Lt(a.name, b.name) && Lt(b.name, c.name) {
      LtTransitive(a.name, b.name, c.name);
    }
    LtAsymmetricBoth(a.name, b.name);
  }

  /** The search sees the graph as neighbour names and, for the names that stand for a node, a weight. */
  datatype Net = Net(next: string -> seq<NeighborEntry>, score: string -> Option<real>)

  function NetOf(g: GraphView, ctx: Context): Net {
    Net(n => Neighbors(g, ctx, n),
        n => if Resolve(g, ctx, n).Some? then Some(ctx.score(Resolve(g, ctx, n).value)) else None)
  }

  // ---------------------------------------------------------------------
  // Ranking
  // ---------------------------------------------------------------------

  ghost predicate Ranked(s: seq<NodeResult>) {
    forall i, j :: 0 <= i < j < |s| ==> Before(s[i], s[j])
  }

  function InsertRanked(s: seq<NodeResult>, x: NodeResult): (r: seq<NodeResult>)
    ensures |r| == |s| + 1
    ensures forall y :: y in r <==> y == x || y in s
  {
    if s == [] then [x]
    else if Before(x, s[0]) then [x] + s
    else [s[0]] + InsertRanked(s[1..], x)
  }

  /** sort_by */
  function Sort(s: seq<NodeResult>): (r: seq<NodeResult>)
    ensures |r| == |s|
    ensures forall y :: y in r <==> y in s
  {
    if s == [] then [] else InsertRanked(Sort(s[1..]), s[0])
  }

  lemma {:induction false} InsertKeepsRank(s: seq<NodeResult>, x: NodeResult)
    requires Ranked(s) && x !in s
    ensures Ranked(InsertRanked(s, x))
  {
    if s != [] {
      BeforeOrder(x, s[0], s[0]);
      if Before(x, s[0]) {
        forall j | 0 < j < |s| ensures Before(x, s[j]) { BeforeOrder(x, s[0], s[j]); }
      } else {
        InsertKeepsRank(s[1..], x);
        var t := InsertRanked(s[1..], x);
        forall j | 0 <= j < |t| ensures Before(s[0], t[j]) {
          assert t[j] in t;
          if t[j] != x {
            var k :| 0 <= k < |s[1..]| && s[1..][k] == t[j];
            assert Before(s[0], s[k + 1]);
          }
        }
      }
    }
  }

  ghost predicate Distinct(s: seq<NodeResult>) {
    forall i, j :: 0 <= i < j < |s| ==> s[i].name != s[j].name
  }

  lemma {:induction false} SortRanks(s: seq<NodeResult>)
    requires Distinct(s)
    ensures Ranked(Sort(s))
  {
    if s != [] {
      SortRanks(s[1..]);
      forall i | 0 <= i < |s[1..]| ensures s[1..][i] != s[0] {
        assert s[0].name != s[i + 1].name;
      }
      InsertKeepsRank(Sort(s[1..]), s[0]);
    }
  }

  /** Ranked lists with the same members are the same list. */
  lemma {:induction false} RankedUnique(a: seq<NodeResult>, b: seq<NodeResult>)
    requires Ranked(a) && Ranked(b)
    requires forall x :: x in a <==> x in b
    ensures a == b
  {
    assert b != [] ==> b[0] in b;
    if a != [] {
      assert a[0] in a;
      assert b != [];
      RankedHead(a, b[0]);
      RankedHead(b, a[0]);
      BeforeOrder(a[0], b[0], a[0]);
      forall x ensures x in a[1..] <==> x in b[1..] {
        RankedTail(a, x);
        RankedTail(b, x);
      }
      RankedUnique(a[1..], b[1..]);
    }
  }

  lemma RankedHead(a: seq<NodeResult>, x: NodeResult)
    requires Ranked(a) && a != [] && x in a
    ensures a[0] == x || Before(a[0], x)
  {
    var i :| 0 <= i < |a| && a[i] == x;
    assert i > 0 ==> Before(a[0], a[i]);
  }

  lemma RankedTail(a: seq<NodeResult>, x: NodeResult)
    requires Ranked(a) && a != []
    ensures x in a[1..] <==> x in a && x != a[0]
  {
    if x in a[1..] {
      var i :| 0 <= i < |a[1..]| && a[1..][i] == x;
      assert Before(a[0], a[i + 1]);
      BeforeOrder(x, x, x);
    }
  }

  // ---------------------------------------------------------------------
  // One level
  // ---------------------------------------------------------------------

  ghost predicate Linked(net: Net, a: string, b: string) {
    exists e :: e in net.next(a) && e.name == b
  }

  /** Reached from the frontier, not visited before, and standing for a node. */
  ghost predicate Candidate(net: Net, frontier: seq<string>, visited: set<string>, n: string) {
    n !in visited && net.score(n).Some? && exists f :: f in frontier && Linked(net, f, n)
  }

  ghost predicate IsResult(net: Net, r: NodeResult) { net.score(r.name) == Some(r.weight) }

  /** All candidates of a level, best first. */
  ghost predicate RanksCandidates(net: Net, frontier: seq<string>, visited: set<string>, all: seq<NodeResult>) {
    && Ranked(all)
    && (forall r :: r in all <==> IsResult(net, r) && Candidate(net, frontier, visited, r.name))
  }

  /** The k best candidates of a level, given all of them in order. */
  ghost predicate LevelOf(net: Net, frontier: seq<string>, visited: set<string>, k: nat, level: seq<NodeResult>) {
    exists all :: RanksCandidates(net, frontier, visited, all) && level == all[..Min(k, |all|)]
  }

  /** LevelOf, to be looked into only by hand, through Sealed. */
  ghost predicate IsLevel(net: Net, frontier: seq<string>, visited: set<string>, k: nat, level: seq<NodeResult>) {
    forall i {:trigger Sealed(i)} :: Sealed(i) ==> LevelOf(net, frontier, visited, k, level)
  }

  lemma LevelIsUnique(net: Net, frontier: seq<string>, visited: set<string>, k: nat, a: seq<NodeResult>, b: seq<NodeResult>)
    requires IsLevel(net, frontier, visited, k, a) && IsLevel(net, frontier, visited, k, b)
    ensures a == b
  {
    assert Sealed(0);
    var x :| RanksCandidates(net, frontier, visited, x) && a == x[..Min(k, |x|)];
    var y :| RanksCandidates(net, frontier, visited, y) && b == y[..Min(k, |y|)];
    RankedUnique(x, y);
  }

  /** Nothing left out of a level beats anything in it, and something is left out only if the level is full. */
  lemma LevelKeepsTheBest(net: Net, frontier: seq<string>, visited: set<string>, k: nat, level: seq<NodeResult>, kept: NodeResult, other: NodeResult)
    requires IsLevel(net, frontier, visited, k, level) && kept in level
    requires IsResult(net, other) && Candidate(net, frontier, visited, other.name) && other !in level
    ensures kept.weight > other.weight || (kept.weight == other.weight && Lt(kept.name, other.name))
    ensures |level| == k
  {
    assert Sealed(0);
    var all :| RanksCandidates(net, frontier, visited, all) && level == all[..Min(k, |all|)];
    assert other in all;
    var i :| 0 <= i < |all| && all[i] == other;
    var j :| 0 <= j < |level| && level[j] == kept;
    assert forall t :: 0 <= t < |level| ==> level[t] == all[t] && all[t] in level;
    assert Before(all[j], all[i]);
  }

  function Names(level: seq<NodeResult>): (s: seq<string>)
    ensures |s| == |level| && forall i :: 0 <= i < |s| ==> s[i] == level[i].name
  {
    seq(|level|, i requires 0 <= i < |level| => level[i].name)
  }

  function NameSet(level: seq<NodeResult>): set<string> { set r | r in level :: r.name }

  function Flatten(levels: seq<seq<NodeResult>>): seq<NodeResult> {
    if levels == [] then [] else levels[0] + Flatten(levels[1..])
  }

  /** The levels of a whole search: at most `depth`, none after an empty one. */
  ghost predicate IsBeam(net: Net, frontier: seq<string>, visited: set<string>, k: nat, depth: nat, levels: seq<seq<NodeResult>>)
    decreases depth
  {
    if depth == 0 || frontier == [] then levels == []
    else
      && levels != []
      && IsLevel(net, frontier, visited, k, levels[0])
      && IsBeam(net, Names(levels[0]), visited + NameSet(levels[0]), k, depth - 1, levels[1..])
  }

  lemma {:induction false} BeamIsUnique(net: Net, frontier: seq<string>, visited: set<string>, k: nat, depth: nat, a: seq<seq<NodeResult>>, b: seq<seq<NodeResult>>)
    requires IsBeam(net, frontier, visited, k, depth, a) && IsBeam(net, frontier, visited, k, depth, b)
    ensures a == b
    decreases depth
  {
    if depth > 0 && frontier != [] {
      LevelIsUnique(net, frontier, visited, k, a[0], b[0]);
      BeamIsUnique(net, Names(a[0]), visited + NameSet(a[0]), k, depth - 1, a[1..], b[1..]);
      assert a == [a[0]] + a[1..] && b == [b[0]] + b[1..];
    }
  }

  // ---------------------------------------------------------------------
  // What a beam contains
  // ---------------------------------------------------------------------

  lemma LevelFacts(net: Net, frontier: seq<string>, visited: set<string>, k: nat, level: seq<NodeResult>)
    requires IsLevel(net, frontier, visited, k, level)
    ensures |level| <= k && Distinct(level)
    ensures forall r :: r in level ==> IsResult(net, r) && Candidate(net, frontier, visited, r.name)
  {
    assert Sealed(0);
    var all :| RanksCandidates(net, frontier, visited, all) && level == all[..Min(k, |all|)];
    forall i, j | 0 <= i < j < |level| ensures level[i].name != level[j].name {
      assert Before(all[i], all[j]);
      assert all[i] in all && all[j] in all;
      if level[i].name == level[j].name {
        assert all[i] == all[j];
        BeforeOrder(all[i], all[i], all[i]);
      }
    }
    forall r | r in level ensures r in all {
    }
  }

  lemma DistinctConcat(a: seq<NodeResult>, b: seq<NodeResult>)
    requires Distinct(a) && Distinct(b)
    requires forall x, y :: x in a && y in b ==> x.name != y.name
    ensures Distinct(a + b)
  {
    forall i, j | 0 <= i < j < |a + b| ensures (a + b)[i].name != (a + b)[j].name {
      if i < |a| <= j {
        assert a[i] in a && b[j - |a|] in b;
      }
    }
  }

  /** What holds of every part of a beam. */
  ghost predicate Fresh(net: Net, visited: set<string>, results: seq<NodeResult>) {
    Distinct(results) && forall r :: r in results ==> IsResult(net, r) && r.name !in visited
  }

  lemma FreshConcat(net: Net, visited: set<string>, a: seq<NodeResult>, b: seq<NodeResult>)
    requires Fresh(net, visited, a) && Fresh(net, visited + NameSet(a), b)
    ensures Fresh(net, visited, a + b)
  {
    forall x, y | x in a && y in b ensures x.name != y.name {
      assert x.name in NameSet(a);
    }
    DistinctConcat(a, b);
  }

  lemma {:induction false} BeamFacts(net: Net, frontier: seq<string>, visited: set<string>, k: nat, depth: nat, levels: seq<seq<NodeResult>>)
    requires IsBeam(net, frontier, visited, k, depth, levels)
    ensures |Flatten(levels)| <= k * depth && Fresh(net, visited, Flatten(levels))
    decreases depth
  {
    if depth > 0 && frontier != [] {
      var level := levels[0];
      LevelFacts(net, frontier, visited, k, level);
      BeamFacts(net, Names(level), visited + NameSet(level), k, depth - 1, levels[1..]);
      FreshConcat(net, visited, level, Flatten(levels[1..]));
      assert k + k * (depth - 1) == k * depth;
    }
  }

  // ---------------------------------------------------------------------
  // With room for everything, the beam is a breadth-first search
  // ---------------------------------------------------------------------

  /** A walk of neighbour edges whose nodes, after the first, all stand for a node. */
  ghost predicate IsWalk(net: Net, p: seq<string>) {
    p != [] && forall i :: 0 < i < |p| ==> Linked(net, p[i - 1], p[i]) && net.score(p[i]).Some?
  }

  ghost predicate WithinFrom(net: Net, from: string, n: string, d: nat) {
    exists p :: IsWalk(net, p) && p[0] == from && p[|p| - 1] == n && |p| <= d + 1
  }

  /** Within d steps of some node of the frontier. */
  ghost predicate Within(net: Net, frontier: seq<string>, n: string, d: nat) {
    exists f :: f in frontier && WithinFrom(net, f, n, d)
  }

  /** Whatever a visited node leads to has been visited, unless the node is still on the frontier. */
  ghost predicate Explored(net: Net, frontier: seq<string>, visited: set<string>) {
    && (forall f :: f in frontier ==> f in visited)
    && (forall m, n :: m in visited && m !in frontier && Linked(net, m, n) && net.score(n).Some? ==> n in visited)
  }

  lemma WalkTail(net: Net, p: seq<string>)
    requires IsWalk(net, p) && |p| > 1
    ensures IsWalk(net, p[1..]) && Linked(net, p[0], p[1]) && net.score(p[1]).Some?
  {
    forall i | 0 < i < |p[1..]| ensures Linked(net, p[1..][i - 1], p[1..][i]) && net.score(p[1..][i]).Some? {
      assert p[1..][i] == p[i + 1] && p[1..][i - 1] == p[i];
    }
  }

  /** A walk out of the visited nodes crosses the frontier, and has no more steps left from there. */
  lemma {:induction false} WalkCrossesFrontier(net: Net, frontier: seq<string>, visited: set<string>, p: seq<string>) returns (i: nat)
    requires Explored(net, frontier, visited)
    requires IsWalk(net, p) && p[0] in visited && p[|p| - 1] !in visited
    ensures i + 1 < |p| && p[i] in frontier && p[i + 1] !in visited
    decreases |p|
  {
    WalkTail(net, p);
    if p[1] !in visited {
      i := 0;
    } else {
      var j := WalkCrossesFrontier(net, frontier, visited, p[1..]);
      i := j + 1;
    }
  }

  /** With room for all candidates a level is exactly the set of candidates. */
  ghost predicate Roomy(net: Net, k: nat) {
    exists names: set<string> :: |names| <= k && Contains(net, names)
  }

  /** Every name that stands for a node. */
  ghost predicate Contains(net: Net, names: set<string>) {
    forall m :: net.score(m).Some? ==> m in names
  }

  lemma {:induction false} DistinctCount(s: seq<NodeResult>, names: set<string>)
    requires Distinct(s) && forall r :: r in s ==> r.name in names
    ensures |s| <= |names|
    decreases |s|
  {
    if s != [] {
      forall r | r in s[1..] ensures r.name in names - {s[0].name} {
        var i :| 0 <= i < |s[1..]| && s[1..][i] == r;
        assert s[0].name != s[i + 1].name;
      }
      assert s[0] in s;
      DistinctCount(s[1..], names - {s[0].name});
    }
  }

  lemma RoomyLevel(net: Net, frontier: seq<string>, visited: set<string>, k: nat, level: seq<NodeResult>, n: string)
    requires Roomy(net, k) && IsLevel(net, frontier, visited, k, level)
    ensures n in NameSet(level) <==> Candidate(net, frontier, visited, n)
  {
    assert Sealed(0);
    var all :| RanksCandidates(net, frontier, visited, all) && level == all[..Min(k, |all|)];
    assert IsLevel(net, frontier, visited, |all|, all) by { assert all == all[..Min(|all|, |all|)]; }
    LevelFacts(net, frontier, visited, |all|, all);
    var names: set<string> :| |names| <= k && Contains(net, names);
    DistinctCount(all, names);
    assert level == all;
    if Candidate(net, frontier, visited, n) {
      assert NodeResult(n, net.score(n).value) in all;
    }
  }

  lemma NamesAreTheNameSet(level: seq<NodeResult>, n: string)
    ensures n in Names(level) <==> n in NameSet(level)
  {
    if n in Names(level) {
      var i :| 0 <= i < |level| && Names(level)[i] == n;
      assert level[i] in level;
    }
    if n in NameSet(level) {
      var r :| r in level && r.name == n;
      var i :| 0 <= i < |level| && level[i] == r;
      assert Names(level)[i] == n;
    }
  }

  lemma LevelExplores(net: Net, frontier: seq<string>, visited: set<string>, k: nat, level: seq<NodeResult>)
    requires Roomy(net, k) && IsLevel(net, frontier, visited, k, level)
    requires Explored(net, frontier, visited)
    ensures Explored(net, Names(level), visited + NameSet(level))
  {
    var frontier', visited' := Names(level), visited + NameSet(level);
    forall f | f in frontier' ensures f in visited' {
      NamesAreTheNameSet(level, f);
    }
    forall m, n | m in visited' && m !in frontier' && Linked(net, m, n) && net.score(n).Some? ensures n in visited' {
      NamesAreTheNameSet(level, m);
      RoomyLevel(net, frontier, visited, k, level, n);
    }
  }

  /**
   With k at least the number of nodes, the beam returns exactly the nodes at
   neighbour-relation distance 1..depth of the start.
   */
  lemma {:induction false} RoomyBeam(net: Net, frontier: seq<string>, visited: set<string>, k: nat, depth: nat, levels: seq<seq<NodeResult>>, n: string)
    requires Roomy(net, k) && Explored(net, frontier, visited)
    requires IsBeam(net, frontier, visited, k, depth, levels)
    ensures n in NameSet(Flatten(levels)) <==> n !in visited && Within(net, frontier, n, depth)
    decreases depth
  {
    if depth == 0 || frontier == [] {
      NoRoom(net, frontier, visited, n, depth);
    } else {
      var level := levels[0];
      LevelExplores(net, frontier, visited, k, level);
      RoomyBeam(net, Names(level), visited + NameSet(level), k, depth - 1, levels[1..], n);
      NameSetConcat(level, Flatten(levels[1..]), n);
      WithinStep(net, frontier, visited, k, level, n, depth);
    }
  }

  lemma NameSetConcat(a: seq<NodeResult>, b: seq<NodeResult>, n: string)
    ensures n in NameSet(a + b) <==> n in NameSet(a) || n in NameSet(b)
  {
    if n in NameSet(a) { var r :| r in a && r.name == n; assert r in a + b; }
    if n in NameSet(b) { var r :| r in b && r.name == n; assert r in a + b; }
  }

  lemma NoRoom(net: Net, frontier: seq<string>, visited: set<string>, n: string, depth: nat)
    requires depth == 0 || frontier == []
    requires Explored(net, frontier, visited)
    ensures n !in visited ==> !Within(net, frontier, n, depth)
  {
    if Within(net, frontier, n, depth) {
      var f :| f in frontier && WithinFrom(net, f, n, depth);
      var p :| IsWalk(net, p) && p[0] == f && p[|p| - 1] == n && |p| <= depth + 1;
    }
  }

  /** A level splits what is within reach into itself and what is within reach of it. */
  lemma WithinStep(net: Net, frontier: seq<string>, visited: set<string>, k: nat, level: seq<NodeResult>, n: string, depth: nat)
    requires depth > 0 && Roomy(net, k) && IsLevel(net, frontier, visited, k, level)
    requires Explored(net, frontier, visited)
    ensures n in NameSet(level) ==> n !in visited && Within(net, frontier, n, depth)
    ensures n !in visited && n !in NameSet(level) ==>
      (Within(net, Names(level), n, depth - 1) <==> Within(net, frontier, n, depth))
  {
    RoomyLevel(net, frontier, visited, k, level, n);
    if n in NameSet(level) {
      OneStep(net, frontier, n, depth);
    } else if n !in visited {
      if Within(net, Names(level), n, depth - 1) {
        LongerWalk(net, frontier, visited, k, level, n, depth);
      }
      if Within(net, frontier, n, depth) {
        ShorterWalk(net, frontier, visited, k, level, n, depth);
      }
    }
  }

  lemma OneStep(net: Net, frontier: seq<string>, n: string, depth: nat)
    requires depth > 0 && net.score(n).Some? && exists f :: f in frontier && Linked(net, f, n)
    ensures Within(net, frontier, n, depth)
  {
    var f :| f in frontier && Linked(net, f, n);
    assert IsWalk(net, [f, n]);
    assert WithinFrom(net, f, n, depth);
  }

  lemma WalkPrepend(net: Net, f: string, p: seq<string>)
    requires IsWalk(net, p) && Linked(net, f, p[0]) && net.score(p[0]).Some?
    ensures IsWalk(net, [f] + p)
  {
    var q := [f] + p;
    forall j | 0 < j < |q| ensures Linked(net, q[j - 1], q[j]) && net.score(q[j]).Some? {
      if j > 1 { assert q[j] == p[j - 1] && q[j - 1] == p[j - 2]; }
    }
  }

  lemma LevelPredecessor(net: Net, frontier: seq<string>, visited: set<string>, k: nat, level: seq<NodeResult>, m: string) returns (f: string)
    requires IsLevel(net, frontier, visited, k, level) && m in Names(level)
    ensures f in frontier && Linked(net, f, m) && net.score(m).Some?
  {
    LevelFacts(net, frontier, visited, k, level);
    var i :| 0 <= i < |level| && Names(level)[i] == m;
    assert level[i] in level && Candidate(net, frontier, visited, m);
    f :| f in frontier && Linked(net, f, m);
  }

  lemma LongerWalk(net: Net, frontier: seq<string>, visited: set<string>, k: nat, level: seq<NodeResult>, n: string, depth: nat)
    requires depth > 0 && IsLevel(net, frontier, visited, k, level)
    requires Within(net, Names(level), n, depth - 1)
    ensures Within(net, frontier, n, depth)
  {
    var m :| m in Names(level) && WithinFrom(net, m, n, depth - 1);
    var f := LevelPredecessor(net, frontier, visited, k, level, m);
    var p :| IsWalk(net, p) && p[0] == m && p[|p| - 1] == n && |p| <= depth;
    WalkPrepend(net, f, p);
    var q := [f] + p;
    assert q[0] == f && q[|q| - 1] == n;
    assert WithinFrom(net, f, n, depth);
  }

  lemma ShorterWalk(net: Net, frontier: seq<string>, visited: set<string>, k: nat, level: seq<NodeResult>, n: string, depth: nat)
    requires depth > 0 && Roomy(net, k) && IsLevel(net, frontier, visited, k, level)
    requires Explored(net, frontier, visited) && n !in visited
    requires Within(net, frontier, n, depth)
    ensures Within(net, Names(level), n, depth - 1)
  {
    var f :| f in frontier && WithinFrom(net, f, n, depth);
    var p :| IsWalk(net, p) && p[0] == f && p[|p| - 1] == n && |p| <= depth + 1;
    var i := WalkCrossesFrontier(net, frontier, visited, p);
    var m := p[i + 1];
    assert Linked(net, p[i], m) && net.score(m).Some?;
    RoomyLevel(net, frontier, visited, k, level, m);
    var r :| r in level && r.name == m;
    var j :| 0 <= j < |level| && level[j] == r;
    assert Names(level)[j] == m;
    var q := p[i + 1..];
    assert IsWalk(net, q) by {
      forall t | 0 < t < |q| ensures Linked(net, q[t - 1], q[t]) && net.score(q[t]).Some? {
        assert q[t] == p[i + 1 + t] && q[t - 1] == p[i + t];
      }
    }
    assert WithinFrom(net, m, n, depth - 1);
  }

  // ---------------------------------------------------------------------
  // beam_traverse
  // ---------------------------------------------------------------------

  /** `net` presents g under ctx. Looked into only by hand. */
  ghost predicate Presents(net: Net, g: GraphView, ctx: Context) {
    forall i {:trigger Sealed(i)} :: Sealed(i) ==> forall n ::
      && net.next(n) == Neighbors(g, ctx, n)
      && net.score(n) == match Resolve(g, ctx, n) case Some(nd) => Some(ctx.score(nd)) case None => None
  }

  method Expand(g: GraphView, ctx: Context, index: OverlayIndex, net: Net, node: string) returns (neighbors: seq<NeighborEntry>)
    requires Indexes(index, ctx) && Presents(net, g, ctx)
    ensures neighbors == net.next(node)
  {
    neighbors := NeighborsIndexed(g, ctx, index, node);
    assert Sealed(0);
  }

  /** The weight of a neighbour: the graph's node first, then the overlay's, else nothing. */
  method ScoreOf(g: GraphView, ctx: Context, index: OverlayIndex, net: Net, name: string) returns (w: Option<real>)
    requires Indexes(index, ctx) && Presents(net, g, ctx)
    ensures w == net.score(name)
  {
    assert Sealed(0);
    if name in g.nodes {
      w := Some(ctx.score(g.nodes[name]));
    } else if name in index.nodes {
      w := Some(ctx.score(index.nodes[name]));
    } else {
      w := None;
    }
  }

  /** Found on this level so far: from the first i frontier nodes and, beyond them, among `seen`. */
  ghost predicate Found(net: Net, frontier: seq<string>, i: nat, seen: seq<NeighborEntry>, visited: set<string>, n: string)
    requires i <= |frontier|
  {
    n !in visited && net.score(n).Some? && ((exists f :: f in frontier[..i] && Linked(net, f, n)) || exists e :: e in seen && e.name == n)
  }

  /** Exactly the found names, each with its own result. */
  ghost predicate Collects(net: Net, frontier: seq<string>, i: nat, seen: seq<NeighborEntry>, visited: set<string>, levelMap: map<string, NodeResult>)
    requires i <= |frontier|
  {
    && (forall n :: n in levelMap <==> Found(net, frontier, i, seen, visited, n))
    && (forall n :: n in levelMap ==> levelMap[n].name == n && IsResult(net, levelMap[n]))
  }

  lemma CollectsNext(net: Net, frontier: seq<string>, i: nat, seen: seq<NeighborEntry>, e: NeighborEntry, visited: set<string>,
      levelMap: map<string, NodeResult>, levelMap': map<string, NodeResult>)
    requires i <= |frontier| && Collects(net, frontier, i, seen, visited, levelMap)
    requires if e.name in visited || net.score(e.name).None? then levelMap' == levelMap
      else levelMap' == levelMap[e.name := NodeResult(e.name, net.score(e.name).value)]
    ensures Collects(net, frontier, i, seen + [e], visited, levelMap')
  {
    forall n ensures n in levelMap' <==> Found(net, frontier, i, seen + [e], visited, n) {
      assert n in levelMap <==> Found(net, frontier, i, seen, visited, n);
      assert forall x :: x in seen + [e] <==> x in seen || x == e;
    }
  }

  lemma CollectsFrontierNode(net: Net, frontier: seq<string>, i: nat, visited: set<string>, levelMap: map<string, NodeResult>)
    requires i < |frontier| && Collects(net, frontier, i, net.next(frontier[i]), visited, levelMap)
    ensures Collects(net, frontier, i + 1, [], visited, levelMap)
  {
    forall n ensures n in levelMap <==> Found(net, frontier, i + 1, [], visited, n) {
      assert n in levelMap <==> Found(net, frontier, i, net.next(frontier[i]), visited, n);
      assert frontier[..i + 1] == frontier[..i] + [frontier[i]];
      assert (exists e :: e in net.next(frontier[i]) && e.name == n) <==> Linked(net, frontier[i], n);
    }
  }

  /** The results of one frontier node's neighbours join the level. */
  method CollectFrom(g: GraphView, ctx: Context, index: OverlayIndex, net: Net, frontier: seq<string>, i: nat, visited: set<string>, levelMap0: map<string, NodeResult>)
    returns (levelMap: map<string, NodeResult>)
    requires Indexes(index, ctx) && Presents(net, g, ctx)
    requires i < |frontier| && Collects(net, frontier, i, [], visited, levelMap0)
    ensures Collects(net, frontier, i + 1, [], visited, levelMap)
  {
    levelMap := levelMap0;
    var neighbors := Expand(g, ctx, index, net, frontier[i]);
    for j := 0 to |neighbors|
      invariant Collects(net, frontier, i, neighbors[..j], visited, levelMap)
    {
      var e := neighbors[j];
      ghost var before := levelMap;
      if e.name !in visited {
        var w := ScoreOf(g, ctx, index, net, e.name);
        if w.Some? {
          var result := NodeResult(e.name, w.value);
          if e.name !in levelMap || result.weight > levelMap[e.name].weight {
            levelMap := levelMap[e.name := result];
          }
          assert levelMap == before[e.name := result];
        }
      }
      CollectsNext(net, frontier, i, neighbors[..j], e, visited, before, levelMap);
      assert neighbors[..j + 1] == neighbors[..j] + [e];
    }
    assert neighbors[..|neighbors|] == neighbors;
    CollectsFrontierNode(net, frontier, i, visited, levelMap);
  }

  /** into_values, in whatever order the map yields them. */
  method Values(m: map<string, NodeResult>) returns (s: seq<NodeResult>)
    requires forall n :: n in m ==> m[n].name == n
    ensures Distinct(s)
    ensures forall r :: r in s <==> r.name in m && m[r.name] == r
  {
    s := [];
    var rest := m.Keys;
    while rest != {}
      invariant rest <= m.Keys
      invariant Distinct(s)
      invariant forall r :: r in s <==> r.name in m && r.name !in rest && m[r.name] == r
      decreases rest
    {
      var n :| n in rest;
      forall i | 0 <= i < |s| ensures s[i].name != n { assert s[i] in s; }
      rest := rest - {n};
      s := s + [m[n]];
    }
  }

  method BestLevel(net: Net, frontier: seq<string>, visited: set<string>, k: nat, levelMap: map<string, NodeResult>)
    returns (level: seq<NodeResult>)
    requires Collects(net, frontier, |frontier|, [], visited, levelMap)
    ensures IsLevel(net, frontier, visited, k, level)
  {
    var candidates := Values(levelMap);
    var sorted := Sort(candidates);
    SortRanks(candidates);
    level := sorted[..Min(k, |sorted|)];
    assert frontier[..|frontier|] == frontier;
    forall r ensures r in sorted <==> IsResult(net, r) && Candidate(net, frontier, visited, r.name) {
      assert r in sorted <==> r.name in levelMap && levelMap[r.name] == r;
      assert r.name in levelMap <==> Found(net, frontier, |frontier|, [], visited, r.name);
    }
    assert RanksCandidates(net, frontier, visited, sorted);
  }

  /** The levels found so far, followed by any beam from here on, are a beam from the start. */
  ghost predicate Prefix(net: Net, frontier0: seq<string>, visited0: set<string>, k: nat, depth: nat,
      done: seq<seq<NodeResult>>, frontier: seq<string>, visited: set<string>)
  {
    |done| <= depth && forall rest {:trigger IsBeam(net, frontier, visited, k, depth - |done|, rest)} ::
      IsBeam(net, frontier, visited, k, depth - |done|, rest) ==> IsBeam(net, frontier0, visited0, k, depth, done + rest)
  }

  lemma PrefixStart(net: Net, frontier: seq<string>, visited: set<string>, k: nat, depth: nat)
    ensures Prefix(net, frontier, visited, k, depth, [], frontier, visited)
  {
    forall rest | IsBeam(net, frontier, visited, k, depth - 0, rest) ensures IsBeam(net, frontier, visited, k, depth, [] + rest) {
      assert [] + rest == rest;
    }
  }

  lemma PrefixNext(net: Net, frontier0: seq<string>, visited0: set<string>, k: nat, depth: nat,
      done: seq<seq<NodeResult>>, frontier: seq<string>, visited: set<string>, level: seq<NodeResult>)
    requires Prefix(net, frontier0, visited0, k, depth, done, frontier, visited)
    requires |done| < depth && frontier != [] && IsLevel(net, frontier, visited, k, level)
    ensures Prefix(net, frontier0, visited0, k, depth, done + [level], Names(level), visited + NameSet(level))
  {
    forall rest | IsBeam(net, Names(level), visited + NameSet(level), k, depth - |done + [level]|, rest)
      ensures IsBeam(net, frontier0, visited0, k, depth, (done + [level]) + rest)
    {
      var longer := [level] + rest;
      assert longer[1..] == rest;
      assert IsBeam(net, frontier, visited, k, depth - |done|, longer);
      assert done + longer == (done + [level]) + rest;
    }
  }

  lemma PrefixEnd(net: Net, frontier0: seq<string>, visited0: set<string>, k: nat, depth: nat,
      done: seq<seq<NodeResult>>, frontier: seq<string>, visited: set<string>)
    requires Prefix(net, frontier0, visited0, k, depth, done, frontier, visited)
    requires |done| == depth || frontier == []
    ensures IsBeam(net, frontier0, visited0, k, depth, done)
  {
    assert IsBeam(net, frontier, visited, k, depth - |done|, []);
    assert done + [] == done;
  }

  lemma {:induction false} FlattenSnoc(levels: seq<seq<NodeResult>>, level: seq<NodeResult>)
    ensures Flatten(levels + [level]) == Flatten(levels) + level
  {
    if levels != [] {
      assert (levels + [level])[1..] == levels[1..] + [level];
      FlattenSnoc(levels[1..], level);
    }
  }

  /** One level: collect, rank, keep the best k, and mark them visited. */
  method OneLevel(g: GraphView, ctx: Context, index: OverlayIndex, net: Net, frontier: seq<string>, visited: set<string>, k: nat)
    returns (level: seq<NodeResult>, frontier': seq<string>, visited': set<string>)
    requires Indexes(index, ctx) && Presents(net, g, ctx)
    ensures IsLevel(net, frontier, visited, k, level)
    ensures frontier' == Names(level) && visited' == visited + NameSet(level)
  {
    var levelMap: map<string, NodeResult> := map[];
    for i := 0 to |frontier|
      invariant Collects(net, frontier, i, [], visited, levelMap)
    {
      levelMap := CollectFrom(g, ctx, index, net, frontier, i, visited, levelMap);
    }
    level := BestLevel(net, frontier, visited, k, levelMap);
    LevelFacts(net, frontier, visited, k, level);
    frontier', visited' := [], visited;
    for i := 0 to |level|
      invariant frontier' == Names(level[..i]) && visited' == visited + NameSet(level[..i])
    {
      var name := level[i].name;
      assert level[..i + 1] == level[..i] + [level[i]];
      assert level[i] in level;
      assert name !in NameSet(level[..i]);
      if name !in visited' {
        visited' := visited' + {name};
        frontier' := frontier' + [name];
      }
    }
    assert level[..|level|] == level;
  }

  /** beam_traverse, together with the levels it found. */
  method BeamTraverse(g: GraphView, ctx: Context, start: string, k: nat, depth: nat)
    returns (results: seq<NodeResult>, ghost levels: seq<seq<NodeResult>>)
    ensures IsBeam(NetOf(g, ctx), [start], {start}, k, depth, levels) && results == Sort(Flatten(levels))
    ensures |results| <= k * depth && Ranked(results) && Distinct(results)
    ensures forall i, j :: 0 <= i < j < |results| ==>
      results[i].weight > results[j].weight || (results[i].weight == results[j].weight && Lt(results[i].name, results[j].name))
    ensures forall r :: r in results ==> r.name != start && IsResult(NetOf(g, ctx), r)
    ensures forall r :: r in results ==> exists nd :: StandsFor(g, ctx, r.name, nd) && r.weight == ctx.score(nd)
  {
    var index := BuildIndex(ctx);
    var net := NetOf(g, ctx);
    assert Presents(net, g, ctx);
    results, levels := TraverseLevels(g, ctx, index, net, start, k, depth);
    results := Sort(results);
    BeamFacts(net, [start], {start}, k, depth, levels);
    SortRanks(Flatten(levels));
    SortDistinct(Flatten(levels));
    forall r | r in results ensures exists nd :: StandsFor(g, ctx, r.name, nd) && r.weight == ctx.score(nd) {
      OwnScore(g, ctx, r);
    }
  }

  lemma OwnScore(g: GraphView, ctx: Context, r: NodeResult)
    requires IsResult(NetOf(g, ctx), r)
    ensures exists nd :: StandsFor(g, ctx, r.name, nd) && r.weight == ctx.score(nd)
  {
    ResolveIs(g, ctx, r.name);
    assert StandsFor(g, ctx, r.name, Resolve(g, ctx, r.name).value);
  }

  lemma SortDistinct(s: seq<NodeResult>)
    requires Distinct(s)
    ensures Distinct(Sort(s))
  {
    var t := Sort(s);
    SortRanks(s);
    forall i, j | 0 <= i < j < |t| ensures t[i].name != t[j].name {
      assert t[i] in t && t[j] in t;
      BeforeOrder(t[i], t[j], t[i]);
    }
  }

  method TraverseLevels(g: GraphView, ctx: Context, index: OverlayIndex, net: Net, start: string, k: nat, depth: nat)
    returns (results: seq<NodeResult>, ghost levels: seq<seq<NodeResult>>)
    requires Indexes(index, ctx) && Presents(net, g, ctx)
    ensures IsBeam(net, [start], {start}, k, depth, levels) && results == Flatten(levels)
    ensures |results| <= k * depth && Distinct(results)
  {
    var visited, frontier := {start}, [start];
    results, levels := [], [];
    PrefixStart(net, frontier, visited, k, depth);
    var d := 0;
    while d < depth && frontier != []
      invariant |levels| == d <= depth && results == Flatten(levels)
      invariant Prefix(net, [start], {start}, k, depth, levels, frontier, visited)
    {
      var level, frontier', visited' := OneLevel(g, ctx, index, net, frontier, visited, k);
      PrefixNext(net, [start], {start}, k, depth, levels, frontier, visited, level);
      FlattenSnoc(levels, level);
      results := results + level;
      levels := levels + [level];
      frontier, visited := frontier', visited';
      d := d + 1;
    }
    PrefixEnd(net, [start], {start}, k, depth, levels, frontier, visited);
    BeamFacts(net, [start], {start}, k, depth, levels);
  }

  /**
   With k at least the number of nodes, the names a beam returns are exactly
   those at neighbour-relation distance 1..depth of the start.
   */
  lemma WideBeamIsBall(g: GraphView, ctx: Context, start: string, k: nat, depth: nat, levels: seq<seq<NodeResult>>, n: string)
    requires k >= |g.nodes| + |ctx.overlayNodes|
    requires IsBeam(NetOf(g, ctx), [start], {start}, k, depth, levels)
    ensures n in NameSet(Sort(Flatten(levels))) <==> n != start && WithinFrom(NetOf(g, ctx), start, n, depth)
  {
    var net := NetOf(g, ctx);
    NodesFit(g, ctx, k);
    assert Explored(net, [start], {start});
    RoomyBeam(net, [start], {start}, k, depth, levels, n);
    assert NameSet(Sort(Flatten(levels))) == NameSet(Flatten(levels));
    assert start in [start];
  }

  function OverlayNames(nodes: seq<NodeData>): (s: set<string>)
    ensures |s| <= |nodes|
    ensures forall m :: LastNamed(nodes, m).Some? ==> m in s
  {
    if nodes == [] then {} else OverlayNames(nodes[..|nodes| - 1]) + {nodes[|nodes| - 1].name}
  }

  lemma UnionSize<T>(a: set<T>, b: set<T>)
    ensures |a + b| <= |a| + |b|
  {
    assert a + b == a + (b - a);
    assert b == (b - a) + (b * a);
  }

  lemma NodeIsNamed(g: GraphView, ctx: Context, m: string)
    requires NetOf(g, ctx).score(m).Some?
    ensures m in g.nodes.Keys + OverlayNames(ctx.overlayNodes)
  {
    assert Resolve(g, ctx, m).Some?;
    if m !in g.nodes {
      assert LastNamed(ctx.overlayNodes, m).Some?;
    }
  }

  lemma NodesFit(g: GraphView, ctx: Context, k: nat)
    requires k >= |g.nodes| + |ctx.overlayNodes|
    ensures Roomy(NetOf(g, ctx), k)
  {
    var graph, overlay := g.nodes.Keys, OverlayNames(ctx.overlayNodes);
    UnionSize(graph, overlay);
    forall m | NetOf(g, ctx).score(m).Some? ensures m in graph + overlay {
      NodeIsNamed(g, ctx, m);
    }
    assert Contains(NetOf(g, ctx), graph + overlay);
  }
}
