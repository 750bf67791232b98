/**
 Writing a snapshot (src/persist/snapshot.rs:206-304): canonical order, offsets by
 count and prefix sum, the incoming mirror, and the name table. Whatever is written
 passes validation and stands for the graph it was written from.
 */
module CsrWriter {
  import opened Types
  import opened Seqs
  import opened Strings
  import opened Graphs
  import opened Perms
  import opened NameTable
  import opened Csr
  import opened CsrOrder

  /** The in-memory graph: nodes in insertion order, edges between their positions. */
  datatype Owned = Owned(nodes: seq<NodeData>, edges: seq<IndexedEdge>)

  ghost predicate OwnedOk(g: Owned) {
    Unique(Names(g.nodes)) && EndpointsOk(g.edges, |g.nodes|)
  }

  function Meaning(g: Owned): Graph { GraphOf(g.nodes, g.edges) }

  // ---------------------------------------------------------------------
  // Offsets
  // ---------------------------------------------------------------------

  function Below(i: nat): nat -> bool { k => k < i }

  function EqualTo(i: nat): nat -> bool { k => k == i }

  function CountBelow(keys: seq<nat>, i: nat): nat { Count(keys, Below(i)) }

  lemma CountBelowStep(keys: seq<nat>, i: nat)
    ensures CountBelow(keys, i + 1) == CountBelow(keys, i) + Count(keys, EqualTo(i))
  {
    CountSplit(keys, Below(i + 1), Below(i), EqualTo(i));
  }

  lemma CountBelowNone(keys: seq<nat>)
    ensures CountBelow(keys, 0) == 0
  {
    FilterNone(keys, Below(0));
  }

  lemma CountBelowAll(keys: seq<nat>, n: nat)
    requires InBounds(keys, n)
    ensures CountBelow(keys, n) == |keys|
  {
    FilterAll(keys, Below(n));
  }

  ghost predicate AreCounts(off: seq<nat>, keys: seq<nat>, n: nat) {
    |off| == n + 1 && forall i :: 0 <= i <= n ==> off[i] == CountBelow(keys, i)
  }

  method TallyKeys(keys: seq<nat>, n: nat) returns (off: array<nat>)
    requires InBounds(keys, n)
    ensures fresh(off) && off.Length == n + 1 && off[0] == 0
    ensures forall i :: 0 <= i < n ==> off[i + 1] == Count(keys, EqualTo(i))
  {
    off := new nat[n + 1](_ => 0);
    for k := 0 to |keys|
      invariant off[0] == 0
      invariant forall i :: 0 <= i < n ==> off[i + 1] == Count(keys[..k], EqualTo(i))
    {
      forall i | 0 <= i < n
        ensures Count(keys[..k + 1], EqualTo(i)) == Count(keys[..k], EqualTo(i)) + (if keys[k] == i then 1 else 0)
      {
        CountPrefix(keys, k, EqualTo(i));
      }
      off[keys[k] + 1] := off[keys[k] + 1] + 1;
    }
    assert keys[..|keys|] == keys;
  }

  /** Count, then prefix-sum in place. */
  method OffsetsFor(keys: seq<nat>, n: nat) returns (off: array<nat>)
    requires InBounds(keys, n)
    ensures fresh(off) && AreCounts(off[..], keys, n)
  {
    off := TallyKeys(keys, n);
    CountBelowNone(keys);
    for i := 0 to n
      invariant forall j :: 0 <= j <= i ==> off[j] == CountBelow(keys, j)
      invariant forall j :: i < j <= n ==> off[j] == Count(keys, EqualTo(j - 1))
    {
      CountBelowStep(keys, i);
      off[i + 1] := off[i + 1] + off[i];
    }
  }

  lemma {:induction false} CountsRise(off: seq<nat>, keys: seq<nat>, n: nat, i: nat, j: nat)
    requires AreCounts(off, keys, n) && i <= j <= n
    ensures off[i] <= off[j]
    decreases j
  {
    if i < j {
      CountsRise(off, keys, n, i, j - 1);
      CountBelowStep(keys, j - 1);
    }
  }

  lemma CountsAreOffsets(off: seq<nat>, keys: seq<nat>, n: nat)
    requires AreCounts(off, keys, n) && InBounds(keys, n)
    ensures OffsetsOk(off, n, |keys|)
  {
    CountBelowNone(keys);
    CountBelowAll(keys, n);
    forall i, j | 0 <= i <= j <= n ensures off[i] <= off[j] {
      CountsRise(off, keys, n, i, j);
    }
  }

  ghost predicate Ascending(keys: seq<nat>) {
    forall i, j :: 0 <= i < j < |keys| ==> keys[i] <= keys[j]
  }

  /** In an ascending list the keys below i come first. */
  lemma {:induction false} BelowComeFirst(keys: seq<nat>, i: nat, k: nat)
    requires Ascending(keys) && k < |keys|
    ensures k < CountBelow(keys, i) <==> keys[k] < i
    decreases |keys|
  {
    var last := |keys| - 1;
    var init := keys[..last];
    assert keys == init + [keys[last]];
    FilterSnoc(init, keys[last], Below(i));
    if keys[last] < i {
      FilterAll(keys, Below(i)) by {
        forall x | x in keys ensures Below(i)(x) {
          var j :| 0 <= j < |keys| && keys[j] == x;
          assert j < last ==> keys[j] <= keys[last];
        }
      }
    } else if k < last {
      BelowComeFirst(init, i, k);
    } else {
      CountAtMost(init, Below(i));
    }
  }

  lemma {:induction false} CountAtMost(s: seq<nat>, p: nat -> bool)
    ensures Count(s, p) <= |s|
  {
    if s != [] {
      CountAtMost(s[1..], p);
    }
  }

  lemma AscendingIsGrouped(off: seq<nat>, keys: seq<nat>, n: nat)
    requires AreCounts(off, keys, n) && Ascending(keys)
    ensures Grouped(keys, off)
  {
    forall i, k | 0 <= i < |off| - 1 && off[i] <= k < off[i + 1] && k < |keys| ensures keys[k] == i {
      BelowComeFirst(keys, i, k);
      BelowComeFirst(keys, i + 1, k);
    }
  }

  // ---------------------------------------------------------------------
  // The incoming mirror
  // ---------------------------------------------------------------------

  function Iota(n: nat): (r: seq<nat>)
    ensures |r| == n && forall k :: 0 <= k < n ==> r[k] == k
  {
    if n == 0 then [] else Iota(n - 1) + [n - 1]
  }

  function TargetAt(edges: seq<IndexedEdge>, x: nat): nat { if x < |edges| then edges[x].to else 0 }

  /** By target, then by position. */
  function MirrorLe(edges: seq<IndexedEdge>): (nat, nat) -> bool {
    (x: nat, y: nat) => TargetAt(edges, x) < TargetAt(edges, y) || (TargetAt(edges, x) == TargetAt(edges, y) && x <= y)
  }

  function MirrorOf(edges: seq<IndexedEdge>): seq<nat> { SortBy(Iota(|edges|), MirrorLe(edges)) }

  lemma {:induction false} IotaOnce(n: nat, x: nat)
    ensures multiset(Iota(n))[x] == if x < n then 1 else 0
  {
    if n > 0 {
      IotaOnce(n - 1, x);
    }
  }

  lemma TwiceCounts<T>(s: seq<T>, i: nat, j: nat)
    requires i < j < |s| && s[i] == s[j]
    ensures multiset(s)[s[i]] >= 2
  {
    assert s == s[..j] + ([s[j]] + s[j + 1..]);
    assert s[..j][i] in multiset(s[..j]);
  }

  lemma PermutedIota(idx: seq<nat>, n: nat)
    requires multiset(idx) == multiset(Iota(n))
    ensures IsPermutation(idx, n)
  {
    assert |idx| == |multiset(idx)| == |multiset(Iota(n))|;
    forall k | 0 <= k < |idx| ensures idx[k] < n {
      assert idx[k] in multiset(idx);
      IotaOnce(n, idx[k]);
    }
    forall j, k | 0 <= j < k < |idx| ensures idx[j] != idx[k] {
      IotaOnce(n, idx[j]);
      if idx[j] == idx[k] { TwiceCounts(idx, j, k); }
    }
  }

  lemma MirrorLeIsTotal(edges: seq<IndexedEdge>)
    ensures TotalPreorder(MirrorLe(edges))
  {
  }

  lemma TargetAscends(edges: seq<IndexedEdge>, mirror: seq<nat>, i: nat, j: nat)
    requires InBounds(mirror, |edges|) && SortedBy(mirror, MirrorLe(edges)) && i < j < |mirror|
    ensures Map(Pick(edges, mirror), TargetOf)[i] <= Map(Pick(edges, mirror), TargetOf)[j]
  {
    assert MirrorLe(edges)(mirror[i], mirror[j]);
  }

  lemma SortedMirrorAscends(edges: seq<IndexedEdge>, mirror: seq<nat>)
    requires InBounds(mirror, |edges|) && SortedBy(mirror, MirrorLe(edges))
    ensures Ascending(Map(Pick(edges, mirror), TargetOf))
  {
    var keys := Map(Pick(edges, mirror), TargetOf);
    forall i: nat, j: nat | i < j < |keys| ensures keys[i] <= keys[j] {
      TargetAscends(edges, mirror, i, j);
    }
  }

  lemma MirrorIs(edges: seq<IndexedEdge>)
    ensures IsPermutation(MirrorOf(edges), |edges|)
    ensures Ascending(Map(Pick(edges, MirrorOf(edges)), TargetOf))
  {
    MirrorLeIsTotal(edges);
    SortByIs(Iota(|edges|), MirrorLe(edges));
    PermutedIota(MirrorOf(edges), |edges|);
    SortedMirrorAscends(edges, MirrorOf(edges));
  }

  // ---------------------------------------------------------------------
  // Canonical order
  // ---------------------------------------------------------------------

  predicate NameLe(a: NodeData, b: NodeData) { StringLe(a.name, b.name) }

  function SortedNodes(g: Owned): seq<NodeData> { SortBy(g.nodes, NameLe) }

  function IndexIn(nodes: seq<NodeData>, name: string): nat {
    match PositionOf(nodes, name)
    case Some(i) => i
    case None => 0
  }

  /** The same edge between positions in another node list. */
  function Moved(from: seq<NodeData>, to: seq<NodeData>): IndexedEdge -> IndexedEdge {
    (e: IndexedEdge) => IndexedEdge(IndexIn(to, NameAt(from, e.from)), IndexIn(to, NameAt(from, e.to)), e.data)
  }

  function SortedEdges(g: Owned): seq<IndexedEdge> { SortBy(Map(g.edges, Moved(g.nodes, SortedNodes(g))), EdgeLe()) }

  lemma NameLeIsTotal()
    ensures TotalPreorder(NameLe)
  {
    StringLeIsTotal();
  }

  lemma SortedNodesAre(g: Owned)
    requires Unique(Names(g.nodes))
    ensures multiset(SortedNodes(g)) == multiset(g.nodes) && |SortedNodes(g)| == |g.nodes|
    ensures StrictlySorted(Names(SortedNodes(g)))
  {
    var nodes, names := SortedNodes(g), Names(SortedNodes(g));
    NameLeIsTotal();
    SortByIs(g.nodes, NameLe);
    assert |nodes| == |multiset(nodes)| && |g.nodes| == |multiset(g.nodes)|;
    MapPermuted(nodes, g.nodes, NameOf);
    PermutedUnique(names, Names(g.nodes));
    forall i, j | 0 <= i < j < |names| ensures Lt(names[i], names[j]) {
      assert NameLe(nodes[i], nodes[j]);
    }
  }

  lemma {:induction false} UniqueOnce(names: seq<string>, x: string)
    requires Unique(names)
    ensures multiset(names)[x] <= 1
  {
    if names != [] {
      UniqueOnce(names[1..], x);
      assert names == [names[0]] + names[1..];
      if x in names[1..] {
        var k :| 0 <= k < |names[1..]| && names[1..][k] == x;
        assert names[0] != names[k + 1];
      }
    }
  }

  /** A permutation of distinct names is distinct. */
  lemma PermutedUnique(a: seq<string>, b: seq<string>)
    requires multiset(a) == multiset(b) && Unique(b)
    ensures Unique(a)
  {
    forall i, j | 0 <= i < j < |a| ensures a[i] != a[j] {
      UniqueOnce(b, a[i]);
      if a[i] == a[j] { TwiceCounts(a, i, j); }
    }
  }

  lemma SameNames(a: seq<NodeData>, b: seq<NodeData>)
    requires multiset(a) == multiset(b)
    ensures forall name :: PositionOf(a, name).Some? <==> PositionOf(b, name).Some?
  {
    forall name ensures PositionOf(a, name).Some? <==> PositionOf(b, name).Some? {
      if i :| 0 <= i < |a| && a[i].name == name {
        assert a[i] in multiset(b);
        var j :| 0 <= j < |b| && b[j] == a[i];
      }
      if j :| 0 <= j < |b| && b[j].name == name {
        assert b[j] in multiset(a);
        var i :| 0 <= i < |a| && a[i] == b[j];
      }
    }
  }

  /** The graph is the same whatever order its nodes are listed in. */
  lemma MovedKeepsMeaning(from: seq<NodeData>, to: seq<NodeData>, edges: seq<IndexedEdge>)
    requires multiset(from) == multiset(to) && EndpointsOk(edges, |from|)
    ensures EndpointsOk(Map(edges, Moved(from, to)), |to|)
    ensures Map(Map(edges, Moved(from, to)), Named(to)) == Map(edges, Named(from))
  {
    SameNames(from, to);
    forall k | 0 <= k < |edges| ensures MovesTo(from, to, edges[k]) {
      MovedEdge(from, to, edges[k]);
    }
    forall e | e in edges ensures Named(from)(e) == Named(to)(Moved(from, to)(e)) {
      var k :| 0 <= k < |edges| && edges[k] == e;
      assert MovesTo(from, to, edges[k]);
    }
    MapTwice(edges, Moved(from, to), Named(to), Named(from));
  }

  predicate MovesTo(from: seq<NodeData>, to: seq<NodeData>, e: IndexedEdge) {
    var m := Moved(from, to)(e);
    m.from < |to| && m.to < |to| && Named(to)(m) == Named(from)(e)
  }

  lemma MovedEdge(from: seq<NodeData>, to: seq<NodeData>, e: IndexedEdge)
    requires e.from < |from| && e.to < |from|
    requires forall name :: PositionOf(from, name).Some? <==> PositionOf(to, name).Some?
    ensures MovesTo(from, to, e)
  {
    assert PositionOf(from, from[e.from].name).Some? && PositionOf(from, from[e.to].name).Some?;
  }

  lemma SortedEdgesAre(g: Owned)
    requires OwnedOk(g)
    ensures multiset(Map(SortedEdges(g), Named(SortedNodes(g)))) == multiset(Map(g.edges, Named(g.nodes)))
    ensures EndpointsOk(SortedEdges(g), |g.nodes|)
    ensures Ascending(Map(SortedEdges(g), SourceOf))
  {
    var nodes := SortedNodes(g);
    var moved := Map(g.edges, Moved(g.nodes, nodes));
    SortedNodesAre(g);
    MovedKeepsMeaning(g.nodes, nodes, g.edges);
    EdgeLeIsTotal();
    SortByIs(moved, EdgeLe());
    MapPermuted(SortedEdges(g), moved, Named(nodes));
    EndpointsPermuted(SortedEdges(g), moved, |nodes|);
    SortedSourcesAscend(SortedEdges(g));
  }

  lemma EndpointsPermuted(a: seq<IndexedEdge>, b: seq<IndexedEdge>, n: nat)
    requires multiset(a) == multiset(b) && EndpointsOk(b, n)
    ensures EndpointsOk(a, n)
  {
    forall k | 0 <= k < |a| ensures a[k].from < n && a[k].to < n {
      assert a[k] in multiset(b);
      var j :| 0 <= j < |b| && b[j] == a[k];
    }
  }

  lemma SortedSourcesAscend(edges: seq<IndexedEdge>)
    requires SortedBy(edges, EdgeLe())
    ensures Ascending(Map(edges, SourceOf))
  {
    EdgeLeIsTotal();
    var keys := Map(edges, SourceOf);
    forall i, j | 0 <= i < j < |keys| ensures keys[i] <= keys[j] {
      assert EdgeLe()(edges[i], edges[j]);
    }
  }

  lemma {:induction false} SameNodeMap(a: seq<NodeData>, b: seq<NodeData>)
    requires multiset(a) == multiset(b) && Unique(Names(a)) && Unique(Names(b))
    ensures NodeMap(a) == NodeMap(b)
  {
    SameNames(a, b);
    forall name ensures name in NodeMap(a) <==> name in NodeMap(b) {
      NodeMapAt(a, name);
      NodeMapAt(b, name);
    }
    forall name | name in NodeMap(a) ensures NodeMap(a)[name] == NodeMap(b)[name] {
      NodeMapAt(a, name);
      NodeMapAt(b, name);
      var i := PositionOf(a, name).value;
      assert a[i] in multiset(b);
      var j :| 0 <= j < |b| && b[j] == a[i];
      SameName(b, j, PositionOf(b, name).value);
    }
  }

  // ---------------------------------------------------------------------
  // to_rkyv_v2
  // ---------------------------------------------------------------------

  /** Every part of the snapshot, as a function of the graph and the hash. */
  ghost predicate Written(hash: string -> nat, g: Owned, a: Snapshot) {
    && a.nodes == SortedNodes(g) && a.edges == SortedEdges(g) && a.inMirror == MirrorOf(a.edges)
    && AreCounts(a.nodeOffsets, Map(a.edges, SourceOf), |a.nodes|)
    && AreCounts(a.inOffsets, Map(a.edges, TargetOf), |a.nodes|)
    && BucketCapacity(|a.nodes|) > 0
    && a.nameBuckets == TableOf(hash, Names(a.nodes), BucketCapacity(|a.nodes|), |a.nodes|)
  }

  /** Accepted by the validator, and the same graph: same nodes, same edges with all their fields. */
  method ToRkyvV2(hash: string -> nat, g: Owned) returns (a: Snapshot)
    requires OwnedOk(g) && |g.nodes| <= EMPTY
    ensures CsrOk(hash, a)
    ensures GraphOf(a.nodes, a.edges).nodes == Meaning(g).nodes
    ensures multiset(GraphOf(a.nodes, a.edges).edges) == multiset(Meaning(g).edges)
    ensures Written(hash, g, a)
    ensures forall i, j :: 0 <= i < j < |a.edges| ==> ListedFirst(a.edges[i], a.edges[j])
    ensures StableMirror(a)
  {
    var nodes, edges := SortedNodes(g), SortedEdges(g);
    SortedNodesAre(g);
    SortedEdgesAre(g);
    SortedAreUnique(Names(nodes));
    SameNodeMap(nodes, g.nodes);
    var n := |nodes|;
    var out := OffsetsFor(Map(edges, SourceOf), n);
    CountsAreOffsets(out[..], Map(edges, SourceOf), n);
    AscendingIsGrouped(out[..], Map(edges, SourceOf), n);
    var mirror := MirrorOf(edges);
    var inc := OffsetsFor(Map(edges, TargetOf), n);
    MirrorGroups(edges, inc[..], n);
    var buckets := BuildNameBuckets(hash, Names(nodes));
    BuiltTableIsOk(hash, Names(nodes), buckets[..]);
    a := Snapshot(nodes, edges, out[..], inc[..], mirror, buckets[..]);
    WrittenInOrder(hash, g, a);
  }

  lemma WrittenInOrder(hash: string -> nat, g: Owned, a: Snapshot)
    requires Written(hash, g, a)
    ensures StableMirror(a) && forall i, j :: 0 <= i < j < |a.edges| ==> ListedFirst(a.edges[i], a.edges[j])
  {
    EdgesListed(g);
    MirrorIsStable(a);
  }

  lemma EdgesListed(g: Owned)
    ensures var edges := SortedEdges(g);
      forall i, j :: 0 <= i < j < |edges| ==> ListedFirst(edges[i], edges[j])
  {
    var edges := SortedEdges(g);
    EdgeLeIsTotal();
    SortByIs(Map(g.edges, Moved(g.nodes, SortedNodes(g))), EdgeLe());
    forall i, j | 0 <= i < j < |edges| ensures ListedFirst(edges[i], edges[j]) {
      FieldByField(edges[i], edges[j]);
      assert EdgeLe()(edges[i], edges[j]);
    }
  }

  lemma MirrorIsStable(a: Snapshot)
    requires a.inMirror == MirrorOf(a.edges)
    ensures StableMirror(a)
  {
    MirrorIs(a.edges);
    MirrorLeIsTotal(a.edges);
    SortByIs(Iota(|a.edges|), MirrorLe(a.edges));
    forall i, j | 0 <= i < j < |a.inMirror| && a.edges[a.inMirror[i]].to == a.edges[a.inMirror[j]].to
      ensures a.inMirror[i] < a.inMirror[j]
    {
      assert MirrorLe(a.edges)(a.inMirror[i], a.inMirror[j]) && a.inMirror[i] != a.inMirror[j];
    }
  }

  /** The incoming offsets, counted over the edges as listed, group the mirrored edges. */
  lemma MirrorGroups(edges: seq<IndexedEdge>, off: seq<nat>, n: nat)
    requires EndpointsOk(edges, n) && AreCounts(off, Map(edges, TargetOf), n)
    ensures OffsetsOk(off, n, |edges|) && IsPermutation(MirrorOf(edges), |edges|)
    ensures Grouped(Map(Pick(edges, MirrorOf(edges)), TargetOf), off)
  {
    MirrorIs(edges);
    MirroredCounts(edges, off, n);
    CountsAreOffsets(off, Map(edges, TargetOf), n);
    AscendingIsGrouped(off, Map(Pick(edges, MirrorOf(edges)), TargetOf), n);
  }

  lemma MirroredCounts(edges: seq<IndexedEdge>, off: seq<nat>, n: nat)
    requires AreCounts(off, Map(edges, TargetOf), n) && IsPermutation(MirrorOf(edges), |edges|)
    ensures AreCounts(off, Map(Pick(edges, MirrorOf(edges)), TargetOf), n)
  {
    PickPermuted(edges, MirrorOf(edges));
    MapPermuted(Pick(edges, MirrorOf(edges)), edges, TargetOf);
    CountsPermuted(off, Map(edges, TargetOf), Map(Pick(edges, MirrorOf(edges)), TargetOf), n);
  }

  lemma CountsPermuted(off: seq<nat>, a: seq<nat>, b: seq<nat>, n: nat)
    requires AreCounts(off, a, n) && multiset(a) == multiset(b)
    ensures AreCounts(off, b, n)
  {
    forall i | 0 <= i <= n ensures off[i] == CountBelow(b, i) {
      CountPermuted(a, b, Below(i));
    }
  }

  lemma SortedNodesCanonical(g: Owned, h: Owned)
    requires OwnedOk(g) && OwnedOk(h) && multiset(g.nodes) == multiset(h.nodes)
    ensures SortedNodes(g) == SortedNodes(h)
  {
    SortedNodesAre(g);
    SortedNodesAre(h);
    NameLeIsTotal();
    SortByIs(g.nodes, NameLe);
    SortByIs(h.nodes, NameLe);
    StringLeIsTotal();
    SortedAreUnique(Names(SortedNodes(g)));
    forall x, y | x in SortedNodes(g) && y in SortedNodes(g) && NameLe(x, y) && NameLe(y, x) ensures x == y {
      var i :| 0 <= i < |SortedNodes(g)| && SortedNodes(g)[i] == x;
      var j :| 0 <= j < |SortedNodes(g)| && SortedNodes(g)[j] == y;
      SameName(SortedNodes(g), i, j);
    }
    SortedPermutationUnique(SortedNodes(g), SortedNodes(h), NameLe);
  }

  lemma CountsUnique(a: seq<nat>, b: seq<nat>, keys: seq<nat>, n: nat)
    requires AreCounts(a, keys, n) && AreCounts(b, keys, n)
    ensures a == b
  {
  }

  /**
   Determinism: one logical graph has one snapshot. Neither the order in which nodes
   and edges were inserted nor anything else shows in what is written.
   */
  lemma WriterIsCanonical(hash: string -> nat, g: Owned, h: Owned, a: Snapshot, b: Snapshot)
    requires OwnedOk(g) && OwnedOk(h) && multiset(g.nodes) == multiset(h.nodes)
    requires multiset(Meaning(g).edges) == multiset(Meaning(h).edges)
    requires Written(hash, g, a) && Written(hash, h, b)
    ensures a == b
  {
    SortedNodesCanonical(g, h);
    SortedEdgesCanonical(g, h);
    CountsUnique(a.nodeOffsets, b.nodeOffsets, Map(a.edges, SourceOf), |a.nodes|);
    CountsUnique(a.inOffsets, b.inOffsets, Map(a.edges, TargetOf), |a.nodes|);
  }

  lemma SortedEdgesCanonical(g: Owned, h: Owned)
    requires OwnedOk(g) && OwnedOk(h) && SortedNodes(g) == SortedNodes(h)
    requires multiset(Meaning(g).edges) == multiset(Meaning(h).edges)
    ensures SortedEdges(g) == SortedEdges(h)
  {
    var nodes := SortedNodes(g);
    MovedIsPlaced(g);
    MovedIsPlaced(h);
    MapPermuted(Meaning(g).edges, Meaning(h).edges, Placed(nodes));
    EdgeLeIsTotal();
    SortByIs(Map(g.edges, Moved(g.nodes, nodes)), EdgeLe());
    SortByIs(Map(h.edges, Moved(h.nodes, nodes)), EdgeLe());
    SortedPermutationUnique(SortedEdges(g), SortedEdges(h), EdgeLe());
  }

  /** A named edge as an edge between positions. */
  function Placed(nodes: seq<NodeData>): Edge -> IndexedEdge {
    (e: Edge) => IndexedEdge(IndexIn(nodes, e.from), IndexIn(nodes, e.to), e.data)
  }

  lemma MovedIsPlaced(g: Owned)
    ensures Map(g.edges, Moved(g.nodes, SortedNodes(g))) == Map(Meaning(g).edges, Placed(SortedNodes(g)))
  {
    MapTwice(g.edges, Named(g.nodes), Placed(SortedNodes(g)), Moved(g.nodes, SortedNodes(g)));
  }
}
