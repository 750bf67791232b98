/**
 Snapshots in compressed-sparse-row form: validation, the O(degree) reader and the
 full-scan reader it refines (src/persist/snapshot.rs:398-860,
 src/serialization.rs:185-243).
 */
module Csr {
  import opened Types
  import opened Seqs
  import opened Strings
  import opened Overlay
  import opened Graphs
  import opened Perms
  import opened NameTable

  /** An edge between node positions. */
  datatype IndexedEdge = IndexedEdge(from: nat, to: nat, data: EdgeData)

  datatype Snapshot = Snapshot(
    nodes: seq<NodeData>,
    edges: seq<IndexedEdge>,
    nodeOffsets: seq<nat>,
    inOffsets: seq<nat>,
    inMirror: seq<nat>,
    nameBuckets: seq<nat>)

  function NameOf(nd: NodeData): string { nd.name }

  function Names(nodes: seq<NodeData>): seq<string> { Map(nodes, NameOf) }

  function SourceOf(e: IndexedEdge): nat { e.from }

  function TargetOf(e: IndexedEdge): nat { e.to }

  // ---------------------------------------------------------------------
  // What a well-formed snapshot is
  // ---------------------------------------------------------------------

  ghost predicate EndpointsOk(edges: seq<IndexedEdge>, n: nat) {
    forall k :: 0 <= k < |edges| ==> edges[k].from < n && edges[k].to < n
  }

  /** Starts at 0, never falls, ends at e: the groups partition 0..e. */
  ghost predicate OffsetsOk(off: seq<nat>, n: nat, e: nat) {
    && |off| == n + 1 && off[0] == 0 && off[n] == e
    && forall i, j :: 0 <= i <= j <= n ==> off[i] <= off[j]
  }

  /** Group i of `keys` holds only i. */
  ghost predicate Grouped(keys: seq<nat>, off: seq<nat>)
    requires |off| > 0
  {
    forall i, k :: 0 <= i < |off| - 1 && off[i] <= k < off[i + 1] && k < |keys| ==> keys[k] == i
  }

  ghost predicate CsrOk(hash: string -> nat, a: Snapshot) {
    var n, e := |a.nodes|, |a.edges|;
    && StrictlySorted(Names(a.nodes)) && TableOk(hash, Names(a.nodes), a.nameBuckets)
    && EndpointsOk(a.edges, n)
    && OffsetsOk(a.nodeOffsets, n, e) && Grouped(Map(a.edges, SourceOf), a.nodeOffsets)
    && OffsetsOk(a.inOffsets, n, e) && IsPermutation(a.inMirror, e)
    && Grouped(Map(Pick(a.edges, a.inMirror), TargetOf), a.inOffsets)
  }

  // ---------------------------------------------------------------------
  // validate_csr
  // ---------------------------------------------------------------------

  method CheckEndpoints(edges: seq<IndexedEdge>, n: nat) returns (ok: bool)
    ensures ok <==> EndpointsOk(edges, n)
  {
    for k := 0 to |edges|
      invariant forall j :: 0 <= j < k ==> edges[j].from < n && edges[j].to < n
    {
      if edges[k].from >= n || edges[k].to >= n {
        return false;
      }
    }
    return true;
  }

  method CheckOffsets(off: seq<nat>, n: nat, e: nat) returns (ok: bool)
    ensures ok <==> OffsetsOk(off, n, e)
  {
    if |off| != n + 1 || off[0] != 0 {
      return false;
    }
    var prev := 0;
    for i := 0 to n + 1
      invariant prev == if i == 0 then 0 else off[i - 1]
      invariant forall j, k :: 0 <= j <= k < i ==> off[j] <= off[k] <= e
    {
      if off[i] < prev {
        return false;
      }
      if off[i] > e {
        return false;
      }
      prev := off[i];
    }
    return prev == e;
  }

  method CheckGroups(keys: seq<nat>, off: seq<nat>, n: nat) returns (ok: bool)
    requires OffsetsOk(off, n, |keys|)
    ensures ok <==> Grouped(keys, off)
  {
    for i := 0 to n
      invariant forall j, k :: 0 <= j < i && off[j] <= k < off[j + 1] && k < |keys| ==> keys[k] == j
    {
      var k := off[i];
      while k < off[i + 1]
        invariant off[i] <= k
        invariant forall l :: off[i] <= l < k && l < |keys| ==> keys[l] == i
      {
        if keys[k] != i {
          return false;
        }
        k := k + 1;
      }
    }
    return true;
  }

  method CheckPermutation(idx: seq<nat>, e: nat) returns (ok: bool)
    ensures ok <==> IsPermutation(idx, e)
  {
    if |idx| != e {
      return false;
    }
    var seen := new bool[e](_ => false);
    for k := 0 to e
      invariant forall j :: 0 <= j < k ==> idx[j] < e
      invariant forall i :: 0 <= i < e ==> (seen[i] <==> i in idx[..k])
      invariant forall i, j :: 0 <= i < j < k ==> idx[i] != idx[j]
    {
      assert idx[..k + 1] == idx[..k] + [idx[k]];
      if idx[k] >= e {
        return false;
      }
      if seen[idx[k]] {
        return false;
      }
      seen[idx[k]] := true;
    }
    return true;
  }

  /** Accepts exactly the well-formed snapshots. */
  method ValidateCsr(hash: string -> nat, a: Snapshot) returns (ok: bool)
    requires |a.nodes| <= EMPTY
    ensures ok <==> CsrOk(hash, a)
  {
    var n, e := |a.nodes|, |a.edges|;
    var names := ValidateNames(hash, Names(a.nodes), a.nameBuckets);
    if !names {
      return false;
    }
    var endpoints := CheckEndpoints(a.edges, n);
    if !endpoints {
      return false;
    }
    var offsets := CheckOffsets(a.nodeOffsets, n, e);
    if !offsets {
      return false;
    }
    var groups := CheckGroups(Map(a.edges, SourceOf), a.nodeOffsets, n);
    if !groups {
      return false;
    }
    offsets := CheckOffsets(a.inOffsets, n, e);
    if !offsets {
      return false;
    }
    var mirror := CheckPermutation(a.inMirror, e);
    if !mirror {
      return false;
    }
    ok := CheckGroups(Map(Pick(a.edges, a.inMirror), TargetOf), a.inOffsets, n);
  }

  // ---------------------------------------------------------------------
  // The graph a snapshot stands for
  // ---------------------------------------------------------------------

  /** Nodes by name; the last of a name wins. */
  function NodeMap(nodes: seq<NodeData>): map<string, NodeData> {
    if nodes == [] then map[] else NodeMap(nodes[..|nodes| - 1])[nodes[|nodes| - 1].name := nodes[|nodes| - 1]]
  }

  function NameAt(nodes: seq<NodeData>, i: nat): string { if i < |nodes| then nodes[i].name else "" }

  function Named(nodes: seq<NodeData>): IndexedEdge -> Edge {
    (e: IndexedEdge) => Edge(NameAt(nodes, e.from), NameAt(nodes, e.to), e.data)
  }

  function GraphOf(nodes: seq<NodeData>, edges: seq<IndexedEdge>): Graph {
    Graph(NodeMap(nodes), Map(edges, Named(nodes)))
  }

  lemma {:induction false} NodeMapAt(nodes: seq<NodeData>, name: string)
    ensures name in NodeMap(nodes) <==> PositionOf(nodes, name).Some?
    ensures name in NodeMap(nodes) ==> NodeMap(nodes)[name] == nodes[PositionOf(nodes, name).value]
  {
    if nodes != [] {
      NodeMapAt(nodes[..|nodes| - 1], name);
    }
  }

  // ---------------------------------------------------------------------
  // The full-scan reader
  // ---------------------------------------------------------------------

  function TargetView(nodes: seq<NodeData>): IndexedEdge -> NeighborView {
    (e: IndexedEdge) => ViewOf(NameAt(nodes, e.to), e.data)
  }

  function SourceView(nodes: seq<NodeData>): IndexedEdge -> NeighborView {
    (e: IndexedEdge) => ViewOf(NameAt(nodes, e.from), e.data)
  }

  function HasKey<T>(key: T -> nat, i: nat): T -> bool { x => key(x) == i }

  /** Where the name index of the full-scan reader points: the last node of the name. */
  function PositionOf(nodes: seq<NodeData>, name: string): (r: Option<nat>)
    ensures r.Some? ==> r.value < |nodes| && nodes[r.value].name == name
    ensures r.None? ==> forall i :: 0 <= i < |nodes| ==> nodes[i].name != name
  {
    if nodes == [] then None
    else if nodes[|nodes| - 1].name == name then Some(|nodes| - 1)
    else PositionOf(nodes[..|nodes| - 1], name)
  }

  function ScanOutgoing(nodes: seq<NodeData>, edges: seq<IndexedEdge>, name: string): seq<NeighborView> {
    match PositionOf(nodes, name)
    case None => []
    case Some(i) => Map(Filter(edges, HasKey(SourceOf, i)), TargetView(nodes))
  }

  function ScanIncoming(nodes: seq<NodeData>, edges: seq<IndexedEdge>, name: string): seq<NeighborView> {
    match PositionOf(nodes, name)
    case None => []
    case Some(i) => Map(Filter(edges, HasKey(TargetOf, i)), SourceView(nodes))
  }

  lemma SameName(nodes: seq<NodeData>, i: nat, j: nat)
    requires Unique(Names(nodes)) && i < |nodes| && j < |nodes|
    ensures nodes[i].name == nodes[j].name <==> i == j
  {
    assert Names(nodes)[i] == nodes[i].name && Names(nodes)[j] == nodes[j].name;
  }

  /** The full scan reads the outgoing and incoming lists of the graph, in edge order. */
  lemma ScanReadsGraph(nodes: seq<NodeData>, edges: seq<IndexedEdge>, name: string)
    requires Unique(Names(nodes)) && EndpointsOk(edges, |nodes|)
    ensures ScanOutgoing(nodes, edges, name) == Out(GraphOf(nodes, edges), name)
    ensures ScanIncoming(nodes, edges, name) == In(GraphOf(nodes, edges), name)
  {
    match PositionOf(nodes, name) {
      case None => NobodysEdges(nodes, edges, name);
      case Some(i) =>
        ScanReadsOut(nodes, edges, i);
        ScanReadsIn(nodes, edges, i);
    }
  }

  lemma NobodysEdges(nodes: seq<NodeData>, edges: seq<IndexedEdge>, name: string)
    requires EndpointsOk(edges, |nodes|) && forall i :: 0 <= i < |nodes| ==> nodes[i].name != name
    ensures Out(GraphOf(nodes, edges), name) == [] && In(GraphOf(nodes, edges), name) == []
  {
    var all := GraphOf(nodes, edges).edges;
    forall e | e in all ensures !From(name)(e) && !To(name)(e) {
      var k :| 0 <= k < |all| && all[k] == e;
      assert edges[k].from < |nodes| && edges[k].to < |nodes|;
    }
    FilterNone(all, From(name));
    FilterNone(all, To(name));
  }

  lemma ScanReadsOut(nodes: seq<NodeData>, edges: seq<IndexedEdge>, i: nat)
    requires Unique(Names(nodes)) && EndpointsOk(edges, |nodes|) && i < |nodes|
    ensures Map(Filter(edges, HasKey(SourceOf, i)), TargetView(nodes)) == Out(GraphOf(nodes, edges), nodes[i].name)
  {
    forall e | e in edges ensures HasKey(SourceOf, i)(e) == From(nodes[i].name)(Named(nodes)(e)) {
      var k :| 0 <= k < |edges| && edges[k] == e;
      SameName(nodes, e.from, i);
      assert NameAt(nodes, e.from) == nodes[e.from].name && SourceOf(e) == e.from;
    }
    FilterMapped(edges, Named(nodes), From(nodes[i].name), HasKey(SourceOf, i));
    MapTwice(Filter(edges, HasKey(SourceOf, i)), Named(nodes), OutView, TargetView(nodes));
  }

  lemma ScanReadsIn(nodes: seq<NodeData>, edges: seq<IndexedEdge>, i: nat)
    requires Unique(Names(nodes)) && EndpointsOk(edges, |nodes|) && i < |nodes|
    ensures Map(Filter(edges, HasKey(TargetOf, i)), SourceView(nodes)) == In(GraphOf(nodes, edges), nodes[i].name)
  {
    forall e | e in edges ensures HasKey(TargetOf, i)(e) == To(nodes[i].name)(Named(nodes)(e)) {
      var k :| 0 <= k < |edges| && edges[k] == e;
      SameName(nodes, e.to, i);
      assert NameAt(nodes, e.to) == nodes[e.to].name && TargetOf(e) == e.to;
    }
    FilterMapped(edges, Named(nodes), To(nodes[i].name), HasKey(TargetOf, i));
    MapTwice(Filter(edges, HasKey(TargetOf, i)), Named(nodes), InView, SourceView(nodes));
  }

  // ---------------------------------------------------------------------
  // The O(degree) reader
  // ---------------------------------------------------------------------

  /** Position k lies in some group, and its key says which. */
  lemma {:induction false} GroupOf(off: seq<nat>, n: nat, e: nat, k: nat) returns (g: nat)
    requires OffsetsOk(off, n, e) && k < e
    ensures g < n && off[g] <= k < off[g + 1]
  {
    g := 0;
    while off[g + 1] <= k
      invariant g < n && off[g] <= k
      decreases n - g
    {
      g := g + 1;
    }
  }

  lemma KeyIsGroup(keys: seq<nat>, off: seq<nat>, n: nat, i: nat, k: nat)
    requires OffsetsOk(off, n, |keys|) && Grouped(keys, off) && i < n && k < |keys|
    ensures keys[k] == i <==> off[i] <= k < off[i + 1]
  {
    var g := GroupOf(off, n, |keys|, k);
    assert keys[k] == g;
  }

  /** Members are selected exactly between lo and hi. */
  ghost predicate SelectedIn<T>(s: seq<T>, p: T -> bool, lo: nat, hi: nat) {
    lo <= hi <= |s| && forall k :: 0 <= k < |s| ==> (p(s[k]) <==> lo <= k < hi)
  }

  lemma {:induction false} FilterUpTo<T>(s: seq<T>, p: T -> bool, lo: nat, hi: nat, k: nat)
    requires SelectedIn(s, p, lo, hi) && k <= |s|
    ensures Filter(s[..k], p) == s[Min(lo, k)..Min(hi, k)]
  {
    if k > 0 {
      FilterUpTo(s, p, lo, hi, k - 1);
      FilterGrows(s, p, k - 1);
      SliceGrows(s, lo, hi, k - 1);
    }
  }

  lemma FilterGrows<T>(s: seq<T>, p: T -> bool, k: nat)
    requires k < |s|
    ensures Filter(s[..k + 1], p) == Filter(s[..k], p) + (if p(s[k]) then [s[k]] else [])
  {
    assert s[..k + 1] == s[..k] + [s[k]];
    FilterSnoc(s[..k], s[k], p);
  }

  lemma SliceGrows<T>(s: seq<T>, lo: nat, hi: nat, k: nat)
    requires lo <= hi <= |s| && k < |s|
    ensures s[Min(lo, k + 1)..Min(hi, k + 1)] == s[Min(lo, k)..Min(hi, k)] + (if lo <= k < hi then [s[k]] else [])
  {
  }

  /** Then selecting is slicing. */
  lemma FilterIsSlice<T>(s: seq<T>, p: T -> bool, lo: nat, hi: nat)
    requires SelectedIn(s, p, lo, hi)
    ensures s[lo..hi] == Filter(s, p)
  {
    FilterUpTo(s, p, lo, hi, |s|);
    assert s[..|s|] == s;
  }

  /** A group is exactly the members with its key, in order. */
  lemma SliceIsGroup<T>(s: seq<T>, key: T -> nat, off: seq<nat>, n: nat, i: nat)
    requires OffsetsOk(off, n, |s|) && Grouped(Map(s, key), off) && i < n
    ensures off[i] <= off[i + 1] <= |s| && s[off[i]..off[i + 1]] == Filter(s, HasKey(key, i))
  {
    forall k | 0 <= k < |s| ensures HasKey(key, i)(s[k]) <==> off[i] <= k < off[i + 1] {
      KeyIsGroup(Map(s, key), off, n, i, k);
    }
    FilterIsSlice(s, HasKey(key, i), off[i], off[i + 1]);
  }

  ghost predicate RangeOk(nodes: seq<NodeData>, edges: seq<IndexedEdge>, lo: nat, hi: nat) {
    lo <= hi <= |edges| && EndpointsOk(edges, |nodes|)
  }

  /** The outgoing views edges[lo..k] stand for. */
  ghost function Listed(nodes: seq<NodeData>, edges: seq<IndexedEdge>, lo: nat, k: nat): seq<NeighborView> {
    if lo <= k <= |edges| then Map(edges[lo..k], TargetView(nodes)) else []
  }

  lemma ListedStep(nodes: seq<NodeData>, edges: seq<IndexedEdge>, lo: nat, hi: nat, k: nat)
    requires RangeOk(nodes, edges, lo, hi) && lo <= k < hi
    ensures k < |edges| && edges[k].to < |nodes|
    ensures Listed(nodes, edges, lo, k + 1) == Listed(nodes, edges, lo, k) + [TargetView(nodes)(edges[k])]
  {
    MapSlice(edges, lo, k, TargetView(nodes));
  }

  /** The views of edges lo..hi; positions out of bounds are passed over, never read. */
  method ReadOutgoing(nodes: seq<NodeData>, edges: seq<IndexedEdge>, lo: nat, hi: nat) returns (out: seq<NeighborView>)
    ensures RangeOk(nodes, edges, lo, hi) ==> out == Listed(nodes, edges, lo, hi)
  {
    out := [];
    ghost var sound := RangeOk(nodes, edges, lo, hi);
    var k := lo;
    while k < hi
      invariant lo <= k && (sound ==> k <= hi && out == Listed(nodes, edges, lo, k))
    {
      if sound {
        ListedStep(nodes, edges, lo, hi, k);
      }
      if k >= |edges| {
        break;
      }
      var edge := edges[k];
      k := k + 1;
      if edge.to >= |nodes| {
        continue;
      }
      out := out + [ViewOf(nodes[edge.to].name, edge.data)];
    }
  }

  lemma MapSlice<T, U>(s: seq<T>, lo: nat, k: nat, f: T -> U)
    requires lo <= k < |s|
    ensures Map(s[lo..k + 1], f) == Map(s[lo..k], f) + [f(s[k])]
  {
    assert s[lo..k + 1] == s[lo..k] + [s[k]];
    MapAppend(s[lo..k], [s[k]], f);
    assert Map([s[k]], f) == [f(s[k])];
  }

  /** In a validated snapshot the group the lookup leads to is what the full scan selects. */
  lemma OutgoingGroup(hash: string -> nat, a: Snapshot, name: string)
    requires CsrOk(hash, a)
    ensures match Lookup(hash, Names(a.nodes), a.nameBuckets, name)
      case None => ScanOutgoing(a.nodes, a.edges, name) == []
      case Some(i) =>
        && i + 1 < |a.nodeOffsets| && RangeOk(a.nodes, a.edges, a.nodeOffsets[i], a.nodeOffsets[i + 1])
        && Listed(a.nodes, a.edges, a.nodeOffsets[i], a.nodeOffsets[i + 1]) == ScanOutgoing(a.nodes, a.edges, name)
  {
    ServesPosition(hash, a, name);
    match PositionOf(a.nodes, name) {
      case None =>
      case Some(i) => SliceIsGroup(a.edges, SourceOf, a.nodeOffsets, |a.nodes|, i);
    }
  }

  /** outgoing_neighbors over the mapped snapshot: every read is bounds-checked, so any bytes are safe to read. */
  method OutgoingNeighbors(hash: string -> nat, a: Snapshot, name: string) returns (out: seq<NeighborView>)
    ensures CsrOk(hash, a) ==> out == ScanOutgoing(a.nodes, a.edges, name)
  {
    if CsrOk(hash, a) {
      OutgoingGroup(hash, a, name);
    }
    var at := IdxOf(hash, Names(a.nodes), a.nameBuckets, name);
    if at.None? || at.value + 1 >= |a.nodeOffsets| {
      return [];
    }
    out := ReadOutgoing(a.nodes, a.edges, a.nodeOffsets[at.value], a.nodeOffsets[at.value + 1]);
  }

  ghost predicate MirrorRangeOk(nodes: seq<NodeData>, edges: seq<IndexedEdge>, mirror: seq<nat>, lo: nat, hi: nat) {
    |mirror| == |edges| && InBounds(mirror, |edges|) && RangeOk(nodes, edges, lo, hi)
  }

  /** The incoming views mirror[lo..k] stand for. */
  ghost function Mirrored(nodes: seq<NodeData>, edges: seq<IndexedEdge>, mirror: seq<nat>, lo: nat, k: nat): seq<NeighborView> {
    if InBounds(mirror, |edges|) && lo <= k <= |mirror| then Map(Pick(edges, mirror)[lo..k], SourceView(nodes)) else []
  }

  lemma MirroredStep(nodes: seq<NodeData>, edges: seq<IndexedEdge>, mirror: seq<nat>, lo: nat, hi: nat, k: nat)
    requires MirrorRangeOk(nodes, edges, mirror, lo, hi) && lo <= k < hi
    ensures k < |mirror| && mirror[k] < |edges| && edges[mirror[k]].from < |nodes|
    ensures Mirrored(nodes, edges, mirror, lo, k + 1)
      == Mirrored(nodes, edges, mirror, lo, k) + [SourceView(nodes)(edges[mirror[k]])]
  {
    MapSlice(Pick(edges, mirror), lo, k, SourceView(nodes));
  }

  method ReadIncoming(nodes: seq<NodeData>, edges: seq<IndexedEdge>, mirror: seq<nat>, lo: nat, hi: nat)
    returns (inc: seq<NeighborView>)
    ensures MirrorRangeOk(nodes, edges, mirror, lo, hi) ==> inc == Mirrored(nodes, edges, mirror, lo, hi)
  {
    inc := [];
    ghost var sound := MirrorRangeOk(nodes, edges, mirror, lo, hi);
    var k := lo;
    while k < hi
      invariant lo <= k && (sound ==> k <= hi && inc == Mirrored(nodes, edges, mirror, lo, k))
    {
      if sound {
        MirroredStep(nodes, edges, mirror, lo, hi, k);
      }
      if k >= |mirror| {
        break;
      }
      var m := mirror[k];
      k := k + 1;
      if m >= |edges| {
        continue;
      }
      var edge := edges[m];
      if edge.from >= |nodes| {
        continue;
      }
      inc := inc + [ViewOf(nodes[edge.from].name, edge.data)];
    }
  }

  lemma IncomingGroup(hash: string -> nat, a: Snapshot, name: string)
    requires CsrOk(hash, a)
    ensures match Lookup(hash, Names(a.nodes), a.nameBuckets, name)
      case None => ScanIncoming(a.nodes, a.edges, name) == []
      case Some(i) =>
        && i + 1 < |a.inOffsets| && MirrorRangeOk(a.nodes, a.edges, a.inMirror, a.inOffsets[i], a.inOffsets[i + 1])
        && multiset(Mirrored(a.nodes, a.edges, a.inMirror, a.inOffsets[i], a.inOffsets[i + 1]))
          == multiset(ScanIncoming(a.nodes, a.edges, name))
        && (StableMirror(a) ==>
              Mirrored(a.nodes, a.edges, a.inMirror, a.inOffsets[i], a.inOffsets[i + 1]) == ScanIncoming(a.nodes, a.edges, name))
  {
    ServesPosition(hash, a, name);
    match PositionOf(a.nodes, name) {
      case None =>
      case Some(i) =>
        MirrorSlice(a, i);
        if StableMirror(a) {
          IncomingInOrder(a, i);
        }
    }
  }

  /** incoming_neighbors, through the mirror. */
  method IncomingNeighbors(hash: string -> nat, a: Snapshot, name: string) returns (inc: seq<NeighborView>)
    ensures CsrOk(hash, a) ==> multiset(inc) == multiset(ScanIncoming(a.nodes, a.edges, name))
    ensures CsrOk(hash, a) && StableMirror(a) ==> inc == ScanIncoming(a.nodes, a.edges, name)
  {
    if CsrOk(hash, a) {
      IncomingGroup(hash, a, name);
    }
    var at := IdxOf(hash, Names(a.nodes), a.nameBuckets, name);
    if at.None? || at.value + 1 >= |a.inOffsets| {
      return [];
    }
    inc := ReadIncoming(a.nodes, a.edges, a.inMirror, a.inOffsets[at.value], a.inOffsets[at.value + 1]);
  }

  /** The probing lookup and the full-scan reader's name index agree. */
  lemma ServesPosition(hash: string -> nat, a: Snapshot, name: string)
    requires CsrOk(hash, a)
    ensures Lookup(hash, Names(a.nodes), a.nameBuckets, name) == PositionOf(a.nodes, name)
  {
    AcceptedTableServes(hash, Names(a.nodes), a.nameBuckets, name);
    SortedAreUnique(Names(a.nodes));
    match Lookup(hash, Names(a.nodes), a.nameBuckets, name) {
      case None =>
        forall i | 0 <= i < |a.nodes| ensures a.nodes[i].name != name {
          assert Names(a.nodes)[i] == a.nodes[i].name;
        }
      case Some(i) =>
        assert a.nodes[i].name == name;
        SameName(a.nodes, i, PositionOf(a.nodes, name).value);
    }
  }

  lemma MirrorSlice(a: Snapshot, i: nat)
    requires OffsetsOk(a.inOffsets, |a.nodes|, |a.edges|) && IsPermutation(a.inMirror, |a.edges|)
    requires Grouped(Map(Pick(a.edges, a.inMirror), TargetOf), a.inOffsets) && i < |a.nodes|
    ensures a.inOffsets[i] <= a.inOffsets[i + 1] <= |a.edges|
    ensures multiset(Map(Pick(a.edges, a.inMirror)[a.inOffsets[i]..a.inOffsets[i + 1]], SourceView(a.nodes)))
      == multiset(Map(Filter(a.edges, HasKey(TargetOf, i)), SourceView(a.nodes)))
  {
    var mirrored := Pick(a.edges, a.inMirror);
    SliceIsGroup(mirrored, TargetOf, a.inOffsets, |a.nodes|, i);
    PickPermuted(a.edges, a.inMirror);
    FilterPermuted(mirrored, a.edges, HasKey(TargetOf, i));
    MapPermuted(Filter(mirrored, HasKey(TargetOf, i)), Filter(a.edges, HasKey(TargetOf, i)), SourceView(a.nodes));
  }

  // ---------------------------------------------------------------------
  // The order of incoming edges
  // ---------------------------------------------------------------------

  /** Edges into one node are mirrored in the order of their positions, as the writer does it. */
  ghost predicate StableMirror(a: Snapshot) {
    && InBounds(a.inMirror, |a.edges|)
    && forall i, j :: 0 <= i < j < |a.inMirror| && a.edges[a.inMirror[i]].to == a.edges[a.inMirror[j]].to ==>
         a.inMirror[i] < a.inMirror[j]
  }

  /** Rising positions of exactly the selected members. */
  ghost predicate Positions<T>(s: seq<T>, p: T -> bool, idx: seq<nat>) {
    && InBounds(idx, |s|)
    && (forall i, j :: 0 <= i < j < |idx| ==> idx[i] < idx[j])
    && (forall i :: 0 <= i < |idx| ==> p(s[idx[i]]))
    && (forall k :: 0 <= k < |s| && p(s[k]) ==> k in idx)
  }

  lemma LastSelected<T>(s: seq<T>, p: T -> bool, idx: seq<nat>)
    requires Positions(s, p, idx) && s != [] && p(s[|s| - 1])
    ensures idx != [] && idx[|idx| - 1] == |s| - 1
    ensures Positions(s[..|s| - 1], p, idx[..|idx| - 1])
  {
    var n, last := |s| - 1, |idx| - 1;
    assert n in idx;
    var i :| 0 <= i < |idx| && idx[i] == n;
    assert idx[i] <= idx[last];
    forall k | 0 <= k < n && p(s[k]) ensures k in idx[..last] {
      assert k in idx;
      var j :| 0 <= j < |idx| && idx[j] == k;
      assert idx[..last][j] == k;
    }
  }

  lemma LastSkipped<T>(s: seq<T>, p: T -> bool, idx: seq<nat>)
    requires Positions(s, p, idx) && s != [] && !p(s[|s| - 1])
    ensures Positions(s[..|s| - 1], p, idx)
  {
    forall i | 0 <= i < |idx| ensures idx[i] < |s| - 1 {
      assert p(s[idx[i]]);
    }
  }

  lemma {:induction false} PickPositions<T>(s: seq<T>, p: T -> bool, idx: seq<nat>)
    requires Positions(s, p, idx)
    ensures Pick(s, idx) == Filter(s, p)
    decreases |s|
  {
    if s == [] {
      assert idx == [];
    } else {
      var n := |s| - 1;
      FilterGrows(s, p, n);
      assert s[..n + 1] == s;
      if p(s[n]) {
        LastSelected(s, p, idx);
        PickPositions(s[..n], p, idx[..|idx| - 1]);
        assert Pick(s, idx) == Pick(s[..n], idx[..|idx| - 1]) + [s[n]];
      } else {
        LastSkipped(s, p, idx);
        PickPositions(s[..n], p, idx);
        assert Pick(s, idx) == Pick(s[..n], idx);
      }
    }
  }

  lemma MirroredKeys(a: Snapshot, i: nat)
    requires OffsetsOk(a.inOffsets, |a.nodes|, |a.edges|) && IsPermutation(a.inMirror, |a.edges|)
    requires Grouped(Map(Pick(a.edges, a.inMirror), TargetOf), a.inOffsets) && i < |a.nodes|
    ensures a.inOffsets[i] <= a.inOffsets[i + 1] <= |a.inMirror|
    ensures forall k :: 0 <= k < |a.inMirror| ==> (a.edges[a.inMirror[k]].to == i <==> a.inOffsets[i] <= k < a.inOffsets[i + 1])
  {
    var keys := Map(Pick(a.edges, a.inMirror), TargetOf);
    forall k | 0 <= k < |a.inMirror|
      ensures a.edges[a.inMirror[k]].to == i <==> a.inOffsets[i] <= k < a.inOffsets[i + 1]
    {
      KeyIsGroup(keys, a.inOffsets, |a.nodes|, i, k);
      assert keys[k] == a.edges[a.inMirror[k]].to;
    }
  }

  /** Positions in a mirror, between two bounds that enclose exactly the edges into i. */
  lemma BoundedPositions(edges: seq<IndexedEdge>, mirror: seq<nat>, i: nat, lo: nat, hi: nat)
    requires IsPermutation(mirror, |edges|) && lo <= hi <= |mirror|
    requires forall k :: 0 <= k < |mirror| ==> (edges[mirror[k]].to == i <==> lo <= k < hi)
    requires forall j, k :: 0 <= j < k < |mirror| && edges[mirror[j]].to == edges[mirror[k]].to ==> mirror[j] < mirror[k]
    ensures Positions(edges, HasKey(TargetOf, i), mirror[lo..hi])
  {
    var idx := mirror[lo..hi];
    forall k | 0 <= k < |idx| ensures idx[k] == mirror[lo + k] && HasKey(TargetOf, i)(edges[idx[k]]) {
      assert TargetOf(edges[mirror[lo + k]]) == edges[mirror[lo + k]].to == i;
    }
    forall k | 0 <= k < |edges| && HasKey(TargetOf, i)(edges[k]) ensures k in idx {
      PermutationCovers(mirror, |edges|, k);
      var j :| 0 <= j < |mirror| && mirror[j] == k;
      assert TargetOf(edges[k]) == edges[mirror[j]].to == i;
      assert idx[j - lo] == k;
    }
  }

  lemma PickSlice<T>(s: seq<T>, idx: seq<nat>, lo: nat, hi: nat)
    requires InBounds(idx, |s|) && lo <= hi <= |idx|
    ensures InBounds(idx[lo..hi], |s|) && Pick(s, idx)[lo..hi] == Pick(s, idx[lo..hi])
  {
  }

  /** Then the incoming list, too, is the full scan in its order. */
  lemma IncomingInOrder(a: Snapshot, i: nat)
    requires OffsetsOk(a.inOffsets, |a.nodes|, |a.edges|) && IsPermutation(a.inMirror, |a.edges|)
    requires Grouped(Map(Pick(a.edges, a.inMirror), TargetOf), a.inOffsets) && i < |a.nodes| && StableMirror(a)
    ensures Mirrored(a.nodes, a.edges, a.inMirror, a.inOffsets[i], a.inOffsets[i + 1])
      == Map(Filter(a.edges, HasKey(TargetOf, i)), SourceView(a.nodes))
  {
    var lo, hi := a.inOffsets[i], a.inOffsets[i + 1];
    MirroredKeys(a, i);
    BoundedPositions(a.edges, a.inMirror, i, lo, hi);
    PickPositions(a.edges, HasKey(TargetOf, i), a.inMirror[lo..hi]);
    PickSlice(a.edges, a.inMirror, lo, hi);
  }
}
