/** The side indices of the overlay: for each name, the positions of its delta edges (src/delta.rs:147-150). */
module DeltaIndex {
  import opened Types
  import opened Seqs
  import opened Graphs
  import opened Overlay
  import opened DeltaModel

  type Index = map<string, seq<nat>>

  function Source(e: DeltaEdge): string { e.from }

  function Target(e: DeltaEdge): string { e.to }

  predicate Within(positions: seq<nat>, n: nat) { forall i :: 0 <= i < |positions| ==> positions[i] < n }

  /** The positions of the edges whose key is `name`, oldest first. */
  function Positions(edges: seq<DeltaEdge>, key: DeltaEdge -> string, name: string): (r: seq<nat>)
    ensures Within(r, |edges|)
  {
    if edges == [] then []
    else
      var last := |edges| - 1;
      Positions(edges[..last], key, name) + (if key(edges[last]) == name then [last] else [])
  }

  function Entry(index: Index, name: string): seq<nat> { if name in index then index[name] else [] }

  /** The index lists, under every name, exactly the positions of its edges. */
  ghost predicate Exact(index: Index, edges: seq<DeltaEdge>, key: DeltaEdge -> string) {
    forall name :: Entry(index, name) == Positions(edges, key, name)
  }

  /** The same, as a fact to carry around unopened. */
  ghost predicate IndexOk(index: Index, edges: seq<DeltaEdge>, key: DeltaEdge -> string) {
    forall i {:trigger Sealed(i)} :: Sealed(i) ==> Exact(index, edges, key)
  }

  lemma EntryIs(index: Index, edges: seq<DeltaEdge>, key: DeltaEdge -> string, name: string)
    requires IndexOk(index, edges, key)
    ensures Entry(index, name) == Positions(edges, key, name)
  {
    assert Sealed(0);
  }

  /** Positions do not look at the dead flags. */
  lemma {:induction false} PositionsIgnoreDeath(a: seq<DeltaEdge>, b: seq<DeltaEdge>, key: DeltaEdge -> string, name: string)
    requires |a| == |b| && forall i :: 0 <= i < |a| ==> key(a[i]) == key(b[i])
    ensures Positions(a, key, name) == Positions(b, key, name)
  {
    if a != [] {
      PositionsIgnoreDeath(a[..|a| - 1], b[..|b| - 1], key, name);
    }
  }

  lemma IndexIgnoresDeath(index: Index, a: seq<DeltaEdge>, b: seq<DeltaEdge>, key: DeltaEdge -> string)
    requires IndexOk(index, a, key)
    requires |a| == |b| && forall i :: 0 <= i < |a| ==> key(a[i]) == key(b[i])
    ensures IndexOk(index, b, key)
  {
    forall name ensures Entry(index, name) == Positions(b, key, name) {
      EntryIs(index, a, key, name);
      PositionsIgnoreDeath(a, b, key, name);
    }
  }

  /** Pushing the new edge's position keeps the index exact. */
  lemma IndexPush(index: Index, edges: seq<DeltaEdge>, key: DeltaEdge -> string, e: DeltaEdge)
    requires IndexOk(index, edges, key)
    ensures IndexOk(index[key(e) := Entry(index, key(e)) + [|edges|]], edges + [e], key)
  {
    var next := index[key(e) := Entry(index, key(e)) + [|edges|]];
    forall name ensures Entry(next, name) == Positions(edges + [e], key, name) {
      assert (edges + [e])[..|edges|] == edges;
      EntryIs(index, edges, key, name);
    }
  }

  // ---------------------------------------------------------------------
  // Reading through the index
  // ---------------------------------------------------------------------

  /** What a pass over `positions` reports: one view per live edge, in order. */
  function Gather(edges: seq<DeltaEdge>, positions: seq<nat>, view: Edge -> NeighborView): seq<NeighborView>
    requires Within(positions, |edges|)
  {
    if positions == [] then []
    else
      var last := positions[|positions| - 1];
      Gather(edges, positions[..|positions| - 1], view) + (if Alive(edges[last]) then [view(AsEdge(edges[last]))] else [])
  }

  lemma {:induction false} GatherPrefix(edges: seq<DeltaEdge>, shorter: seq<DeltaEdge>, positions: seq<nat>, view: Edge -> NeighborView)
    requires |shorter| <= |edges| && shorter == edges[..|shorter|]
    requires Within(positions, |shorter|)
    ensures Gather(edges, positions, view) == Gather(shorter, positions, view)
  {
    if positions != [] {
      GatherPrefix(edges, shorter, positions[..|positions| - 1], view);
    }
  }

  /** Reading through an index entry is scanning all live delta edges. */
  lemma {:induction false} GatherIsScan(edges: seq<DeltaEdge>, key: DeltaEdge -> string, name: string, mine: Edge -> bool, view: Edge -> NeighborView)
    requires forall e :: mine(AsEdge(e)) == (key(e) == name)
    ensures Gather(edges, Positions(edges, key, name), view) == Map(Filter(Map(Filter(edges, Alive), AsEdge), mine), view)
  {
    if edges != [] {
      var last := |edges| - 1;
      var init, e := edges[..last], edges[last];
      assert edges == init + [e];
      GatherIsScan(init, key, name, mine, view);
      GatherPrefix(edges, init, Positions(init, key, name), view);
      GatherLast(edges, Positions(init, key, name), view, key(e) == name);
      ScanLast(init, e, mine, view);
    }
  }

  lemma GatherLast(edges: seq<DeltaEdge>, positions: seq<nat>, view: Edge -> NeighborView, more: bool)
    requires edges != [] && Within(positions, |edges|)
    ensures Gather(edges, positions + (if more then [|edges| - 1] else []), view)
      == Gather(edges, positions, view) + (if more && Alive(edges[|edges| - 1]) then [view(AsEdge(edges[|edges| - 1]))] else [])
  {
    if more {
      assert (positions + [|edges| - 1])[..|positions|] == positions;
    } else {
      assert positions + [] == positions;
    }
  }

  lemma ScanLast(init: seq<DeltaEdge>, e: DeltaEdge, mine: Edge -> bool, view: Edge -> NeighborView)
    ensures Map(Filter(Map(Filter(init + [e], Alive), AsEdge), mine), view)
      == Map(Filter(Map(Filter(init, Alive), AsEdge), mine), view) + (if Alive(e) && mine(AsEdge(e)) then [view(AsEdge(e))] else [])
  {
    FilterSnoc(init, e, Alive);
    if Alive(e) {
      LiveAppend(init, e);
      MapFilterSnoc(Map(Filter(init, Alive), AsEdge), AsEdge(e), mine, view);
    }
  }

  // ---------------------------------------------------------------------
  // Killing through the index
  // ---------------------------------------------------------------------

  lemma KillOne(edges: seq<DeltaEdge>, p: nat)
    requires p < |edges| && !edges[p].dead
    ensures Count(edges, Alive) == Count(edges[p := edges[p].(dead := true)], Alive) + 1
  {
    var after := edges[p := edges[p].(dead := true)];
    assert edges == edges[..p] + ([edges[p]] + edges[p + 1..]);
    assert after == edges[..p] + ([edges[p].(dead := true)] + edges[p + 1..]);
    FilterAppend(edges[..p], [edges[p]] + edges[p + 1..], Alive);
    FilterAppend(edges[..p], [edges[p].(dead := true)] + edges[p + 1..], Alive);
    assert ([edges[p]] + edges[p + 1..])[1..] == ([edges[p].(dead := true)] + edges[p + 1..])[1..];
  }

  /** A pass over `positions` that kills every live edge there that `hit` selects. */
  function KillAt(edges: seq<DeltaEdge>, positions: seq<nat>, hit: DeltaEdge -> bool): (r: seq<DeltaEdge>)
    requires Within(positions, |edges|)
    ensures |r| == |edges|
  {
    if positions == [] then edges
    else
      var last := positions[|positions| - 1];
      var before := KillAt(edges, positions[..|positions| - 1], hit);
      if !before[last].dead && hit(before[last]) then before[last := before[last].(dead := true)] else before
  }

  lemma {:induction false} KilledAt(edges: seq<DeltaEdge>, positions: seq<nat>, hit: DeltaEdge -> bool, j: nat)
    requires Within(positions, |edges|) && j < |edges|
    ensures KillAt(edges, positions, hit)[j] == edges[j].(dead := edges[j].dead || (j in positions && hit(edges[j])))
  {
    if positions != [] {
      var last := |positions| - 1;
      KilledAt(edges, positions[..last], hit, j);
      assert j in positions <==> j in positions[..last] || j == positions[last];
    }
  }

  /** When the positions cover all the edges `kill` changes, the pass is `kill` everywhere. */
  lemma KillAtEverywhere(edges: seq<DeltaEdge>, positions: seq<nat>, hit: DeltaEdge -> bool, kill: DeltaEdge -> DeltaEdge)
    requires Within(positions, |edges|)
    requires forall j :: 0 <= j < |edges| ==>
      kill(edges[j]) == edges[j].(dead := edges[j].dead || (j in positions && hit(edges[j])))
    ensures KillAt(edges, positions, hit) == Map(edges, kill)
  {
    forall j | 0 <= j < |edges| ensures KillAt(edges, positions, hit)[j] == Map(edges, kill)[j] {
      KilledAt(edges, positions, hit, j);
    }
  }

  predicate AnyEdge(e: DeltaEdge) { true }

  function ToWithKind(key: EdgeKey): DeltaEdge -> bool {
    (e: DeltaEdge) => e.to == key.to && e.edge.kind == key.kind
  }

  /** A node's edges are those listed under it in either index. */
  lemma KillIncidentAt(edges: seq<DeltaEdge>, name: string)
    ensures Within(Positions(edges, Source, name) + Positions(edges, Target, name), |edges|)
    ensures KillAt(edges, Positions(edges, Source, name) + Positions(edges, Target, name), AnyEdge) == Map(edges, KillNode(name))
  {
    var positions := Positions(edges, Source, name) + Positions(edges, Target, name);
    forall j | 0 <= j < |edges| ensures j in positions <==> edges[j].from == name || edges[j].to == name {
      PositionsExact(edges, Source, name, j);
      PositionsExact(edges, Target, name, j);
    }
    KillAtEverywhere(edges, positions, AnyEdge, KillNode(name));
  }

  lemma KillMatchingAt(edges: seq<DeltaEdge>, key: EdgeKey)
    ensures KillAt(edges, Positions(edges, Source, key.from), ToWithKind(key)) == Map(edges, KillEdge(key))
  {
    forall j | 0 <= j < |edges| ensures j in Positions(edges, Source, key.from) <==> edges[j].from == key.from {
      PositionsExact(edges, Source, key.from, j);
    }
    KillAtEverywhere(edges, Positions(edges, Source, key.from), ToWithKind(key), KillEdge(key));
  }

  lemma {:induction false} PositionsExact(edges: seq<DeltaEdge>, key: DeltaEdge -> string, name: string, j: nat)
    requires j < |edges|
    ensures j in Positions(edges, key, name) <==> key(edges[j]) == name
  {
    var last := |edges| - 1;
    var before := Positions(edges[..last], key, name);
    if j < last {
      PositionsExact(edges[..last], key, name, j);
      assert edges[..last][j] == edges[j];
    }
  }

  lemma IndexAfterKill(index: Index, edges: seq<DeltaEdge>, key: DeltaEdge -> string, kill: DeltaEdge -> DeltaEdge)
    requires IndexOk(index, edges, key)
    requires forall e :: key(kill(e)) == key(e)
    ensures IndexOk(index, Map(edges, kill), key)
  {
    IndexIgnoresDeath(index, edges, Map(edges, kill), key);
  }
}
