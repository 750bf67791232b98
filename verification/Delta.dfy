/**
 The mutable overlay (src/delta.rs): append-only, dead-flagged edges read through
 side indices, tombstones, and four counters kept up to date incrementally.
 */
module DeltaOverlay {
  import opened Types
  import opened Seqs
  import opened Strings
  import opened Graphs
  import opened Overlay
  import opened DeltaModel
  import opened DeltaIndex
  import opened Perms

  /** Why a batch is rejected; `opIndex` locates the offending op. */
  datatype DeltaError =
    | MissingEndpoint(opIndex: nat, from: string, to: string, endpoint: string, tombstoned: bool)
    | InvalidEdgeValidity(opIndex: nat, from: string, to: string, validFrom: nat, validTo: nat)

  /** The error describes what is wrong with `op` when the overlay is `d`. */
  predicate Describes(base: Graph, d: Delta, op: Op, err: DeltaError) {
    && op.AddEdge?
    && match err
       case InvalidEdgeValidity(_, f, t, vf, vt) =>
         f == op.from && t == op.to && op.edge.validFrom == Some(vf) && op.edge.validTo == Some(vt) && vf > vt
       case MissingEndpoint(_, f, t, x, tombstoned) =>
         && f == op.from && t == op.to && WindowOk(op.edge)
         && x == (if Present(base, d, op.from) then op.to else op.from)
         && !Present(base, d, x)
         && tombstoned == (x in d.removedNodes)
  }

  // ---------------------------------------------------------------------
  // The simulated state of the first pass
  // ---------------------------------------------------------------------

  /** `scratch` says where each name touched so far ended up; untouched names are as in `d`. */
  ghost predicate Simulates(scratch: map<string, bool>, d: Delta, sim: Delta) {
    forall name ::
      (name in sim.added) == (if name in scratch then scratch[name] else name in d.added)
      && (name in sim.removedNodes) == (if name in scratch then !scratch[name] else name in d.removedNodes)
  }

  predicate SimPresent(base: Graph, d: Delta, scratch: map<string, bool>, name: string) {
    if name in scratch then scratch[name] else Present(base, d, name)
  }

  predicate SimTombstoned(d: Delta, scratch: map<string, bool>, name: string) {
    if name in scratch then !scratch[name] else name in d.removedNodes
  }

  function Touch(scratch: map<string, bool>, op: Op): map<string, bool> {
    match op
    case UpsertNode(nd) => scratch[nd.name := true]
    case RemoveNode(name) => scratch[name := false]
    case _ => scratch
  }

  lemma TouchSimulates(scratch: map<string, bool>, d: Delta, sim: Delta, op: Op)
    requires Simulates(scratch, d, sim)
    ensures Simulates(Touch(scratch, op), d, ApplyOp(sim, op))
  {
  }

  lemma SimulatedPresence(base: Graph, d: Delta, sim: Delta, scratch: map<string, bool>, name: string)
    requires Simulates(scratch, d, sim)
    ensures SimPresent(base, d, scratch, name) == Present(base, sim, name)
    ensures SimTombstoned(d, scratch, name) == (name in sim.removedNodes)
  {
  }

  class GraphDelta {
    var addedNodes: map<string, NodeData>
    var addedEdges: seq<DeltaEdge>
    var removedNodes: set<string>
    var removedEdges: set<EdgeKey>
    var outIndex: Index
    var inIndex: Index
    var tombstoneBaseHits: nat
    var addedNonBase: nat
    var maskedBaseEdgeCount: nat
    var liveDeltaEdgeCount: nat

    /** The overlay as a value. */
    function Model(): Delta
      reads this`addedNodes, this`addedEdges, this`removedNodes, this`removedEdges
    {
      Delta(addedNodes, addedEdges, removedNodes, removedEdges)
    }

    function Counters(): Counts
      reads this`tombstoneBaseHits, this`addedNonBase, this`maskedBaseEdgeCount, this`liveDeltaEdgeCount
    {
      Counts(tombstoneBaseHits, addedNonBase, maskedBaseEdgeCount, liveDeltaEdgeCount)
    }

    ghost predicate Indexed()
      reads this`addedEdges, this`outIndex, this`inIndex
    {
      IndexOk(outIndex, addedEdges, Source) && IndexOk(inIndex, addedEdges, Target)
    }

    /** Indices exact, no name both shadowed and tombstoned, every counter equal to its count from scratch. */
    ghost predicate Valid(base: Graph)
      reads this
    {
      && Indexed()
      && addedNodes.Keys !! removedNodes
      && Counted(base, Model(), Counters())
    }

    constructor (base: Graph)
      ensures Valid(base) && Model() == EMPTY
    {
      addedNodes, addedEdges, removedNodes, removedEdges := map[], [], {}, {};
      outIndex, inIndex := map[], map[];
      tombstoneBaseHits, addedNonBase, maskedBaseEdgeCount, liveDeltaEdgeCount := 0, 0, 0, 0;
      new;
      FilterNone(base.edges, MaskedBy(EMPTY));
      Seal(base, EMPTY);
    }

    /** The copy that apply validates on. */
    constructor CloneOf(d: GraphDelta)
      ensures addedNodes == d.addedNodes && addedEdges == d.addedEdges
      ensures removedNodes == d.removedNodes && removedEdges == d.removedEdges
      ensures outIndex == d.outIndex && inIndex == d.inIndex && Counters() == d.Counters()
    {
      addedNodes, addedEdges, removedNodes, removedEdges := d.addedNodes, d.addedEdges, d.removedNodes, d.removedEdges;
      outIndex, inIndex := d.outIndex, d.inIndex;
      tombstoneBaseHits, addedNonBase := d.tombstoneBaseHits, d.addedNonBase;
      maskedBaseEdgeCount, liveDeltaEdgeCount := d.maskedBaseEdgeCount, d.liveDeltaEdgeCount;
    }

    predicate IsEmpty()
      reads this
    {
      RecordsNothing(Model())
    }

    // -------------------------------------------------------------------
    // Counting the base edges a tombstone masks
    // -------------------------------------------------------------------

    method MaskIncident(base: Graph, name: string)
      modifies this`maskedBaseEdgeCount
      ensures maskedBaseEdgeCount == old(maskedBaseEdgeCount)
        + OpenAt(base, removedNodes, removedEdges, name)
    {
      var out, inc := Out(base, name), In(base, name);
      ghost var openOut, openIn := OpenOut(removedNodes, removedEdges, name), OpenIn(removedNodes, removedEdges, name);
      for i := 0 to |out|
        invariant maskedBaseEdgeCount == old(maskedBaseEdgeCount) + Count(out[..i], openOut)
      {
        CountPrefix(out, i, openOut);
        if out[i].target in removedNodes { continue; }
        if EdgeKey(name, out[i].target, out[i].kind) in removedEdges { continue; }
        maskedBaseEdgeCount := maskedBaseEdgeCount + 1;
      }
      assert out[..|out|] == out;
      for i := 0 to |inc|
        invariant maskedBaseEdgeCount == old(maskedBaseEdgeCount) + Count(out, openOut) + Count(inc[..i], openIn)
      {
        CountPrefix(inc, i, openIn);
        if inc[i].target == name { continue; }
        if inc[i].target in removedNodes { continue; }
        if EdgeKey(inc[i].target, name, inc[i].kind) in removedEdges { continue; }
        maskedBaseEdgeCount := maskedBaseEdgeCount + 1;
      }
      assert inc[..|inc|] == inc;
    }

    method UnmaskIncident(base: Graph, name: string)
      requires maskedBaseEdgeCount
        >= OpenAt(base, removedNodes, removedEdges, name)
      modifies this`maskedBaseEdgeCount
      ensures old(maskedBaseEdgeCount) == maskedBaseEdgeCount
        + OpenAt(base, removedNodes, removedEdges, name)
    {
      var out, inc := Out(base, name), In(base, name);
      ghost var openOut, openIn := OpenOut(removedNodes, removedEdges, name), OpenIn(removedNodes, removedEdges, name);
      for i := 0 to |out|
        invariant old(maskedBaseEdgeCount) == maskedBaseEdgeCount + Count(out[..i], openOut)
      {
        CountPrefix(out, i, openOut);
        if out[i].target in removedNodes { continue; }
        if EdgeKey(name, out[i].target, out[i].kind) in removedEdges { continue; }
        maskedBaseEdgeCount := maskedBaseEdgeCount - 1;
      }
      assert out[..|out|] == out;
      for i := 0 to |inc|
        invariant old(maskedBaseEdgeCount) == maskedBaseEdgeCount + Count(out, openOut) + Count(inc[..i], openIn)
      {
        CountPrefix(inc, i, openIn);
        if inc[i].target == name { continue; }
        if inc[i].target in removedNodes { continue; }
        if EdgeKey(inc[i].target, name, inc[i].kind) in removedEdges { continue; }
        maskedBaseEdgeCount := maskedBaseEdgeCount - 1;
      }
      assert inc[..|inc|] == inc;
    }

    /** How many base edges a new edge tombstone masks: none if a node tombstone already does. */
    method CountLiveMatching(base: Graph, key: EdgeKey) returns (n: nat)
      ensures n == MatchingLive(base, removedNodes, key)
    {
      if key.from in removedNodes || key.to in removedNodes {
        return 0;
      }
      var out := Out(base, key.from);
      n := 0;
      for i := 0 to |out|
        invariant n == Count(out[..i], Matches(key))
      {
        CountPrefix(out, i, Matches(key));
        if out[i].target == key.to && out[i].kind == key.kind {
          n := n + 1;
        }
      }
      assert out[..|out|] == out;
    }

    // -------------------------------------------------------------------
    // Killing delta edges in place
    // -------------------------------------------------------------------

    /** Marks the live edges at `positions` that `hit` selects dead; positions stay valid, nothing is moved. */
    method Kill(positions: seq<nat>, hit: DeltaEdge -> bool)
      requires Within(positions, |addedEdges|) && liveDeltaEdgeCount == Count(addedEdges, Alive)
      modifies this`addedEdges, this`liveDeltaEdgeCount
      ensures addedEdges == KillAt(old(addedEdges), positions, hit)
      ensures liveDeltaEdgeCount == Count(addedEdges, Alive)
    {
      for i := 0 to |positions|
        invariant addedEdges == KillAt(old(addedEdges), positions[..i], hit)
        invariant liveDeltaEdgeCount == Count(addedEdges, Alive)
      {
        var p := positions[i];
        assert positions[..i + 1][..i] == positions[..i];
        if !addedEdges[p].dead && hit(addedEdges[p]) {
          KillOne(addedEdges, p);
          addedEdges := addedEdges[p := addedEdges[p].(dead := true)];
          liveDeltaEdgeCount := liveDeltaEdgeCount - 1;
        }
      }
      assert positions[..|positions|] == positions;
    }

    /** A self-loop is listed in both indices and still counted once. */
    method KillIncident(name: string)
      requires Indexed() && liveDeltaEdgeCount == Count(addedEdges, Alive)
      modifies this`addedEdges, this`liveDeltaEdgeCount
      ensures addedEdges == Map(old(addedEdges), KillNode(name))
      ensures Indexed() && liveDeltaEdgeCount == Count(addedEdges, Alive)
    {
      EntryIs(outIndex, addedEdges, Source, name);
      EntryIs(inIndex, addedEdges, Target, name);
      KillIncidentAt(addedEdges, name);
      IndexAfterKill(outIndex, addedEdges, Source, KillNode(name));
      IndexAfterKill(inIndex, addedEdges, Target, KillNode(name));
      Kill(Entry(outIndex, name) + Entry(inIndex, name), AnyEdge);
    }

    method KillMatching(key: EdgeKey)
      requires Indexed() && liveDeltaEdgeCount == Count(addedEdges, Alive)
      modifies this`addedEdges, this`liveDeltaEdgeCount
      ensures addedEdges == Map(old(addedEdges), KillEdge(key))
      ensures Indexed() && liveDeltaEdgeCount == Count(addedEdges, Alive)
    {
      EntryIs(outIndex, addedEdges, Source, key.from);
      KillMatchingAt(addedEdges, key);
      IndexAfterKill(outIndex, addedEdges, Source, KillEdge(key));
      IndexAfterKill(inIndex, addedEdges, Target, KillEdge(key));
      Kill(Entry(outIndex, key.from), ToWithKind(key));
    }

    // -------------------------------------------------------------------
    // The four mutators
    // -------------------------------------------------------------------

    /** Restores a tombstoned node and unmasks its base edges; the tombstone goes first. */
    method ClearTombstone(base: Graph, name: string)
      requires name in base.nodes && name in removedNodes ==>
        tombstoneBaseHits >= 1 && maskedBaseEdgeCount >= OpenAt(base, removedNodes - {name}, removedEdges, name)
      modifies this`removedNodes, this`tombstoneBaseHits, this`maskedBaseEdgeCount
      ensures removedNodes == old(removedNodes) - {name}
      ensures var hit := name in base.nodes && name in old(removedNodes);
        && tombstoneBaseHits == old(tombstoneBaseHits) - (if hit then 1 else 0)
        && maskedBaseEdgeCount == old(maskedBaseEdgeCount)
             - (if hit then OpenAt(base, old(removedNodes) - {name}, removedEdges, name) else 0)
    {
      var removed := name in removedNodes;
      removedNodes := removedNodes - {name};
      if removed && name in base.nodes {
        tombstoneBaseHits := tombstoneBaseHits - 1;
        UnmaskIncident(base, name);
      }
    }

    method UpsertNode(base: Graph, nd: NodeData)
      requires WellFormed(base) && Valid(base)
      modifies this
      ensures Valid(base) && Model() == Upsert(old(Model()), nd)
    {
      ghost var d, c := Upsert(Model(), nd), AfterUpsert(base, Model(), Counters(), nd);
      CountedAfterUpsert(base, Model(), Counters(), nd);
      ClearTombstone(base, nd.name);
      if nd.name !in addedNodes && nd.name !in base.nodes {
        addedNonBase := addedNonBase + 1;
      }
      addedNodes := addedNodes[nd.name := nd];
      assert outIndex == old(outIndex) && inIndex == old(inIndex) && addedEdges == old(addedEdges);
      assert Model() == d && Counters() == c;
    }

    /** Masks the base edges of a base node before its tombstone goes in, so that a self-loop counts once. */
    method PlaceTombstone(base: Graph, name: string)
      modifies this`removedNodes, this`tombstoneBaseHits, this`maskedBaseEdgeCount
      ensures removedNodes == old(removedNodes) + {name}
      ensures var hit := name in base.nodes && name !in old(removedNodes);
        && tombstoneBaseHits == old(tombstoneBaseHits) + (if hit then 1 else 0)
        && maskedBaseEdgeCount == old(maskedBaseEdgeCount)
             + (if hit then OpenAt(base, old(removedNodes), removedEdges, name) else 0)
    {
      if name !in removedNodes && name in base.nodes {
        MaskIncident(base, name);
        tombstoneBaseHits := tombstoneBaseHits + 1;
      }
      removedNodes := removedNodes + {name};
    }

    method DropShadow(base: Graph, name: string)
      requires name in addedNodes && name !in base.nodes ==> addedNonBase >= 1
      modifies this`addedNodes, this`addedNonBase
      ensures addedNodes == old(addedNodes) - {name}
      ensures addedNonBase == Less(old(addedNonBase), if name in old(addedNodes) && name !in base.nodes then 1 else 0)
    {
      if name in addedNodes && name !in base.nodes {
        addedNonBase := addedNonBase - 1;
      }
      addedNodes := addedNodes - {name};
    }

    /** Everything a removal does but kill the delta edges at the node. */
    method Hide(base: Graph, name: string)
      requires WellFormed(base) && Valid(base)
      modifies this`addedNodes, this`addedNonBase, this`removedNodes, this`tombstoneBaseHits, this`maskedBaseEdgeCount
      ensures addedNodes == old(addedNodes) - {name} && removedNodes == old(removedNodes) + {name}
      ensures Counters() == AfterRemove(base, old(Model()), old(Counters()), name).(liveDelta := liveDeltaEdgeCount)
    {
      CountedAfterRemove(base, Model(), Counters(), name);
      DropShadow(base, name);
      PlaceTombstone(base, name);
    }

    method RemoveNode(base: Graph, name: string)
      requires WellFormed(base) && Valid(base)
      modifies this
      ensures Valid(base) && Model() == Remove(old(Model()), name)
    {
      ghost var d, c := Remove(Model(), name), AfterRemove(base, Model(), Counters(), name);
      LiveIsCounted(base, Model(), Counters());
      CountedAfterRemove(base, Model(), Counters(), name);
      Hide(base, name);
      assert outIndex == old(outIndex) && inIndex == old(inIndex) && addedEdges == old(addedEdges);
      KillIncident(name);
      assert Model() == d && Counters() == c;
    }

    method AddEdge(base: Graph, from: string, to: string, edge: EdgeData)
      requires Valid(base)
      modifies this
      ensures Valid(base) && Model() == Add(old(Model()), from, to, edge)
    {
      ghost var d := Add(Model(), from, to, edge);
      ghost var c := Counters().(liveDelta := liveDeltaEdgeCount + 1);
      CountedAfterAdd(base, Model(), Counters(), from, to, edge);
      var acl := Normalize(edge.acl);
      var added := DeltaEdge(from, to, edge.(acl := acl), false);
      IndexPush(outIndex, addedEdges, Source, added);
      IndexPush(inIndex, addedEdges, Target, added);
      var p := |addedEdges|;
      outIndex := outIndex[from := Entry(outIndex, from) + [p]];
      inIndex := inIndex[to := Entry(inIndex, to) + [p]];
      addedEdges := addedEdges + [added];
      liveDeltaEdgeCount := liveDeltaEdgeCount + 1;
      assert Model() == d && Counters() == c;
    }

    /** Kills every live delta edge under the key. */
    method KillUnder(base: Graph, key: EdgeKey)
      requires Valid(base)
      modifies this`addedEdges, this`liveDeltaEdgeCount
      ensures Valid(base) && addedEdges == Map(old(addedEdges), KillEdge(key))
    {
      LiveIsCounted(base, Model(), Counters());
      CountedAfterKill(base, Model(), Counters(), Map(addedEdges, KillEdge(key)));
      KillMatching(key);
    }

    /** The first tombstone on a key masks the base edges that are still live under it. */
    method PlaceEdgeTombstone(base: Graph, key: EdgeKey)
      requires Valid(base)
      modifies this`removedEdges, this`maskedBaseEdgeCount
      ensures Valid(base) && removedEdges == old(removedEdges) + {key}
    {
      CountedAfterTombstone(base, Model(), Counters(), key);
      if key !in removedEdges {
        removedEdges := removedEdges + {key};
        var hits := CountLiveMatching(base, key);
        maskedBaseEdgeCount := maskedBaseEdgeCount + hits;
      } else {
        assert removedEdges + {key} == removedEdges;
      }
    }

    method RemoveEdge(base: Graph, key: EdgeKey)
      requires Valid(base)
      modifies this
      ensures Valid(base) && Model() == RemoveEdges(old(Model()), key)
    {
      KillUnder(base, key);
      PlaceEdgeTombstone(base, key);
    }

    // -------------------------------------------------------------------
    // Batches
    // -------------------------------------------------------------------

    method ApplyOne(base: Graph, op: Op)
      requires WellFormed(base) && Valid(base)
      modifies this
      ensures Valid(base) && Model() == ApplyOp(old(Model()), op)
    {
      match op {
        case UpsertNode(nd) => UpsertNode(base, nd);
        case RemoveNode(name) => RemoveNode(base, name);
        case AddEdge(from, to, edge) => AddEdge(base, from, to, edge);
        case RemoveEdge(from, to, kind) => RemoveEdge(base, EdgeKey(from, to, kind));
      }
    }

    /** Replays ops that were accepted when they were committed; nothing is validated again. */
    method Replay(base: Graph, ops: Batch)
      requires WellFormed(base) && Valid(base)
      modifies this
      ensures Valid(base) && Model() == ApplyOps(old(Model()), ops)
    {
      for i := 0 to |ops|
        invariant Valid(base) && Model() == ApplyOps(old(Model()), ops[..i])
      {
        ApplyStep(old(Model()), ops, i);
        ApplyOne(base, ops[i]);
      }
      assert ops[..|ops|] == ops;
    }

    /** The first pass: the verdict on op `i` in the simulated state. */
    method CheckOp(base: Graph, scratch: map<string, bool>, ghost sim: Delta, i: nat, op: Op) returns (r: Option<DeltaError>)
      requires Simulates(scratch, Model(), sim)
      ensures r.None? <==> OpOk(base, sim, op)
      ensures r.Some? ==> r.value.opIndex == i && Describes(base, sim, op, r.value)
    {
      if !op.AddEdge? {
        return None;
      }
      var edge := op.edge;
      if edge.validFrom.Some? && edge.validTo.Some? && edge.validFrom.value > edge.validTo.value {
        return Some(InvalidEdgeValidity(i, op.from, op.to, edge.validFrom.value, edge.validTo.value));
      }
      SimulatedPresence(base, Model(), sim, scratch, op.from);
      SimulatedPresence(base, Model(), sim, scratch, op.to);
      if !SimPresent(base, Model(), scratch, op.from) {
        return Some(MissingEndpoint(i, op.from, op.to, op.from, SimTombstoned(Model(), scratch, op.from)));
      }
      if !SimPresent(base, Model(), scratch, op.to) {
        return Some(MissingEndpoint(i, op.from, op.to, op.to, SimTombstoned(Model(), scratch, op.to)));
      }
      return None;
    }

    /** The first offending op, if any, against the state the earlier ops would leave. */
    method Validate(base: Graph, ops: Batch) returns (r: Option<DeltaError>)
      ensures r.None? <==> Accepted(base, Model(), ops)
      ensures r.Some? ==> (
        var k := r.value.opIndex;
        && k < |ops|
        && Accepted(base, Model(), ops[..k])
        && Describes(base, ApplyOps(Model(), ops[..k]), ops[k], r.value))
    {
      var scratch: map<string, bool> := map[];
      for i := 0 to |ops|
        invariant Accepted(base, Model(), ops[..i])
        invariant Simulates(scratch, Model(), ApplyOps(Model(), ops[..i]))
      {
        ghost var sim := ApplyOps(Model(), ops[..i]);
        r := CheckOp(base, scratch, sim, i, ops[i]);
        if r.Some? {
          RejectedPrefix(base, Model(), ops, i);
          return;
        }
        ApplyStep(Model(), ops, i);
        AcceptedStep(base, Model(), ops, i);
        TouchSimulates(scratch, Model(), sim, ops[i]);
        scratch := Touch(scratch, ops[i]);
      }
      assert ops[..|ops|] == ops;
      return None;
    }

    /** All or nothing: a rejected batch leaves every field as it was. */
    method Apply(base: Graph, ops: Batch) returns (r: Result<(), DeltaError>)
      requires WellFormed(base) && Valid(base)
      modifies this
      ensures Valid(base)
      ensures r.Ok? <==> Accepted(base, old(Model()), ops)
      ensures r.Ok? ==> Model() == ApplyOps(old(Model()), ops)
      ensures r.Err? ==> (
        var k := r.error.opIndex;
        && unchanged(this)
        && k < |ops|
        && Accepted(base, Model(), ops[..k])
        && Describes(base, ApplyOps(Model(), ops[..k]), ops[k], r.error))
      ensures r.Ok? && DeltaOk(base, old(Model())) ==> DeltaOk(base, Model())
    {
      var verdict := Validate(base, ops);
      if verdict.Some? {
        return Err(verdict.value);
      }
      if DeltaOk(base, Model()) {
        BatchKeepsOk(base, Model(), ops);
      }
      Replay(base, ops);
      return Ok(());
    }

    // -------------------------------------------------------------------
    // The cross-check of debug builds
    // -------------------------------------------------------------------

    /** Every counter from scratch, without scanning all base edges. */
    method RecomputeCounts(base: Graph) returns (c: Counts)
      requires WellFormed(base)
      ensures c == CountsOf(base, Model())
    {
      var hits := CountHits(base);
      var strangers := CountStrangers(base);
      var viaNodes := CountViaNodes(base);
      var viaEdges := CountViaEdges(base);
      PassesCountMasked(base, Model());
      var live := 0;
      for i := 0 to |addedEdges|
        invariant live == Count(addedEdges[..i], Alive)
      {
        CountPrefix(addedEdges, i, Alive);
        if !addedEdges[i].dead { live := live + 1; }
      }
      assert addedEdges[..|addedEdges|] == addedEdges;
      return Counts(hits, strangers, viaNodes + viaEdges, live);
    }

    method CountHits(base: Graph) returns (n: nat)
      ensures n == |removedNodes * base.nodes.Keys|
    {
      n := 0;
      var todo := removedNodes;
      while todo != {}
        invariant n + |todo * base.nodes.Keys| == |removedNodes * base.nodes.Keys|
        decreases |todo|
      {
        var name :| name in todo;
        HitsShrink(todo, base.nodes.Keys, name);
        if name in base.nodes { n := n + 1; }
        todo := todo - {name};
      }
    }

    method CountStrangers(base: Graph) returns (n: nat)
      ensures n == |addedNodes.Keys - base.nodes.Keys|
    {
      n := 0;
      var todo := addedNodes.Keys;
      while todo != {}
        invariant n + |todo - base.nodes.Keys| == |addedNodes.Keys - base.nodes.Keys|
        decreases |todo|
      {
        var name :| name in todo;
        StrangersShrink(todo, base.nodes.Keys, name);
        if name !in base.nodes { n := n + 1; }
        todo := todo - {name};
      }
    }

    /** Base edges masked by a node tombstone: all outgoing ones, and the incoming ones whose source is not itself tombstoned. */
    method CountViaNodes(base: Graph) returns (n: nat)
      requires WellFormed(base)
      ensures n == Count(base.edges, CountedVia(removedNodes, removedNodes))
    {
      n := 0;
      var todo := removedNodes;
      ghost var done := {};
      FilterNone(base.edges, CountedVia({}, removedNodes));
      while todo != {}
        invariant todo + done == removedNodes && todo !! done
        invariant n == Count(base.edges, CountedVia(done, removedNodes))
        decreases |todo|
      {
        var name :| name in todo;
        if name in base.nodes {
          CountOneTombstone(base, done, removedNodes, name);
          var incoming := CountFromAlive(In(base, name));
          n := n + |Out(base, name)| + incoming;
        } else {
          StrangerCountsNothing(base, done, removedNodes, name);
        }
        todo, done := todo - {name}, done + {name};
      }
      assert done == removedNodes;
    }

    method CountFromAlive(views: seq<NeighborView>) returns (n: nat)
      ensures n == Count(views, SourceAlive(removedNodes))
    {
      n := 0;
      for i := 0 to |views|
        invariant n == Count(views[..i], SourceAlive(removedNodes))
      {
        CountPrefix(views, i, SourceAlive(removedNodes));
        if views[i].target !in removedNodes { n := n + 1; }
      }
      assert views[..|views|] == views;
    }

    method CountViaEdges(base: Graph) returns (n: nat)
      ensures n == Count(base.edges, EdgeOnly(removedEdges, removedNodes))
    {
      n := 0;
      var todo := removedEdges;
      ghost var done := {};
      FilterNone(base.edges, EdgeOnly({}, removedNodes));
      while todo != {}
        invariant todo + done == removedEdges && todo !! done
        invariant n == Count(base.edges, EdgeOnly(done, removedNodes))
        decreases |todo|
      {
        var key :| key in todo;
        CountOneKey(base, done, removedNodes, key);
        var hits := CountLiveMatching(base, key);
        n := n + hits;
        todo, done := todo - {key}, done + {key};
      }
      assert done == removedEdges;
    }
  }

  lemma LiveIsCounted(base: Graph, d: Delta, c: Counts)
    requires Counted(base, d, c)
    ensures c.liveDelta == Count(d.edges, Alive)
  {
    Unseal(base, d, c);
  }

  // ---------------------------------------------------------------------
  // The merged view
  // ---------------------------------------------------------------------

  /** An accessor lists the edges of each node, in an order of its own. */
  ghost predicate ListsEdges(base: Graph, outOf: string -> seq<NeighborView>, inOf: string -> seq<NeighborView>) {
    forall n :: multiset(outOf(n)) == multiset(Out(base, n)) && multiset(inOf(n)) == multiset(In(base, n))
  }

  /** Reads the base, whose neighbour lists are `outOf` and `inOf`, overlaid with `delta`. */
  class DeltaAccessor {
    const base: Graph
    const outOf: string -> seq<NeighborView>
    const inOf: string -> seq<NeighborView>
    const delta: GraphDelta

    constructor (base: Graph, outOf: string -> seq<NeighborView>, inOf: string -> seq<NeighborView>, delta: GraphDelta)
      ensures this.base == base && this.outOf == outOf && this.inOf == inOf && this.delta == delta
    {
      this.base := base;
      this.outOf := outOf;
      this.inOf := inOf;
      this.delta := delta;
    }

    ghost predicate Valid()
      reads delta
    {
      WellFormed(base) && ListsEdges(base, outOf, inOf) && delta.Valid(base) && DeltaOk(base, delta.Model())
    }

    ghost function View(): Graph
      reads delta
    {
      Merged(base, delta.Model())
    }

    method NodeCount() returns (n: nat)
      requires Valid()
      ensures n == |View().nodes|
    {
      NodeCounters(base, delta.Model());
      Unseal(base, delta.Model(), delta.Counters());
      n := (|base.nodes| + delta.addedNonBase) - delta.tombstoneBaseHits;
    }

    /** Also the total of the outgoing lists over the live nodes, and of the incoming lists. */
    method EdgeCount() returns (n: nat)
      requires Valid()
      ensures n == |View().edges|
      ensures SumOver(View().nodes.Keys, OutDegree(View())) == n == SumOver(View().nodes.Keys, InDegree(View()))
    {
      EdgeCounters(base, delta.Model());
      Unseal(base, delta.Model(), delta.Counters());
      n := (|base.edges| + delta.liveDeltaEdgeCount) - delta.maskedBaseEdgeCount;
      MergedWellFormed(base, delta.Model());
      DegreesSumToEdges(View());
    }

    method GetNode(name: string) returns (r: Option<NodeData>)
      requires Valid()
      ensures r == if name in View().nodes then Some(View().nodes[name]) else None
    {
      PresentIsNode(base, delta.Model(), name);
      if name in delta.addedNodes {
        return Some(delta.addedNodes[name]);
      }
      if name in delta.removedNodes {
        return None;
      }
      return if name in base.nodes then Some(base.nodes[name]) else None;
    }

    /** The base's list, masked in place, then the live delta edges in insertion order. */
    method OutgoingNeighbors(name: string) returns (out: seq<NeighborView>)
      requires Valid()
      ensures multiset(out) == multiset(Out(View(), name))
      ensures outOf(name) == Out(base, name) ==> out == Out(View(), name)
    {
      ghost var d := delta.Model();
      if delta.IsEmpty() {
        EmptyIsBase(base, d, name);
        return outOf(name);
      }
      if name in delta.removedNodes {
        RemovedHasNoEdges(base, d, name);
        return [];
      }
      OutOfMerged(base, d, name);
      EntryIs(delta.outIndex, delta.addedEdges, Source, name);
      FilterPermuted(outOf(name), Out(base, name), OpenOut(delta.removedNodes, delta.removedEdges, name));
      out := RetainOpen(outOf(name), OpenOut(delta.removedNodes, delta.removedEdges, name), delta.removedNodes, delta.removedEdges);
      var more := DeltaViews(Entry(delta.outIndex, name), Source, Target, From(name), OutView, name);
      out := out + more;
    }

    method IncomingNeighbors(name: string) returns (inc: seq<NeighborView>)
      requires Valid()
      ensures multiset(inc) == multiset(In(View(), name))
      ensures inOf(name) == In(base, name) ==> inc == In(View(), name)
    {
      ghost var d := delta.Model();
      if delta.IsEmpty() {
        EmptyIsBase(base, d, name);
        return inOf(name);
      }
      if name in delta.removedNodes {
        RemovedHasNoEdges(base, d, name);
        return [];
      }
      InOfMerged(base, d, name);
      EntryIs(delta.inIndex, delta.addedEdges, Target, name);
      FilterPermuted(inOf(name), In(base, name), KeepIn(delta.removedNodes, delta.removedEdges, name));
      inc := RetainOpen(inOf(name), KeepIn(delta.removedNodes, delta.removedEdges, name), delta.removedNodes, delta.removedEdges);
      var more := DeltaViews(Entry(delta.inIndex, name), Target, Source, To(name), InView, name);
      inc := inc + more;
    }

    /** Drops the masked views; with no tombstone of either kind nothing is even looked at. */
    static method RetainOpen(views: seq<NeighborView>, open: NeighborView -> bool, nodes: set<string>, edges: set<EdgeKey>)
      returns (r: seq<NeighborView>)
      requires nodes == {} && edges == {} ==> forall v :: v in views ==> open(v)
      ensures r == Filter(views, open)
    {
      if nodes == {} && edges == {} {
        FilterAll(views, open);
        return views;
      }
      r := [];
      for i := 0 to |views|
        invariant r == Filter(views[..i], open)
      {
        assert views[..i + 1] == views[..i] + [views[i]];
        FilterSnoc(views[..i], views[i], open);
        if open(views[i]) {
          r := r + [views[i]];
        }
      }
      assert views[..|views|] == views;
    }

    /** The live delta edges listed under `name`; an edge to a tombstoned node would be skipped, and there is none. */
    method DeltaViews(positions: seq<nat>, ghost key: DeltaEdge -> string, other: DeltaEdge -> string,
        ghost mine: Edge -> bool, view: Edge -> NeighborView, ghost name: string)
      returns (r: seq<NeighborView>)
      requires Valid()
      requires positions == Positions(delta.addedEdges, key, name)
      requires forall e :: mine(AsEdge(e)) == (key(e) == name)
      requires forall e: DeltaEdge :: other(e) == e.from || other(e) == e.to
      ensures r == Map(Filter(LiveDelta(delta.Model()), mine), view)
    {
      var edges := delta.addedEdges;
      r := [];
      for i := 0 to |positions|
        invariant r == Gather(edges, positions[..i], view)
      {
        assert positions[..i + 1][..i] == positions[..i];
        var e := edges[positions[i]];
        if !e.dead {
          LiveEndpoints(base, delta.Model(), e);
        }
        if e.dead || other(e) in delta.removedNodes {
          continue;
        }
        r := r + [view(AsEdge(e))];
      }
      assert positions[..|positions|] == positions;
      GatherIsScan(edges, key, name, mine, view);
    }
  }

  lemma EmptyIsBase(base: Graph, d: Delta, name: string)
    requires d == EMPTY
    ensures Out(Merged(base, d), name) == Out(base, name) && In(Merged(base, d), name) == In(base, name)
  {
    FilterAll(base.edges, Unmasked(d));
    assert LiveDelta(d) == [];
    assert Merged(base, d).edges == base.edges;
  }
}
