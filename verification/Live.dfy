/**
 The store together with the graph its batches make: apply and compact of
 src/persist/mod.rs, with the overlay's own verdict on each batch.
 */
module Live {
  import opened Types
  import opened Graphs
  import NameTable
  import opened Csr
  import opened DeltaModel
  import opened DeltaOverlay
  import opened Compaction
  import opened Store

  method NamesOf(nodes: map<string, NodeData>) returns (names: seq<string>)
    ensures forall n :: n in names <==> n in nodes
  {
    names := [];
    var left := nodes.Keys;
    while left != {}
      invariant forall n :: n in nodes <==> n in left || n in names
      decreases left
    {
      var n :| n in left;
      left := left - {n};
      names := names + [n];
    }
  }

  /** An overlay of accepted batches over a well-formed base, as a fact to carry around unopened. */
  ghost predicate Sound(base: Graph, overlay: GraphDelta)
    reads overlay
  {
    forall i {:trigger Sealed(i)} :: Sealed(i) ==>
      WellFormed(base) && overlay.Valid(base) && DeltaOk(base, overlay.Model())
  }

  /** The fold of base and overlay, as the snapshot holds it. */
  method Fold(hash: string -> nat, base: Graph, overlay: GraphDelta) returns (folded: Graph)
    requires Sound(base, overlay) && |Merged(base, overlay.Model()).nodes| <= NameTable.EMPTY
    ensures WellFormed(folded) && SameGraph(Merged(base, overlay.Model()), folded)
  {
    assert Sealed(0);
    var acc := new DeltaAccessor(base, n => Out(base, n), n => In(base, n), overlay);
    var baseNames := NamesOf(base.nodes);
    var addedNames := NamesOf(overlay.addedNodes);
    var a := FoldSnapshot(hash, acc, baseNames, addedNames);
    folded := GraphOf(a.nodes, a.edges);
  }

  /** The replay loop of recovery, on the overlay itself. */
  method ReplayAll(base: Graph, overlay: GraphDelta, batches: seq<Batch>)
    requires WellFormed(base) && overlay.Valid(base) && overlay.Model() == DeltaModel.EMPTY
    modifies overlay
    ensures overlay.Valid(base) && overlay.Model() == ApplyAll(DeltaModel.EMPTY, batches)
  {
    for i := 0 to |batches|
      invariant overlay.Valid(base) && overlay.Model() == ApplyAll(DeltaModel.EMPTY, batches[..i])
    {
      assert batches[..i + 1] == batches[..i] + [batches[i]];
      ApplyAllSnoc(DeltaModel.EMPTY, batches[..i], batches[i]);
      overlay.Replay(base, batches[i]);
    }
    assert batches[..|batches|] == batches;
  }

  /** The overlay is what the batches make of an empty one, as a fact to carry around unopened. */
  ghost predicate MadeBy(overlay: Delta, batches: seq<Batch>) {
    forall i {:trigger Sealed(i)} :: Sealed(i) ==> overlay == ApplyAll(DeltaModel.EMPTY, batches)
  }

  lemma MadeByNone()
    ensures MadeBy(DeltaModel.EMPTY, [])
  {
  }

  lemma MadeByOneMore(overlay: Delta, batches: seq<Batch>, ops: Batch)
    requires MadeBy(overlay, batches)
    ensures MadeBy(ApplyOps(overlay, ops), batches + [ops])
  {
    assert Sealed(0);
    ApplyAllSnoc(DeltaModel.EMPTY, batches, ops);
  }

  class LiveGraph {
    const hash: string -> nat
    const store: PersistentGraph
    var base: Graph
    var overlay: GraphDelta

    /** A new store over a graph. */
    constructor Create(hash: string -> nat, graph: Graph, minted: nat)
      requires WellFormed(graph)
      ensures Valid() && fresh(store) && fresh(overlay) && View() == graph && store.seqNo == 0 && store.epoch == minted
    {
      this.hash := hash;
      store := new PersistentGraph.Create(minted);
      base := graph;
      overlay := new GraphDelta(graph);
      new;
      FreshOverlayIsBase(graph);
      MadeByNone();
    }

    /** A reopened store over the graph of its snapshot: the committed batches are replayed without being judged again. */
    constructor Open(hash: string -> nat, s: PersistentGraph, snapshot: Graph)
      requires s.Ready() && WellFormed(snapshot) && AllAccepted(snapshot, DeltaModel.EMPTY, s.delta)
      ensures Valid() && store == s && base == snapshot && fresh(overlay)
      ensures View() == Merged(snapshot, ApplyAll(DeltaModel.EMPTY, s.delta))
    {
      this.hash := hash;
      store := s;
      base := snapshot;
      overlay := new GraphDelta(snapshot);
      new;
      ReplayAll(snapshot, overlay, store.delta);
      HistoryKeepsOk(snapshot, DeltaModel.EMPTY, store.delta);
    }

    /** The store is ready, as a fact to carry around unopened. */
    ghost predicate Serving()
      reads this, store
    {
      forall i {:trigger Sealed(i)} :: Sealed(i) ==> store.Ready()
    }

    /** The overlay is that of the batches since the last fold, over the graph that fold wrote. */
    ghost predicate Valid()
      reads this, store, overlay
    {
      && Serving()
      && Sound(base, overlay)
      && MadeBy(overlay.Model(), store.delta)
    }

    /** What readers see. */
    function View(): Graph
      reads this, overlay
    {
      Merged(base, overlay.Model())
    }

    /** A delta that has outgrown its threshold is folded, unless it records nothing or the disk fails. */
    ghost predicate Folds(crowded: bool, recorded: seq<Batch>, faults: nat)
      reads store.device
    {
      crowded && !EmptyDelta(recorded) && store.device.faults == faults
    }

    /**
     apply. A batch is refused by poison, by a seq that is not the expected one, by the
     overlay's validation on the graph as it is, or by the encoder, in this order and
     without a trace; on Ok the graph is the one before with the batch applied, up to
     ranks if that set off a compaction. `fits` says whether the record can be encoded.
     */
    method Apply(ops: Batch, expectedSeq: Option<nat>, fits: bool) returns (r: Result<nat, StoreError>)
      requires Valid()
      requires Accepted(base, overlay.Model(), ops) ==> |Merged(base, ApplyOps(overlay.Model(), ops)).nodes| <= NameTable.EMPTY
      modifies this, store, store.device
      ensures Valid() && (overlay == old(overlay) || fresh(overlay))
      ensures r == Err(Poisoned) <==> old(store.poisoned)
      ensures r.Err? && r.error.Conflict? <==> !old(store.poisoned) && !old(store.Expects(expectedSeq))
      ensures r.Err? && r.error.Conflict? ==> r.error == Conflict(expectedSeq.value, old(store.seqNo))
      ensures r == Err(StoreError.Delta) <==>
        !old(store.poisoned) && old(store.Expects(expectedSeq)) && !Accepted(old(base), old(overlay.Model()), ops)
      ensures r == Err(Unencodable) <==>
        !old(store.poisoned) && old(store.Expects(expectedSeq)) && Accepted(old(base), old(overlay.Model()), ops) && !fits
      ensures r.Ok? ==>
        && SameGraph(Merged(old(base), ApplyOps(old(overlay.Model()), ops)), View())
        && r.value == store.seqNo == old(store.seqNo) + 1
        && store.View() == old(store.View()) + [ops]
      ensures r.Ok? && old(store.policy) == EveryBatch ==> store.durableSeq == store.seqNo
      ensures r.Ok? && !old(store.Crowded(|ops|, |base.nodes|)) ==>
        store.ThePace() == Applied(old(store.policy), old(store.ThePace()))
      ensures r.Ok? && Folds(old(store.Crowded(|ops|, |base.nodes|)), old(store.delta) + [ops], old(store.device.faults)) ==>
        overlay.Model() == DeltaModel.EMPTY
      ensures r.Ok? && !Folds(old(store.Crowded(|ops|, |base.nodes|)), old(store.delta) + [ops], old(store.device.faults)) ==>
        base == old(base) && overlay.Model() == ApplyOps(old(overlay.Model()), ops)
      ensures r.Err? ==> View() == old(View()) && store.seqNo == old(store.seqNo) && store.View() == old(store.View())
      ensures r.Err? && !r.error.Io? ==> store.log == old(store.log) && store.device.faults == old(store.device.faults)
      ensures r.Err? && r.error.Io? ==> store.poisoned && store.device.faults == old(store.device.faults) + 1
    {
      ghost var next, now := Merged(base, ApplyOps(overlay.Model(), ops)), ApplyOps(overlay.Model(), ops);
      var d, accepted := Judge(ops);
      MadeByOneMore(overlay.Model(), store.delta, ops);
      MadeByNone();
      var folded: bool;
      r, folded := Submit(ops, expectedSeq, accepted, fits);
      if r.Ok? {
        assert d.Model() == now;
        Take(d, folded, next);
      }
    }

    /** The log's part of apply, once the overlay has judged the batch. */
    method Submit(ops: Batch, expectedSeq: Option<nat>, accepted: bool, fits: bool)
      returns (r: Result<nat, StoreError>, folded: bool)
      requires Serving()
      modifies store, store.device
      ensures Serving()
      ensures r == Err(Poisoned) <==> old(store.poisoned)
      ensures r.Err? && r.error.Conflict? <==> !old(store.poisoned) && !old(store.Expects(expectedSeq))
      ensures r.Err? && r.error.Conflict? ==> r.error == Conflict(expectedSeq.value, old(store.seqNo))
      ensures r == Err(StoreError.Delta) <==> !old(store.poisoned) && old(store.Expects(expectedSeq)) && !accepted
      ensures r == Err(Unencodable) <==> !old(store.poisoned) && old(store.Expects(expectedSeq)) && accepted && !fits
      ensures r.Ok? ==> r.value == store.seqNo == old(store.seqNo) + 1 && store.View() == old(store.View()) + [ops]
      ensures r.Ok? ==> store.delta == if folded then [] else old(store.delta) + [ops]
      ensures r.Ok? && old(store.policy) == EveryBatch ==> store.durableSeq == store.seqNo
      ensures r.Ok? && !old(store.Crowded(|ops|, |base.nodes|)) ==>
        store.ThePace() == Applied(old(store.policy), old(store.ThePace()))
      ensures r.Ok? ==>
        (folded <==> Folds(old(store.Crowded(|ops|, |base.nodes|)), old(store.delta) + [ops], old(store.device.faults)))
      ensures r.Err? ==> store.seqNo == old(store.seqNo) && store.View() == old(store.View()) && store.delta == old(store.delta)
      ensures r.Err? && !r.error.Io? ==> store.log == old(store.log) && store.device.faults == old(store.device.faults)
      ensures r.Err? && r.error.Io? ==> store.poisoned && store.device.faults == old(store.device.faults) + 1
    {
      assert Sealed(0);
      r, folded := store.Apply(ops, expectedSeq, accepted, fits, |base.nodes|);
    }

    /** Validates a batch on a clone of the overlay, which holds it afterwards if it is accepted. */
    method Judge(ops: Batch) returns (d: GraphDelta, accepted: bool)
      requires Sound(base, overlay)
      ensures fresh(d) && (accepted <==> Accepted(base, overlay.Model(), ops))
      ensures accepted ==> Sound(base, d) && d.Model() == ApplyOps(overlay.Model(), ops)
    {
      assert Sealed(0);
      d := new GraphDelta.CloneOf(overlay);
      assert d.Model() == overlay.Model();
      var verdict := d.Apply(base, ops);
      accepted := verdict.Ok?;
    }

    /** The new overlay, over the old base or, after a fold, over nothing but the folded graph. */
    method Take(d: GraphDelta, folded: bool, ghost next: Graph)
      requires Serving() && Sound(base, d) && next == Merged(base, d.Model()) && |next.nodes| <= NameTable.EMPTY
      requires MadeBy(if folded then DeltaModel.EMPTY else d.Model(), store.delta)
      modifies this`base, this`overlay
      ensures Valid() && (overlay == d || fresh(overlay))
      ensures !folded ==> base == old(base) && overlay == d
      ensures folded ==> overlay.Model() == DeltaModel.EMPTY
      ensures SameGraph(next, View())
    {
      overlay := d;
      if folded {
        base := Fold(hash, base, d);
        overlay := new GraphDelta(base);
        FreshOverlayIsBase(base);
      }
    }

    /** The disk's part of compact. */
    method Shrink() returns (r: Result<(), StoreError>)
      requires Serving()
      modifies store, store.device
      ensures Serving() && store.View() == old(store.View())
      ensures store.seqNo == old(store.seqNo) && store.epoch == old(store.epoch)
      ensures r == Err(Poisoned) <==> old(store.poisoned)
      ensures r.Err? ==> r.error == Poisoned || (r.error == Io && store.device.faults > old(store.device.faults))
      ensures store.delta == if r.Ok? && !EmptyDelta(old(store.delta)) then [] else old(store.delta)
    {
      assert Sealed(0);
      r := store.Compact();
    }

    /** compact: a fold that goes through replaces base and overlay; the graph stays, up to ranks. */
    method Compact() returns (r: Result<(), StoreError>)
      requires Valid() && |View().nodes| <= NameTable.EMPTY
      modifies this, store, store.device
      ensures Valid() && (overlay == old(overlay) || fresh(overlay))
      ensures r == Err(Poisoned) <==> old(store.poisoned)
      ensures r.Err? ==> r.error == Poisoned || (r.error == Io && store.device.faults > old(store.device.faults))
      ensures SameGraph(old(View()), View())
      ensures store.seqNo == old(store.seqNo) && store.epoch == old(store.epoch) && store.View() == old(store.View())
      ensures r.Ok? && !EmptyDelta(old(store.delta)) ==> overlay.Model() == DeltaModel.EMPTY
    {
      var worth := !EmptyDelta(store.delta);
      r := Shrink();
      MadeByNone();
      if r.Ok? && worth {
        Take(overlay, true, View());
      }
    }
  }
}
