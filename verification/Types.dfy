/** Value types shared by every layer of the store (src/types.rs, src/delta.rs). */
module Types {

  datatype Option<+T> = None | Some(value: T)

  datatype Result<+T, +E> = Ok(value: T) | Err(error: E)

  /**
   Always true. `forall i {:trigger Sealed(i)} :: Sealed(i) ==> P` says P, as a fact
   that is carried around unopened until some Sealed(i) is mentioned.
   */
  predicate Sealed(i: int) { true }

  function Max(a: int, b: int): int { if a >= b then a else b }

  function Min(a: int, b: int): int { if a <= b then a else b }

  /** A graph node. Weights are exact reals. */
  datatype NodeData = NodeData(
    name: string,
    kind: string,
    metadata: map<string, string>,
    baseWeight: real,
    noisePenalty: real,
    pagerankWeight: real)

  /** The data carried by one directed edge. */
  datatype EdgeData = EdgeData(
    kind: string,
    fieldName: Option<string>,
    baseWeight: real,
    validFrom: Option<nat>,
    validTo: Option<nat>,
    acl: seq<string>)

  /** One mutation of the graph, and the unit stored in a WAL record. */
  datatype Op =
    | UpsertNode(nd: NodeData)
    | RemoveNode(name: string)
    | AddEdge(from: string, to: string, edge: EdgeData)
    | RemoveEdge(from: string, to: string, kind: string)

  /** The ops of one all-or-nothing `apply`. */
  type Batch = seq<Op>

  /** One durable batch together with its commit sequence number. */
  datatype WalRecord = WalRecord(seqNo: nat, ops: Batch)
}
