/** The replicated log's entries and the cluster operations they carry. */
module RaftTypes {

  const TWO_64 := 0x1_0000_0000_0000_0000

  type U64 = x: int | 0 <= x < TWO_64

  /** A log position: the leader that proposed it (term and node) and its index. */
  datatype LogId = LogId(term: U64, node: U64, index: U64)

  datatype ClusterOperation =
    | AddNode(node: U64, addr: string)
    | RemoveNode(node: U64)
    | AddCollection(collection: nat, owners: seq<U64>)
    | RemoveCollection(collection: nat)
    | TransferLeadership(leader: U64)

  /** The voter configurations of a membership change. */
  type Membership = seq<set<U64>>

  datatype Payload = Normal(op: ClusterOperation) | Members(m: Membership) | Blank

  datatype Entry = Entry(logId: LogId, payload: Payload)
}
