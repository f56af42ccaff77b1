/** The messages of the protocol, but for presence (packages/protocol/src/messages.ts). */
module Wire {
  import opened Ids
  import opened Ops
  import opened Document

  datatype ServerMessage =
    | SyncMessage(seqNo: nat, ops: seq<Op>)
    | SnapshotMessage(seqNo: nat, state: seq<SnapshotNode>)
    | BroadcastMessage(seqNo: nat, ops: seq<Op>)
    | AckMessage(seqNo: nat, opIds: seq<OpId>)
    | ErrorMessage(code: string, text: string)

  datatype ClientMessage =
    | JoinMessage(replicaId: string, sinceSeq: nat)
    | OpMessage(ops: seq<Op>)

  function IdsOf(ops: seq<Op>): seq<OpId> {
    seq(|ops|, i requires 0 <= i < |ops| => OpIdOf(ops[i]))
  }
}
