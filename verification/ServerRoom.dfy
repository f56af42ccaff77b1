/**
 The room object (apps/server/src/room.ts). Its sequence number, log, coverage floor and sockets are updated in
 place, and it owns a replica object; every method is proved to compute the corresponding function of Rooms.dfy on
 the abstract state of the room.
 */
module ServerRoom {
  import opened Ids
  import opened Ops
  import opened Document
  import opened Edits
  import opened Batches
  import opened Replica
  import opened Rooms
  import opened Wire

  /** A connection: its identity, whether it is open, and what was written to it. */
  datatype Socket = Socket(id: nat, open: bool, sent: seq<ServerMessage>)

  type Sockets = map<string, Socket>

  function Deliver(socket: Socket, message: ServerMessage): Socket {
    if socket.open then socket.(sent := socket.sent + [message]) else socket
  }

  function SentTo(sockets: Sockets, replicaId: string, message: ServerMessage): Sockets {
    if replicaId in sockets then sockets[replicaId := Deliver(sockets[replicaId], message)] else sockets
  }

  function SentToAll(sockets: Sockets, message: ServerMessage, sender: Option<string>): Sockets {
    map r | r in sockets :: if Some(r) == sender then sockets[r] else Deliver(sockets[r], message)
  }

  /** The open socket of another connection that `socket` takes over from, closed. */
  function Replaced(sockets: Sockets, replicaId: string, socket: Socket): Option<Socket> {
    if replicaId in sockets && sockets[replicaId].id != socket.id && sockets[replicaId].open
    then Some(sockets[replicaId].(open := false))
    else None
  }

  class Room {
    const rga: Rga
    var sockets: Sockets
    var seqNo: nat
    var opsSinceSnapshot: nat
    var opLog: seq<Batch>
    var coverageFloor: nat

    ghost function Repr(): set<object>
      reads this, rga
    {
      {this} + rga.Repr()
    }

    ghost predicate Valid()
      reads this, rga, rga.Repr()
    {
      this !in rga.Repr() && rga.Valid()
    }

    ghost function State(): RoomState
      reads this, rga
    {
      RoomState(rga.doc, seqNo, opsSinceSnapshot, opLog, coverageFloor)
    }

    constructor (rga: Rga)
      requires rga.Valid()
      ensures Valid() && this.rga == rga && State() == NEW_ROOM.(doc := rga.doc) && sockets == map[]
      ensures fresh(this)
    {
      this.rga := rga;
      sockets, seqNo, opsSinceSnapshot, opLog, coverageFloor := map[], 0, 0, [], 0;
    }

    /** Rebuilds a room from a persisted snapshot and the batches that came with it. */
    static method Hydrate(replicaId: string, snapshot: seq<SnapshotNode>, snapshotSeq: nat, batches: seq<Batch>,
                          latestSeq: nat)
      returns (room: Room)
      requires Sound(Document.FromSnapshot(snapshot))
      ensures fresh(room.Repr()) && room.Valid() && room.sockets == map[]
      ensures var doc := Document.ApplyAll(Document.FromSnapshot(snapshot), Flatten(batches));
        room.State() == RoomState(doc, latestSeq, |Flatten(batches)|, batches, snapshotSeq)
    {
      var rga := RestoreReplica(snapshot, replicaId);
      room := new Room(rga);
      var ops := FlattenAll(batches);
      room.Replay(ops, batches, snapshotSeq, latestSeq);
    }

    method Count(number: nat, count: nat, log: seq<Batch>, floor: nat)
      requires Valid()
      modifies this`seqNo, this`opsSinceSnapshot, this`opLog, this`coverageFloor
      ensures Valid() && State() == RoomState(rga.doc, number, count, log, floor)
    {
      seqNo, opsSinceSnapshot, opLog, coverageFloor := number, count, log, floor;
    }

    /** All ops on the document; the room's own fields stay. */
    method ApplyAll(ops: seq<Op>)
      requires Valid()
      modifies rga.Repr()
      ensures Valid() && fresh(rga.Repr() - old(rga.Repr()))
      ensures rga.doc == Document.ApplyAll(old(rga.doc), ops)
      ensures State() == old(State()).(doc := rga.doc) && sockets == old(sockets)
    {
      assert this !in rga.Repr();
      rga.ApplyAll(ops);
      assert this !in rga.Repr();
    }

    /** The second half of hydrate: the batches that follow the snapshot, and the numbers. */
    method Replay(ops: seq<Op>, batches: seq<Batch>, snapshotSeq: nat, latestSeq: nat)
      requires Valid()
      modifies Repr()
      ensures Valid() && fresh(Repr() - old(Repr())) && sockets == old(sockets)
      ensures State() == RoomState(Document.ApplyAll(old(rga.doc), ops), latestSeq, |ops|, batches, snapshotSeq)
    {
      ApplyAll(ops);
      Count(latestSeq, |ops|, batches, snapshotSeq);
    }

    method GetOpsSince(sinceSeq: int) returns (ops: Option<seq<Op>>)
      requires Valid()
      ensures ops == OpsSince(State(), sinceSeq)
    {
      if sinceSeq >= seqNo { return Some([]); }
      if sinceSeq < coverageFloor { return None; }
      var missed: seq<Op> := [];
      assert opLog[0..] == opLog;
      for i := 0 to |opLog|
        invariant missed + Flatten(Batches.After(opLog[i..], sinceSeq)) == Flatten(Batches.After(opLog, sinceSeq))
      {
        AfterHead(opLog, i, sinceSeq, missed);
        if opLog[i].seqNo > sinceSeq { missed := missed + opLog[i].ops; }
      }
      assert opLog[|opLog|..] == [] && missed + [] == missed;
      return Some(missed);
    }

    /** Registers the socket of a replica; the one that it replaces is handed back. */
    method Join(replicaId: string, socket: Socket) returns (previous: Option<Socket>)
      requires Valid()
      modifies this`sockets
      ensures Valid() && State() == old(State()) && Repr() == old(Repr())
      ensures sockets == old(sockets)[replicaId := socket]
      ensures previous == if replicaId in old(sockets) then Some(old(sockets)[replicaId]) else None
    {
      previous := if replicaId in sockets then Some(sockets[replicaId]) else None;
      sockets := sockets[replicaId := socket];
    }

    /** A replaced socket that closes late does not evict the one that took over. */
    method Leave(replicaId: string, socket: Option<nat>)
      modifies this`sockets
      ensures sockets == if socket.Some? && (replicaId !in old(sockets) || old(sockets)[replicaId].id != socket.value)
        then old(sockets) else old(sockets) - {replicaId}
    {
      if socket.Some? && (replicaId !in sockets || sockets[replicaId].id != socket.value) { return; }
      sockets := sockets - {replicaId};
    }

    method Snapshot() returns (state: seq<SnapshotNode>)
      requires Valid()
      ensures (forall x :: x in rga.doc.order ==> x in rga.doc.cells) && state == ToSnapshot(rga.doc)
    {
      ListElements(rga.doc);
      state := rga.ToSnapshot();
    }

    /** The answer to a join: the missing ops or, if memory does not reach back, the whole document. */
    method Answer(sinceSeq: int) returns (reply: ServerMessage)
      requires Valid()
      ensures reply == ReplyTo(State(), sinceSeq)
    {
      var incremental := GetOpsSince(sinceSeq);
      if incremental.Some? {
        reply := SyncMessage(seqNo, incremental.value);
      } else {
        var state := Snapshot();
        reply := SnapshotMessage(seqNo, state);
      }
    }

    /** Registration and answer in one step; the socket of an older connection of the replica is closed. */
    method Admit(replicaId: string, socket: Socket, sinceSeq: int)
      returns (reply: ServerMessage, closed: Option<Socket>)
      requires Valid()
      modifies this`sockets
      ensures Valid() && State() == old(State()) && Repr() == old(Repr())
      ensures sockets == old(sockets)[replicaId := socket] && reply == ReplyTo(State(), sinceSeq)
      ensures closed == Replaced(old(sockets), replicaId, socket)
      ensures closed.Some? <==>
        replicaId in old(sockets) && old(sockets)[replicaId].id != socket.id && old(sockets)[replicaId].open
      ensures closed.Some? ==> closed.value == old(sockets)[replicaId].(open := false)
    {
      var previous := Join(replicaId, socket);
      closed := None;
      if previous.Some? && previous.value.id != socket.id && previous.value.open {
        closed := Some(previous.value.(open := false));
      }
      reply := Answer(sinceSeq);
    }

    method ApplyOps(ops: seq<Op>, seqNo: nat)
      requires Valid()
      modifies Repr()
      ensures Valid() && fresh(Repr() - old(Repr())) && sockets == old(sockets)
      ensures State() == RoomState(Document.ApplyAll(old(rga.doc), ops), seqNo, old(opsSinceSnapshot) + |ops|,
                                   old(opLog) + [Batch(seqNo, ops)], old(coverageFloor))
    {
      ApplyAll(ops);
      Count(seqNo, opsSinceSnapshot + |ops|, opLog + [Batch(seqNo, ops)], coverageFloor);
    }

    method AdvanceCoverageFloor(atSeq: nat)
      requires Valid()
      modifies this`seqNo, this`coverageFloor, this`opLog, this`opsSinceSnapshot
      ensures Valid() && State() == RoomState(old(rga.doc), old(seqNo), 0, Batches.After(old(opLog), atSeq), atSeq)
    {
      Count(seqNo, 0, Batches.After(opLog, atSeq), atSeq);
    }

    method CompactTombstones()
      requires Valid()
      modifies rga.Repr()
      ensures Valid() && Repr() == old(Repr()) && State() == old(State()).(doc := Compact(old(rga.doc)))
      ensures forall x :: x in rga.doc.cells && rga.doc.cells[x].tombstone ==>
        x in old(rga.doc).cells && rga.doc.cells[x] == Cell(old(rga.doc).cells[x].origin, None, true, {}, map[])
    {
      rga.CompactTombstones();
    }

    method SendTo(replicaId: string, message: ServerMessage)
      requires Valid()
      modifies this`sockets
      ensures Valid() && State() == old(State()) && Repr() == old(Repr())
      ensures sockets == SentTo(old(sockets), replicaId, message)
      ensures sockets.Keys == old(sockets).Keys
      ensures forall r :: r in sockets ==>
        && sockets[r].id == old(sockets)[r].id && sockets[r].open == old(sockets)[r].open
        && sockets[r].sent == old(sockets)[r].sent +
             (if sockets[r].open && r == replicaId then [message] else [])
    {
      if replicaId !in sockets || !sockets[replicaId].open { return; }
      sockets := sockets[replicaId := sockets[replicaId].(sent := sockets[replicaId].sent + [message])];
    }

    /** To every open socket but the sender's. */
    method Broadcast(message: ServerMessage, sender: Option<string>)
      requires Valid()
      modifies this`sockets
      ensures Valid() && State() == old(State()) && Repr() == old(Repr())
      ensures sockets == SentToAll(old(sockets), message, sender)
      ensures sockets.Keys == old(sockets).Keys
      ensures forall r :: r in sockets ==>
        && sockets[r].id == old(sockets)[r].id && sockets[r].open == old(sockets)[r].open
        && sockets[r].sent == old(sockets)[r].sent +
             (if sockets[r].open && Some(r) != sender then [message] else [])
    {
      var left := sockets.Keys;
      while left != {}
        invariant left <= sockets.Keys == old(sockets).Keys
        invariant forall r :: r in sockets ==>
          sockets[r] == if r in left then old(sockets)[r] else SentToAll(old(sockets), message, sender)[r]
      {
        var r :| r in left;
        left := left - {r};
        if Some(r) != sender && sockets[r].open {
          sockets := sockets[r := sockets[r].(sent := sockets[r].sent + [message])];
        }
      }
    }
  }

  method RestoreReplica(snapshot: seq<SnapshotNode>, replicaId: string) returns (rga: Rga)
    requires Sound(Document.FromSnapshot(snapshot))
    ensures rga.Valid() && fresh(rga.Repr()) && rga.replicaId == replicaId && rga.doc == Document.FromSnapshot(snapshot)
  {
    if snapshot != [] {
      ListElements(Document.FromSnapshot(snapshot));
      DistinctOrderHasDistinctNodes(snapshot);
      rga := new Rga.FromSnapshot(snapshot, replicaId);
    } else {
      rga := new Rga(replicaId);
    }
  }

  method FlattenAll(batches: seq<Batch>) returns (ops: seq<Op>)
    ensures ops == Flatten(batches)
  {
    ops := [];
    for i := 0 to |batches|
      invariant ops + Flatten(batches[i..]) == Flatten(batches)
    {
      assert batches[i..][1..] == batches[i + 1..];
      ops := ops + batches[i].ops;
    }
  }

  lemma {:induction false} AfterHead(batches: seq<Batch>, i: nat, s: int, front: seq<Op>)
    requires i < |batches|
    ensures front + Flatten(Batches.After(batches[i..], s)) ==
      (if batches[i].seqNo > s then front + batches[i].ops else front) + Flatten(Batches.After(batches[i + 1..], s))
  {
  }
}
