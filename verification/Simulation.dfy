/**
 The handlers of the server as steps of the reconnect protocol: what a handler of one document leaves in the room, in
 the store and on the sockets is what steps of `Session` lead to (apps/server/src/roomManager.ts,
 apps/server/src/room.ts).
 */
module Simulation {
  import opened Ids
  import opened Ops
  import opened Document
  import opened Edits
  import opened Batches
  import opened Rooms
  import opened ServerRoom
  import opened Stores
  import ServerProcess
  import opened Wire
  import opened Session
  import opened Reconnect
  import opened RoomManagement
  import opened Progress

  /** The last messages that were written to a socket. */
  predicate EndsWith(sent: seq<ServerMessage>, last: seq<ServerMessage>) {
    |last| <= |sent| && sent[|sent| - |last|..] == last
  }

  /** A client is joined iff it has an open socket in the room, and has yet to read the last messages written to it. */
  ghost predicate Wired(p: Peer, r: string, sockets: Sockets) {
    if r in sockets && sockets[r].open then p.conn.Joined? && EndsWith(sockets[r].sent, p.inbox) else !p.conn.Joined?
  }

  ghost predicate AllWired(peers: map<string, Peer>, sockets: Sockets) {
    forall r :: r in peers ==> Wired(peers[r], r, sockets)
  }

  /** A room, what its store holds and its sockets are those of the server of the net. */
  ghost predicate Hosts(n: Net, room: RoomState, stored: StoredDoc, sockets: Sockets) {
    && n.server.kind.InMemory? && n.server.room == room && n.server.store == stored && AllWired(n.peers, sockets)
  }

  // Sockets and inboxes

  lemma {:induction false} StillEndsWith(sent: seq<ServerMessage>, last: seq<ServerMessage>, m: ServerMessage)
    requires EndsWith(sent, last)
    ensures EndsWith(sent + [m], last + [m])
  {
    assert (sent + [m])[|sent + [m]| - |last + [m]|..] == sent[|sent| - |last|..] + [m];
  }

  lemma {:induction false} ToldIsBroadcast(peers: map<string, Peer>, sockets: Sockets, sender: string, b: Batch)
    requires AllWired(peers, sockets)
    ensures AllWired(AllTold(peers, sender, b), SentToAll(sockets, BroadcastMessage(b.seqNo, b.ops), Some(sender)))
  {
    forall r | r in peers && r in sockets && sockets[r].open
      ensures EndsWith(sockets[r].sent + [BroadcastMessage(b.seqNo, b.ops)],
                       peers[r].inbox + [BroadcastMessage(b.seqNo, b.ops)])
    {
      assert Wired(peers[r], r, sockets);
      StillEndsWith(sockets[r].sent, peers[r].inbox, BroadcastMessage(b.seqNo, b.ops));
    }
    forall r | r in peers
      ensures Wired(AllTold(peers, sender, b)[r], r,
                    SentToAll(sockets, BroadcastMessage(b.seqNo, b.ops), Some(sender)))
    {
      assert Wired(peers[r], r, sockets);
    }
  }

  lemma {:induction false} SentIsReceived(peers: map<string, Peer>, sockets: Sockets, r: string, m: ServerMessage)
    requires AllWired(peers, sockets) && r in peers && peers[r].conn.Joined?
    ensures AllWired(peers[r := peers[r].(inbox := peers[r].inbox + [m])], SentTo(sockets, r, m))
  {
    assert Wired(peers[r], r, sockets);
    StillEndsWith(sockets[r].sent, peers[r].inbox, m);
    forall q | q in peers ensures Wired(peers[q], q, sockets) {
    }
  }

  /** Nothing is written to a client that is not joined. */
  lemma {:induction false} NotSent(peers: map<string, Peer>, sockets: Sockets, r: string, m: ServerMessage)
    requires AllWired(peers, sockets) && r in peers && !peers[r].conn.Joined?
    ensures SentTo(sockets, r, m) == sockets
  {
    assert Wired(peers[r], r, sockets);
    if r in sockets { assert sockets[r := sockets[r]] == sockets; }
  }

  // A batch

  /** What `applyClientOp` is in the protocol, once the batch has its number. */
  function BatchSteps(n: Net, sender: string, ops: seq<Op>, persists: bool): seq<Action>
    requires sender in n.peers
  {
    var b := NextBatch(n, ops);
    [Apply(sender, ops)] + (if persists then [Serve(ServerProcess.Persist(b))] else [])
      + (if !n.peers[sender].conn.Joined? then []
         else if persists then [Acknowledge(sender, |n.fed|)]
         else [Refuse(sender, NOT_STORED.code, NOT_STORED.text)])
  }

  lemma {:induction false} AppliedIsHosted(n: Net, room: RoomState, stored: StoredDoc, sockets: Sockets,
                                           sender: string, ops: seq<Op>) returns (m: Net)
    requires Inv(n) && Hosts(n, room, stored, sockets) && sender in n.peers && (sender, ops) in n.sent
    ensures Enabled(n, Apply(sender, ops)) && m == Next(n, Apply(sender, ops)) && Inv(m)
    ensures Hosts(m, Feed(room, ops, |n.fed| + 1), stored,
                  SentToAll(sockets, BroadcastMessage(|n.fed| + 1, ops), Some(sender)))
    ensures m.fed == n.fed + [NextBatch(n, ops)] && m.senders == n.senders + [sender]
    ensures sender in m.peers && m.peers[sender] == n.peers[sender] && NextBatch(n, ops) in m.server.flying
  {
    m := IsNumbered(n, sender, ops);
    ToldIsBroadcast(n.peers, sockets, sender, NextBatch(n, ops));
  }

  lemma {:induction false} PersistedIsHosted(n: Net, room: RoomState, stored: StoredDoc, sockets: Sockets, b: Batch)
    returns (m: Net)
    requires Inv(n) && Hosts(n, room, stored, sockets) && b in n.server.flying
    ensures Enabled(n, Serve(ServerProcess.Persist(b))) && m == Next(n, Serve(ServerProcess.Persist(b))) && Inv(m)
    ensures Hosts(m, room, Appended(stored, b.seqNo, b.ops), sockets)
    ensures m.fed == n.fed && m.senders == n.senders && m.peers == n.peers && b in m.server.saved
  {
    m := IsPersisted(n, b);
  }

  lemma {:induction false} AckIsHosted(n: Net, room: RoomState, stored: StoredDoc, sockets: Sockets, sender: string,
                                       i: nat)
    returns (m: Net)
    requires Inv(n) && Hosts(n, room, stored, sockets) && Enabled(n, Acknowledge(sender, i))
    ensures m == Next(n, Acknowledge(sender, i)) && Inv(m) && m.fed == n.fed
    ensures Hosts(m, room, stored, SentTo(sockets, sender, AckMessage(n.fed[i].seqNo, IdsOf(n.fed[i].ops))))
  {
    m := Next(n, Acknowledge(sender, i));
    NextInv(n, Acknowledge(sender, i));
    SentIsReceived(n.peers, sockets, sender, AckMessage(n.fed[i].seqNo, IdsOf(n.fed[i].ops)));
  }

  /** An error, of a client that is joined. */
  function Refusal(n: Net, r: string, m: ServerMessage): seq<Action>
    requires r in n.peers && m.ErrorMessage?
  {
    if n.peers[r].conn.Joined? then [Refuse(r, m.code, m.text)] else []
  }

  /** What a client is told when its batch got no number, or could not be stored, is an error of the protocol. */
  lemma {:induction false} ErrorIsSession(n: Net, room: RoomState, stored: StoredDoc, sockets: Sockets, r: string,
                                          error: ServerMessage) returns (m: Net)
    requires Inv(n) && Hosts(n, room, stored, sockets) && r in n.peers && error.ErrorMessage?
    ensures Reaches(n, Refusal(n, r, error), m) && Inv(m) && m.fed == n.fed
    ensures Hosts(m, room, stored, SentTo(sockets, r, error))
  {
    if n.peers[r].conn.Joined? {
      var refuse := Refuse(r, error.code, error.text);
      m := Next(n, refuse);
      NextInv(n, refuse);
      ReachesOne(n, refuse);
      SentIsReceived(n.peers, sockets, r, error);
    } else {
      m := n;
      NotSent(n.peers, sockets, r, error);
    }
  }

  /** The sender is acknowledged, if it is still there. */
  lemma {:induction false} AckIsSession(n: Net, room: RoomState, stored: StoredDoc, sockets: Sockets, sender: string,
                                        i: nat)
    returns (m: Net)
    requires Inv(n) && Hosts(n, room, stored, sockets) && sender in n.peers
    requires i < |n.fed| == |n.senders| && n.senders[i] == sender && n.fed[i] in n.server.saved
    ensures Reaches(n, if n.peers[sender].conn.Joined? then [Acknowledge(sender, i)] else [], m)
    ensures Inv(m) && m.fed == n.fed
    ensures Hosts(m, room, stored, SentTo(sockets, sender, AckMessage(n.fed[i].seqNo, IdsOf(n.fed[i].ops))))
  {
    if n.peers[sender].conn.Joined? {
      m := AckIsHosted(n, room, stored, sockets, sender, i);
      ReachesOne(n, Acknowledge(sender, i));
    } else {
      m := n;
      NotSent(n.peers, sockets, sender, AckMessage(n.fed[i].seqNo, IdsOf(n.fed[i].ops)));
    }
  }

  /** What everyone else is told of a batch. */
  function ToldOf(sockets: Sockets, sender: string, b: Batch): Sockets {
    SentToAll(sockets, BroadcastMessage(b.seqNo, b.ops), Some(sender))
  }

  lemma {:induction false} ApplyingIsSession(n: Net, room: RoomState, stored: StoredDoc, sockets: Sockets,
                                             sender: string, ops: seq<Op>) returns (m: Net)
    requires Inv(n) && Hosts(n, room, stored, sockets) && sender in n.peers && (sender, ops) in n.sent
    ensures Reaches(n, [Apply(sender, ops)], m) && Inv(m)
    ensures m.fed == n.fed + [NextBatch(n, ops)] && m.senders == n.senders + [sender]
    ensures Hosts(m, Feed(room, ops, |n.fed| + 1), stored, ToldOf(sockets, sender, NextBatch(n, ops)))
    ensures sender in m.peers && m.peers[sender] == n.peers[sender] && NextBatch(n, ops) in m.server.flying
  {
    m := AppliedIsHosted(n, room, stored, sockets, sender, ops);
    ReachesOne(n, Apply(sender, ops));
  }

  lemma {:induction false} PersistingIsSession(n: Net, room: RoomState, stored: StoredDoc, sockets: Sockets, b: Batch)
    returns (m: Net)
    requires Inv(n) && Hosts(n, room, stored, sockets) && b in n.server.flying
    ensures Reaches(n, [Serve(ServerProcess.Persist(b))], m) && Inv(m)
    ensures Hosts(m, room, Appended(stored, b.seqNo, b.ops), sockets)
    ensures m.fed == n.fed && m.senders == n.senders && m.peers == n.peers && b in m.server.saved
  {
    m := PersistedIsHosted(n, room, stored, sockets, b);
    ReachesOne(n, Serve(ServerProcess.Persist(b)));
  }

  lemma {:induction false} StoringIsSession(n: Net, room: RoomState, stored: StoredDoc, sockets: Sockets,
                                            sender: string, ops: seq<Op>) returns (m: Net)
    requires Inv(n) && Hosts(n, room, stored, sockets) && sender in n.peers && (sender, ops) in n.sent
    ensures var b := NextBatch(n, ops);
      && Reaches(n, [Apply(sender, ops)] + [Serve(ServerProcess.Persist(b))], m) && Inv(m)
      && Hosts(m, Feed(room, ops, b.seqNo), Appended(stored, b.seqNo, ops), ToldOf(sockets, sender, b))
      && m.fed == n.fed + [b] && m.senders == n.senders + [sender] && b in m.server.saved
    ensures sender in m.peers && m.peers[sender] == n.peers[sender]
  {
    var b := NextBatch(n, ops);
    var applied := ApplyingIsSession(n, room, stored, sockets, sender, ops);
    m := PersistingIsSession(applied, Feed(room, ops, b.seqNo), stored, ToldOf(sockets, sender, b), b);
    ReachesTogether(n, [Apply(sender, ops)], applied, [Serve(ServerProcess.Persist(b))], m);
  }

  /** A batch that is stored. */
  lemma {:induction false} StoredBatchIsSession(n: Net, room: RoomState, stored: StoredDoc, sockets: Sockets,
                                                sender: string, ops: seq<Op>) returns (m: Net)
    requires Inv(n) && Hosts(n, room, stored, sockets) && sender in n.peers && (sender, ops) in n.sent
    ensures Reaches(n, BatchSteps(n, sender, ops, true), m) && Inv(m) && |m.fed| == |n.fed| + 1
    ensures var seqNo := |n.fed| + 1;
      Hosts(m, Feed(room, ops, seqNo), Appended(stored, seqNo, ops), Informed(sockets, sender, ops, seqNo, true))
  {
    var b := NextBatch(n, ops);
    var saved := StoringIsSession(n, room, stored, sockets, sender, ops);
    m := AckIsSession(saved, Feed(room, ops, b.seqNo), Appended(stored, b.seqNo, ops), ToldOf(sockets, sender, b),
                      sender, |n.fed|);
    ReachesTogether(n, [Apply(sender, ops)] + [Serve(ServerProcess.Persist(b))], saved,
                    if n.peers[sender].conn.Joined? then [Acknowledge(sender, |n.fed|)] else [], m);
  }

  /** A batch that could not be stored. */
  lemma {:induction false} LostBatchIsSession(n: Net, room: RoomState, stored: StoredDoc, sockets: Sockets,
                                              sender: string, ops: seq<Op>) returns (m: Net)
    requires Inv(n) && Hosts(n, room, stored, sockets) && sender in n.peers && (sender, ops) in n.sent
    ensures Reaches(n, BatchSteps(n, sender, ops, false), m) && Inv(m) && |m.fed| == |n.fed| + 1
    ensures var seqNo := |n.fed| + 1;
      Hosts(m, Feed(room, ops, seqNo), stored, Informed(sockets, sender, ops, seqNo, false))
  {
    var b := NextBatch(n, ops);
    var applied := ApplyingIsSession(n, room, stored, sockets, sender, ops);
    m := ErrorIsSession(applied, Feed(room, ops, b.seqNo), stored, ToldOf(sockets, sender, b), sender, NOT_STORED);
    ReachesTogether(n, [Apply(sender, ops)], applied, Refusal(applied, sender, NOT_STORED), m);
    assert [Apply(sender, ops)] + [] == [Apply(sender, ops)];
  }

  /**
   A batch that a client sent and that got the next number: room, store and sockets are then those of the net after it
   was applied, stored if the store answered, and acknowledged only then.
   */
  lemma {:induction false} BatchIsSession(n: Net, room: RoomState, docs: Docs, docId: string, sockets: Sockets,
                                          sender: string, ops: seq<Op>, persists: bool) returns (m: Net)
    requires Inv(n) && Hosts(n, room, StoredUnder(docs, docId), sockets) && sender in n.peers && (sender, ops) in n.sent
    ensures Reaches(n, BatchSteps(n, sender, ops, persists), m) && Inv(m) && |m.fed| == |n.fed| + 1
    ensures var seqNo := |n.fed| + 1;
      Hosts(m, Feed(room, ops, seqNo), StoredUnder(Kept(docs, docId, ops, seqNo, persists), docId),
            Informed(sockets, sender, ops, seqNo, persists))
  {
    if persists {
      m := StoredBatchIsSession(n, room, StoredUnder(docs, docId), sockets, sender, ops);
    } else {
      m := LostBatchIsSession(n, room, StoredUnder(docs, docId), sockets, sender, ops);
    }
  }

  // Joining and leaving

  /** A connection that joins is registered, and the reply is the first message written to it. */
  lemma {:induction false} JoinIsSession(n: Net, room: RoomState, stored: StoredDoc, sockets: Sockets, r: string,
                                         socket: Socket) returns (m: Net)
    requires Inv(n) && Hosts(n, room, stored, sockets) && r in n.peers && n.peers[r].conn.Opening? && socket.open
    ensures Reaches(n, [Join(r)], m) && Inv(m) && m.fed == n.fed
    ensures Hosts(m, room, stored, SentTo(sockets[r := socket], r, ReplyTo(room, n.peers[r].c.lastAcked)))
  {
    var reply := ReplyTo(room, n.peers[r].c.lastAcked);
    m := Next(n, Join(r));
    NextInv(n, Join(r));
    ReachesOne(n, Join(r));
    WiredAnew(n.peers, sockets, r, socket, reply, m.peers[r]);
  }

  lemma {:induction false} WiredAnew(peers: map<string, Peer>, sockets: Sockets, r: string, socket: Socket,
                                     reply: ServerMessage, p: Peer)
    requires AllWired(peers, sockets) && r in peers && socket.open && p.conn.Joined? && p.inbox == [reply]
    ensures AllWired(peers[r := p], SentTo(sockets[r := socket], r, reply))
  {
    StillEndsWith(socket.sent, [], reply);
    assert [] + [reply] == [reply];
    forall q | q in peers && q != r ensures Wired(peers[q], q, sockets[r := socket]) {
      assert Wired(peers[q], q, sockets);
    }
  }

  /** A connection that is closed leaves the room. */
  lemma {:induction false} LeaveIsSession(n: Net, room: RoomState, stored: StoredDoc, sockets: Sockets, r: string)
    returns (m: Net)
    requires Inv(n) && Hosts(n, room, stored, sockets) && r in n.peers
    ensures Reaches(n, [Disconnect(r)], m) && Inv(m) && m.fed == n.fed
    ensures Hosts(m, room, stored, sockets - {r})
  {
    m := Next(n, Disconnect(r));
    NextInv(n, Disconnect(r));
    ReachesOne(n, Disconnect(r));
    forall q | q in m.peers ensures Wired(m.peers[q], q, sockets - {r}) {
      assert Wired(n.peers[q], q, sockets);
    }
  }

  // Snapshots

  lemma {:induction false} ServeIsSession(n: Net, step: ServerProcess.Action) returns (m: Net)
    requires Inv(n) && !step.Accept? && !step.Crash? && ServerProcess.Enabled(n.server, step)
    ensures Reaches(n, [Serve(step)], m) && Inv(m)
    ensures m == n.(server := ServerProcess.Next(n.server, step))
  {
    m := Next(n, Serve(step));
    NextInv(n, Serve(step));
    ReachesOne(n, Serve(step));
  }

  /** Taking a snapshot, after one that failed was given up. */
  lemma {:induction false} BeginIsSession(n: Net, room: RoomState, stored: StoredDoc, sockets: Sockets) returns (m: Net)
    requires Inv(n) && Hosts(n, room, stored, sockets)
    ensures Reaches(n, [Serve(ServerProcess.AbandonSnapshot)] + [Serve(ServerProcess.TakeSnapshot)], m)
    ensures Inv(m) && m.fed == n.fed && Hosts(m, CompactRoom(room), stored, sockets)
    ensures m.server.writing.Some? && m.server.writing.value.atSeq == room.seqNo
    ensures m.server.writing.value.state == SnapshotOf(Compact(room.doc))
  {
    var free := ServeIsSession(n, ServerProcess.AbandonSnapshot);
    m := ServeIsSession(free, ServerProcess.TakeSnapshot);
    ReachesTogether(n, [Serve(ServerProcess.AbandonSnapshot)], free, [Serve(ServerProcess.TakeSnapshot)], m);
  }

  /** Storing it and cutting the log. */
  lemma {:induction false} EndIsSession(n: Net, room: RoomState, docs: Docs, docId: string, sockets: Sockets,
                                        atSeq: nat,
                                        state: seq<SnapshotNode>) returns (m: Net)
    requires Inv(n) && Hosts(n, room, StoredUnder(docs, docId), sockets) && n.server.writing.Some?
    requires n.server.writing.value.atSeq == atSeq && n.server.writing.value.state == state
    ensures Reaches(n, [Serve(ServerProcess.StoreSnapshot)] + [Serve(ServerProcess.CutLog)], m)
    ensures Inv(m) && m.fed == n.fed
    ensures Hosts(m, RaiseFloor(room, atSeq), StoredUnder(Snapped(docs, docId, atSeq, state), docId), sockets)
  {
    var stored := ServeIsSession(n, ServerProcess.StoreSnapshot);
    m := ServeIsSession(stored, ServerProcess.CutLog);
    ReachesTogether(n, [Serve(ServerProcess.StoreSnapshot)], stored, [Serve(ServerProcess.CutLog)], m);
  }

  const SNAPSHOT_STEPS: seq<Action> :=
    [Serve(ServerProcess.AbandonSnapshot)] + [Serve(ServerProcess.TakeSnapshot)]
      + ([Serve(ServerProcess.StoreSnapshot)] + [Serve(ServerProcess.CutLog)])

  /** With nothing in between. */
  lemma {:induction false} SnapshotIsSession(n: Net, room: RoomState, docs: Docs, docId: string, sockets: Sockets)
    returns (m: Net)
    requires Inv(n) && Hosts(n, room, StoredUnder(docs, docId), sockets)
    ensures Reaches(n, SNAPSHOT_STEPS, m) && Inv(m) && m.fed == n.fed
    ensures Hosts(m, Tidied(room), StoredUnder(Snapped(docs, docId, room.seqNo, SnapshotOf(Compact(room.doc))), docId),
                  sockets)
  {
    var taken := BeginIsSession(n, room, StoredUnder(docs, docId), sockets);
    m := EndIsSession(taken, CompactRoom(room), docs, docId, sockets, room.seqNo, SnapshotOf(Compact(room.doc)));
    ReachesTogether(n, [Serve(ServerProcess.AbandonSnapshot)] + [Serve(ServerProcess.TakeSnapshot)], taken,
                    [Serve(ServerProcess.StoreSnapshot)] + [Serve(ServerProcess.CutLog)], m);
  }

  // A new process

  /** A room loaded by a process that has none is the room after a crash, whatever was there before. */
  lemma {:induction false} LoadIsSession(n: Net, stored: StoredDoc, room: RoomState) returns (loaded: Loaded, m: Net)
    requires Inv(n) && n.server.kind.InMemory? && n.server.store == stored && FoundOrLoaded(None, stored, room)
    ensures Reaches(n, [Serve(ServerProcess.Crash(loaded))], m) && Inv(m) && |m.fed| == |n.fed|
    ensures Hosts(m, room, stored, map[])
  {
    loaded :| IsLoaded(stored, loaded)
      && room == Hydrated(loaded.snapshot, loaded.snapshotSeq, loaded.batches, loaded.latestSeq);
    m := Next(n, Serve(ServerProcess.Crash(loaded)));
    CrashIsHosted(n, loaded);
    CrashStepInv(n, loaded);
    ReachesOne(n, Serve(ServerProcess.Crash(loaded)));
  }

  lemma {:induction false} CrashIsHosted(n: Net, loaded: Loaded)
    requires n.server.kind.InMemory? && IsLoaded(n.server.store, loaded)
    ensures Enabled(n, Serve(ServerProcess.Crash(loaded)))
    ensures var m := Next(n, Serve(ServerProcess.Crash(loaded)));
      |m.fed| == |n.fed| && Hosts(m, ServerProcess.Rebuilt(loaded), n.server.store, map[])
  {
    CrashNet(n, loaded);
    forall r | r in n.peers ensures Wired(AllCut(n.peers)[r], r, map[]) {
    }
  }

  // The object

  /** The process has the room of the document, and its counter is that of the batches in the net. */
  ghost predicate Serving(n: Net, manager: RoomManager)
    reads manager, manager.persistenceStore, manager.seqAllocator
    reads manager.room, if manager.room != null then {manager.room.rga} else {}
    reads if manager.room != null then manager.room.rga.Repr() else {}
  {
    && manager.Valid() && manager.room != null && Inv(n) && manager.seqAllocator.Current(manager.docId) == |n.fed|
    && Hosts(n, manager.room.State(), StoredUnder(manager.persistenceStore.docs, manager.docId), manager.room.sockets)
  }

  /** What `applyClientOp` is in the protocol. */
  function OpSteps(n: Net, sender: string, ops: seq<Op>, allocates: bool, persists: bool): seq<Action>
    requires sender in n.peers
  {
    if allocates then BatchSteps(n, sender, ops, persists) else Refusal(n, sender, NOT_NUMBERED)
  }

  method NumberAndApply(manager: RoomManager, sender: string, ops: seq<Op>, allocates: bool, publishes: bool,
                        persists: bool)
    requires manager.Valid() && manager.room != null
    modifies manager.Repr(), manager.seqAllocator, manager.pubSubBus.broker`calls, manager.persistenceStore
    ensures manager.Valid() && manager.room == old(manager.room)
    ensures var seqNo := manager.seqAllocator.Current(manager.docId);
      && seqNo == old(manager.seqAllocator.Current(manager.docId)) + (if allocates then 1 else 0)
      && manager.room.State()
         == (if allocates then Feed(old(manager.room.State()), ops, seqNo) else old(manager.room.State()))
      && manager.room.sockets
         == (if allocates then Informed(old(manager.room.sockets), sender, ops, seqNo, persists)
             else SentTo(old(manager.room.sockets), sender, NOT_NUMBERED))
      && manager.persistenceStore.docs
         == Kept(old(manager.persistenceStore.docs), manager.docId, ops, seqNo, allocates && persists)
  {
    var seqNo := manager.ApplyBatch(manager.room, sender, ops, allocates, publishes, persists);
  }

  method ServeOps(manager: RoomManager, sender: string, ops: seq<Op>, allocates: bool, publishes: bool, persists: bool,
                  ghost n: Net)
    returns (ghost m: Net)
    requires Serving(n, manager) && sender in n.peers && (sender, ops) in n.sent
    modifies manager.Repr(), manager.seqAllocator, manager.pubSubBus.broker`calls, manager.persistenceStore
    ensures Reaches(n, OpSteps(n, sender, ops, allocates, persists), m) && Serving(m, manager)
  {
    ghost var room, docs, sockets := manager.room.State(), manager.persistenceStore.docs, manager.room.sockets;
    NumberAndApply(manager, sender, ops, allocates, publishes, persists);
    if allocates {
      m := BatchIsSession(n, room, docs, manager.docId, sockets, sender, ops, persists);
    } else {
      m := ErrorIsSession(n, room, StoredUnder(docs, manager.docId), sockets, sender, NOT_NUMBERED);
    }
  }

  method SnapshotHere(manager: RoomManager)
    requires manager.Valid() && manager.room != null
    modifies manager.Repr(), manager.persistenceStore
    ensures manager.Valid() && manager.room == old(manager.room)
    ensures manager.room.State() == Tidied(old(manager.room.State()))
    ensures manager.room.sockets == old(manager.room.sockets)
    ensures manager.seqAllocator.counters == old(manager.seqAllocator.counters)
    ensures var room := old(manager.room.State());
      manager.persistenceStore.docs ==
        Snapped(old(manager.persistenceStore.docs), manager.docId, room.seqNo, SnapshotOf(Compact(room.doc)))
  {
    assert (manager.seqAllocator as object) !in manager.Repr();
    manager.SnapshotRoom();
  }

  method ServeSnapshot(manager: RoomManager, ghost n: Net) returns (ghost m: Net)
    requires Serving(n, manager)
    modifies manager.Repr(), manager.persistenceStore
    ensures Reaches(n, SNAPSHOT_STEPS, m) && Serving(m, manager)
  {
    ghost var room, docs, sockets := manager.room.State(), manager.persistenceStore.docs, manager.room.sockets;
    SnapshotHere(manager);
    m := SnapshotIsSession(n, room, docs, manager.docId, sockets);
  }

  /** `join`, and the reply that is then written to the socket. */
  method JoinAndReply(manager: RoomManager, r: string, socket: Socket, sinceSeq: nat)
    requires manager.Valid() && manager.room != null
    modifies manager`room, manager.pubSubBus, manager.pubSubBus.broker`subscribers, manager.room
    ensures manager.Valid() && manager.room == old(manager.room) && manager.room.State() == old(manager.room.State())
    ensures manager.room.sockets ==
      SentTo(old(manager.room.sockets)[r := socket], r, ReplyTo(old(manager.room.State()), sinceSeq))
    ensures manager.seqAllocator.counters == old(manager.seqAllocator.counters)
    ensures manager.persistenceStore.docs == old(manager.persistenceStore.docs)
  {
    var reply := JoinHere(manager, r, socket, sinceSeq);
    ReplyHere(manager, r, reply);
  }

  method JoinHere(manager: RoomManager, r: string, socket: Socket, sinceSeq: nat) returns (reply: ServerMessage)
    requires manager.Valid() && manager.room != null
    modifies manager`room, manager.pubSubBus, manager.pubSubBus.broker`subscribers, manager.room
    ensures manager.Valid() && manager.room == old(manager.room) && manager.room.State() == old(manager.room.State())
    ensures manager.room.sockets == old(manager.room.sockets)[r := socket]
    ensures reply == ReplyTo(old(manager.room.State()), sinceSeq)
    ensures manager.seqAllocator.counters == old(manager.seqAllocator.counters)
    ensures manager.persistenceStore.docs == old(manager.persistenceStore.docs)
  {
    var answer, closed := manager.Join(r, socket, sinceSeq, true, true, true);
    reply := answer.value;
  }

  method ReplyHere(manager: RoomManager, r: string, reply: ServerMessage)
    requires manager.Valid() && manager.room != null
    modifies manager.room`sockets
    ensures manager.Valid() && manager.room.State() == old(manager.room.State())
    ensures manager.room.sockets == SentTo(old(manager.room.sockets), r, reply)
  {
    manager.room.SendTo(r, reply);
  }

  /** What `join` is in the protocol, once the reply has been written to the socket (apps/server/src/server.ts). */
  method ServeJoin(manager: RoomManager, r: string, socket: Socket, sinceSeq: nat, ghost n: Net) returns (ghost m: Net)
    requires Serving(n, manager) && r in n.peers && n.peers[r].conn.Opening?
    requires socket.open && sinceSeq == n.peers[r].c.lastAcked
    modifies manager`room, manager.pubSubBus, manager.pubSubBus.broker`subscribers, manager.room
    ensures Reaches(n, [Join(r)], m) && Serving(m, manager)
  {
    ghost var room, docs, sockets := manager.room.State(), manager.persistenceStore.docs, manager.room.sockets;
    JoinAndReply(manager, r, socket, sinceSeq);
    m := JoinIsSession(n, room, StoredUnder(docs, manager.docId), sockets, r, socket);
  }

  method LeaveHere(manager: RoomManager, r: string, id: nat)
    requires manager.Valid() && manager.room != null
    modifies manager.room`sockets
    ensures manager.Valid() && manager.room.State() == old(manager.room.State())
    ensures manager.room.sockets == if r in old(manager.room.sockets) && old(manager.room.sockets)[r].id == id
      then old(manager.room.sockets) - {r} else old(manager.room.sockets)
  {
    manager.room.Leave(r, Some(id));
  }

  /** A connection that closes; one that was replaced before changes nothing. */
  method ServeLeave(manager: RoomManager, r: string, id: nat, ghost n: Net) returns (ghost m: Net)
    requires Serving(n, manager) && r in n.peers
    modifies manager.room`sockets
    ensures Serving(m, manager)
    ensures var leaves := r in old(manager.room.sockets) && old(manager.room.sockets)[r].id == id;
      Reaches(n, if leaves then [Disconnect(r)] else [], m)
  {
    ghost var room, docs, sockets := manager.room.State(), manager.persistenceStore.docs, manager.room.sockets;
    LeaveHere(manager, r, id);
    if r in sockets && sockets[r].id == id {
      m := LeaveIsSession(n, room, StoredUnder(docs, manager.docId), sockets, r);
    } else {
      m := n;
    }
  }

  /** A new process serves the document from what the store has. */
  method ServeStart(manager: RoomManager, ghost n: Net) returns (ghost loaded: Loaded, ghost m: Net)
    requires manager.Valid() && manager.room == null && Inv(n) && n.server.kind.InMemory?
    requires n.server.store == StoredUnder(manager.persistenceStore.docs, manager.docId)
    requires manager.seqAllocator.Current(manager.docId) == |n.fed|
    requires Sound(FromSnapshot(StoredState(n.server.store)))
    modifies manager`room, manager.pubSubBus, manager.pubSubBus.broker`subscribers
    ensures Reaches(n, [Serve(ServerProcess.Crash(loaded))], m) && Serving(m, manager)
  {
    var room := manager.GetOrCreateRoom(true, true, true);
    loaded, m := LoadIsSession(n, StoredUnder(manager.persistenceStore.docs, manager.docId), room.State());
  }
}
