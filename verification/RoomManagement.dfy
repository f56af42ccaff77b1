/**
 The server's handling of one document on one process (apps/server/src/roomManager.ts). A room is loaded on
 demand; whether the counter, the broker and the store answer is decided outside and comes in as parameters.
 */
module RoomManagement {
  import opened Ids
  import opened Ops
  import opened Keys
  import opened Document
  import opened Edits
  import opened Rooms
  import opened ServerRoom
  import opened Stores
  import opened PubSub
  import opened Wire

  function DocChannel(docId: string): string {
    "doc:" + docId
  }

  function PresenceChannel(docId: string): string {
    "presence:" + docId
  }

  /** No two documents share a channel, and batches and presence do not either. */
  lemma {:induction false} ChannelsAreApart(a: string, b: string)
    ensures DocChannel(a) != PresenceChannel(b)
    ensures DocChannel(a) == DocChannel(b) <==> a == b
    ensures PresenceChannel(a) == PresenceChannel(b) <==> a == b
  {
    assert DocChannel(a)[0] == 'd' && PresenceChannel(b)[0] == 'p';
    assert DocChannel(a)[|"doc:"|..] == a && DocChannel(b)[|"doc:"|..] == b;
    assert PresenceChannel(a)[|"presence:"|..] == a && PresenceChannel(b)[|"presence:"|..] == b;
  }

  /** What the sender of a batch is told when it got no number, and when it could not be stored. */
  const NOT_NUMBERED := ErrorMessage("SEQ_ALLOC_FAILED",
    "could not allocate a sequence number for your edit — it was not applied, please retry")
  const NOT_STORED := ErrorMessage("PERSIST_FAILED",
    "your edit was applied and shared, but could not be durably saved — it will be retried on reconnect")

  /** The room that a process finds or, if it has none, rebuilds from what the store holds. */
  ghost predicate FoundOrLoaded(found: Option<RoomState>, stored: StoredDoc, room: RoomState) {
    match found
    case Some(state) => room == state
    case None => exists r :: IsLoaded(stored, r) && room == Hydrated(r.snapshot, r.snapshotSeq, r.batches, r.latestSeq)
  }

  class RoomManager {
    const docId: string
    const processId: string
    /** The functions that this process subscribes to the document's channels. */
    const handler: nat
    const presenceHandler: nat
    const seqAllocator: InMemorySeqCounter
    const pubSubBus: InMemoryPubSubBus
    const persistenceStore: InMemoryPersistenceStore
    var room: Room?

    ghost function Repr(): set<object>
      reads this, room, if room != null then {room.rga} else {}
    {
      {this} + if room != null then room.Repr() else {}
    }

    ghost predicate Valid()
      reads this, room, if room != null then {room.rga} else {}, if room != null then room.rga.Repr() else {}
    {
      room != null ==> room.Valid()
    }

    /** The room in memory, if there is one. */
    ghost function Found(): Option<RoomState>
      reads this, room, if room != null then {room.rga} else {}
    {
      if room != null then Some(room.State()) else None
    }

    constructor (docId: string, processId: string, handler: nat, presenceHandler: nat, counter: InMemorySeqCounter,
                 bus: InMemoryPubSubBus, store: InMemoryPersistenceStore)
      ensures Valid() && room == null && fresh(this) && this.docId == docId && this.processId == processId
      ensures this.handler == handler && this.presenceHandler == presenceHandler
      ensures seqAllocator == counter && pubSubBus == bus && persistenceStore == store
    {
      this.docId, this.processId := docId, processId;
      this.handler, this.presenceHandler := handler, presenceHandler;
      seqAllocator, pubSubBus, persistenceStore, room := counter, bus, store, null;
    }

    /** A room rebuilt from what the store holds, not known to anyone yet. */
    method LoadedRoom() returns (r: Room)
      requires Sound(FromSnapshot(StoredState(persistenceStore.Doc(docId))))
      ensures r.Valid() && fresh(r.Repr()) && r.sockets == map[]
      ensures FoundOrLoaded(None, persistenceStore.Doc(docId), r.State())
    {
      var loaded := persistenceStore.Load(docId);
      r := Room.Hydrate("server:" + docId, loaded.snapshot, loaded.snapshotSeq, loaded.batches, loaded.latestSeq);
    }

    /** The handlers once this process has tried to subscribe to both channels, one after the other. */
    function Following(subscribers: Subscribers, subscribes: bool, subscribesPresence: bool): Subscribers {
      var once := Subscribed(subscribers, DocChannel(docId), handler);
      if !subscribes then subscribers
      else if !subscribesPresence then once
      else Subscribed(once, PresenceChannel(docId), presenceHandler)
    }

    method Follow(subscribes: bool, subscribesPresence: bool) returns (follows: bool)
      modifies pubSubBus, pubSubBus.broker`subscribers
      ensures follows == (subscribes && subscribesPresence)
      ensures pubSubBus.broker.subscribers ==
        Following(old(pubSubBus.broker.subscribers), subscribes, subscribesPresence)
      ensures subscribes ==> handler in pubSubBus.broker.Handlers(DocChannel(docId))
      ensures follows ==> presenceHandler in pubSubBus.broker.Handlers(PresenceChannel(docId))
      ensures forall c, h :: h in old(pubSubBus.broker.Handlers(c)) ==> h in pubSubBus.broker.Handlers(c)
      ensures forall c :: c != DocChannel(docId) && c != PresenceChannel(docId) ==>
        pubSubBus.broker.Handlers(c) == old(pubSubBus.broker.Handlers(c))
    {
      if !subscribes { return false; }
      pubSubBus.Subscribe(DocChannel(docId), handler);
      if !subscribesPresence { return false; }
      pubSubBus.Subscribe(PresenceChannel(docId), presenceHandler);
      return true;
    }

    /**
     When loading or subscribing fails there is no room. The first subscription is not taken back when the second
     fails; HandleRemoteOp then finds no room.
     */
    method GetOrCreateRoom(loads: bool, subscribes: bool, subscribesPresence: bool) returns (r: Room?)
      requires Valid() && (room == null ==> Sound(FromSnapshot(StoredState(persistenceStore.Doc(docId)))))
      modifies this`room, pubSubBus, pubSubBus.broker`subscribers
      ensures room == r && (old(room) != null ==> r == old(room))
      ensures r == null <==> old(room) == null && !(loads && subscribes && subscribesPresence)
      ensures old(room) == null && r != null ==>
        fresh(r.Repr()) && r.sockets == map[] && FoundOrLoaded(None, persistenceStore.Doc(docId), r.State())
      ensures Valid()
      ensures pubSubBus.broker.subscribers == if old(room) != null || !loads then old(pubSubBus.broker.subscribers)
        else Following(old(pubSubBus.broker.subscribers), subscribes, subscribesPresence)
    {
      if room != null || !loads { return room; }
      r := LoadedRoom();
      var follows := Follow(subscribes, subscribesPresence);
      if !follows { return null; }
      room := r;
    }

    /**
     Registers the socket; the answer is the missing ops or, if memory does not reach back, the whole document. The
     open socket of an older connection of the replica is closed.
     */
    method Join(replicaId: string, socket: Socket, sinceSeq: nat, loads: bool, subscribes: bool,
                subscribesPresence: bool)
      returns (reply: Option<ServerMessage>, closed: Option<Socket>)
      requires Valid() && (room == null ==> Sound(FromSnapshot(StoredState(persistenceStore.Doc(docId)))))
      modifies this`room, pubSubBus, pubSubBus.broker`subscribers, room
      ensures Valid() && (room == null <==> old(room) == null && !(loads && subscribes && subscribesPresence))
      ensures persistenceStore.docs == old(persistenceStore.docs)
      ensures seqAllocator.counters == old(seqAllocator.counters)
      ensures room == null ==> reply.None? && closed.None?
      ensures old(room) != null ==>
        room == old(room) && room.State() == old(room.State()) && reply == Some(ReplyTo(old(room.State()), sinceSeq))
      ensures room != null ==>
        && (old(room) != null ==> room == old(room))
        && FoundOrLoaded(old(Found()), persistenceStore.Doc(docId), room.State())
        && room.sockets == (if old(room) == null then map[] else old(room.sockets))[replicaId := socket]
        && reply == Some(ReplyTo(room.State(), sinceSeq))
        && closed == if old(room) == null then None else Replaced(old(room.sockets), replicaId, socket)
    {
      var r := GetOrCreateRoom(loads, subscribes, subscribesPresence);
      if r == null { return None, None; }
      var answer;
      answer, closed := r.Admit(replicaId, socket, sinceSeq);
      reply := Some(answer);
    }

    method StoreBatch(ops: seq<Op>, seqNo: nat, persists: bool, ghost r: Room)
      requires r.Valid()
      modifies persistenceStore
      ensures r.Valid() && r.State() == old(r.State()) && r.Repr() == old(r.Repr()) && r.sockets == old(r.sockets)
      ensures persistenceStore.docs == Kept(old(persistenceStore.docs), docId, ops, seqNo, persists)
    {
      if persists { persistenceStore.AppendOps(docId, seqNo, ops); }
    }

    /** To the other processes, and into the store; the room is not touched. */
    method PublishAndStore(ops: seq<Op>, seqNo: nat, publishes: bool, persists: bool, ghost r: Room)
      requires r.Valid()
      modifies pubSubBus.broker`calls, persistenceStore
      ensures r.Valid() && r.State() == old(r.State()) && r.Repr() == old(r.Repr()) && r.sockets == old(r.sockets)
      ensures persistenceStore.docs == Kept(old(persistenceStore.docs), docId, ops, seqNo, persists)
      ensures publishes ==>
        Called(old(pubSubBus.broker.calls), pubSubBus.broker.calls, pubSubBus.broker.Handlers(DocChannel(docId)),
               Message(processId, seqNo, ops))
      ensures !publishes ==> pubSubBus.broker.calls == old(pubSubBus.broker.calls)
    {
      if publishes { pubSubBus.Publish(DocChannel(docId), Message(processId, seqNo, ops)); }
      StoreBatch(ops, seqNo, persists, r);
    }

    /** Applied and broadcast first, published and stored next; the sender hears whether it was stored. */
    method ApplyNumbered(r: Room, sender: string, ops: seq<Op>, seqNo: nat, publishes: bool, persists: bool)
      requires r.Valid()
      modifies r.Repr(), pubSubBus.broker`calls, persistenceStore
      ensures r.Valid() && fresh(r.Repr() - old(r.Repr())) && room == old(room)
      ensures r.State() == Feed(old(r.State()), ops, seqNo)
      ensures r.sockets == Informed(old(r.sockets), sender, ops, seqNo, persists)
      ensures persistenceStore.docs == Kept(old(persistenceStore.docs), docId, ops, seqNo, persists)
      ensures publishes ==>
        Called(old(pubSubBus.broker.calls), pubSubBus.broker.calls, pubSubBus.broker.Handlers(DocChannel(docId)),
               Message(processId, seqNo, ops))
      ensures !publishes ==> pubSubBus.broker.calls == old(pubSubBus.broker.calls)
      ensures r.sockets.Keys == old(r.sockets).Keys
      ensures forall q :: q in r.sockets ==>
        var before, after := old(r.sockets)[q], r.sockets[q];
        && after.id == before.id && after.open == before.open
        && (!before.open ==> after.sent == before.sent)
        && (before.open && q != sender ==> after.sent == before.sent + [BroadcastMessage(seqNo, ops)])
        && (before.open && q == sender ==>
              && before.sent < after.sent && |after.sent| == |before.sent| + 1
              && var said := after.sent[|before.sent|];
                 if persists then said == AckMessage(seqNo, IdsOf(ops)) else said.ErrorMessage?)
      ensures persists ==>
        && persistenceStore.docs ==
             old(persistenceStore.docs)[docId := Appended(old(persistenceStore.Doc(docId)), seqNo, ops)]
        && forall op :: op in ops ==> OpIdKeyOf(op) in persistenceStore.Doc(docId).seenOpIds
      ensures !persists ==> persistenceStore.docs == old(persistenceStore.docs)
      ensures forall q, m ::
        q in r.sockets && m in r.sockets[q].sent && m !in old(r.sockets)[q].sent && m.AckMessage? ==>
        m.opIds == IdsOf(ops) && forall op :: op in ops ==> OpIdKeyOf(op) in persistenceStore.Doc(docId).seenOpIds
    {
      TakesAllKeys(persistenceStore.Doc(docId), seqNo, ops);
      InformedSays(r.sockets, sender, ops, seqNo, persists);
      Accept(r, Some(sender), ops, seqNo, this, persistenceStore, pubSubBus.broker);
      PublishAndStore(ops, seqNo, publishes, persists, r);
      r.SendTo(sender, if persists then AckMessage(seqNo, IdsOf(ops)) else NOT_STORED);
    }

    /** applyClientOp once the room is there; a batch that gets no number is not applied, as its sender is told. */
    method ApplyBatch(r: Room, sender: string, ops: seq<Op>, allocates: bool, publishes: bool, persists: bool)
      returns (seqNo: nat)
      requires r.Valid()
      modifies r.Repr(), seqAllocator, pubSubBus.broker`calls, persistenceStore
      ensures r.Valid() && fresh(r.Repr() - old(r.Repr())) && room == old(room)
      ensures allocates ==> seqNo == old(seqAllocator.Current(docId)) + 1 == seqAllocator.Current(docId)
      ensures !allocates ==> seqAllocator.counters == old(seqAllocator.counters)
      ensures r.State() == if allocates then Feed(old(r.State()), ops, seqNo) else old(r.State())
      ensures r.sockets == if allocates then Informed(old(r.sockets), sender, ops, seqNo, persists)
        else SentTo(old(r.sockets), sender, NOT_NUMBERED)
      ensures persistenceStore.docs == Kept(old(persistenceStore.docs), docId, ops, seqNo, allocates && persists)
      ensures allocates && publishes ==>
        Called(old(pubSubBus.broker.calls), pubSubBus.broker.calls, pubSubBus.broker.Handlers(DocChannel(docId)),
               Message(processId, seqNo, ops))
      ensures !(allocates && publishes) ==> pubSubBus.broker.calls == old(pubSubBus.broker.calls)
    {
      assert (seqAllocator as object) !in r.Repr();
      if !allocates {
        r.SendTo(sender, NOT_NUMBERED);
        return 0;
      }
      seqNo := seqAllocator.Next(docId);
      ApplyNumbered(r, sender, ops, seqNo, publishes, persists);
    }

    /** applyClientOp: the room is loaded first if this process does not have it, and without a room nothing happens. */
    method ApplyClientOp(sender: string, ops: seq<Op>, loads: bool, subscribes: bool, subscribesPresence: bool,
                         allocates: bool, publishes: bool, persists: bool)
      returns (seqNo: nat, ghost before: RoomState)
      requires Valid() && (room == null ==> Sound(FromSnapshot(StoredState(persistenceStore.Doc(docId)))))
      modifies Repr(), seqAllocator, pubSubBus, pubSubBus.broker, persistenceStore
      ensures Valid() && (room == null <==> old(room) == null && !(loads && subscribes && subscribesPresence))
      ensures room != null ==>
        && FoundOrLoaded(old(Found()), old(persistenceStore.Doc(docId)), before)
        && room.State() == (if allocates then Feed(before, ops, seqNo) else before)
        && room.sockets == var sockets := if old(room) == null then map[] else old(room.sockets);
             if allocates then Informed(sockets, sender, ops, seqNo, persists)
             else SentTo(sockets, sender, NOT_NUMBERED)
      ensures persistenceStore.docs ==
        Kept(old(persistenceStore.docs), docId, ops, seqNo, room != null && allocates && persists)
      ensures room != null && allocates && publishes ==>
        Called(old(pubSubBus.broker.calls), pubSubBus.broker.calls, pubSubBus.broker.Handlers(DocChannel(docId)),
               Message(processId, seqNo, ops))
      ensures !(room != null && allocates && publishes) ==> pubSubBus.broker.calls == old(pubSubBus.broker.calls)
    {
      var r := GetOrCreateRoom(loads, subscribes, subscribesPresence);
      if r == null { return 0, NEW_ROOM; }
      before := r.State();
      assert (this as object) !in r.Repr();
      seqNo := ApplyBatch(r, sender, ops, allocates, publishes, persists);
    }

    /** A batch from the broker: its own echo is skipped, and without a room there is nobody to tell. */
    method HandleRemoteOp(payload: Message, persists: bool)
      requires Valid()
      modifies Repr(), persistenceStore
      ensures Valid() && room == old(room) && fresh(Repr() - old(Repr()))
      ensures room == null || payload.originId == processId ==>
        && Found() == old(Found()) && (room != null ==> room.sockets == old(room.sockets))
        && persistenceStore.docs == old(persistenceStore.docs)
      ensures room != null && payload.originId != processId ==>
        && room.State() == Feed(old(room.State()), payload.ops, payload.seqNo)
        && room.sockets == SentToAll(old(room.sockets), BroadcastMessage(payload.seqNo, payload.ops), None)
        && persistenceStore.docs == Kept(old(persistenceStore.docs), docId, payload.ops, payload.seqNo, persists)
    {
      if payload.originId == processId || room == null { return; }
      Accept(room, None, payload.ops, payload.seqNo, this, persistenceStore, pubSubBus.broker);
      StoreBatch(payload.ops, payload.seqNo, persists, room);
    }

    /** The first half of snapshotRoom, up to the write: compaction, then the listing under the room's number. */
    method BeginSnapshot() returns (state: seq<SnapshotNode>, atSeq: nat)
      requires Valid() && room != null
      modifies Repr()
      ensures Valid() && room == old(room) && Repr() == old(Repr()) && room.sockets == old(room.sockets)
      ensures room.State() == CompactRoom(old(room.State()))
      ensures state == SnapshotOf(room.State().doc) == SnapshotOf(Compact(old(room.State()).doc))
      ensures atSeq == old(room.State()).seqNo
    {
      assert (this as object) !in room.Repr();
      room.CompactTombstones();
      state := room.Snapshot();
      atSeq := room.seqNo;
    }

    /** The second half, once the write is done; batches that came in between stay in the log and in the rows. */
    method EndSnapshot(state: seq<SnapshotNode>, atSeq: nat)
      requires Valid() && room != null
      modifies Repr(), persistenceStore
      ensures Valid() && room == old(room) && Repr() == old(Repr()) && room.sockets == old(room.sockets)
      ensures room.State() == RaiseFloor(old(room.State()), atSeq)
      ensures persistenceStore.docs == Snapped(old(persistenceStore.docs), docId, atSeq, state)
    {
      assert (this as object) !in room.Repr() && (persistenceStore as object) !in room.Repr();
      persistenceStore.WriteSnapshot(docId, atSeq, state);
      room.AdvanceCoverageFloor(atSeq);
    }

    /** snapshotRoom when nothing comes in between. */
    method SnapshotRoom()
      requires Valid()
      modifies Repr(), persistenceStore
      ensures Valid() && room == old(room) && Repr() == old(Repr())
      ensures room == null ==> persistenceStore.docs == old(persistenceStore.docs)
      ensures room != null ==>
        && room.State() == Tidied(old(room.State())) && room.sockets == old(room.sockets)
        && persistenceStore.docs ==
             Snapped(old(persistenceStore.docs), docId, old(room.State()).seqNo,
                     SnapshotOf(Compact(old(room.State()).doc)))
    {
      if room == null { return; }
      assert (persistenceStore as object) !in Repr();
      var state, atSeq := BeginSnapshot();
      EndSnapshot(state, atSeq);
    }
  }

  /** Socket by socket, what was written when a batch is through. */
  lemma {:induction false} InformedSays(sockets: Sockets, sender: string, ops: seq<Op>, seqNo: nat, persists: bool)
    ensures var informed := Informed(sockets, sender, ops, seqNo, persists);
      && informed.Keys == sockets.Keys
      && (forall q :: q in sockets ==>
            var before, after := sockets[q], informed[q];
            && after.id == before.id && after.open == before.open
            && (!before.open ==> after.sent == before.sent)
            && (before.open && q != sender ==> after.sent == before.sent + [BroadcastMessage(seqNo, ops)])
            && (before.open && q == sender ==>
                  && before.sent < after.sent && |after.sent| == |before.sent| + 1
                  && var said := after.sent[|before.sent|];
                     if persists then said == AckMessage(seqNo, IdsOf(ops)) else said.ErrorMessage?))
      && (forall q, m :: q in sockets && m in informed[q].sent && m !in sockets[q].sent && m.AckMessage? ==>
            persists && m.opIds == IdsOf(ops))
  {
  }

  lemma {:induction false} TakesAllKeys(d: StoredDoc, seqNo: nat, ops: seq<Op>)
    ensures forall op :: op in ops ==> OpIdKeyOf(op) in Appended(d, seqNo, ops).seenOpIds
  {
    SaveAllKeeps(d.(latestSeq := Max(d.latestSeq, seqNo)), seqNo, ops);
    forall op | op in ops ensures OpIdKeyOf(op) in KeysOf(OpSet(ops)) { assert op in OpSet(ops); }
  }

  // What the handlers do to subscriptions, to a room and to the store

  type Subscribers = map<string, set<nat>>

  function Subscribed(subscribers: Subscribers, channel: string, handler: nat): Subscribers {
    subscribers[channel := (if channel in subscribers then subscribers[channel] else {}) + {handler}]
  }

  type Docs = map<string, StoredDoc>

  function StoredUnder(docs: Docs, docId: string): StoredDoc {
    if docId in docs then docs[docId] else NO_DOC
  }

  function Kept(docs: Docs, docId: string, ops: seq<Op>, seqNo: nat, persists: bool): Docs {
    if persists then docs[docId := Appended(StoredUnder(docs, docId), seqNo, ops)] else docs
  }

  /** What everyone has received when a batch is through: the others the batch, its sender whether it is durable. */
  function Informed(sockets: Sockets, sender: string, ops: seq<Op>, seqNo: nat, persists: bool): Sockets {
    var told := SentToAll(sockets, BroadcastMessage(seqNo, ops), Some(sender));
    SentTo(told, sender, if persists then AckMessage(seqNo, IdsOf(ops)) else NOT_STORED)
  }

  function Tidied(r: RoomState): RoomState {
    RaiseFloor(CompactRoom(r), r.seqNo)
  }

  function Snapped(docs: Docs, docId: string, atSeq: nat, state: seq<SnapshotNode>): Docs {
    docs[docId := Covered(StoredUnder(docs, docId), atSeq, state)]
  }

  /** A batch goes into the room, and out to every connected client but its sender. */
  method Accept(r: Room, sender: Option<string>, ops: seq<Op>, seqNo: nat,
                ghost m: RoomManager, ghost store: InMemoryPersistenceStore, ghost broker: InMemoryBroker)
    requires r.Valid()
    modifies r.Repr()
    ensures m.room == old(m.room) && store.docs == old(store.docs)
    ensures broker.calls == old(broker.calls) && broker.subscribers == old(broker.subscribers)
    ensures r.Valid() && fresh(r.Repr() - old(r.Repr()))
    ensures r.State() == Feed(old(r.State()), ops, seqNo)
    ensures r.sockets == SentToAll(old(r.sockets), BroadcastMessage(seqNo, ops), sender)
  {
    assert (m as object) !in r.Repr();
    assert (store as object) !in r.Repr();
    assert (broker as object) !in r.Repr();
    r.ApplyOps(ops, seqNo);
    r.Broadcast(BroadcastMessage(seqNo, ops), sender);
  }
}
