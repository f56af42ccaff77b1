/**
 One document on one process with a store, and crashes at any moment: what is in the room, in the rows and in the
 stored snapshot after every step (apps/server/src/room.ts, apps/server/src/roomManager.ts,
 apps/server/src/persistence).
 */
module ServerProcess {
  import opened Ids
  import opened Ops
  import opened Keys
  import opened Document
  import opened Delivery
  import opened Snapshots
  import opened Batches
  import opened Rooms
  import opened Stores
  import opened Databases

  // Batches are accepted, appended (later, in any order, more than once, or never), snapshots are written and
  // garbage is collected.

  /** A snapshot on its way to the store: its number, and of the ops that the room was given those that it shows. */
  datatype Write = Write(atSeq: nat, state: seq<SnapshotNode>, given: set<Op>, shows: set<Op>)

  /**
   The room in memory, the store, the accepted batches whose append may still be under way, those of them whose
   append is done, and the snapshot that is being written. The rest is history: what the room was given, what the
   stored snapshot shows, what was appended or stored in a snapshot, and what a stored snapshot does not show
   because it was buffered when the snapshot was taken.
   */
  datatype Process = Process(
    kind: Kind, room: RoomState, store: StoredDoc, flying: set<Batch>, saved: set<Batch>, writing: Option<Write>,
    shown: set<Op>, covered: set<Op>, durable: set<Op>, dropped: set<Op>)

  datatype Action =
    | Accept(batch: Batch)
    | Persist(batch: Batch)
    | TakeSnapshot
    | StoreSnapshot
    | AbandonSnapshot
    | CutLog
    | Crash(loaded: Loaded)

  function Boot(kind: Kind): Process {
    Process(kind, NEW_ROOM, NO_DOC, {}, {}, None, {}, {}, {}, {})
  }

  /**
   Batches come under numbers above that of a snapshot that is being written. With Postgres also above that of the
   stored snapshot, and a snapshot is stored once the batch under its number, or a later one, has been appended.
   */
  ghost predicate Enabled(p: Process, a: Action) {
    match a
    case Accept(batch) =>
      && (p.writing.Some? ==> p.writing.value.atSeq < batch.seqNo)
      && (p.kind.Postgres? ==> StoredSeq(p.store) < batch.seqNo)
    case Persist(batch) => batch in p.flying
    case TakeSnapshot => p.writing.None?
    case StoreSnapshot => p.writing.Some? && (p.kind.Postgres? ==> 0 < p.writing.value.atSeq <= p.store.latestSeq)
    case AbandonSnapshot => true
    case CutLog => true
    case Crash(loaded) => Loads(p.kind, p.store, loaded)
  }

  /** The room of a fresh process. */
  ghost function Rebuilt(loaded: Loaded): RoomState {
    Hydrated(loaded.snapshot, loaded.snapshotSeq, loaded.batches, loaded.latestSeq)
  }

  /** What a fresh process would show: what the stored snapshot shows and what is in the rows that it reads. */
  ghost function Recoverable(p: Process): set<Op> {
    p.covered + StoredOps(Readable(p.kind, p.store))
  }

  ghost function Next(p: Process, a: Action): Process
    requires Enabled(p, a)
  {
    match a
    case Accept(batch) =>
      p.(room := Feed(p.room, batch.ops, batch.seqNo), flying := p.flying + {batch},
         shown := p.shown + OpSet(batch.ops))
    case Persist(batch) =>
      p.(store := Stored(p.kind, p.store, batch.seqNo, batch.ops), saved := p.saved + {batch},
         durable := p.durable + OpSet(batch.ops))
    case TakeSnapshot =>
      var room := CompactRoom(p.room);
      p.(room := room,
         writing := Some(Write(room.seqNo, SnapshotOf(room.doc), p.shown, p.shown - PendingOps(room.doc.pending))))
    case StoreSnapshot =>
      var w := p.writing.value;
      p.(store := Written(p.kind, p.store, w.atSeq, w.state), writing := None,
         covered := w.shows, durable := p.durable + w.shows, dropped := p.dropped + (w.given - w.shows))
    case AbandonSnapshot => p.(writing := None)
    case CutLog => p.(room := RaiseFloor(p.room, StoredSeq(p.store)))
    case Crash(loaded) =>
      p.(room := Rebuilt(loaded), flying := {}, saved := {}, writing := None, shown := Recoverable(p))
  }

  // What is where

  /** Up to the number of a snapshot that is being written, everything is among what the room had been given. */
  ghost predicate WriteCovers(p: Process, w: Write) {
    && w.shows <= w.given <= p.shown && p.covered <= w.given
    && (forall row :: row in Readable(p.kind, p.store) && row.seqNo <= w.atSeq ==> row.op in w.given)
    && (forall b :: b in p.flying && b.seqNo <= w.atSeq ==> OpSet(b.ops) <= w.given)
  }

  /**
   Numbers never fall below that of the stored snapshot, and whatever may still be appended below it is covered or was
   buffered then. Postgres relies on it: rows that a snapshot covers are not read.
   */
  ghost predicate Aligned(p: Process) {
    && StoredSeq(p.store) <= p.room.seqNo && StoredSeq(p.store) <= p.store.latestSeq && Entered(p.store)
    && (forall b :: b in p.flying ==> 0 < b.seqNo)
    && (forall b :: b in p.flying && b.seqNo <= StoredSeq(p.store) ==> OpSet(b.ops) <= p.covered + p.dropped)
    && (p.writing.Some? ==> StoredSeq(p.store) <= p.writing.value.atSeq <= p.room.seqNo)
  }

  /** Every durable op can be recovered, was dropped with the buffer of a snapshot, or lost its key to another one. */
  ghost predicate Accounts(p: Process) {
    && Recoverable(p) <= p.shown && p.covered <= p.durable
    && (forall b :: b in p.flying ==> OpSet(b.ops) <= p.shown)
    && (forall b :: b in p.saved ==> OpSet(b.ops) <= p.durable)
    && p.durable <= Recoverable(p) + p.dropped + Contested(p.durable)
    && StoredOps(p.store.ops) <= p.durable && p.store.seenOpIds <= KeysOf(p.durable)
    && (p.writing.Some? ==> WriteCovers(p, p.writing.value)) && (p.kind.Postgres? ==> Aligned(p))
  }

  lemma {:induction false} BootAccounts(kind: Kind)
    ensures Accounts(Boot(kind))
  {
    assert StoredOps([]) == {} by { assert OpsOf([]) == []; }
  }

  lemma {:induction false} ReadableIsStored(kind: Kind, d: StoredDoc)
    ensures StoredOps(Readable(kind, d)) <= StoredOps(d.ops)
  {
    forall row | row in Readable(kind, d) ensures row.op in StoredOps(d.ops) {
      ReadableHas(kind, d, row);
      RowIsStored(d.ops, row);
    }
    RowsWithin(Readable(kind, d), StoredOps(d.ops));
  }

  /** An op that the store drops for its key clashes with a durable one. */
  lemma {:induction false} DroppedIsContested(p: Process, batch: Batch, op: Op)
    requires Accounts(p) && op in OpSet(batch.ops)
    requires OpIdKeyOf(op) in p.store.seenOpIds + KeysOf(OpSet(batch.ops) - {op})
    ensures op in p.durable || op in Contested(p.durable + OpSet(batch.ops))
  {
    var holder :| holder in p.durable + (OpSet(batch.ops) - {op}) && OpIdKeyOf(holder) == OpIdKeyOf(op);
    SameKey(holder, op);
    if holder != op { assert Clashes(p.durable + OpSet(batch.ops), op); }
  }

  /** What becomes of an op of a batch that is appended. */
  lemma {:induction false} PersistReaches(p: Process, batch: Batch, op: Op)
    requires Accounts(p) && batch in p.flying && op in OpSet(batch.ops)
    ensures var q := Next(p, Persist(batch)); op in p.durable + Recoverable(q) + q.dropped + Contested(q.durable)
  {
    var ops := OpSet(batch.ops);
    if OpIdKeyOf(op) in p.store.seenOpIds + KeysOf(ops - {op}) {
      DroppedIsContested(p, batch, op);
    } else if op !in StoredOps(p.store.ops) && (p.kind.Postgres? ==> batch.seqNo > StoredSeq(p.store)) {
      StoringReaches(p.kind, p.store, batch.seqNo, batch.ops, op);
    }
  }

  lemma {:induction false} PersistAccounts(p: Process, batch: Batch)
    requires Accounts(p) && Enabled(p, Persist(batch))
    ensures Accounts(Next(p, Persist(batch)))
  {
    var q := Next(p, Persist(batch));
    StoringKeeps(p.kind, p.store, batch.seqNo, batch.ops);
    ContestedGrows(p.durable, q.durable);
    forall op | op in OpSet(batch.ops) ensures op in p.durable + Recoverable(q) + q.dropped + Contested(q.durable) {
      PersistReaches(p, batch, op);
    }
    if p.writing.Some? { NewRows(p, batch, p.writing.value); }
  }

  /** Rows of a batch that was accepted before the snapshot was taken are covered by it. */
  lemma {:induction false} NewRows(p: Process, batch: Batch, w: Write)
    requires WriteCovers(p, w) && batch in p.flying
    ensures WriteCovers(Next(p, Persist(batch)), w)
  {
    var q := Next(p, Persist(batch));
    forall row | row in Readable(q.kind, q.store) && row.seqNo <= w.atSeq ensures row.op in w.given {
      StoringReads(p.kind, p.store, batch.seqNo, batch.ops, row);
    }
  }

  /** After a snapshot was stored, what could be recovered can be still, or was buffered. */
  lemma {:induction false} StoredKeepsRecoverable(p: Process)
    requires Accounts(p) && Enabled(p, StoreSnapshot)
    ensures var q := Next(p, StoreSnapshot);
      && Recoverable(p) <= Recoverable(q) + q.dropped
      && StoredOps(Readable(q.kind, q.store)) <= StoredOps(Readable(p.kind, p.store))
  {
    var q, w := Next(p, StoreSnapshot), p.writing.value;
    forall row | row in Readable(p.kind, p.store) ensures row.op in Recoverable(q) + q.dropped {
      WritingReads(p.kind, p.store, w.atSeq, w.state, row);
      if row.seqNo > w.atSeq { RowIsStored(Readable(q.kind, q.store), row); }
    }
    RowsWithin(Readable(p.kind, p.store), Recoverable(q) + q.dropped);
    forall row | row in Readable(q.kind, q.store) ensures row.op in StoredOps(Readable(p.kind, p.store)) {
      WritingReads(p.kind, p.store, w.atSeq, w.state, row);
      RowIsStored(Readable(p.kind, p.store), row);
    }
    RowsWithin(Readable(q.kind, q.store), StoredOps(Readable(p.kind, p.store)));
  }

  lemma {:induction false} StoreSnapshotAccounts(p: Process)
    requires Accounts(p) && Enabled(p, StoreSnapshot)
    ensures Accounts(Next(p, StoreSnapshot))
  {
    var q := Next(p, StoreSnapshot);
    StoredKeepsRecoverable(p);
    RowsAboveKeeps(p.store.ops, p.writing.value.atSeq);
    ContestedGrows(p.durable, q.durable);
  }

  lemma {:induction false} NextAccounts(p: Process, a: Action)
    requires Accounts(p) && Enabled(p, a)
    ensures Accounts(Next(p, a))
  {
    match a
    case Accept(_) =>
    case Persist(batch) => PersistAccounts(p, batch);
    case TakeSnapshot =>
      forall row | row in Readable(p.kind, p.store) ensures row.op in p.shown {
        RowIsStored(Readable(p.kind, p.store), row);
      }
    case StoreSnapshot => StoreSnapshotAccounts(p);
    case AbandonSnapshot =>
    case CutLog =>
    case Crash(_) =>
  }

  // What is shown

  /** The room shows what it was given, a snapshot what it was given but for the buffered ops. */
  ghost predicate Shows(p: Process, all: set<Op>) {
    && Holds(p.room.doc, p.shown) && Holds(FromSnapshot(StoredState(p.store)), p.covered) && p.shown <= all
    && (p.writing.Some? ==> Holds(FromSnapshot(p.writing.value.state), p.writing.value.shows))
  }

  lemma {:induction false} BootShows(kind: Kind, all: set<Op>)
    ensures Shows(Boot(kind), all)
  {
    HoldsEmpty();
    assert FromSnapshot([]) == EMPTY;
  }

  lemma {:induction false} AcceptShows(p: Process, batch: Batch, all: set<Op>)
    requires Shows(p, all) && Coherent(all) && OpSet(batch.ops) <= all && Enabled(p, Accept(batch))
    ensures Shows(Next(p, Accept(batch)), all)
  {
    CoherentPart(all, p.shown + OpSet(batch.ops));
    HoldsApplyAll(p.room.doc, batch.ops, p.shown);
  }

  lemma {:induction false} PersistShows(p: Process, batch: Batch, all: set<Op>)
    requires Shows(p, all) && Enabled(p, Persist(batch))
    ensures Shows(Next(p, Persist(batch)), all)
  {
    StoringKeeps(p.kind, p.store, batch.seqNo, batch.ops);
  }

  lemma {:induction false} TakeSnapshotShows(p: Process, all: set<Op>)
    requires Shows(p, all) && p.writing.None?
    ensures Shows(Next(p, TakeSnapshot), all)
  {
    HoldsCompact(p.room.doc, p.shown);
    assert Compact(p.room.doc).pending == p.room.doc.pending;
    SnapshotShows(Compact(p.room.doc), p.shown);
  }

  lemma {:induction false} SnapshotShows(d: Doc, ops: set<Op>)
    requires Holds(d, ops)
    ensures Holds(FromSnapshot(SnapshotOf(d)), ops - PendingOps(d.pending))
  {
    HoldsSnapshot(d, ops);
  }

  /** What a fresh process shows after loading. */
  lemma {:induction false} RebuiltShows(p: Process, loaded: Loaded, all: set<Op>)
    requires Shows(p, all) && Accounts(p) && Coherent(all) && Loads(p.kind, p.store, loaded)
    ensures Holds(Rebuilt(loaded).doc, Recoverable(p))
  {
    EnteredIsRead(p.kind, p.store, loaded);
    FlattenRows(loaded.batches);
    CoherentPart(all, Recoverable(p));
    HoldsApplyAll(FromSnapshot(loaded.snapshot), Flatten(loaded.batches), p.covered);
  }

  lemma {:induction false} NextShows(p: Process, a: Action, all: set<Op>)
    requires Shows(p, all) && Accounts(p) && Coherent(all) && Enabled(p, a)
    requires a.Accept? ==> OpSet(a.batch.ops) <= all
    ensures Shows(Next(p, a), all)
  {
    match a
    case Accept(batch) => AcceptShows(p, batch, all);
    case Persist(batch) => PersistShows(p, batch, all);
    case TakeSnapshot => TakeSnapshotShows(p, all);
    case StoreSnapshot =>
    case AbandonSnapshot =>
    case CutLog =>
    case Crash(loaded) => RebuiltShows(p, loaded, all);
  }

  ghost predicate NothingDropped(p: Process) {
    p.dropped == {} && (p.writing.Some? ==> p.writing.value.shows == p.writing.value.given)
  }
}
