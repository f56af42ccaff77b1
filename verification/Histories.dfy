/** The batches that one server process numbered, and what it answers to clients that come back. */
module Histories {
  import opened Ops
  import opened Document
  import opened Batches
  import opened Rooms
  import opened Stores
  import opened Databases
  import opened ServerProcess

  // A room that lives on can answer from its log, a room that was rebuilt from the store only from the rows that
  // the store kept (apps/server/src/room.ts, apps/server/src/roomManager.ts, apps/server/src/persistence). Batches
  // are numbered 1, 2, ... and numbers go on after a crash.

  /** Numbers are positions. */
  ghost predicate Numbered(fed: seq<Batch>) {
    forall i :: 0 <= i < |fed| ==> fed[i].seqNo == i + 1
  }

  function Only(ops: seq<Op>, kept: set<Op>): seq<Op> {
    if ops == [] then [] else (if ops[0] in kept then [ops[0]] else []) + Only(ops[1..], kept)
  }

  /** The history after a crash: the same numbers, but only the ops that could be recovered. */
  function Surviving(fed: seq<Batch>, kept: set<Op>): seq<Batch> {
    seq(|fed|, i requires 0 <= i < |fed| => Batch(fed[i].seqNo, Only(fed[i].ops, kept)))
  }

  /**
   The room can bring any client with a number from its floor up to date: whatever was fed is under a number up to
   the client's or in the log above it.
   */
  ghost predicate Answers(room: RoomState, fed: seq<Batch>) {
    && room.floor <= room.seqNo <= |fed| && OpsIn(room.log) <= OpsIn(fed)
    && (forall i :: 0 <= i < |room.log| ==> room.log[i].seqNo <= room.seqNo)
    && (forall k :: room.floor <= k <= |fed| ==> OpsIn(fed) <= OpsIn(fed[..k]) + OpsIn(Batches.After(room.log, k)))
  }

  /** The op was fed under the number of its row. */
  ghost predicate RowTraced(fed: seq<Batch>, row: StoredOp) {
    0 < row.seqNo <= |fed| && row.op in fed[row.seqNo - 1].ops
  }

  ghost predicate BatchTraced(fed: seq<Batch>, b: Batch) {
    0 < b.seqNo <= |fed| && OpSet(b.ops) <= OpSet(fed[b.seqNo - 1].ops)
  }

  /** Everything in the process stems from the history. */
  ghost predicate Traced(p: Process, fed: seq<Batch>) {
    && Numbered(fed) && Accounts(p) && Answers(p.room, fed) && p.shown == OpsIn(fed)
    && (forall row :: row in Readable(p.kind, p.store) ==> row.seqNo <= p.store.latestSeq && RowTraced(fed, row))
    && (forall b :: b in p.flying ==> BatchTraced(fed, b))
    && p.room.floor <= StoredSeq(p.store) <= p.room.seqNo && StoredSeq(p.store) <= p.store.latestSeq <= |fed|
    && p.covered <= OpsIn(fed[..StoredSeq(p.store)])
    && (p.writing.Some? ==>
          var w := p.writing.value;
          StoredSeq(p.store) <= w.atSeq <= p.room.seqNo && w.given <= OpsIn(fed[..w.atSeq]))
  }

  // Sets of ops in batches

  lemma {:induction false} OpsInAt(fed: seq<Batch>, j: nat)
    requires j < |fed|
    ensures OpSet(fed[j].ops) <= OpsIn(fed)
  {
    OpsInHead(fed);
    if j > 0 { OpsInAt(fed[1..], j - 1); }
  }

  lemma {:induction false} OpsInFrom(fed: seq<Batch>, op: Op) returns (j: nat)
    requires op in OpsIn(fed)
    ensures j < |fed| && op in fed[j].ops
  {
    OpsInHead(fed);
    if op in fed[0].ops {
      j := 0;
    } else {
      j := OpsInFrom(fed[1..], op);
      j := j + 1;
    }
  }

  lemma {:induction false} OpsInGrow(fed: seq<Batch>, b: Batch)
    ensures OpsIn(fed + [b]) == OpsIn(fed) + OpSet(b.ops)
  {
    OpsInAppend(fed, [b]);
    FlattenOne(b);
  }

  lemma {:induction false} OpsInPrefix(fed: seq<Batch>, n: nat, m: nat)
    requires n <= m <= |fed|
    ensures OpsIn(fed[..n]) <= OpsIn(fed[..m]) <= OpsIn(fed)
  {
    assert fed[..m][..n] == fed[..n] && fed[..m] == fed[..n] + fed[n..m] && fed == fed[..m] + fed[m..];
    OpsInAppend(fed[..n], fed[n..m]);
    OpsInAppend(fed[..m], fed[m..]);
  }

  lemma {:induction false} OnlyHas(ops: seq<Op>, kept: set<Op>)
    ensures OpSet(Only(ops, kept)) == OpSet(ops) * kept
  {
    if ops != [] {
      OnlyHas(ops[1..], kept);
      assert ops == [ops[0]] + ops[1..];
      forall op ensures op in Only(ops, kept) <==> op in ops && op in kept {
        assert op in Only(ops[1..], kept) <==> op in OpSet(Only(ops[1..], kept));
      }
    }
  }

  lemma {:induction false} SurvivingOps(fed: seq<Batch>, kept: set<Op>)
    ensures OpsIn(Surviving(fed, kept)) == OpsIn(fed) * kept
  {
    if fed != [] {
      SurvivingOps(fed[1..], kept);
      OnlyHas(fed[0].ops, kept);
      OpsInHead(fed);
      OpsInHead(Surviving(fed, kept));
      assert Surviving(fed, kept)[1..] == Surviving(fed[1..], kept);
    }
  }

  lemma {:induction false} SurvivingPrefix(fed: seq<Batch>, kept: set<Op>, k: nat)
    requires k <= |fed|
    ensures OpsIn(Surviving(fed, kept)[..k]) == OpsIn(fed[..k]) * kept
  {
    assert Surviving(fed, kept)[..k] == Surviving(fed[..k], kept);
    SurvivingOps(fed[..k], kept);
  }

  // The answer to a client

  /** The answer brings everything that is not under a number up to the client's. */
  lemma {:induction false} AnswerIsComplete(room: RoomState, fed: seq<Batch>, since: nat)
    requires Answers(room, fed) && since <= |fed| && OpsSince(room, since).Some?
    ensures OpSet(OpsSince(room, since).value) <= OpsIn(fed)
    ensures OpsIn(fed) <= OpsIn(fed[..since]) + OpSet(OpsSince(room, since).value)
  {
    if since >= room.seqNo {
      NothingAfter(room, fed);
      OpsInPrefix(fed, room.seqNo, since);
    } else {
      UpToOrAfter(room.log, since);
    }
  }

  /** Nothing was fed under a number above the room's own that is not under a smaller one, too. */
  lemma {:induction false} NothingAfter(room: RoomState, fed: seq<Batch>)
    requires Answers(room, fed)
    ensures OpsIn(fed) <= OpsIn(fed[..room.seqNo])
  {
    AllUpTo(room.log, room.seqNo);
    assert OpsIn([]) == {};
  }

  lemma {:induction false} FeedAnswers(room: RoomState, fed: seq<Batch>, b: Batch)
    requires Answers(room, fed) && b.seqNo == |fed| + 1
    ensures Answers(Feed(room, b.ops, b.seqNo), fed + [b])
  {
    var after, more := Feed(room, b.ops, b.seqNo), fed + [b];
    OpsInGrow(fed, b);
    OpsInGrow(room.log, b);
    forall k | room.floor <= k <= |more| ensures OpsIn(more) <= OpsIn(more[..k]) + OpsIn(Batches.After(after.log, k)) {
      AfterAppend(room.log, [b], k);
      if k <= |fed| {
        assert more[..k] == fed[..k];
        assert Batches.After([b], k) == [b];
        OpsInGrow(Batches.After(room.log, k), b);
      } else {
        assert more[..k] == more;
      }
    }
  }

  lemma {:induction false} CutAnswers(room: RoomState, fed: seq<Batch>, atSeq: nat)
    requires Answers(room, fed) && room.floor <= atSeq <= room.seqNo
    ensures Answers(RaiseFloor(room, atSeq), fed)
  {
    var log := Batches.After(room.log, atSeq);
    UpToOrAfter(room.log, atSeq);
    forall k | atSeq <= k <= |fed| ensures OpsIn(fed) <= OpsIn(fed[..k]) + OpsIn(Batches.After(log, k)) {
      AfterAfter(room.log, atSeq, k);
    }
    forall i | 0 <= i < |log| ensures log[i].seqNo <= room.seqNo { InAfter(room.log, atSeq, log[i]); }
  }

  // A room that was rebuilt from the store

  /** The rows of a batch carry its number and its ops. */
  lemma {:induction false} BatchOfRow(batches: seq<Batch>, row: StoredOp) returns (b: Batch)
    requires row in Rows(batches)
    ensures b in batches && b.seqNo == row.seqNo && row.op in b.ops
  {
    var front, last := batches[..|batches| - 1], batches[|batches| - 1];
    if row in RowsOf(last) { b := last; } else { b := BatchOfRow(front, row); }
  }

  lemma {:induction false} RowsOfBatch(batches: seq<Batch>, b: Batch, op: Op)
    requires b in batches && op in b.ops
    ensures StoredOp(b.seqNo, op) in Rows(batches)
  {
    var front, last := batches[..|batches| - 1], batches[|batches| - 1];
    if b == last {
      var i :| 0 <= i < |b.ops| && b.ops[i] == op;
      assert RowsOf(last)[i] == StoredOp(b.seqNo, op);
    } else {
      assert b in front;
      RowsOfBatch(front, b, op);
    }
  }

  lemma {:induction false} OpInBatches(batches: seq<Batch>, b: Batch)
    requires b in batches
    ensures OpSet(b.ops) <= OpsIn(batches)
  {
    var i :| 0 <= i < |batches| && batches[i] == b;
    OpsInAt(batches, i);
  }

  /** An op of a row above k is in the answers from k. */
  lemma {:induction false} RowIsAnswered(loaded: Loaded, rows: seq<StoredOp>, row: StoredOp, k: nat)
    requires Rows(loaded.batches) == rows && row in rows && row.seqNo > k
    ensures row.op in OpsIn(Batches.After(loaded.batches, k))
  {
    var b := BatchOfRow(loaded.batches, row);
    InAfter(loaded.batches, k, b);
    OpInBatches(Batches.After(loaded.batches, k), b);
    assert row.op in OpSet(b.ops);
  }

  /** A recovered op is under a number up to k or in a row above k. */
  lemma {:induction false} RecoveredIsTraced(p: Process, fed: seq<Batch>, loaded: Loaded, op: Op, k: nat)
    requires Traced(p, fed) && Reads(p.kind, p.store, loaded)
    requires op in Recoverable(p) && StoredSeq(p.store) <= k <= |fed|
    ensures op in OpsIn(fed[..k]) + OpsIn(Batches.After(loaded.batches, k))
  {
    if op in p.covered {
      OpsInPrefix(fed, StoredSeq(p.store), k);
    } else {
      var row := RowOf(Readable(p.kind, p.store), op);
      assert RowTraced(fed, row);
      if row.seqNo > k {
        RowIsAnswered(loaded, Readable(p.kind, p.store), row, k);
      } else {
        OpsInAt(fed[..k], row.seqNo - 1);
        assert row.op in OpSet(fed[..k][row.seqNo - 1].ops);
      }
    }
  }

  /**
   A room rebuilt from the store answers as completely as one that never died, for the history of what could be
   recovered: whatever the store dropped for its key is under an earlier number or not in that history.
   */
  lemma {:induction false} RebuiltAnswers(p: Process, fed: seq<Batch>, loaded: Loaded)
    requires Traced(p, fed) && Loads(p.kind, p.store, loaded)
    ensures Answers(Rebuilt(loaded), Surviving(fed, Recoverable(p)))
  {
    var kept, room := Recoverable(p), Rebuilt(loaded);
    EnteredIsRead(p.kind, p.store, loaded);
    var after := Surviving(fed, kept);
    SurvivingOps(fed, kept);
    FlattenRows(loaded.batches);
    forall i | 0 <= i < |room.log| ensures room.log[i].seqNo <= room.seqNo {
      var b := room.log[i];
      assert b.ops[0] in b.ops;
      RowsOfBatch(room.log, b, b.ops[0]);
    }
    forall k, op | room.floor <= k <= |after| && op in OpsIn(after)
      ensures op in OpsIn(after[..k]) + OpsIn(Batches.After(room.log, k))
    {
      RecoveredIsTraced(p, fed, loaded, op, k);
      SurvivingPrefix(fed, kept, k);
    }
  }

  lemma {:induction false} SurvivingIsTraced(p: Process, fed: seq<Batch>, row: StoredOp)
    requires RowTraced(fed, row) && row in Readable(p.kind, p.store)
    ensures RowTraced(Surviving(fed, Recoverable(p)), row)
  {
    RowIsStored(Readable(p.kind, p.store), row);
    OnlyHas(fed[row.seqNo - 1].ops, Recoverable(p));
    assert row.op in OpSet(fed[row.seqNo - 1].ops) * Recoverable(p);
  }

  lemma {:induction false} CrashTraced(p: Process, fed: seq<Batch>, loaded: Loaded)
    requires Traced(p, fed) && Loads(p.kind, p.store, loaded)
    ensures Traced(Next(p, Crash(loaded)), Surviving(fed, Recoverable(p)))
    ensures Next(p, Crash(loaded)).shown <= p.shown && Next(p, Crash(loaded)).durable == p.durable
  {
    var kept := Recoverable(p);
    NextAccounts(p, Crash(loaded));
    RebuiltAnswers(p, fed, loaded);
    SurvivingOps(fed, kept);
    SurvivingPrefix(fed, kept, StoredSeq(p.store));
    forall row | row in Readable(p.kind, p.store) ensures RowTraced(Surviving(fed, kept), row) {
      SurvivingIsTraced(p, fed, row);
    }
  }

  // Every step of the server

  lemma {:induction false} RowTracedAfter(fed: seq<Batch>, b: Batch, row: StoredOp)
    requires RowTraced(fed, row)
    ensures RowTraced(fed + [b], row)
  {
  }

  /** A new batch under the next number. */
  lemma {:induction false} AcceptTraced(p: Process, fed: seq<Batch>, b: Batch)
    requires Traced(p, fed) && b.seqNo == |fed| + 1
    ensures Enabled(p, Accept(b)) && Traced(Next(p, Accept(b)), fed + [b])
  {
    NextAccounts(p, Accept(b));
    FeedAnswers(p.room, fed, b);
    OpsInGrow(fed, b);
    PrefixStays(fed, b, StoredSeq(p.store));
    if p.writing.Some? { PrefixStays(fed, b, p.writing.value.atSeq); }
    forall row | row in Readable(p.kind, p.store) ensures RowTraced(fed + [b], row) { RowTracedAfter(fed, b, row); }
    forall c | c in p.flying + {b} ensures BatchTraced(fed + [b], c) { BatchTracedAfter(fed, b, c); }
  }

  lemma {:induction false} PrefixStays(fed: seq<Batch>, b: Batch, n: nat)
    requires n <= |fed|
    ensures (fed + [b])[..n] == fed[..n]
  {
  }

  lemma {:induction false} BatchTracedAfter(fed: seq<Batch>, b: Batch, c: Batch)
    requires (c == b && b.seqNo == |fed| + 1) || BatchTraced(fed, c)
    ensures BatchTraced(fed + [b], c)
  {
  }

  lemma {:induction false} PersistedRowTraced(p: Process, fed: seq<Batch>, b: Batch, row: StoredOp)
    requires Traced(p, fed) && b in p.flying && row in Readable(p.kind, Stored(p.kind, p.store, b.seqNo, b.ops))
    ensures row.seqNo <= Stored(p.kind, p.store, b.seqNo, b.ops).latestSeq && RowTraced(fed, row)
  {
    StoringKeeps(p.kind, p.store, b.seqNo, b.ops);
    StoringReads(p.kind, p.store, b.seqNo, b.ops, row);
    if row !in Readable(p.kind, p.store) {
      assert BatchTraced(fed, b);
      assert row.op in OpSet(b.ops);
    }
  }

  lemma {:induction false} PersistTraced(p: Process, fed: seq<Batch>, b: Batch)
    requires Traced(p, fed) && b in p.flying
    ensures Traced(Next(p, Persist(b)), fed)
  {
    NextAccounts(p, Persist(b));
    StoringKeeps(p.kind, p.store, b.seqNo, b.ops);
    assert BatchTraced(fed, b);
    forall row | row in Readable(p.kind, Stored(p.kind, p.store, b.seqNo, b.ops))
      ensures row.seqNo <= Stored(p.kind, p.store, b.seqNo, b.ops).latestSeq && RowTraced(fed, row)
    {
      PersistedRowTraced(p, fed, b, row);
    }
  }

  lemma {:induction false} StoreSnapshotTraced(p: Process, fed: seq<Batch>)
    requires Traced(p, fed) && Enabled(p, StoreSnapshot)
    ensures Traced(Next(p, StoreSnapshot), fed)
  {
    var w := p.writing.value;
    NextAccounts(p, StoreSnapshot);
    var store := Written(p.kind, p.store, w.atSeq, w.state);
    forall row | row in Readable(p.kind, store) ensures row in Readable(p.kind, p.store) {
      WritingReads(p.kind, p.store, w.atSeq, w.state, row);
    }
  }

  lemma {:induction false} TakeSnapshotTraced(p: Process, fed: seq<Batch>)
    requires Traced(p, fed) && p.writing.None?
    ensures Traced(Next(p, TakeSnapshot), fed)
  {
    NextAccounts(p, TakeSnapshot);
    NothingAfter(p.room, fed);
  }

  lemma {:induction false} AbandonTraced(p: Process, fed: seq<Batch>)
    requires Traced(p, fed)
    ensures Traced(Next(p, AbandonSnapshot), fed)
  {
    NextAccounts(p, AbandonSnapshot);
  }

  lemma {:induction false} CutTraced(p: Process, fed: seq<Batch>)
    requires Traced(p, fed)
    ensures Traced(Next(p, CutLog), fed)
  {
    NextAccounts(p, CutLog);
    CutAnswers(p.room, fed, StoredSeq(p.store));
  }

  /** The history after a step of the server that accepts nothing. */
  ghost function FedAfter(p: Process, fed: seq<Batch>, a: ServerProcess.Action): seq<Batch> {
    if a.Crash? then Surviving(fed, Recoverable(p)) else fed
  }

  lemma {:induction false} ServerTraced(p: Process, fed: seq<Batch>, a: ServerProcess.Action)
    requires Traced(p, fed) && Enabled(p, a) && !a.Accept?
    ensures Traced(Next(p, a), FedAfter(p, fed, a))
  {
    match a
    case Persist(b) => PersistTraced(p, fed, b);
    case TakeSnapshot => TakeSnapshotTraced(p, fed);
    case StoreSnapshot => StoreSnapshotTraced(p, fed);
    case AbandonSnapshot => AbandonTraced(p, fed);
    case CutLog => CutTraced(p, fed);
    case Crash(loaded) => CrashTraced(p, fed, loaded);
  }

  lemma {:induction false} BootTraced(kind: Kind)
    ensures Traced(Boot(kind), [])
  {
    BootAccounts(kind);
    assert OpsIn([]) == {};
  }
}
