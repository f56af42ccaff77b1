/** The store in memory and the one in Postgres (apps/server/src/persistence). */
module Databases {
  import opened Ids
  import opened Ops
  import opened Keys
  import opened Document
  import opened Batches
  import opened Rooms
  import opened Stores
  import opened SqlRows

  // They differ in what a stored snapshot does to rows and keys, and in the rows that are read.

  datatype Kind = InMemory | Postgres

  /** appendOps: Postgres is not asked at all about an empty batch. */
  function Stored(kind: Kind, d: StoredDoc, seqNo: nat, ops: seq<Op>): StoredDoc {
    if kind.Postgres? && ops == [] then d else Appended(d, seqNo, ops)
  }

  /**
   writeSnapshot: in memory the keys of the covered rows stay taken and the document's number goes up to that of the
   snapshot. In Postgres the keys go with the rows, and the number stays; load picks the snapshot with the greatest
   number, which is the last one, since numbers never fall (`ServerProcess.Aligned`).
   */
  ghost function Written(kind: Kind, d: StoredDoc, atSeq: nat, state: seq<SnapshotNode>): StoredDoc {
    if kind.InMemory? then Covered(d, atSeq, state)
    else
      var rows := RowsAbove(d.ops, atSeq);
      StoredDoc(d.latestSeq, rows, KeysOf(StoredOps(rows)), Some(Cover(atSeq, state)))
  }

  function Insertion(rows: seq<StoredOp>, row: StoredOp): seq<StoredOp> {
    if rows == [] || rows[|rows| - 1].seqNo <= row.seqNo then rows + [row]
    else Insertion(rows[..|rows| - 1], row) + [rows[|rows| - 1]]
  }

  /** The rows by number, those of one number as they came in. */
  function Sorted(rows: seq<StoredOp>): seq<StoredOp> {
    if rows == [] then [] else Insertion(Sorted(rows[..|rows| - 1]), rows[|rows| - 1])
  }

  /** The rows that load reads: all of them, or those above the snapshot by number. */
  function Readable(kind: Kind, d: StoredDoc): seq<StoredOp> {
    if kind.InMemory? then d.ops else Sorted(RowsAbove(d.ops, StoredSeq(d)))
  }

  ghost predicate Reads(kind: Kind, d: StoredDoc, r: Loaded) {
    && r.snapshot == StoredState(d) && r.snapshotSeq == StoredSeq(d) && r.latestSeq == d.latestSeq
    && Grouped(r.batches) && Rows(r.batches) == Readable(kind, d)
  }

  /** load: Postgres has no entry for a document under which nothing was ever appended, and looks no further. */
  ghost predicate Loads(kind: Kind, d: StoredDoc, r: Loaded) {
    if kind.Postgres? && d.latestSeq == 0 then r == Loaded([], 0, [], 0) else Reads(kind, d, r)
  }

  /** Nothing is stored for a document without an entry. */
  predicate Entered(d: StoredDoc) {
    d.latestSeq == 0 ==> d.ops == [] && d.snapshot.None?
  }

  lemma {:induction false} EnteredIsRead(kind: Kind, d: StoredDoc, r: Loaded)
    requires Loads(kind, d, r) && (kind.Postgres? ==> Entered(d))
    ensures Reads(kind, d, r)
  {
    assert Rows([]) == [];
  }

  // Reading

  lemma {:induction false} InsertionHas(rows: seq<StoredOp>, row: StoredOp, x: StoredOp)
    ensures x in Insertion(rows, row) <==> x == row || x in rows
  {
    if rows != [] && rows[|rows| - 1].seqNo > row.seqNo {
      var front := rows[..|rows| - 1];
      assert rows == front + [rows[|rows| - 1]];
      InsertionHas(front, row, x);
    }
  }

  lemma {:induction false} SortedHas(rows: seq<StoredOp>, x: StoredOp)
    ensures x in Sorted(rows) <==> x in rows
  {
    if rows != [] {
      var front, last := rows[..|rows| - 1], rows[|rows| - 1];
      assert rows == front + [last];
      SortedHas(front, x);
      InsertionHas(Sorted(front), last, x);
    }
  }

  lemma {:induction false} InsertionAscends(rows: seq<StoredOp>, row: StoredOp)
    requires Ascending(rows)
    ensures Ascending(Insertion(rows, row))
  {
    if rows != [] && rows[|rows| - 1].seqNo > row.seqNo {
      var front, last := rows[..|rows| - 1], rows[|rows| - 1];
      var sorted := Insertion(front, row);
      InsertionAscends(front, row);
      forall i | 0 <= i < |sorted| ensures sorted[i].seqNo <= last.seqNo {
        InsertionHas(front, row, sorted[i]);
      }
    }
  }

  lemma {:induction false} SortedAscends(rows: seq<StoredOp>)
    ensures Ascending(Sorted(rows))
  {
    if rows != [] {
      SortedAscends(rows[..|rows| - 1]);
      InsertionAscends(Sorted(rows[..|rows| - 1]), rows[|rows| - 1]);
    }
  }

  /** The rows of one number. */
  function Under(rows: seq<StoredOp>, seqNo: nat): seq<StoredOp> {
    if rows == [] then []
    else Under(rows[..|rows| - 1], seqNo) + if rows[|rows| - 1].seqNo == seqNo then [rows[|rows| - 1]] else []
  }

  lemma {:induction false} InsertionIsStable(rows: seq<StoredOp>, row: StoredOp, seqNo: nat)
    requires Ascending(rows)
    ensures Under(Insertion(rows, row), seqNo) == Under(rows + [row], seqNo)
  {
    assert (rows + [row])[..|rows|] == rows;
    if rows != [] && rows[|rows| - 1].seqNo > row.seqNo {
      var front, last := rows[..|rows| - 1], rows[|rows| - 1];
      InsertionIsStable(front, row, seqNo);
      assert (front + [row])[..|front|] == front;
      assert (Insertion(front, row) + [last])[..|Insertion(front, row)|] == Insertion(front, row);
    }
  }

  /** Sorting keeps the rows of one number in the order in which they came in. */
  lemma {:induction false} SortedIsStable(rows: seq<StoredOp>, seqNo: nat)
    ensures Under(Sorted(rows), seqNo) == Under(rows, seqNo)
  {
    if rows != [] {
      var front, last := rows[..|rows| - 1], rows[|rows| - 1];
      SortedIsStable(front, seqNo);
      SortedAscends(front);
      InsertionIsStable(Sorted(front), last, seqNo);
      assert (Sorted(front) + [last])[..|Sorted(front)|] == Sorted(front);
    }
  }

  /** A row is read iff it is there and, in Postgres, above the snapshot. */
  lemma {:induction false} ReadableHas(kind: Kind, d: StoredDoc, row: StoredOp)
    ensures row in Readable(kind, d) <==> row in d.ops && (kind.Postgres? ==> row.seqNo > StoredSeq(d))
  {
    if kind.Postgres? {
      SortedHas(RowsAbove(d.ops, StoredSeq(d)), row);
      RowsAboveHave(d.ops, StoredSeq(d), row);
    }
  }

  /** What is loaded is determined, and from Postgres the batches come under increasing numbers. */
  lemma {:induction false} LoadsOnce(kind: Kind, d: StoredDoc, r: Loaded, s: Loaded)
    requires Loads(kind, d, r) && Loads(kind, d, s)
    ensures r == s && (kind.InMemory? ==> IsLoaded(d, r))
    ensures kind.Postgres? ==> Increasing(r.batches)
  {
    if kind.InMemory? || d.latestSeq > 0 { GroupingIsUnique(r.batches, s.batches); }
    if kind.Postgres? && d.latestSeq > 0 {
      SortedAscends(RowsAbove(d.ops, StoredSeq(d)));
      AscendingRowsMakeIncreasingBatches(r.batches);
    }
  }

  predicate AllPlain(rows: seq<StoredOp>) {
    forall i :: 0 <= i < |rows| ==> PlainOp(rows[i].op)
  }

  /** What was written as rows is read back iff all ops are plain. */
  lemma {:induction false} ReadBackIff(rows: seq<StoredOp>, read: seq<StoredOp>)
    requires |read| == |rows|
    requires forall i :: 0 <= i < |rows| ==>
      read[i].seqNo == rows[i].seqNo && Some(read[i].op) == FromRow(ToRow(rows[i].seqNo, rows[i].op))
    ensures read == rows <==> AllPlain(rows)
  {
    forall i | 0 <= i < |rows| ensures read[i] == rows[i] <==> PlainOp(rows[i].op) {
      RowRoundTrip(rows[i].seqNo, rows[i].op);
    }
    if AllPlain(rows) { assert read == rows; }
  }

  /** load, from the columns of the rows; None if one of them cannot be read. */
  method LoadFromPostgres(d: StoredDoc) returns (r: Option<Loaded>)
    ensures r.Some? && Loads(Postgres, d, r.value) <==> d.latestSeq == 0 || AllPlain(Readable(Postgres, d))
  {
    if d.latestSeq == 0 { return Some(Loaded([], 0, [], 0)); }
    var rows := Readable(Postgres, d);
    forall i | 0 <= i < |rows| ensures PlainOp(rows[i].op) ==> FromRow(ToRow(rows[i].seqNo, rows[i].op)).Some? {
      RowRoundTrip(rows[i].seqNo, rows[i].op);
    }
    var table := seq(|rows|, i requires 0 <= i < |rows| => ToRow(rows[i].seqNo, rows[i].op));
    forall i | 0 <= i < |rows| ensures table[i].seqNo == rows[i].seqNo { RowRoundTrip(rows[i].seqNo, rows[i].op); }
    var batches := ReadBatches(table);
    if batches.None? { return None; }
    ReadBackIff(rows, Rows(batches.value));
    return Some(Loaded(StoredState(d), StoredSeq(d), batches.value, d.latestSeq));
  }

  // What storing does to what can be read

  lemma {:induction false} StoredRows(kind: Kind, d: StoredDoc, seqNo: nat, ops: seq<Op>, row: StoredOp)
    ensures row in d.ops ==> row in Stored(kind, d, seqNo, ops).ops
    ensures row in Stored(kind, d, seqNo, ops).ops ==> row in d.ops || (row.seqNo == seqNo && row.op in ops)
  {
    SavedRows(d.(latestSeq := Max(d.latestSeq, seqNo)), seqNo, ops);
  }

  /** Nothing that can be read is lost by appending, and what comes in addition is the batch under its number. */
  lemma {:induction false} StoringReads(kind: Kind, d: StoredDoc, seqNo: nat, ops: seq<Op>, row: StoredOp)
    ensures row in Readable(kind, d) ==> row in Readable(kind, Stored(kind, d, seqNo, ops))
    ensures row in Readable(kind, Stored(kind, d, seqNo, ops)) ==>
      row in Readable(kind, d) || (row.seqNo == seqNo && row.op in ops)
    ensures StoredSeq(Stored(kind, d, seqNo, ops)) == StoredSeq(d)
  {
    SaveAllKeeps(d.(latestSeq := Max(d.latestSeq, seqNo)), seqNo, ops);
    StoredRows(kind, d, seqNo, ops, row);
    ReadableHas(kind, d, row);
    ReadableHas(kind, Stored(kind, d, seqNo, ops), row);
  }

  lemma {:induction false} RowsWithin(rows: seq<StoredOp>, ops: set<Op>)
    requires forall row :: row in rows ==> row.op in ops
    ensures StoredOps(rows) <= ops
  {
    forall op | op in StoredOps(rows) ensures op in ops { var row := RowOf(rows, op); }
  }

  lemma {:induction false} StoringKeeps(kind: Kind, d: StoredDoc, seqNo: nat, ops: seq<Op>)
    ensures var e := Stored(kind, d, seqNo, ops);
      && StoredOps(Readable(kind, d)) <= StoredOps(Readable(kind, e)) <= StoredOps(Readable(kind, d)) + OpSet(ops)
      && StoredOps(e.ops) <= StoredOps(d.ops) + OpSet(ops) && e.seenOpIds <= d.seenOpIds + KeysOf(OpSet(ops))
      && e.snapshot == d.snapshot && d.latestSeq <= e.latestSeq <= Max(d.latestSeq, seqNo)
      && (ops != [] ==> seqNo <= e.latestSeq)
  {
    var e := Stored(kind, d, seqNo, ops);
    SaveAllKeeps(d.(latestSeq := Max(d.latestSeq, seqNo)), seqNo, ops);
    forall row | row in Readable(kind, d) ensures row.op in StoredOps(Readable(kind, e)) {
      StoringReads(kind, d, seqNo, ops, row);
      RowIsStored(Readable(kind, e), row);
    }
    RowsWithin(Readable(kind, d), StoredOps(Readable(kind, e)));
    forall row | row in Readable(kind, e) ensures row.op in StoredOps(Readable(kind, d)) + OpSet(ops) {
      StoringReads(kind, d, seqNo, ops, row);
      if row in Readable(kind, d) { RowIsStored(Readable(kind, d), row); }
    }
    RowsWithin(Readable(kind, e), StoredOps(Readable(kind, d)) + OpSet(ops));
  }

  /** An appended op can be read then, unless its key was taken or a snapshot covers its number. */
  lemma {:induction false} StoringReaches(kind: Kind, d: StoredDoc, seqNo: nat, ops: seq<Op>, op: Op)
    requires op in OpSet(ops) && op !in StoredOps(d.ops)
    requires OpIdKeyOf(op) !in d.seenOpIds + KeysOf(OpSet(ops) - {op})
    requires kind.Postgres? ==> seqNo > StoredSeq(d)
    ensures op in StoredOps(Readable(kind, Stored(kind, d, seqNo, ops)))
  {
    var e := Stored(kind, d, seqNo, ops);
    SaveAllKeeps(d.(latestSeq := Max(d.latestSeq, seqNo)), seqNo, ops);
    var row := RowOf(e.ops, op);
    StoredRows(kind, d, seqNo, ops, row);
    if row in d.ops { RowIsStored(d.ops, row); }
    ReadableHas(kind, e, row);
    RowIsStored(Readable(kind, e), row);
  }

  /** A snapshot leaves exactly the rows above it. */
  lemma {:induction false} WritingReads(kind: Kind, d: StoredDoc, atSeq: nat, state: seq<SnapshotNode>, row: StoredOp)
    requires kind.Postgres? ==> StoredSeq(d) <= atSeq
    ensures row in Readable(kind, Written(kind, d, atSeq, state)) <==> row in Readable(kind, d) && row.seqNo > atSeq
  {
    ReadableHas(kind, d, row);
    ReadableHas(kind, Written(kind, d, atSeq, state), row);
    RowsAboveHave(d.ops, atSeq, row);
  }

  // What becomes of keys

  /**
   After a snapshot an op is in the rows iff it is in one that is left or its key is free: in memory if it was never
   used, in Postgres if no row that is left has it.
   */
  lemma {:induction false} StoredAfterCoverIff(kind: Kind, d: StoredDoc, atSeq: nat, state: seq<SnapshotNode>,
                                               seqNo: nat, op: Op)
    ensures var left := StoredOps(RowsAbove(d.ops, atSeq));
      op in StoredOps(Stored(kind, Written(kind, d, atSeq, state), seqNo, [op]).ops) <==>
        op in left || OpIdKeyOf(op) !in (if kind.InMemory? then d.seenOpIds else KeysOf(left))
  {
    var e := Written(kind, d, atSeq, state);
    SaveOne(e.(latestSeq := Max(e.latestSeq, seqNo)), seqNo, op);
    SaveKeeps(e.(latestSeq := Max(e.latestSeq, seqNo)), seqNo, op);
  }

  // The number of a document in Postgres

  /**
   A replica below the number of the snapshot is sent the snapshot, whatever its number, iff the document's number
   reaches the snapshot's. In Postgres it need not: only appending raises it.
   */
  lemma {:induction false} SnapshotIsSentIff(r: Loaded)
    ensures var room := Hydrated(r.snapshot, r.snapshotSeq, r.batches, r.latestSeq);
      (forall since: nat :: since < r.snapshotSeq ==> OpsSince(room, since).None?) <==> r.snapshotSeq <= r.latestSeq
  {
    var room := Hydrated(r.snapshot, r.snapshotSeq, r.batches, r.latestSeq);
    if r.latestSeq < r.snapshotSeq { assert OpsSince(room, r.latestSeq) == Some([]); }
  }

  /** So a replica can be told that it lacks nothing although the snapshot has more: its last batch was not appended. */
  lemma {:induction false} LateAppendWithholdsTheSnapshot(first: Op, nodes: seq<SnapshotNode>, r: Loaded)
    requires Loads(Postgres, Written(Postgres, Stored(Postgres, NO_DOC, 1, [first]), 2, nodes), r)
    ensures r.snapshot == nodes && OpsSince(Hydrated(r.snapshot, r.snapshotSeq, r.batches, r.latestSeq), 1) == Some([])
  {
    SaveOne(NO_DOC.(latestSeq := 1), 1, first);
  }
}
