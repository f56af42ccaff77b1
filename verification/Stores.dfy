/** Durable storage (apps/server/src/persistence/InMemoryPersistenceStore.ts). */
module Stores {
  import opened Ids
  import opened Ops
  import opened Keys
  import opened Document
  import opened Batches

  // Per document the rows of ops, each key at most once, and the latest snapshot.

  datatype Cover = Cover(atSeq: nat, state: seq<SnapshotNode>)

  datatype StoredDoc = StoredDoc(latestSeq: nat, ops: seq<StoredOp>, seenOpIds: set<string>, snapshot: Option<Cover>)

  datatype Loaded = Loaded(snapshot: seq<SnapshotNode>, snapshotSeq: nat, batches: seq<Batch>, latestSeq: nat)

  const NO_DOC := StoredDoc(0, [], {}, None)

  /** One op of appendOps: the first op with a key is kept, whatever comes later under that key is dropped. */
  function Save(d: StoredDoc, seqNo: nat, op: Op): StoredDoc {
    if OpIdKeyOf(op) in d.seenOpIds then d
    else d.(ops := d.ops + [StoredOp(seqNo, op)], seenOpIds := d.seenOpIds + {OpIdKeyOf(op)})
  }

  function SaveAll(d: StoredDoc, seqNo: nat, ops: seq<Op>): StoredDoc
    decreases |ops|
  {
    if ops == [] then d else SaveAll(Save(d, seqNo, ops[0]), seqNo, ops[1..])
  }

  /** appendOps. */
  function Appended(d: StoredDoc, seqNo: nat, ops: seq<Op>): StoredDoc {
    SaveAll(d.(latestSeq := Max(d.latestSeq, seqNo)), seqNo, ops)
  }

  function RowsAbove(rows: seq<StoredOp>, seqNo: nat): seq<StoredOp> {
    if rows == [] then []
    else if rows[0].seqNo > seqNo then [rows[0]] + RowsAbove(rows[1..], seqNo)
    else RowsAbove(rows[1..], seqNo)
  }

  /** writeSnapshot: the keys of the dropped rows stay taken. */
  function Covered(d: StoredDoc, atSeq: nat, state: seq<SnapshotNode>): StoredDoc {
    StoredDoc(Max(d.latestSeq, atSeq), RowsAbove(d.ops, atSeq), d.seenOpIds, Some(Cover(atSeq, state)))
  }

  function StoredState(d: StoredDoc): seq<SnapshotNode> {
    if d.snapshot.Some? then d.snapshot.value.state else []
  }

  function StoredSeq(d: StoredDoc): nat {
    if d.snapshot.Some? then d.snapshot.value.atSeq else 0
  }

  /** load: there is one way only to group the rows, so this determines the result. */
  ghost predicate IsLoaded(d: StoredDoc, r: Loaded) {
    && r.snapshot == StoredState(d) && r.snapshotSeq == StoredSeq(d) && r.latestSeq == d.latestSeq
    && Grouped(r.batches) && Rows(r.batches) == d.ops
  }

  lemma {:induction false} LoadIsDetermined(d: StoredDoc, r: Loaded, s: Loaded)
    requires IsLoaded(d, r) && IsLoaded(d, s)
    ensures r == s
  {
    GroupingIsUnique(r.batches, s.batches);
  }

  class InMemoryPersistenceStore {
    var docs: map<string, StoredDoc>

    function Doc(docId: string): StoredDoc
      reads this
    {
      if docId in docs then docs[docId] else NO_DOC
    }

    constructor ()
      ensures docs == map[]
    {
      docs := map[];
    }

    method Load(docId: string) returns (r: Loaded)
      ensures IsLoaded(Doc(docId), r)
    {
      if docId !in docs {
        assert Rows([]) == [];
        return Loaded([], 0, [], 0);
      }
      var doc := docs[docId];
      var batches := GroupBySeq(doc.ops);
      return Loaded(StoredState(doc), StoredSeq(doc), batches, doc.latestSeq);
    }

    method AppendOps(docId: string, seqNo: nat, ops: seq<Op>)
      modifies this
      ensures docs == old(docs)[docId := Appended(old(Doc(docId)), seqNo, ops)]
    {
      var doc := if docId in docs then docs[docId] else NO_DOC;
      doc := doc.(latestSeq := Max(doc.latestSeq, seqNo));
      ghost var before := doc;
      for i := 0 to |ops|
        invariant SaveAll(doc, seqNo, ops[i..]) == SaveAll(before, seqNo, ops)
      {
        assert ops[i..][1..] == ops[i + 1..];
        var opIdKey := OpIdKeyOf(ops[i]);
        if opIdKey in doc.seenOpIds { continue; }
        doc := doc.(ops := doc.ops + [StoredOp(seqNo, ops[i])], seenOpIds := doc.seenOpIds + {opIdKey});
      }
      docs := docs[docId := doc];
    }

    method WriteSnapshot(docId: string, atSeq: nat, state: seq<SnapshotNode>)
      modifies this
      ensures docs == old(docs)[docId := Covered(old(Doc(docId)), atSeq, state)]
    {
      var doc := if docId in docs then docs[docId] else NO_DOC;
      doc := doc.(snapshot := Some(Cover(atSeq, state)));
      doc := doc.(ops := RowsAbove(doc.ops, atSeq));
      doc := doc.(latestSeq := Max(doc.latestSeq, atSeq));
      docs := docs[docId := doc];
    }
  }

  // What appending and garbage collection do to the rows

  ghost function StoredOps(rows: seq<StoredOp>): set<Op> {
    OpSet(OpsOf(rows))
  }

  ghost function KeysOf(ops: set<Op>): set<string> {
    set op | op in ops :: OpIdKeyOf(op)
  }

  lemma {:induction false} StoredOpsAppend(a: seq<StoredOp>, b: seq<StoredOp>)
    ensures StoredOps(a + b) == StoredOps(a) + StoredOps(b)
  {
    assert OpsOf(a + b) == OpsOf(a) + OpsOf(b);
  }

  /** An op is in the rows afterwards iff it was before or its key was free. */
  lemma {:induction false} SaveKeeps(d: StoredDoc, seqNo: nat, op: Op)
    ensures StoredOps(Save(d, seqNo, op).ops) == StoredOps(d.ops) + (if OpIdKeyOf(op) in d.seenOpIds then {} else {op})
    ensures op in StoredOps(Save(d, seqNo, op).ops) <==> OpIdKeyOf(op) !in d.seenOpIds || op in StoredOps(d.ops)
  {
    StoredOpsAppend(d.ops, [StoredOp(seqNo, op)]);
    assert StoredOps([StoredOp(seqNo, op)]) == {op} by { assert OpsOf([StoredOp(seqNo, op)]) == [op]; }
  }

  lemma {:induction false} SaveOne(d: StoredDoc, seqNo: nat, op: Op)
    ensures SaveAll(d, seqNo, [op]) == Save(d, seqNo, op)
  {
  }

  /** Appending adds ops of the batch only, takes all their keys, and loses no row. */
  lemma {:induction false} SaveAllKeeps(d: StoredDoc, seqNo: nat, ops: seq<Op>)
    ensures var e := SaveAll(d, seqNo, ops);
      && StoredOps(d.ops) <= StoredOps(e.ops) <= StoredOps(d.ops) + OpSet(ops)
      && e.seenOpIds == d.seenOpIds + KeysOf(OpSet(ops))
      && (forall op :: op in OpSet(ops) && op !in StoredOps(e.ops) ==>
            OpIdKeyOf(op) in d.seenOpIds + KeysOf(OpSet(ops) - {op}))
      && e.snapshot == d.snapshot && e.latestSeq == d.latestSeq
    decreases |ops|
  {
    if ops != [] {
      SaveKeeps(d, seqNo, ops[0]);
      SaveAllKeeps(Save(d, seqNo, ops[0]), seqNo, ops[1..]);
      assert ops == [ops[0]] + ops[1..];
      assert OpSet(ops) == {ops[0]} + OpSet(ops[1..]);
    }
  }

  lemma {:induction false} RowsAboveKeeps(rows: seq<StoredOp>, seqNo: nat)
    ensures StoredOps(RowsAbove(rows, seqNo)) <= StoredOps(rows)
  {
    if rows != [] {
      RowsAboveKeeps(rows[1..], seqNo);
      StoredOpsAppend([rows[0]], rows[1..]);
      assert rows == [rows[0]] + rows[1..];
      StoredOpsAppend([rows[0]], RowsAbove(rows[1..], seqNo));
    }
  }

  lemma {:induction false} RowIsStored(rows: seq<StoredOp>, row: StoredOp)
    requires row in rows
    ensures row.op in StoredOps(rows)
  {
    var i :| 0 <= i < |rows| && rows[i] == row;
    assert OpsOf(rows)[i] == row.op;
  }

  lemma {:induction false} RowOf(rows: seq<StoredOp>, op: Op) returns (row: StoredOp)
    requires op in StoredOps(rows)
    ensures row in rows && row.op == op
  {
    var i :| 0 <= i < |rows| && OpsOf(rows)[i] == op;
    row := rows[i];
  }

  /** Garbage collection keeps exactly the rows with a number above that of the snapshot. */
  lemma {:induction false} RowsAboveHave(rows: seq<StoredOp>, seqNo: nat, row: StoredOp)
    ensures row in RowsAbove(rows, seqNo) <==> row in rows && row.seqNo > seqNo
  {
    if rows != [] {
      RowsAboveHave(rows[1..], seqNo, row);
      assert rows == [rows[0]] + rows[1..];
    }
  }

  /** Rows that appending adds carry the number of the batch. */
  lemma {:induction false} SavedRows(d: StoredDoc, seqNo: nat, ops: seq<Op>)
    ensures forall row :: row in SaveAll(d, seqNo, ops).ops ==> row in d.ops || (row.seqNo == seqNo && row.op in ops)
    ensures forall row :: row in d.ops ==> row in SaveAll(d, seqNo, ops).ops
    decreases |ops|
  {
    if ops != [] { SavedRows(Save(d, seqNo, ops[0]), seqNo, ops[1..]); }
  }
}
