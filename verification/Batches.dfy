/** Batches of ops that share a number (apps/server/src/persistence). */
module Batches {
  import opened Ops

  // And the grouping of stored rows into them, `groupBySeq` of both stores.

  datatype StoredOp = StoredOp(seqNo: nat, op: Op)

  datatype Batch = Batch(seqNo: nat, ops: seq<Op>)

  /** All ops of the batches, in order. */
  function Flatten(batches: seq<Batch>): seq<Op> {
    if batches == [] then [] else batches[0].ops + Flatten(batches[1..])
  }

  /** The batches with a number above `s`. */
  function After(batches: seq<Batch>, s: int): seq<Batch> {
    if batches == [] then []
    else if batches[0].seqNo > s then [batches[0]] + After(batches[1..], s)
    else After(batches[1..], s)
  }

  function RowsOf(b: Batch): seq<StoredOp> {
    seq(|b.ops|, i requires 0 <= i < |b.ops| => StoredOp(b.seqNo, b.ops[i]))
  }

  /** The rows from which the batches came. */
  function Rows(batches: seq<Batch>): seq<StoredOp> {
    if batches == [] then [] else Rows(batches[..|batches| - 1]) + RowsOf(batches[|batches| - 1])
  }

  predicate Ascending(rows: seq<StoredOp>) {
    forall i, j :: 0 <= i < j < |rows| ==> rows[i].seqNo <= rows[j].seqNo
  }

  predicate Increasing(batches: seq<Batch>) {
    forall i, j :: 0 <= i < j < |batches| ==> batches[i].seqNo < batches[j].seqNo
  }

  /** No batch is empty and no two neighbours could be one batch. */
  predicate Grouped(batches: seq<Batch>) {
    && (forall i :: 0 <= i < |batches| ==> batches[i].ops != [])
    && (forall i :: 0 <= i < |batches| - 1 ==> batches[i].seqNo != batches[i + 1].seqNo)
  }

  lemma {:induction false} RowsAppend(batches: seq<Batch>, b: Batch)
    ensures Rows(batches + [b]) == Rows(batches) + RowsOf(b)
  {
  }

  lemma {:induction false} RowsExtendLast(batches: seq<Batch>, op: Op)
    requires batches != []
    ensures var last := batches[|batches| - 1];
      Rows(batches[..|batches| - 1] + [last.(ops := last.ops + [op])]) == Rows(batches) + [StoredOp(last.seqNo, op)]
  {
  }

  /** The grouping is the only way to cut the rows into maximal batches. */
  method GroupBySeq(rows: seq<StoredOp>) returns (batches: seq<Batch>)
    ensures Rows(batches) == rows && Grouped(batches)
  {
    batches := [];
    for i := 0 to |rows|
      invariant Rows(batches) == rows[..i] && Grouped(batches)
    {
      var row, n := rows[i], |batches|;
      assert rows[..i + 1] == rows[..i] + [row];
      if n > 0 && batches[n - 1].seqNo == row.seqNo {
        RowsExtendLast(batches, row.op);
        batches := batches[..n - 1] + [batches[n - 1].(ops := batches[n - 1].ops + [row.op])];
      } else {
        RowsAppend(batches, Batch(row.seqNo, [row.op]));
        assert RowsOf(Batch(row.seqNo, [row.op])) == [row];
        batches := batches + [Batch(row.seqNo, [row.op])];
      }
    }
    assert rows[..|rows|] == rows;
  }

  /** The last batch is the tail of the rows, and what is before it ends in another number. */
  lemma {:induction false} LastBatch(batches: seq<Batch>)
    requires Grouped(batches) && batches != []
    ensures var last, rows := batches[|batches| - 1], Rows(batches);
      && 0 < |last.ops| <= |rows| && Rows(batches[..|batches| - 1]) == rows[..|rows| - |last.ops|]
      && (forall i :: |rows| - |last.ops| <= i < |rows| ==> rows[i].seqNo == last.seqNo)
      && (|rows| > |last.ops| <==> |batches| > 1)
      && (|batches| > 1 ==> rows[|rows| - |last.ops| - 1].seqNo == batches[|batches| - 2].seqNo)
  {
  }

  /** There is one way only to group rows. */
  lemma {:induction false} GroupingIsUnique(a: seq<Batch>, b: seq<Batch>)
    requires Grouped(a) && Grouped(b) && Rows(a) == Rows(b)
    ensures a == b
  {
    if a == [] || b == [] {
      if a != [] { LastBatch(a); }
      if b != [] { LastBatch(b); }
    } else {
      LastBatch(a);
      LastBatch(b);
      var x, y, rows := a[|a| - 1], b[|b| - 1], Rows(a);
      assert rows[|rows| - 1].seqNo == x.seqNo == y.seqNo;
      assert |x.ops| == |y.ops|;
      assert RowsOf(x) == rows[|rows| - |x.ops|..] == RowsOf(y);
      forall i | 0 <= i < |x.ops| ensures x.ops[i] == y.ops[i] {
        assert RowsOf(x)[i] == RowsOf(y)[i];
      }
      assert x.ops == y.ops;
      GroupingIsUnique(a[..|a| - 1], b[..|b| - 1]);
      assert a == a[..|a| - 1] + [x] && b == b[..|b| - 1] + [y];
    }
  }

  /** Rows in ascending order make batches with strictly increasing numbers. */
  lemma {:induction false} AscendingRowsMakeIncreasingBatches(batches: seq<Batch>)
    requires Grouped(batches) && Ascending(Rows(batches))
    ensures Increasing(batches)
  {
    if batches != [] {
      var n, front, rows := |batches|, batches[..|batches| - 1], Rows(batches);
      LastBatch(batches);
      AscendingRowsMakeIncreasingBatches(front);
      if n > 1 {
        var k := |rows| - |batches[n - 1].ops|;
        assert rows[k - 1].seqNo <= rows[k].seqNo;
        assert front[n - 2].seqNo < batches[n - 1].seqNo;
      }
    }
  }

  function OpsOf(rows: seq<StoredOp>): seq<Op> {
    seq(|rows|, i requires 0 <= i < |rows| => rows[i].op)
  }

  lemma {:induction false} FlattenAppend(a: seq<Batch>, b: seq<Batch>)
    ensures Flatten(a + b) == Flatten(a) + Flatten(b)
  {
    if a == [] {
      assert a + b == b;
    } else {
      FlattenAppend(a[1..], b);
      assert (a + b)[1..] == a[1..] + b;
    }
  }

  lemma {:induction false} FlattenOne(b: Batch)
    ensures Flatten([b]) == b.ops
  {
  }

  /** Flattening the batches gives the ops of the rows, in their order. */
  lemma {:induction false} FlattenRows(batches: seq<Batch>)
    ensures Flatten(batches) == OpsOf(Rows(batches))
  {
    if batches != [] {
      var front, last := batches[..|batches| - 1], batches[|batches| - 1];
      FlattenRows(front);
      FlattenAppend(front, [last]);
      assert batches == front + [last];
    }
  }
}
