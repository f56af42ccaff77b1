/** Ops as rows of the Operation table (apps/server/src/persistence/PrismaPersistenceStore.ts). */
module SqlRows {
  import opened Ids
  import opened Ops
  import opened Keys
  import opened Batches

  /** The type column: what is neither "insert" nor "format" is read as a delete. */
  datatype RowKind = InsertRow | FormatRow | OtherRow(text: string)

  datatype OperationRow = OperationRow(
    seqNo: nat, opId: string, kind: RowKind, originId: Option<string>, value: Option<string>, attrs: Marks,
    targetId: Option<string>, mark: Option<string>, formatValue: Option<bool>)

  function ToRow(seqNo: nat, op: Op): OperationRow {
    var key := OpIdKeyOf(op);
    match op
    case Insert(_, origin, value, attrs) =>
      OperationRow(seqNo, key, InsertRow, if origin.Some? then Some(OpIdToString(origin.value)) else None,
                   Some(value), attrs, None, None, None)
    case Format(_, target, mark, on) =>
      OperationRow(seqNo, key, FormatRow, None, None, {}, Some(OpIdToString(target)), Some(mark), Some(on))
    case Delete(_) =>
      OperationRow(seqNo, key, OtherRow("delete"), None, None, {}, None, None, None)
  }

  /** An id that could be read back, as opposed to one with a NaN counter. */
  function IdFromKey(key: string): Option<OpId> {
    var parsed := OpIdFromString(key);
    if parsed.counter.Some? then Some(OpId(parsed.counter.value, parsed.replicaId)) else None
  }

  /** fromRow on a row whose ids were read; an insert whose origin cannot be read is no op. */
  function Assemble(kind: RowKind, id: OpId, hasOrigin: bool, origin: Option<OpId>, value: Option<string>, attrs: Marks,
                    target: Option<OpId>, mark: Option<string>, on: Option<bool>): Option<Op> {
    if kind.InsertRow? then
      if hasOrigin && origin.None? then None
      else Some(Insert(id, if hasOrigin then origin else None, if value.Some? then value.value else "", attrs))
    else if kind.FormatRow? then
      if target.None? || mark.None? then None else Some(Format(id, target.value, mark.value, on == Some(true)))
    else Some(Delete(id))
  }

  function ReadColumn(column: Option<string>): Option<OpId> {
    if column.None? then None else IdFromKey(column.value)
  }

  /** fromRow; None if an id in the result would have no number for its counter or a format row lacks a column. */
  function FromRow(row: OperationRow): Option<Op> {
    var id := IdFromKey(row.opId);
    if id.None? then None
    else
      var hasOrigin := row.originId.Some? && row.originId.value != "";
      Assemble(row.kind, id.value, hasOrigin, ReadColumn(row.originId), row.value, row.attrs,
               ReadColumn(row.targetId), row.mark, row.formatValue)
  }

  predicate PlainId(id: OpId) {
    '@' !in id.replicaId
  }

  /** No replica name in the op contains the separator. */
  predicate PlainOp(op: Op) {
    match op
    case Insert(id, origin, _, _) => PlainId(id) && (origin.Some? ==> PlainId(origin.value))
    case Format(id, target, _, _) => PlainId(id) && PlainId(target)
    case Delete(target) => PlainId(target)
  }

  lemma {:induction false} IdRoundTrip(id: OpId)
    ensures IdFromKey(OpIdToString(id)) == Some(id) <==> PlainId(id)
  {
    KeyRoundTrip(id);
  }

  lemma {:induction false} AssembleInsert(op: Op, id: Option<OpId>, origin: Option<OpId>)
    requires op.Insert? && (id == Some(op.id) <==> PlainId(op.id))
    requires op.origin.Some? ==> (origin == op.origin <==> PlainId(op.origin.value))
    ensures PlainOp(op) <==>
      id.Some? &&
      Assemble(InsertRow, id.value, op.origin.Some?, origin, Some(op.value), op.attrs, None, None, None) == Some(op)
  {
  }

  lemma {:induction false} InsertRoundTrip(seqNo: nat, op: Op)
    requires op.Insert?
    ensures FromRow(ToRow(seqNo, op)) == Some(op) <==> PlainOp(op)
  {
    IdRoundTrip(op.id);
    if op.origin.Some? {
      IdRoundTrip(op.origin.value);
      FirstAt(op.origin.value);
      AssembleInsert(op, IdFromKey(OpIdToString(op.id)), IdFromKey(OpIdToString(op.origin.value)));
    } else {
      AssembleInsert(op, IdFromKey(OpIdToString(op.id)), None);
    }
  }

  lemma {:induction false} AssembleFormat(op: Op, id: Option<OpId>, target: Option<OpId>)
    requires op.Format? && (id == Some(op.id) <==> PlainId(op.id))
    requires target == Some(op.target) <==> PlainId(op.target)
    ensures PlainOp(op) <==>
      id.Some? && Assemble(FormatRow, id.value, false, None, None, {}, target, Some(op.mark), Some(op.on)) == Some(op)
  {
  }

  lemma {:induction false} FormatRoundTrip(seqNo: nat, op: Op)
    requires op.Format?
    ensures FromRow(ToRow(seqNo, op)) == Some(op) <==> PlainOp(op)
  {
    IdRoundTrip(op.id);
    IdRoundTrip(op.target);
    var id, target := IdFromKey(OpIdToString(op.id)), ReadColumn(Some(OpIdToString(op.target)));
    AssembleFormat(op, id, target);
  }

  lemma {:induction false} DeleteRoundTrip(seqNo: nat, op: Op)
    requires op.Delete?
    ensures FromRow(ToRow(seqNo, op)) == Some(op) <==> PlainOp(op)
  {
    IdRoundTrip(op.target);
  }

  /** A stored op reads back as itself iff no replica name in it contains an '@'. */
  lemma {:induction false} RowRoundTrip(seqNo: nat, op: Op)
    ensures FromRow(ToRow(seqNo, op)) == Some(op) <==> PlainOp(op)
    ensures ToRow(seqNo, op).seqNo == seqNo && ToRow(seqNo, op).opId == OpIdKeyOf(op)
  {
    match op
    case Insert(_, _, _, _) => InsertRoundTrip(seqNo, op);
    case Format(_, _, _, _) => FormatRoundTrip(seqNo, op);
    case Delete(_) => DeleteRoundTrip(seqNo, op);
  }

  /** groupBySeq of this store reads each row back and groups as the other store does; None if a row is unreadable. */
  method ReadBatches(rows: seq<OperationRow>) returns (batches: Option<seq<Batch>>)
    ensures batches.Some? <==> forall i :: 0 <= i < |rows| ==> FromRow(rows[i]).Some?
    ensures batches.Some? ==>
      && Grouped(batches.value) && |Rows(batches.value)| == |rows|
      && forall i :: 0 <= i < |rows| ==>
           Rows(batches.value)[i].seqNo == rows[i].seqNo && Some(Rows(batches.value)[i].op) == FromRow(rows[i])
  {
    var stored: seq<StoredOp> := [];
    for i := 0 to |rows|
      invariant |stored| == i
      invariant forall j :: 0 <= j < i ==>
        stored[j].seqNo == rows[j].seqNo && Some(stored[j].op) == FromRow(rows[j])
    {
      var op := FromRow(rows[i]);
      if op.None? { return None; }
      stored := stored + [StoredOp(rows[i].seqNo, op.value)];
    }
    var grouped := GroupBySeq(stored);
    return Some(grouped);
  }
}
