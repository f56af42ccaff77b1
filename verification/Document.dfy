/** The state of one replica and its operations (packages/crdt/src/rga.ts). */
module Document {
  import opened Ids
  import opened Ops
  import opened Order
  import opened Arrival

  // The state is a value here. The class in Replica.dfy is proved against these functions.

  /** Everything a list node carries besides its id and its place in the list. */
  datatype Cell = Cell(
    origin: Option<OpId>, value: Option<string>, tombstone: bool, attrs: Marks, clock: map<string, OpId>)

  datatype Doc = Doc(order: seq<OpId>, cells: map<OpId, Cell>, pending: map<OpId, seq<Op>>, counter: nat)

  const EMPTY := Doc([], map[], map[], 0)

  function Max(a: nat, b: nat): nat {
    if a < b then b else a
  }

  // Applying operations

  function NewCell(op: Op): Cell
    requires op.Insert?
  {
    Cell(op.origin, Some(op.value), false, op.attrs, map[])
  }

  function Integrate(d: Doc, op: Op): Doc
    requires op.Insert?
  {
    d.(order := Place(d.order, op.id, op.origin), cells := d.cells[op.id := NewCell(op)])
  }

  /** The decision of the format op with this id. */
  function DecidedCell(c: Cell, mark: string, on: bool, id: OpId): Cell {
    c.(clock := c.clock[mark := id], attrs := if on then c.attrs + {mark} else c.attrs - {mark})
  }

  /** Last writer wins per mark: an op loses to a decision with a greater or equal id. */
  function FormatCell(c: Cell, op: Op): Cell
    requires op.Format?
  {
    if op.mark in c.clock && CompareOpId(c.clock[op.mark], op.id) >= 0 then c
    else DecidedCell(c, op.mark, op.on, op.id)
  }

  function BufferOn(pending: map<OpId, seq<Op>>, key: OpId, op: Op): map<OpId, seq<Op>> {
    pending[key := (if key in pending then pending[key] else []) + [op]]
  }

  function Buffered(pending: map<OpId, seq<Op>>, key: OpId): seq<Op> {
    if key in pending then pending[key] else []
  }

  /** One turn of the loop in `apply`: the new state and the buffered ops it releases. */
  function Step(d: Doc, op: Op): (Doc, seq<Op>) {
    match op
    case Insert(id, origin, _, _) =>
      if id in d.cells then (d, [])
      else if origin.Some? && origin.value !in d.cells then
        (d.(pending := BufferOn(d.pending, origin.value, op)), [])
      else
        (Integrate(d, op).(counter := Max(d.counter, id.counter), pending := d.pending - {id}), Buffered(d.pending, id))
    case Delete(target) =>
      if target !in d.cells then (d.(pending := BufferOn(d.pending, target, op)), [])
      else (d.(cells := d.cells[target := d.cells[target].(tombstone := true)]), [])
    case Format(id, target, _, _) =>
      if target !in d.cells then (d.(pending := BufferOn(d.pending, target, op)), [])
      else (d.(cells := d.cells[target := FormatCell(d.cells[target], op)], counter := Max(d.counter, id.counter)), [])
  }

  /** How many ops are buffered. */
  ghost function PendingSize(pending: map<OpId, seq<Op>>): nat {
    if pending == map[] then 0
    else
      var k :| k in pending;
      |pending[k]| + PendingSize(pending - {k})
  }

  lemma {:induction false} PendingSizeSplit(pending: map<OpId, seq<Op>>, key: OpId)
    requires key in pending
    ensures PendingSize(pending) == |pending[key]| + PendingSize(pending - {key})
  {
    var k :| k in pending && PendingSize(pending) == |pending[k]| + PendingSize(pending - {k});
    if k != key {
      PendingSizeSplit(pending - {k}, key);
      PendingSizeSplit(pending - {key}, k);
      assert pending - {k} - {key} == pending - {key} - {k};
    }
  }

  lemma {:induction false} PendingSizeBuffered(pending: map<OpId, seq<Op>>, key: OpId)
    ensures PendingSize(pending) == |Buffered(pending, key)| + PendingSize(pending - {key})
  {
    if key in pending { PendingSizeSplit(pending, key); } else { assert pending - {key} == pending; }
  }

  lemma {:induction false} PendingSizeBufferOn(pending: map<OpId, seq<Op>>, key: OpId, op: Op)
    ensures PendingSize(BufferOn(pending, key, op)) == PendingSize(pending) + 1
  {
    var after := BufferOn(pending, key, op);
    PendingSizeSplit(after, key);
    PendingSizeBuffered(pending, key);
    assert after - {key} == pending - {key};
  }

  /** Queued plus buffered ops never grow, and a turn that keeps the sum shortens the queue. */
  lemma {:induction false} StepShrinks(d: Doc, op: Op)
    ensures var (e, released) := Step(d, op);
      || |released| + PendingSize(e.pending) < 1 + PendingSize(d.pending)
      || (|released| + PendingSize(e.pending) == 1 + PendingSize(d.pending) && released == [])
  {
    if op.Insert? {
      PendingSizeBuffered(d.pending, op.id);
    }
    if Awaits(op).Some? {
      PendingSizeBufferOn(d.pending, Awaits(op).value, op);
    }
  }

  /** The loop of `apply`: first in, first out, released ops at the end of the queue. */
  function Drain(d: Doc, queue: seq<Op>): Doc
    decreases |queue| + PendingSize(d.pending), |queue|
  {
    if queue == [] then d
    else
      StepShrinks(d, queue[0]);
      var (e, released) := Step(d, queue[0]);
      Drain(e, queue[1..] + released)
  }

  function Apply(d: Doc, op: Op): Doc {
    Drain(d, [op])
  }

  /** An op that releases nothing takes one turn. */
  lemma {:induction false} ApplyIsStep(d: Doc, op: Op)
    requires Step(d, op).1 == []
    ensures Apply(d, op) == Step(d, op).0
  {
    var (e, released) := Step(d, op);
    assert [op][1..] + released == [];
    assert Drain(d, [op]) == Drain(e, []) == e;
  }

  function ApplyAll(d: Doc, ops: seq<Op>): Doc
    decreases |ops|
  {
    if ops == [] then d else ApplyAll(Apply(d, ops[0]), ops[1..])
  }

  // Reading

  /** The ids of `order` that are not tombstoned. */
  function VisibleOf(order: seq<OpId>, cells: map<OpId, Cell>): (v: seq<OpId>)
    ensures forall x :: x in v ==> x in order && x in cells && !cells[x].tombstone
  {
    if order == [] then []
    else if order[0] in cells && !cells[order[0]].tombstone then [order[0]] + VisibleOf(order[1..], cells)
    else VisibleOf(order[1..], cells)
  }

  function Visible(d: Doc): seq<OpId> {
    VisibleOf(d.order, d.cells)
  }

  /** findNodeAtPosition. */
  function NodeAt(d: Doc, position: int): (r: Option<OpId>)
    ensures r.Some? ==> r.value in d.order && r.value in d.cells && !d.cells[r.value].tombstone
  {
    var v := Visible(d);
    if 0 <= position < |v| then Some(v[position]) else None
  }

  /** A character as the editor sees it. */
  datatype Glyph = Glyph(value: string, attrs: Marks)

  function GlyphsOf(order: seq<OpId>, cells: map<OpId, Cell>): seq<Glyph> {
    if order == [] then []
    else
      var rest := GlyphsOf(order[1..], cells);
      if order[0] in cells && !cells[order[0]].tombstone && cells[order[0]].value.Some?
      then [Glyph(cells[order[0]].value.value, cells[order[0]].attrs)] + rest
      else rest
  }

  /** The visible attributed characters in list order: what `read` and `getContentsForEditor` show. */
  function Glyphs(d: Doc): seq<Glyph> {
    GlyphsOf(d.order, d.cells)
  }

  function TextOf(glyphs: seq<Glyph>): string {
    if glyphs == [] then "" else glyphs[0].value + TextOf(glyphs[1..])
  }

  function Read(d: Doc): string {
    TextOf(Glyphs(d))
  }

  /** A stretch of text with the same marks, as handed to the editor. */
  datatype Run = Run(text: string, attrs: Marks)

  function Flush(text: string, attrs: Marks): seq<Run> {
    if text == "" then [] else [Run(text, attrs)]
  }

  /** Continues an open run: a character with other marks closes it. */
  function Coalesce(glyphs: seq<Glyph>, text: string, attrs: Marks): seq<Run> {
    if glyphs == [] then Flush(text, attrs)
    else if glyphs[0].attrs != attrs then Flush(text, attrs) + Coalesce(glyphs[1..], glyphs[0].value, glyphs[0].attrs)
    else Coalesce(glyphs[1..], text + glyphs[0].value, attrs)
  }

  /** getContentsForEditor: the runs and the trailing newline the editor insists on. */
  function Contents(d: Doc): seq<Run> {
    Coalesce(Glyphs(d), "", {}) + [Run("\n", {})]
  }

  // Local edits

  function NextId(d: Doc, replicaId: string): OpId {
    OpId(d.counter + 1, replicaId)
  }

  /** The op of localInsert; out-of-range positions have no left neighbour and anchor at the head. */
  function InsertOpAt(d: Doc, replicaId: string, index: int, value: string, attrs: Marks): Op {
    Insert(NextId(d, replicaId), NodeAt(d, index - 1), value, attrs)
  }

  function LocalInsert(d: Doc, op: Op): Doc
    requires op.Insert?
  {
    Integrate(d, op).(counter := d.counter + 1)
  }

  /** localDelete; None is the exception it throws when there is no node at the index. */
  function LocalDelete(d: Doc, index: int): Option<(Doc, Op)> {
    var at := NodeAt(d, index);
    if at.None? then None
    else Some((d.(cells := d.cells[at.value := d.cells[at.value].(tombstone := true)]), Delete(at.value)))
  }

  /** The entries of a patch in the order in which they are listed. */
  type Patch = seq<(string, bool)>

  /** A new format op for one character and mark, in effect at once. */
  function FormatMark(d: Doc, replicaId: string, target: OpId, mark: string, on: bool): (Doc, Op)
    requires target in d.cells
  {
    var op := Format(NextId(d, replicaId), target, mark, on);
    (d.(cells := d.cells[target := FormatCell(d.cells[target], op)], counter := d.counter + 1), op)
  }

  /** localFormat on one character: one op, one fresh id, per entry of the patch. */
  function FormatNode(d: Doc, replicaId: string, target: OpId, patch: Patch): (Doc, seq<Op>)
    requires target in d.cells
    decreases |patch|
  {
    if patch == [] then (d, [])
    else
      var (e, op) := FormatMark(d, replicaId, target, patch[0].0, patch[0].1);
      var (f, ops) := FormatNode(e, replicaId, target, patch[1..]);
      (f, [op] + ops)
  }

  /** localFormat on the character at a position, if there is one. */
  function FormatAt(d: Doc, replicaId: string, position: int, patch: Patch): (Doc, seq<Op>) {
    if NodeAt(d, position).None? then (d, []) else FormatNode(d, replicaId, NodeAt(d, position).value, patch)
  }

  /** localFormat: stops at the first position without a character. */
  function LocalFormat(d: Doc, replicaId: string, start: int, length: nat, patch: Patch): (Doc, seq<Op>)
    decreases length
  {
    if length == 0 || NodeAt(d, start).None? then (d, [])
    else
      var (e, ops) := FormatAt(d, replicaId, start, patch);
      var (f, more) := LocalFormat(e, replicaId, start + 1, length - 1, patch);
      (f, ops + more)
  }

  // Snapshots and compaction

  datatype SnapshotNode = SnapshotNode(id: OpId, cell: Cell)

  function ToSnapshot(d: Doc): seq<SnapshotNode>
    requires forall x :: x in d.order ==> x in d.cells
  {
    seq(|d.order|, i requires 0 <= i < |d.order| => SnapshotNode(d.order[i], d.cells[d.order[i]]))
  }

  /** The snapshot of a document; that of a replica can always be listed. */
  function SnapshotOf(d: Doc): seq<SnapshotNode> {
    if forall x :: x in d.order ==> x in d.cells then ToSnapshot(d) else []
  }

  /** The greatest counter among the clock's ids. */
  ghost function ClockMax(clock: map<string, OpId>): (n: nat)
    ensures forall m :: m in clock ==> clock[m].counter <= n
    ensures n == 0 || exists m :: m in clock && clock[m].counter == n
  {
    if clock == map[] then 0
    else
      var m :| m in clock;
      var rest := clock - {m};
      assert forall k :: k in clock ==> k == m || k in rest;
      Max(clock[m].counter, ClockMax(rest))
  }

  /** The greatest counter among node ids and clock ids. */
  ghost function SnapshotCounter(s: seq<SnapshotNode>): nat {
    if s == [] then 0
    else
      var last := s[|s| - 1];
      Max(SnapshotCounter(s[..|s| - 1]), Max(last.id.counter, ClockMax(last.cell.clock)))
  }

  ghost function SnapshotOrder(s: seq<SnapshotNode>): seq<OpId> {
    if s == [] then [] else SnapshotOrder(s[..|s| - 1]) + [s[|s| - 1].id]
  }

  ghost function SnapshotCells(s: seq<SnapshotNode>): map<OpId, Cell> {
    if s == [] then map[] else SnapshotCells(s[..|s| - 1])[s[|s| - 1].id := s[|s| - 1].cell]
  }

  /** fromSnapshot: the nodes are relinked in the order in which they are listed; nothing is buffered. */
  ghost function FromSnapshot(s: seq<SnapshotNode>): Doc {
    Doc(SnapshotOrder(s), SnapshotCells(s), map[], SnapshotCounter(s))
  }

  function Cleared(c: Cell): Cell {
    c.(value := None, attrs := {}, clock := map[])
  }

  function CompactCell(c: Cell): Cell {
    if c.tombstone then Cleared(c) else c
  }

  function CompactCells(cells: map<OpId, Cell>): map<OpId, Cell> {
    map x | x in cells :: CompactCell(cells[x])
  }

  function Compact(d: Doc): Doc {
    d.(cells := CompactCells(d.cells))
  }

  // The invariant of a replica

  function OriginsOf(cells: map<OpId, Cell>): Origins {
    map x | x in cells :: cells[x].origin
  }

  /** Buffered ops wait for an id that is not there, under exactly that id. */
  ghost predicate PendingOk(d: Doc) {
    forall k :: k in d.pending ==>
      k !in d.cells && d.pending[k] != [] && forall op :: op in d.pending[k] ==> Awaits(op) == Some(k)
  }

  /** The list was put together by the scan from the inserts in the index. */
  ghost predicate Listed(d: Doc) {
    Built(OriginsOf(d.cells), d.order)
  }

  ghost predicate Wf(d: Doc) {
    Listed(d) && PendingOk(d)
  }

  ghost predicate CellBound(x: OpId, c: Cell, n: nat) {
    x.counter <= n && forall m :: m in c.clock ==> c.clock[m].counter <= n
  }

  ghost predicate CellAttains(x: OpId, c: Cell, n: nat) {
    x.counter == n || exists m :: m in c.clock && c.clock[m].counter == n
  }

  /** The counter dominates every id the replica knows of: node ids and clock ids. */
  ghost predicate CounterBound(d: Doc) {
    forall x :: x in d.cells ==> CellBound(x, d.cells[x], d.counter)
  }

  /** ... and is no larger than it has to be. */
  ghost predicate CounterExact(d: Doc) {
    CounterBound(d) && (d.counter == 0 || exists x :: x in d.cells && CellAttains(x, d.cells[x], d.counter))
  }

  lemma {:induction false} ListElements(d: Doc)
    requires Listed(d)
    ensures Distinct(d.order)
    ensures forall x :: x in d.order <==> x in d.cells
    ensures forall x :: x in d.cells && d.cells[x].origin.Some? ==> d.cells[x].origin.value in d.cells
  {
    var t := OriginsOf(d.cells);
    BuiltElements(t, d.order);
    forall x | x in d.cells && d.cells[x].origin.Some? ensures d.cells[x].origin.value in d.cells {
      assert x in t && t[x].Some?;
    }
  }

  lemma {:induction false} EmptyWf()
    ensures Wf(EMPTY) && CounterExact(EMPTY)
  {
    BuiltEmpty();
    assert OriginsOf(EMPTY.cells) == map[];
  }
}
