/**
 The replica itself: a linked list of nodes, an index by id, a buffer and a counter, all updated in place
 (packages/crdt/src/rga.ts, class `Rga`). Every method is proved to compute the corresponding function of
 Document.dfy on the abstract state `doc`.
 */
module Replica {
  import opened Ids
  import opened Ops
  import opened Order
  import opened Arrival
  import opened Document
  import opened Edits

  class RgaNode {
    const id: OpId
    const originId: Option<OpId>
    var next: RgaNode?
    var value: Option<string>
    var tombstone: bool
    var attrs: Marks
    var formatClock: map<string, OpId>

    constructor (id: OpId, c: Cell)
      ensures this.id == id && Content() == c && next == null
    {
      this.id, originId := id, c.origin;
      next := null;
      value, tombstone, attrs, formatClock := c.value, c.tombstone, c.attrs, c.clock;
    }

    ghost function Content(): Cell
      reads this`value, this`tombstone, this`attrs, this`formatClock
    {
      Cell(originId, value, tombstone, attrs, formatClock)
    }
  }

  type Index = map<OpId, RgaNode>

  /** The list holds every indexed id, each found where it stands and nowhere before. */
  ghost predicate OrderOk(order: seq<OpId>, keys: set<OpId>) {
    && (forall i {:trigger IndexOf(order, order[i])} :: 0 <= i < |order| ==> IndexOf(order, order[i]) == i)
    && (forall x :: x in order <==> x in keys)
  }

  lemma {:induction false} DistinctIsOrderOk(order: seq<OpId>, keys: set<OpId>)
    requires Distinct(order) && forall x :: x in order <==> x in keys
    ensures OrderOk(order, keys)
  {
  }

  lemma {:induction false} OrderOkIsDistinct(order: seq<OpId>, keys: set<OpId>)
    requires OrderOk(order, keys)
    ensures Distinct(order)
  {
    forall i, j | 0 <= i < j < |order| ensures order[i] != order[j] {
      assert IndexOf(order, order[i]) == i && IndexOf(order, order[j]) == j;
    }
  }

  lemma {:induction false} NoSecond(order: seq<OpId>, keys: set<OpId>, at: nat)
    requires OrderOk(order, keys) && at <= |order|
    ensures at > 0 ==> forall i :: 0 <= i < |order| && i != at - 1 ==> order[i] != order[at - 1]
  {
    OrderOkIsDistinct(order, keys);
  }

  lemma {:induction false} AppendKeepsOrderOk(order: seq<OpId>, keys: set<OpId>, x: OpId)
    requires OrderOk(order, keys) && x !in keys
    ensures OrderOk(order + [x], keys + {x})
  {
    OrderOkIsDistinct(order, keys);
    DistinctIsOrderOk(order + [x], keys + {x});
  }

  lemma {:induction false} AppendIsInsertion(order: seq<OpId>, cells: map<OpId, Cell>, x: OpId, c: Cell)
    requires OrderOk(order, cells.Keys) && x !in cells
    ensures OrderOk(InsertAt(order, |order|, x), cells.Keys + {x}) && InsertAt(order, |order|, x) == order + [x]
    ensures cells[x := c].Keys == cells.Keys + {x}
    ensures forall i :: 0 <= i < |order| - 1 ==> order[i] != order[|order| - 1]
  {
    AppendKeepsOrderOk(order, cells.Keys, x);
    NoSecond(order, cells.Keys, |order|);
    assert InsertAt(order, |order|, x) == order + [x];
  }

  /** No two nodes of the snapshot have one id. */
  ghost predicate NodesDistinct(s: seq<SnapshotNode>) {
    forall i, j :: 0 <= i < j < |s| ==> s[i].id != s[j].id
  }

  lemma {:induction false} SnapshotPrefix(s: seq<SnapshotNode>, k: nat)
    requires k < |s| && NodesDistinct(s)
    ensures SnapshotOrder(s[..k + 1]) == SnapshotOrder(s[..k]) + [s[k].id]
    ensures SnapshotCells(s[..k + 1]) == SnapshotCells(s[..k])[s[k].id := s[k].cell]
    ensures |SnapshotOrder(s[..k])| == k && s[k].id !in SnapshotCells(s[..k])
  {
    assert s[..k + 1][..k] == s[..k];
    SnapshotOrderAt(s[..k]);
    SnapshotKeys(s[..k]);
  }

  ghost function AppendTo(d: Doc, s: SnapshotNode): Doc {
    d.(order := d.order + [s.id], cells := d.cells[s.id := s.cell])
  }

  /** `d` is what the first k nodes of the snapshot make, the counter aside. */
  ghost predicate Relinked(d: Doc, s: seq<SnapshotNode>, k: nat)
    requires k <= |s|
  {
    d == Document.FromSnapshot(s[..k]).(counter := 0)
  }

  lemma {:induction false} RelinkedStep(d: Doc, s: seq<SnapshotNode>, k: nat)
    requires k < |s| && NodesDistinct(s) && Relinked(d, s, k)
    ensures s[k].id !in d.cells
    ensures Relinked(AppendTo(d, s[k]), s, k + 1)
  {
    SnapshotPrefix(s, k);
  }

  lemma {:induction false} SnapshotOrderAt(s: seq<SnapshotNode>)
    ensures |SnapshotOrder(s)| == |s| && forall i :: 0 <= i < |s| ==> SnapshotOrder(s)[i] == s[i].id
  {
    if s != [] { SnapshotOrderAt(s[..|s| - 1]); }
  }

  lemma {:induction false} DistinctOrderHasDistinctNodes(s: seq<SnapshotNode>)
    requires Distinct(SnapshotOrder(s))
    ensures NodesDistinct(s)
  {
    SnapshotOrderAt(s);
    forall i, j | 0 <= i < j < |s| ensures s[i].id != s[j].id {
      assert SnapshotOrder(s)[i] != SnapshotOrder(s)[j];
    }
  }

  lemma {:induction false} SnapshotKeys(s: seq<SnapshotNode>)
    ensures forall x :: x in SnapshotCells(s) <==> x in SnapshotOrder(s)
  {
    if s != [] { SnapshotKeys(s[..|s| - 1]); }
  }

  lemma {:induction false} PlaceKeepsOrderOk(order: seq<OpId>, keys: set<OpId>, x: OpId, origin: Option<OpId>)
    requires OrderOk(order, keys) && x !in keys
    ensures OrderOk(Place(order, x, origin), keys + {x})
  {
    OrderOkIsDistinct(order, keys);
    PlaceElements(order, x, origin);
    DistinctIsOrderOk(Place(order, x, origin), keys + {x});
  }

  /** The node of the i-th id of the list, or null behind its end. */
  ghost function Nth(order: seq<OpId>, nodes: Index, i: nat): RgaNode? {
    if i < |order| && order[i] in nodes then nodes[order[i]] else null
  }

  ghost predicate Within(index: Index, rep: set<RgaNode>) {
    forall x :: x in index ==> index[x] in rep && index[x].id == x
  }

  /** The list that starts at `head` runs through the nodes of `order`. */
  ghost predicate Chained(head: RgaNode?, order: seq<OpId>, index: Index, rep: set<RgaNode>)
    requires Within(index, rep)
    reads rep`next
  {
    && head == Nth(order, index, 0)
    && (forall x :: x in order ==> x in index)
    && forall i {:trigger index[order[i]].next} :: 0 <= i < |order| ==>
         index[order[i]].next == Nth(order, index, i + 1)
  }

  ghost predicate Carries(n: RgaNode, c: Cell)
    reads n`value, n`tombstone, n`attrs, n`formatClock
  {
    c == Cell(n.originId, n.value, n.tombstone, n.attrs, n.formatClock)
  }

  /** Every node carries what the abstract cell of its id says. */
  ghost predicate Filled(index: Index, cells: map<OpId, Cell>, rep: set<RgaNode>)
    requires Within(index, rep)
    reads rep`value, rep`tombstone, rep`attrs, rep`formatClock
  {
    index.Keys == cells.Keys && forall x :: x in index ==> Carries(index[x], cells[x])
  }

  /** The linked, indexed nodes represent this order and these cells. */
  ghost predicate Represents(head: RgaNode?, index: Index, rep: set<RgaNode>, order: seq<OpId>, cells: map<OpId, Cell>)
    reads rep
  {
    && OrderOk(order, cells.Keys) && Within(index, rep)
    && Chained(head, order, index, rep) && Filled(index, cells, rep)
  }

  lemma {:induction false} KeysStay(cells: map<OpId, Cell>, x: OpId, c: Cell)
    requires x in cells
    ensures cells[x := c].Keys == cells.Keys
  {
  }

  lemma {:induction false} UpdateTwice(cells: map<OpId, Cell>, x: OpId, a: Cell, b: Cell)
    ensures cells[x := a][x := b] == cells[x := b]
  {
  }

  /** The same for the positions start + i, ..., start + length - 1 of a range. */
  ghost predicate RangeTo(d: Doc, replicaId: string, start: int, length: nat, patch: Patch, i: nat, ops: seq<Op>,
                          end: Doc, all: seq<Op>)
    requires i <= length
  {
    var (e, rest) := LocalFormat(d, replicaId, start + i, length - i, patch);
    e == end && ops + rest == all
  }

  lemma {:induction false} RangeToStart(d: Doc, replicaId: string, start: int, length: nat, patch: Patch)
    ensures var (end, all) := LocalFormat(d, replicaId, start, length, patch);
      RangeTo(d, replicaId, start, length, patch, 0, [], end, all)
  {
  }

  lemma {:induction false} RangeToStep(d: Doc, replicaId: string, start: int, length: nat, patch: Patch, i: nat,
                                       ops: seq<Op>, end: Doc, all: seq<Op>)
    requires i <= length && RangeTo(d, replicaId, start, length, patch, i, ops, end, all)
    ensures i < length && NodeAt(d, start + i).Some? ==>
      var (e, more) := Document.FormatAt(d, replicaId, start + i, patch);
      RangeTo(e, replicaId, start, length, patch, i + 1, ops + more, end, all)
    ensures i == length || NodeAt(d, start + i).None? ==> d == end && ops == all
  {
  }

  /** The cells while compaction has reached the k-th node. */
  ghost function CompactedUpTo(order: seq<OpId>, cells: map<OpId, Cell>, k: nat): map<OpId, Cell>
    requires k <= |order|
  {
    if k == 0 then cells
    else
      var m := CompactedUpTo(order, cells, k - 1);
      if order[k - 1] in m then m[order[k - 1] := CompactCell(m[order[k - 1]])] else m
  }

  ghost predicate CompactedTo(d: Doc, before: Doc, k: nat)
    requires k <= |before.order|
  {
    d == before.(cells := CompactedUpTo(before.order, before.cells, k))
  }

  lemma {:induction false} CompactStep(order: seq<OpId>, cells: map<OpId, Cell>, k: nat)
    requires k < |order| && order[k] in CompactedUpTo(order, cells, k)
    ensures var m, x := CompactedUpTo(order, cells, k), order[k];
      CompactedUpTo(order, cells, k + 1)
        == if m[x].tombstone then m[x := Cleared(m[x])] else m
  {
  }

  lemma {:induction false} CompactedUpToAt(order: seq<OpId>, cells: map<OpId, Cell>, k: nat, x: OpId)
    requires k <= |order| && x in cells
    ensures x in CompactedUpTo(order, cells, k)
    ensures CompactedUpTo(order, cells, k)[x] == if x in order[..k] then CompactCell(cells[x]) else cells[x]
  {
    if k > 0 {
      CompactedUpToAt(order, cells, k - 1, x);
      assert order[..k] == order[..k - 1] + [order[k - 1]];
    }
  }

  lemma {:induction false} CompactedUpToKeys(order: seq<OpId>, cells: map<OpId, Cell>, k: nat)
    requires k <= |order|
    ensures CompactedUpTo(order, cells, k).Keys == cells.Keys
  {
    if k > 0 { CompactedUpToKeys(order, cells, k - 1); }
  }

  lemma {:induction false} CompactedOrder(d: Doc, before: Doc, k: nat)
    requires k <= |before.order| && CompactedTo(d, before, k)
    ensures d.order == before.order && d.cells.Keys == before.cells.Keys
  {
    CompactedUpToKeys(before.order, before.cells, k);
  }

  lemma {:induction false} CompactDone(d: Doc, before: Doc)
    requires CompactedTo(d, before, |before.order|) && OrderOk(before.order, before.cells.Keys)
    ensures d == Compact(before)
  {
    var n, m := |before.order|, CompactedUpTo(before.order, before.cells, |before.order|);
    CompactedUpToKeys(before.order, before.cells, n);
    forall x | x in before.cells ensures m[x] == CompactCells(before.cells)[x] {
      CompactedUpToAt(before.order, before.cells, n, x);
      assert before.order[..n] == before.order;
    }
    assert m == CompactCells(before.cells);
  }

  lemma {:induction false} GlyphStep(order: seq<OpId>, cells: map<OpId, Cell>, k: nat)
    requires k < |order| && order[k] in cells
    ensures var c, rest := cells[order[k]], GlyphsOf(order[k + 1..], cells);
      GlyphsOf(order[k..], cells) ==
        if !c.tombstone && c.value.Some? then [Glyph(c.value.value, c.attrs)] + rest else rest
  {
  }

  /** What was read of the first k nodes, and the text of the rest, are the whole text. */
  ghost predicate ReadTo(d: Doc, k: nat, result: string) {
    k <= |d.order| && result + TextOf(GlyphsOf(d.order[k..], d.cells)) == Read(d)
  }

  lemma {:induction false} ReadToStep(d: Doc, k: nat, result: string)
    requires k < |d.order| && d.order[k] in d.cells && ReadTo(d, k, result)
    ensures var c := d.cells[d.order[k]];
      ReadTo(d, k + 1, if !c.tombstone && c.value.Some? then result + c.value.value else result)
  {
  }

  lemma {:induction false} ReadToEnds(d: Doc)
    ensures ReadTo(d, 0, "")
    ensures forall result :: ReadTo(d, |d.order|, result) ==> result == Read(d)
  {
  }

  /** The runs closed so far, the open run and the characters of the rest make up all runs. */
  ghost predicate CoalescedTo(d: Doc, k: nat, content: seq<Run>, text: string, attrs: Marks) {
    k <= |d.order| && content + Coalesce(GlyphsOf(d.order[k..], d.cells), text, attrs) == Coalesce(Glyphs(d), "", {})
  }

  lemma {:induction false} CoalesceHead(content: seq<Run>, g: Glyph, rest: seq<Glyph>, text: string, attrs: Marks)
    ensures content + Coalesce([g] + rest, text, attrs) ==
      if g.attrs != attrs then (content + Flush(text, attrs)) + Coalesce(rest, g.value, g.attrs)
      else content + Coalesce(rest, text + g.value, attrs)
  {
    assert ([g] + rest)[1..] == rest;
  }

  lemma {:induction false} CoalescedToStep(d: Doc, k: nat, content: seq<Run>, text: string, attrs: Marks)
    requires k < |d.order| && d.order[k] in d.cells && CoalescedTo(d, k, content, text, attrs)
    ensures var c := d.cells[d.order[k]];
      if c.tombstone || c.value.None? then CoalescedTo(d, k + 1, content, text, attrs)
      else if c.attrs != attrs then CoalescedTo(d, k + 1, content + Flush(text, attrs), "" + c.value.value, c.attrs)
      else CoalescedTo(d, k + 1, content, text + c.value.value, attrs)
  {
    var c, rest := d.cells[d.order[k]], GlyphsOf(d.order[k + 1..], d.cells);
    GlyphStep(d.order, d.cells, k);
    if !c.tombstone && c.value.Some? {
      assert "" + c.value.value == c.value.value;
      CoalesceHead(content, Glyph(c.value.value, c.attrs), rest, text, attrs);
    }
  }

  lemma {:induction false} CoalescedToEnds(d: Doc, content: seq<Run>, text: string, attrs: Marks)
    ensures CoalescedTo(d, 0, [], "", {})
    ensures CoalescedTo(d, |d.order|, content, text, attrs) ==>
      content + Flush(text, attrs) == Coalesce(Glyphs(d), "", {})
  {
  }

  /** Formatting with the entries that are left leads from here, with `ops` emitted so far, to `end` and `all`. */
  ghost predicate FormatsTo(d: Doc, replicaId: string, target: OpId, rest: Patch, ops: seq<Op>, end: Doc, all: seq<Op>)
    requires target in d.cells
  {
    FormatNode(d, replicaId, target, rest).0 == end && ops + FormatNode(d, replicaId, target, rest).1 == all
  }

  lemma {:induction false} FormatsToStep(d: Doc, replicaId: string, target: OpId, patch: Patch, j: nat, ops: seq<Op>,
                                         end: Doc, all: seq<Op>)
    requires target in d.cells && j < |patch|
    requires FormatsTo(d, replicaId, target, patch[j..], ops, end, all)
    ensures var (e, op) := Document.FormatMark(d, replicaId, target, patch[j].0, patch[j].1);
      FormatsTo(e, replicaId, target, patch[j + 1..], ops + [op], end, all)
  {
  }

  class Rga {
    const replicaId: string
    var head: RgaNode?
    var nodesById: Index
    var pending: map<OpId, seq<Op>>
    var counter: nat
    /** All nodes. */
    ghost var nodes: set<RgaNode>
    /** The abstract state. */
    ghost var doc: Doc

    ghost function Repr(): set<object>
      reads this
    {
      {this} + nodes
    }

    /** The fields represent `doc`. */
    ghost predicate Coupled()
      reads Repr()
    {
      && Represents(head, nodesById, nodes, doc.order, doc.cells)
      && pending == doc.pending && counter == doc.counter
    }

    constructor (replicaId: string)
      ensures Coupled() && fresh(Repr()) && this.replicaId == replicaId
      ensures doc == EMPTY
    {
      this.replicaId := replicaId;
      head, nodesById, pending, counter := null, map[], map[], 0;
      nodes, doc := {}, EMPTY;
    }

    /** The abstract state follows the nodes. */
    ghost method Become(d: Doc)
      requires Represents(head, nodesById, nodes, d.order, d.cells) && pending == d.pending && counter == d.counter
      modifies this`doc
      ensures Coupled() && doc == d
    {
      doc := d;
    }

    method NextId() returns (id: OpId)
      requires Coupled()
      modifies this`counter, this`doc
      ensures Coupled() && doc == old(doc).(counter := old(doc).counter + 1)
      ensures id == Document.NextId(old(doc), replicaId) == OpId(old(doc).counter + 1, replicaId)
    {
      counter := counter + 1;
      doc := doc.(counter := counter);
      id := OpId(counter, replicaId);
    }

    method BufferOn(key: OpId, op: Op)
      requires Coupled()
      modifies this`pending, this`doc
      ensures Coupled() && doc == old(doc).(pending := Document.BufferOn(old(doc).pending, key, op))
      ensures doc.pending ==
        old(doc).pending[key := (if key in old(doc).pending then old(doc).pending[key] else []) + [op]]
    {
      if key in pending {
        pending := pending[key := pending[key] + [op]];
      } else {
        pending := pending[key := [op]];
        assert [] + [op] == [op];
      }
      doc := doc.(pending := pending);
    }

    method TakeBuffered(key: OpId) returns (ops: seq<Op>)
      requires Coupled()
      modifies this`pending, this`doc
      ensures Coupled() && doc == old(doc).(pending := old(doc).pending - {key})
      ensures ops == Buffered(old(doc).pending, key)
      ensures ops == if key in old(doc).pending then old(doc).pending[key] else []
    {
      if key !in pending {
        assert pending - {key} == pending;
        return [];
      }
      ops := pending[key];
      pending := pending - {key};
      doc := doc.(pending := pending);
    }
  
    /** The scan of `integrate`: the neighbours between which a node with this id belongs. */
    method FindGap(anchor: RgaNode?, id: OpId, ghost order: seq<OpId>)
      returns (left: RgaNode?, right: RgaNode?, ghost at: nat)
      requires Within(nodesById, nodes) && Chained(head, order, nodesById, nodes)
      requires anchor != null ==> anchor.id in order && nodesById[anchor.id] == anchor
      ensures at == Scan(order, ScanStart(order, if anchor == null then None else Some(anchor.id)), id)
      ensures right == Nth(order, nodesById, at)
      ensures left == if at == 0 then null else Nth(order, nodesById, at - 1)
    {
      at := ScanStart(order, if anchor == null then None else Some(anchor.id));
      left := anchor;
      right := if anchor != null then anchor.next else head;
      ghost var stop := Scan(order, at, id);
      while right != null && CompareOpId(right.id, id) > 0
        invariant at <= |order| && right == Nth(order, nodesById, at)
        invariant left == if at == 0 then null else Nth(order, nodesById, at - 1)
        invariant Scan(order, at, id) == stop
        decreases |order| - at
      {
        CompareSigns(id, right.id);
        left, right, at := right, right.next, at + 1;
      }
      if right != null { CompareSigns(id, right.id); }
    }

    /** Links the indexed node `n` in between its neighbours. */
    method LinkIn(n: RgaNode, left: RgaNode?, right: RgaNode?, ghost order: seq<OpId>, ghost at: nat)
      requires Within(nodesById, nodes) && Chained(head, order, nodesById, nodes)
      requires n.id in nodesById && nodesById[n.id] == n && n.id !in order
      requires at <= |order| && right == Nth(order, nodesById, at)
      requires left == if at == 0 then null else Nth(order, nodesById, at - 1)
      requires at > 0 ==> forall i :: 0 <= i < |order| && i != at - 1 ==> order[i] != order[at - 1]
      modifies this`head, nodes`next
      ensures Chained(head, InsertAt(order, at, n.id), nodesById, nodes)
    {
      ghost var after := InsertAt(order, at, n.id);
      n.next := right;
      if left == null {
        head := n;
      } else {
        left.next := n;
      }
      forall i | 0 <= i < |after| ensures nodesById[after[i]].next == Nth(after, nodesById, i + 1) {
        if i < at {
          assert after[i] == order[i] && order[i] in order;
        } else if i > at {
          assert after[i] == order[i - 1] && order[i - 1] in order;
        }
      }
    }

    /** Puts a new node into the index. */
    method Register(n: RgaNode, ghost order: seq<OpId>, ghost cells: map<OpId, Cell>, ghost c: Cell)
      requires Within(nodesById, nodes) && Chained(head, order, nodesById, nodes) && Filled(nodesById, cells, nodes)
      requires n.id !in nodesById && Carries(n, c)
      modifies this`nodesById, this`nodes
      ensures nodesById == old(nodesById)[n.id := n] && nodes == old(nodes) + {n}
      ensures Within(nodesById, nodes) && Chained(head, order, nodesById, nodes)
      ensures Filled(nodesById, cells[n.id := c], nodes)
    {
      nodesById, nodes := nodesById[n.id := n], nodes + {n};
    }

    /** Scans for the place of the indexed node `n` and links it in. */
    method ScanAndLink(n: RgaNode, anchor: RgaNode?, ghost order: seq<OpId>, ghost keys: set<OpId>,
                       ghost cells: map<OpId, Cell>)
      requires Within(nodesById, nodes) && Chained(head, order, nodesById, nodes) && Filled(nodesById, cells, nodes)
      requires n.id in nodesById && nodesById[n.id] == n && OrderOk(order, keys) && n.id !in keys
      requires anchor != null ==> anchor.id in order && nodesById[anchor.id] == anchor
      modifies this`head, nodes`next
      ensures Chained(head, Place(order, n.id, if anchor == null then None else Some(anchor.id)), nodesById, nodes)
      ensures Filled(nodesById, cells, nodes)
    {
      var left, right;
      ghost var at;
      left, right, at := FindGap(anchor, n.id, order);
      NoSecond(order, keys, at);
      LinkIn(n, left, right, order, at);
    }

    /** Takes a new node into the index and the list. */
    method Adopt(n: RgaNode, anchor: RgaNode?, ghost c: Cell, ghost order: seq<OpId>, ghost cells: map<OpId, Cell>)
      requires Represents(head, nodesById, nodes, order, cells)
      requires n.id !in nodesById && Carries(n, c)
      requires anchor != null ==> anchor.id in nodesById && nodesById[anchor.id] == anchor
      modifies this`head, this`nodesById, this`nodes, n`next, nodes`next
      ensures nodes == old(nodes) + {n}
      ensures Represents(head, nodesById, nodes,
        Place(order, n.id, if anchor == null then None else Some(anchor.id)), cells[n.id := c])
    {
      PlaceKeepsOrderOk(order, cells.Keys, n.id, if anchor == null then None else Some(anchor.id));
      Register(n, order, cells, c);
      ScanAndLink(n, anchor, order, cells.Keys, cells[n.id := c]);
      assert cells[n.id := c].Keys == cells.Keys + {n.id};
    }

    method Attach(n: RgaNode, anchor: RgaNode?, ghost op: Op)
      requires Coupled() && op.Insert? && n.id == op.id && op.id !in nodesById && Carries(n, NewCell(op))
      requires op.origin == if anchor == null then None else Some(anchor.id)
      requires anchor != null ==> anchor.id in nodesById && nodesById[anchor.id] == anchor
      modifies this`head, this`nodesById, this`nodes, this`doc, n`next, nodes`next
      ensures Coupled() && nodes == old(nodes) + {n} && doc == Document.Integrate(old(doc), op)
    {
      Adopt(n, anchor, NewCell(op), doc.order, doc.cells);
      Become(Document.Integrate(doc, op));
    }

    /** Links a new node in behind its origin, past every node with a greater id. */
    method Integrate(anchor: RgaNode?, op: Op)
      requires Coupled() && op.Insert? && op.id !in nodesById
      requires op.origin == if anchor == null then None else Some(anchor.id)
      requires anchor != null ==> anchor.id in nodesById && nodesById[anchor.id] == anchor
      modifies Repr()
      ensures Coupled() && fresh(Repr() - old(Repr()))
      ensures doc == Document.Integrate(old(doc), op)
    {
      var newNode := new RgaNode(op.id, NewCell(op));
      Attach(newNode, anchor, op);
    }
  
    /** Deletion only marks the node: later inserts may still name it as their origin. */
    method Tombstone(target: RgaNode)
      requires Coupled() && target.id in nodesById && nodesById[target.id] == target
      modifies target`tombstone, this`doc
      ensures Coupled()
      ensures doc == old(doc).(cells := old(doc).cells[target.id := old(doc).cells[target.id].(tombstone := true)])
    {
      ghost var cells := doc.cells[target.id := doc.cells[target.id].(tombstone := true)];
      KeysStay(doc.cells, target.id, doc.cells[target.id].(tombstone := true));
      target.tombstone := true;
      assert Chained(head, doc.order, nodesById, nodes);
      assert Filled(nodesById, cells, nodes) by {
        forall x | x in nodesById ensures Carries(nodesById[x], cells[x]) {
          if x != target.id { assert nodesById[x] != target; }
        }
      }
      Become(doc.(cells := cells));
    }

    method SetClock(target: RgaNode, clock: map<string, OpId>)
      requires Coupled() && target.id in nodesById && nodesById[target.id] == target
      modifies target`formatClock, this`doc
      ensures Coupled()
      ensures doc == old(doc).(cells := old(doc).cells[target.id := old(doc).cells[target.id].(clock := clock)])
    {
      ghost var cells := doc.cells[target.id := doc.cells[target.id].(clock := clock)];
      KeysStay(doc.cells, target.id, doc.cells[target.id].(clock := clock));
      target.formatClock := clock;
      assert Chained(head, doc.order, nodesById, nodes);
      assert Filled(nodesById, cells, nodes) by {
        forall x | x in nodesById ensures Carries(nodesById[x], cells[x]) {
          if x != target.id { assert nodesById[x] != target; }
        }
      }
      Become(doc.(cells := cells));
    }

    method SetAttrs(target: RgaNode, attrs: Marks)
      requires Coupled() && target.id in nodesById && nodesById[target.id] == target
      modifies target`attrs, this`doc
      ensures Coupled()
      ensures doc == old(doc).(cells := old(doc).cells[target.id := old(doc).cells[target.id].(attrs := attrs)])
    {
      ghost var cells := doc.cells[target.id := doc.cells[target.id].(attrs := attrs)];
      KeysStay(doc.cells, target.id, doc.cells[target.id].(attrs := attrs));
      target.attrs := attrs;
      assert Chained(head, doc.order, nodesById, nodes);
      assert Filled(nodesById, cells, nodes) by {
        forall x | x in nodesById ensures Carries(nodesById[x], cells[x]) {
          if x != target.id { assert nodesById[x] != target; }
        }
      }
      Become(doc.(cells := cells));
    }

    /** Records a decision that was not outranked. */
    method Decide(target: RgaNode, mark: string, on: bool, id: OpId)
      requires Coupled() && target.id in nodesById && nodesById[target.id] == target
      modifies target`attrs, target`formatClock, this`doc
      ensures Coupled()
      ensures doc ==
        old(doc).(cells := old(doc).cells[target.id := DecidedCell(old(doc).cells[target.id], mark, on, id)])
    {
      ghost var cells, x := doc.cells, target.id;
      assert Carries(target, cells[x]);
      SetClock(target, target.formatClock[mark := id]);
      if on {
        SetAttrs(target, target.attrs + {mark});
      } else {
        SetAttrs(target, target.attrs - {mark});
      }
      UpdateTwice(cells, x, cells[x].(clock := cells[x].clock[mark := id]), DecidedCell(cells[x], mark, on, id));
    }

    /** One mark's last-writer-wins decision on one node. */
    method ApplyFormatOp(target: RgaNode, op: Op)
      requires Coupled() && target.id in nodesById && nodesById[target.id] == target && op.Format?
      modifies target`attrs, target`formatClock, this`doc
      ensures Coupled()
      ensures doc == old(doc).(cells := old(doc).cells[target.id := FormatCell(old(doc).cells[target.id], op)])
      ensures var before, after := old(doc).cells[target.id], doc.cells[target.id];
        if op.mark in before.clock && CompareOpId(before.clock[op.mark], op.id) >= 0 then after == before
        else after == before.(clock := before.clock[op.mark := op.id],
                              attrs := if op.on then before.attrs + {op.mark} else before.attrs - {op.mark})
    {
      assert Carries(target, doc.cells[target.id]);
      if op.mark in target.formatClock && CompareOpId(target.formatClock[op.mark], op.id) >= 0 {
        assert doc.cells[target.id := doc.cells[target.id]] == doc.cells;
        return;
      }
      Decide(target, op.mark, op.on, op.id);
    }

    /** Lamport's rule: the counter never falls behind an id that was seen. */
    method Observe(id: OpId)
      requires Coupled()
      modifies this`counter, this`doc
      ensures Coupled() && doc == old(doc).(counter := Max(old(doc).counter, id.counter))
    {
      counter := Max(counter, id.counter);
      doc := doc.(counter := counter);
    }

    method ApplyInsert(op: Op) returns (released: seq<Op>)
      requires Coupled() && op.Insert?
      modifies Repr()
      ensures Coupled() && fresh(Repr() - old(Repr()))
      ensures (doc, released) == Step(old(doc), op)
    {
      released := [];
      if op.id in nodesById {
        return;
      }
      if op.origin.Some? && op.origin.value !in nodesById {
        BufferOn(op.origin.value, op);
        return;
      }
      var anchor := if op.origin.Some? then nodesById[op.origin.value] else null;
      Integrate(anchor, op);
      Observe(op.id);
      released := TakeBuffered(op.id);
    }

    /** One turn of the loop in `apply`. */
    method ApplyStep(op: Op) returns (released: seq<Op>)
      requires Coupled()
      modifies Repr()
      ensures Coupled() && fresh(Repr() - old(Repr()))
      ensures (doc, released) == Step(old(doc), op)
    {
      released := [];
      if op.Insert? {
        released := ApplyInsert(op);
      } else if op.target !in nodesById {
        BufferOn(op.target, op);
      } else if op.Delete? {
        Tombstone(nodesById[op.target]);
      } else {
        ApplyFormatOp(nodesById[op.target], op);
        Observe(op.id);
      }
    }

    /** The invariant that holds between calls. */
    ghost predicate Valid()
      reads Repr()
    {
      Coupled() && Sound(doc)
    }

    /** Applies a remote or replayed op, and everything that was waiting for it. */
    method Apply(op: Op)
      requires Valid()
      modifies Repr()
      ensures Valid() && fresh(Repr() - old(Repr()))
      ensures doc == Document.Apply(old(doc), op)
    {
      DrainKeepsSound(doc, [op]);
      var queue := [op];
      while queue != []
        invariant Coupled() && fresh(Repr() - old(Repr()))
        invariant Drain(doc, queue) == Document.Apply(old(doc), op)
        decreases |queue| + PendingSize(doc.pending), |queue|
      {
        StepShrinks(doc, queue[0]);
        var released := ApplyStep(queue[0]);
        queue := queue[1..] + released;
      }
    }

    method ApplyAll(ops: seq<Op>)
      requires Valid()
      modifies Repr()
      ensures Valid() && fresh(Repr() - old(Repr()))
      ensures doc == Document.ApplyAll(old(doc), ops)
    {
      for i := 0 to |ops|
        invariant Valid() && fresh(Repr() - old(Repr()))
        invariant Document.ApplyAll(doc, ops[i..]) == Document.ApplyAll(old(doc), ops)
      {
        assert ops[i..][1..] == ops[i + 1..];
        Apply(ops[i]);
      }
    }

    // Reading

    lemma {:induction false} NthIsLive(k: nat)
      requires Coupled()
      ensures k < |doc.order| <==> Nth(doc.order, nodesById, k) != null
      ensures k < |doc.order| ==>
        var n, x := Nth(doc.order, nodesById, k), doc.order[k];
        n in nodes && n.id == x && x in nodesById && x in doc.cells && Carries(n, doc.cells[x])
          && n.next == Nth(doc.order, nodesById, k + 1)
    {
    }

    /** Steps over tombstones. */
    method SkipTombstones(from: RgaNode?, ghost k: nat) returns (node: RgaNode?, ghost j: nat)
      requires Coupled() && k <= |doc.order| && from == Nth(doc.order, nodesById, k)
      ensures k <= j <= |doc.order| && node == Nth(doc.order, nodesById, j)
      ensures VisibleOf(doc.order[j..], doc.cells) == VisibleOf(doc.order[k..], doc.cells)
      ensures j < |doc.order| ==> doc.order[j] in doc.cells && !doc.cells[doc.order[j]].tombstone
    {
      node, j := from, k;
      NthIsLive(j);
      while node != null && node.tombstone
        invariant k <= j <= |doc.order| && node == Nth(doc.order, nodesById, j)
        invariant VisibleOf(doc.order[j..], doc.cells) == VisibleOf(doc.order[k..], doc.cells)
        decreases |doc.order| - j
      {
        NthIsLive(j);
        assert doc.order[j..][1..] == doc.order[j + 1..];
        node, j := node.next, j + 1;
      }
      NthIsLive(j);
    }

    /** `node`, the k-th of the list, is the i-th visible one, or the end of the list behind all i visible ones. */
    ghost predicate AtVisible(node: RgaNode?, k: nat, i: nat)
      reads this`doc, this`nodesById
    {
      && k <= |doc.order| && node == Nth(doc.order, nodesById, k)
      && (k < |doc.order| ==> doc.order[k] in doc.cells && !doc.cells[doc.order[k]].tombstone)
      && i <= |Visible(doc)| && VisibleOf(doc.order[k..], doc.cells) == Visible(doc)[i..]
    }

    /** Steps from one visible node to the next. */
    method NextVisible(from: RgaNode, ghost k: nat, ghost i: nat) returns (node: RgaNode?, ghost j: nat)
      requires Coupled() && AtVisible(from, k, i)
      ensures AtVisible(node, j, i + 1)
    {
      NthIsLive(k);
      assert doc.order[k..][1..] == doc.order[k + 1..];
      assert VisibleOf(doc.order[k..], doc.cells) == [doc.order[k]] + VisibleOf(doc.order[k + 1..], doc.cells);
      assert Visible(doc)[i..][1..] == Visible(doc)[i + 1..];
      node, j := SkipTombstones(from.next, k + 1);
    }

    lemma {:induction false} AtVisibleIsNodeAt(node: RgaNode?, k: nat, i: nat)
      requires Coupled() && AtVisible(node, k, i)
      ensures NodeAt(doc, i) == if node == null then None else Some(node.id)
      ensures node != null ==> node.id in nodesById && nodesById[node.id] == node
      ensures node == null ==> i == |Visible(doc)|
    {
    }

    /** The node of the position-th visible character. */
    method FindNodeAtPosition(position: int) returns (node: RgaNode?)
      requires Coupled()
      ensures NodeAt(doc, position) == if node == null then None else Some(node.id)
      ensures node != null ==> node.id in nodesById && nodesById[node.id] == node
    {
      if position < 0 {
        return null;
      }
      ghost var k;
      node, k := SkipTombstones(head, 0);
      assert doc.order[0..] == doc.order && Visible(doc)[0..] == Visible(doc);
      var i := 0;
      while i < position && node != null
        invariant 0 <= i <= position && AtVisible(node, k, i)
        decreases position - i
      {
        node, k := NextVisible(node, k, i);
        i := i + 1;
      }
      AtVisibleIsNodeAt(node, k, i);
    }
  
    /** The text. */
    method Read() returns (result: string)
      requires Coupled()
      ensures result == Document.Read(doc)
    {
      result := "";
      var node := head;
      ghost var k := 0;
      ReadToEnds(doc);
      while node != null
        invariant node == Nth(doc.order, nodesById, k) && ReadTo(doc, k, result)
        decreases |doc.order| - k
      {
        NthIsLive(k);
        ReadToStep(doc, k, result);
        if !node.tombstone && node.value.Some? {
          result := result + node.value.value;
        }
        node, k := node.next, k + 1;
      }
      NthIsLive(k);
    }

    /** The editor's view: runs of equally marked text. */
    method GetContentsForEditor() returns (content: seq<Run>)
      requires Coupled()
      ensures content == Contents(doc)
    {
      content := [];
      var node, runText, runAttrs := head, "", {};
      ghost var k := 0;
      CoalescedToEnds(doc, content, runText, runAttrs);
      while node != null
        invariant node == Nth(doc.order, nodesById, k) && CoalescedTo(doc, k, content, runText, runAttrs)
        decreases |doc.order| - k
      {
        NthIsLive(k);
        CoalescedToStep(doc, k, content, runText, runAttrs);
        if !node.tombstone && node.value.Some? {
          if node.attrs != runAttrs {
            content, runText, runAttrs := content + Flush(runText, runAttrs), "", node.attrs;
          }
          runText := runText + node.value.value;
        }
        node, k := node.next, k + 1;
      }
      NthIsLive(k);
      CoalescedToEnds(doc, content, runText, runAttrs);
      content := content + Flush(runText, runAttrs);
      content := content + [Run("\n", {})];
    }

    // Local edits

    /** Types `value` in at the index; the op is for the other replicas. */
    method LocalInsert(index: int, value: string, attrs: Marks) returns (op: Op)
      requires Valid()
      modifies Repr()
      ensures Valid() && fresh(Repr() - old(Repr()))
      ensures op == InsertOpAt(old(doc), replicaId, index, value, attrs)
      ensures op == Insert(OpId(old(doc).counter + 1, replicaId), NodeAt(old(doc), index - 1), value, attrs)
      ensures doc == Document.LocalInsert(old(doc), op)
    {
      NextIdIsNew(doc, replicaId);
      LocalInsertKeepsSound(doc, replicaId, index, value, attrs);
      assert nodesById.Keys == doc.cells.Keys;
      op := InsertNew(index, value, attrs);
    }

    /** localInsert, given that the next id is free. */
    method InsertNew(index: int, value: string, attrs: Marks) returns (op: Op)
      requires Coupled() && Document.NextId(doc, replicaId) !in nodesById
      modifies Repr()
      ensures Coupled() && fresh(Repr() - old(Repr()))
      ensures op == InsertOpAt(old(doc), replicaId, index, value, attrs)
      ensures doc == Document.LocalInsert(old(doc), op)
    {
      var anchor := FindNodeAtPosition(index - 1);
      assert NodeAt(doc, index - 1) == if anchor == null then None else Some(anchor.id);
      op := InsertBehind(anchor, value, attrs);
    }

    /** A new id, and a character behind the anchor. */
    method InsertBehind(anchor: RgaNode?, value: string, attrs: Marks) returns (op: Op)
      requires Coupled() && Document.NextId(doc, replicaId) !in nodesById
      requires anchor != null ==> anchor.id in nodesById && nodesById[anchor.id] == anchor
      modifies Repr()
      ensures Coupled() && fresh(Repr() - old(Repr()))
      ensures op ==
        Insert(Document.NextId(old(doc), replicaId), if anchor == null then None else Some(anchor.id), value, attrs)
      ensures doc == Document.LocalInsert(old(doc), op)
    {
      var id := NextId();
      op := Insert(id, if anchor == null then None else Some(anchor.id), value, attrs);
      Integrate(anchor, op);
    }

    method DeleteAt(index: int) returns (op: Option<Op>)
      requires Coupled()
      modifies Repr()
      ensures Coupled() && nodes == old(nodes)
      ensures op.Some? <==> Document.LocalDelete(old(doc), index).Some?
      ensures op.None? ==> doc == old(doc)
      ensures op.Some? ==> (doc, op.value) == Document.LocalDelete(old(doc), index).value
    {
      var node := FindNodeAtPosition(index);
      if node == null {
        return None;
      }
      Tombstone(node);
      op := Some(Delete(node.id));
    }

    /** Deletes the character at the index; None is the exception for an index without a character. */
    method LocalDelete(index: int) returns (op: Option<Op>)
      requires Valid()
      modifies Repr()
      ensures Valid() && nodes == old(nodes)
      ensures op.Some? <==> Document.LocalDelete(old(doc), index).Some?
      ensures op.None? ==> doc == old(doc)
      ensures op.Some? ==> (doc, op.value) == Document.LocalDelete(old(doc), index).value
    {
      ghost var before := doc;
      op := DeleteAt(index);
      if op.Some? {
        LocalDeleteKeepsSound(before, index);
      }
    }

    /** A new format op for one node and mark. */
    method FormatMark(target: RgaNode, mark: string, on: bool) returns (op: Op)
      requires Coupled() && target.id in nodesById && nodesById[target.id] == target
      modifies this`counter, this`doc, target`attrs, target`formatClock
      ensures Coupled()
      ensures doc == Document.FormatMark(old(doc), replicaId, target.id, mark, on).0
      ensures op == Document.FormatMark(old(doc), replicaId, target.id, mark, on).1
    {
      var id := NextId();
      op := Format(id, target.id, mark, on);
      ApplyFormatOp(target, op);
    }

    /** One format op per entry of the patch, for one node. */
    method FormatOne(target: RgaNode, patch: Patch) returns (ops: seq<Op>)
      requires Coupled() && target.id in nodesById && nodesById[target.id] == target
      modifies this`counter, this`doc, target`attrs, target`formatClock
      ensures Coupled()
      ensures doc == FormatNode(old(doc), replicaId, target.id, patch).0
      ensures ops == FormatNode(old(doc), replicaId, target.id, patch).1
    {
      ops := [];
      ghost var (end, all) := FormatNode(doc, replicaId, target.id, patch);
      assert patch[0..] == patch;
      for j := 0 to |patch|
        invariant Coupled() && target.id in doc.cells
        invariant FormatsTo(doc, replicaId, target.id, patch[j..], ops, end, all)
      {
        FormatsToStep(doc, replicaId, target.id, patch, j, ops, end, all);
        var op := FormatMark(target, patch[j].0, patch[j].1);
        ops := ops + [op];
      }
    }
  
    /** The body of the loop over positions; `found` is false behind the end of the text. */
    method FormatAt(position: int, patch: Patch) returns (found: bool, ops: seq<Op>)
      requires Coupled()
      modifies Repr()
      ensures Coupled() && nodes == old(nodes)
      ensures found == NodeAt(old(doc), position).Some?
      ensures doc == Document.FormatAt(old(doc), replicaId, position, patch).0
      ensures ops == Document.FormatAt(old(doc), replicaId, position, patch).1
    {
      var target := FindNodeAtPosition(position);
      found, ops := target != null, [];
      if target != null {
        ops := FormatOne(target, patch);
      }
    }

    /** One position of a range. */
    method FormatNext(start: int, length: nat, patch: Patch, i: nat, soFar: seq<Op>, ghost end: Doc, ghost all: seq<Op>)
      returns (found: bool, ops: seq<Op>)
      requires Coupled() && i < length && RangeTo(doc, replicaId, start, length, patch, i, soFar, end, all)
      modifies Repr()
      ensures Coupled() && nodes == old(nodes)
      ensures found ==> RangeTo(doc, replicaId, start, length, patch, i + 1, ops, end, all)
      ensures !found ==> doc == end && ops == all
    {
      RangeToStep(doc, replicaId, start, length, patch, i, soFar, end, all);
      var more;
      found, more := FormatAt(start + i, patch);
      ops := soFar + more;
      assert !found ==> soFar + more == soFar;
    }

    method FormatRange(start: int, length: nat, patch: Patch, ghost end: Doc, ghost all: seq<Op>) returns (ops: seq<Op>)
      requires Coupled() && RangeTo(doc, replicaId, start, length, patch, 0, [], end, all)
      modifies Repr()
      ensures Coupled() && nodes == old(nodes) && doc == end && ops == all
    {
      ops := [];
      for i := 0 to length
        invariant Coupled() && nodes == old(nodes)
        invariant RangeTo(doc, replicaId, start, length, patch, i, ops, end, all)
      {
        var found;
        found, ops := FormatNext(start, length, patch, i, ops, end, all);
        if !found {
          return;
        }
      }
      RangeToStep(doc, replicaId, start, length, patch, length, ops, end, all);
    }

    /** Patches the marks of the characters in range; stops at the end of the text. */
    method LocalFormat(start: int, length: nat, patch: Patch) returns (ops: seq<Op>)
      requires Valid()
      modifies Repr()
      ensures Valid() && nodes == old(nodes)
      ensures doc == Document.LocalFormat(old(doc), replicaId, start, length, patch).0
      ensures ops == Document.LocalFormat(old(doc), replicaId, start, length, patch).1
    {
      LocalFormatPatches(doc, replicaId, start, length, patch);
      ghost var (end, all) := Document.LocalFormat(doc, replicaId, start, length, patch);
      RangeToStart(doc, replicaId, start, length, patch);
      ops := FormatRange(start, length, patch, end, all);
    }

    // Snapshots and compaction

    method ToSnapshot() returns (out: seq<SnapshotNode>)
      requires Coupled()
      ensures out == Document.ToSnapshot(doc) && |out| == |doc.order|
      ensures forall i :: 0 <= i < |out| ==> out[i] == SnapshotNode(doc.order[i], doc.cells[doc.order[i]])
    {
      out := [];
      var node := head;
      ghost var k := 0;
      while node != null
        invariant k <= |doc.order| && node == Nth(doc.order, nodesById, k)
        invariant out == Document.ToSnapshot(doc)[..k]
        decreases |doc.order| - k
      {
        NthIsLive(k);
        var cell := Cell(node.originId, node.value, node.tombstone, node.attrs, node.formatClock);
        assert Document.ToSnapshot(doc)[k] == SnapshotNode(node.id, cell);
        out := out + [SnapshotNode(node.id, cell)];
        node, k := node.next, k + 1;
      }
      NthIsLive(k);
    }

    method ClearValue(target: RgaNode)
      requires Coupled() && target.id in nodesById && nodesById[target.id] == target
      modifies target`value, this`doc
      ensures Coupled()
      ensures doc == old(doc).(cells := old(doc).cells[target.id := old(doc).cells[target.id].(value := None)])
    {
      ghost var cells := doc.cells[target.id := doc.cells[target.id].(value := None)];
      KeysStay(doc.cells, target.id, doc.cells[target.id].(value := None));
      target.value := None;
      assert Chained(head, doc.order, nodesById, nodes);
      assert Filled(nodesById, cells, nodes) by {
        forall x | x in nodesById ensures Carries(nodesById[x], cells[x]) {
          if x != target.id { assert nodesById[x] != target; }
        }
      }
      Become(doc.(cells := cells));
    }

    /** Clears the payload of one tombstone. */
    method ClearPayload(node: RgaNode)
      requires Coupled() && node.id in nodesById && nodesById[node.id] == node
      modifies node`value, node`attrs, node`formatClock, this`doc
      ensures Coupled()
      ensures doc == old(doc).(cells := old(doc).cells[node.id := Cleared(old(doc).cells[node.id])])
    {
      ghost var cells, x := doc.cells, node.id;
      ClearValue(node);
      SetAttrs(node, {});
      UpdateTwice(cells, x, cells[x].(value := None), cells[x].(value := None, attrs := {}));
      SetClock(node, map[]);
      UpdateTwice(cells, x, cells[x].(value := None, attrs := {}), Cleared(cells[x]));
    }

    /** The compaction loop stands at `node`, the k-th, having compacted what is before it. */
    ghost predicate CompactingAt(node: RgaNode?, before: Doc, k: nat)
      reads this`doc, this`nodesById
    {
      k <= |before.order| && node == Nth(doc.order, nodesById, k) && CompactedTo(doc, before, k)
    }

    lemma {:induction false} CompactingPosition(node: RgaNode?, before: Doc, k: nat)
      requires Coupled() && CompactingAt(node, before, k)
      ensures node == null ==> k == |before.order| && doc == Compact(before)
      ensures node != null ==> k < |before.order| && node in nodes
    {
      NthIsLive(k);
      CompactedOrder(doc, before, k);
      if node == null { CompactDone(doc, before); }
    }

    /** The body of the compaction loop. */
    method CompactNode(node: RgaNode, ghost before: Doc, ghost k: nat) returns (next: RgaNode?)
      requires Coupled() && k < |before.order| && CompactingAt(node, before, k)
      modifies node`value, node`attrs, node`formatClock, this`doc
      ensures Coupled() && CompactingAt(next, before, k + 1)
    {
      NthIsLive(k);
      CompactStep(before.order, before.cells, k);
      if node.tombstone {
        ClearPayload(node);
      }
      NthIsLive(k);
      next := node.next;
    }

    /** Clears the payload of every tombstone; ids and origins stay. */
    method CompactAll()
      requires Coupled()
      modifies nodes`value, nodes`attrs, nodes`formatClock, this`doc
      ensures Coupled() && doc == Compact(old(doc))
    {
      var node := head;
      ghost var k, before := 0, doc;
      while node != null
        invariant Coupled() && CompactingAt(node, before, k)
        decreases |before.order| - k
      {
        CompactingPosition(node, before, k);
        node := CompactNode(node, before, k);
        k := k + 1;
      }
      CompactingPosition(node, before, k);
    }

    /** compactTombstones. */
    method CompactTombstones()
      requires Valid()
      modifies nodes`value, nodes`attrs, nodes`formatClock, this`doc
      ensures Valid() && doc == Compact(old(doc))
      ensures doc.order == old(doc).order && doc.pending == old(doc).pending && doc.counter == old(doc).counter
      ensures doc.cells.Keys == old(doc).cells.Keys
      ensures forall x :: x in doc.cells && !old(doc).cells[x].tombstone ==> doc.cells[x] == old(doc).cells[x]
      ensures forall x :: x in doc.cells && old(doc).cells[x].tombstone ==>
        doc.cells[x] == Cell(old(doc).cells[x].origin, None, true, {}, map[])
    {
      CompactKeepsSound(doc);
      CompactAll();
    }

    /** Links an indexed node behind the last one. */
    method LinkBehind(n: RgaNode, prev: RgaNode?, ghost order: seq<OpId>, ghost cells: map<OpId, Cell>)
      requires Within(nodesById, nodes) && Chained(head, order, nodesById, nodes) && Filled(nodesById, cells, nodes)
      requires n.id in nodesById && nodesById[n.id] == n && n.id !in order
      requires prev == if order == [] then null else Nth(order, nodesById, |order| - 1)
      requires forall i :: 0 <= i < |order| - 1 ==> order[i] != order[|order| - 1]
      modifies this`head, nodes`next
      ensures Chained(head, InsertAt(order, |order|, n.id), nodesById, nodes) && Filled(nodesById, cells, nodes)
    {
      LinkIn(n, prev, null, order, |order|);
    }

    /** Indexes a node and links it behind the last one. */
    method LinkLast(n: RgaNode, prev: RgaNode?, ghost c: Cell, ghost order: seq<OpId>, ghost cells: map<OpId, Cell>)
      requires Represents(head, nodesById, nodes, order, cells)
      requires n.id !in nodesById && Carries(n, c) && n.next == null
      requires prev == if order == [] then null else Nth(order, nodesById, |order| - 1)
      modifies this`head, this`nodesById, this`nodes, n`next, nodes`next
      ensures nodes == old(nodes) + {n} && n.id in nodesById && nodesById[n.id] == n
      ensures Represents(head, nodesById, nodes, order + [n.id], cells[n.id := c])
    {
      AppendIsInsertion(order, cells, n.id, c);
      Register(n, order, cells, c);
      LinkBehind(n, prev, order, cells[n.id := c]);
    }

    method Append(n: RgaNode, prev: RgaNode?, ghost c: Cell)
      requires Coupled() && n.id !in doc.cells && Carries(n, c) && n.next == null
      requires prev == if doc.order == [] then null else Nth(doc.order, nodesById, |doc.order| - 1)
      modifies this`head, this`nodesById, this`nodes, this`doc, n`next, nodes`next
      ensures Coupled() && nodes == old(nodes) + {n} && n.id in nodesById && nodesById[n.id] == n
      ensures doc == AppendTo(old(doc), SnapshotNode(n.id, c)) && n == Nth(doc.order, nodesById, |doc.order| - 1)
    {
      ghost var order, cells := doc.order + [n.id], doc.cells[n.id := c];
      LinkLast(n, prev, c, doc.order, doc.cells);
      Become(doc.(order := order, cells := cells));
    }

    method AppendNew(s: SnapshotNode, prev: RgaNode?) returns (node: RgaNode)
      requires Coupled() && s.id !in doc.cells
      requires prev == if doc.order == [] then null else Nth(doc.order, nodesById, |doc.order| - 1)
      modifies Repr()
      ensures Coupled() && fresh(Repr() - old(Repr()))
      ensures doc == AppendTo(old(doc), s)
      ensures node == Nth(doc.order, nodesById, |doc.order| - 1)
    {
      node := new RgaNode(s.id, s.cell);
      Append(node, prev, s.cell);
    }

    method SetCounter(n: nat)
      requires Coupled()
      modifies this`counter, this`doc
      ensures Coupled() && doc == old(doc).(counter := n)
    {
      counter := n;
      doc := doc.(counter := n);
    }

    method Relink(snapshot: seq<SnapshotNode>) returns (maxCounter: nat)
      requires Coupled() && doc == EMPTY && NodesDistinct(snapshot)
      modifies Repr()
      ensures Coupled() && fresh(Repr() - old(Repr()))
      ensures Relinked(doc, snapshot, |snapshot|) && maxCounter == SnapshotCounter(snapshot)
    {
      var prev: RgaNode? := null;
      maxCounter := 0;
      for k := 0 to |snapshot|
        invariant Coupled() && fresh(Repr() - old(Repr()))
        invariant Relinked(doc, snapshot, k)
        invariant maxCounter == SnapshotCounter(snapshot[..k])
        invariant prev == if doc.order == [] then null else Nth(doc.order, nodesById, |doc.order| - 1)
      {
        RelinkedStep(doc, snapshot, k);
        prev := AppendNew(snapshot[k], prev);
        maxCounter := Absorb(maxCounter, snapshot, k);
      }
      assert snapshot[..|snapshot|] == snapshot;
    }

    /** Rebuilds a replica from a snapshot: relinks the nodes and takes the counter from the ids seen. */
    constructor FromSnapshot(snapshot: seq<SnapshotNode>, replicaId: string)
      requires NodesDistinct(snapshot)
      ensures Coupled() && fresh(Repr()) && this.replicaId == replicaId
      ensures doc == Document.FromSnapshot(snapshot)
      ensures Sound(Document.FromSnapshot(snapshot)) ==> Valid()
    {
      this.replicaId := replicaId;
      head, nodesById, pending, counter := null, map[], map[], 0;
      nodes, doc := {}, EMPTY;
      new;
      var maxCounter := Relink(snapshot);
      assert snapshot[..|snapshot|] == snapshot;
      SetCounter(maxCounter);
    }
  }

  /** The counter after one more node of the snapshot. */
  method Absorb(maxCounter: nat, s: seq<SnapshotNode>, k: nat) returns (n: nat)
    requires k < |s| && maxCounter == SnapshotCounter(s[..k])
    ensures n == SnapshotCounter(s[..k + 1])
  {
    assert s[..k + 1][..k] == s[..k];
    var clockMax := GreatestCounter(s[k].cell.clock);
    n := Max(maxCounter, Max(s[k].id.counter, clockMax));
  }

  method GreatestCounter(clock: map<string, OpId>) returns (n: nat)
    ensures n == ClockMax(clock)
  {
    n := 0;
    var left := clock.Keys;
    while left != {}
      invariant left <= clock.Keys
      invariant forall m :: m in clock && m !in left ==> clock[m].counter <= n
      invariant n == 0 || exists m :: m in clock && clock[m].counter == n
      decreases left
    {
      var m :| m in left;
      n := Max(n, clock[m].counter);
      left := left - {m};
    }
  }
}
