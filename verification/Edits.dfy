/** The user's own edits (packages/crdt/src/rga.ts). */
module Edits {
  import opened Ids
  import opened Ops
  import opened Order
  import opened Document
  import opened Delivery

  // `localInsert`, `localDelete` and `localFormat` do exactly what was asked at exactly the index that was asked, and
  // the ops they emit do the same when applied.

  /** Characters that are not deleted still have their value. */
  ghost predicate LiveValues(d: Doc) {
    forall x :: x in d.cells && !d.cells[x].tombstone ==> d.cells[x].value.Some?
  }

  /** What holds of the list of every replica, compacted or not, whatever was delivered. */
  ghost predicate Sound(d: Doc) {
    Listed(d) && CounterBound(d) && LiveValues(d)
  }

  lemma {:induction false} ExactIsSound(d: Doc, ops: set<Op>)
    requires Exact(d, ops)
    ensures Sound(d)
  {
  }

  lemma {:induction false} StepKeepsSound(d: Doc, op: Op)
    requires Sound(d)
    ensures Sound(Step(d, op).0)
  {
    StepKeepsListed(d, op);
    StepKeepsBound(d, op);
  }

  lemma {:induction false} DrainKeepsSound(d: Doc, queue: seq<Op>)
    requires Sound(d)
    ensures Sound(Drain(d, queue))
    decreases |queue| + PendingSize(d.pending), |queue|
  {
    if queue != [] {
      StepShrinks(d, queue[0]);
      StepKeepsSound(d, queue[0]);
      var (e, released) := Step(d, queue[0]);
      DrainKeepsSound(e, queue[1..] + released);
    }
  }

  lemma {:induction false} ApplyAllKeepsSound(d: Doc, ops: seq<Op>)
    requires Sound(d)
    ensures Sound(ApplyAll(d, ops))
    decreases |ops|
  {
    if ops != [] {
      DrainKeepsSound(d, [ops[0]]);
      ApplyAllKeepsSound(Apply(d, ops[0]), ops[1..]);
    }
  }

  lemma {:induction false} CompactKeepsSound(d: Doc)
    requires Sound(d)
    ensures Sound(Compact(d))
  {
    assert OriginsOf(Compact(d).cells) == OriginsOf(d.cells);
    forall x | x in d.cells ensures CellBound(x, CompactCell(d.cells[x]), d.counter) {
      assert CellBound(x, d.cells[x], d.counter);
    }
  }

  // Local and remote agreement

  lemma {:induction false} NextIdIsNew(d: Doc, replicaId: string)
    requires CounterBound(d)
    ensures NextId(d, replicaId) !in d.cells
    ensures forall x :: x in d.cells ==> Less(x, NextId(d, replicaId))
    ensures forall x, m :: x in d.cells && m in d.cells[x].clock ==> Less(d.cells[x].clock[m], NextId(d, replicaId))
  {
  }

  lemma {:induction false} DrainKeepsCell(d: Doc, queue: seq<Op>, x: OpId)
    requires Wf(d) && x in d.cells
    ensures x in Drain(d, queue).cells && x !in Drain(d, queue).pending
    decreases |queue| + PendingSize(d.pending), |queue|
  {
    if queue != [] {
      StepShrinks(d, queue[0]);
      StepKeepsWf(d, queue[0]);
      var (e, released) := Step(d, queue[0]);
      DrainKeepsCell(e, queue[1..] + released, x);
    }
  }

  /**
   A local insert and the delivery of the op it emits do the same, iff nothing is buffered under the
   new id: localInsert does not look into the buffer.
   */
  lemma {:induction false} LocalInsertAgrees(d: Doc, replicaId: string, index: int, value: string, attrs: Marks)
    requires Wf(d) && CounterBound(d)
    ensures var op := InsertOpAt(d, replicaId, index, value, attrs);
      LocalInsert(d, op) == Apply(d, op) <==> op.id !in d.pending
  {
    var op := InsertOpAt(d, replicaId, index, value, attrs);
    NextIdIsNew(d, replicaId);
    var (e, released) := Step(d, op);
    if op.id in d.pending {
      StepKeepsWf(d, op);
      DrainKeepsCell(e, [op][1..] + released, op.id);
    } else {
      assert d.pending - {op.id} == d.pending;
      assert [op][1..] + released == [];
    }
    assert Apply(d, op) == Drain(e, [op][1..] + released);
  }

  lemma {:induction false} LocalDeleteAgrees(d: Doc, index: int)
    requires LocalDelete(d, index).Some?
    ensures LocalDelete(d, index).value.0 == Apply(d, LocalDelete(d, index).value.1)
  {
    var op := LocalDelete(d, index).value.1;
    assert [op][1..] + Step(d, op).1 == [];
    assert Apply(d, op) == Drain(Step(d, op).0, []);
  }

  lemma {:induction false} ApplyAllConcat(d: Doc, a: seq<Op>, b: seq<Op>)
    ensures ApplyAll(d, a + b) == ApplyAll(ApplyAll(d, a), b)
    decreases |a|
  {
    if a == [] {
      assert a + b == b;
    } else {
      assert (a + b)[1..] == a[1..] + b;
      ApplyAllConcat(Apply(d, a[0]), a[1..], b);
    }
  }

  lemma {:induction false} FormatNodeAgrees(d: Doc, replicaId: string, target: OpId, patch: Patch)
    requires target in d.cells
    ensures var (e, ops) := FormatNode(d, replicaId, target, patch); e == ApplyAll(d, ops)
    decreases |patch|
  {
    if patch != [] {
      var (e, op) := FormatMark(d, replicaId, target, patch[0].0, patch[0].1);
      assert Step(d, op) == (e, []);
      assert [op][1..] + Step(d, op).1 == [];
      assert Apply(d, op) == Drain(e, []) == e;
      FormatNodeAgrees(e, replicaId, target, patch[1..]);
      var (f, ops) := FormatNode(e, replicaId, target, patch[1..]);
      assert ([op] + ops)[1..] == ops;
    }
  }

  lemma {:induction false} LocalFormatAgrees(d: Doc, replicaId: string, start: int, length: nat, patch: Patch)
    ensures var (e, ops) := LocalFormat(d, replicaId, start, length, patch); e == ApplyAll(d, ops)
    decreases length
  {
    var target := NodeAt(d, start);
    if length > 0 && target.Some? {
      FormatNodeAgrees(d, replicaId, target.value, patch);
      var (e, ops) := FormatNode(d, replicaId, target.value, patch);
      LocalFormatAgrees(e, replicaId, start + 1, length - 1, patch);
      var (f, more) := LocalFormat(e, replicaId, start + 1, length - 1, patch);
      ApplyAllConcat(d, ops, more);
    }
  }

  // What an edit does to the visible sequence

  ghost function GlyphOf(c: Cell): Glyph
    requires c.value.Some?
  {
    Glyph(c.value.value, c.attrs)
  }

  lemma {:induction false} GlyphsAreVisible(order: seq<OpId>, cells: map<OpId, Cell>)
    requires forall x :: x in cells && !cells[x].tombstone ==> cells[x].value.Some?
    ensures var v, g := VisibleOf(order, cells), GlyphsOf(order, cells);
      |g| == |v| &&
      forall i :: 0 <= i < |v| ==> v[i] in cells && cells[v[i]].value.Some? && g[i] == GlyphOf(cells[v[i]])
  {
    if order != [] { GlyphsAreVisible(order[1..], cells); }
  }

  lemma {:induction false} VisibleConcat(a: seq<OpId>, b: seq<OpId>, cells: map<OpId, Cell>)
    ensures VisibleOf(a + b, cells) == VisibleOf(a, cells) + VisibleOf(b, cells)
  {
    if a == [] {
      assert a + b == b;
    } else {
      assert (a + b)[1..] == a[1..] + b;
      VisibleConcat(a[1..], b, cells);
    }
  }

  /** Cells outside `order`, and changes other than of tombstones, do not show. */
  lemma {:induction false} VisibleFrame(order: seq<OpId>, cells: map<OpId, Cell>, cells': map<OpId, Cell>)
    requires forall x :: x in order ==>
      (x in cells <==> x in cells') && (x in cells ==> cells[x].tombstone == cells'[x].tombstone)
    ensures VisibleOf(order, cells) == VisibleOf(order, cells')
  {
    if order != [] {
      assert order[0] in order;
      VisibleFrame(order[1..], cells, cells');
    }
  }

  lemma {:induction false} FindVisible(order: seq<OpId>, cells: map<OpId, Cell>, i: nat) returns (at: nat)
    requires i < |VisibleOf(order, cells)|
    ensures at < |order| && order[at] == VisibleOf(order, cells)[i]
    ensures |VisibleOf(order[..at], cells)| == i
  {
    if order[0] in cells && !cells[order[0]].tombstone {
      if i == 0 {
        at := 0;
      } else {
        at := FindVisible(order[1..], cells, i - 1);
        at := at + 1;
        assert order[..at][1..] == order[1..][..at - 1];
      }
    } else {
      at := FindVisible(order[1..], cells, i);
      at := at + 1;
      assert order[..at][1..] == order[1..][..at - 1];
    }
  }

  lemma {:induction false} VisibleAround(order: seq<OpId>, cells: map<OpId, Cell>, at: nat)
    requires at < |order| && order[at] in cells && !cells[order[at]].tombstone
    ensures VisibleOf(order, cells) == VisibleOf(order[..at], cells) + VisibleOf(order[at..], cells)
    ensures VisibleOf(order[at..], cells) == [order[at]] + VisibleOf(order[at + 1..], cells)
    ensures VisibleOf(order[..at + 1], cells) == VisibleOf(order[..at], cells) + [order[at]]
  {
    assert order[..at] + order[at..] == order;
    VisibleConcat(order[..at], order[at..], cells);
    assert order[at..][1..] == order[at + 1..];
    assert order[..at + 1] == order[..at] + [order[at]];
    VisibleConcat(order[..at], [order[at]], cells);
    assert VisibleOf([order[at]], cells) == [order[at]];
  }

  lemma {:induction false} PartsAround(v: seq<OpId>, a: seq<OpId>, x: OpId, b: seq<OpId>)
    requires v == a + ([x] + b)
    ensures v[..|a|] == a && v[|a|..] == [x] + b && v[..|a| + 1] == a + [x] && v[|a| + 1..] == b && v[|a|] == x
  {
  }

  /** Splitting the list at the i-th visible character splits what is visible at i. */
  lemma {:induction false} VisibleSplit(order: seq<OpId>, cells: map<OpId, Cell>, i: nat) returns (at: nat)
    requires i < |VisibleOf(order, cells)|
    ensures var v := VisibleOf(order, cells);
      && at < |order| && order[at] == v[i]
      && VisibleOf(order[..at], cells) == v[..i] && VisibleOf(order[at..], cells) == v[i..]
      && VisibleOf(order[..at + 1], cells) == v[..i + 1] && VisibleOf(order[at + 1..], cells) == v[i + 1..]
  {
    at := FindVisible(order, cells, i);
    assert order[at] in cells && !cells[order[at]].tombstone by { assert order[at] in VisibleOf(order, cells); }
    VisibleAround(order, cells, at);
    PartsAround(VisibleOf(order, cells), VisibleOf(order[..at], cells), order[at], VisibleOf(order[at + 1..], cells));
  }

  /** The new id is larger than all others, so the scan stops at once: right behind the origin. */
  lemma {:induction false} LargestLandsAtStart(d: Doc, id: OpId, origin: Option<OpId>)
    requires forall x :: x in d.order ==> Less(x, id)
    ensures Place(d.order, id, origin) == InsertAt(d.order, ScanStart(d.order, origin), id)
  {
    var at := ScanStart(d.order, origin);
    if at < |d.order| {
      assert d.order[at] in d.order;
      CompareSigns(d.order[at], id);
    }
    PlaceAt(d.order, id, origin, at);
  }

  function Splice<T>(s: seq<T>, i: nat, x: T): seq<T>
    requires i <= |s|
  {
    s[..i] + [x] + s[i..]
  }

  /** The place a local insert really gets: its index, or the very front when the index is out of range. */
  function InsertIndex(d: Doc, index: int): (i: nat)
    ensures i <= |Visible(d)|
  {
    if 0 <= index <= |Visible(d)| then index else 0
  }

  lemma {:induction false} StartsBehindVisible(order: seq<OpId>, cells: map<OpId, Cell>, i: nat)
    requires Distinct(order) && i < |VisibleOf(order, cells)|
    ensures var v := VisibleOf(order, cells); var at := ScanStart(order, Some(v[i]));
      VisibleOf(order[..at], cells) == v[..i + 1] && VisibleOf(order[at..], cells) == v[i + 1..]
  {
    var at := VisibleSplit(order, cells, i);
    IndexOfAt(order, order[at], at);
  }

  lemma {:induction false} InsertSplitsWithin(d: Doc, index: int)
    requires Listed(d) && 0 < index <= |Visible(d)|
    ensures var at, v := ScanStart(d.order, NodeAt(d, index - 1)), Visible(d);
      VisibleOf(d.order[..at], d.cells) == v[..index] && VisibleOf(d.order[at..], d.cells) == v[index..]
  {
    assert NodeAt(d, index - 1) == Some(Visible(d)[index - 1]);
    assert Distinct(d.order) by { ListElements(d); }
    StartsBehindVisible(d.order, d.cells, index - 1);
  }

  lemma {:induction false} InsertSplitsAtHead(d: Doc, index: int)
    requires !(0 < index <= |Visible(d)|)
    ensures InsertIndex(d, index) == 0 && ScanStart(d.order, NodeAt(d, index - 1)) == 0
    ensures VisibleOf(d.order[..0], d.cells) == Visible(d)[..0] && VisibleOf(d.order[0..], d.cells) == Visible(d)[0..]
  {
    assert d.order[..0] == [] && d.order[0..] == d.order && Visible(d)[0..] == Visible(d);
  }

  /** The scan of a local insert starts where the visible text is split at the insert's place. */
  lemma {:induction false} InsertSplits(d: Doc, index: int)
    requires Listed(d)
    ensures var at, v, i := ScanStart(d.order, NodeAt(d, index - 1)), Visible(d), InsertIndex(d, index);
      VisibleOf(d.order[..at], d.cells) == v[..i] && VisibleOf(d.order[at..], d.cells) == v[i..]
  {
    if 0 < index <= |Visible(d)| { InsertSplitsWithin(d, index); } else { InsertSplitsAtHead(d, index); }
  }

  lemma {:induction false} VisibleInsertAt(order: seq<OpId>, cells: map<OpId, Cell>, at: nat, id: OpId, c: Cell)
    requires at <= |order| && id !in order && !c.tombstone
    ensures VisibleOf(InsertAt(order, at, id), cells[id := c])
         == VisibleOf(order[..at], cells) + [id] + VisibleOf(order[at..], cells)
  {
    var after := cells[id := c];
    VisibleFrame(order[..at], cells, after);
    VisibleFrame(order[at..], cells, after);
    VisibleConcat(order[..at] + [id], order[at..], after);
    VisibleConcat(order[..at], [id], after);
    assert VisibleOf([id], after) == [id];
  }

  lemma {:induction false} LocalInsertVisible(d: Doc, replicaId: string, index: int, value: string, attrs: Marks)
    requires Sound(d)
    ensures var op := InsertOpAt(d, replicaId, index, value, attrs);
      Visible(LocalInsert(d, op)) == Splice(Visible(d), InsertIndex(d, index), op.id)
  {
    var op := InsertOpAt(d, replicaId, index, value, attrs);
    ListElements(d);
    NextIdIsNew(d, replicaId);
    LargestLandsAtStart(d, op.id, op.origin);
    InsertSplits(d, index);
    VisibleInsertAt(d.order, d.cells, ScanStart(d.order, op.origin), op.id, NewCell(op));
  }

  lemma {:induction false} LocalInsertKeepsSound(d: Doc, replicaId: string, index: int, value: string, attrs: Marks)
    requires Sound(d)
    ensures Sound(LocalInsert(d, InsertOpAt(d, replicaId, index, value, attrs)))
  {
    var op := InsertOpAt(d, replicaId, index, value, attrs);
    NextIdIsNew(d, replicaId);
    ListElements(d);
    IntegrateKeepsListed(d, op);
    var e := LocalInsert(d, op);
    forall x | x in e.cells ensures CellBound(x, e.cells[x], e.counter) {
      if x != op.id { assert CellBound(x, d.cells[x], d.counter); }
    }
  }

  // Glyph-level results: the text the user sees

  lemma {:induction false} GlyphsSplice(d: Doc, e: Doc, i: nat, id: OpId)
    requires LiveValues(d) && LiveValues(e) && i <= |Visible(d)|
    requires Visible(e) == Splice(Visible(d), i, id) && id in e.cells && e.cells[id].value.Some?
    requires forall x :: x in Visible(d) ==> x in d.cells && x in e.cells && e.cells[x] == d.cells[x]
    ensures |Glyphs(d)| == |Visible(d)| && Glyphs(e) == Splice(Glyphs(d), i, GlyphOf(e.cells[id]))
  {
    GlyphsAreVisible(d.order, d.cells);
    GlyphsAreVisible(e.order, e.cells);
    var g, w := Glyphs(e), Splice(Glyphs(d), i, GlyphOf(e.cells[id]));
    forall k | 0 <= k < |g| ensures g[k] == w[k] {
      assert Visible(e)[k] == if k < i then Visible(d)[k] else if k == i then id else Visible(d)[k - 1];
    }
  }

  /**
   localInsert at an index within the text puts exactly the new attributed character there, text[..i] + v +
   text[i..]; an index beyond the end (or below zero) has no left neighbour and puts it at the front.
   */
  lemma {:induction false} LocalInsertSplices(d: Doc, replicaId: string, index: int, value: string, attrs: Marks)
    requires Sound(d)
    ensures |Glyphs(d)| == |Visible(d)|
    ensures Glyphs(LocalInsert(d, InsertOpAt(d, replicaId, index, value, attrs)))
         == Splice(Glyphs(d), InsertIndex(d, index), Glyph(value, attrs))
  {
    var op := InsertOpAt(d, replicaId, index, value, attrs);
    LocalInsertVisible(d, replicaId, index, value, attrs);
    NextIdIsNew(d, replicaId);
    GlyphsSplice(d, LocalInsert(d, op), InsertIndex(d, index), op.id);
  }

  lemma {:induction false} VisibleDistinct(order: seq<OpId>, cells: map<OpId, Cell>)
    requires Distinct(order)
    ensures Distinct(VisibleOf(order, cells))
  {
    if order != [] {
      assert order == [order[0]] + order[1..];
      VisibleDistinct(order[1..], cells);
    }
  }

  lemma {:induction false} DistinctAround(s: seq<OpId>, at: nat)
    requires Distinct(s) && at < |s|
    ensures s[at] !in s[..at] && s[at] !in s[at + 1..]
  {
  }

  lemma {:induction false} DeleteVisibleAt(order: seq<OpId>, cells: map<OpId, Cell>, at: nat)
    requires at < |order| && order[at] in cells
    requires order[at] !in order[..at] && order[at] !in order[at + 1..]
    ensures VisibleOf(order, cells[order[at] := cells[order[at]].(tombstone := true)])
         == VisibleOf(order[..at], cells) + VisibleOf(order[at + 1..], cells)
  {
    var after := cells[order[at] := cells[order[at]].(tombstone := true)];
    assert order == order[..at] + ([order[at]] + order[at + 1..]);
    VisibleConcat(order[..at], [order[at]] + order[at + 1..], after);
    VisibleConcat([order[at]], order[at + 1..], after);
    assert VisibleOf([order[at]], after) == [];
    VisibleFrame(order[..at], cells, after);
    VisibleFrame(order[at + 1..], cells, after);
  }

  function Remove<T>(s: seq<T>, i: nat): seq<T>
    requires i < |s|
  {
    s[..i] + s[i + 1..]
  }

  lemma {:induction false} LocalDeleteVisible(d: Doc, index: int)
    requires Sound(d)
    ensures LocalDelete(d, index).Some? <==> 0 <= index < |Visible(d)|
    ensures 0 <= index < |Visible(d)| ==>
      Visible(LocalDelete(d, index).value.0) == Remove(Visible(d), index)
  {
    if 0 <= index < |Visible(d)| {
      var at := VisibleSplit(d.order, d.cells, index);
      ListElements(d);
      DistinctAround(d.order, at);
      assert d.order[at] in Visible(d);
      DeleteVisibleAt(d.order, d.cells, at);
    }
  }

  lemma {:induction false} LocalDeleteKeepsSound(d: Doc, index: int)
    requires Sound(d) && LocalDelete(d, index).Some?
    ensures Sound(LocalDelete(d, index).value.0)
  {
    var x := LocalDelete(d, index).value.1.target;
    UpdateKeepsListed(d, x, d.cells[x].(tombstone := true));
    assert CellBound(x, d.cells[x], d.counter);
  }

  /** When what is left visible kept its value and marks, what is left shows the same. */
  lemma {:induction false} GlyphsRemove(d: Doc, e: Doc, index: nat)
    requires LiveValues(d) && LiveValues(e)
    requires index < |Visible(d)| && Visible(e) == Remove(Visible(d), index)
    requires forall x :: x in Visible(e) ==> x in d.cells && x in e.cells && e.cells[x] == d.cells[x]
    ensures |Glyphs(d)| == |Visible(d)| && Glyphs(e) == Remove(Glyphs(d), index)
  {
    GlyphsAreVisible(d.order, d.cells);
    GlyphsAreVisible(e.order, e.cells);
    var g, w := Glyphs(e), Remove(Glyphs(d), index);
    forall k | 0 <= k < |w| ensures g[k] == w[k] {
      assert Visible(e)[k] in Visible(e);
      assert Visible(e)[k] == if k < index then Visible(d)[k] else Visible(d)[k + 1];
    }
  }

  /** localDelete removes exactly the character at the index, and throws exactly when there is none. */
  lemma {:induction false} LocalDeleteRemoves(d: Doc, index: int)
    requires Sound(d)
    ensures |Glyphs(d)| == |Visible(d)|
    ensures LocalDelete(d, index).Some? <==> 0 <= index < |Glyphs(d)|
    ensures LocalDelete(d, index).Some? ==> Glyphs(LocalDelete(d, index).value.0) == Remove(Glyphs(d), index)
  {
    GlyphsAreVisible(d.order, d.cells);
    LocalDeleteVisible(d, index);
    if LocalDelete(d, index).Some? {
      LocalDeleteKeepsSound(d, index);
      GlyphsRemove(d, LocalDelete(d, index).value.0, index);
    }
  }

  /** What a patch makes of a character's marks, entry by entry. */
  function PatchMarks(attrs: Marks, patch: Patch): Marks
    decreases |patch|
  {
    if patch == [] then attrs
    else PatchMarks(if patch[0].1 then attrs + {patch[0].0} else attrs - {patch[0].0}, patch[1..])
  }

  /** A local format op is newer than every decision on record, so it wins. */
  lemma {:induction false} LocalFormatWins(d: Doc, replicaId: string, target: OpId, mark: string, on: bool)
    requires CounterBound(d) && target in d.cells
    ensures var c := d.cells[target];
      FormatCell(c, Format(NextId(d, replicaId), target, mark, on))
        == c.(clock := c.clock[mark := NextId(d, replicaId)],
              attrs := if on then c.attrs + {mark} else c.attrs - {mark})
  {
  }

  lemma {:induction false} LocalFormatOpKeepsSound(d: Doc, op: Op)
    requires Sound(d) && op.Format? && op.target in d.cells && op.id.counter == d.counter + 1
    ensures Sound(d.(cells := d.cells[op.target := FormatCell(d.cells[op.target], op)], counter := d.counter + 1))
  {
    StepKeepsSound(d, op);
  }

  lemma {:induction false} FormatNodeResult(d: Doc, replicaId: string, target: OpId, patch: Patch)
    requires Sound(d) && target in d.cells
    ensures var e := FormatNode(d, replicaId, target, patch).0;
      && Sound(e) && e.order == d.order && e.pending == d.pending && e.cells.Keys == d.cells.Keys
      && e.cells[target]
           == d.cells[target].(attrs := PatchMarks(d.cells[target].attrs, patch), clock := e.cells[target].clock)
      && forall x :: x in d.cells && x != target ==> e.cells[x] == d.cells[x]
    decreases |patch|
  {
    if patch != [] {
      var (e, op) := FormatMark(d, replicaId, target, patch[0].0, patch[0].1);
      LocalFormatWins(d, replicaId, target, patch[0].0, patch[0].1);
      LocalFormatOpKeepsSound(d, op);
      FormatNodeResult(e, replicaId, target, patch[1..]);
    }
  }

  function PatchGlyph(g: Glyph, patch: Patch): Glyph {
    Glyph(g.value, PatchMarks(g.attrs, patch))
  }

  /** Patching the characters at start, ..., start + length - 1, as far as they exist. */
  function FormatRange(g: seq<Glyph>, start: int, length: nat, patch: Patch): seq<Glyph> {
    seq(|g|, i requires 0 <= i < |g| => if 0 <= start <= i < start + length then PatchGlyph(g[i], patch) else g[i])
  }

  lemma {:induction false} FormatOneGlyph(d: Doc, replicaId: string, index: nat, patch: Patch)
    requires Sound(d) && index < |Visible(d)|
    ensures |Glyphs(d)| == |Visible(d)|
    ensures var e := FormatNode(d, replicaId, Visible(d)[index], patch).0;
      Visible(e) == Visible(d) && Glyphs(e) == Glyphs(d)[index := PatchGlyph(Glyphs(d)[index], patch)]
  {
    var x, v := Visible(d)[index], Visible(d);
    assert x in v;
    var e := FormatNode(d, replicaId, x, patch).0;
    FormatNodeResult(d, replicaId, x, patch);
    VisibleFrame(d.order, d.cells, e.cells);
    GlyphsAreVisible(d.order, d.cells);
    GlyphsAreVisible(e.order, e.cells);
    assert Distinct(v) by { ListElements(d); VisibleDistinct(d.order, d.cells); }
    var g, w := Glyphs(e), Glyphs(d)[index := PatchGlyph(Glyphs(d)[index], patch)];
    forall k | 0 <= k < |w| ensures g[k] == w[k] {
      assert v[k] in d.cells && (k != index ==> v[k] != x);
    }
  }

  ghost function FormatOneDoc(d: Doc, replicaId: string, start: nat, patch: Patch): Doc
    requires start < |Visible(d)|
  {
    assert Visible(d)[start] in Visible(d);
    FormatNode(d, replicaId, Visible(d)[start], patch).0
  }

  lemma {:induction false} FormatOneResult(d: Doc, replicaId: string, start: nat, patch: Patch)
    requires Sound(d) && start < |Visible(d)|
    ensures |Glyphs(d)| == |Visible(d)|
    ensures var e := FormatOneDoc(d, replicaId, start, patch);
      && Sound(e) && Visible(e) == Visible(d)
      && Glyphs(e) == Glyphs(d)[start := PatchGlyph(Glyphs(d)[start], patch)]
  {
    assert Visible(d)[start] in Visible(d);
    FormatNodeResult(d, replicaId, Visible(d)[start], patch);
    FormatOneGlyph(d, replicaId, start, patch);
  }

  lemma {:induction false} FormatRangeEmpty(g: seq<Glyph>, start: int, length: nat, patch: Patch)
    requires length == 0 || start < 0 || start >= |g|
    ensures FormatRange(g, start, length, patch) == g
  {
  }

  lemma {:induction false} LocalFormatUnfolds(d: Doc, replicaId: string, start: int, length: nat, patch: Patch)
    ensures LocalFormat(d, replicaId, start, length, patch).0
         == if length > 0 && 0 <= start < |Visible(d)|
            then LocalFormat(FormatOneDoc(d, replicaId, start, patch), replicaId, start + 1, length - 1, patch).0
            else d
  {
  }

  lemma {:induction false} GlyphCount(d: Doc)
    requires LiveValues(d)
    ensures |Glyphs(d)| == |Visible(d)|
  {
    GlyphsAreVisible(d.order, d.cells);
  }

  ghost predicate RangePatched(d: Doc, e: Doc, start: int, length: nat, patch: Patch) {
    Sound(e) && Visible(e) == Visible(d) && Glyphs(e) == FormatRange(Glyphs(d), start, length, patch)
  }

  lemma {:induction false} RangePatchedStep(d: Doc, e: Doc, f: Doc, start: nat, length: nat, patch: Patch)
    requires length > 0 && start < |Glyphs(d)| && Visible(e) == Visible(d)
    requires Glyphs(e) == Glyphs(d)[start := PatchGlyph(Glyphs(d)[start], patch)]
    requires RangePatched(e, f, start + 1, length - 1, patch)
    ensures RangePatched(d, f, start, length, patch)
  {
  }

  function FormattedDoc(d: Doc, replicaId: string, start: int, length: nat, patch: Patch): Doc {
    LocalFormat(d, replicaId, start, length, patch).0
  }

  lemma {:induction false} RangeHead(d: Doc, replicaId: string, start: nat, length: nat, patch: Patch)
    requires Sound(d) && length > 0 && start < |Visible(d)|
    requires var e := FormatOneDoc(d, replicaId, start, patch);
      RangePatched(e, FormattedDoc(e, replicaId, start + 1, length - 1, patch), start + 1, length - 1, patch)
    ensures RangePatched(d, FormattedDoc(d, replicaId, start, length, patch), start, length, patch)
  {
    var e := FormatOneDoc(d, replicaId, start, patch);
    LocalFormatUnfolds(d, replicaId, start, length, patch);
    FormatOneResult(d, replicaId, start, patch);
    RangePatchedStep(d, e, FormattedDoc(e, replicaId, start + 1, length - 1, patch), start, length, patch);
  }

  lemma {:induction false} RangeNone(d: Doc, replicaId: string, start: int, length: nat, patch: Patch)
    requires Sound(d) && (length == 0 || start < 0 || start >= |Visible(d)|)
    ensures RangePatched(d, FormattedDoc(d, replicaId, start, length, patch), start, length, patch)
  {
    LocalFormatUnfolds(d, replicaId, start, length, patch);
    GlyphCount(d);
    FormatRangeEmpty(Glyphs(d), start, length, patch);
  }

  lemma {:induction false} RangeIsPatched(d: Doc, replicaId: string, start: int, length: nat, patch: Patch)
    requires Sound(d)
    ensures RangePatched(d, FormattedDoc(d, replicaId, start, length, patch), start, length, patch)
    decreases length
  {
    if length == 0 || start < 0 || start >= |Visible(d)| {
      RangeNone(d, replicaId, start, length, patch);
    } else {
      FormatOneResult(d, replicaId, start, patch);
      RangeIsPatched(FormatOneDoc(d, replicaId, start, patch), replicaId, start + 1, length - 1, patch);
      RangeHead(d, replicaId, start, length, patch);
    }
  }

  /** localFormat patches exactly the characters in range; text, length and order stay as they are. */
  lemma {:induction false} LocalFormatPatches(d: Doc, replicaId: string, start: int, length: nat, patch: Patch)
    requires Sound(d)
    ensures var e := LocalFormat(d, replicaId, start, length, patch).0;
      && Sound(e) && Visible(e) == Visible(d)
      && Glyphs(e) == FormatRange(Glyphs(d), start, length, patch)
  {
    RangeIsPatched(d, replicaId, start, length, patch);
  }
}
