/** What survives a snapshot, and why compaction is never noticed. */
module Snapshots {
  import opened Ids
  import opened Ops
  import opened Order
  import opened Document
  import opened Delivery
  import opened Convergence
  import opened Edits

  // `toSnapshot`, `fromSnapshot` and `compactTombstones` of packages/crdt/src/rga.ts.

  // The round trip

  lemma {:induction false} SnapshotPrefixOf(d: Doc, k: nat)
    requires (forall x :: x in d.order ==> x in d.cells) && k <= |d.order|
    ensures SnapshotOrder(ToSnapshot(d)[..k]) == d.order[..k]
    ensures forall x :: x in SnapshotCells(ToSnapshot(d)[..k]) <==> x in d.order[..k]
    ensures forall x :: x in d.order[..k] ==> SnapshotCells(ToSnapshot(d)[..k])[x] == d.cells[x]
  {
    if k > 0 {
      SnapshotPrefixOf(d, k - 1);
      assert ToSnapshot(d)[..k][..k - 1] == ToSnapshot(d)[..k - 1];
      assert d.order[..k] == d.order[..k - 1] + [d.order[k - 1]];
    }
  }

  lemma {:induction false} SnapshotCounterIs(s: seq<SnapshotNode>)
    ensures forall i :: 0 <= i < |s| ==> CellBound(s[i].id, s[i].cell, SnapshotCounter(s))
    ensures SnapshotCounter(s) == 0 || exists i :: 0 <= i < |s| && CellAttains(s[i].id, s[i].cell, SnapshotCounter(s))
  {
    if s != [] {
      var k := |s| - 1;
      var rest, n := s[..k], SnapshotCounter(s);
      SnapshotCounterIs(rest);
      forall i | 0 <= i < |s| ensures CellBound(s[i].id, s[i].cell, n) {
        if i < k { assert CellBound(rest[i].id, rest[i].cell, SnapshotCounter(rest)); }
      }
      if n == SnapshotCounter(rest) && n != 0 {
        var i :| 0 <= i < |rest| && CellAttains(rest[i].id, rest[i].cell, n);
        assert CellAttains(s[i].id, s[i].cell, n);
      } else if n != 0 {
        assert CellAttains(s[k].id, s[k].cell, n);
      }
    }
  }

  lemma {:induction false} SnapshotWhole(d: Doc)
    requires forall x :: x in d.order ==> x in d.cells
    ensures SnapshotOrder(ToSnapshot(d)) == d.order
    ensures forall x :: x in SnapshotCells(ToSnapshot(d)) <==> x in d.order
    ensures forall x :: x in d.order ==> SnapshotCells(ToSnapshot(d))[x] == d.cells[x]
  {
    SnapshotPrefixOf(d, |d.order|);
    assert ToSnapshot(d)[..|d.order|] == ToSnapshot(d) && d.order[..|d.order|] == d.order;
  }

  lemma {:induction false} RestoredListAndIndex(d: Doc)
    requires Listed(d)
    ensures (forall x :: x in d.order ==> x in d.cells)
    ensures FromSnapshot(ToSnapshot(d)).order == d.order && FromSnapshot(ToSnapshot(d)).cells == d.cells
    ensures FromSnapshot(ToSnapshot(d)).pending == map[]
  {
    ListElements(d);
    SnapshotWhole(d);
    assert SnapshotCells(ToSnapshot(d)) == d.cells;
  }

  lemma {:induction false} RestoredCounterExact(d: Doc)
    requires Listed(d)
    ensures (forall x :: x in d.order ==> x in d.cells)
    ensures CounterExact(FromSnapshot(ToSnapshot(d)))
  {
    RestoredListAndIndex(d);
    var s := ToSnapshot(d);
    var n := SnapshotCounter(s);
    SnapshotCounterIs(s);
    ListElements(d);
    forall x | x in d.cells ensures CellBound(x, d.cells[x], n) {
      var i := IndexOf(d.order, x);
      assert s[i].id == x && s[i].cell == d.cells[x];
    }
    if n != 0 {
      var i :| 0 <= i < |s| && CellAttains(s[i].id, s[i].cell, n);
      assert d.order[i] in d.order;
      assert d.order[i] in d.cells && CellAttains(d.order[i], d.cells[d.order[i]], n);
    }
  }

  /**
   Resuming from a snapshot gives back the very same replica iff nothing was buffered and the counter is
   still witnessed by an id in the list or on a clock. List, index and marks always come back.
   */
  lemma {:induction false} ResumeIsIdentity(d: Doc)
    requires Listed(d) && CounterBound(d)
    ensures (forall x :: x in d.order ==> x in d.cells)
    ensures FromSnapshot(ToSnapshot(d)) == d <==> d.pending == map[] && CounterExact(d)
    ensures FromSnapshot(ToSnapshot(d)).counter <= d.counter
  {
    RestoredListAndIndex(d);
    RestoredCounterExact(d);
    ExactCounterIsLeast(FromSnapshot(ToSnapshot(d)), d);
    if CounterExact(d) { ExactCounterIsLeast(d, FromSnapshot(ToSnapshot(d))); }
  }

  /** A replica that delivered `ops` and was never compacted resumes as one that delivered what was not buffered. */
  lemma {:induction false} ResumeExact(d: Doc, ops: set<Op>)
    requires Exact(d, ops)
    ensures (forall x :: x in d.order ==> x in d.cells)
    ensures FromSnapshot(ToSnapshot(d)) == d.(pending := map[])
    ensures Exact(FromSnapshot(ToSnapshot(d)), ops - PendingOps(d.pending))
  {
    ResumeIsIdentity(d.(pending := map[]));
    RestoredListAndIndex(d);
    RestoredCounterExact(d);
    ExactCounterIsLeast(FromSnapshot(ToSnapshot(d)), d);
    if CounterExact(d) { ExactCounterIsLeast(d, FromSnapshot(ToSnapshot(d))); }
    DropPending(d, ops);
  }

  lemma {:induction false} DropPending(d: Doc, ops: set<Op>)
    requires Exact(d, ops)
    ensures Exact(d.(pending := map[]), ops - PendingOps(d.pending))
  {
    var effects := ops - PendingOps(d.pending);
    assert PendingOps(map[]) == {};
    assert effects - {} == effects;
  }

  // Compaction

  /** The same but for the payload of tombstones and for the counter. */
  ghost predicate Same(d: Doc, e: Doc) {
    d.order == e.order && d.pending == e.pending && CompactCells(d.cells) == CompactCells(e.cells)
  }

  /** The two agree on everything but what their tombstones carry besides the origin. */
  ghost predicate DifferInPayload(d: Doc, e: Doc) {
    && d.order == e.order && d.cells.Keys == e.cells.Keys
    && forall x :: x in d.cells ==>
         && d.cells[x].tombstone == e.cells[x].tombstone && d.cells[x].origin == e.cells[x].origin
         && (!d.cells[x].tombstone ==> d.cells[x] == e.cells[x])
  }

  /** The payload of deleted characters is gone: a compacted snapshot is the same whatever they carried. */
  lemma {:induction false} PayloadIsErased(d: Doc, e: Doc)
    requires DifferInPayload(d, e) && forall x :: x in d.order ==> x in d.cells
    ensures ToSnapshot(Compact(d)) == ToSnapshot(Compact(e))
    ensures forall node :: node in ToSnapshot(Compact(d)) && node.cell.tombstone ==>
      node.cell.value == None && node.cell.attrs == {} && node.cell.clock == map[]
    ensures forall node :: node in ToSnapshot(Compact(d)) && !node.cell.tombstone ==> node in ToSnapshot(d)
  {
    var s, t := ToSnapshot(Compact(d)), ToSnapshot(Compact(e));
    forall i | 0 <= i < |s| ensures s[i] == t[i] { assert d.order[i] in d.cells; }
    forall i | 0 <= i < |s| && !s[i].cell.tombstone ensures s[i] in ToSnapshot(d) { assert s[i] == ToSnapshot(d)[i]; }
  }

  /** The same but for the payload of tombstones. */
  ghost predicate Twins(d: Doc, e: Doc) {
    Same(d, e) && d.counter == e.counter
  }

  lemma {:induction false} CompactCellSame(c: Cell, e: Cell)
    requires CompactCell(c) == CompactCell(e)
    ensures c.tombstone == e.tombstone && c.origin == e.origin && (c.tombstone || c == e)
  {
  }

  lemma {:induction false} SameAt(d: Doc, e: Doc, x: OpId)
    requires Same(d, e)
    ensures x in d.cells <==> x in e.cells
    ensures x in d.cells ==> CompactCell(d.cells[x]) == CompactCell(e.cells[x])
  {
    assert x in CompactCells(d.cells) <==> x in CompactCells(e.cells);
    if x in d.cells { assert CompactCells(d.cells)[x] == CompactCells(e.cells)[x]; }
  }

  lemma {:induction false} SameAfterUpdate(cells: map<OpId, Cell>, cells': map<OpId, Cell>, x: OpId, c: Cell, c': Cell)
    requires CompactCells(cells) == CompactCells(cells') && CompactCell(c) == CompactCell(c')
    ensures CompactCells(cells[x := c]) == CompactCells(cells'[x := c'])
  {
    assert CompactCells(cells[x := c]) == CompactCells(cells)[x := CompactCell(c)];
    assert CompactCells(cells'[x := c']) == CompactCells(cells')[x := CompactCell(c')];
  }

  lemma {:induction false} FormatCellSame(c: Cell, e: Cell, op: Op)
    requires CompactCell(c) == CompactCell(e) && op.Format?
    ensures CompactCell(FormatCell(c, op)) == CompactCell(FormatCell(e, op))
  {
  }

  /** A remote op does the same to both and releases the same buffered ops. */
  lemma {:induction false} StepSame(d: Doc, e: Doc, op: Op)
    requires Same(d, e)
    ensures Same(Step(d, op).0, Step(e, op).0) && Step(d, op).1 == Step(e, op).1
    ensures d.counter == e.counter ==> Step(d, op).0.counter == Step(e, op).0.counter
  {
    SameAt(d, e, Subject(op));
    if op.Insert? {
      if op.origin.Some? { SameAt(d, e, op.origin.value); }
      if op.id !in d.cells { SameAfterUpdate(d.cells, e.cells, op.id, NewCell(op), NewCell(op)); }
    } else if op.target in d.cells {
      var c, c' := d.cells[op.target], e.cells[op.target];
      CompactCellSame(c, c');
      if op.Delete? {
        SameAfterUpdate(d.cells, e.cells, op.target, c.(tombstone := true), c'.(tombstone := true));
      } else {
        FormatCellSame(c, c', op);
        SameAfterUpdate(d.cells, e.cells, op.target, FormatCell(c, op), FormatCell(c', op));
      }
    }
  }

  lemma {:induction false} DrainSame(d: Doc, e: Doc, queue: seq<Op>)
    requires Same(d, e)
    ensures Same(Drain(d, queue), Drain(e, queue))
    ensures d.counter == e.counter ==> Drain(d, queue).counter == Drain(e, queue).counter
    decreases |queue| + PendingSize(d.pending), |queue|
  {
    if queue != [] {
      StepShrinks(d, queue[0]);
      StepSame(d, e, queue[0]);
      DrainSame(Step(d, queue[0]).0, Step(e, queue[0]).0, queue[1..] + Step(d, queue[0]).1);
    }
  }

  lemma {:induction false} ApplyAllSame(d: Doc, e: Doc, ops: seq<Op>)
    requires Same(d, e)
    ensures Same(ApplyAll(d, ops), ApplyAll(e, ops))
    ensures d.counter == e.counter ==> ApplyAll(d, ops).counter == ApplyAll(e, ops).counter
    decreases |ops|
  {
    if ops != [] {
      DrainSame(d, e, [ops[0]]);
      ApplyAllSame(Apply(d, ops[0]), Apply(e, ops[0]), ops[1..]);
    }
  }

  /** What is visible is the same, character by character and mark by mark. */
  lemma {:induction false} SameLooksSame(d: Doc, e: Doc)
    requires Same(d, e) && LiveValues(d) && LiveValues(e)
    ensures Visible(d) == Visible(e) && Glyphs(d) == Glyphs(e) && Read(d) == Read(e) && Contents(d) == Contents(e)
  {
    forall x | x in d.order
      ensures (x in d.cells <==> x in e.cells) && (x in d.cells ==> d.cells[x].tombstone == e.cells[x].tombstone)
    {
      SameAt(d, e, x);
      if x in d.cells { CompactCellSame(d.cells[x], e.cells[x]); }
    }
    VisibleFrame(d.order, d.cells, e.cells);
    GlyphsAreVisible(d.order, d.cells);
    GlyphsAreVisible(e.order, e.cells);
    forall i | 0 <= i < |Visible(d)| ensures Glyphs(d)[i] == Glyphs(e)[i] {
      var x := Visible(d)[i];
      assert x in Visible(d);
      SameAt(d, e, x);
      CompactCellSame(d.cells[x], e.cells[x]);
    }
    assert Glyphs(d) == Glyphs(e);
  }

  // Local edits on twins

  lemma {:induction false} TwinsFormatNode(d: Doc, e: Doc, replicaId: string, target: OpId, patch: Patch)
    requires Twins(d, e) && target in d.cells && target in e.cells
    ensures Twins(FormatNode(d, replicaId, target, patch).0, FormatNode(e, replicaId, target, patch).0)
    ensures FormatNode(d, replicaId, target, patch).1 == FormatNode(e, replicaId, target, patch).1
    decreases |patch|
  {
    if patch != [] {
      var (d', op) := FormatMark(d, replicaId, target, patch[0].0, patch[0].1);
      var (e', _) := FormatMark(e, replicaId, target, patch[0].0, patch[0].1);
      SameAt(d, e, target);
      FormatCellSame(d.cells[target], e.cells[target], op);
      SameAfterUpdate(d.cells, e.cells, target, FormatCell(d.cells[target], op), FormatCell(e.cells[target], op));
      TwinsFormatNode(d', e', replicaId, target, patch[1..]);
    }
  }

  lemma {:induction false} TwinsVisible(d: Doc, e: Doc)
    requires Same(d, e)
    ensures Visible(d) == Visible(e)
  {
    forall x | x in d.order
      ensures (x in d.cells <==> x in e.cells) && (x in d.cells ==> d.cells[x].tombstone == e.cells[x].tombstone)
    {
      SameAt(d, e, x);
      if x in d.cells { CompactCellSame(d.cells[x], e.cells[x]); }
    }
    VisibleFrame(d.order, d.cells, e.cells);
  }

  lemma {:induction false} TwinsFormatAt(d: Doc, e: Doc, replicaId: string, position: int, patch: Patch)
    requires Twins(d, e)
    ensures NodeAt(d, position) == NodeAt(e, position)
    ensures Twins(FormatAt(d, replicaId, position, patch).0, FormatAt(e, replicaId, position, patch).0)
    ensures FormatAt(d, replicaId, position, patch).1 == FormatAt(e, replicaId, position, patch).1
  {
    TwinsVisible(d, e);
    if NodeAt(d, position).Some? { TwinsFormatNode(d, e, replicaId, NodeAt(d, position).value, patch); }
  }

  lemma {:induction false} LocalFormatNext(d: Doc, replicaId: string, start: int, length: nat, patch: Patch)
    ensures LocalFormat(d, replicaId, start, length, patch)
      == if length == 0 || NodeAt(d, start).None? then (d, [])
         else
           var (e, ops) := FormatAt(d, replicaId, start, patch);
           (LocalFormat(e, replicaId, start + 1, length - 1, patch).0,
            ops + LocalFormat(e, replicaId, start + 1, length - 1, patch).1)
  {
  }

  lemma {:induction false} TwinsLocalFormat(d: Doc, e: Doc, replicaId: string, start: int, length: nat, patch: Patch)
    requires Twins(d, e)
    ensures Twins(LocalFormat(d, replicaId, start, length, patch).0, LocalFormat(e, replicaId, start, length, patch).0)
    ensures LocalFormat(d, replicaId, start, length, patch).1 == LocalFormat(e, replicaId, start, length, patch).1
    decreases length
  {
    LocalFormatNext(d, replicaId, start, length, patch);
    LocalFormatNext(e, replicaId, start, length, patch);
    assert NodeAt(d, start) == NodeAt(e, start) by { TwinsVisible(d, e); }
    if length > 0 && NodeAt(d, start).Some? {
      TwinsFormatAt(d, e, replicaId, start, patch);
      TwinsLocalFormat(FormatAt(d, replicaId, start, patch).0, FormatAt(e, replicaId, start, patch).0,
                       replicaId, start + 1, length - 1, patch);
    }
  }

  lemma {:induction false} TwinsLocalInsert(d: Doc, e: Doc, replicaId: string, index: int, value: string, attrs: Marks)
    requires Twins(d, e)
    ensures var op := InsertOpAt(d, replicaId, index, value, attrs);
      op == InsertOpAt(e, replicaId, index, value, attrs) && Twins(LocalInsert(d, op), LocalInsert(e, op))
  {
    TwinsVisible(d, e);
    var op := InsertOpAt(d, replicaId, index, value, attrs);
    SameAfterUpdate(d.cells, e.cells, op.id, NewCell(op), NewCell(op));
  }

  lemma {:induction false} TwinsLocalDelete(d: Doc, e: Doc, index: int)
    requires Twins(d, e)
    ensures LocalDelete(d, index).Some? <==> LocalDelete(e, index).Some?
    ensures LocalDelete(d, index).Some? ==>
      && LocalDelete(d, index).value.1 == LocalDelete(e, index).value.1
      && Twins(LocalDelete(d, index).value.0, LocalDelete(e, index).value.0)
  {
    TwinsVisible(d, e);
    if LocalDelete(d, index).Some? {
      var x := LocalDelete(d, index).value.1.target;
      SameAt(d, e, x);
      CompactCellSame(d.cells[x], e.cells[x]);
      SameAfterUpdate(d.cells, e.cells, x, d.cells[x].(tombstone := true), e.cells[x].(tombstone := true));
    }
  }

  lemma {:induction false} CompactTwice(d: Doc)
    ensures Twins(d, Compact(d))
  {
  }

  // Compaction is invisible

  /** Anything that can happen to a replica. */
  datatype Event =
    | Receive(op: Op)
    | Type(index: int, value: string, attrs: Marks)
    | Erase(index: int)
    | Mark(start: int, length: nat, patch: Patch)
    | Compaction

  /** The replica after an event, and the ops that it emits. */
  function React(d: Doc, replicaId: string, event: Event): (Doc, seq<Op>) {
    match event
    case Receive(op) => (Apply(d, op), [])
    case Type(index, value, attrs) =>
      var op := InsertOpAt(d, replicaId, index, value, attrs);
      (LocalInsert(d, op), [op])
    case Erase(index) =>
      if LocalDelete(d, index).None? then (d, []) else (LocalDelete(d, index).value.0, [LocalDelete(d, index).value.1])
    case Mark(start, length, patch) => LocalFormat(d, replicaId, start, length, patch)
    case Compaction => (Compact(d), [])
  }

  function Live(d: Doc, replicaId: string, events: seq<Event>): (Doc, seq<Op>)
    decreases |events|
  {
    if events == [] then (d, [])
    else
      var (e, ops) := React(d, replicaId, events[0]);
      var (f, more) := Live(e, replicaId, events[1..]);
      (f, ops + more)
  }

  function WithoutCompactions(events: seq<Event>): seq<Event>
    decreases |events|
  {
    if events == [] then []
    else if events[0].Compaction? then WithoutCompactions(events[1..])
    else [events[0]] + WithoutCompactions(events[1..])
  }

  lemma {:induction false} TwinsReact(d: Doc, e: Doc, replicaId: string, event: Event)
    requires Twins(d, e)
    ensures Twins(React(d, replicaId, event).0, React(e, replicaId, event).0)
    ensures React(d, replicaId, event).1 == React(e, replicaId, event).1
  {
    match event
    case Receive(op) => DrainSame(d, e, [op]);
    case Type(index, value, attrs) => TwinsLocalInsert(d, e, replicaId, index, value, attrs);
    case Erase(index) => TwinsLocalDelete(d, e, index);
    case Mark(start, length, patch) => TwinsLocalFormat(d, e, replicaId, start, length, patch);
    case Compaction =>
  }

  lemma {:induction false} TwinsLive(d: Doc, e: Doc, replicaId: string, events: seq<Event>)
    requires Twins(d, e)
    ensures var (a, b) := (Live(d, replicaId, events), Live(e, replicaId, WithoutCompactions(events)));
      Twins(a.0, b.0) && a.1 == b.1
    decreases |events|
  {
    if events != [] {
      var event, rest := events[0], events[1..];
      if event.Compaction? {
        CompactTwice(d);
        TwinsLive(Compact(d), e, replicaId, rest);
        assert [] + Live(Compact(d), replicaId, rest).1 == Live(Compact(d), replicaId, rest).1;
      } else {
        TwinsReact(d, e, replicaId, event);
        TwinsLive(React(d, replicaId, event).0, React(e, replicaId, event).0, replicaId, rest);
        assert WithoutCompactions(events)[0] == event && WithoutCompactions(events)[1..] == WithoutCompactions(rest);
      }
    }
  }

  /**
   Compaction is invisible forever: a replica that compacts whenever it likes and one that never does,
   taken through the same deliveries and the same edits, emit the same ops and show the same text and marks.
   */
  lemma {:induction false} CompactionIsInvisible(d: Doc, replicaId: string, events: seq<Event>)
    requires LiveValues(d)
    ensures var (a, b) := (Live(d, replicaId, events), Live(d, replicaId, WithoutCompactions(events)));
      && a.1 == b.1
      && Read(a.0) == Read(b.0) && Contents(a.0) == Contents(b.0) && Visible(a.0) == Visible(b.0)
  {
    TwinsLive(d, d, replicaId, events);
    LiveKeepsValues(d, replicaId, events);
    LiveKeepsValues(d, replicaId, WithoutCompactions(events));
    SameLooksSame(Live(d, replicaId, events).0, Live(d, replicaId, WithoutCompactions(events)).0);
  }

  lemma {:induction false} DrainKeepsValues(d: Doc, queue: seq<Op>)
    requires LiveValues(d)
    ensures LiveValues(Drain(d, queue))
    decreases |queue| + PendingSize(d.pending), |queue|
  {
    if queue != [] {
      StepShrinks(d, queue[0]);
      DrainKeepsValues(Step(d, queue[0]).0, queue[1..] + Step(d, queue[0]).1);
    }
  }

  lemma {:induction false} ApplyAllKeepsValues(d: Doc, ops: seq<Op>)
    requires LiveValues(d)
    ensures LiveValues(ApplyAll(d, ops))
    decreases |ops|
  {
    if ops != [] {
      DrainKeepsValues(d, [ops[0]]);
      ApplyAllKeepsValues(Apply(d, ops[0]), ops[1..]);
    }
  }

  lemma {:induction false} ReactKeepsValues(d: Doc, replicaId: string, event: Event)
    requires LiveValues(d)
    ensures LiveValues(React(d, replicaId, event).0)
  {
    match event
    case Receive(op) => DrainKeepsValues(d, [op]);
    case Type(_, _, _) =>
    case Erase(_) =>
    case Mark(start, length, patch) =>
      LocalFormatAgrees(d, replicaId, start, length, patch);
      ApplyAllKeepsValues(d, LocalFormat(d, replicaId, start, length, patch).1);
    case Compaction =>
  }

  lemma {:induction false} LiveKeepsValues(d: Doc, replicaId: string, events: seq<Event>)
    requires LiveValues(d)
    ensures LiveValues(Live(d, replicaId, events).0)
    decreases |events|
  {
    if events != [] {
      ReactKeepsValues(d, replicaId, events[0]);
      LiveKeepsValues(React(d, replicaId, events[0]).0, replicaId, events[1..]);
    }
  }

  /**
   Compacting before a snapshot can lose the counter: "x" is typed, made bold and deleted, which uses up
   the ids 1@a and 2@a. The compacted snapshot has forgotten 2@a, and the resumed replica issues it again.
   */
  lemma {:induction false} CompactedSnapshotReissuesAnId(value: string)
    ensures var typed, bold := OpId(1, "a"), OpId(2, "a");
      var d := ApplyAll(EMPTY, [Insert(typed, None, value, {}), Format(bold, typed, "bold", true), Delete(typed)]);
      && d.order == [typed] && d.counter == 2
      && (forall x :: x in Compact(d).order ==> x in Compact(d).cells)
      && NextId(FromSnapshot(ToSnapshot(Compact(d))), "a") == bold
  {
    var x, bold := OpId(1, "a"), OpId(2, "a");
    var ins, fmt, del := Insert(x, None, value, {}), Format(bold, x, "bold", true), Delete(x);
    var d1 := Apply(EMPTY, ins);
    ApplyIsStep(EMPTY, ins);
    PlaceAt([], x, None, 0);
    assert d1.order == [x] && d1.cells == map[x := NewCell(ins)];
    var d2 := Apply(d1, fmt);
    ApplyIsStep(d1, fmt);
    var d3 := Apply(d2, del);
    ApplyIsStep(d2, del);
    assert [ins, fmt, del][1..] == [fmt, del] && [fmt, del][1..] == [del] && [del][1..] == [];
    assert ApplyAll(d2, [del]) == d3 && ApplyAll(d1, [fmt, del]) == d3;
    var c := Compact(d3);
    assert c.cells == map[x := Cell(None, None, true, {}, map[])];
    var s := ToSnapshot(c);
    assert s == [SnapshotNode(x, c.cells[x])] && s[..0] == [];
    assert SnapshotCounter(s) == Max(SnapshotCounter(s[..0]), Max(1, ClockMax(map[])));
  }

  // Documents that show a set of ops

  /** `d` is, payload of tombstones and counter aside, what the delivery of `ops` amounts to. */
  ghost predicate Holds(d: Doc, ops: set<Op>) {
    exists e :: Exact(e, ops) && Same(d, e)
  }

  lemma {:induction false} HoldsEmpty()
    ensures Holds(EMPTY, {})
  {
    ExactEmpty();
    assert Same(EMPTY, EMPTY);
  }

  lemma {:induction false} HoldsApplyAll(d: Doc, queue: seq<Op>, ops: set<Op>)
    requires Holds(d, ops) && Coherent(ops + OpSet(queue))
    ensures Holds(ApplyAll(d, queue), ops + OpSet(queue))
  {
    var e :| Exact(e, ops) && Same(d, e);
    ApplyAllSame(d, e, queue);
    ApplyAllExact(e, queue, ops);
  }

  lemma {:induction false} HoldsCompact(d: Doc, ops: set<Op>)
    requires Holds(d, ops)
    ensures Holds(Compact(d), ops)
  {
    var e :| Exact(e, ops) && Same(d, e);
    CompactTwice(d);
    assert Same(Compact(d), e);
  }

  lemma {:induction false} SameOrigins(d: Doc, e: Doc)
    requires Same(d, e)
    ensures OriginsOf(d.cells) == OriginsOf(e.cells) && d.cells.Keys == e.cells.Keys
  {
    forall x ensures x in d.cells <==> x in e.cells { SameAt(d, e, x); }
    forall x | x in d.cells ensures d.cells[x].origin == e.cells[x].origin {
      SameAt(d, e, x);
      CompactCellSame(d.cells[x], e.cells[x]);
    }
  }

  lemma {:induction false} SameKeepsWf(d: Doc, e: Doc)
    requires Same(d, e) && Wf(e)
    ensures Wf(d)
  {
    SameOrigins(d, e);
  }

  lemma {:induction false} HoldsListed(d: Doc, ops: set<Op>)
    requires Holds(d, ops)
    ensures Wf(d) && (forall x :: x in d.order ==> x in d.cells) && PendingOps(d.pending) <= ops
  {
    var e :| Exact(e, ops) && Same(d, e);
    SameKeepsWf(d, e);
    assert forall x :: x in d.order ==> x in d.cells by { ListElements(d); }
  }

  /** A snapshot shows everything but what was buffered when it was taken. */
  lemma {:induction false} HoldsSnapshot(d: Doc, ops: set<Op>)
    requires Holds(d, ops)
    ensures (forall x :: x in d.order ==> x in d.cells)
    ensures Holds(FromSnapshot(ToSnapshot(d)), ops - PendingOps(d.pending))
  {
    HoldsListed(d, ops);
    RestoredListAndIndex(d);
    var e :| Exact(e, ops) && Same(d, e);
    DropPending(e, ops);
    assert Same(FromSnapshot(ToSnapshot(d)), e.(pending := map[]));
  }

  /** Two documents that show the same ops look the same. */
  lemma {:induction false} HoldsDetermines(a: Doc, b: Doc, ops: set<Op>)
    requires Coherent(ops) && Holds(a, ops) && Holds(b, ops)
    ensures a.order == b.order && CompactCells(a.cells) == CompactCells(b.cells)
    ensures PendingOps(a.pending) == PendingOps(b.pending)
    ensures Visible(a) == Visible(b) && Glyphs(a) == Glyphs(b) && Read(a) == Read(b) && Contents(a) == Contents(b)
  {
    var d :| Exact(d, ops) && Same(a, d);
    var e :| Exact(e, ops) && Same(b, e);
    Determined(d, e, ops);
    var c := b.(pending := a.pending);
    assert Same(a, c);
    TwinsVisible(a, c);
    HoldsLiveValues(a, ops);
    HoldsLiveValues(b, ops);
    SameLooksSame(a, c);
  }

  lemma {:induction false} HoldsLiveValues(d: Doc, ops: set<Op>)
    requires Holds(d, ops)
    ensures LiveValues(d)
  {
    var e :| Exact(e, ops) && Same(d, e);
    ExactIsSound(e, ops);
    forall x | x in d.cells && !d.cells[x].tombstone ensures d.cells[x].value.Some? {
      SameAt(d, e, x);
      CompactCellSame(d.cells[x], e.cells[x]);
    }
  }
}
