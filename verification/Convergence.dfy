/** The state of a replica depends on the set of delivered ops alone. */
module Convergence {
  import opened Ids
  import opened Ops
  import opened Arrival
  import opened Tree
  import opened Document
  import opened Delivery

  // Strong convergence (packages/crdt/src/rga.ts, `apply` and `applyAll`).

  // Which inserts are in the list

  ghost predicate Link(ops: set<Op>, id: OpId, origin: Option<OpId>) {
    exists ins :: ins in ops && ins.Insert? && ins.id == id && ins.origin == origin
  }

  /** A character, the one it was typed after, the one that was typed after, up to the head of the list. */
  datatype Lineage = Root(id: OpId) | After(parent: Lineage, id: OpId)

  ghost predicate Delivered(ops: set<Op>, l: Lineage) {
    match l
    case Root(id) => Link(ops, id, None)
    case After(parent, id) => Link(ops, id, Some(parent.id)) && Delivered(ops, parent)
  }

  /** The inserts of the whole origin chain of `id` were delivered. */
  ghost predicate ChainDelivered(ops: set<Op>, id: OpId) {
    exists l :: Delivered(ops, l) && l.id == id
  }

  /** What the buffer holds is about characters that are not in the list. */
  lemma {:induction false} PendingSubjectMissing(d: Doc, ops: set<Op>, op: Op)
    requires Exact(d, ops) && Coherent(ops) && op in PendingOps(d.pending)
    ensures Subject(op) !in d.cells
    ensures Awaits(op).Some? && Awaits(op).value !in d.cells
  {
    var k :| k in d.pending && op in d.pending[k];
    var effects := ops - PendingOps(d.pending);
    if op.Insert? && op.id in d.cells {
      CoherentPart(ops, effects + {op});
      RepeatedInsert(d.cells, op, effects);
    }
  }

  lemma {:induction false} EffectSubjectPresent(d: Doc, ops: set<Op>, op: Op)
    requires Exact(d, ops) && op in ops && op !in PendingOps(d.pending)
    ensures Subject(op) in d.cells
  {
  }

  /** A delivered op is buffered exactly while the character it is about is missing. */
  lemma {:induction false} BufferedIffSubjectMissing(d: Doc, ops: set<Op>, op: Op)
    requires Exact(d, ops) && Coherent(ops) && op in ops
    ensures op in PendingOps(d.pending) <==> Subject(op) !in d.cells
  {
    if op in PendingOps(d.pending) { PendingSubjectMissing(d, ops, op); } else { EffectSubjectPresent(d, ops, op); }
  }

  lemma {:induction false} InsertLands(d: Doc, ops: set<Op>, id: OpId, origin: Option<OpId>)
    requires Exact(d, ops) && Coherent(ops) && Link(ops, id, origin)
    requires origin.Some? ==> origin.value in d.cells
    ensures id in d.cells
  {
    var ins :| ins in ops && ins.Insert? && ins.id == id && ins.origin == origin;
    if ins in PendingOps(d.pending) { PendingSubjectMissing(d, ops, ins); } else { EffectSubjectPresent(d, ops, ins); }
  }

  lemma {:induction false} ChainLands(d: Doc, ops: set<Op>, l: Lineage)
    requires Exact(d, ops) && Coherent(ops) && Delivered(ops, l)
    ensures l.id in d.cells
  {
    if l.After? {
      ChainLands(d, ops, l.parent);
      InsertLands(d, ops, l.id, Some(l.parent.id));
    } else {
      InsertLands(d, ops, l.id, None);
    }
  }

  lemma {:induction false} CellHasLink(d: Doc, ops: set<Op>, x: OpId)
    requires Exact(d, ops) && x in d.cells
    ensures Link(ops, x, d.cells[x].origin)
  {
  }

  lemma {:induction false} ArrivedHasChain(d: Doc, ops: set<Op>, h: History, x: OpId)
    requires Exact(d, ops) && Ready(OriginsOf(d.cells), h) && x in Arrived(h)
    ensures ChainDelivered(ops, x)
  {
    if x != h.id {
      ArrivedHasChain(d, ops, h.before, x);
    } else {
      CellHasLink(d, ops, x);
      var origin := d.cells[x].origin;
      if origin.None? {
        assert Delivered(ops, Root(x));
      } else {
        ArrivedHasChain(d, ops, h.before, origin.value);
        var l :| Delivered(ops, l) && l.id == origin.value;
        assert Delivered(ops, After(l, x));
      }
    }
  }

  /** Exactness of the causal buffer: an insert is in the list iff its whole origin chain arrived. */
  lemma {:induction false} InListIffChainDelivered(d: Doc, ops: set<Op>, id: OpId)
    requires Exact(d, ops) && Coherent(ops)
    ensures id in d.cells <==> ChainDelivered(ops, id)
  {
    if id in d.cells {
      var h :| Explains(h, OriginsOf(d.cells), d.order);
      ArrivedHasChain(d, ops, h, id);
    }
    if ChainDelivered(ops, id) {
      var l :| Delivered(ops, l) && l.id == id;
      ChainLands(d, ops, l);
    }
  }

  // Convergence

  lemma {:induction false} CellUnique(a: Cell, b: Cell, ins: Op, effects: set<Op>)
    requires ins.Insert? && Coherent(effects)
    requires CellDecided(a, ins, effects) && CellDecided(b, ins, effects)
    ensures a == b
  {
    forall m | m in a.clock || m in b.clock
      ensures m in a.clock && m in b.clock && a.clock[m] == b.clock[m] && (m in a.attrs <==> m in b.attrs)
    {
      AgreeOnMark(a, b, ins, effects, m);
    }
    assert a.clock == b.clock;
    assert a.attrs == b.attrs;
  }

  lemma {:induction false} AgreeOnMark(a: Cell, b: Cell, ins: Op, effects: set<Op>, m: string)
    requires ins.Insert? && Coherent(effects)
    requires MarksDecided(a, ins, effects) && MarksDecided(b, ins, effects)
    requires m in a.clock || m in b.clock
    ensures m in a.clock && m in b.clock && a.clock[m] == b.clock[m] && (m in a.attrs <==> m in b.attrs)
  {
    var fa := if m in a.clock then Format(a.clock[m], ins.id, m, m in a.attrs)
      else Format(b.clock[m], ins.id, m, m in b.attrs);
    assert fa in effects && m in a.clock && m in b.clock;
    var ga, gb := Format(a.clock[m], ins.id, m, m in a.attrs), Format(b.clock[m], ins.id, m, m in b.attrs);
    assert ga in effects && gb in effects;
    CompareSigns(a.clock[m], b.clock[m]);
    assert SameName(ga, gb);
  }

  /** Same delivered ops, same document: order, tombstones, marks, clocks, counter and buffered ops. */
  lemma {:induction false} Determined(a: Doc, b: Doc, ops: set<Op>)
    requires Coherent(ops) && Exact(a, ops) && Exact(b, ops)
    ensures a.order == b.order && a.cells == b.cells && a.counter == b.counter
    ensures PendingOps(a.pending) == PendingOps(b.pending)
  {
    forall x ensures x in a.cells <==> x in b.cells {
      InListIffChainDelivered(a, ops, x);
      InListIffChainDelivered(b, ops, x);
    }
    forall op | op in ops ensures op in PendingOps(a.pending) <==> op in PendingOps(b.pending) {
      BufferedIffSubjectMissing(a, ops, op);
      BufferedIffSubjectMissing(b, ops, op);
    }
    assert PendingOps(a.pending) == PendingOps(b.pending);
    SameCells(a, b, ops - PendingOps(a.pending));
    BuiltUnique(OriginsOf(a.cells), a.order, b.order);
    SameCounter(a, b);
  }

  lemma {:induction false} SameCells(a: Doc, b: Doc, effects: set<Op>)
    requires Coherent(effects) && Decided(a.cells, effects) && Decided(b.cells, effects)
    requires forall x :: x in a.cells <==> x in b.cells
    ensures a.cells == b.cells
  {
    forall x | x in a.cells ensures a.cells[x] == b.cells[x] {
      var ins :| ins in effects && ins.Insert? && ins.id == x;
      CellUnique(a.cells[x], b.cells[x], ins, effects);
    }
  }

  /** An exact counter is the least one that bounds all ids. */
  lemma {:induction false} ExactCounterIsLeast(a: Doc, b: Doc)
    requires a.cells == b.cells && CounterExact(a) && CounterBound(b)
    ensures a.counter <= b.counter
  {
  }

  lemma {:induction false} SameCounter(a: Doc, b: Doc)
    requires a.cells == b.cells && CounterExact(a) && CounterExact(b)
    ensures a.counter == b.counter
  {
    ExactCounterIsLeast(a, b);
    ExactCounterIsLeast(b, a);
  }

  /**
   The claim of the CRDT: two replicas that were delivered the same ops, in any two orders and with any
   repetitions, hold the same document. Ids may be arbitrary as long as no two inserts (formats) share one.
   */
  lemma {:induction false} StrongConvergence(s: seq<Op>, r: seq<Op>)
    requires OpSet(s) == OpSet(r) && Coherent(OpSet(s))
    ensures var a, b := ApplyAll(EMPTY, s), ApplyAll(EMPTY, r);
      && a.order == b.order && a.cells == b.cells && a.counter == b.counter
      && PendingOps(a.pending) == PendingOps(b.pending)
  {
    ExactEmpty();
    assert {} + OpSet(s) == OpSet(s) && {} + OpSet(r) == OpSet(r);
    ApplyAllExact(EMPTY, s, {});
    ApplyAllExact(EMPTY, r, {});
    Determined(ApplyAll(EMPTY, s), ApplyAll(EMPTY, r), OpSet(s));
  }

  /** Inserts whose id is greater than their origin's, which is what replicas issue. */
  ghost predicate CausalOps(ops: set<Op>) {
    forall op :: op in ops && op.Insert? && op.origin.Some? ==> Less(op.origin.value, op.id)
  }

  /** The list is the pre-order walk of the origin tree, siblings by descending id. */
  lemma {:induction false} ListIsPreOrder(d: Doc, ops: set<Op>)
    requires Exact(d, ops) && CausalOps(ops)
    ensures Causal(OriginsOf(d.cells)) && d.order == PreOrder(OriginsOf(d.cells))
  {
    ListElements(d);
    var t, effects := OriginsOf(d.cells), ops - PendingOps(d.pending);
    forall x | x in t && t[x].Some? ensures t[x].value in t && Less(t[x].value, x) {
      var ins :| ins in effects && ins.Insert? && ins.id == x;
      assert CellDecided(d.cells[x], ins, effects);
    }
    BuiltIsPreOrder(t, d.order);
  }

  /** A listed character hangs where its insert says. */
  lemma {:induction false} OriginIsThatOfTheInsert(d: Doc, ops: set<Op>, op: Op)
    requires Exact(d, ops) && Coherent(ops) && op in ops && op.Insert? && op.id in d.cells
    ensures OriginsOf(d.cells)[op.id] == op.origin
  {
    var ins := CellOfSubject(d, ops, op.id);
    OneInsertPerId(ops, ins, op);
  }

  lemma {:induction false} OneInsertPerId(ops: set<Op>, a: Op, b: Op)
    requires Coherent(ops) && a in ops && b in ops && a.Insert? && b.Insert? && a.id == b.id
    ensures a == b
  {
    assert SameName(a, b);
  }

  /** Of two characters typed after the same one, the one with the greater id stands first. */
  lemma {:induction false} GreaterSiblingFirst(d: Doc, ops: set<Op>, a: Op, b: Op)
    requires Exact(d, ops) && Coherent(ops) && CausalOps(ops) && a in ops && b in ops && a.Insert? && b.Insert?
    requires a.origin == b.origin && a.id in d.cells && b.id in d.cells && Less(a.id, b.id)
    ensures StandsBefore(d.order, b.id, a.id)
  {
    ListIsPreOrder(d, ops);
    OriginIsThatOfTheInsert(d, ops, a);
    OriginIsThatOfTheInsert(d, ops, b);
    SiblingsDescend(OriginsOf(d.cells), d.order, b.id, a.id);
  }

  lemma {:induction false} RootIsListed(d: Doc, ops: set<Op>, op: Op)
    requires Exact(d, ops) && Coherent(ops) && op in ops && op.Insert? && op.origin.None?
    ensures op.id in d.cells
  {
    assert Link(ops, op.id, None);
    assert Delivered(ops, Root(op.id));
    InListIffChainDelivered(d, ops, op.id);
  }

  /**
   So of two characters typed at the head under one counter, the one whose replica has the greater name stands first,
   in whatever order they arrive among whatever else.
   */
  lemma {:induction false} GreaterNameFirst(ops: seq<Op>, a: Op, b: Op)
    requires Coherent(OpSet(ops)) && CausalOps(OpSet(ops)) && a in ops && b in ops
    requires a.Insert? && b.Insert? && a.origin.None? && b.origin.None? && a.id.counter == b.id.counter
    requires exists k: nat ::
      && k < |b.id.replicaId| && k <= |a.id.replicaId| && a.id.replicaId[..k] == b.id.replicaId[..k]
      && (k == |a.id.replicaId| || a.id.replicaId[k] < b.id.replicaId[k])
    ensures exists i, j :: var order := ApplyAll(EMPTY, ops).order;
      0 <= i < j < |order| && order[i] == b.id && order[j] == a.id
  {
    var d := ApplyAll(EMPTY, ops);
    ExactEmpty();
    assert {} + OpSet(ops) == OpSet(ops);
    ApplyAllExact(EMPTY, ops, {});
    CompareDecides(a.id, b.id);
    RootIsListed(d, OpSet(ops), a);
    RootIsListed(d, OpSet(ops), b);
    GreaterSiblingFirst(d, OpSet(ops), a, b);
    var i, j :| 0 <= i < j < |d.order| && d.order[i] == b.id && d.order[j] == a.id;
  }

  // Repetition and marks

  /** The character of an effective op is decided by its one insert. */
  lemma {:induction false} CellOfSubject(d: Doc, ops: set<Op>, x: OpId) returns (ins: Op)
    requires Exact(d, ops) && x in d.cells
    ensures ins in ops && ins.Insert? && ins.id == x
    ensures CellDecided(d.cells[x], ins, ops - PendingOps(d.pending))
  {
    ins :| ins in ops - PendingOps(d.pending) && ins.Insert? && ins.id == x;
  }

  lemma {:induction false} StepAgain(d: Doc, ops: set<Op>, op: Op)
    requires Exact(d, ops) && op in ops && op !in PendingOps(d.pending)
    ensures Step(d, op) == (d, [])
  {
    EffectSubjectPresent(d, ops, op);
    if !op.Insert? {
      var ins := CellOfSubject(d, ops, op.target);
      var c := d.cells[op.target];
      if op.Format? {
        CompareSigns(c.clock[op.mark], op.id);
        assert CellBound(op.target, c, d.counter);
      }
      assert d.cells[op.target := c] == d.cells;
    }
  }

  /** Applying an op again that is already in effect changes nothing at all. */
  lemma {:induction false} ReapplyChangesNothing(d: Doc, ops: set<Op>, op: Op)
    requires Exact(d, ops) && op in ops && op !in PendingOps(d.pending)
    ensures Apply(d, op) == d
  {
    StepAgain(d, ops, op);
    assert [op][1..] + Step(d, op).1 == [];
    assert Drain(d, [op]) == Drain(d, []);
  }

  /** `f` is a format op for this character and mark that no other such op outranks. */
  ghost predicate Decisive(ops: set<Op>, x: OpId, m: string, f: Op) {
    && IsFormatFor(f, x, m) && f in ops
    && forall g :: g in ops && IsFormatFor(g, x, m) ==> !Less(f.id, g.id)
  }

  predicate IsFormatFor(f: Op, x: OpId, m: string) {
    f.Format? && f.target == x && f.mark == m
  }

  /** On the ops in effect: the clock of a mark is the id of its decisive op. */
  lemma {:induction false} DecisiveSetsMark(c: Cell, ins: Op, effects: set<Op>, m: string, f: Op)
    requires ins.Insert? && Coherent(effects) && MarksDecided(c, ins, effects)
    requires Decisive(effects, ins.id, m, f)
    ensures m in c.clock && c.clock[m] == f.id && (m in c.attrs <==> f.on)
  {
    var w := Format(c.clock[m], ins.id, m, m in c.attrs);
    assert w in effects && IsFormatFor(w, ins.id, m);
    CompareSigns(f.id, c.clock[m]);
    assert SameName(f, w);
  }

  /** A mark says what the format op with the greatest id says. */
  lemma {:induction false} LastWriterWins(d: Doc, ops: set<Op>, x: OpId, m: string, f: Op)
    requires Exact(d, ops) && Coherent(ops) && x in d.cells && Decisive(ops, x, m, f)
    ensures m in d.cells[x].attrs <==> f.on
  {
    var effects := ops - PendingOps(d.pending);
    var ins := CellOfSubject(d, ops, x);
    CoherentPart(ops, effects);
    BufferedIffSubjectMissing(d, ops, f);
    assert Decisive(effects, x, m, f);
    DecisiveSetsMark(d.cells[x], ins, effects, m, f);
  }

  /** A mark that no format op is about is set iff the character was typed with it. */
  lemma {:induction false} TypedMarksStay(d: Doc, ops: set<Op>, ins: Op, m: string)
    requires Exact(d, ops) && Coherent(ops) && ins in ops && ins.Insert? && ins.id in d.cells
    requires forall f :: f in ops ==> !IsFormatFor(f, ins.id, m)
    ensures m in d.cells[ins.id].attrs <==> m in ins.attrs
  {
    var c := d.cells[ins.id];
    BufferedIffSubjectMissing(d, ops, ins);
    assert CellDecided(c, ins, ops - PendingOps(d.pending));
    assert m in c.clock ==> IsFormatFor(Format(c.clock[m], ins.id, m, m in c.attrs), ins.id, m);
  }
}
