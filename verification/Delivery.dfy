/** What a replica's state is, given only the set of ops that were delivered to it. */
module Delivery {
  import opened Ids
  import opened Ops
  import opened Arrival
  import opened Document

  // Which inserts are in the list, where, with which marks, what is buffered, and the counter: delivery order and
  // duplicates do not occur in the answer (packages/crdt/src/rga.ts, `apply`, `applyFormatOp`, `integrate`).

  ghost function PendingOps(pending: map<OpId, seq<Op>>): set<Op> {
    set k, op | k in pending && op in pending[k] :: op
  }

  /** Each mark is what the greatest format op for it says, and the insert's own choice if there is none. */
  ghost predicate MarksDecided(c: Cell, ins: Op, effects: set<Op>)
    requires ins.Insert?
  {
    && (forall m :: m in c.clock ==> Format(c.clock[m], ins.id, m, m in c.attrs) in effects)
    && (forall f :: f in effects && f.Format? && f.target == ins.id ==>
          f.mark in c.clock && !Less(c.clock[f.mark], f.id))
    && (forall m :: m !in c.clock ==> (m in c.attrs <==> m in ins.attrs))
  }

  ghost predicate CellDecided(c: Cell, ins: Op, effects: set<Op>)
    requires ins.Insert?
  {
    && c.origin == ins.origin && c.value == Some(ins.value)
    && (c.tombstone <==> Delete(ins.id) in effects)
    && MarksDecided(c, ins, effects)
  }

  ghost predicate HasInsert(ops: set<Op>, id: OpId) {
    exists ins :: ins in ops && ins.Insert? && ins.id == id
  }

  /** The cells are exactly what the ops of `effects`, all of them in effect, amount to. */
  ghost predicate Decided(cells: map<OpId, Cell>, effects: set<Op>) {
    && (forall op :: op in effects ==> Subject(op) in cells)
    && (forall x :: x in cells ==> HasInsert(effects, x))
    && (forall ins :: ins in effects && ins.Insert? && ins.id in cells ==> CellDecided(cells[ins.id], ins, effects))
  }

  /** `d` is what the delivery of the ops `ops` amounts to. */
  ghost predicate Exact(d: Doc, ops: set<Op>) {
    && Wf(d) && CounterExact(d)
    && PendingOps(d.pending) <= ops
    && Decided(d.cells, ops - PendingOps(d.pending))
  }

  // One step

  lemma {:induction false} PendingAfterBuffer(pending: map<OpId, seq<Op>>, key: OpId, op: Op)
    ensures PendingOps(BufferOn(pending, key, op)) == PendingOps(pending) + {op}
  {
    var after := BufferOn(pending, key, op);
    forall x | x in PendingOps(pending) + {op} ensures x in PendingOps(after) {
      if x in PendingOps(pending) {
        var k :| k in pending && x in pending[k];
        assert x in after[k];
      } else {
        assert x in after[key];
      }
    }
  }

  lemma {:induction false} PendingAfterTake(pending: map<OpId, seq<Op>>, key: OpId)
    ensures PendingOps(pending) == PendingOps(pending - {key}) + OpSet(Buffered(pending, key))
  {
    forall x | x in PendingOps(pending)
      ensures x in PendingOps(pending - {key}) || x in Buffered(pending, key)
    {
      var k :| k in pending && x in pending[k];
      if k != key { assert x in (pending - {key})[k]; }
    }
  }

  lemma {:induction false} OriginsAfterUpdate(cells: map<OpId, Cell>, x: OpId, c: Cell)
    ensures OriginsOf(cells[x := c]) == OriginsOf(cells)[x := c.origin]
  {
  }

  lemma {:induction false} UpdateKeepsListed(d: Doc, x: OpId, c: Cell)
    requires Listed(d) && x in d.cells && c.origin == d.cells[x].origin
    ensures Listed(d.(cells := d.cells[x := c]))
  {
    OriginsAfterUpdate(d.cells, x, c);
    assert OriginsOf(d.cells)[x := c.origin] == OriginsOf(d.cells);
  }

  lemma {:induction false} IntegrateKeepsListed(d: Doc, op: Op)
    requires Listed(d) && op.Insert? && op.id !in d.cells
    requires op.origin.Some? ==> op.origin.value in d.cells
    ensures Listed(Integrate(d, op))
  {
    BuiltPlace(OriginsOf(d.cells), d.order, op.id, op.origin);
    OriginsAfterUpdate(d.cells, op.id, NewCell(op));
  }

  lemma {:induction false} BufferKeepsWf(d: Doc, op: Op)
    requires Wf(d) && Awaits(op).Some? && Awaits(op).value !in d.cells
    ensures Wf(d.(pending := BufferOn(d.pending, Awaits(op).value, op)))
  {
  }

  lemma {:induction false} StepKeepsListed(d: Doc, op: Op)
    requires Listed(d)
    ensures Listed(Step(d, op).0)
  {
    if op.Insert? {
      if op.id !in d.cells && (op.origin.Some? ==> op.origin.value in d.cells) { IntegrateKeepsListed(d, op); }
    } else if op.target in d.cells {
      UpdateKeepsListed(d, op.target, Step(d, op).0.cells[op.target]);
    }
  }

  lemma {:induction false} StepKeepsWf(d: Doc, op: Op)
    requires Wf(d)
    ensures Wf(Step(d, op).0)
  {
    StepKeepsListed(d, op);
    if Awaits(op).Some? && Awaits(op).value !in d.cells { BufferKeepsWf(d, op); }
  }

  lemma {:induction false} FormatCellCounter(x: OpId, c: Cell, op: Op, n: nat)
    requires op.Format? && CellBound(x, c, n)
    ensures CellBound(x, FormatCell(c, op), Max(n, op.id.counter))
    ensures op.id.counter > n ==> CellAttains(x, FormatCell(c, op), op.id.counter)
    ensures op.id.counter <= n && CellAttains(x, c, n) ==> CellAttains(x, FormatCell(c, op), n)
  {
    var e := FormatCell(c, op);
    assert op.id.counter > n ==> op.mark in e.clock && e.clock[op.mark] == op.id;
    if op.id.counter <= n && CellAttains(x, c, n) && x.counter != n {
      var m :| m in c.clock && c.clock[m].counter == n;
      assert m in e.clock && e.clock[m].counter == n;
    }
  }

  lemma {:induction false} StepKeepsCounter(d: Doc, op: Op)
    requires CounterExact(d)
    ensures CounterExact(Step(d, op).0)
  {
    var e := Step(d, op).0;
    if op.Format? && op.target in d.cells {
      FormatCellCounter(op.target, d.cells[op.target], op, d.counter);
    }
    if d.counter != 0 {
      var x :| x in d.cells && CellAttains(x, d.cells[x], d.counter);
      assert x in e.cells && (e.counter == d.counter ==> CellAttains(x, e.cells[x], e.counter));
    }
    if e.counter != d.counter {
      assert Subject(op) in e.cells && CellAttains(Subject(op), e.cells[Subject(op)], e.counter);
    }
  }

  lemma {:induction false} StepKeepsBound(d: Doc, op: Op)
    requires CounterBound(d)
    ensures CounterBound(Step(d, op).0)
  {
  }

  // Effects of one step

  ghost predicate Blocked(d: Doc, op: Op) {
    && Awaits(op).Some? && Awaits(op).value !in d.cells
    && (op.Insert? ==> op.id !in d.cells)
  }

  lemma {:induction false} FormatDecides(c: Cell, ins: Op, effects: set<Op>, f: Op)
    requires ins.Insert? && f.Format? && f.target == ins.id
    requires CellDecided(c, ins, effects)
    ensures CellDecided(FormatCell(c, f), ins, effects + {f})
  {
    var e := FormatCell(c, f);
    if e == c {
      CompareSigns(c.clock[f.mark], f.id);
      assert !Less(c.clock[f.mark], f.id);
    } else {
      CompareSigns(f.id, f.id);
      forall g | g in effects + {f} && g.Format? && g.target == ins.id
        ensures g.mark in e.clock && !Less(e.clock[g.mark], g.id)
      {
        if g != f && g.mark == f.mark && Less(f.id, g.id) {
          LessTransitive(c.clock[f.mark], f.id, g.id);
        }
      }
    }
  }

  lemma {:induction false} OtherCellsDecided(c: Cell, ins: Op, effects: set<Op>, op: Op)
    requires ins.Insert? && CellDecided(c, ins, effects)
    requires op.Insert? || op.target != ins.id
    ensures CellDecided(c, ins, effects + {op})
  {
  }

  lemma {:induction false} IntegrateDecides(d: Doc, op: Op, effects: set<Op>)
    requires Decided(d.cells, effects) && op.Insert? && op.id !in d.cells
    ensures Decided(d.cells[op.id := NewCell(op)], effects + {op})
  {
  }

  lemma {:induction false} InsertsStay(cells: map<OpId, Cell>, effects: set<Op>, op: Op)
    requires forall x :: x in cells ==> HasInsert(effects, x)
    ensures forall x :: x in cells ==> HasInsert(effects + {op}, x)
  {
  }

  lemma {:induction false} DeleteDecides(c: Cell, ins: Op, effects: set<Op>)
    requires ins.Insert? && CellDecided(c, ins, effects)
    ensures CellDecided(c.(tombstone := true), ins, effects + {Delete(ins.id)})
  {
  }

  lemma {:induction false} UpdateDecidesCell(c: Cell, c': Cell, op: Op, ins: Op, effects: set<Op>)
    requires ins.Insert? && !op.Insert? && CellDecided(c, ins, effects)
    requires c' == if op.target != ins.id then c
                   else if op.Delete? then c.(tombstone := true) else FormatCell(c, op)
    ensures CellDecided(c', ins, effects + {op})
  {
    if op.target != ins.id { OtherCellsDecided(c, ins, effects, op); }
    else if op.Delete? { DeleteDecides(c, ins, effects); }
    else { FormatDecides(c, ins, effects, op); }
  }

  lemma {:induction false} UpdateDecidesOne(cells: map<OpId, Cell>, op: Op, c: Cell, effects: set<Op>, ins: Op)
    requires Decided(cells, effects) && !op.Insert? && op.target in cells
    requires ins in effects && ins.Insert? && ins.id in cells
    requires c == if op.Delete? then cells[op.target].(tombstone := true) else FormatCell(cells[op.target], op)
    ensures CellDecided(cells[op.target := c][ins.id], ins, effects + {op})
  {
    assert CellDecided(cells[ins.id], ins, effects);
    UpdateDecidesCell(cells[ins.id], cells[op.target := c][ins.id], op, ins, effects);
  }

  lemma {:induction false} UpdateDecidesAll(cells: map<OpId, Cell>, op: Op, c: Cell, effects: set<Op>)
    requires Decided(cells, effects) && !op.Insert? && op.target in cells
    requires c == if op.Delete? then cells[op.target].(tombstone := true) else FormatCell(cells[op.target], op)
    ensures forall ins :: ins in effects + {op} && ins.Insert? && ins.id in cells[op.target := c] ==>
      CellDecided(cells[op.target := c][ins.id], ins, effects + {op})
  {
    forall ins | ins in effects + {op} && ins.Insert? && ins.id in cells[op.target := c]
      ensures CellDecided(cells[op.target := c][ins.id], ins, effects + {op})
    {
      UpdateDecidesOne(cells, op, c, effects, ins);
    }
  }

  lemma {:induction false} UpdateDecides(cells: map<OpId, Cell>, op: Op, c: Cell, effects: set<Op>)
    requires Decided(cells, effects) && !op.Insert? && op.target in cells
    requires c == if op.Delete? then cells[op.target].(tombstone := true) else FormatCell(cells[op.target], op)
    ensures Decided(cells[op.target := c], effects + {op})
  {
    InsertsStay(cells, effects, op);
    UpdateDecidesAll(cells, op, c, effects);
  }

  lemma {:induction false} RepeatedInsert(cells: map<OpId, Cell>, op: Op, effects: set<Op>)
    requires Decided(cells, effects) && Coherent(effects + {op}) && op.Insert? && op.id in cells
    ensures op in effects
  {
    var ins :| ins in effects && ins.Insert? && ins.id == op.id;
    assert ins in effects + {op} && op in effects + {op} && SameName(ins, op);
  }

  /** The ops in effect after a turn of the loop. */
  ghost function EffectsAfter(d: Doc, op: Op, effects: set<Op>): set<Op> {
    if Blocked(d, op) then effects else effects + {op}
  }

  /** A turn of the loop puts the op into effect, recognises it, or buffers it. */
  lemma {:induction false} StepDecides(d: Doc, op: Op, effects: set<Op>)
    requires Decided(d.cells, effects) && Coherent(effects + {op})
    ensures Decided(Step(d, op).0.cells, EffectsAfter(d, op, effects))
  {
    if op.Insert? {
      if op.id in d.cells {
        RepeatedInsert(d.cells, op, effects);
        assert effects + {op} == effects;
      } else if !Blocked(d, op) {
        IntegrateDecides(d, op, effects);
      }
    } else if op.target in d.cells {
      UpdateDecides(d.cells, op, Step(d, op).0.cells[op.target], effects);
    }
  }

  /** No op is lost and none is made up. */
  lemma {:induction false} StepConserves(d: Doc, op: Op, effects: set<Op>)
    ensures var (e, released) := Step(d, op);
      EffectsAfter(d, op, effects) + PendingOps(e.pending) + OpSet(released) == effects + PendingOps(d.pending) + {op}
  {
    if Blocked(d, op) {
      PendingAfterBuffer(d.pending, Awaits(op).value, op);
    } else if op.Insert? {
      PendingAfterTake(d.pending, op.id);
    }
  }

  lemma {:induction false} OpSetHead(queue: seq<Op>)
    requires queue != []
    ensures OpSet(queue) == {queue[0]} + OpSet(queue[1..])
  {
  }

  lemma {:induction false} QueueConserves(d: Doc, queue: seq<Op>, effects: set<Op>)
    requires queue != []
    ensures var (e, released) := Step(d, queue[0]);
      EffectsAfter(d, queue[0], effects) + PendingOps(e.pending) + OpSet(queue[1..] + released)
        == effects + PendingOps(d.pending) + OpSet(queue)
  {
    StepConserves(d, queue[0], effects);
    OpSetHead(queue);
    var released := Step(d, queue[0]).1;
    assert OpSet(queue[1..] + released) == OpSet(queue[1..]) + OpSet(released);
  }

  lemma {:induction false} CoherentPart(ops: set<Op>, part: set<Op>)
    requires Coherent(ops) && part <= ops
    ensures Coherent(part)
  {
  }

  lemma {:induction false} DrainDecides(d: Doc, queue: seq<Op>, effects: set<Op>) returns (after: set<Op>)
    requires Wf(d) && CounterExact(d) && Decided(d.cells, effects)
    requires Coherent(effects + PendingOps(d.pending) + OpSet(queue))
    ensures Wf(Drain(d, queue)) && CounterExact(Drain(d, queue)) && Decided(Drain(d, queue).cells, after)
    ensures after + PendingOps(Drain(d, queue).pending) == effects + PendingOps(d.pending) + OpSet(queue)
    decreases |queue| + PendingSize(d.pending), |queue|
  {
    if queue == [] {
      after := effects;
    } else {
      var op := queue[0];
      var (e, released) := Step(d, op);
      CoherentPart(effects + PendingOps(d.pending) + OpSet(queue), effects + {op});
      StepShrinks(d, op);
      StepKeepsWf(d, op);
      StepKeepsCounter(d, op);
      StepDecides(d, op, effects);
      QueueConserves(d, queue, effects);
      after := DrainDecides(e, queue[1..] + released, EffectsAfter(d, op, effects));
    }
  }

  /** An op that is in effect is not also buffered. */
  lemma {:induction false} EffectsAndPendingDisjoint(d: Doc, effects: set<Op>)
    requires Wf(d) && Decided(d.cells, effects)
    ensures effects !! PendingOps(d.pending)
  {
    ListElements(d);
    forall op | op in effects ensures op !in PendingOps(d.pending) {
      assert Subject(op) in d.cells;
      if op.Insert? {
        assert CellDecided(d.cells[op.id], op, effects);
        assert d.cells[op.id].origin == op.origin;
      }
      assert Awaits(op).Some? ==> Awaits(op).value in d.cells;
    }
  }

  lemma {:induction false} ExactEmpty()
    ensures Exact(EMPTY, {})
  {
    EmptyWf();
  }

  /** Delivering one more op, for the first or the tenth time, whatever is missing. */
  lemma {:induction false} ApplyExact(d: Doc, op: Op, ops: set<Op>)
    requires Exact(d, ops) && Coherent(ops + {op})
    ensures Exact(Apply(d, op), ops + {op})
  {
    var effects := ops - PendingOps(d.pending);
    assert effects + PendingOps(d.pending) + OpSet([op]) == ops + {op};
    var after := DrainDecides(d, [op], effects);
    var e := Apply(d, op);
    EffectsAndPendingDisjoint(e, after);
    assert ops + {op} - PendingOps(e.pending) == after;
  }

  lemma {:induction false} ApplyAllExact(d: Doc, queue: seq<Op>, ops: set<Op>)
    requires Exact(d, ops) && Coherent(ops + OpSet(queue))
    ensures Exact(ApplyAll(d, queue), ops + OpSet(queue))
    decreases |queue|
  {
    if queue == [] {
      assert ops + OpSet(queue) == ops;
    } else {
      OpSetHead(queue);
      ApplyExact(d, queue[0], ops);
      assert ops + {queue[0]} + OpSet(queue[1..]) == ops + OpSet(queue);
      ApplyAllExact(Apply(d, queue[0]), queue[1..], ops + {queue[0]});
    }
  }
}
