/** When a replica that came back from a snapshot can give out an id again. */
module IdReuse {
  import opened Ids
  import opened Ops
  import opened Document
  import opened Delivery
  import opened Convergence
  import opened Edits
  import opened Snapshots
  import opened Runs

  // A replica gives out the ids above its counter, one after the other. After a restart the counter is no smaller than
  // the ids of its own that are in the list or on a clock (packages/crdt/src/rga.ts, `fromSnapshot`, `nextId`), but
  // ops that are buffered, and format ops on characters whose clocks a compaction erased, are on neither.

  /** Own ops whose ids are in the buffer only are within reach of the counter. */
  ghost predicate OwnBufferedBelow(d: Doc, r: string) {
    forall op :: op in PendingOps(d.pending) && !op.Delete? && op.id.replicaId == r ==> op.id.counter <= d.counter
  }

  /** So are own format ops on deleted characters. */
  ghost predicate OwnErasedBelow(d: Doc, r: string, got: set<Op>) {
    forall op ::
      op in got && op.Format? && op.id.replicaId == r && op.target in d.cells && d.cells[op.target].tombstone ==>
      op.id.counter <= d.counter
  }

  lemma {:induction false} ReactMintsAbove(d: Doc, r: string, event: Event)
    ensures var (e, ops) := React(d, r, event);
      && d.counter <= e.counter
      && forall op :: op in ops && !op.Delete? ==> op.id.replicaId == r && op.id.counter > d.counter
  {
    match event
    case Receive(op) => DrainCounterGrows(d, [op]);
    case Type(_, _, _) =>
    case Erase(_) =>
    case Mark(start, length, patch) => LocalFormatMints(d, r, start, length, patch);
    case Compaction =>
  }

  lemma {:induction false} LiveMintsAbove(d: Doc, r: string, events: seq<Event>)
    ensures forall op :: op in Live(d, r, events).1 && !op.Delete? ==> op.id.replicaId == r && op.id.counter > d.counter
    decreases |events|
  {
    if events != [] {
      ReactMintsAbove(d, r, events[0]);
      LiveMintsAbove(React(d, r, events[0]).0, r, events[1..]);
    }
  }

  /** Typing often enough gives out any id above the counter. */
  lemma {:induction false} TypingReaches(d: Doc, r: string, n: nat) returns (events: seq<Event>, op: Op)
    requires d.counter < n
    ensures op in Live(d, r, events).1 && op.Insert? && op.id == OpId(n, r)
    decreases n - d.counter
  {
    var typing := Type(0, "", {});
    var (e, ops) := React(d, r, typing);
    if n == d.counter + 1 {
      events, op := [typing], ops[0];
      assert [typing][1..] == [] && Live(e, r, []).1 == [];
      assert Live(d, r, [typing]).1 == ops + [];
    } else {
      var rest;
      rest, op := TypingReaches(e, r, n);
      events := [typing] + rest;
      assert events[1..] == rest;
      assert Live(d, r, events).1 == ops + Live(e, r, rest).1;
    }
  }

  ghost predicate ComesBack(d: Doc, r: string, id: OpId) {
    exists events, op :: op in Live(d, r, events).1 && !op.Delete? && op.id == id
  }

  /** Whatever a replica receives and types, it can give out an id of its own iff the id is above its counter. */
  lemma {:induction false} IdComesBackIff(d: Doc, r: string, id: OpId)
    ensures ComesBack(d, r, id) <==> id.replicaId == r && d.counter < id.counter
  {
    if ComesBack(d, r, id) {
      var events, op :| op in Live(d, r, events).1 && !op.Delete? && op.id == id;
      LiveMintsAbove(d, r, events);
    }
    if id.replicaId == r && d.counter < id.counter {
      var events, op := TypingReaches(d, r, id.counter);
      assert op in Live(d, r, events).1 && !op.Delete? && op.id == id;
    }
  }

  /** An op that is in effect is in the list, or on a clock unless its character is deleted. */
  lemma {:induction false} EffectIsBelow(d: Doc, got: set<Op>, op: Op)
    requires Sound(d) && Holds(d, got) && op in got && !op.Delete? && op !in PendingOps(d.pending)
    ensures Subject(op) in d.cells
    ensures op.id.counter <= d.counter || (op.Format? && d.cells[op.target].tombstone)
  {
    var e :| Exact(e, got) && Same(d, e);
    SameAt(d, e, Subject(op));
    assert Subject(op) in e.cells;
    var c := d.cells[Subject(op)];
    assert CellBound(Subject(op), c, d.counter);
    if op.Format? && !c.tombstone {
      CompactCellSame(c, e.cells[op.target]);
      FormatIsOnTheClock(e, got, op);
      assert op.mark in c.clock && c.clock[op.mark].counter <= d.counter;
    }
  }

  lemma {:induction false} FormatIsOnTheClock(e: Doc, ops: set<Op>, op: Op)
    requires Exact(e, ops) && op in ops && op !in PendingOps(e.pending) && op.Format?
    ensures op.target in e.cells && op.mark in e.cells[op.target].clock
    ensures op.id.counter <= e.cells[op.target].clock[op.mark].counter
  {
  }

  /** Buffered ops are about characters that are not there. */
  lemma {:induction false} BufferedIsAbsent(d: Doc, got: set<Op>, op: Op)
    requires Holds(d, got) && op in PendingOps(d.pending)
    ensures op in got && (op.Format? ==> op.target !in d.cells)
    ensures op.Insert? ==> op.origin.Some? && op.origin.value !in d.cells
  {
    HoldsListed(d, got);
    var k :| k in d.pending && op in d.pending[k];
    assert Awaits(op) == Some(k);
  }

  /**
   When no id of its own can come back to a replica that was given `got`, compacted or not: iff the ids that are
   only in the buffer and those of its format ops on deleted characters are within reach of the counter.
   */
  lemma {:induction false} NoIdComesBackIff(d: Doc, r: string, got: set<Op>)
    requires Sound(d) && Holds(d, got)
    ensures (forall op :: op in got && !op.Delete? && op.id.replicaId == r ==> !ComesBack(d, r, op.id))
      <==> OwnBufferedBelow(d, r) && OwnErasedBelow(d, r, got)
  {
    forall op | op in got && !op.Delete? && op.id.replicaId == r
      ensures ComesBack(d, r, op.id) <==> d.counter < op.id.counter
    {
      IdComesBackIff(d, r, op.id);
    }
    if OwnBufferedBelow(d, r) && OwnErasedBelow(d, r, got) {
      forall op | op in got && !op.Delete? && op.id.replicaId == r ensures op.id.counter <= d.counter {
        if op !in PendingOps(d.pending) { EffectIsBelow(d, got, op); }
      }
    }
    forall op | op in PendingOps(d.pending) ensures op in got { BufferedIsAbsent(d, got, op); }
  }

  /** A replica that was never compacted has all of them on its clocks, so that the buffer decides. */
  lemma {:induction false} UncompactedBufferDecides(d: Doc, r: string, got: set<Op>)
    requires Exact(d, got)
    ensures (forall op :: op in got && !op.Delete? && op.id.replicaId == r ==> !ComesBack(d, r, op.id))
      <==> OwnBufferedBelow(d, r)
  {
    ExactIsSound(d, got);
    assert Same(d, d);
    NoIdComesBackIff(d, r, got);
    forall op | op in got && op.Format? && op.target in d.cells ensures op.id.counter <= d.counter {
      if op in PendingOps(d.pending) { BufferedIsAbsent(d, got, op); } else { EffectIsBelowExact(d, got, op); }
    }
  }

  /** Some op in effect has the counter of an exact document. */
  lemma {:induction false} CounterIsGiven(d: Doc, got: set<Op>) returns (op: Op)
    requires Exact(d, got) && d.counter > 0
    ensures op in got - PendingOps(d.pending) && !op.Delete? && op.id.counter == d.counter
  {
    var x :| x in d.cells && CellAttains(x, d.cells[x], d.counter);
    if x.counter == d.counter {
      op :| op in got - PendingOps(d.pending) && op.Insert? && op.id == x;
    } else {
      var ins := CellOfSubject(d, got, x);
      var m :| m in d.cells[x].clock && d.cells[x].clock[m].counter == d.counter;
      op := Format(d.cells[x].clock[m], x, m, m in d.cells[x].attrs);
    }
  }

  /**
   When compacting before a snapshot keeps every replica from giving an id away again that the snapshot has seen:
   iff the counter is still witnessed by an id in the list or on the clock of a character that is not deleted.
   Otherwise there is one whose id comes back.
   */
  lemma {:induction false} CompactedSnapshotIff(d: Doc, got: set<Op>)
    requires Exact(d, got)
    ensures var e := FromSnapshot(SnapshotOf(Compact(d)));
      (forall op :: op in got - PendingOps(d.pending) && !op.Delete? ==> !ComesBack(e, op.id.replicaId, op.id))
        <==> CounterExact(Compact(d))
  {
    var c, e := Compact(d), FromSnapshot(SnapshotOf(Compact(d)));
    ExactIsSound(d, got);
    CompactKeepsSound(d);
    RestoredListAndIndex(c);
    RestoredCounterExact(c);
    ExactCounterIsLeast(e, c);
    forall op | op in got && !op.Delete? ensures ComesBack(e, op.id.replicaId, op.id) <==> e.counter < op.id.counter {
      IdComesBackIff(e, op.id.replicaId, op.id);
    }
    if CounterExact(c) {
      ExactCounterIsLeast(c, e);
      forall op | op in got - PendingOps(d.pending) && !op.Delete? ensures op.id.counter <= d.counter {
        EffectIsBelowExact(d, got, op);
      }
    } else {
      var op := CounterIsGiven(d, got);
    }
  }

  lemma {:induction false} EffectIsBelowExact(d: Doc, got: set<Op>, op: Op)
    requires Exact(d, got) && op in got - PendingOps(d.pending) && !op.Delete?
    ensures op.id.counter <= d.counter
  {
    assert CellBound(Subject(op), d.cells[Subject(op)], d.counter);
    if op.Format? { FormatIsOnTheClock(d, got, op); }
  }
}
