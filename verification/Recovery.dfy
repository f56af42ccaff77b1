/** What a process shows after a crash (apps/server/src/persistence). */
module Recovery {
  import opened Ids
  import opened Ops
  import opened Order
  import opened Keys
  import opened Document
  import opened Delivery
  import opened Snapshots
  import opened Batches
  import opened Stores
  import opened Databases
  import opened ServerProcess

  /** The process after the actions, as far as they can happen one after the other. */
  ghost predicate Reaches(p: Process, actions: seq<Action>, q: Process)
    decreases |actions|
  {
    if actions == [] then p == q
    else Enabled(p, actions[0]) && Reaches(Next(p, actions[0]), actions[1..], q)
  }

  /** The process accepts ops of this set only. */
  ghost predicate Within(actions: seq<Action>, all: set<Op>) {
    forall a :: a in actions && a.Accept? ==> OpSet(a.batch.ops) <= all
  }

  lemma {:induction false} RunAccounts(p: Process, actions: seq<Action>, q: Process)
    requires Accounts(p) && Reaches(p, actions, q)
    ensures Accounts(q)
    decreases |actions|
  {
    if actions != [] {
      NextAccounts(p, actions[0]);
      RunAccounts(Next(p, actions[0]), actions[1..], q);
    }
  }

  lemma {:induction false} RunShows(p: Process, actions: seq<Action>, q: Process, all: set<Op>)
    requires Shows(p, all) && Accounts(p) && Coherent(all) && Within(actions, all) && Reaches(p, actions, q)
    ensures Shows(q, all)
    decreases |actions|
  {
    if actions != [] {
      NextShows(p, actions[0], all);
      NextAccounts(p, actions[0]);
      RunShows(Next(p, actions[0]), actions[1..], q, all);
    }
  }

  /**
   Crash recovery, whatever happens: at any moment of any run a fresh process shows what the stored snapshot
   shows together with the ops in the rows, and this is never more than the crashed one had been given. In
   particular a batch that is appended after the snapshot that covers it does no harm.
   */
  lemma {:induction false} RecoveryIsExact(kind: Kind, actions: seq<Action>, p: Process, loaded: Loaded, all: set<Op>)
    requires Coherent(all) && Within(actions, all) && Reaches(Boot(kind), actions, p) && Loads(p.kind, p.store, loaded)
    ensures Holds(Rebuilt(loaded).doc, Recoverable(p)) && Recoverable(p) <= p.shown
  {
    BootShows(kind, all);
    BootAccounts(kind);
    RunShows(Boot(kind), actions, p, all);
    RunAccounts(Boot(kind), actions, p);
    RebuiltShows(p, loaded, all);
  }

  /**
   What becomes of an op that was appended or stored in a snapshot: a fresh process shows it, unless it was
   buffered when a snapshot was taken or another durable op has its key.
   */
  lemma {:induction false} DurableIsRecovered(kind: Kind, actions: seq<Action>, p: Process, op: Op)
    requires Reaches(Boot(kind), actions, p) && op in p.durable && op !in p.dropped && !Clashes(p.durable, op)
    ensures op in Recoverable(p)
  {
    BootAccounts(kind);
    RunAccounts(Boot(kind), actions, p);
  }

  // Nothing durable is lost

  /** No snapshot is taken while ops are buffered. */
  ghost predicate BuffersEmpty(p: Process, actions: seq<Action>)
    decreases |actions|
  {
    actions == [] ||
      (&& Enabled(p, actions[0]) && (actions[0].TakeSnapshot? ==> p.room.doc.pending == map[])
       && BuffersEmpty(Next(p, actions[0]), actions[1..]))
  }

  lemma {:induction false} RunDropsNothing(p: Process, actions: seq<Action>, q: Process)
    requires Reaches(p, actions, q) && BuffersEmpty(p, actions) && NothingDropped(p)
    ensures NothingDropped(q)
    decreases |actions|
  {
    if actions != [] {
      assert PendingOps(map[]) == {};
      RunDropsNothing(Next(p, actions[0]), actions[1..], q);
    }
  }

  /**
   With one op per key and snapshots taken while nothing is buffered, what a fresh process shows is exactly
   the ops that were appended or stored in a snapshot.
   */
  lemma {:induction false} NothingDurableIsLost(kind: Kind, actions: seq<Action>, p: Process, loaded: Loaded,
                                                all: set<Op>)
    requires Coherent(all) && DistinctIds(all) && Within(actions, all)
    requires Reaches(Boot(kind), actions, p) && BuffersEmpty(Boot(kind), actions) && Loads(p.kind, p.store, loaded)
    ensures Holds(Rebuilt(loaded).doc, p.durable)
  {
    BootAccounts(kind);
    BootShows(kind, all);
    RunAccounts(Boot(kind), actions, p);
    RunShows(Boot(kind), actions, p, all);
    RunDropsNothing(Boot(kind), actions, p);
    RecoveryIsExact(kind, actions, p, loaded, all);
    DurableWithin(Boot(kind), actions, p, all);
    DistinctMeansUncontested(p.durable);
    ReadableIsStored(p.kind, p.store);
    assert p.durable == Recoverable(p);
  }

  lemma {:induction false} DurableWithin(p: Process, actions: seq<Action>, q: Process, all: set<Op>)
    requires Shows(p, all) && Accounts(p) && Coherent(all) && Within(actions, all) && Reaches(p, actions, q)
    requires p.durable <= all
    ensures q.durable <= all
    decreases |actions|
  {
    if actions != [] {
      NextShows(p, actions[0], all);
      NextAccounts(p, actions[0]);
      DurableWithin(Next(p, actions[0]), actions[1..], q, all);
    }
  }

  // When a key is taken twice

  /** An op under a key that is taken never reaches the rows. */
  lemma {:induction false} TakenKeyIsNeverStored(d: StoredDoc, seqNo: nat, op: Op)
    requires OpIdKeyOf(op) in d.seenOpIds
    ensures Appended(d, seqNo, [op]) == d.(latestSeq := Max(d.latestSeq, seqNo))
  {
    SaveOne(d.(latestSeq := Max(d.latestSeq, seqNo)), seqNo, op);
  }

  /** Once an insert has been appended, its delete never reaches the rows. */
  lemma {:induction false} DeleteIsNeverStored(d: StoredDoc, seqNo: nat, target: OpId)
    requires OpIdToString(target) in d.seenOpIds
    ensures Appended(d, seqNo, [Delete(target)]) == d.(latestSeq := Max(d.latestSeq, seqNo))
  {
    TakenKeyIsNeverStored(d, seqNo, Delete(target));
  }

  lemma {:induction false} AllRowsGo(rows: seq<StoredOp>, seqNo: nat)
    requires forall row :: row in rows ==> row.seqNo <= seqNo
    ensures RowsAbove(rows, seqNo) == []
  {
    if rows != [] {
      assert rows == [rows[0]] + rows[1..];
      AllRowsGo(rows[1..], seqNo);
    }
  }

  lemma {:induction false} AppendedTakesKeys(ops: seq<Op>)
    ensures var d := Appended(NO_DOC, 1, ops);
      (forall op :: op in ops ==> OpIdKeyOf(op) in d.seenOpIds) && RowsAbove(d.ops, 1) == [] && d.latestSeq == 1
  {
    SaveAllKeeps(NO_DOC.(latestSeq := 1), 1, ops);
    SavedRows(NO_DOC.(latestSeq := 1), 1, ops);
    AllRowsGo(Appended(NO_DOC, 1, ops).ops, 1);
    forall op | op in ops ensures OpIdKeyOf(op) in KeysOf(OpSet(ops)) { assert op in OpSet(ops); }
  }

  /**
   Nor is an insert under an id that came back ever stored: "x" was typed, made bold and deleted, all of it appended
   and covered by a compacted snapshot. A replica restored from that snapshot gives out the id of the format op again,
   whose key the store has not forgotten; the batch is acknowledged, and after a crash the character is gone.
   */
  lemma {:induction false} ReissuedInsertIsNeverStored(value: string)
    ensures var x, bold := OpId(1, "a"), OpId(2, "a");
      var ops := [Insert(x, None, value, {}), Format(bold, x, "bold", true), Delete(x)];
      var store := Covered(Appended(NO_DOC, 1, ops), 1, SnapshotOf(Compact(ApplyAll(EMPTY, ops))));
      var again := Appended(store, 2, [Insert(bold, None, value, {})]);
      && NextId(FromSnapshot(StoredState(store)), "a") == bold
      && again.ops == [] && again.snapshot == store.snapshot
  {
    var x, bold := OpId(1, "a"), OpId(2, "a");
    var ops := [Insert(x, None, value, {}), Format(bold, x, "bold", true), Delete(x)];
    var rows := Appended(NO_DOC, 1, ops);
    CompactedSnapshotReissuesAnId(value);
    AppendedTakesKeys(ops);
    assert ops[1] in ops;
    var reissued := Insert(bold, None, value, {});
    SameKey(reissued, ops[1]);
    TakenKeyIsNeverStored(Covered(rows, 1, SnapshotOf(Compact(ApplyAll(EMPTY, ops)))), 2, reissued);
  }

  lemma {:induction false} OneCharacter(x: OpId, value: string)
    ensures var d := ApplyAll(EMPTY, [Insert(x, None, value, {})]);
      d == Doc([x], map[x := NewCell(Insert(x, None, value, {}))], map[], Max(0, x.counter)) && Read(d) == value
  {
    var ins := Insert(x, None, value, {});
    var d := Apply(EMPTY, ins);
    ApplyIsStep(EMPTY, ins);
    PlaceAt([], x, None, 0);
    assert EMPTY.pending - {x} == EMPTY.pending;
    assert d.order == [x] && d.cells == map[x := NewCell(ins)];
    assert [ins][1..] == [] && [x][1..] == [];
    assert ApplyAll(EMPTY, [ins]) == ApplyAll(d, []) == d;
    assert GlyphsOf([], d.cells) == [];
    var g := [Glyph(value, {})];
    assert Glyphs(d) == g && g[1..] == [] && value + "" == value;
    assert TextOf(g) == g[0].value + TextOf(g[1..]);
  }

  /** So text that was typed and deleted, both durably acknowledged, is back after a crash. */
  lemma {:induction false} DeletedTextComesBack(x: OpId, value: string)
    ensures var ins, del := Insert(x, None, value, {}), Delete(x);
      var store := Appended(Appended(NO_DOC, 1, [ins]), 2, [del]);
      && Read(ApplyAll(EMPTY, [ins, del])) == ""
      && Read(ApplyAll(FromSnapshot(StoredState(store)), OpsOf(store.ops))) == value
  {
    var ins, del := Insert(x, None, value, {}), Delete(x);
    var d := ApplyAll(EMPTY, [ins]);
    OneCharacter(x, value);
    assert [ins][1..] == [] && [ins, del][1..] == [del] && [del][1..] == [] && [x][1..] == [];
    assert ApplyAll(EMPTY, [ins]) == ApplyAll(Apply(EMPTY, ins), []) == Apply(EMPTY, ins);
    assert ApplyAll(EMPTY, [ins, del]) == ApplyAll(d, [del]);
    var e := Apply(d, del);
    ApplyIsStep(d, del);
    assert ApplyAll(d, [del]) == ApplyAll(e, []) == e;
    assert GlyphsOf([], e.cells) == [];
    assert Glyphs(e) == [];
    SaveOne(NO_DOC.(latestSeq := 1), 1, ins);
    var once := Appended(NO_DOC, 1, [ins]);
    assert once.ops == [StoredOp(1, ins)] && OpsOf(once.ops) == [ins] && FromSnapshot(StoredState(once)) == EMPTY;
    DeleteIsNeverStored(once, 2, x);
  }
}
