/** What a client keeps (apps/web/src/lib/documentClient.ts). */
module Clients {
  import opened Ids
  import opened Ops
  import opened Document
  import opened Order
  import opened Editor
  import opened Wire

  // Its replica, the outbox of unacknowledged ops, the last acknowledged number and the stored record.

  // The outbox: at most one op per key, in the order in which the keys came in

  function Put(outbox: seq<Op>, op: Op): seq<Op> {
    if outbox == [] then [op]
    else if OpIdOf(outbox[0]) == OpIdOf(op) then [op] + outbox[1..]
    else [outbox[0]] + Put(outbox[1..], op)
  }

  function PutAll(outbox: seq<Op>, ops: seq<Op>): seq<Op>
    decreases |ops|
  {
    if ops == [] then outbox else PutAll(Put(outbox, ops[0]), ops[1..])
  }

  function Remove(outbox: seq<Op>, id: OpId): seq<Op> {
    if outbox == [] then []
    else if OpIdOf(outbox[0]) == id then Remove(outbox[1..], id)
    else [outbox[0]] + Remove(outbox[1..], id)
  }

  function RemoveAll(outbox: seq<Op>, ids: seq<OpId>): seq<Op>
    decreases |ids|
  {
    if ids == [] then outbox else RemoveAll(Remove(outbox, ids[0]), ids[1..])
  }

  predicate OnePerKey(outbox: seq<Op>) {
    forall i, j :: 0 <= i < j < |outbox| ==> OpIdOf(outbox[i]) != OpIdOf(outbox[j])
  }

  // The state and its transitions

  datatype DocumentRecord = DocumentRecord(lastAckedSeq: nat, snapshotState: seq<SnapshotNode>)

  datatype ClientState = ClientState(doc: Doc, outbox: seq<Op>, lastAcked: nat, record: DocumentRecord)

  /** persistDocumentState. */
  function Persisted(c: ClientState): ClientState {
    c.(record := DocumentRecord(c.lastAcked, SnapshotOf(c.doc)))
  }

  /** handleServerMessage. */
  ghost function OnMessage(c: ClientState, m: ServerMessage): ClientState {
    match m
    case SnapshotMessage(seqNo, state) =>
      Persisted(c.(doc := ApplyAll(FromSnapshot(state), c.outbox), lastAcked := seqNo))
    case SyncMessage(seqNo, ops) => Persisted(c.(doc := ApplyAll(c.doc, ops), lastAcked := seqNo))
    case BroadcastMessage(_, ops) => c.(doc := ApplyAll(c.doc, ops))
    case AckMessage(seqNo, ids) => Persisted(c.(outbox := RemoveAll(c.outbox, ids), lastAcked := seqNo))
    case ErrorMessage(_, _) => c
  }

  /** The catch-up replies make the client resend what is unacknowledged, all in one message. */
  function Flushed(outbox: seq<Op>, m: ServerMessage): seq<ClientMessage> {
    if (m.SnapshotMessage? || m.SyncMessage?) && outbox != [] then [OpMessage(outbox)] else []
  }

  /** applyLocalEdits: when an edit throws, what went before it stays in the replica and is never sent. */
  function OnEdits(c: ClientState, replicaId: string, edits: seq<Edit>): ClientState {
    var r := Performed(c.doc, replicaId, edits);
    c.(doc := r.doc, outbox := if r.thrown then c.outbox else PutAll(c.outbox, r.ops))
  }

  function EditMessages(c: ClientState, replicaId: string, edits: seq<Edit>): seq<ClientMessage> {
    var r := Performed(c.doc, replicaId, edits);
    if edits == [] || r.thrown then [] else [OpMessage(r.ops)]
  }

  /** init: the stored record, and on top of it the stored outbox in the order in which it is listed. */
  ghost function Reloaded(record: DocumentRecord, listed: seq<Op>): ClientState {
    ClientState(ApplyAll(FromSnapshot(record.snapshotState), listed), listed, record.lastAckedSeq, record)
  }

  const NO_RECORD := DocumentRecord(0, [])

  // What happens to the ops in the outbox

  /** The ops of a set that go by this id. */
  ghost function Under(ops: set<Op>, id: OpId): set<Op> {
    set op | op in ops && OpIdOf(op) == id
  }

  lemma {:induction false} OnePerKeyCons(first: Op, rest: seq<Op>)
    ensures OnePerKey([first] + rest) <==> OnePerKey(rest) && forall x :: x in rest ==> OpIdOf(x) != OpIdOf(first)
  {
    var all := [first] + rest;
    if OnePerKey(all) {
      forall i, j | 0 <= i < j < |rest| ensures OpIdOf(rest[i]) != OpIdOf(rest[j]) {
        assert all[i + 1] == rest[i] && all[j + 1] == rest[j];
      }
      forall x | x in rest ensures OpIdOf(x) != OpIdOf(first) {
        var i :| 0 <= i < |rest| && rest[i] == x;
        assert all[0] == first && all[i + 1] == x;
      }
    }
  }

  lemma {:induction false} PutHas(outbox: seq<Op>, op: Op, x: Op)
    requires OnePerKey(outbox)
    ensures x in Put(outbox, op) <==> x == op || (x in outbox && OpIdOf(x) != OpIdOf(op))
  {
    if outbox != [] {
      var rest := outbox[1..];
      assert outbox == [outbox[0]] + rest;
      OnePerKeyCons(outbox[0], rest);
      if OpIdOf(outbox[0]) != OpIdOf(op) { PutHas(rest, op, x); }
    }
  }

  lemma {:induction false} PutKeepsOnePerKey(outbox: seq<Op>, op: Op)
    requires OnePerKey(outbox)
    ensures OnePerKey(Put(outbox, op))
  {
    if outbox != [] {
      var first, rest := outbox[0], outbox[1..];
      assert outbox == [first] + rest;
      OnePerKeyCons(first, rest);
      if OpIdOf(first) == OpIdOf(op) {
        OnePerKeyCons(op, rest);
      } else {
        PutKeepsOnePerKey(rest, op);
        forall x | x in Put(rest, op) ensures OpIdOf(x) != OpIdOf(first) { PutHas(rest, op, x); }
        OnePerKeyCons(first, Put(rest, op));
      }
    }
  }

  lemma {:induction false} PutIs(outbox: seq<Op>, op: Op)
    requires OnePerKey(outbox)
    ensures OnePerKey(Put(outbox, op))
    ensures OpSet(Put(outbox, op)) == OpSet(outbox) - Under(OpSet(outbox), OpIdOf(op)) + {op}
  {
    PutKeepsOnePerKey(outbox, op);
    forall x ensures x in OpSet(Put(outbox, op)) <==> x in OpSet(outbox) - Under(OpSet(outbox), OpIdOf(op)) + {op} {
      PutHas(outbox, op, x);
    }
  }

  /** An op takes the place of the one with its key, or comes last. */
  lemma {:induction false} PutTakesThePlace(outbox: seq<Op>, op: Op, i: nat)
    requires i <= |outbox| && forall j :: 0 <= j < i ==> OpIdOf(outbox[j]) != OpIdOf(op)
    requires i < |outbox| ==> OpIdOf(outbox[i]) == OpIdOf(op)
    ensures Put(outbox, op) == if i < |outbox| then outbox[i := op] else outbox + [op]
  {
    if i > 0 {
      assert outbox == [outbox[0]] + outbox[1..];
      PutTakesThePlace(outbox[1..], op, i - 1);
    }
  }

  /** The others move up when an op goes. */
  lemma {:induction false} RemoveClosesUp(outbox: seq<Op>, i: nat)
    requires OnePerKey(outbox) && i < |outbox|
    ensures Remove(outbox, OpIdOf(outbox[i])) == outbox[..i] + outbox[i + 1..]
  {
    var first, rest := outbox[0], outbox[1..];
    assert outbox == [first] + rest;
    OnePerKeyCons(first, rest);
    if i > 0 {
      RemoveClosesUp(rest, i - 1);
    } else {
      NothingToRemove(rest, OpIdOf(first));
    }
  }

  lemma {:induction false} NothingToRemove(outbox: seq<Op>, id: OpId)
    requires forall x :: x in outbox ==> OpIdOf(x) != id
    ensures Remove(outbox, id) == outbox
  {
    if outbox != [] { NothingToRemove(outbox[1..], id); }
  }

  /** Putting an op into the outbox keeps everything that is in it iff no other op there has the same key. */
  lemma {:induction false} PutKeepsAllIff(outbox: seq<Op>, op: Op)
    requires OnePerKey(outbox)
    ensures OpSet(outbox) <= OpSet(Put(outbox, op)) <==> forall x :: x in outbox && OpIdOf(x) == OpIdOf(op) ==> x == op
  {
    PutIs(outbox, op);
    forall x | x in outbox && OpIdOf(x) == OpIdOf(op) && x != op ensures x !in OpSet(Put(outbox, op)) {
      assert x in Under(OpSet(outbox), OpIdOf(op));
    }
  }

  lemma {:induction false} RemoveHas(outbox: seq<Op>, id: OpId, x: Op)
    ensures x in Remove(outbox, id) <==> x in outbox && OpIdOf(x) != id
  {
    if outbox != [] {
      assert outbox == [outbox[0]] + outbox[1..];
      RemoveHas(outbox[1..], id, x);
    }
  }

  lemma {:induction false} RemoveKeepsOnePerKey(outbox: seq<Op>, id: OpId)
    requires OnePerKey(outbox)
    ensures OnePerKey(Remove(outbox, id))
  {
    if outbox != [] {
      var first, rest := outbox[0], outbox[1..];
      assert outbox == [first] + rest;
      OnePerKeyCons(first, rest);
      RemoveKeepsOnePerKey(rest, id);
      forall x | x in Remove(rest, id) ensures OpIdOf(x) != OpIdOf(first) { RemoveHas(rest, id, x); }
      OnePerKeyCons(first, Remove(rest, id));
    }
  }

  lemma {:induction false} RemoveIs(outbox: seq<Op>, id: OpId)
    requires OnePerKey(outbox)
    ensures OnePerKey(Remove(outbox, id))
    ensures OpSet(Remove(outbox, id)) == OpSet(outbox) - Under(OpSet(outbox), id)
  {
    RemoveKeepsOnePerKey(outbox, id);
    forall x ensures x in OpSet(Remove(outbox, id)) <==> x in OpSet(outbox) - Under(OpSet(outbox), id) {
      RemoveHas(outbox, id, x);
    }
  }

  lemma {:induction false} RemoveAllIs(outbox: seq<Op>, ids: seq<OpId>)
    requires OnePerKey(outbox)
    ensures OnePerKey(RemoveAll(outbox, ids))
    ensures OpSet(RemoveAll(outbox, ids)) == set op | op in outbox && OpIdOf(op) !in ids
    decreases |ids|
  {
    if ids != [] {
      RemoveIs(outbox, ids[0]);
      RemoveAllIs(Remove(outbox, ids[0]), ids[1..]);
      assert ids == [ids[0]] + ids[1..];
      forall op ensures op in OpSet(RemoveAll(outbox, ids)) <==> op in outbox && OpIdOf(op) !in ids {
        assert op in Remove(outbox, ids[0]) <==> op in OpSet(Remove(outbox, ids[0]));
        assert op in outbox <==> op in OpSet(outbox);
      }
    }
  }

  lemma {:induction false} IdsOfHave(batch: seq<Op>, id: OpId)
    ensures id in IdsOf(batch) <==> exists op :: op in batch && id == OpIdOf(op)
  {
    forall op | op in batch ensures OpIdOf(op) in IdsOf(batch) {
      var i :| 0 <= i < |batch| && batch[i] == op;
      assert IdsOf(batch)[i] == OpIdOf(op);
    }
  }

  /**
   An acknowledgement leaves everything in the outbox that is not in its batch iff no op of the batch has the key of
   another one that is there.
   */
  lemma {:induction false} AckKeepsTheRestIff(outbox: seq<Op>, batch: seq<Op>)
    requires OnePerKey(outbox)
    ensures OpSet(outbox) - OpSet(batch) <= OpSet(RemoveAll(outbox, IdsOf(batch)))
      <==> forall x, op :: x in outbox && op in batch && OpIdOf(x) == OpIdOf(op) ==> x in batch
  {
    var rest, left := OpSet(outbox) - OpSet(batch), OpSet(RemoveAll(outbox, IdsOf(batch)));
    RemoveAllIs(outbox, IdsOf(batch));
    forall x ensures x in left <==> x in outbox && !exists op :: op in batch && OpIdOf(x) == OpIdOf(op) {
      IdsOfHave(batch, OpIdOf(x));
    }
    if rest <= left {
      forall x, op | x in outbox && op in batch && OpIdOf(x) == OpIdOf(op) ensures x in batch {
        assert x in rest || x in batch;
      }
    }
  }

  /** All new ops are in the outbox afterwards, but for those replaced by a later one with the same key. */
  lemma {:induction false} PutAllIs(outbox: seq<Op>, ops: seq<Op>)
    requires OnePerKey(outbox)
    ensures OnePerKey(PutAll(outbox, ops))
    ensures OpSet(PutAll(outbox, ops)) <= OpSet(outbox) + OpSet(ops)
    ensures forall op :: op in OpSet(outbox) + OpSet(ops) && op !in OpSet(PutAll(outbox, ops)) ==>
      exists other :: other in ops && other != op && OpIdOf(other) == OpIdOf(op)
    decreases |ops|
  {
    if ops != [] {
      PutIs(outbox, ops[0]);
      PutAllIs(Put(outbox, ops[0]), ops[1..]);
      assert ops == [ops[0]] + ops[1..];
      var after := PutAll(outbox, ops);
      forall op | op in OpSet(outbox) + OpSet(ops) && op !in OpSet(after)
        ensures exists other :: other in ops && other != op && OpIdOf(other) == OpIdOf(op)
      {
        if op in OpSet(Put(outbox, ops[0])) + OpSet(ops[1..]) {
          var other :| other in ops[1..] && other != op && OpIdOf(other) == OpIdOf(op);
          assert other in ops;
        } else {
          assert op in Under(OpSet(outbox), OpIdOf(ops[0])) && ops[0] in ops;
        }
      }
    }
  }

  // Where the outbox and the stored record fall short

  lemma {:induction false} PutTwo(outbox: seq<Op>, a: Op, b: Op)
    ensures PutAll(outbox, [a, b]) == Put(Put(outbox, a), b)
  {
    assert [a, b][1..] == [b] && [b][1..] == [];
    assert PutAll(Put(Put(outbox, a), b), []) == Put(Put(outbox, a), b);
  }

  /** A delete takes the place of the insert that it targets, which leaves the outbox without being acknowledged. */
  lemma {:induction false} DeleteEvictsItsInsert(outbox: seq<Op>, ins: Op)
    requires OnePerKey(outbox) && ins.Insert?
    ensures ins !in OpSet(PutAll(outbox, [ins, Delete(ins.id)]))
    ensures Delete(ins.id) in OpSet(PutAll(outbox, [ins, Delete(ins.id)]))
  {
    PutTwo(outbox, ins, Delete(ins.id));
    PutIs(outbox, ins);
    PutIs(Put(outbox, ins), Delete(ins.id));
    assert ins in Put(outbox, ins) <==> ins in OpSet(Put(outbox, ins));
  }

  /**
   And when the insert, which was sent before, is acknowledged after all, the delete goes in its place: if the message
   with the delete was lost, nothing is left to send it again.
   */
  lemma {:induction false} AckTakesTheQueuedDelete(c: ClientState, ins: Op, seqNo: nat)
    requires OnePerKey(c.outbox) && ins.Insert?
    ensures var queued := c.(outbox := PutAll(c.outbox, [ins, Delete(ins.id)]));
      && Delete(ins.id) in OpSet(queued.outbox)
      && Delete(ins.id) !in OpSet(OnMessage(queued, AckMessage(seqNo, IdsOf([ins]))).outbox)
  {
    var outbox := PutAll(c.outbox, [ins, Delete(ins.id)]);
    DeleteEvictsItsInsert(c.outbox, ins);
    PutAllIs(c.outbox, [ins, Delete(ins.id)]);
    RemoveAllIs(outbox, IdsOf([ins]));
    assert OpIdOf(Delete(ins.id)) == IdsOf([ins])[0];
  }

  /**
   A reload can forget ids. "y" was typed after a character that had only been broadcast, so that the record
   does not show it; after the reload "y" is buffered, its id counts for nothing, and the second character typed
   from then on gets that id and evicts "y" from the outbox.
   */
  lemma {:induction false} ReloadReissuesAnId(value: string)
    ensures var y := Insert(OpId(2, "a"), Some(OpId(1, "b")), value, {});
      var c := Reloaded(NO_RECORD, [y]);
      var one := OnEdits(c, "a", [InsertEdit(0, "u", {})]);
      NextId(one.doc, "a") == y.id && y !in Put(one.outbox, Insert(y.id, None, "v", {}))
  {
    var y := Insert(OpId(2, "a"), Some(OpId(1, "b")), value, {});
    var c := Reloaded(NO_RECORD, [y]);
    assert FromSnapshot([]) == EMPTY && [y][1..] == [];
    ApplyIsStep(EMPTY, y);
    assert ApplyAll(EMPTY, [y]) == ApplyAll(Apply(EMPTY, y), []) == Apply(EMPTY, y);
    var edit := InsertEdit(0, "u", {});
    assert [edit][1..] == [];
    var first := ApplyEdit(c.doc, "a", edit);
    assert ApplyEdits(first.doc, "a", []) == Outcome(first.doc, [], false);
    assert ApplyEdits(c.doc, "a", [edit]).doc == first.doc;
    assert ApplyEdits(c.doc, "a", [edit]).ops == first.ops + [] == first.ops;
    var u := first.ops[0];
    assert first.ops == [u] && u.id == OpId(1, "a");
    assert [u][1..] == [];
    assert PutAll(c.outbox, [u]) == PutAll(Put(c.outbox, u), []) == Put([y], u);
    assert Put([], u) == [u] && Put([y], u) == [y, u] && [y, u][1..] == [u];
    assert Put([y, u], Insert(y.id, None, "v", {})) == [Insert(y.id, None, "v", {})] + [u];
  }

  /**
   So can one of a deleted character. "x" was typed and deleted offline, so that only the delete is in the outbox and
   neither is in the record. After a reload the delete waits for an id that the next character gets: it is visible
   here, but wherever its op is delivered after the delete it never shows.
   */
  lemma {:induction false} ReloadRevivesADelete(value: string)
    requires value != ""
    ensures var x := OpId(1, "a");
      var outbox := PutAll([], [Insert(x, None, "x", {}), Delete(x)]);
      var c := Reloaded(NO_RECORD, outbox);
      var typed := Insert(x, None, value, {});
      && outbox == [Delete(x)]
      && InsertOpAt(c.doc, "a", 0, value, {}) == typed
      && Visible(LocalInsert(c.doc, typed)) == [x] && Visible(Apply(c.doc, typed)) == []
  {
    var x := OpId(1, "a");
    var typed := Insert(x, None, value, {});
    PutTwo([], Insert(x, None, "x", {}), Delete(x));
    assert Put([], Insert(x, None, "x", {})) == [Insert(x, None, "x", {})];
    assert Put([Insert(x, None, "x", {})], Delete(x)) == [Delete(x)];
    ApplyIsStep(EMPTY, Delete(x));
    var d := Apply(EMPTY, Delete(x));
    assert [Delete(x)][1..] == [] && FromSnapshot([]) == EMPTY;
    assert ApplyAll(EMPTY, [Delete(x)]) == ApplyAll(d, []) == d;
    assert [] + [Delete(x)] == [Delete(x)];
    assert d.pending == map[x := [Delete(x)]] && d.order == [] && d.counter == 0;
    PlaceAt([], x, None, 0);
    var (e, released) := Step(d, typed);
    assert e.order == [x] && released == [Delete(x)] && LocalInsert(d, typed).order == [x];
    assert [typed][1..] + released == [Delete(x)];
    assert Apply(d, typed) == Drain(e, [Delete(x)]);
    ApplyIsStep(e, Delete(x));
    var f := Step(e, Delete(x)).0;
    assert Drain(e, [Delete(x)]) == f;
    assert [x][1..] == [];
    assert VisibleOf([], f.cells) == [] && VisibleOf([], LocalInsert(d, typed).cells) == [];
    assert VisibleOf([x], f.cells) == [];
    assert VisibleOf([x], LocalInsert(d, typed).cells) == [x] + [];
  }
}
