/**
 The client object (apps/web/src/lib/documentClient.ts). Its outbox, acknowledged number and connection are updated
 in place, and it owns a replica object; every method is proved to compute the corresponding transition of
 Clients.dfy on the abstract state of the client.
 */
module WebClient {
  import opened Ids
  import opened Ops
  import opened Document
  import opened Edits
  import opened Replica
  import opened ServerRoom
  import opened Wire
  import opened Editor
  import opened Clients

  /** The first i edits turned the document into `doc` and emitted `ops`. */
  ghost predicate EditedTo(before: Doc, replicaId: string, edits: seq<Edit>, i: nat, doc: Doc, ops: seq<Op>)
    requires i <= |edits|
  {
    var rest := Performed(doc, replicaId, edits[i..]);
    Performed(before, replicaId, edits) == Outcome(rest.doc, ops + rest.ops, rest.thrown)
  }

  lemma {:induction false} EditedToStep(before: Doc, replicaId: string, edits: seq<Edit>, i: nat, doc: Doc,
                                        ops: seq<Op>)
    requires i < |edits| && EditedTo(before, replicaId, edits, i, doc, ops)
    ensures var one := Editor.ApplyEdit(doc, replicaId, edits[i]);
      if one.thrown then Performed(before, replicaId, edits) == Outcome(one.doc, ops + one.ops, true)
      else EditedTo(before, replicaId, edits, i + 1, one.doc, ops + one.ops)
  {
    var one := Editor.ApplyEdit(doc, replicaId, edits[i]);
    PerformedHead(doc, replicaId, edits[i..]);
    assert edits[i..][1..] == edits[i + 1..];
    if !one.thrown {
      var rest := Performed(one.doc, replicaId, edits[i + 1..]);
      assert ops + (one.ops + rest.ops) == (ops + one.ops) + rest.ops;
    }
  }

  lemma {:induction false} EditedToEnds(before: Doc, replicaId: string, edits: seq<Edit>)
    ensures EditedTo(before, replicaId, edits, 0, before, [])
    ensures forall doc, ops :: EditedTo(before, replicaId, edits, |edits|, doc, ops) ==>
      Performed(before, replicaId, edits) == Outcome(doc, ops, false)
  {
    assert edits[0..] == edits;
  }

  class DocumentClient {
    const replicaId: string
    var rga: Rga
    /** Unacknowledged ops in the order in which their keys came in; the key of an op is its opIdOf. */
    var outbox: seq<Op>
    var lastAckedSeq: nat
    /** Whether the socket is open, and what was written to it. */
    var open: bool
    var sent: seq<ClientMessage>
    /** The stored record of the document. */
    var record: DocumentRecord
    var lastError: Option<string>

    ghost function Repr(): set<object>
      reads this, rga
    {
      {this} + rga.Repr()
    }

    ghost predicate Valid()
      reads this, rga, rga.Repr()
    {
      this !in rga.Repr() && rga.Valid() && rga.replicaId == replicaId
    }

    ghost function State(): ClientState
      reads this, rga
    {
      ClientState(rga.doc, outbox, lastAckedSeq, record)
    }

    /** init: the replica is rebuilt from the record, and the stored outbox is applied on top. */
    constructor (replicaId: string, record: DocumentRecord, listed: seq<Op>)
      requires Sound(Document.FromSnapshot(record.snapshotState))
      ensures Valid() && fresh(Repr()) && this.replicaId == replicaId && !open && sent == [] && lastError == None
      ensures State() == Reloaded(record, listed)
      ensures lastAckedSeq == record.lastAckedSeq && outbox == listed && this.record == record
    {
      var restored := RestoreReplica(record.snapshotState, replicaId);
      restored.ApplyAll(listed);
      this.replicaId := replicaId;
      rga := restored;
      outbox, lastAckedSeq, this.record := listed, record.lastAckedSeq, record;
      open, sent, lastError := false, [], None;
    }

    method Send(message: ClientMessage)
      modifies this`sent
      ensures sent == if open then old(sent) + [message] else old(sent)
    {
      if open { sent := sent + [message]; }
    }

    /** The socket is open: the client joins with the number up to which it has everything. */
    method OnOpen()
      requires Valid()
      modifies this`open, this`sent
      ensures Valid() && State() == old(State()) && open
      ensures sent == old(sent) + [JoinMessage(replicaId, lastAckedSeq)]
    {
      open := true;
      Send(JoinMessage(replicaId, lastAckedSeq));
    }

    method OnClose()
      requires Valid()
      modifies this`open
      ensures Valid() && State() == old(State()) && !open
    {
      open := false;
    }

    method PersistDocumentState()
      requires Valid()
      modifies this`record
      ensures Valid() && State() == Persisted(old(State()))
    {
      ListElements(rga.doc);
      var snapshot := rga.ToSnapshot();
      record := DocumentRecord(lastAckedSeq, snapshot);
    }

    method FlushOutbox()
      modifies this`sent
      ensures sent == if open && outbox != [] then old(sent) + [OpMessage(outbox)] else old(sent)
    {
      if outbox == [] { return; }
      Send(OpMessage(outbox));
    }

    /** The end of a reply to a join: its number is adopted, the record written, and the outbox resent. */
    method CatchUp(seqNo: nat)
      requires Valid()
      modifies this`lastAckedSeq, this`record, this`sent
      ensures Valid() && State() == Persisted(old(State()).(lastAcked := seqNo))
      ensures sent == old(sent) + (if open && outbox != [] then [OpMessage(outbox)] else [])
    {
      lastAckedSeq := seqNo;
      PersistDocumentState();
      FlushOutbox();
    }

    /** The document from the server's state, with the own unacknowledged ops on top. */
    method Rebuild(state: seq<SnapshotNode>)
      requires Valid() && Sound(Document.FromSnapshot(state))
      modifies this`rga
      ensures Valid() && fresh(rga.Repr())
      ensures rga.doc == Document.ApplyAll(Document.FromSnapshot(state), outbox)
    {
      var restored := RestoreReplica(state, replicaId);
      restored.ApplyAll(outbox);
      rga := restored;
    }

    method OnSnapshot(seqNo: nat, state: seq<SnapshotNode>)
      requires Valid() && Sound(Document.FromSnapshot(state))
      modifies this
      ensures Valid() && fresh(Repr() - old(Repr())) && open == old(open) && lastError == old(lastError)
      ensures State() == OnMessage(old(State()), SnapshotMessage(seqNo, state))
      ensures sent == old(sent) + (if open then Flushed(old(outbox), SnapshotMessage(seqNo, state)) else [])
    {
      Rebuild(state);
      CatchUp(seqNo);
    }

    method OnSync(seqNo: nat, ops: seq<Op>)
      requires Valid()
      modifies Repr()
      ensures Valid() && fresh(Repr() - old(Repr())) && open == old(open) && lastError == old(lastError)
      ensures State() == OnMessage(old(State()), SyncMessage(seqNo, ops))
      ensures sent == old(sent) + (if open then Flushed(old(outbox), SyncMessage(seqNo, ops)) else [])
    {
      rga.ApplyAll(ops);
      CatchUp(seqNo);
    }

    method OnBroadcast(seqNo: nat, ops: seq<Op>)
      requires Valid()
      modifies Repr()
      ensures Valid() && fresh(Repr() - old(Repr()))
      ensures open == old(open) && sent == old(sent) && lastError == old(lastError)
      ensures State() == OnMessage(old(State()), BroadcastMessage(seqNo, ops))
    {
      rga.ApplyAll(ops);
    }

    method OnAck(seqNo: nat, opIds: seq<OpId>)
      requires Valid()
      modifies this
      ensures Valid() && rga == old(rga) && open == old(open) && sent == old(sent) && lastError == old(lastError)
      ensures State() == OnMessage(old(State()), AckMessage(seqNo, opIds))
    {
      for i := 0 to |opIds|
        invariant Valid() && rga == old(rga) && open == old(open) && sent == old(sent)
        invariant lastAckedSeq == old(lastAckedSeq) && lastError == old(lastError)
        invariant RemoveAll(outbox, opIds[i..]) == RemoveAll(old(outbox), opIds)
      {
        assert opIds[i..][1..] == opIds[i + 1..];
        outbox := Clients.Remove(outbox, opIds[i]);
      }
      lastAckedSeq := seqNo;
      PersistDocumentState();
    }

    method HandleServerMessage(m: ServerMessage)
      requires Valid() && (m.SnapshotMessage? ==> Sound(Document.FromSnapshot(m.state)))
      modifies Repr()
      ensures Valid() && fresh(Repr() - old(Repr())) && open == old(open)
      ensures State() == OnMessage(old(State()), m)
      ensures sent == old(sent) + (if open then Flushed(old(outbox), m) else [])
      ensures sent == if open && old(outbox) != [] && (m.SyncMessage? || m.SnapshotMessage?)
        then old(sent) + [OpMessage(old(outbox))] else old(sent)
      ensures lastAckedSeq == if m.BroadcastMessage? || m.ErrorMessage? then old(lastAckedSeq) else m.seqNo
      ensures !m.AckMessage? ==> outbox == old(outbox)
      ensures record == if m.BroadcastMessage? || m.ErrorMessage? then old(record)
        else DocumentRecord(m.seqNo, SnapshotOf(rga.doc))
      ensures lastError == if m.ErrorMessage? then Some(m.text) else old(lastError)
    {
      match m
      case SnapshotMessage(seqNo, state) => OnSnapshot(seqNo, state);
      case SyncMessage(seqNo, ops) => OnSync(seqNo, ops);
      case BroadcastMessage(seqNo, ops) => OnBroadcast(seqNo, ops);
      case AckMessage(seqNo, opIds) => OnAck(seqNo, opIds);
      case ErrorMessage(_, text) => lastError := Some(text);
    }

    /** One edit on the replica; a delete without a character throws. */
    method ApplyEdit(edit: Edit) returns (ops: seq<Op>, thrown: bool)
      requires Valid()
      modifies rga.Repr()
      ensures Valid() && fresh(Repr() - old(Repr()))
      ensures Outcome(rga.doc, ops, thrown) == Editor.ApplyEdit(old(rga.doc), replicaId, edit)
    {
      match edit
      case InsertEdit(index, value, attrs) =>
        var op := rga.LocalInsert(index, value, attrs);
        ops, thrown := [op], false;
      case DeleteEdit(index) =>
        var op := rga.LocalDelete(index);
        ops, thrown := if op.Some? then [op.value] else [], op.None?;
      case FormatEdit(index, length, patch) =>
        ops := rga.LocalFormat(index, if length < 0 then 0 else length, patch);
        thrown := false;
    }

    method ApplyAllEdits(edits: seq<Edit>) returns (ops: seq<Op>, thrown: bool)
      requires Valid()
      modifies rga.Repr()
      ensures Valid() && fresh(Repr() - old(Repr()))
      ensures Outcome(rga.doc, ops, thrown) == Performed(old(rga.doc), replicaId, edits)
    {
      ghost var before := rga.doc;
      EditedToEnds(before, replicaId, edits);
      ops, thrown := [], false;
      for i := 0 to |edits|
        invariant Valid() && fresh(Repr() - old(Repr())) && rga == old(rga) && !thrown
        invariant EditedTo(before, replicaId, edits, i, rga.doc, ops)
      {
        EditedToStep(before, replicaId, edits, i, rga.doc, ops);
        var made;
        made, thrown := ApplyEdit(edits[i]);
        ops := ops + made;
        if thrown { return; }
      }
    }

    method QueueAll(ops: seq<Op>)
      modifies this`outbox
      ensures outbox == PutAll(old(outbox), ops)
    {
      for i := 0 to |ops|
        invariant PutAll(outbox, ops[i..]) == PutAll(old(outbox), ops)
      {
        assert ops[i..][1..] == ops[i + 1..];
        outbox := Put(outbox, ops[i]);
      }
    }

    method Submit(ops: seq<Op>)
      requires Valid()
      modifies this`outbox, this`sent
      ensures Valid() && State() == old(State()).(outbox := PutAll(old(outbox), ops))
      ensures sent == if open then old(sent) + [OpMessage(ops)] else old(sent)
    {
      QueueAll(ops);
      Send(OpMessage(ops));
    }

    /** A batch of edits: all on the replica first, then into the outbox and out in one message. */
    method ApplyLocalEdits(edits: seq<Edit>) returns (thrown: bool)
      requires Valid()
      modifies Repr()
      ensures Valid() && fresh(Repr() - old(Repr())) && open == old(open)
      ensures thrown == Performed(old(rga.doc), replicaId, edits).thrown
      ensures State() == OnEdits(old(State()), replicaId, edits)
      ensures sent == old(sent) + (if open then EditMessages(old(State()), replicaId, edits) else [])
      ensures thrown || edits == [] || !open ==> sent == old(sent)
      ensures !thrown && edits != [] && open ==>
        sent == old(sent) + [OpMessage(Performed(old(rga.doc), replicaId, edits).ops)]
      ensures outbox == if thrown then old(outbox)
        else PutAll(old(outbox), Performed(old(rga.doc), replicaId, edits).ops)
      ensures rga.doc == Performed(old(rga.doc), replicaId, edits).doc && lastAckedSeq == old(lastAckedSeq)
    {
      if edits == [] { return false; }
      var ops;
      ops, thrown := ApplyAllEdits(edits);
      if !thrown { Submit(ops); }
    }
  }
}
