/**
 The methods of the client object as steps of the reconnect protocol (apps/web/src/lib/documentClient.ts). A client
 object is the client of its name in the net, and what it wrote to its socket was sent there.
 */
module ClientSimulation {
  import opened Ops
  import opened Document
  import opened Edits
  import opened Wire
  import opened Editor
  import opened Clients
  import opened WebClient
  import opened Session
  import opened Reconnect
  import opened Progress

  /** Every op message in the list was sent in the net. */
  ghost predicate AllSent(messages: seq<ClientMessage>, r: string, sent: set<(string, seq<Op>)>) {
    forall i :: 0 <= i < |messages| && messages[i].OpMessage? ==> (r, messages[i].ops) in sent
  }

  ghost predicate Embodies(n: Net, client: DocumentClient)
    reads client, client.rga, client.rga.Repr()
  {
    && client.Valid() && client.replicaId in n.peers && client.State() == n.peers[client.replicaId].c
    && (client.open <==> !n.peers[client.replicaId].conn.Offline?)
    && AllSent(client.sent, client.replicaId, n.sent)
  }

  lemma {:induction false} SentTogether(written: seq<ClientMessage>, more: seq<ClientMessage>, r: string,
                                        sent: set<(string, seq<Op>)>)
    requires AllSent(written, r, sent)
    ensures AllSent(written + more, r, sent + Messages(more, r))
  {
    forall i | 0 <= i < |written + more| && (written + more)[i].OpMessage?
      ensures (r, (written + more)[i].ops) in sent + Messages(more, r)
    {
      if i >= |written| { assert (written + more)[i] == more[i - |written|] && more[i - |written|] in more; }
    }
  }

  /** Edits that throw nothing. */
  method EditText(client: DocumentClient, edits: seq<Edit>, ghost n: Net) returns (ghost m: Net)
    requires Embodies(n, client) && !ApplyEdits(client.rga.doc, client.replicaId, edits).thrown
    modifies client.Repr()
    ensures Reaches(n, [Session.Edit(client.replicaId, edits)], m) && Embodies(m, client)
  {
    ghost var r, before, written := client.replicaId, client.State(), client.sent;
    var thrown := client.ApplyLocalEdits(edits);
    ReachesOne(n, Session.Edit(r, edits));
    m := Next(n, Session.Edit(r, edits));
    SentTogether(written, EditMessages(before, r, edits), r, n.sent);
  }

  /** The first message that the client has not read. */
  method ReadMessage(client: DocumentClient, message: ServerMessage, ghost n: Net) returns (ghost m: Net)
    requires Embodies(n, client) && n.peers[client.replicaId].conn.Joined?
    requires n.peers[client.replicaId].inbox != [] && n.peers[client.replicaId].inbox[0] == message
    requires message.SnapshotMessage? ==> Sound(FromSnapshot(message.state))
    modifies client.Repr()
    ensures Reaches(n, [Action.Receive(client.replicaId)], m) && Embodies(m, client)
  {
    ghost var r, before, written := client.replicaId, client.State(), client.sent;
    client.HandleServerMessage(message);
    ReachesOne(n, Action.Receive(r));
    m := Next(n, Action.Receive(r));
    SentTogether(written, Flushed(before.outbox, message), r, n.sent);
  }

  method Open(client: DocumentClient, ghost n: Net) returns (ghost m: Net)
    requires Embodies(n, client) && !client.open
    modifies client
    ensures Reaches(n, [Connect(client.replicaId)], m) && Embodies(m, client)
  {
    ghost var written := client.sent;
    client.OnOpen();
    ReachesOne(n, Connect(client.replicaId));
    m := Next(n, Connect(client.replicaId));
  }

  method Close(client: DocumentClient, ghost n: Net) returns (ghost m: Net)
    requires Embodies(n, client)
    modifies client
    ensures Reaches(n, [Disconnect(client.replicaId)], m) && Embodies(m, client)
  {
    client.OnClose();
    ReachesOne(n, Disconnect(client.replicaId));
    m := Next(n, Disconnect(client.replicaId));
  }

  /** The page is loaded again: a new object from the stored record and the stored outbox. */
  method LoadAgain(page: DocumentClient, listed: seq<Op>, ghost n: Net) returns (client: DocumentClient, ghost m: Net)
    requires Embodies(n, page) && Lists(listed, page.outbox) && Sound(FromSnapshot(page.record.snapshotState))
    ensures fresh(client) && client.replicaId == page.replicaId
    ensures Reaches(n, [Reload(client.replicaId, listed)], m) && Embodies(m, client)
  {
    client := new DocumentClient(page.replicaId, page.record, listed);
    ReachesOne(n, Reload(client.replicaId, listed));
    m := Next(n, Reload(client.replicaId, listed));
  }
}
