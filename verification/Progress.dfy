/** From everywhere a client can come back and hand over its ops. */
module Progress {
  import opened Ids
  import opened Ops
  import opened Batches
  import opened Rooms
  import opened Databases
  import ServerProcess
  import opened Histories
  import opened Wire
  import opened Clients
  import opened Session
  import opened Reconnect

  // What the outbox is for (apps/web/src/lib/documentClient.ts, `flushOutbox`).

  lemma {:induction false} ReachesOne(n: Net, a: Action)
    requires Enabled(n, a)
    ensures Reaches(n, [a], Next(n, a))
  {
    assert [a][1..] == [];
  }

  lemma {:induction false} TwoSteps(n: Net, a: Action, m: Net, b: Action, k: Net)
    requires Enabled(n, a) && m == Next(n, a) && Enabled(m, b) && k == Next(m, b)
    ensures Reaches(n, [a, b], k)
  {
    assert [a, b][1..] == [b] && [b][1..] == [];
    assert Reaches(k, [], k);
    assert Reaches(m, [b], k);
  }

  lemma {:induction false} ConcatTail(first: seq<Action>, rest: seq<Action>)
    requires first != []
    ensures (first + rest)[0] == first[0] && (first + rest)[1..] == first[1..] + rest
  {
  }

  lemma {:induction false} ReachesTogether(n: Net, first: seq<Action>, m: Net, rest: seq<Action>, k: Net)
    requires Reaches(n, first, m) && Reaches(m, rest, k)
    ensures Reaches(n, first + rest, k)
    decreases |first|
  {
    if first == [] {
      assert first + rest == rest;
    } else {
      ReachesTogether(Next(n, first[0]), first[1..], m, rest, k);
      ConcatTail(first, rest);
    }
  }

  /** A client that has read the reply to its join sent its whole outbox, if there was anything in it. */
  lemma {:induction false} ReplyMakesItSend(n: Net, r: string)
    requires r in n.peers && n.peers[r].inbox != [] && n.peers[r].c.outbox != []
    requires n.peers[r].inbox[0].SyncMessage? || n.peers[r].inbox[0].SnapshotMessage?
    ensures (r, n.peers[r].c.outbox) in Next(n, Action.Receive(r)).sent
    ensures Next(n, Action.Receive(r)).peers[r].c.outbox == n.peers[r].c.outbox
  {
    assert OpMessage(n.peers[r].c.outbox) in Flushed(n.peers[r].c.outbox, n.peers[r].inbox[0]);
  }

  /** A client can drop its connection and open another one at any time. */
  lemma {:induction false} Reopens(n: Net, r: string) returns (m: Net)
    requires r in n.peers
    ensures Reaches(n, [Disconnect(r), Connect(r)], m)
    ensures m == n.(peers := n.peers[r := Cut(n.peers[r]).(conn := Opening)])
  {
    var gone := Next(n, Disconnect(r));
    m := Next(gone, Connect(r));
    TwoSteps(n, Disconnect(r), gone, Connect(r), m);
  }

  /** And join and read the reply. */
  lemma {:induction false} ReadsReply(n: Net, r: string) returns (m: Net)
    requires r in n.peers && n.peers[r].conn.Opening?
    ensures Reaches(n, [Join(r), Action.Receive(r)], m)
    ensures m == n.(peers := n.peers[r := Received(Answered(n.peers[r], n.server))], sent := m.sent)
    ensures var outbox := n.peers[r].c.outbox;
      m.peers[r].c.outbox == outbox && (outbox != [] ==> (r, outbox) in m.sent)
  {
    var joined := Next(n, Join(r));
    var reply := joined.peers[r].inbox[0];
    assert reply.SyncMessage? || reply.SnapshotMessage?;
    m := Next(joined, Action.Receive(r));
    if n.peers[r].c.outbox != [] { ReplyMakesItSend(joined, r); }
    TwoSteps(n, Join(r), joined, Action.Receive(r), m);
  }

  function Reconnecting(r: string): seq<Action> {
    [Disconnect(r), Connect(r)] + [Join(r), Action.Receive(r)]
  }

  /** Whatever happened, a client can come back and read the reply, and then sends what it has. */
  lemma {:induction false} ComesBack(n: Net, r: string) returns (m: Net)
    requires r in n.peers
    ensures Reaches(n, Reconnecting(r), m) && m == n.(peers := m.peers, sent := m.sent)
    ensures r in m.peers && m.peers == n.peers[r := m.peers[r]]
    ensures var p, q := n.peers[r], m.peers[r];
      && q.conn.Joined? && q.inbox == [] && q.created == p.created && q.c.outbox == p.c.outbox
      && (p.c.outbox != [] ==> (r, p.c.outbox) in m.sent)
  {
    var opening := Reopens(n, r);
    m := ReadsReply(opening, r);
    ReachesTogether(n, [Disconnect(r), Connect(r)], opening, [Join(r), Action.Receive(r)], m);
  }

  // Handing over

  /** Acknowledging the whole outbox empties it. */
  lemma {:induction false} AllAcknowledged(outbox: seq<Op>)
    requires OnePerKey(outbox)
    ensures RemoveAll(outbox, IdsOf(outbox)) == []
  {
    RemoveAllIs(outbox, IdsOf(outbox));
    forall op | op in outbox ensures op !in OpSet(RemoveAll(outbox, IdsOf(outbox))) {
      var i :| 0 <= i < |outbox| && outbox[i] == op;
      assert IdsOf(outbox)[i] == OpIdOf(op);
    }
    SomeOp(RemoveAll(outbox, IdsOf(outbox)));
  }

  lemma {:induction false} SomeOp(ops: seq<Op>)
    ensures ops != [] ==> exists op :: op in OpSet(ops)
  {
    if ops != [] { assert ops[0] in OpSet(ops); }
  }

  /** The server can number what a client sent. */
  lemma {:induction false} IsNumbered(n: Net, r: string, ops: seq<Op>) returns (m: Net)
    requires Inv(n) && r in n.peers && (r, ops) in n.sent
    ensures Enabled(n, Apply(r, ops)) && m == Next(n, Apply(r, ops)) && Inv(m)
    ensures m.fed == n.fed + [NextBatch(n, ops)] && m.senders == n.senders + [r]
    ensures m.peers == AllTold(n.peers, r, NextBatch(n, ops)) && NextBatch(n, ops) in m.server.flying
  {
    AcceptTraced(n.server, n.fed, NextBatch(n, ops));
    NextInv(n, Apply(r, ops));
    m := Next(n, Apply(r, ops));
  }

  /** And store it. */
  lemma {:induction false} IsPersisted(n: Net, b: Batch) returns (m: Net)
    requires Inv(n) && b in n.server.flying
    ensures Enabled(n, Serve(ServerProcess.Persist(b))) && m == Next(n, Serve(ServerProcess.Persist(b))) && Inv(m)
    ensures m == n.(server := m.server) && OpSet(b.ops) <= m.server.durable && b in m.server.saved
  {
    NextInv(n, Serve(ServerProcess.Persist(b)));
    m := Next(n, Serve(ServerProcess.Persist(b)));
  }

  lemma {:induction false} IsStored(n: Net, r: string, ops: seq<Op>) returns (m: Net)
    requires Inv(n) && r in n.peers && (r, ops) in n.sent
    ensures Reaches(n, [Apply(r, ops), Serve(ServerProcess.Persist(NextBatch(n, ops)))], m) && Inv(m)
    ensures m.fed == n.fed + [NextBatch(n, ops)] && m.senders == n.senders + [r]
    ensures m.peers == AllTold(n.peers, r, NextBatch(n, ops))
    ensures OpSet(ops) <= m.server.durable && NextBatch(n, ops) in m.server.saved
  {
    var store := Serve(ServerProcess.Persist(NextBatch(n, ops)));
    var numbered := IsNumbered(n, r, ops);
    m := IsPersisted(numbered, NextBatch(n, ops));
    TwoSteps(n, Apply(r, ops), numbered, store, m);
  }

  /** And acknowledge it; the client then drops what it is acknowledged and adopts the number. */
  lemma {:induction false} HearsAck(n: Net, r: string, i: nat) returns (m: Net)
    requires Inv(n) && r in n.peers && n.peers[r].inbox == [] && Enabled(n, Acknowledge(r, i))
    ensures Reaches(n, [Acknowledge(r, i), Action.Receive(r)], m) && m == n.(peers := m.peers, sent := m.sent)
    ensures r in m.peers && m.peers == n.peers[r := m.peers[r]]
    ensures var p, q := n.peers[r], m.peers[r];
      && q.conn.Joined? && q.inbox == [] && q.created == p.created
      && q.c.outbox == RemoveAll(p.c.outbox, IdsOf(n.fed[i].ops))
      && q.c.lastAcked == q.c.record.lastAckedSeq == i + 1
  {
    var told := Next(n, Acknowledge(r, i));
    m := Next(told, Action.Receive(r));
    TwoSteps(n, Acknowledge(r, i), told, Action.Receive(r), m);
  }

  function HandingOver(n: Net, r: string): seq<Action>
    requires r in n.peers
  {
    var ops := n.peers[r].c.outbox;
    [Apply(r, ops), Serve(ServerProcess.Persist(NextBatch(n, ops)))] + [Acknowledge(r, |n.fed|), Action.Receive(r)]
  }

  lemma {:induction false} OthersAreTold(peers: map<string, Peer>, r: string, b: Batch, p: Peer)
    requires r in peers
    ensures var after := AllTold(peers, r, b)[r := p];
      after.Keys == peers.Keys && forall q :: q in peers && q != r ==> after[q] == Told(peers[q], false, b)
  {
  }

  lemma {:induction false} HandsOver(n: Net, r: string) returns (m: Net)
    requires Inv(n) && r in n.peers && n.peers[r].conn.Joined? && n.peers[r].inbox == []
    requires (r, n.peers[r].c.outbox) in n.sent
    ensures Reaches(n, HandingOver(n, r), m)
    ensures m.peers.Keys == n.peers.Keys
    ensures forall q :: q in n.peers && q != r ==>
      m.peers[q] == Told(n.peers[q], false, NextBatch(n, n.peers[r].c.outbox))
    ensures m.fed == n.fed + [NextBatch(n, n.peers[r].c.outbox)]
    ensures OpSet(n.peers[r].c.outbox) <= m.server.durable
    ensures var p, q := n.peers[r], m.peers[r];
      && q.conn.Joined? && q.inbox == [] && q.created == p.created && q.c.outbox == []
      && q.c.lastAcked == q.c.record.lastAckedSeq == |m.fed|
  {
    var ops := n.peers[r].c.outbox;
    assert PeerInv(PastOf(n), r, n.peers[r]);
    var stored := IsStored(n, r, ops);
    m := HearsAck(stored, r, |n.fed|);
    OthersAreTold(n.peers, r, NextBatch(n, ops), m.peers[r]);
    AllAcknowledged(ops);
    ReachesTogether(n, [Apply(r, ops), Serve(ServerProcess.Persist(NextBatch(n, ops)))], stored,
                    [Acknowledge(r, |n.fed|), Action.Receive(r)], m);
  }

  /** Connected, with everything read and nothing unacknowledged. */
  predicate Quiet(p: Peer) {
    p.conn.Joined? && p.inbox == [] && p.c.outbox == []
  }

  function Draining(n: Net, r: string): seq<Action>
    requires r in n.peers
  {
    Reconnecting(r) + (if n.peers[r].c.outbox == [] then [] else HandingOver(n, r))
  }

  lemma {:induction false} BackInv(n: Net, r: string, back: Net)
    requires Inv(n) && r in n.peers && Reaches(n, Reconnecting(r), back)
    ensures Inv(back)
  {
    RunInv(n, Reconnecting(r), back);
  }

  lemma {:induction false} DrainedInv(n: Net, r: string, back: Net, m: Net)
    requires Inv(n) && r in n.peers && Reaches(n, Reconnecting(r), back) && Reaches(back, HandingOver(n, r), m)
    ensures Reaches(n, Reconnecting(r) + HandingOver(n, r), m) && Inv(m)
  {
    ReachesTogether(n, Reconnecting(r), back, HandingOver(n, r), m);
    RunInv(n, Reconnecting(r) + HandingOver(n, r), m);
  }

  lemma {:induction false} SameHandingOver(n: Net, r: string, back: Net)
    requires r in n.peers && r in back.peers && back.fed == n.fed && back.peers[r].c.outbox == n.peers[r].c.outbox
    ensures HandingOver(back, r) == HandingOver(n, r)
  {
  }

  /** One client comes back and hands over; the others are only told. */
  lemma {:induction false} Drains(n: Net, r: string) returns (m: Net)
    requires Inv(n) && r in n.peers
    ensures Reaches(n, Draining(n, r), m) && Inv(m) && m.peers.Keys == n.peers.Keys
    ensures Quiet(m.peers[r]) && m.peers[r].created == n.peers[r].created
    ensures OpSet(n.peers[r].c.outbox) <= m.server.durable
    ensures n.peers[r].c.outbox != [] ==>
      m.peers[r].c.lastAcked == m.peers[r].c.record.lastAckedSeq == |m.fed| == |n.fed| + 1
    ensures forall q :: q in n.peers && q != r ==>
      m.peers[q] == n.peers[q] || m.peers[q] == Told(n.peers[q], false, NextBatch(n, n.peers[r].c.outbox))
  {
    var back := ComesBack(n, r);
    BackInv(n, r, back);
    if n.peers[r].c.outbox == [] {
      m := back;
      assert Reconnecting(r) + [] == Reconnecting(r);
    } else {
      SameHandingOver(n, r, back);
      m := HandsOver(back, r);
      DrainedInv(n, r, back, m);
    }
  }

  /**
   What offline editing promises: from wherever a run has come, any client can connect and hand over all that is in its
   outbox. Every op of it is durable then, and a fresh server shows it unless it was buffered when a snapshot was taken
   or shares its key; the client has nothing left to send, and adopted the number of its batch.
   */
  lemma {:induction false} EveryOutboxDrains(names: set<string>, kind: Kind, before: seq<Action>, n: Net, r: string)
    returns (m: Net)
    requires Reaches(Start(names, kind), before, n) && r in n.peers
    ensures Reaches(n, Draining(n, r), m) && r in m.peers && Quiet(m.peers[r])
    ensures OpSet(n.peers[r].c.outbox) <= m.server.durable
    ensures OpSet(n.peers[r].c.outbox)
      <= ServerProcess.Recoverable(m.server) + m.server.dropped + Contested(m.server.durable)
    ensures n.peers[r].c.outbox != [] ==>
      m.peers[r].c.lastAcked == m.peers[r].c.record.lastAckedSeq == |m.fed| == |n.fed| + 1
    ensures OpsIn(m.fed) <= m.peers[r].got + m.peers[r].missed + Contested(m.peers[r].created)
  {
    StartInv(names, kind);
    RunInv(Start(names, kind), before, n);
    m := Drains(n, r);
    ReachesTogether(Start(names, kind), before, n, Draining(n, r), m);
    ReconnectSafety(names, kind, before + Draining(n, r), m, r);
  }

  // All clients

  /** Connected, with nothing unacknowledged and the reply read. */
  predicate Tidy(p: Peer) {
    p.conn.Joined? && p.c.outbox == [] && forall i :: 0 <= i < |p.inbox| ==> !IsReply(p.inbox[i])
  }

  ghost predicate SameOps(n: Net, m: Net) {
    m.peers.Keys == n.peers.Keys && forall r :: r in n.peers ==> m.peers[r].created == n.peers[r].created
  }

  ghost predicate TidyBut(n: Net, todo: set<string>) {
    forall r :: r in n.peers && r !in todo ==> Tidy(n.peers[r])
  }

  lemma {:induction false} DrainsOne(n: Net, r: string, todo: set<string>) returns (m: Net)
    requires Inv(n) && r in n.peers && TidyBut(n, todo)
    ensures Reaches(n, Draining(n, r), m) && Inv(m) && SameOps(n, m) && TidyBut(m, todo - {r})
  {
    m := Drains(n, r);
    TidyAfterDrain(n.peers, r, NextBatch(n, n.peers[r].c.outbox), m.peers, todo);
  }

  lemma {:induction false} TidyAfterDrain(peers: map<string, Peer>, r: string, b: Batch, after: map<string, Peer>,
                                          todo: set<string>)
    requires r in peers && after.Keys == peers.Keys && Quiet(after[r]) && after[r].created == peers[r].created
    requires forall q :: q in peers && q != r ==> after[q] == peers[q] || after[q] == Told(peers[q], false, b)
    requires forall q :: q in peers && q !in todo ==> Tidy(peers[q])
    ensures forall q :: q in peers ==> after[q].created == peers[q].created
    ensures forall q :: q in after && q !in todo - {r} ==> Tidy(after[q])
  {
  }

  lemma {:induction false} DrainAll(n: Net, todo: set<string>) returns (actions: seq<Action>, m: Net)
    requires Inv(n) && todo <= n.peers.Keys && TidyBut(n, todo)
    ensures Reaches(n, actions, m) && Inv(m) && SameOps(n, m) && TidyBut(m, {})
    decreases todo
  {
    if todo == {} {
      actions, m := [], n;
    } else {
      var r :| r in todo;
      var next := DrainsOne(n, r, todo);
      var rest;
      rest, m := DrainAll(next, todo - {r});
      ReachesTogether(n, Draining(n, r), next, rest, m);
      actions := Draining(n, r) + rest;
    }
  }

  /** Reading a message that is no reply makes a client without unacknowledged ops send nothing. */
  lemma {:induction false} ReadsOne(n: Net, r: string) returns (m: Net)
    requires Inv(n) && r in n.peers && Tidy(n.peers[r]) && n.peers[r].inbox != []
    ensures Reaches(n, [Action.Receive(r)], m) && Inv(m)
    ensures r in m.peers && m.peers == n.peers[r := m.peers[r]] && Tidy(m.peers[r])
    ensures m.peers[r].created == n.peers[r].created && m.peers[r].inbox == n.peers[r].inbox[1..]
  {
    m := Next(n, Action.Receive(r));
    NextInv(n, Action.Receive(r));
    ReachesOne(n, Action.Receive(r));
    TidyReads(n.peers[r]);
  }

  lemma {:induction false} TidyReads(p: Peer)
    requires Tidy(p) && p.inbox != []
    ensures Tidy(Received(p)) && Received(p).created == p.created && Received(p).inbox == p.inbox[1..]
  {
    assert !IsReply(p.inbox[0]);
    if p.inbox[0].AckMessage? { NothingRemoved(p.inbox[0].opIds); }
  }

  lemma {:induction false} NothingRemoved(ids: seq<OpId>)
    ensures RemoveAll([], ids) == []
    decreases |ids|
  {
    if ids != [] { NothingRemoved(ids[1..]); }
  }

  lemma {:induction false} AtRest(n: Net, r: string)
    requires r in n.peers && Tidy(n.peers[r]) && n.peers[r].inbox == []
    ensures Reaches(n, [], n) && n.peers == n.peers[r := n.peers[r]] && Quiet(n.peers[r])
  {
  }

  lemma {:induction false} ChangedTwice(a: map<string, Peer>, r: string, b: map<string, Peer>, c: map<string, Peer>)
    requires r in a && r in b && r in c && b == a[r := b[r]] && c == b[r := c[r]]
    ensures c == a[r := c[r]]
  {
  }

  lemma {:induction false} ReadsOn(n: Net, r: string) returns (actions: seq<Action>, m: Net)
    requires Inv(n) && r in n.peers && Tidy(n.peers[r])
    ensures Reaches(n, actions, m) && Inv(m)
    ensures r in m.peers && m.peers == n.peers[r := m.peers[r]]
    ensures Quiet(m.peers[r]) && m.peers[r].created == n.peers[r].created
    decreases |n.peers[r].inbox|
  {
    if n.peers[r].inbox == [] {
      AtRest(n, r);
      actions, m := [], n;
    } else {
      var next := ReadsOne(n, r);
      var rest;
      rest, m := ReadsOn(next, r);
      ReachesTogether(n, [Action.Receive(r)], next, rest, m);
      ChangedTwice(n.peers, r, next.peers, m.peers);
      actions := [Action.Receive(r)] + rest;
    }
  }

  lemma {:induction false} QuietAfterRead(peers: map<string, Peer>, r: string, after: map<string, Peer>,
                                          todo: set<string>)
    requires r in todo && todo <= peers.Keys && r in after && after == peers[r := after[r]]
    requires Quiet(after[r]) && after[r].created == peers[r].created
    requires forall q :: q in peers ==> Tidy(peers[q])
    requires forall q :: q in peers && q !in todo ==> Quiet(peers[q])
    ensures after.Keys == peers.Keys && forall q :: q in peers ==> after[q].created == peers[q].created
    ensures forall q :: q in after ==> Tidy(after[q])
    ensures forall q :: q in after && q !in todo - {r} ==> Quiet(after[q])
  {
  }

  lemma {:induction false} ReadAll(n: Net, todo: set<string>) returns (actions: seq<Action>, m: Net)
    requires Inv(n) && todo <= n.peers.Keys && TidyBut(n, {})
    requires forall r :: r in n.peers && r !in todo ==> Quiet(n.peers[r])
    ensures Reaches(n, actions, m) && SameOps(n, m) && forall r :: r in m.peers ==> Quiet(m.peers[r])
    decreases todo
  {
    if todo == {} {
      actions, m := [], n;
    } else {
      var r :| r in todo;
      var first, next := ReadsOn(n, r);
      QuietAfterRead(n.peers, r, next.peers, todo);
      var rest;
      rest, m := ReadAll(next, todo - {r});
      ReachesTogether(n, first, next, rest, m);
      actions := first + rest;
    }
  }

  /**
   And from wherever a run has come, everyone can be brought to rest without another edit: connected, everything read,
   nothing unacknowledged. All that was ever created is then durable or shares its key, and every client was given
   everything that the server has but for what a record or snapshot lacked.
   */
  lemma {:induction false} EveryoneCanRest(names: set<string>, kind: Kind, before: seq<Action>, n: Net)
    returns (actions: seq<Action>, m: Net)
    requires Reaches(Start(names, kind), before, n)
    ensures Reaches(n, actions, m) && SameOps(n, m)
    ensures forall r :: r in m.peers ==>
      var p := m.peers[r];
      && Quiet(p) && p.created <= m.server.durable + Contested(p.created)
      && OpsIn(m.fed) <= p.got + p.missed + Contested(p.created)
  {
    StartInv(names, kind);
    RunInv(Start(names, kind), before, n);
    var first, tidy := DrainAll(n, n.peers.Keys);
    var rest;
    rest, m := ReadAll(tidy, tidy.peers.Keys);
    ReachesTogether(n, first, tidy, rest, m);
    actions := first + rest;
    ReachesTogether(Start(names, kind), before, n, actions, m);
    forall r | r in m.peers
      ensures m.peers[r].created <= m.server.durable + Contested(m.peers[r].created)
      ensures OpsIn(m.fed) <= m.peers[r].got + m.peers[r].missed + Contested(m.peers[r].created)
    {
      assert Quiet(m.peers[r]);
      ReconnectSafety(names, kind, before + actions, m, r);
    }
  }
}
