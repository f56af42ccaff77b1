/**
 Every step of the reconnect protocol, of the clients, of the server and of its store, keeps all documents exactly
 what the ops that they were given amount to, provided that edits are coherent with what was issued, and that a client
 that restarts is given its own ops or covers their ids. A client restarts when it is loaded again and when a snapshot
 replaces its document (apps/web/src/lib/documentClient.ts, apps/server/src/roomManager.ts).
 */
module SettledSteps {
  import opened Ops
  import opened Document
  import opened Delivery
  import opened Edits
  import opened Snapshots
  import Runs
  import opened FreshIds
  import opened Batches
  import opened Rooms
  import ServerProcess
  import opened Histories
  import opened Editor
  import opened Clients
  import opened Session

  /** Edits are coherent with what was issued, and a client that restarts has its own ops or covers their ids. */
  ghost predicate Steady(n: Net, a: Session.Action)
    requires Session.Enabled(n, a)
  {
    match a
    case Edit(r, edits) => Coherent(Issued(n.peers) + OpSet(ApplyEdits(n.peers[r].c.doc, r, edits).ops))
    case Receive(r) => n.peers[r].inbox[0].SnapshotMessage? ==> Restarts(Received(n.peers[r]), r)
    case Reload(r, listed) => Restarts(Restarted(n.peers[r], listed), r)
    case _ => true
  }

  ghost predicate Restarts(q: Peer, r: string) {
    OwnIdsKnown(q.c.doc, r, q.got, q.created)
  }

  /** Ids carry the name of the client that created them. */
  ghost predicate Named(peers: map<string, Peer>) {
    forall r, op :: r in peers && op in peers[r].created && !op.Delete? ==> op.id.replicaId == r
  }

  ghost predicate Restorable(nodes: seq<SnapshotNode>, shown: set<Op>) {
    Sound(FromSnapshot(nodes)) && Holds(FromSnapshot(nodes), shown)
  }

  ghost predicate PeerSettled(p: Peer, r: string, issued: set<Op>) {
    && Settled(p.c.doc, r, p.got, issued)
    && Restorable(p.c.record.snapshotState, p.kept)
    && (p.inbox != [] && p.inbox[0].SnapshotMessage? ==> Restorable(p.inbox[0].state, p.reply))
  }

  ghost predicate AllSettled(peers: map<string, Peer>, issued: set<Op>) {
    forall r {:trigger PeerSettled(peers[r], r, issued)} :: r in peers ==> PeerSettled(peers[r], r, issued)
  }

  ghost predicate PeersSettled(peers: map<string, Peer>) {
    && Named(peers) && Coherent(Issued(peers)) && Runs.Grounded(Issued(peers)) && AllSettled(peers, Issued(peers))
  }

  ghost predicate NetSettled(n: Net) {
    PeersSettled(n.peers) && ServerProcess.Shows(n.server, Issued(n.peers))
  }

  // Who created what

  lemma {:induction false} OwnInHand(peers: map<string, Peer>, r: string)
    requires Named(peers) && r in peers
    ensures peers[r].created <= Issued(peers)
    ensures forall op :: op in Issued(peers) && !op.Delete? && op.id.replicaId == r ==> op in peers[r].created
  {
    forall op | op in Issued(peers) && !op.Delete? && op.id.replicaId == r ensures op in peers[r].created {
      var s :| s in peers && op in peers[s].created;
    }
  }

  /** Nobody was given anything that nobody created. */
  lemma {:induction false} GivenIsIssued(n: Net, r: string)
    requires Session.Inv(n) && r in n.peers
    ensures var p, issued := n.peers[r], Issued(n.peers);
      && OpsIn(n.fed) <= n.applied <= issued && p.got <= issued && p.kept <= issued && p.created <= issued
      && (p.inbox != [] && p.inbox[0].SnapshotMessage? ==> p.reply <= issued)
  {
    assert PeerInv(PastOf(n), r, n.peers[r]);
  }

  // Snapshots

  lemma {:induction false} RestoredIsSound(d: Doc)
    requires Listed(d) && LiveValues(d)
    ensures (forall x :: x in d.order ==> x in d.cells) && Sound(FromSnapshot(ToSnapshot(d)))
  {
    RestoredListAndIndex(d);
    RestoredCounterExact(d);
  }

  lemma {:induction false} SnapshotRestores(d: Doc, shown: set<Op>)
    requires Holds(d, shown)
    ensures Restorable(SnapshotOf(d), shown - PendingOps(d.pending))
  {
    assert Listed(d) && LiveValues(d) by {
      HoldsListed(d, shown);
      HoldsLiveValues(d, shown);
    }
    RestoredIsSound(d);
    ServerProcess.SnapshotShows(d, shown);
  }

  /** A document restored from a snapshot, with a whole outbox applied on top. */
  lemma {:induction false} RestoredHolds(nodes: seq<SnapshotNode>, shown: set<Op>, outbox: seq<Op>, issued: set<Op>)
    requires Restorable(nodes, shown) && shown + OpSet(outbox) <= issued && Coherent(issued)
    ensures var d := ApplyAll(FromSnapshot(nodes), outbox); Sound(d) && Holds(d, shown + OpSet(outbox))
  {
    CoherentPart(issued, shown + OpSet(outbox));
    HoldsApplyAll(FromSnapshot(nodes), outbox, shown);
    ApplyAllKeepsSound(FromSnapshot(nodes), outbox);
  }

  lemma {:induction false} RecordingSettles(q: Peer, r: string, issued: set<Op>)
    requires Settled(q.c.doc, r, q.got, issued)
    requires q.inbox != [] ==> !q.inbox[0].SnapshotMessage?
    ensures PeerSettled(Recorded(q).(c := Persisted(q.c)), r, issued)
  {
    SnapshotRestores(q.c.doc, q.got);
  }

  // Steps of one client

  lemma {:induction false} NoReplyNext(h: Past, r: string, p: Peer)
    requires ChannelOk(h, r, p) && p.inbox != []
    ensures p.inbox[1..] != [] ==> !p.inbox[1..][0].SnapshotMessage?
  {
  }

  /** What a sync or a broadcast carries was applied by the server. */
  lemma {:induction false} MessageIsApplied(h: Past, r: string, p: Peer)
    requires PeerInv(h, r, p) && p.inbox != [] && OpsIn(h.fed) <= h.applied
    ensures p.inbox[0].SyncMessage? || p.inbox[0].BroadcastMessage? ==> OpSet(p.inbox[0].ops) <= h.applied
  {
    if p.inbox[0].BroadcastMessage? { OpsInAt(h.fed, p.inbox[0].seqNo - 1); }
  }

  lemma {:induction false} SyncSettles(h: Past, r: string, p: Peer, issued: set<Op>)
    requires ChannelOk(h, r, p) && p.inbox != [] && p.inbox[0].SyncMessage?
    requires PeerSettled(p, r, issued) && OpSet(p.inbox[0].ops) <= issued
    ensures PeerSettled(Received(p), r, issued)
  {
    var s, ops := p.inbox[0].seqNo, p.inbox[0].ops;
    NoReplyNext(h, r, p);
    SettledApplies(p.c.doc, r, p.got, issued, ops);
    RecordingSettles(Unrecorded(p, ApplyAll(p.c.doc, ops), p.c.outbox, s, p.got + OpSet(ops), s, p.missed), r, issued);
  }

  lemma {:induction false} BroadcastSettles(h: Past, r: string, p: Peer, issued: set<Op>)
    requires ChannelOk(h, r, p) && p.inbox != [] && p.inbox[0].BroadcastMessage?
    requires PeerSettled(p, r, issued) && OpSet(p.inbox[0].ops) <= issued
    ensures PeerSettled(Received(p), r, issued)
  {
    NoReplyNext(h, r, p);
    SettledApplies(p.c.doc, r, p.got, issued, p.inbox[0].ops);
  }

  lemma {:induction false} AckSettles(h: Past, r: string, p: Peer, issued: set<Op>)
    requires ChannelOk(h, r, p) && p.inbox != [] && p.inbox[0].AckMessage? && PeerSettled(p, r, issued)
    ensures PeerSettled(Received(p), r, issued)
  {
    var s, outbox := p.inbox[0].seqNo, RemoveAll(p.c.outbox, p.inbox[0].opIds);
    NoReplyNext(h, r, p);
    RecordingSettles(Unrecorded(p, p.c.doc, outbox, s, p.got, Max(p.level, s), p.missed), r, issued);
  }

  lemma {:induction false} SnapshotSettles(h: Past, r: string, p: Peer, issued: set<Op>)
    requires ChannelOk(h, r, p) && p.inbox != [] && p.inbox[0].SnapshotMessage?
    requires PeerSettled(p, r, issued) && p.reply + OpSet(p.c.outbox) <= issued
    requires OwnIdsKnown(Received(p).c.doc, r, Received(p).got, issued)
    ensures PeerSettled(Received(p), r, issued)
  {
    var s, nodes := p.inbox[0].seqNo, p.inbox[0].state;
    var doc := ApplyAll(FromSnapshot(nodes), p.c.outbox);
    NoReplyNext(h, r, p);
    RestoredHolds(nodes, p.reply, p.c.outbox, issued);
    RecordingSettles(Unrecorded(p, doc, p.c.outbox, s, p.reply + OpSet(p.c.outbox), s, p.unsent), r, issued);
  }

  lemma {:induction false} ReceivedSettles(h: Past, r: string, p: Peer, issued: set<Op>)
    requires PeerInv(h, r, p) && p.inbox != [] && PeerSettled(p, r, issued) && OpsIn(h.fed) <= h.applied <= issued
    requires p.inbox[0].SnapshotMessage? ==>
      p.reply + OpSet(p.c.outbox) <= issued && OwnIdsKnown(Received(p).c.doc, r, Received(p).got, issued)
    ensures PeerSettled(Received(p), r, issued)
  {
    MessageIsApplied(h, r, p);
    match p.inbox[0]
    case SyncMessage(_, _) => SyncSettles(h, r, p, issued);
    case SnapshotMessage(_, _) => SnapshotSettles(h, r, p, issued);
    case BroadcastMessage(_, _) => BroadcastSettles(h, r, p, issued);
    case AckMessage(_, _) => AckSettles(h, r, p, issued);
    case ErrorMessage(_, _) => NoReplyNext(h, r, p);
  }

  lemma {:induction false} ReloadSettles(p: Peer, r: string, listed: seq<Op>, issued: set<Op>)
    requires PeerSettled(p, r, issued) && Lists(listed, p.c.outbox) && p.kept + OpSet(p.c.outbox) <= issued
    requires OwnIdsKnown(Restarted(p, listed).c.doc, r, Restarted(p, listed).got, issued)
    ensures PeerSettled(Restarted(p, listed), r, issued)
  {
    RestoredHolds(p.c.record.snapshotState, p.kept, listed, issued);
  }

  lemma {:induction false} AnswerSettles(server: ServerProcess.Process, p: Peer, r: string, issued: set<Op>)
    requires PeerSettled(p, r, issued) && ServerProcess.Shows(server, issued)
    ensures PeerSettled(Answered(p, server), r, issued)
  {
    SnapshotRestores(server.room.doc, server.shown);
  }

  lemma {:induction false} EditSettles(p: Peer, r: string, edits: seq<Edit>, issued: set<Op>)
    requires PeerSettled(p, r, issued) && !ApplyEdits(p.c.doc, r, edits).thrown
    requires Coherent(issued + OpSet(ApplyEdits(p.c.doc, r, edits).ops))
    ensures var made := OpSet(ApplyEdits(p.c.doc, r, edits).ops);
      && PeerSettled(Edited(p, r, edits), r, issued + made) && Runs.Grounded(issued + made)
      && forall op :: op in made && !op.Delete? ==> op.id.replicaId == r
  {
    EditsSettle(p.c.doc, r, p.got, issued, edits);
  }

  /** Ops of others neither collide with a client's ids nor disturb its document. */
  lemma {:induction false} OthersStaySettled(p: Peer, q: string, r: string, issued: set<Op>, made: set<Op>)
    requires PeerSettled(p, q, issued) && q != r && Coherent(issued + made) && Runs.Grounded(issued + made)
    requires forall op :: op in made && !op.Delete? ==> op.id.replicaId == r
    ensures PeerSettled(p, q, issued + made)
  {
  }

  // Steps of the net

  ghost predicate AllSettledBut(peers: map<string, Peer>, r: string, issued: set<Op>) {
    forall s {:trigger PeerSettled(peers[s], s, issued)} :: s in peers && s != r ==> PeerSettled(peers[s], s, issued)
  }

  lemma {:induction false} UpdateSettles(peers: map<string, Peer>, r: string, q: Peer, issued: set<Op>)
    requires AllSettledBut(peers, r, issued) && PeerSettled(q, r, issued)
    ensures AllSettled(peers[r := q], issued)
  {
  }

  lemma {:induction false} UpdateStaysNamed(peers: map<string, Peer>, r: string, q: Peer, made: set<Op>)
    requires Named(peers) && r in peers && q.created == peers[r].created + made
    requires forall op :: op in made && !op.Delete? ==> op.id.replicaId == r
    ensures Named(peers[r := q])
  {
  }

  lemma {:induction false} PeersAreSettled(peers: map<string, Peer>, issued: set<Op>)
    requires issued == Issued(peers) && Named(peers)
    requires Coherent(issued) && Runs.Grounded(issued) && AllSettled(peers, issued)
    ensures PeersSettled(peers)
  {
  }

  lemma {:induction false} AllButOne(peers: map<string, Peer>, r: string, issued: set<Op>)
    requires AllSettled(peers, issued)
    ensures AllSettledBut(peers, r, issued)
  {
  }

  /** A step that changes one client, which creates nothing. */
  lemma {:induction false} OneClientSettles(peers: map<string, Peer>, r: string, q: Peer)
    requires PeersSettled(peers) && r in peers
    requires q.created == peers[r].created && PeerSettled(q, r, Issued(peers))
    ensures PeersSettled(peers[r := q]) && Issued(peers[r := q]) == Issued(peers)
  {
    assert q.created == peers[r].created + {};
    IssuedAfter(peers, r, q, {});
    UpdateStaysNamed(peers, r, q, {});
    AllButOne(peers, r, Issued(peers));
    UpdateSettles(peers, r, q, Issued(peers));
    PeersAreSettled(peers[r := q], Issued(peers));
  }

  lemma {:induction false} OthersSettled(peers: map<string, Peer>, r: string, issued: set<Op>, made: set<Op>)
    requires AllSettled(peers, issued) && Coherent(issued + made) && Runs.Grounded(issued + made)
    requires forall op :: op in made && !op.Delete? ==> op.id.replicaId == r
    ensures AllSettledBut(peers, r, issued + made)
  {
    forall s | s in peers && s != r ensures PeerSettled(peers[s], s, issued + made) {
      assert PeerSettled(peers[s], s, issued);
      OthersStaySettled(peers[s], s, r, issued, made);
    }
  }

  lemma {:induction false} EditStepSettles(n: Net, r: string, edits: seq<Edit>)
    requires NetSettled(n) && Session.Enabled(n, Edit(r, edits)) && Steady(n, Edit(r, edits))
    ensures NetSettled(Next(n, Edit(r, edits)))
  {
    var peers, issued, q := n.peers, Issued(n.peers), Edited(n.peers[r], r, edits);
    var made := OpSet(ApplyEdits(peers[r].c.doc, r, edits).ops);
    assert PeerSettled(peers[r], r, issued);
    EditSettles(peers[r], r, edits, issued);
    IssuedAfter(peers, r, q, made);
    UpdateStaysNamed(peers, r, q, made);
    OthersSettled(peers, r, issued, made);
    UpdateSettles(peers, r, q, issued + made);
    PeersAreSettled(peers[r := q], issued + made);
  }

  /** A client of which only the connection changed. */
  lemma {:induction false} ConnectionSettles(p: Peer, q: Peer, r: string, issued: set<Op>)
    requires PeerSettled(p, r, issued) && q == p.(conn := q.conn, inbox := q.inbox)
    requires q.inbox != [] && q.inbox[0].SnapshotMessage? ==> p.inbox != [] && q.inbox[0] == p.inbox[0]
    ensures PeerSettled(q, r, issued)
  {
  }

  /** Clients of which only the connection changed. */
  lemma {:induction false} SameClientsSettle(peers: map<string, Peer>, after: map<string, Peer>)
    requires PeersSettled(peers) && peers.Keys == after.Keys
    requires forall r :: r in peers ==>
      && after[r] == peers[r].(conn := after[r].conn, inbox := after[r].inbox)
      && (after[r].inbox != [] && after[r].inbox[0].SnapshotMessage? ==>
            peers[r].inbox != [] && after[r].inbox[0] == peers[r].inbox[0])
    ensures PeersSettled(after) && Issued(after) == Issued(peers)
  {
    IssuedSame(peers, after);
    forall r | r in after ensures PeerSettled(after[r], r, Issued(peers)) {
      assert PeerSettled(peers[r], r, Issued(peers));
      ConnectionSettles(peers[r], after[r], r, Issued(peers));
    }
  }

  lemma {:induction false} ToldSettles(peers: map<string, Peer>, r: string, b: Batch)
    requires PeersSettled(peers)
    ensures PeersSettled(AllTold(peers, r, b)) && Issued(AllTold(peers, r, b)) == Issued(peers)
  {
    SameClientsSettle(peers, AllTold(peers, r, b));
  }

  lemma {:induction false} ApplyStepSettles(n: Net, r: string, ops: seq<Op>)
    requires Session.Inv(n) && NetSettled(n) && Session.Enabled(n, Apply(r, ops))
    ensures NetSettled(Next(n, Apply(r, ops)))
  {
    assert OpSet(ops) <= Issued(n.peers) by {
      assert (r, ops) in n.sent && OpSet(ops) <= n.peers[r].created;
      GivenIsIssued(n, r);
    }
    ToldSettles(n.peers, r, NextBatch(n, ops));
    ServerProcess.AcceptShows(n.server, NextBatch(n, ops), Issued(n.peers));
  }

  lemma {:induction false} ServeStepSettles(n: Net, a: ServerProcess.Action)
    requires Session.Inv(n) && NetSettled(n) && Session.Enabled(n, Serve(a))
    ensures NetSettled(Next(n, Serve(a)))
  {
    if a.Crash? { SameClientsSettle(n.peers, AllCut(n.peers)); }
    ServerProcess.NextShows(n.server, a, Issued(n.peers));
  }

  predicate Concerns(a: Session.Action) {
    a.Acknowledge? || a.Refuse? || a.Connect? || a.Join? || a.Disconnect? || a.Receive? || a.Reload?
  }

  /** The one client that the step concerns, afterwards. */
  ghost function ClientAfter(n: Net, a: Session.Action): Peer
    requires Session.Enabled(n, a) && Concerns(a)
  {
    Next(n, a).peers[a.replica]
  }

  lemma {:induction false} NextChangesOne(n: Net, a: Session.Action)
    requires Session.Enabled(n, a) && Concerns(a)
    ensures Next(n, a).peers == n.peers[a.replica := ClientAfter(n, a)] && Next(n, a).server == n.server
    ensures ClientAfter(n, a).created == n.peers[a.replica].created
  {
  }

  /** What carries its name a client created. */
  lemma {:induction false} KnownByName(peers: map<string, Peer>, r: string, q: Peer)
    requires Named(peers) && r in peers && q.created == peers[r].created && Restarts(q, r)
    ensures OwnIdsKnown(q.c.doc, r, q.got, Issued(peers))
  {
    OwnInHand(peers, r);
  }

  lemma {:induction false} ReloadStepSettles(n: Net, r: string, listed: seq<Op>)
    requires Session.Inv(n) && NetSettled(n) && Session.Enabled(n, Reload(r, listed)) && Steady(n, Reload(r, listed))
    ensures PeerSettled(ClientAfter(n, Reload(r, listed)), r, Issued(n.peers))
  {
    var p := n.peers[r];
    GivenIsIssued(n, r);
    assert PeerInv(PastOf(n), r, p) && PeerSettled(p, r, Issued(n.peers));
    KnownByName(n.peers, r, Restarted(p, listed));
    ReloadSettles(p, r, listed, Issued(n.peers));
  }

  lemma {:induction false} ReceiveStepSettles(n: Net, r: string)
    requires Session.Inv(n) && NetSettled(n) && Session.Enabled(n, Action.Receive(r)) && Steady(n, Action.Receive(r))
    ensures PeerSettled(ClientAfter(n, Action.Receive(r)), r, Issued(n.peers))
  {
    var p := n.peers[r];
    GivenIsIssued(n, r);
    assert PeerInv(PastOf(n), r, p) && PeerSettled(p, r, Issued(n.peers));
    if p.inbox[0].SnapshotMessage? { KnownByName(n.peers, r, Received(p)); }
    ReceivedSettles(PastOf(n), r, p, Issued(n.peers));
  }

  lemma {:induction false} JoinStepSettles(n: Net, r: string)
    requires NetSettled(n) && Session.Enabled(n, Join(r))
    ensures PeerSettled(ClientAfter(n, Join(r)), r, Issued(n.peers))
  {
    assert PeerSettled(n.peers[r], r, Issued(n.peers));
    AnswerSettles(n.server, n.peers[r], r, Issued(n.peers));
  }

  lemma {:induction false} OnlyConnection(n: Net, a: Session.Action)
    requires Session.Enabled(n, a) && (a.Acknowledge? || a.Refuse? || a.Connect? || a.Disconnect?)
    ensures var p, q := n.peers[a.replica], ClientAfter(n, a);
      && q == p.(conn := q.conn, inbox := q.inbox)
      && (q.inbox != [] && q.inbox[0].SnapshotMessage? ==> p.inbox != [] && q.inbox[0] == p.inbox[0])
  {
  }

  lemma {:induction false} ClientAfterSettles(n: Net, a: Session.Action)
    requires Session.Inv(n) && NetSettled(n) && Session.Enabled(n, a) && Concerns(a) && Steady(n, a)
    ensures PeerSettled(ClientAfter(n, a), a.replica, Issued(n.peers))
  {
    if a.Receive? {
      ReceiveStepSettles(n, a.replica);
    } else if a.Reload? {
      ReloadStepSettles(n, a.replica, a.listed);
    } else if a.Join? {
      JoinStepSettles(n, a.replica);
    } else {
      assert PeerSettled(n.peers[a.replica], a.replica, Issued(n.peers));
      OnlyConnection(n, a);
      ConnectionSettles(n.peers[a.replica], ClientAfter(n, a), a.replica, Issued(n.peers));
    }
  }

  lemma {:induction false} ClientStepSettles(n: Net, a: Session.Action)
    requires Session.Inv(n) && NetSettled(n) && Session.Enabled(n, a) && Concerns(a) && Steady(n, a)
    ensures NetSettled(Next(n, a))
  {
    ClientAfterSettles(n, a);
    NextChangesOne(n, a);
    OneClientSettles(n.peers, a.replica, ClientAfter(n, a));
  }

  lemma {:induction false} NextSettles(n: Net, a: Session.Action)
    requires Session.Inv(n) && NetSettled(n) && Session.Enabled(n, a) && Steady(n, a)
    ensures NetSettled(Next(n, a))
  {
    match a
    case Edit(r, edits) => EditStepSettles(n, r, edits);
    case Apply(r, ops) => ApplyStepSettles(n, r, ops);
    case Serve(step) => ServeStepSettles(n, step);
    case _ => ClientStepSettles(n, a);
  }
}
