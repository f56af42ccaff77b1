/** Runs in which nothing is lost (apps/web/src/lib/documentClient.ts). */
module Lossless {
  import opened Ops
  import opened Delivery
  import opened Snapshots
  import opened Editor
  import opened FreshIds
  import opened Rooms
  import opened Databases
  import ServerProcess
  import opened Wire
  import opened Session
  import opened Reconnect
  import opened SettledSteps
  import opened Settlement
  import opened Uniqueness

  /** A reply or an acknowledgement makes a client write its record. */
  predicate WritesRecord(m: ServerMessage) {
    !m.BroadcastMessage? && !m.ErrorMessage?
  }

  /** Nothing is buffered when a client writes its record, and when the server takes or sends a snapshot. */
  ghost predicate Calm(n: Net, a: Action)
    requires Enabled(n, a)
  {
    match a
    case Join(r) => OpsSince(n.server.room, n.peers[r].c.lastAcked).None? ==> n.server.room.doc.pending == map[]
    case Receive(r) => WritesRecord(n.peers[r].inbox[0]) ==> Received(n.peers[r]).c.doc.pending == map[]
    case Serve(step) => step.TakeSnapshot? ==> n.server.room.doc.pending == map[]
    case _ => true
  }

  ghost predicate CalmRun(n: Net, actions: seq<Action>)
    decreases |actions|
  {
    actions == [] ||
      (Enabled(n, actions[0]) && Calm(n, actions[0]) && CalmRun(Next(n, actions[0]), actions[1..]))
  }

  /** No client gives two ops one key; deletes of characters that others typed are fine. */
  ghost predicate AllDistinct(peers: map<string, Peer>) {
    forall r :: r in peers ==> DistinctIds(peers[r].created)
  }

  predicate IsCrash(a: Action) {
    a.Serve? && a.step.Crash?
  }

  /** The server does not crash, or no two ops of any clients have one key. */
  ghost predicate Spared(actions: seq<Action>, peers: map<string, Peer>) {
    (forall a :: a in actions ==> !IsCrash(a)) || DistinctIds(Issued(peers))
  }

  /** A client that misses nothing, not even after a reload or the snapshot on its way to it. */
  ghost predicate Whole(p: Peer) {
    p.missed == {} && p.unkept == {} && (p.inbox != [] && p.inbox[0].SnapshotMessage? ==> p.unsent == {})
  }

  ghost predicate AllWhole(n: Net) {
    (forall r :: r in n.peers ==> Whole(n.peers[r])) && ServerProcess.NothingDropped(n.server)
  }

  // Keys are distinct all along

  lemma {:induction false} CreatedGrows(n: Net, a: Action)
    requires Enabled(n, a)
    ensures Next(n, a).peers.Keys == n.peers.Keys
    ensures forall r :: r in n.peers ==> n.peers[r].created <= Next(n, a).peers[r].created
  {
  }

  lemma {:induction false} DistinctBefore(n: Net, actions: seq<Action>, m: Net)
    requires Reaches(n, actions, m) && AllDistinct(m.peers)
    ensures AllDistinct(n.peers)
    decreases |actions|
  {
    if actions != [] {
      CreatedGrows(n, actions[0]);
      DistinctBefore(Next(n, actions[0]), actions[1..], m);
    }
  }

  lemma {:induction false} IssuedBefore(n: Net, actions: seq<Action>, m: Net)
    requires Reaches(n, actions, m)
    ensures Issued(n.peers) <= Issued(m.peers)
    decreases |actions|
  {
    if actions != [] {
      CreatedGrows(n, actions[0]);
      IssuedGrows(n.peers, Next(n, actions[0]).peers);
      IssuedBefore(Next(n, actions[0]), actions[1..], m);
    }
  }

  lemma {:induction false} IssuedGrows(peers: map<string, Peer>, after: map<string, Peer>)
    requires peers.Keys == after.Keys && forall r :: r in peers ==> peers[r].created <= after[r].created
    ensures Issued(peers) <= Issued(after)
  {
    forall op | op in Issued(peers) ensures op in Issued(after) {
      var r :| r in peers && op in peers[r].created;
      assert r in after && op in after[r].created;
    }
  }

  /** An id names its creator, so it is enough that the ops of each client have distinct keys. */
  lemma {:induction false} DistinctIsCoherent(peers: map<string, Peer>)
    requires Named(peers) && AllDistinct(peers)
    ensures Coherent(Issued(peers))
  {
    forall a, b | a in Issued(peers) && b in Issued(peers) && SameName(a, b) ensures a == b {
      OwnInHand(peers, a.id.replicaId);
      var s :| s in peers && a in peers[s].created;
      var t :| t in peers && b in peers[t].created;
      assert s == a.id.replicaId == t;
    }
  }

  // The server remembers what it stored

  /** What was appended or stored in a snapshot is in the room, and stays there but for a crash. */
  lemma {:induction false} ServerRemembers(p: ServerProcess.Process, step: ServerProcess.Action)
    requires ServerProcess.Accounts(p) && ServerProcess.Enabled(p, step) && !step.Crash? && p.durable <= p.shown
    ensures ServerProcess.Next(p, step).durable <= ServerProcess.Next(p, step).shown
  {
  }

  lemma {:induction false} RemembersUntilCrash(n: Net, a: Action)
    requires Inv(n) && Enabled(n, a) && !IsCrash(a) && n.server.durable <= n.server.shown
    ensures Next(n, a).server.durable <= Next(n, a).server.shown
  {
    if a.Serve? { ServerRemembers(n.server, a.step); }
  }

  lemma {:induction false} DistinctIsRemembered(n: Net)
    requires Inv(n) && ServerProcess.NothingDropped(n.server) && DistinctIds(Issued(n.peers))
    ensures n.server.durable <= n.server.shown
  {
    DistinctMeansUncontested(Issued(n.peers));
    ContestedGrows(n.server.durable, Issued(n.peers));
  }

  // Nothing is missed

  lemma {:induction false} ReceivedWhole(h: Past, r: string, p: Peer)
    requires ChannelOk(h, r, p) && p.inbox != [] && Whole(p)
    requires WritesRecord(p.inbox[0]) ==> Received(p).c.doc.pending == map[]
    ensures Whole(Received(p))
  {
    assert PendingOps(map[]) == {};
    NoReplyNext(h, r, p);
  }

  lemma {:induction false} ClientStaysWhole(n: Net, a: Action)
    requires Inv(n) && AllWhole(n) && Enabled(n, a) && Concerns(a) && Calm(n, a)
    requires n.server.durable <= n.server.shown
    ensures Whole(ClientAfter(n, a))
  {
    var p := n.peers[a.replica];
    assert PendingOps(map[]) == {};
    assert PeerInv(PastOf(n), a.replica, p) && Whole(p);
    if a.Receive? { ReceivedWhole(PastOf(n), a.replica, p); }
  }

  lemma {:induction false} NextWhole(n: Net, a: Action)
    requires Inv(n) && AllWhole(n) && Enabled(n, a) && Calm(n, a) && n.server.durable <= n.server.shown
    ensures AllWhole(Next(n, a))
  {
    DropsNothing(n, a);
    if Concerns(a) {
      ClientStaysWhole(n, a);
      NextChangesOne(n, a);
    } else {
      OthersStayWhole(n, a);
    }
  }

  lemma {:induction false} DropsNothing(n: Net, a: Action)
    requires ServerProcess.NothingDropped(n.server) && Enabled(n, a) && Calm(n, a)
    ensures ServerProcess.NothingDropped(Next(n, a).server)
  {
    assert PendingOps(map[]) == {};
  }

  lemma {:induction false} OthersStayWhole(n: Net, a: Session.Action)
    requires AllWhole(n) && Enabled(n, a) && !Concerns(a)
    ensures forall r :: r in n.peers ==> Whole(Next(n, a).peers[r])
  {
    forall r | r in n.peers ensures Whole(Next(n, a).peers[r]) { assert Whole(n.peers[r]); }
  }

  /** A client that misses nothing has all that it created. */
  lemma {:induction false} WholeHasItsOwn(h: Past, r: string, p: Peer)
    requires PeerInv(h, r, p) && Whole(p) && DistinctIds(p.created)
    ensures p.created <= p.got
  {
    DistinctMeansUncontested(p.created);
  }

  // Calm runs are steady

  lemma {:induction false} SnapshotIsSteady(n: Net, r: string)
    requires Inv(n) && AllWhole(n) && AllDistinct(n.peers)
    requires Enabled(n, Action.Receive(r)) && Calm(n, Action.Receive(r)) && n.peers[r].inbox[0].SnapshotMessage?
    ensures Steady(n, Action.Receive(r))
  {
    var p := n.peers[r];
    assert PeerInv(PastOf(n), r, p) && Whole(p);
    SnapshotInv(PastOf(n), r, p);
    ReceivedWhole(PastOf(n), r, p);
    WholeHasItsOwn(PastOf(n), r, Received(p));
  }

  lemma {:induction false} ReloadIsSteady(n: Net, r: string, listed: seq<Op>)
    requires Inv(n) && AllWhole(n) && AllDistinct(n.peers) && Enabled(n, Reload(r, listed))
    ensures Steady(n, Reload(r, listed))
  {
    var p, q := n.peers[r], Restarted(n.peers[r], listed);
    assert PeerInv(PastOf(n), r, p) && Whole(p);
    RestartedInv(PastOf(n), r, p, listed);
    WholeHasItsOwn(PastOf(n), r, q);
  }

  lemma {:induction false} EditIsSteady(n: Net, r: string, edits: seq<Edit>)
    requires NetSettled(n) && Enabled(n, Session.Edit(r, edits)) && AllDistinct(Next(n, Session.Edit(r, edits)).peers)
    ensures Steady(n, Session.Edit(r, edits))
  {
    var p, q, made := n.peers[r], Edited(n.peers[r], r, edits), OpSet(ApplyEdits(n.peers[r].c.doc, r, edits).ops);
    EditsMint(p.c.doc, r, edits);
    UpdateStaysNamed(n.peers, r, q, made);
    DistinctIsCoherent(n.peers[r := q]);
    IssuedAfter(n.peers, r, q, made);
  }

  lemma {:induction false} CalmIsSteady(n: Net, a: Action)
    requires Inv(n) && NetSettled(n) && AllWhole(n) && Enabled(n, a) && Calm(n, a)
    requires AllDistinct(n.peers) && AllDistinct(Next(n, a).peers)
    ensures Steady(n, a)
  {
    match a
    case Edit(r, edits) => EditIsSteady(n, r, edits);
    case Receive(r) => if n.peers[r].inbox[0].SnapshotMessage? { SnapshotIsSteady(n, r); }
    case Reload(r, listed) => ReloadIsSteady(n, r, listed);
    case _ =>
  }

  /** What holds in a net that has lost nothing so far. */
  ghost predicate Kept(n: Net) {
    Inv(n) && NetSettled(n) && AllWhole(n) && n.server.durable <= n.server.shown
  }

  lemma {:induction false} NextKeeps(n: Net, a: Action)
    requires Kept(n) && Enabled(n, a) && Calm(n, a) && AllDistinct(n.peers) && AllDistinct(Next(n, a).peers)
    requires !IsCrash(a) || DistinctIds(Issued(Next(n, a).peers))
    ensures Steady(n, a) && Kept(Next(n, a))
  {
    CalmIsSteady(n, a);
    NextInv(n, a);
    NextSettles(n, a);
    NextWhole(n, a);
    if IsCrash(a) { DistinctIsRemembered(Next(n, a)); } else { RemembersUntilCrash(n, a); }
  }

  lemma {:induction false} CalmRunKeeps(n: Net, actions: seq<Action>, m: Net)
    requires Kept(n) && Reaches(n, actions, m) && CalmRun(n, actions)
    requires AllDistinct(m.peers) && Spared(actions, m.peers)
    ensures SteadyRun(n, actions) && Kept(m)
    decreases |actions|
  {
    if actions != [] {
      var next, rest := Next(n, actions[0]), actions[1..];
      DistinctBefore(n, actions, m);
      DistinctBefore(next, rest, m);
      IssuedBefore(next, rest, m);
      assert actions[0] in actions && forall a :: a in rest ==> a in actions;
      NextKeeps(n, actions[0]);
      CalmRunKeeps(next, rest, m);
    }
  }

  lemma {:induction false} CalmFromStart(names: set<string>, kind: Kind, actions: seq<Action>, n: Net)
    requires Reaches(Start(names, kind), actions, n) && CalmRun(Start(names, kind), actions)
    requires AllDistinct(n.peers) && Spared(actions, n.peers)
    ensures SteadyRun(Start(names, kind), actions) && Kept(n)
  {
    StartInv(names, kind);
    StartSettles(names, kind);
    CalmRunKeeps(Start(names, kind), actions, n);
  }

  /** What a client that misses nothing has, and what is left of its ops. */
  lemma {:induction false} WholeKeepsAll(names: set<string>, kind: Kind, actions: seq<Action>, n: Net, r: string)
    requires Reaches(Start(names, kind), actions, n) && r in n.peers
    requires Whole(n.peers[r]) && DistinctIds(n.peers[r].created) && n.server.durable <= n.server.shown
    ensures var p := n.peers[r];
      && p.created <= OpSet(p.c.outbox) + n.server.shown && p.created <= p.got <= p.created + n.applied
      && p.c.lastAcked <= |n.fed| && OpsIn(n.fed[..p.c.lastAcked]) <= p.got
  {
    ReconnectSafety(names, kind, actions, n, r);
    DistinctMeansUncontested(n.peers[r].created);
  }

  lemma {:induction false} CalmRunsMissNothing(names: set<string>, kind: Kind, actions: seq<Action>, n: Net, r: string)
    requires Reaches(Start(names, kind), actions, n) && CalmRun(Start(names, kind), actions)
    requires AllDistinct(n.peers) && Spared(actions, n.peers) && r in n.peers
    ensures SteadyRun(Start(names, kind), actions) && Whole(n.peers[r])
    ensures n.server.durable <= n.server.shown <= OpsIn(n.fed) && n.peers[r].created + n.applied <= Issued(n.peers)
  {
    CalmFromStart(names, kind, actions, n);
    GivenIsIssued(n, r);
  }

  /** A client that misses nothing has read everything once it has no messages and no unacknowledged ops. */
  lemma {:induction false} WholeIsDone(n: Net, r: string)
    requires r in n.peers && Whole(n.peers[r]) && DistinctIds(n.peers[r].created)
    ensures var p := n.peers[r];
      p.conn.Joined? && p.inbox == [] && p.c.outbox == [] && n.applied <= OpsIn(n.fed) ==> Done(n, p)
  {
    DistinctMeansUncontested(n.peers[r].created);
  }

  /**
   Nothing is lost if the ops of each client have distinct keys and nothing is buffered when a record or a snapshot is
   written or sent, as long as the server does not crash or keys are distinct over all clients. Every op that a client
   created is in its outbox or at the server; its document is what its own ops, every batch up to its last acknowledged
   number and nothing that nobody created amount to; and a client without messages and unacknowledged ops shows the
   server's document as long as the server has all that it ever applied.
   */
  lemma {:induction false} NothingIsLost(names: set<string>, kind: Kind, actions: seq<Action>, n: Net, r: string)
    requires Reaches(Start(names, kind), actions, n) && CalmRun(Start(names, kind), actions)
    requires AllDistinct(n.peers) && Spared(actions, n.peers) && r in n.peers
    ensures var p := n.peers[r];
      && p.created <= OpSet(p.c.outbox) + OpsIn(n.fed)
      && Holds(p.c.doc, p.got) && p.created <= p.got <= Issued(n.peers)
      && p.c.lastAcked <= |n.fed| && OpsIn(n.fed[..p.c.lastAcked]) <= p.got
      && (p.conn.Joined? && p.inbox == [] && p.c.outbox == [] && n.applied <= OpsIn(n.fed) ==>
            LooksLike(p.c.doc, n.server.room.doc))
  {
    CalmRunsMissNothing(names, kind, actions, n, r);
    WholeKeepsAll(names, kind, actions, n, r);
    WholeIsDone(n, r);
    SteadyRunsSettle(names, kind, actions, n, r);
  }

  /** With distinct keys over all clients every op is in its creator's outbox or survives a crash at any moment. */
  lemma {:induction false} EverythingIsRecoverable(names: set<string>, kind: Kind, actions: seq<Action>, n: Net,
                                                   r: string)
    requires Reaches(Start(names, kind), actions, n) && CalmRun(Start(names, kind), actions)
    requires DistinctIds(Issued(n.peers)) && r in n.peers
    ensures n.peers[r].created <= OpSet(n.peers[r].c.outbox) + ServerProcess.Recoverable(n.server)
  {
    forall q, op | q in n.peers && op in n.peers[q].created ensures op in Issued(n.peers) {
    }
    CalmFromStart(names, kind, actions, n);
    NoOpIsLost(names, kind, actions, n, r);
  }
}
