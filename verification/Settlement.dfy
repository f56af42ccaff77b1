/** What documents show in runs of the reconnect protocol. */
module Settlement {
  import opened Ops
  import opened Document
  import opened Delivery
  import opened Snapshots
  import opened IdReuse
  import opened FreshIds
  import opened Edits
  import opened Editor
  import opened Rooms
  import opened Databases
  import ServerProcess
  import opened Session
  import opened Reconnect
  import opened SettledSteps

  // Steady runs

  lemma {:induction false} StartSettles(names: set<string>, kind: Kind)
    ensures NetSettled(Session.Start(names, kind))
  {
    EmptyIsSound();
    HoldsEmpty();
    ServerProcess.BootShows(kind, {});
    assert Issued(Session.Start(names, kind).peers) == {};
  }

  /** Every step of the run is steady. */
  ghost predicate SteadyRun(n: Net, actions: seq<Session.Action>)
    decreases |actions|
  {
    actions == [] ||
      (Session.Enabled(n, actions[0]) && Steady(n, actions[0]) && SteadyRun(Next(n, actions[0]), actions[1..]))
  }

  lemma {:induction false} RunSettles(n: Net, actions: seq<Session.Action>, m: Net)
    requires Session.Inv(n) && NetSettled(n) && Reconnect.Reaches(n, actions, m) && SteadyRun(n, actions)
    ensures Session.Inv(m) && NetSettled(m)
    decreases |actions|
  {
    if actions != [] {
      Session.NextInv(n, actions[0]);
      NextSettles(n, actions[0]);
      RunSettles(Next(n, actions[0]), actions[1..], m);
    }
  }

  /**
   A client that is done: it has read all its messages, nothing is unacknowledged, it has what it missed after all,
   its own ops that share a key reached the server, and the server has all that it ever applied.
   */
  ghost predicate Done(n: Net, p: Peer) {
    && p.conn.Joined? && p.inbox == [] && p.c.outbox == [] && p.missed <= p.got
    && Contested(p.created) <= p.got * OpsIn(n.fed) && n.applied <= OpsIn(n.fed)
  }

  lemma {:induction false} DoneHasAll(names: set<string>, kind: Kind, actions: seq<Session.Action>, n: Net, r: string)
    requires Reconnect.Reaches(Session.Start(names, kind), actions, n) && r in n.peers && Done(n, n.peers[r])
    ensures n.peers[r].got == OpsIn(n.fed)
  {
    ReconnectSafety(names, kind, actions, n, r);
    Session.StartInv(names, kind);
    RunInv(Session.Start(names, kind), actions, n);
  }

  lemma {:induction false} SameOpsLookAlike(d: Doc, e: Doc, ops: set<Op>, issued: set<Op>)
    requires Holds(d, ops) && Holds(e, ops) && Coherent(issued) && ops <= issued
    ensures LooksLike(d, e)
  {
    CoherentPart(issued, ops);
    HoldsDetermines(d, e, ops);
  }

  /**
   In a steady run the document of a client is what the ops amount to that it was given, the server's is what all its
   batches amount to, and a client that is done shows the server's document.
   */
  lemma {:induction false} SteadyRunsSettle(names: set<string>, kind: Kind, actions: seq<Session.Action>, n: Net,
                                            r: string)
    requires Reconnect.Reaches(Session.Start(names, kind), actions, n) && SteadyRun(Session.Start(names, kind), actions)
    requires r in n.peers
    ensures var p := n.peers[r];
      && Coherent(Issued(n.peers)) && Holds(p.c.doc, p.got) && Holds(n.server.room.doc, OpsIn(n.fed))
      && (Done(n, p) ==> p.got == OpsIn(n.fed) && LooksLike(p.c.doc, n.server.room.doc))
  {
    Session.StartInv(names, kind);
    StartSettles(names, kind);
    RunSettles(Session.Start(names, kind), actions, n);
    assert PeerSettled(n.peers[r], r, Issued(n.peers));
    if Done(n, n.peers[r]) {
      DoneHasAll(names, kind, actions, n, r);
      SameOpsLookAlike(n.peers[r].c.doc, n.server.room.doc, n.peers[r].got, Issued(n.peers));
    }
  }

  // Clean restarts make steady runs

  /** The ids that a client gave out are covered when it restarts. */
  ghost predicate Clean(n: Net, a: Session.Action)
    requires Session.Enabled(n, a)
  {
    match a
    case Receive(r) =>
      n.peers[r].inbox[0].SnapshotMessage? ==> OwnIdsCovered(Received(n.peers[r]).c.doc, r, n.peers[r].created)
    case Reload(r, listed) => OwnIdsCovered(Restarted(n.peers[r], listed).c.doc, r, n.peers[r].created)
    case _ => true
  }

  /** Every restart of the run is clean. */
  ghost predicate CleanRun(n: Net, actions: seq<Session.Action>)
    decreases |actions|
  {
    actions == [] ||
      (Session.Enabled(n, actions[0]) && Clean(n, actions[0]) && CleanRun(Next(n, actions[0]), actions[1..]))
  }

  /** For a client that has all that it created, being covered is a matter of its buffer. */
  lemma {:induction false} CleanIff(nodes: seq<SnapshotNode>, shown: set<Op>, outbox: seq<Op>, r: string,
                                    created: set<Op>, issued: set<Op>)
    requires Restorable(nodes, shown) && shown + OpSet(outbox) <= issued && Coherent(issued)
    requires created <= shown + OpSet(outbox)
    requires forall op :: op in issued && !op.Delete? && op.id.replicaId == r ==> op in created
    ensures var d := ApplyAll(FromSnapshot(nodes), outbox); OwnIdsCovered(d, r, created) <==> OwnBufferedBelow(d, r)
  {
    var d := ApplyAll(FromSnapshot(nodes), outbox);
    RestoredHolds(nodes, shown, outbox, issued);
    CoveredIff(d, r, shown + OpSet(outbox));
    assert OwnIdsCovered(d, r, created) <==> OwnIdsCovered(d, r, shown + OpSet(outbox));
  }

  ghost predicate AllCovered(peers: map<string, Peer>) {
    forall r :: r in peers ==> OwnIdsCovered(peers[r].c.doc, r, peers[r].created)
  }

  lemma {:induction false} CoveredByName(peers: map<string, Peer>, r: string)
    requires Named(peers) && r in peers && OwnIdsCovered(peers[r].c.doc, r, peers[r].created)
    ensures OwnIdsCovered(peers[r].c.doc, r, Issued(peers))
  {
    OwnInHand(peers, r);
  }

  lemma {:induction false} EditCovers(n: Net, r: string, edits: seq<Edit>)
    requires NetSettled(n) && AllCovered(n.peers) && Session.Enabled(n, Session.Edit(r, edits))
    ensures Steady(n, Session.Edit(r, edits))
    ensures OwnIdsCovered(Edited(n.peers[r], r, edits).c.doc, r, Edited(n.peers[r], r, edits).created)
  {
    var p, issued := n.peers[r], Issued(n.peers);
    assert PeerSettled(p, r, issued);
    CoveredByName(n.peers, r);
    EditsCover(p.c.doc, r, p.got, issued, edits);
    OwnInHand(n.peers, r);
  }

  lemma {:induction false} ApplyingCovers(d: Doc, r: string, created: set<Op>, ops: seq<Op>)
    requires Sound(d) && OwnIdsCovered(d, r, created)
    ensures OwnIdsCovered(ApplyAll(d, ops), r, created)
  {
    forall op | op in created && !op.Delete? && op.id.replicaId == r ensures IdCovered(ApplyAll(d, ops), op) {
      CoveredStays(d, ops, op);
    }
  }

  lemma {:induction false} ReceivedCovers(p: Peer, r: string, issued: set<Op>)
    requires PeerSettled(p, r, issued) && OwnIdsCovered(p.c.doc, r, p.created) && p.inbox != []
    requires p.inbox[0].SnapshotMessage? ==> OwnIdsCovered(Received(p).c.doc, r, p.created)
    ensures OwnIdsCovered(Received(p).c.doc, r, p.created)
  {
    match p.inbox[0]
    case SyncMessage(_, ops) => ApplyingCovers(p.c.doc, r, p.created, ops);
    case BroadcastMessage(_, ops) => ApplyingCovers(p.c.doc, r, p.created, ops);
    case SnapshotMessage(_, _) =>
    case AckMessage(_, _) =>
    case ErrorMessage(_, _) =>
  }

  lemma {:induction false} ClientAfterCovers(n: Net, a: Session.Action)
    requires NetSettled(n) && AllCovered(n.peers) && Session.Enabled(n, a) && Concerns(a) && Clean(n, a)
    ensures OwnIdsCovered(ClientAfter(n, a).c.doc, a.replica, n.peers[a.replica].created) && Steady(n, a)
  {
    if a.Receive? {
      assert PeerSettled(n.peers[a.replica], a.replica, Issued(n.peers));
      ReceivedCovers(n.peers[a.replica], a.replica, Issued(n.peers));
      RestartCovers(n, a);
    } else if a.Reload? {
      RestartCovers(n, a);
    }
  }

  lemma {:induction false} RestartCovers(n: Net, a: Session.Action)
    requires Session.Enabled(n, a) && Concerns(a) && Clean(n, a) && (a.Receive? || a.Reload?)
    ensures Steady(n, a)
    ensures a.Reload? ==> OwnIdsCovered(ClientAfter(n, a).c.doc, a.replica, n.peers[a.replica].created)
  {
  }

  lemma {:induction false} NextCovers(n: Net, a: Session.Action)
    requires NetSettled(n) && AllCovered(n.peers) && Session.Enabled(n, a) && Clean(n, a)
    ensures Steady(n, a) && AllCovered(Next(n, a).peers)
  {
    if a.Edit? {
      EditCovers(n, a.replica, a.edits);
    } else if Concerns(a) {
      ClientAfterCovers(n, a);
      NextChangesOne(n, a);
    }
  }

  lemma {:induction false} CleanIsSteady(n: Net, actions: seq<Session.Action>, m: Net)
    requires Session.Inv(n) && NetSettled(n) && AllCovered(n.peers)
    requires Reconnect.Reaches(n, actions, m) && CleanRun(n, actions)
    ensures SteadyRun(n, actions)
    decreases |actions|
  {
    if actions != [] {
      Session.NextInv(n, actions[0]);
      NextCovers(n, actions[0]);
      NextSettles(n, actions[0]);
      CleanIsSteady(Next(n, actions[0]), actions[1..], m);
    }
  }

  /**
   In a run with clean restarts no id is given to two different inserts or to two decisions about one mark, and
   documents are what the ops amount to that they were given.
   */
  lemma {:induction false} CleanRunsSettle(names: set<string>, kind: Kind, actions: seq<Session.Action>, n: Net,
                                           r: string)
    requires Reconnect.Reaches(Session.Start(names, kind), actions, n) && CleanRun(Session.Start(names, kind), actions)
    requires r in n.peers
    ensures var p := n.peers[r];
      && Coherent(Issued(n.peers)) && Holds(p.c.doc, p.got) && Holds(n.server.room.doc, OpsIn(n.fed))
      && (Done(n, p) ==> p.got == OpsIn(n.fed) && LooksLike(p.c.doc, n.server.room.doc))
  {
    Session.StartInv(names, kind);
    StartSettles(names, kind);
    CleanIsSteady(Session.Start(names, kind), actions, n);
    SteadyRunsSettle(names, kind, actions, n, r);
  }
}
