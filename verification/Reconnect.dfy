/** What holds in all runs of the reconnect protocol. */
module Reconnect {
  import opened Ops
  import opened Rooms
  import opened Databases
  import ServerProcess
  import opened Histories
  import opened Session

  /** The actions can happen one after the other, and lead from n to m. */
  ghost predicate Reaches(n: Net, actions: seq<Action>, m: Net)
    decreases |actions|
  {
    if actions == [] then n == m
    else Enabled(n, actions[0]) && Reaches(Next(n, actions[0]), actions[1..], m)
  }

  lemma {:induction false} RunInv(n: Net, actions: seq<Action>, m: Net)
    requires Inv(n) && Reaches(n, actions, m)
    ensures Inv(m)
    decreases |actions|
  {
    if actions != [] {
      NextInv(n, actions[0]);
      RunInv(Next(n, actions[0]), actions[1..], m);
    }
  }

  /** The server never refuses a message for want of a number. */
  lemma {:induction false} MessagesCanBeApplied(names: set<string>, kind: Kind, actions: seq<Action>, n: Net,
                                                r: string, ops: seq<Op>)
    requires Reaches(Start(names, kind), actions, n) && (r, ops) in n.sent
    ensures Enabled(n, Apply(r, ops))
  {
    StartInv(names, kind);
    RunInv(Start(names, kind), actions, n);
    AcceptTraced(n.server, n.fed, NextBatch(n, ops));
  }

  /**
   Reconnect safety over all runs, crashes of the server included. Every op that a client created is in its outbox
   or durable, unless it shares its key with another op that the client created. Every durable op is what a fresh
   server would show, unless it was buffered when a snapshot was taken or shares its key with a durable one. And a
   client was given all that it created and every batch up to its last acknowledged number, and once it has read
   its messages every batch there is, but for the first exception and for what was buffered when a record or
   snapshot was written that was used later.
   */
  lemma {:induction false} ReconnectSafety(names: set<string>, kind: Kind, actions: seq<Action>, n: Net, r: string)
    requires Reaches(Start(names, kind), actions, n) && r in n.peers
    ensures var p := n.peers[r];
      && p.created <= OpSet(p.c.outbox) + n.server.durable + Contested(p.created)
      && n.server.durable <= ServerProcess.Recoverable(n.server) + n.server.dropped + Contested(n.server.durable)
      && ServerProcess.Recoverable(n.server) <= OpsIn(n.fed)
      && p.created <= p.got + p.missed + Contested(p.created)
      && p.c.lastAcked <= |n.fed| && OpsIn(n.fed[..p.c.lastAcked]) <= p.got + p.missed + Contested(p.created)
      && (p.conn.Joined? && p.inbox == [] ==> OpsIn(n.fed) <= p.got + p.missed + Contested(p.created))
      && p.got <= p.created + n.applied
  {
    StartInv(names, kind);
    RunInv(Start(names, kind), actions, n);
    var h, p := PastOf(n), n.peers[r];
    assert PeerInv(h, r, p);
    HeldIsPrefix(n.fed, p.got + Excused(p), p.c.lastAcked);
    if p.conn.Joined? && p.inbox == [] {
      HeldMore(h, r, p.got + Excused(p), p.created, p.level, |n.fed|);
      HeldIsPrefix(n.fed, p.got + Excused(p), |n.fed|);
      assert n.fed[..|n.fed|] == n.fed;
    }
  }

  /**
   With one op per key a client hands over what it takes out of its outbox: each op that it created is there or was
   appended by the server or stored in a snapshot. That it can still be recovered then is more, see below.
   */
  lemma {:induction false} OutboxOrStored(names: set<string>, kind: Kind, actions: seq<Action>, n: Net, r: string)
    requires Reaches(Start(names, kind), actions, n) && r in n.peers && DistinctIds(n.peers[r].created)
    ensures n.peers[r].created <= OpSet(n.peers[r].c.outbox) + n.server.durable
    ensures n.server.durable <= n.applied
  {
    ReconnectSafety(names, kind, actions, n, r);
    StartInv(names, kind);
    RunInv(Start(names, kind), actions, n);
    DistinctMeansUncontested(n.peers[r].created);
  }

  /**
   Whatever was reloaded and crashed, an op whose key no op of any other kind or client has is in the outbox of its
   creator or would be shown by a fresh server, unless it was buffered when a snapshot was taken.
   */
  lemma {:induction false} UncontestedSurvive(names: set<string>, kind: Kind, actions: seq<Action>, n: Net, r: string)
    requires Reaches(Start(names, kind), actions, n) && r in n.peers
    ensures n.peers[r].created <=
      OpSet(n.peers[r].c.outbox) + ServerProcess.Recoverable(n.server) + n.server.dropped + Contested(Issued(n.peers))
    ensures ServerProcess.Recoverable(n.server) <= OpsIn(n.fed)
  {
    var p, issued := n.peers[r], Issued(n.peers);
    ReconnectSafety(names, kind, actions, n, r);
    StartInv(names, kind);
    RunInv(Start(names, kind), actions, n);
    forall op | op in p.created ensures op in issued { assert r in n.peers && op in n.peers[r].created; }
    ContestedGrows(p.created, issued);
    ContestedGrows(n.server.durable, issued);
  }

  /** So with distinct keys over all clients nothing is lost but what was buffered when a snapshot was taken. */
  lemma {:induction false} NoOpIsLost(names: set<string>, kind: Kind, actions: seq<Action>, n: Net, r: string)
    requires Reaches(Start(names, kind), actions, n) && r in n.peers && DistinctIds(Issued(n.peers))
    ensures n.peers[r].created <=
      OpSet(n.peers[r].c.outbox) + ServerProcess.Recoverable(n.server) + n.server.dropped
    ensures ServerProcess.Recoverable(n.server) <= OpsIn(n.fed)
  {
    UncontestedSurvive(names, kind, actions, n, r);
    DistinctMeansUncontested(Issued(n.peers));
  }
}
