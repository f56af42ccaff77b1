/** Runs of the reconnect protocol in which no id is issued twice. */
module Uniqueness {
  import opened Ops
  import opened Document
  import Runs
  import opened Editor
  import opened Databases
  import opened Session
  import opened Reconnect
  import opened SettledSteps
  import opened Settlement
  import opened IdReuse

  /** The counter of a client that restarts is no smaller than the ids it gave out. */
  ghost predicate Strict(n: Net, a: Action)
    requires Enabled(n, a)
  {
    match a
    case Receive(r) =>
      n.peers[r].inbox[0].SnapshotMessage? ==>
        Runs.OwnIdsBelow(n.peers[r].created, r, Received(n.peers[r]).c.doc.counter)
    case Reload(r, listed) => Runs.OwnIdsBelow(n.peers[r].created, r, Restarted(n.peers[r], listed).c.doc.counter)
    case _ => true
  }

  ghost predicate StrictRun(n: Net, actions: seq<Action>)
    decreases |actions|
  {
    actions == [] ||
      (Enabled(n, actions[0]) && Strict(n, actions[0]) && StrictRun(Next(n, actions[0]), actions[1..]))
  }

  /** A restart is strict iff none of the ids that the client gave out can come back after it. */
  lemma {:induction false} StrictIff(d: Doc, r: string, created: set<Op>)
    requires forall op :: op in created && !op.Delete? ==> op.id.replicaId == r
    ensures Runs.OwnIdsBelow(created, r, d.counter)
      <==> forall op :: op in created && !op.Delete? ==> !ComesBack(d, r, op.id)
  {
    forall op | op in created && !op.Delete? ensures ComesBack(d, r, op.id) <==> d.counter < op.id.counter {
      IdComesBackIff(d, r, op.id);
    }
  }

  ghost predicate CountersReach(peers: map<string, Peer>) {
    forall r :: r in peers ==> Runs.OwnIdsBelow(peers[r].created, r, peers[r].c.doc.counter)
  }

  ghost predicate NeverTwice(n: Net) {
    Named(n.peers) && CountersReach(n.peers) && Runs.UniqueIds(Issued(n.peers))
  }

  /** New ids, no two of them the same. */
  ghost predicate MintedBetween(ops: seq<Op>, r: string, before: nat, after: nat) {
    && before <= after
    && (forall op :: op in ops && !op.Delete? ==> op.id.replicaId == r && before < op.id.counter <= after)
    && Runs.UniqueIds(OpSet(ops))
  }

  lemma {:induction false} MintedIsBetween(ops: seq<Op>, r: string, before: nat, after: nat)
    requires Runs.Minted(ops, r, before, after)
    ensures MintedBetween(ops, r, before, after)
  {
  }

  lemma {:induction false} EditMints(d: Doc, r: string, edit: Edit)
    ensures MintedBetween(ApplyEdit(d, r, edit).ops, r, d.counter, ApplyEdit(d, r, edit).doc.counter)
  {
    match edit
    case InsertEdit(_, _, _) =>
    case DeleteEdit(_) =>
    case FormatEdit(index, length, patch) =>
      var n := if length < 0 then 0 else length;
      Runs.LocalFormatMints(d, r, index, n, patch);
      MintedIsBetween(LocalFormat(d, r, index, n, patch).1, r, d.counter, LocalFormat(d, r, index, n, patch).0.counter);
  }

  lemma {:induction false} MintedTogether(a: seq<Op>, b: seq<Op>, r: string, i: nat, j: nat, k: nat)
    requires MintedBetween(a, r, i, j) && MintedBetween(b, r, j, k)
    ensures MintedBetween(a + b, r, i, k)
  {
    assert OpSet(a + b) == OpSet(a) + OpSet(b);
  }

  lemma {:induction false} EditsMint(d: Doc, r: string, edits: seq<Edit>)
    ensures MintedBetween(Performed(d, r, edits).ops, r, d.counter, Performed(d, r, edits).doc.counter)
    decreases |edits|
  {
    if edits != [] {
      var first := ApplyEdit(d, r, edits[0]);
      EditMints(d, r, edits[0]);
      PerformedHead(d, r, edits);
      if !first.thrown {
        EditsMint(first.doc, r, edits[1..]);
        var rest := Performed(first.doc, r, edits[1..]);
        MintedTogether(first.ops, rest.ops, r, d.counter, first.doc.counter, rest.doc.counter);
      }
    }
  }

  lemma {:induction false} EditNeverTwice(n: Net, r: string, edits: seq<Edit>)
    requires NeverTwice(n) && Enabled(n, Session.Edit(r, edits))
    ensures NeverTwice(Next(n, Session.Edit(r, edits)))
  {
    var p, q, made := n.peers[r], Edited(n.peers[r], r, edits), OpSet(ApplyEdits(n.peers[r].c.doc, r, edits).ops);
    EditsMint(p.c.doc, r, edits);
    IssuedAfter(n.peers, r, q, made);
    UpdateStaysNamed(n.peers, r, q, made);
    OwnInHand(n.peers, r);
    assert Runs.OwnIdsBelow(Issued(n.peers), r, p.c.doc.counter);
  }

  lemma {:induction false} ClientCounterReaches(n: Net, a: Action)
    requires NeverTwice(n) && Enabled(n, a) && Concerns(a) && Strict(n, a)
    ensures Runs.OwnIdsBelow(n.peers[a.replica].created, a.replica, ClientAfter(n, a).c.doc.counter)
  {
    var p := n.peers[a.replica];
    assert Runs.OwnIdsBelow(p.created, a.replica, p.c.doc.counter);
    if a.Receive? {
      match p.inbox[0]
      case SyncMessage(_, ops) => Runs.ApplyAllCounterGrows(p.c.doc, ops);
      case BroadcastMessage(_, ops) => Runs.ApplyAllCounterGrows(p.c.doc, ops);
      case _ =>
    }
  }

  lemma {:induction false} ClientNeverTwice(n: Net, a: Action)
    requires NeverTwice(n) && Enabled(n, a) && Concerns(a) && Strict(n, a)
    ensures NeverTwice(Next(n, a))
  {
    ClientCounterReaches(n, a);
    NextChangesOne(n, a);
    IssuedSame(n.peers, Next(n, a).peers);
  }

  lemma {:induction false} NextNeverTwice(n: Net, a: Action)
    requires NeverTwice(n) && Enabled(n, a) && Strict(n, a)
    ensures NeverTwice(Next(n, a))
  {
    if a.Edit? {
      EditNeverTwice(n, a.replica, a.edits);
    } else if Concerns(a) {
      ClientNeverTwice(n, a);
    } else {
      IssuedSame(n.peers, Next(n, a).peers);
    }
  }

  lemma {:induction false} RunNeverTwice(n: Net, actions: seq<Action>, m: Net)
    requires NeverTwice(n) && Reaches(n, actions, m) && StrictRun(n, actions)
    ensures NeverTwice(m)
    decreases |actions|
  {
    if actions != [] {
      NextNeverTwice(n, actions[0]);
      RunNeverTwice(Next(n, actions[0]), actions[1..], m);
    }
  }

  lemma {:induction false} StrictIsClean(n: Net, actions: seq<Action>)
    requires StrictRun(n, actions)
    ensures CleanRun(n, actions)
    decreases |actions|
  {
    if actions != [] { StrictIsClean(Next(n, actions[0]), actions[1..]); }
  }

  /**
   If every client restarts with a counter that none of its ids exceeds, no two ops of any clients are ever given
   the same id, whatever the server compacts; only deletes share the key of another op, that of what they delete.
   */
  lemma {:induction false} NoIdIsIssuedTwice(names: set<string>, kind: Kind, actions: seq<Action>, n: Net)
    requires Reaches(Start(names, kind), actions, n) && StrictRun(Start(names, kind), actions)
    ensures Runs.UniqueIds(Issued(n.peers)) && CleanRun(Start(names, kind), actions)
    ensures forall op :: op in Contested(Issued(n.peers)) && !op.Delete? ==> Delete(op.id) in Issued(n.peers)
  {
    assert Issued(Start(names, kind).peers) == {};
    RunNeverTwice(Start(names, kind), actions, n);
    StrictIsClean(Start(names, kind), actions);
    forall op | op in Contested(Issued(n.peers)) && !op.Delete? ensures Delete(op.id) in Issued(n.peers) {
      var other :| other in Issued(n.peers) && other != op && OpIdOf(other) == OpIdOf(op);
      assert other == Delete(op.id);
    }
  }
}
