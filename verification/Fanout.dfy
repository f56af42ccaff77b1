/** One document on several server processes that share a counter and a broker. */
module Fanout {
  import opened Ops
  import opened Delivery
  import opened Snapshots
  import opened Rooms

  // Every process applies the batches of its own clients at once and those of the others when the broker delivers
  // them (apps/server/src/roomManager.ts, `applyClientOp` and `handleRemoteOp`; apps/server/src/pubsub).

  /** What is published: the process it comes from, the number and the ops. */
  datatype Payload = Payload(origin: string, ops: seq<Op>)

  /** A process: its room, and the numbers of the batches that it applied, in order. */
  datatype Site = Site(room: RoomState, applied: seq<nat>)

  /**
   The processes by id, the shared counter, what was allocated under each number, which numbers were applied and
   published by their process, and the messages on their way: to which process, under which number.
   */
  datatype Cluster = Cluster(
    sites: map<string, Site>, counter: nat, batches: map<nat, Payload>, published: set<nat>, wire: set<(string, nat)>)

  datatype Action =
    | Allocate(site: string, ops: seq<Op>)
    | Commit(number: nat)
    | Deliver(site: string, number: nat)

  ghost function Start(ids: set<string>): Cluster {
    Cluster(map p | p in ids :: Site(NEW_ROOM, []), 0, map[], {}, {})
  }

  function Fed(s: Site, number: nat, ops: seq<Op>): Site {
    Site(Feed(s.room, ops, number), s.applied + [number])
  }

  predicate Enabled(c: Cluster, a: Action) {
    match a
    case Allocate(p, _) => p in c.sites
    case Commit(k) => k in c.batches && k !in c.published && c.batches[k].origin in c.sites
    case Deliver(p, k) => (p, k) in c.wire && k in c.batches && p in c.sites
  }

  /** A process skips what it published itself. */
  function Next(c: Cluster, a: Action): Cluster
    requires Enabled(c, a)
  {
    match a
    case Allocate(p, ops) =>
      c.(counter := c.counter + 1, batches := c.batches[c.counter + 1 := Payload(p, ops)])
    case Commit(k) =>
      var p := c.batches[k].origin;
      c.(sites := c.sites[p := Fed(c.sites[p], k, c.batches[k].ops)], published := c.published + {k},
         wire := c.wire + set q | q in c.sites :: (q, k))
    case Deliver(p, k) =>
      var rest := c.(wire := c.wire - {(p, k)});
      if c.batches[k].origin == p then rest
      else rest.(sites := c.sites[p := Fed(c.sites[p], k, c.batches[k].ops)])
  }

  predicate Reaches(c: Cluster, actions: seq<Action>, d: Cluster)
    decreases |actions|
  {
    if actions == [] then c == d
    else Enabled(c, actions[0]) && Reaches(Next(c, actions[0]), actions[1..], d)
  }

  // The invariant

  /** The ops of these numbers. */
  ghost function OpsUnder(batches: map<nat, Payload>, numbers: set<nat>): set<Op> {
    set k, op | k in numbers && k in batches && op in batches[k].ops :: op
  }

  ghost function AllOps(batches: map<nat, Payload>): set<Op> {
    OpsUnder(batches, batches.Keys)
  }

  ghost predicate Once(applied: seq<nat>) {
    forall i, j :: 0 <= i < j < |applied| ==> applied[i] != applied[j]
  }

  ghost function Numbers(applied: seq<nat>): set<nat> {
    set k | k in applied
  }

  /** Due at a process: published, and either its own or no longer on the way to it. */
  ghost function Due(c: Cluster, p: string): set<nat> {
    set k | k in c.published && IsDue(c, p, k)
  }

  ghost predicate IsDue(c: Cluster, p: string, k: nat) {
    k in c.batches && (c.batches[k].origin == p || (p, k) !in c.wire)
  }

  /** The process applied exactly the batches that are due, once each. */
  ghost predicate SiteInv(batches: map<nat, Payload>, due: set<nat>, s: Site) {
    && Once(s.applied) && Numbers(s.applied) == due
    && Holds(s.room.doc, OpsUnder(batches, due))
  }

  ghost predicate SitesInv(c: Cluster) {
    forall p {:trigger SiteInv(c.batches, Due(c, p), c.sites[p])} :: p in c.sites ==>
      SiteInv(c.batches, Due(c, p), c.sites[p])
  }

  ghost predicate Inv(c: Cluster) {
    && (forall k :: k in c.batches ==> 1 <= k <= c.counter && c.batches[k].origin in c.sites)
    && c.published <= c.batches.Keys
    && (forall m :: m in c.wire ==> m.0 in c.sites && m.1 in c.published)
    && SitesInv(c)
  }

  lemma {:induction false} StartInv(ids: set<string>)
    ensures Inv(Start(ids)) && AllOps(Start(ids).batches) == {}
  {
    var c := Start(ids);
    HoldsEmpty();
    forall p | p in c.sites ensures SiteInv(c.batches, Due(c, p), c.sites[p]) {
      assert OpsUnder(map[], {}) == {};
      assert Numbers([]) == {} == Due(c, p);
    }
  }

  lemma {:induction false} OpsUnderMore(batches: map<nat, Payload>, numbers: set<nat>, k: nat)
    requires k in batches
    ensures OpsUnder(batches, numbers + {k}) == OpsUnder(batches, numbers) + OpSet(batches[k].ops)
  {
  }

  lemma {:induction false} AppendedOnce(applied: seq<nat>, k: nat)
    requires Once(applied) && k !in Numbers(applied)
    ensures Once(applied + [k]) && Numbers(applied + [k]) == Numbers(applied) + {k}
  {
  }

  /** A batch that was not due yet is applied. */
  lemma {:induction false} FedInv(batches: map<nat, Payload>, due: set<nat>, s: Site, k: nat)
    requires SiteInv(batches, due, s) && k in batches && k !in due && Coherent(AllOps(batches))
    ensures SiteInv(batches, due + {k}, Fed(s, k, batches[k].ops))
  {
    OpsUnderMore(batches, due, k);
    AppendedOnce(s.applied, k);
    CoherentPart(AllOps(batches), OpsUnder(batches, due + {k}));
    HoldsApplyAll(s.room.doc, batches[k].ops, OpsUnder(batches, due));
  }

  lemma {:induction false} NewBatchInv(batches: map<nat, Payload>, due: set<nat>, s: Site, k: nat, b: Payload)
    requires SiteInv(batches, due, s) && k !in batches && due <= batches.Keys
    ensures SiteInv(batches[k := b], due, s)
  {
    var after := batches[k := b];
    forall op ensures op in OpsUnder(after, due) <==> op in OpsUnder(batches, due) {
      if op in OpsUnder(after, due) {
        var j :| j in due && j in after && op in after[j].ops;
        assert j in batches && op in batches[j].ops;
      }
      if op in OpsUnder(batches, due) {
        var j :| j in due && j in batches && op in batches[j].ops;
        assert j in after && op in after[j].ops;
      }
    }
    assert OpsUnder(after, due) == OpsUnder(batches, due);
  }

  lemma {:induction false} DueAfterAllocation(c: Cluster, p: string, ops: seq<Op>, q: string)
    requires Inv(c) && p in c.sites
    ensures Due(Next(c, Allocate(p, ops)), q) == Due(c, q) && Due(c, q) <= c.batches.Keys
    ensures c.counter + 1 !in c.batches
  {
  }

  lemma {:induction false} AllocateInv(c: Cluster, p: string, ops: seq<Op>)
    requires Inv(c) && p in c.sites
    ensures Inv(Next(c, Allocate(p, ops)))
  {
    var d := Next(c, Allocate(p, ops));
    forall q | q in d.sites ensures SiteInv(d.batches, Due(d, q), d.sites[q]) {
      DueAfterAllocation(c, p, ops, q);
      var due := Due(c, q);
      assert SiteInv(c.batches, due, c.sites[q]);
      NewBatchInv(c.batches, due, c.sites[q], c.counter + 1, Payload(p, ops));
      assert d.batches == c.batches[c.counter + 1 := Payload(p, ops)];
      assert SiteInv(d.batches, due, d.sites[q]);
    }
  }

  lemma {:induction false} DueAfterCommit(c: Cluster, k: nat, q: string)
    requires Inv(c) && Enabled(c, Commit(k)) && q in c.sites
    ensures Due(Next(c, Commit(k)), q) == Due(c, q) + (if q == c.batches[k].origin then {k} else {}) && k !in Due(c, q)
  {
  }

  /** The process that the batch belongs to applies it; all others have it on its way. */
  lemma {:induction false} CommitInv(c: Cluster, k: nat)
    requires Inv(c) && Enabled(c, Commit(k)) && Coherent(AllOps(c.batches))
    ensures Inv(Next(c, Commit(k)))
  {
    var d, p := Next(c, Commit(k)), c.batches[k].origin;
    forall q | q in d.sites ensures SiteInv(d.batches, Due(d, q), d.sites[q]) {
      assert SiteInv(c.batches, Due(c, q), c.sites[q]);
      DueAfterCommit(c, k, q);
      if q == p { FedInv(c.batches, Due(c, q), c.sites[q], k); }
    }
  }

  lemma {:induction false} DueAfterDelivery(c: Cluster, p: string, k: nat, q: string)
    requires Inv(c) && Enabled(c, Deliver(p, k)) && q in c.sites
    ensures Due(Next(c, Deliver(p, k)), q) == Due(c, q) + (if q == p && c.batches[k].origin != p then {k} else {})
    ensures c.batches[k].origin != p ==> k !in Due(c, p)
  {
  }

  lemma {:induction false} DeliverInv(c: Cluster, p: string, k: nat)
    requires Inv(c) && Enabled(c, Deliver(p, k)) && Coherent(AllOps(c.batches))
    ensures Inv(Next(c, Deliver(p, k)))
  {
    var d := Next(c, Deliver(p, k));
    forall q | q in d.sites ensures SiteInv(d.batches, Due(d, q), d.sites[q]) {
      assert SiteInv(c.batches, Due(c, q), c.sites[q]);
      DueAfterDelivery(c, p, k, q);
      if q == p && c.batches[k].origin != p { FedInv(c.batches, Due(c, q), c.sites[q], k); }
    }
  }

  /** The processes are given ops of this set only. */
  predicate Within(a: Action, all: set<Op>) {
    a.Allocate? ==> forall op :: op in a.ops ==> op in all
  }

  lemma {:induction false} NextInv(c: Cluster, a: Action, all: set<Op>)
    requires Inv(c) && AllOps(c.batches) <= all && Coherent(all) && Enabled(c, a) && Within(a, all)
    ensures Inv(Next(c, a)) && AllOps(Next(c, a).batches) <= all
  {
    CoherentPart(all, AllOps(c.batches));
    match a
    case Allocate(p, ops) => AllocateInv(c, p, ops);
    case Commit(k) => CommitInv(c, k);
    case Deliver(p, k) => DeliverInv(c, p, k);
  }

  lemma {:induction false} RunInv(c: Cluster, actions: seq<Action>, d: Cluster, all: set<Op>)
    requires Inv(c) && AllOps(c.batches) <= all && Coherent(all)
    requires Reaches(c, actions, d) && forall a :: a in actions ==> Within(a, all)
    ensures Inv(d) && AllOps(d.batches) <= all
    decreases |actions|
  {
    if actions != [] {
      NextInv(c, actions[0], all);
      RunInv(Next(c, actions[0]), actions[1..], d, all);
    }
  }

  /**
   Every published batch is applied at most once by every process, and exactly once unless it is still on its way
   there; a process applies its own when it publishes them and skips them when the broker brings them back.
   */
  lemma {:induction false} AppliedExactlyOnce(ids: set<string>, actions: seq<Action>, c: Cluster, all: set<Op>,
                                              p: string, k: nat)
    requires Reaches(Start(ids), actions, c) && Coherent(all) && forall a :: a in actions ==> Within(a, all)
    requires p in c.sites && k in c.published
    ensures k in c.batches && Once(c.sites[p].applied)
    ensures k in c.sites[p].applied <==> c.batches[k].origin == p || (p, k) !in c.wire
  {
    StartInv(ids);
    RunInv(Start(ids), actions, c, all);
    assert SiteInv(c.batches, Due(c, p), c.sites[p]);
    assert k in c.sites[p].applied <==> k in Numbers(c.sites[p].applied);
  }

  lemma {:induction false} SameBatchesLookAlike(batches: map<nat, Payload>, due: set<nat>, s: Site, t: Site)
    requires SiteInv(batches, due, s) && SiteInv(batches, due, t) && Coherent(OpsUnder(batches, due))
    ensures LooksLike(s.room.doc, t.room.doc)
  {
    HoldsDetermines(s.room.doc, t.room.doc, OpsUnder(batches, due));
  }

  /** When nothing is on its way any more, all processes show the same document, whatever the order of arrival. */
  lemma {:induction false} QuietSitesAgree(ids: set<string>, actions: seq<Action>, c: Cluster, all: set<Op>,
                                           p: string, q: string)
    requires Reaches(Start(ids), actions, c) && Coherent(all) && forall a :: a in actions ==> Within(a, all)
    requires c.wire == {} && p in c.sites && q in c.sites
    ensures LooksLike(c.sites[p].room.doc, c.sites[q].room.doc)
    ensures Numbers(c.sites[p].applied) == c.published
  {
    StartInv(ids);
    RunInv(Start(ids), actions, c, all);
    assert Due(c, p) == c.published == Due(c, q);
    assert SiteInv(c.batches, Due(c, p), c.sites[p]) && SiteInv(c.batches, Due(c, q), c.sites[q]);
    CoherentPart(all, OpsUnder(c.batches, c.published));
    SameBatchesLookAlike(c.batches, c.published, c.sites[p], c.sites[q]);
  }
}
