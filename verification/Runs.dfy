/** Whole runs of any number of replicas (packages/crdt/src/rga.ts). */
module Runs {
  import opened Ids
  import opened Ops
  import opened Tree
  import opened Document
  import opened Delivery
  import opened Convergence
  import opened Edits
  import opened Snapshots

  // Replicas type, delete, format, and restart from their own snapshot.
  // Any op that was ever issued is delivered at any time, any number of times or never. Unique and causal ids are
  // invariants of a run, not assumptions about it.

  /** The replicas by name, the ops each of them has been delivered or has made, and all ops made so far. */
  datatype Net = Net(docs: map<string, Doc>, got: map<string, set<Op>>, issued: set<Op>)

  datatype Action =
    | Local(replica: string, event: Event)
    | Deliver(replica: string, op: Op)
    | Restart(replica: string)

  ghost function Start(names: set<string>): Net {
    Net(map r | r in names :: EMPTY, map r | r in names :: {}, {})
  }

  /** What a replica does on its own: an edit, as opposed to a delivery or a compaction. */
  predicate IsEdit(event: Event) {
    event.Type? || event.Erase? || event.Mark?
  }

  ghost function Next(n: Net, a: Action): Net {
    var r := a.replica;
    if r !in n.docs || r !in n.got then n
    else
      match a
      case Local(_, event) =>
        if !IsEdit(event) then n
        else
          var (e, ops) := React(n.docs[r], r, event);
          Net(n.docs[r := e], n.got[r := n.got[r] + OpSet(ops)], n.issued + OpSet(ops))
      case Deliver(_, op) =>
        if op !in n.issued then n
        else n.(docs := n.docs[r := Apply(n.docs[r], op)], got := n.got[r := n.got[r] + {op}])
      case Restart(_) =>
        var d := n.docs[r];
        if forall x :: x in d.order ==> x in d.cells then
          n.(docs := n.docs[r := FromSnapshot(ToSnapshot(d))], got := n.got[r := n.got[r] - PendingOps(d.pending)])
        else n
  }

  ghost function Run(n: Net, actions: seq<Action>): Net
    decreases |actions|
  {
    if actions == [] then n else Run(Next(n, actions[0]), actions[1..])
  }

  // The invariant

  /** No two ops were ever given the same id. */
  ghost predicate UniqueIds(ops: set<Op>) {
    forall a, b :: a in ops && b in ops && !a.Delete? && !b.Delete? && a.id == b.id ==> a == b
  }

  /** Whatever an op refers to was inserted by an op that was issued. */
  ghost predicate Grounded(ops: set<Op>) {
    forall op :: op in ops && Awaits(op).Some? ==> HasInsert(ops, Awaits(op).value)
  }

  /** Every id carries the name of a replica whose counter has reached it. */
  ghost predicate CountersCover(docs: map<string, Doc>, ops: set<Op>) {
    forall op :: op in ops && !op.Delete? ==>
      op.id.replicaId in docs && op.id.counter <= docs[op.id.replicaId].counter
  }

  ghost predicate Inv(n: Net) {
    && n.docs.Keys == n.got.Keys
    && (forall r :: r in n.docs ==> Exact(n.docs[r], n.got[r]) && n.got[r] <= n.issued)
    && UniqueIds(n.issued) && CausalOps(n.issued) && Grounded(n.issued)
    && CountersCover(n.docs, n.issued)
  }

  lemma {:induction false} UniqueIsCoherent(ops: set<Op>, part: set<Op>)
    requires UniqueIds(ops) && part <= ops
    ensures Coherent(part)
  {
  }

  lemma {:induction false} StartInv(names: set<string>)
    ensures Inv(Start(names))
  {
    ExactEmpty();
  }

  // Deliveries and restarts

  lemma {:induction false} DrainCounterGrows(d: Doc, queue: seq<Op>)
    ensures d.counter <= Drain(d, queue).counter
    decreases |queue| + PendingSize(d.pending), |queue|
  {
    if queue != [] {
      StepShrinks(d, queue[0]);
      DrainCounterGrows(Step(d, queue[0]).0, queue[1..] + Step(d, queue[0]).1);
    }
  }

  lemma {:induction false} ApplyAllCounterGrows(d: Doc, ops: seq<Op>)
    ensures d.counter <= ApplyAll(d, ops).counter
    decreases |ops|
  {
    if ops != [] {
      DrainCounterGrows(d, [ops[0]]);
      ApplyAllCounterGrows(Apply(d, ops[0]), ops[1..]);
    }
  }

  lemma {:induction false} DeliverKeepsInv(n: Net, r: string, op: Op)
    requires Inv(n) && r in n.docs && op in n.issued
    ensures Inv(Next(n, Deliver(r, op)))
  {
    assert Exact(n.docs[r], n.got[r]);
    UniqueIsCoherent(n.issued, n.got[r] + {op});
    ApplyExact(n.docs[r], op, n.got[r]);
    DrainCounterGrows(n.docs[r], [op]);
    UpdateKeepsInv(n, r, Apply(n.docs[r], op), n.got[r] + {op});
  }

  /** A replica that issues nothing. */
  lemma {:induction false} UpdateKeepsInv(n: Net, r: string, d: Doc, got: set<Op>)
    requires Inv(n) && r in n.docs && Exact(d, got) && got <= n.issued && n.docs[r].counter <= d.counter
    ensures Inv(n.(docs := n.docs[r := d], got := n.got[r := got]))
  {
    var docs, gots := n.docs[r := d], n.got[r := got];
    forall s | s in docs ensures Exact(docs[s], gots[s]) && gots[s] <= n.issued {
      if s != r { assert Exact(n.docs[s], n.got[s]); }
    }
    assert CountersCover(docs, n.issued);
    assert docs.Keys == gots.Keys;
  }

  lemma {:induction false} RestartKeepsInv(n: Net, r: string)
    requires Inv(n) && r in n.docs
    ensures Inv(Next(n, Restart(r)))
  {
    ResumeExact(n.docs[r], n.got[r]);
  }

  // Edits

  /** What a replica has in its list or waits for was inserted by an op that was issued. */
  ghost predicate Known(d: Doc, issued: set<Op>) {
    forall x :: x in d.cells || x in d.pending ==> HasInsert(issued, x)
  }

  lemma {:induction false} ExactIsKnown(d: Doc, got: set<Op>, issued: set<Op>)
    requires Exact(d, got) && got <= issued && Grounded(issued)
    ensures Known(d, issued) && Sound(d) && PendingOk(d)
  {
    ExactIsSound(d, got);
    forall x | x in d.cells || x in d.pending ensures HasInsert(issued, x) {
      if x in d.cells {
        var ins :| ins in got - PendingOps(d.pending) && ins.Insert? && ins.id == x;
        assert ins in issued;
      } else {
        var op := d.pending[x][0];
        assert op in d.pending[x] && op in PendingOps(d.pending) && op in issued;
        assert Awaits(op) == Some(x);
      }
    }
  }

  /** The ops of an edit: as many new ids as the counter advanced, in order. */
  ghost predicate Minted(ops: seq<Op>, r: string, before: nat, after: nat) {
    && after == before + |ops|
    && forall i :: 0 <= i < |ops| ==> !ops[i].Delete? && ops[i].id == OpId(before + 1 + i, r)
  }

  lemma {:induction false} MintedConcat(a: seq<Op>, b: seq<Op>, r: string, i: nat, j: nat, k: nat)
    requires Minted(a, r, i, j) && Minted(b, r, j, k)
    ensures Minted(a + b, r, i, k)
  {
  }

  /** The same characters, and the same of them deleted. */
  ghost predicate SameTombstones(d: Doc, e: Doc) {
    e.cells.Keys == d.cells.Keys && forall x :: x in d.cells ==> e.cells[x].tombstone == d.cells[x].tombstone
  }

  /** Format ops on characters that are not deleted. */
  ghost predicate OnLiving(ops: seq<Op>, d: Doc) {
    forall op :: op in ops ==> op.Format? && op.target in d.cells && !d.cells[op.target].tombstone
  }

  lemma {:induction false} FormatNodeMints(d: Doc, r: string, target: OpId, patch: Patch)
    requires target in d.cells
    ensures var (e, ops) := FormatNode(d, r, target, patch);
      && Minted(ops, r, d.counter, e.counter) && SameTombstones(d, e)
      && forall op :: op in ops ==> op.Format? && op.target == target
    decreases |patch|
  {
    if patch != [] {
      var (e, op) := FormatMark(d, r, target, patch[0].0, patch[0].1);
      FormatNodeMints(e, r, target, patch[1..]);
      var (f, ops) := FormatNode(e, r, target, patch[1..]);
      MintedConcat([op], ops, r, d.counter, e.counter, f.counter);
    }
  }

  lemma {:induction false} FormatAtMints(d: Doc, r: string, position: int, patch: Patch)
    requires NodeAt(d, position).Some?
    ensures var (e, ops) := FormatAt(d, r, position, patch);
      Minted(ops, r, d.counter, e.counter) && SameTombstones(d, e) && OnLiving(ops, d)
  {
    FormatNodeMints(d, r, NodeAt(d, position).value, patch);
  }

  lemma {:induction false} LivingConcat(d: Doc, e: Doc, f: Doc, ops: seq<Op>, more: seq<Op>)
    requires SameTombstones(d, e) && SameTombstones(e, f) && OnLiving(ops, d) && OnLiving(more, e)
    ensures SameTombstones(d, f) && OnLiving(ops + more, d)
  {
  }

  lemma {:induction false} LocalFormatMints(d: Doc, r: string, start: int, length: nat, patch: Patch)
    ensures var (e, ops) := LocalFormat(d, r, start, length, patch);
      Minted(ops, r, d.counter, e.counter) && SameTombstones(d, e) && OnLiving(ops, d)
    decreases length
  {
    LocalFormatNext(d, r, start, length, patch);
    if length > 0 && NodeAt(d, start).Some? {
      FormatAtMints(d, r, start, patch);
      var (e, ops) := FormatAt(d, r, start, patch);
      LocalFormatMints(e, r, start + 1, length - 1, patch);
      var (f, more) := LocalFormat(e, r, start + 1, length - 1, patch);
      MintedConcat(ops, more, r, d.counter, e.counter, f.counter);
      LivingConcat(d, e, f, ops, more);
    }
  }

  /** The ids a replica has given out so far. */
  ghost predicate OwnIdsBelow(issued: set<Op>, r: string, n: nat) {
    forall op :: op in issued && !op.Delete? && op.id.replicaId == r ==> op.id.counter <= n
  }

  /** New ids keep the ids of all issued ops unique. */
  lemma {:induction false} MintedKeepsUnique(issued: set<Op>, r: string, ops: seq<Op>, before: nat, after: nat)
    requires UniqueIds(issued) && OwnIdsBelow(issued, r, before) && Minted(ops, r, before, after)
    ensures UniqueIds(issued + OpSet(ops))
  {
  }

  lemma {:induction false} MoreOpsStayGrounded(ops: set<Op>, more: set<Op>)
    requires Grounded(ops) && forall op :: op in more && Awaits(op).Some? ==> HasInsert(ops, Awaits(op).value)
    ensures Grounded(ops + more)
  {
  }

  /** The net after a replica made `ops` and moved on to `e`. */
  ghost function After(n: Net, r: string, e: Doc, ops: seq<Op>): Net
    requires r in n.got
  {
    Net(n.docs[r := e], n.got[r := n.got[r] + OpSet(ops)], n.issued + OpSet(ops))
  }

  /** What an edit does is what the delivery of its ops would do; they are new, causal and about known characters. */
  ghost predicate EditOf(d: Doc, r: string, e: Doc, ops: seq<Op>, issued: set<Op>) {
    && e == ApplyAll(d, ops)
    && UniqueIds(issued + OpSet(ops))
    && (forall op :: op in ops && Awaits(op).Some? ==> HasInsert(issued, Awaits(op).value))
    && (forall op :: op in ops && op.Insert? && op.origin.Some? ==> Less(op.origin.value, op.id))
    && (forall op :: op in ops && !op.Delete? ==> op.id.replicaId == r && op.id.counter <= e.counter)
  }

  lemma {:induction false} EditKeepsInv(n: Net, r: string, e: Doc, ops: seq<Op>)
    requires Inv(n) && r in n.docs && EditOf(n.docs[r], r, e, ops, n.issued)
    ensures Inv(After(n, r, e, ops))
  {
    var m := After(n, r, e, ops);
    UniqueIsCoherent(m.issued, n.got[r] + OpSet(ops));
    ApplyAllExact(n.docs[r], ops, n.got[r]);
    MoreOpsStayGrounded(n.issued, OpSet(ops));
    ApplyAllCounterGrows(n.docs[r], ops);
  }

  lemma {:induction false} ApplyAllOne(d: Doc, op: Op)
    ensures ApplyAll(d, [op]) == Apply(d, op)
  {
  }

  lemma {:induction false} TypeIsEdit(d: Doc, r: string, index: int, value: string, attrs: Marks, issued: set<Op>)
    requires Sound(d) && PendingOk(d) && Known(d, issued) && UniqueIds(issued) && OwnIdsBelow(issued, r, d.counter)
    ensures var (e, ops) := React(d, r, Type(index, value, attrs)); EditOf(d, r, e, ops, issued)
  {
    var op := InsertOpAt(d, r, index, value, attrs);
    NextIdIsNew(d, r);
    MintedKeepsUnique(issued, r, [op], d.counter, d.counter + 1);
    assert !HasInsert(issued, op.id);
    LocalInsertAgrees(d, r, index, value, attrs);
    ApplyAllOne(d, op);
  }

  lemma {:induction false} EraseIsEdit(d: Doc, r: string, index: int, issued: set<Op>)
    requires Known(d, issued) && UniqueIds(issued)
    ensures var (e, ops) := React(d, r, Erase(index)); EditOf(d, r, e, ops, issued)
  {
    if LocalDelete(d, index).Some? {
      LocalDeleteAgrees(d, index);
      ApplyAllOne(d, LocalDelete(d, index).value.1);
    }
  }

  lemma {:induction false} MarkIsEdit(d: Doc, r: string, start: int, length: nat, patch: Patch, issued: set<Op>)
    requires Known(d, issued) && UniqueIds(issued) && OwnIdsBelow(issued, r, d.counter)
    ensures var (e, ops) := React(d, r, Mark(start, length, patch)); EditOf(d, r, e, ops, issued)
  {
    var (e, ops) := LocalFormat(d, r, start, length, patch);
    LocalFormatMints(d, r, start, length, patch);
    LocalFormatAgrees(d, r, start, length, patch);
    MintedKeepsUnique(issued, r, ops, d.counter, e.counter);
  }

  lemma {:induction false} LocalKeepsInv(n: Net, r: string, event: Event)
    requires Inv(n) && r in n.docs && IsEdit(event)
    ensures Inv(Next(n, Local(r, event)))
  {
    var d, issued := n.docs[r], n.issued;
    assert Exact(d, n.got[r]);
    ExactIsKnown(d, n.got[r], issued);
    match event {
      case Type(index, value, attrs) => TypeIsEdit(d, r, index, value, attrs, issued);
      case Erase(index) => EraseIsEdit(d, r, index, issued);
      case Mark(start, length, patch) => MarkIsEdit(d, r, start, length, patch, issued);
    }
    EditKeepsInv(n, r, React(d, r, event).0, React(d, r, event).1);
  }

  lemma {:induction false} NextKeepsInv(n: Net, a: Action)
    requires Inv(n)
    ensures Inv(Next(n, a)) && Next(n, a).docs.Keys == n.docs.Keys
  {
    var r := a.replica;
    if r in n.docs {
      match a
      case Local(_, event) =>
        if IsEdit(event) { LocalKeepsInv(n, r, event); }
      case Deliver(_, op) => if op in n.issued { DeliverKeepsInv(n, r, op); }
      case Restart(_) => RestartKeepsInv(n, r);
    }
  }

  lemma {:induction false} RunKeepsInv(n: Net, actions: seq<Action>)
    requires Inv(n)
    ensures Inv(Run(n, actions)) && Run(n, actions).docs.Keys == n.docs.Keys
    decreases |actions|
  {
    if actions != [] {
      NextKeepsInv(n, actions[0]);
      RunKeepsInv(Next(n, actions[0]), actions[1..]);
    }
  }

  /** Along every run ids are unique, greater than the ids they refer to, and refer to what was issued. */
  lemma {:induction false} IdsOfARun(names: set<string>, actions: seq<Action>)
    ensures var n := Run(Start(names), actions);
      UniqueIds(n.issued) && CausalOps(n.issued) && Grounded(n.issued)
  {
    StartInv(names);
    RunKeepsInv(Start(names), actions);
  }

  lemma {:induction false} ReplicaIsPreOrder(n: Net, r: string)
    requires Inv(n) && r in n.docs
    ensures Causal(OriginsOf(n.docs[r].cells)) && n.docs[r].order == PreOrder(OriginsOf(n.docs[r].cells))
  {
    assert Exact(n.docs[r], n.got[r]) && CausalOps(n.got[r]);
    ListIsPreOrder(n.docs[r], n.got[r]);
  }

  lemma {:induction false} ReplicasAgree(n: Net, r: string, s: string)
    requires Inv(n) && r in n.docs && s in n.docs && n.got[r] == n.got[s]
    ensures n.docs[r].order == n.docs[s].order && n.docs[r].cells == n.docs[s].cells
    ensures n.docs[r].counter == n.docs[s].counter && Contents(n.docs[r]) == Contents(n.docs[s])
  {
    assert Exact(n.docs[r], n.got[r]) && Exact(n.docs[s], n.got[s]);
    UniqueIsCoherent(n.issued, n.got[r]);
    Determined(n.docs[r], n.docs[s], n.got[r]);
  }

  /**
   Strong convergence over whole runs: any two replicas that have the same set of ops hold the same list,
   the same tombstones, marks and clocks and the same counter, and show the same text; and every
   replica's list is the pre-order walk of its origin tree.
   */
  lemma {:induction false} RunsConverge(names: set<string>, actions: seq<Action>, r: string, s: string)
    requires r in names && s in names
    ensures var n := Run(Start(names), actions);
      && r in n.docs && s in n.docs && r in n.got && s in n.got
      && (n.got[r] == n.got[s] ==>
        && n.docs[r].order == n.docs[s].order && n.docs[r].cells == n.docs[s].cells
        && n.docs[r].counter == n.docs[s].counter && Contents(n.docs[r]) == Contents(n.docs[s]))
      && Causal(OriginsOf(n.docs[r].cells)) && n.docs[r].order == PreOrder(OriginsOf(n.docs[r].cells))
  {
    StartInv(names);
    RunKeepsInv(Start(names), actions);
    var n := Run(Start(names), actions);
    if n.got[r] == n.got[s] { ReplicasAgree(n, r, s); }
    ReplicaIsPreOrder(n, r);
  }
}
