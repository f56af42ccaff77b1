/** Order stability (packages/crdt/src/rga.ts, `apply`, `integrate`). */
module Stability {
  import opened Ids
  import opened Ops
  import opened Order
  import opened Arrival
  import opened Document
  import opened Delivery
  import opened Edits
  import opened Snapshots

  // Whatever happens to a replica, no character leaves the list, comes back to life or changes sides with another
  // one, and every character stays behind the one it was typed after.

  predicate Before(order: seq<OpId>, a: OpId, b: OpId) {
    IndexOf(order, a) < IndexOf(order, b) < |order|
  }

  ghost predicate KeepsOrder(s: seq<OpId>, r: seq<OpId>) {
    forall a, b :: Before(s, a, b) ==> Before(r, a, b)
  }

  /** A character of `cells` is still there, typed after the same one, and deleted if it was deleted. */
  ghost predicate KeepsCells(cells: map<OpId, Cell>, cells': map<OpId, Cell>) {
    forall x :: x in cells ==>
      x in cells' && cells'[x].origin == cells[x].origin && (cells[x].tombstone ==> cells'[x].tombstone)
  }

  ghost predicate Grows(d: Doc, e: Doc) {
    KeepsOrder(d.order, e.order) && KeepsCells(d.cells, e.cells)
  }

  /** Every character stands behind its origin. */
  ghost predicate OriginsFirst(d: Doc) {
    forall x :: x in d.cells && d.cells[x].origin.Some? ==> Before(d.order, d.cells[x].origin.value, x)
  }

  lemma {:induction false} InIsIndexed(s: seq<OpId>, x: OpId)
    ensures x in s <==> IndexOf(s, x) < |s|
  {
  }

  lemma {:induction false} PlaceGrows(s: seq<OpId>, x: OpId, o: Option<OpId>)
    requires Distinct(s) && x !in s
    requires o.Some? ==> o.value in s
    ensures KeepsOrder(s, Place(s, x, o))
    ensures o.Some? ==> Before(Place(s, x, o), o.value, x)
  {
    var r := Place(s, x, o);
    PlaceElements(s, x, o);
    PlaceKeepsOrder(s, x, o);
    forall a, b | Before(s, a, b) ensures Before(r, a, b) {
      InIsIndexed(s, a);
      InIsIndexed(s, b);
      InIsIndexed(r, b);
    }
    InIsIndexed(r, x);
  }

  lemma {:induction false} WeaveOriginsFirst(t: Origins, h: History, x: OpId)
    requires Ready(t, h) && x in Arrived(h) && t[x].Some?
    ensures Before(Weave(t, h), t[x].value, x)
  {
    WeaveElements(t, h.before);
    PlaceGrows(Weave(t, h.before), h.id, t[h.id]);
    if x != h.id { WeaveOriginsFirst(t, h.before, x); }
  }

  lemma {:induction false} ListedOriginsFirst(d: Doc)
    requires Listed(d)
    ensures OriginsFirst(d)
  {
    var t := OriginsOf(d.cells);
    var h :| Explains(h, t, d.order);
    forall x | x in d.cells && d.cells[x].origin.Some? ensures Before(d.order, d.cells[x].origin.value, x) {
      WeaveOriginsFirst(t, h, x);
    }
  }

  lemma {:induction false} IntegrateGrows(d: Doc, op: Op)
    requires Listed(d) && op.Insert? && op.id !in d.cells
    requires op.origin.Some? ==> op.origin.value in d.cells
    ensures Grows(d, Integrate(d, op))
  {
    ListElements(d);
    PlaceGrows(d.order, op.id, op.origin);
  }

  lemma {:induction false} StepGrows(d: Doc, op: Op)
    requires Listed(d)
    ensures Grows(d, Step(d, op).0)
  {
    if op.Insert? && op.id !in d.cells && (op.origin.Some? ==> op.origin.value in d.cells) { IntegrateGrows(d, op); }
  }

  lemma {:induction false} GrowsOn(a: Doc, b: Doc, c: Doc)
    requires Grows(a, b) && Grows(b, c)
    ensures Grows(a, c)
  {
  }

  lemma {:induction false} DrainGrows(d: Doc, queue: seq<Op>)
    requires Listed(d)
    ensures Grows(d, Drain(d, queue))
    decreases |queue| + PendingSize(d.pending), |queue|
  {
    if queue != [] {
      var (e, released) := Step(d, queue[0]);
      StepShrinks(d, queue[0]);
      StepGrows(d, queue[0]);
      StepKeepsListed(d, queue[0]);
      DrainGrows(e, queue[1..] + released);
      GrowsOn(d, e, Drain(d, queue));
    }
  }

  lemma {:induction false} ReactGrows(d: Doc, replicaId: string, event: Event)
    requires Sound(d)
    ensures Sound(React(d, replicaId, event).0) && Grows(d, React(d, replicaId, event).0)
  {
    match event
    case Receive(op) =>
      DrainKeepsSound(d, [op]);
      DrainGrows(d, [op]);
    case Type(index, value, attrs) =>
      LocalInsertKeepsSound(d, replicaId, index, value, attrs);
      ListElements(d);
      NextIdIsNew(d, replicaId);
      IntegrateGrows(d, InsertOpAt(d, replicaId, index, value, attrs));
    case Erase(index) =>
      if LocalDelete(d, index).Some? { LocalDeleteKeepsSound(d, index); }
    case Mark(start, length, patch) =>
      LocalFormatPatches(d, replicaId, start, length, patch);
      LocalFormatGrows(d, replicaId, start, length, patch);
    case Compaction => CompactKeepsSound(d);
  }

  lemma {:induction false} ApplyAllGrows(d: Doc, ops: seq<Op>)
    requires Sound(d)
    ensures Grows(d, ApplyAll(d, ops))
    decreases |ops|
  {
    if ops != [] {
      DrainGrows(d, [ops[0]]);
      DrainKeepsSound(d, [ops[0]]);
      ApplyAllGrows(Apply(d, ops[0]), ops[1..]);
      GrowsOn(d, Apply(d, ops[0]), ApplyAll(d, ops));
    }
  }

  lemma {:induction false} LocalFormatGrows(d: Doc, replicaId: string, start: int, length: nat, patch: Patch)
    requires Sound(d)
    ensures Grows(d, LocalFormat(d, replicaId, start, length, patch).0)
  {
    LocalFormatAgrees(d, replicaId, start, length, patch);
    ApplyAllGrows(d, LocalFormat(d, replicaId, start, length, patch).1);
  }

  /** Through any deliveries, edits and compactions the list only grows, and origins stay in front. */
  lemma {:induction false} OrderIsStable(d: Doc, replicaId: string, events: seq<Event>)
    requires Sound(d)
    ensures var e := Live(d, replicaId, events).0; Sound(e) && Grows(d, e) && OriginsFirst(e)
    decreases |events|
  {
    if events == [] {
      ListedOriginsFirst(d);
    } else {
      var (e, _) := React(d, replicaId, events[0]);
      ReactGrows(d, replicaId, events[0]);
      OrderIsStable(e, replicaId, events[1..]);
      GrowsOn(d, e, Live(e, replicaId, events[1..]).0);
    }
  }
}
