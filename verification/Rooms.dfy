/** The live state of a document on the server (apps/server/src/room.ts). */
module Rooms {
  import opened Ids
  import opened Ops
  import opened Document
  import opened Delivery
  import opened Snapshots
  import opened Batches
  import opened Wire

  // What a room was given, and how replicas that come back catch up.

  datatype RoomState = RoomState(doc: Doc, seqNo: nat, opsSinceSnapshot: nat, log: seq<Batch>, floor: nat)

  const NEW_ROOM := RoomState(EMPTY, 0, 0, [], 0)

  /** hydrate: a persisted snapshot plus the batches that were stored with it. */
  ghost function Hydrated(nodes: seq<SnapshotNode>, snapshotSeq: nat, batches: seq<Batch>, latestSeq: nat): RoomState {
    RoomState(ApplyAll(FromSnapshot(nodes), Flatten(batches)), latestSeq, |Flatten(batches)|, batches, snapshotSeq)
  }

  /** getOpsSince: what a replica at `since` is missing; None if memory does not reach back that far. */
  function OpsSince(r: RoomState, since: int): Option<seq<Op>> {
    if since >= r.seqNo then Some([])
    else if since < r.floor then None
    else Some(Flatten(Batches.After(r.log, since)))
  }

  /** The answer to a join: the missing ops, or the whole document when memory does not reach back. */
  function ReplyTo(r: RoomState, since: int): ServerMessage {
    if OpsSince(r, since).Some? then SyncMessage(r.seqNo, OpsSince(r, since).value)
    else SnapshotMessage(r.seqNo, SnapshotOf(r.doc))
  }

  /** applyOps: the number is assigned, not merely raised. */
  function Feed(r: RoomState, ops: seq<Op>, seqNo: nat): RoomState {
    RoomState(ApplyAll(r.doc, ops), seqNo, r.opsSinceSnapshot + |ops|, r.log + [Batch(seqNo, ops)], r.floor)
  }

  /** advanceCoverageFloor. */
  function RaiseFloor(r: RoomState, atSeq: nat): RoomState {
    r.(floor := atSeq, log := Batches.After(r.log, atSeq), opsSinceSnapshot := 0)
  }

  function CompactRoom(r: RoomState): RoomState {
    r.(doc := Compact(r.doc))
  }

  // What a room has been fed

  /** The batches with a number up to `s`. */
  function UpTo(batches: seq<Batch>, s: int): seq<Batch> {
    if batches == [] then []
    else if batches[0].seqNo <= s then [batches[0]] + UpTo(batches[1..], s)
    else UpTo(batches[1..], s)
  }

  ghost function OpsIn(batches: seq<Batch>): set<Op> {
    OpSet(Flatten(batches))
  }

  /** Of the batches `fed`, the log has all above the floor. */
  ghost predicate Logs(r: RoomState, fed: seq<Batch>) {
    Batches.After(r.log, r.floor) == Batches.After(fed, r.floor)
  }

  /**
   The room started from a document that shows `base` and has since been fed the batches `fed`, none of
   which has a number above its own; its log reaches down to its floor.
   */
  ghost predicate Serves(r: RoomState, base: set<Op>, fed: seq<Batch>) {
    && Holds(r.doc, base + OpsIn(fed))
    && (forall i :: 0 <= i < |fed| ==> fed[i].seqNo <= r.seqNo)
    && Logs(r, fed)
  }

  lemma {:induction false} OpsInAppend(a: seq<Batch>, b: seq<Batch>)
    ensures OpsIn(a + b) == OpsIn(a) + OpsIn(b)
  {
    FlattenAppend(a, b);
  }

  lemma {:induction false} RegroupBatches(a: seq<Batch>, b: seq<Batch>, c: seq<Batch>)
    ensures a + (b + c) == (a + b) + c
  {
  }

  lemma {:induction false} AfterAppend(a: seq<Batch>, b: seq<Batch>, s: int)
    ensures Batches.After(a + b, s) == Batches.After(a, s) + Batches.After(b, s)
  {
    if a == [] {
      assert a + b == b;
    } else {
      AfterAppend(a[1..], b, s);
      assert (a + b)[1..] == a[1..] + b && (a + b)[0] == a[0];
      RegroupBatches([a[0]], Batches.After(a[1..], s), Batches.After(b, s));
    }
  }

  lemma {:induction false} AfterAfter(batches: seq<Batch>, s: int, t: int)
    requires s <= t
    ensures Batches.After(Batches.After(batches, s), t) == Batches.After(batches, t)
  {
    if batches != [] {
      AfterAfter(batches[1..], s, t);
      if batches[0].seqNo > s {
        assert Batches.After(batches, s)[1..] == Batches.After(batches[1..], s);
      }
    }
  }

  lemma {:induction false} OpsInHead(batches: seq<Batch>)
    requires batches != []
    ensures OpsIn(batches) == OpSet(batches[0].ops) + OpsIn(batches[1..])
  {
  }

  /** Every batch is on one side or the other. */
  lemma {:induction false} UpToOrAfter(batches: seq<Batch>, s: int)
    ensures OpsIn(UpTo(batches, s)) + OpsIn(Batches.After(batches, s)) == OpsIn(batches)
  {
    if batches != [] {
      UpToOrAfter(batches[1..], s);
      OpsInHead(batches);
      OpsInAppend([batches[0]], UpTo(batches[1..], s));
      OpsInAppend([batches[0]], Batches.After(batches[1..], s));
      FlattenOne(batches[0]);
    }
  }

  lemma {:induction false} AllUpTo(batches: seq<Batch>, s: int)
    requires forall i :: 0 <= i < |batches| ==> batches[i].seqNo <= s
    ensures UpTo(batches, s) == batches && Batches.After(batches, s) == []
  {
    if batches != [] {
      assert batches == [batches[0]] + batches[1..];
      AllUpTo(batches[1..], s);
    }
  }

  // Every operation of a room keeps the invariant

  lemma {:induction false} NewRoomServes()
    ensures Serves(NEW_ROOM, {}, [])
  {
    HoldsEmpty();
    assert {} + OpsIn([]) == {};
  }

  lemma {:induction false} FeedHolds(r: RoomState, ops: seq<Op>, seqNo: nat, base: set<Op>, fed: seq<Batch>)
    requires Holds(r.doc, base + OpsIn(fed)) && Coherent(base + OpsIn(fed) + OpSet(ops))
    ensures Holds(Feed(r, ops, seqNo).doc, base + OpsIn(fed + [Batch(seqNo, ops)]))
  {
    var b := Batch(seqNo, ops);
    OpsInAppend(fed, [b]);
    FlattenOne(b);
    assert base + OpsIn(fed + [b]) == base + OpsIn(fed) + OpSet(ops);
    HoldsApplyAll(r.doc, ops, base + OpsIn(fed));
  }

  lemma {:induction false} FeedServes(r: RoomState, ops: seq<Op>, seqNo: nat, base: set<Op>, fed: seq<Batch>)
    requires Serves(r, base, fed) && r.seqNo <= seqNo && Coherent(base + OpsIn(fed) + OpSet(ops))
    ensures Serves(Feed(r, ops, seqNo), base, fed + [Batch(seqNo, ops)])
  {
    FeedHolds(r, ops, seqNo, base, fed);
    FeedLogs(r, ops, seqNo, fed);
  }

  lemma {:induction false} FeedLogs(r: RoomState, ops: seq<Op>, seqNo: nat, fed: seq<Batch>)
    requires Logs(r, fed)
    ensures Logs(Feed(r, ops, seqNo), fed + [Batch(seqNo, ops)])
  {
    AfterAppend(fed, [Batch(seqNo, ops)], r.floor);
    AfterAppend(r.log, [Batch(seqNo, ops)], r.floor);
  }

  lemma {:induction false} RaiseFloorLogs(r: RoomState, atSeq: nat, fed: seq<Batch>)
    requires Logs(r, fed) && r.floor <= atSeq
    ensures Logs(RaiseFloor(r, atSeq), fed)
  {
    AfterAfter(r.log, r.floor, atSeq);
    AfterAfter(fed, r.floor, atSeq);
    AfterAfter(r.log, atSeq, atSeq);
  }

  lemma {:induction false} RaiseFloorServes(r: RoomState, atSeq: nat, base: set<Op>, fed: seq<Batch>)
    requires Serves(r, base, fed) && r.floor <= atSeq
    ensures Serves(RaiseFloor(r, atSeq), base, fed)
  {
    RaiseFloorLogs(r, atSeq, fed);
  }

  lemma {:induction false} CompactServes(r: RoomState, base: set<Op>, fed: seq<Batch>)
    requires Serves(r, base, fed)
    ensures Serves(CompactRoom(r), base, fed)
  {
    HoldsCompact(r.doc, base + OpsIn(fed));
  }

  lemma {:induction false} HydratedServes(nodes: seq<SnapshotNode>, snapshotSeq: nat, batches: seq<Batch>,
                                          latestSeq: nat, base: set<Op>)
    requires Holds(FromSnapshot(nodes), base) && Coherent(base + OpsIn(batches))
    requires forall i :: 0 <= i < |batches| ==> batches[i].seqNo <= latestSeq
    ensures Serves(Hydrated(nodes, snapshotSeq, batches, latestSeq), base, batches)
  {
    HoldsApplyAll(FromSnapshot(nodes), Flatten(batches), base);
  }

  // A room's whole life

  datatype RoomEvent =
    | Batched(ops: seq<Op>, seqNo: nat)
    | Snapshotted(atSeq: nat)
    | Compacted

  function AfterEvent(r: RoomState, e: RoomEvent): RoomState {
    match e
    case Batched(ops, seqNo) => Feed(r, ops, seqNo)
    case Snapshotted(atSeq) => RaiseFloor(r, atSeq)
    case Compacted => CompactRoom(r)
  }

  /** The room after the events, and the batches among them. */
  function Lived(r: RoomState, events: seq<RoomEvent>): RoomState
    decreases |events|
  {
    if events == [] then r else Lived(AfterEvent(r, events[0]), events[1..])
  }

  function BatchesOf(events: seq<RoomEvent>): seq<Batch> {
    if events == [] then []
    else (if events[0].Batched? then [Batch(events[0].seqNo, events[0].ops)] else []) + BatchesOf(events[1..])
  }

  /** Numbers of batches never go down, nor does the floor. */
  predicate Orderly(r: RoomState, events: seq<RoomEvent>)
    decreases |events|
  {
    events == [] ||
      (&& (events[0].Batched? ==> r.seqNo <= events[0].seqNo) && (events[0].Snapshotted? ==> r.floor <= events[0].atSeq)
       && Orderly(AfterEvent(r, events[0]), events[1..]))
  }

  /** Through its whole life a room shows what it was given and can answer from its floor up. */
  lemma {:induction false} LifeServes(r: RoomState, events: seq<RoomEvent>, base: set<Op>, fed: seq<Batch>)
    requires Serves(r, base, fed) && Orderly(r, events) && Coherent(base + OpsIn(fed + BatchesOf(events)))
    ensures Serves(Lived(r, events), base, fed + BatchesOf(events))
    decreases |events|
  {
    if events == [] {
      assert fed + [] == fed;
    } else {
      var rest := BatchesOf(events[1..]);
      match events[0]
      case Batched(ops, seqNo) =>
        var b := Batch(seqNo, ops);
        RegroupBatches(fed, [b], rest);
        OpsInAppend(fed + [b], rest);
        OpsInAppend(fed, [b]);
        FlattenOne(b);
        CoherentPart(base + OpsIn(fed + BatchesOf(events)), base + OpsIn(fed) + OpSet(ops));
        FeedServes(r, ops, seqNo, base, fed);
        LifeServes(Feed(r, ops, seqNo), events[1..], base, fed + [b]);
      case Snapshotted(atSeq) =>
        assert [] + rest == rest;
        RaiseFloorServes(r, atSeq, base, fed);
        LifeServes(RaiseFloor(r, atSeq), events[1..], base, fed);
      case Compacted =>
        assert [] + rest == rest;
        CompactServes(r, base, fed);
        LifeServes(CompactRoom(r), events[1..], base, fed);
    }
  }

  // When a snapshot is due

  predicate NoSnapshot(events: seq<RoomEvent>) {
    forall i :: 0 <= i < |events| ==> !events[i].Snapshotted?
  }

  /** The events after the last snapshot. */
  function SinceSnapshot(events: seq<RoomEvent>): seq<RoomEvent> {
    if NoSnapshot(events) then events else SinceSnapshot(events[1..])
  }

  lemma {:induction false} CountsAll(r: RoomState, events: seq<RoomEvent>)
    requires NoSnapshot(events)
    ensures Lived(r, events).opsSinceSnapshot == r.opsSinceSnapshot + |Flatten(BatchesOf(events))|
    decreases |events|
  {
    if events != [] {
      CountsAll(AfterEvent(r, events[0]), events[1..]);
      if events[0].Batched? {
        FlattenAppend([Batch(events[0].seqNo, events[0].ops)], BatchesOf(events[1..]));
        FlattenOne(Batch(events[0].seqNo, events[0].ops));
      } else {
        assert [] + BatchesOf(events[1..]) == BatchesOf(events[1..]);
      }
    }
  }

  /** The count that decides when a snapshot is due is that of the ops that came in after the last one. */
  lemma {:induction false} CountsSinceSnapshot(r: RoomState, events: seq<RoomEvent>)
    ensures Lived(r, events).opsSinceSnapshot ==
      (if NoSnapshot(events) then r.opsSinceSnapshot else 0) + |Flatten(BatchesOf(SinceSnapshot(events)))|
    decreases |events|
  {
    if NoSnapshot(events) {
      CountsAll(r, events);
    } else {
      CountsSinceSnapshot(AfterEvent(r, events[0]), events[1..]);
    }
  }

  /** Two documents that show the same to the user. */
  ghost predicate LooksLike(d: Doc, e: Doc) {
    Visible(d) == Visible(e) && Glyphs(d) == Glyphs(e) && Read(d) == Read(e) && Contents(d) == Contents(e)
  }

  /** The log holds every batch above the floor. */
  lemma {:induction false} LogIsComplete(r: RoomState, base: set<Op>, fed: seq<Batch>, b: Batch)
    requires Serves(r, base, fed) && b in fed && b.seqNo > r.floor
    ensures b in r.log
  {
    InAfter(fed, r.floor, b);
    InAfter(r.log, r.floor, b);
  }

  lemma {:induction false} InAfter(batches: seq<Batch>, s: int, b: Batch)
    ensures b in Batches.After(batches, s) <==> b in batches && b.seqNo > s
  {
    if batches != [] {
      InAfter(batches[1..], s, b);
      assert batches == [batches[0]] + batches[1..];
    }
  }

  /** The answer to a replica at `since`, in terms of what the room was fed. */
  lemma {:induction false} OpsSinceIsTheRest(r: RoomState, base: set<Op>, fed: seq<Batch>, since: int)
    requires Serves(r, base, fed)
    ensures OpsSince(r, since).None? <==> since < r.floor && since < r.seqNo
    ensures OpsSince(r, since).Some? ==> OpsIn(UpTo(fed, since)) + OpSet(OpsSince(r, since).value) == OpsIn(fed)
  {
    UpToOrAfter(fed, since);
    if since >= r.seqNo {
      AllUpTo(fed, since);
    } else if since >= r.floor {
      AfterAfter(r.log, r.floor, since);
      AfterAfter(fed, r.floor, since);
    }
  }

  /**
   Catch-up: a replica that holds everything up to `since`, and perhaps more of what the room has, shows the
   room's document once it has applied the answer; when there is none, the room's snapshot shows it.
   */
  lemma {:induction false} CatchUp(r: RoomState, base: set<Op>, fed: seq<Batch>, d: Doc, known: set<Op>, since: int)
    requires Serves(r, base, fed) && Coherent(base + OpsIn(fed))
    requires Holds(d, known) && base + OpsIn(UpTo(fed, since)) <= known <= base + OpsIn(fed)
    ensures match OpsSince(r, since)
      case Some(ops) =>
        Holds(ApplyAll(d, ops), base + OpsIn(fed)) && LooksLike(ApplyAll(d, ops), r.doc)
      case None =>
        (forall x :: x in r.doc.order ==> x in r.doc.cells) && LooksLike(FromSnapshot(ToSnapshot(r.doc)), r.doc)
  {
    var all := base + OpsIn(fed);
    OpsSinceIsTheRest(r, base, fed, since);
    if OpsSince(r, since).Some? {
      var ops := OpsSince(r, since).value;
      assert known + OpSet(ops) == all;
      HoldsApplyAll(d, ops, known);
      HoldsDetermines(ApplyAll(d, ops), r.doc, all);
    } else {
      SnapshotLooksLike(r.doc, all);
    }
  }

  /** A snapshot shows what the document shows, buffered ops or not. */
  lemma {:induction false} SnapshotLooksLike(d: Doc, ops: set<Op>)
    requires Holds(d, ops)
    ensures (forall x :: x in d.order ==> x in d.cells) && LooksLike(FromSnapshot(ToSnapshot(d)), d)
  {
    HoldsSnapshot(d, ops);
    HoldsListed(d, ops);
    RestoredListAndIndex(d);
  }

  lemma {:induction false} NothingBehind(batches: seq<Batch>, s: int, t: int)
    requires s <= t && Flatten(Batches.After(batches, s)) == []
    ensures Flatten(Batches.After(batches, t)) == []
  {
    if batches != [] { NothingBehind(batches[1..], s, t); }
  }

  /** Every answer is complete iff no op that the room was fed has a number above the room's own. */
  lemma {:induction false} AnswersAreCompleteIff(r: RoomState, fed: seq<Batch>)
    requires Logs(r, fed) && r.floor <= r.seqNo
    ensures (forall s :: s >= r.floor ==> OpsSince(r, s) == Some(Flatten(Batches.After(fed, s))))
      <==> Flatten(Batches.After(fed, r.seqNo)) == []
  {
    assert OpsSince(r, r.seqNo) == Some([]);
    if Flatten(Batches.After(fed, r.seqNo)) == [] {
      forall s | s >= r.floor ensures OpsSince(r, s) == Some(Flatten(Batches.After(fed, s))) {
        if s >= r.seqNo {
          NothingBehind(fed, r.seqNo, s);
        } else {
          AfterAfter(r.log, r.floor, s);
          AfterAfter(fed, r.floor, s);
        }
      }
    }
  }

  /** As when a smaller number comes after a greater one: a replica at 1 is told that it lacks nothing. */
  lemma {:induction false} SmallerNumberHidesABatch(x: Op, y: Op)
    ensures var fed, r := [Batch(2, [x]), Batch(1, [y])], Feed(Feed(NEW_ROOM, [x], 2), [y], 1);
      && Logs(r, fed) && OpsSince(r, 1) == Some([]) && Flatten(Batches.After(fed, 1)) == [x]
  {
    var fed, r := [Batch(2, [x]), Batch(1, [y])], Feed(Feed(NEW_ROOM, [x], 2), [y], 1);
    assert r.log == fed && fed[1..] == [Batch(1, [y])] && fed[1..][1..] == [];
    assert Batches.After(fed[1..], 1) == [];
    FlattenOne(Batch(2, [x]));
  }

  lemma {:induction false} LifeFromStart(events: seq<RoomEvent>)
    requires Orderly(NEW_ROOM, events) && Coherent({} + OpsIn(BatchesOf(events)))
    ensures Serves(Lived(NEW_ROOM, events), {}, BatchesOf(events))
  {
    assert [] + BatchesOf(events) == BatchesOf(events);
    NewRoomServes();
    LifeServes(NEW_ROOM, events, {}, []);
  }

  lemma {:induction false} NothingBefore(ops: set<Op>)
    ensures {} + ops == ops
  {
  }

  /** So from an empty document on, at any moment of such a life, a replica that comes back catches up. */
  lemma {:induction false} CatchUpAnyTime(events: seq<RoomEvent>, d: Doc, known: set<Op>, since: int)
    requires Orderly(NEW_ROOM, events) && Coherent(OpsIn(BatchesOf(events))) && Holds(d, known)
    requires OpsIn(UpTo(BatchesOf(events), since)) <= known <= OpsIn(BatchesOf(events))
    ensures var r := Lived(NEW_ROOM, events);
      && Holds(r.doc, OpsIn(BatchesOf(events)))
      && match OpsSince(r, since)
         case Some(ops) => LooksLike(ApplyAll(d, ops), r.doc)
         case None => LooksLike(FromSnapshot(SnapshotOf(r.doc)), r.doc)
  {
    var fed := BatchesOf(events);
    NothingBefore(OpsIn(fed));
    NothingBefore(OpsIn(UpTo(fed, since)));
    LifeFromStart(events);
    CatchUp(Lived(NEW_ROOM, events), {}, fed, d, known, since);
  }
}
