/**
 What keeps a replica's document exactly what the ops it was given amount to while it receives and edits: every op of
 its own is in its hands or its id is covered by the counter, and what it issues is coherent with all that was issued.
 And why the latter is so: as long as the ids of its own inserts, and of its own format ops on living characters, are
 covered, it gives out new ones (packages/crdt/src/rga.ts, `fromSnapshot`, `nextId`).
 */
module FreshIds {
  import opened Ids
  import opened Ops
  import opened Document
  import opened Delivery
  import opened Edits
  import opened Snapshots
  import opened Stability
  import opened Runs
  import opened Editor
  import opened IdReuse

  /** The id cannot be given out again for the same thing. */
  ghost predicate IdCovered(d: Doc, op: Op) {
    match op
    case Insert(id, _, _, _) => id.counter <= d.counter
    case Format(id, target, _, _) => id.counter <= d.counter || (target in d.cells && d.cells[target].tombstone)
    case Delete(_) => true
  }

  ghost predicate OwnIdsCovered(d: Doc, r: string, issued: set<Op>) {
    forall op :: op in issued && !op.Delete? && op.id.replicaId == r ==> IdCovered(d, op)
  }

  /** The replica was given its own ops, or covers their ids. */
  ghost predicate OwnIdsKnown(d: Doc, r: string, got: set<Op>, issued: set<Op>) {
    forall op :: op in issued && !op.Delete? && op.id.replicaId == r ==> IdCovered(d, op) || op in got
  }

  /** A replica named `r` that was given `got`, among all ops that were ever issued. */
  ghost predicate Settled(d: Doc, r: string, got: set<Op>, issued: set<Op>) {
    && Sound(d) && Holds(d, got) && got <= issued
    && Coherent(issued) && Grounded(issued) && OwnIdsKnown(d, r, got, issued)
  }

  lemma {:induction false} EmptyIsSound()
    ensures Sound(EMPTY) && FromSnapshot([]) == EMPTY
  {
    ExactEmpty();
    ExactIsSound(EMPTY, {});
  }

  /** A replica covers the ids of its own ops among those that it was given iff it does so for the buffered ones. */
  lemma {:induction false} CoveredIff(d: Doc, r: string, got: set<Op>)
    requires Sound(d) && Holds(d, got)
    ensures OwnIdsCovered(d, r, got) <==> OwnBufferedBelow(d, r)
  {
    forall op | op in got && !op.Delete? && op !in PendingOps(d.pending) ensures IdCovered(d, op) {
      EffectIsBelow(d, got, op);
    }
    forall op | op in PendingOps(d.pending) ensures op in got && (op.Format? ==> op.target !in d.cells) {
      BufferedIsAbsent(d, got, op);
    }
  }

  /** Applying more ops uncovers no id. */
  lemma {:induction false} CoveredStays(d: Doc, more: seq<Op>, op: Op)
    requires Sound(d) && IdCovered(d, op)
    ensures IdCovered(ApplyAll(d, more), op)
  {
    ApplyAllCounterGrows(d, more);
    ApplyAllGrows(d, more);
  }

  lemma {:induction false} HoldsIsKnown(d: Doc, got: set<Op>, issued: set<Op>)
    requires Holds(d, got) && got <= issued && Grounded(issued)
    ensures Known(d, issued) && PendingOk(d)
  {
    var e :| Exact(e, got) && Same(d, e);
    HoldsListed(d, got);
    ExactIsKnown(e, got, issued);
    forall x ensures x in d.cells <==> x in e.cells { SameAt(d, e, x); }
  }

  // Receiving

  lemma {:induction false} SettledApplies(d: Doc, r: string, got: set<Op>, issued: set<Op>, ops: seq<Op>)
    requires Settled(d, r, got, issued) && OpSet(ops) <= issued
    ensures Settled(ApplyAll(d, ops), r, got + OpSet(ops), issued)
  {
    CoherentPart(issued, got + OpSet(ops));
    HoldsApplyAll(d, ops, got);
    ApplyAllKeepsSound(d, ops);
    forall op | op in issued && !op.Delete? && op.id.replicaId == r
      ensures IdCovered(ApplyAll(d, ops), op) || op in got + OpSet(ops)
    {
      if op !in got { CoveredStays(d, ops, op); }
    }
  }

  // Editing

  /** Ops of a replica: they carry its name, and what they refer to is known. */
  ghost predicate Made(r: string, ops: seq<Op>, issued: set<Op>) {
    && (forall op :: op in ops && !op.Delete? ==> op.id.replicaId == r)
    && (forall op :: op in ops && Awaits(op).Some? ==> HasInsert(issued, Awaits(op).value))
  }

  lemma {:induction false} SettledEdits(d: Doc, r: string, got: set<Op>, issued: set<Op>, e: Doc, ops: seq<Op>)
    requires Settled(d, r, got, issued) && e == ApplyAll(d, ops) && Made(r, ops, issued)
    requires Coherent(issued + OpSet(ops))
    ensures Settled(e, r, got + OpSet(ops), issued + OpSet(ops))
  {
    CoherentPart(issued + OpSet(ops), got + OpSet(ops));
    HoldsApplyAll(d, ops, got);
    ApplyAllKeepsSound(d, ops);
    MoreOpsStayGrounded(issued, OpSet(ops));
    forall op | op in issued + OpSet(ops) && !op.Delete? && op.id.replicaId == r
      ensures IdCovered(e, op) || op in got + OpSet(ops)
    {
      if op in issued && op !in got { CoveredStays(d, ops, op); }
    }
  }

  /** An edit is what the delivery of its ops would be. */
  ghost predicate GoodEdit(d: Doc, r: string, o: Outcome, issued: set<Op>) {
    o.doc == ApplyAll(d, o.ops) && Made(r, o.ops, issued)
  }

  /**
   Even an id that was given out before is free for a new character if the two inserts are coherent: the old one
   would have to be in the buffer, and then it was typed after a character that is not there.
   */
  lemma {:induction false} NextIdIsFree(d: Doc, r: string, got: set<Op>, issued: set<Op>, op: Op)
    requires Settled(d, r, got, issued) && Coherent(issued + {op})
    requires op.Insert? && op.id == NextId(d, r) && (op.origin.Some? ==> op.origin.value in d.cells)
    ensures !HasInsert(issued, op.id)
  {
    if HasInsert(issued, op.id) {
      var ins :| ins in issued && ins.Insert? && ins.id == op.id;
      assert SameName(ins, op) && ins in got;
      if ins in PendingOps(d.pending) { BufferedIsAbsent(d, got, ins); } else { EffectIsBelow(d, got, ins); }
    }
  }

  lemma {:induction false} TypingIsGood(
      d: Doc, r: string, got: set<Op>, issued: set<Op>, index: int, value: string, attrs: Marks)
    requires Settled(d, r, got, issued)
    requires Coherent(issued + OpSet(ApplyEdit(d, r, InsertEdit(index, value, attrs)).ops))
    ensures GoodEdit(d, r, ApplyEdit(d, r, InsertEdit(index, value, attrs)), issued)
  {
    var op := InsertOpAt(d, r, index, value, attrs);
    assert OpSet([op]) == {op};
    HoldsIsKnown(d, got, issued);
    NextIdIsFree(d, r, got, issued, op);
    LocalInsertAgrees(d, r, index, value, attrs);
    ApplyAllOne(d, op);
  }

  lemma {:induction false} ErasingIsGood(d: Doc, r: string, issued: set<Op>, index: int)
    requires Known(d, issued)
    ensures GoodEdit(d, r, ApplyEdit(d, r, DeleteEdit(index)), issued)
  {
    if LocalDelete(d, index).Some? {
      LocalDeleteAgrees(d, index);
      ApplyAllOne(d, LocalDelete(d, index).value.1);
    }
  }

  lemma {:induction false} MarkingIsGood(d: Doc, r: string, issued: set<Op>, start: int, length: nat, patch: Patch)
    requires Known(d, issued)
    ensures GoodEdit(d, r, ApplyEdit(d, r, FormatEdit(start, length, patch)), issued)
  {
    LocalFormatMints(d, r, start, length, patch);
    LocalFormatAgrees(d, r, start, length, patch);
  }

  lemma {:induction false} EditIsGood(d: Doc, r: string, got: set<Op>, issued: set<Op>, edit: Edit)
    requires Settled(d, r, got, issued) && Coherent(issued + OpSet(ApplyEdit(d, r, edit).ops))
    ensures GoodEdit(d, r, ApplyEdit(d, r, edit), issued)
  {
    HoldsIsKnown(d, got, issued);
    match edit
    case InsertEdit(index, value, attrs) => TypingIsGood(d, r, got, issued, index, value, attrs);
    case DeleteEdit(index) => ErasingIsGood(d, r, issued, index);
    case FormatEdit(index, length, patch) =>
      MarkingIsGood(d, r, issued, index, if length < 0 then 0 else length, patch);
      assert ApplyEdit(d, r, edit) == ApplyEdit(d, r, FormatEdit(index, if length < 0 then 0 else length, patch));
  }

  /** The outcome is what the delivery of its own ops would be, and the replica is settled afterwards. */
  ghost predicate OutcomeSettled(d: Doc, r: string, got: set<Op>, issued: set<Op>, o: Outcome) {
    && o.doc == ApplyAll(d, o.ops) && Settled(o.doc, r, got + OpSet(o.ops), issued + OpSet(o.ops))
    && forall op :: op in o.ops && !op.Delete? ==> op.id.replicaId == r
  }

  lemma {:induction false} OneEditSettles(d: Doc, r: string, got: set<Op>, issued: set<Op>, edit: Edit)
    requires Settled(d, r, got, issued) && Coherent(issued + OpSet(ApplyEdit(d, r, edit).ops))
    ensures OutcomeSettled(d, r, got, issued, ApplyEdit(d, r, edit))
  {
    EditIsGood(d, r, got, issued, edit);
    var o := ApplyEdit(d, r, edit);
    SettledEdits(d, r, got, issued, o.doc, o.ops);
  }

  lemma {:induction false} OpSetsTogether(s: set<Op>, a: seq<Op>, b: seq<Op>)
    ensures s + OpSet(a) + OpSet(b) == s + OpSet(a + b)
  {
  }

  /** Two stretches of edits. */
  lemma {:induction false} OutcomesTogether(
      d: Doc, r: string, got: set<Op>, issued: set<Op>, first: Outcome, rest: Outcome)
    requires OutcomeSettled(d, r, got, issued, first)
    requires OutcomeSettled(first.doc, r, got + OpSet(first.ops), issued + OpSet(first.ops), rest)
    ensures OutcomeSettled(d, r, got, issued, Outcome(rest.doc, first.ops + rest.ops, rest.thrown))
  {
    ApplyAllConcat(d, first.ops, rest.ops);
    OpSetsTogether(got, first.ops, rest.ops);
    OpSetsTogether(issued, first.ops, rest.ops);
  }

  lemma {:induction false} NothingEdited(d: Doc, r: string, got: set<Op>, issued: set<Op>)
    requires Settled(d, r, got, issued)
    ensures OutcomeSettled(d, r, got, issued, Outcome(d, [], false))
  {
    assert got + OpSet([]) == got && issued + OpSet([]) == issued;
  }

  /** Coherent edits keep a replica settled, and the ops they emit, delivered, would have done the same. */
  lemma {:induction false} EditsSettle(d: Doc, r: string, got: set<Op>, issued: set<Op>, edits: seq<Edit>)
    requires Settled(d, r, got, issued) && Coherent(issued + OpSet(Performed(d, r, edits).ops))
    ensures OutcomeSettled(d, r, got, issued, Performed(d, r, edits))
    decreases |edits|
  {
    if edits == [] {
      NothingEdited(d, r, got, issued);
    } else {
      var first := ApplyEdit(d, r, edits[0]);
      var all := issued + OpSet(Performed(d, r, edits).ops);
      PerformedHead(d, r, edits);
      if first.thrown {
        OneEditSettles(d, r, got, issued, edits[0]);
      } else {
        var rest := Performed(first.doc, r, edits[1..]);
        OpSetsTogether(issued, first.ops, rest.ops);
        CoherentPart(all, issued + OpSet(first.ops));
        OneEditSettles(d, r, got, issued, edits[0]);
        EditsSettle(first.doc, r, got + OpSet(first.ops), issued + OpSet(first.ops), edits[1..]);
        OutcomesTogether(d, r, got, issued, first, rest);
      }
    }
  }

  // Covered ids make coherent edits

  lemma {:induction false} NewInsertIsCoherent(issued: set<Op>, op: Op)
    requires Coherent(issued) && op.Insert? && !HasInsert(issued, op.id)
    ensures Coherent(issued + OpSet([op]))
  {
  }

  /** New format ops are on visible characters; old ones with an id like theirs are not. */
  lemma {:induction false} MintedIsCoherent(d: Doc, r: string, ops: seq<Op>, issued: set<Op>, after: nat)
    requires Coherent(issued) && OwnIdsCovered(d, r, issued) && Minted(ops, r, d.counter, after)
    requires OnLiving(ops, d)
    ensures Coherent(issued + OpSet(ops))
  {
  }

  /** What an edit issues is new, and its ids are covered afterwards. */
  ghost predicate New(o: Outcome, issued: set<Op>) {
    Coherent(issued + OpSet(o.ops)) && forall op :: op in o.ops && !op.Delete? ==> op.id.counter <= o.doc.counter
  }

  lemma {:induction false} EditIsNew(d: Doc, r: string, issued: set<Op>, edit: Edit)
    requires Coherent(issued) && OwnIdsCovered(d, r, issued)
    ensures New(ApplyEdit(d, r, edit), issued)
  {
    match edit
    case InsertEdit(index, value, attrs) => NewInsertIsCoherent(issued, InsertOpAt(d, r, index, value, attrs));
    case DeleteEdit(index) => if LocalDelete(d, index).None? { assert issued + OpSet([]) == issued; }
    case FormatEdit(index, length, patch) =>
      var (e, ops) := LocalFormat(d, r, index, if length < 0 then 0 else length, patch);
      LocalFormatMints(d, r, index, if length < 0 then 0 else length, patch);
      MintedIsCoherent(d, r, ops, issued, e.counter);
  }

  /** The ops are coherent with what was issued, and the replica covers all ids of its own afterwards. */
  ghost predicate Covers(r: string, issued: set<Op>, o: Outcome) {
    Coherent(issued + OpSet(o.ops)) && OwnIdsCovered(o.doc, r, issued + OpSet(o.ops))
  }

  lemma {:induction false} OneEditCovers(d: Doc, r: string, got: set<Op>, issued: set<Op>, edit: Edit)
    requires Settled(d, r, got, issued) && OwnIdsCovered(d, r, issued)
    ensures OutcomeSettled(d, r, got, issued, ApplyEdit(d, r, edit)) && Covers(r, issued, ApplyEdit(d, r, edit))
  {
    var o := ApplyEdit(d, r, edit);
    EditIsNew(d, r, issued, edit);
    OneEditSettles(d, r, got, issued, edit);
    forall op | op in issued + OpSet(o.ops) && !op.Delete? && op.id.replicaId == r ensures IdCovered(o.doc, op) {
      if op in issued { CoveredStays(d, o.ops, op); }
    }
  }

  lemma {:induction false} NothingCovers(d: Doc, r: string, issued: set<Op>)
    requires Coherent(issued) && OwnIdsCovered(d, r, issued)
    ensures Covers(r, issued, Outcome(d, [], false))
  {
    assert issued + OpSet([]) == issued;
  }

  lemma {:induction false} CoversTogether(r: string, issued: set<Op>, first: Outcome, rest: Outcome)
    requires Covers(r, issued + OpSet(first.ops), rest)
    ensures Covers(r, issued, Outcome(rest.doc, first.ops + rest.ops, rest.thrown))
  {
    OpSetsTogether(issued, first.ops, rest.ops);
  }

  /** Edits of a replica that covers its own ids are coherent, and it covers them afterwards. */
  lemma {:induction false} EditsCover(d: Doc, r: string, got: set<Op>, issued: set<Op>, edits: seq<Edit>)
    requires Settled(d, r, got, issued) && OwnIdsCovered(d, r, issued)
    ensures Covers(r, issued, Performed(d, r, edits))
    decreases |edits|
  {
    if edits == [] {
      NothingCovers(d, r, issued);
    } else {
      var first := ApplyEdit(d, r, edits[0]);
      OneEditCovers(d, r, got, issued, edits[0]);
      PerformedHead(d, r, edits);
      if !first.thrown {
        EditsCover(first.doc, r, got + OpSet(first.ops), issued + OpSet(first.ops), edits[1..]);
        CoversTogether(r, issued, first, Performed(first.doc, r, edits[1..]));
      }
    }
  }
}
