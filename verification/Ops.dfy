/** The three operations and their identities (packages/crdt/src/op.ts). */
module Ops {
  import opened Ids

  /** The active marks of a character; an absent record and an empty one are the same set. */
  type Marks = set<string>

  datatype Op =
    | Insert(id: OpId, origin: Option<OpId>, value: string, attrs: Marks)
    | Delete(target: OpId)
    | Format(id: OpId, target: OpId, mark: string, on: bool)

  /** opIdOf: an insert or a format op is named by its own id, a delete by its target. */
  function OpIdOf(op: Op): OpId {
    if op.Delete? then op.target else op.id
  }

  /** The character an op is about. */
  function Subject(op: Op): OpId {
    if op.Insert? then op.id else op.target
  }

  /** The id that has to be present before the op can take effect, if any. */
  function Awaits(op: Op): Option<OpId> {
    if op.Insert? then op.origin else Some(op.target)
  }

  /** Two inserts with one id, or two decisions with one id about a mark of a character. */
  predicate SameName(a: Op, b: Op) {
    || (a.Insert? && b.Insert? && a.id == b.id)
    || (a.Format? && b.Format? && a.id == b.id && a.target == b.target && a.mark == b.mark)
  }

  /** An id names one insert only, and one decision only about a mark of a character. */
  ghost predicate Coherent(ops: set<Op>) {
    forall a, b {:trigger SameName(a, b)} :: a in ops && b in ops && SameName(a, b) ==> a == b
  }

  /** The ops of a sequence, without order and multiplicity. */
  ghost function OpSet(ops: seq<Op>): set<Op> {
    set op | op in ops
  }

  /** Another op of the set goes by the same id: a delete and its insert, or ops that were given one id twice. */
  ghost predicate Clashes(ops: set<Op>, op: Op) {
    exists other :: other in ops && other != op && OpIdOf(other) == OpIdOf(op)
  }

  /** The ops that share their id with another one of the set; ids are the keys of the outbox and the store. */
  ghost function Contested(ops: set<Op>): set<Op> {
    set op | op in ops && Clashes(ops, op)
  }

  /** No two different ops go by the same id. */
  ghost predicate DistinctIds(ops: set<Op>) {
    forall a, b :: a in ops && b in ops && OpIdOf(a) == OpIdOf(b) ==> a == b
  }

  lemma {:induction false} DistinctMeansUncontested(ops: set<Op>)
    ensures DistinctIds(ops) <==> Contested(ops) == {}
  {
    if Contested(ops) == {} {
      forall a, b | a in ops && b in ops && OpIdOf(a) == OpIdOf(b) ensures a == b {
        assert a !in Contested(ops);
      }
    }
  }

  lemma {:induction false} ContestedGrows(ops: set<Op>, more: set<Op>)
    requires ops <= more
    ensures Contested(ops) <= Contested(more)
  {
  }
}
