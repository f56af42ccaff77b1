/** Operation ids: a Lamport counter paired with a replica name (packages/crdt/src/opId.ts). */
module Ids {

  datatype Option<+T> = None | Some(value: T)

  datatype OpId = OpId(counter: nat, replicaId: string)

  /** The `<` of strings: lexicographic, a proper prefix first. */
  predicate TextLess(a: string, b: string) {
    if a == [] then b != []
    else if b == [] then false
    else if a[0] != b[0] then a[0] < b[0]
    else TextLess(a[1..], b[1..])
  }

  /** compareOpId: the counter decides, the replica name breaks ties. */
  function CompareOpId(a: OpId, b: OpId): int {
    if a.counter != b.counter then a.counter - b.counter
    else if a.replicaId == b.replicaId then 0
    else if TextLess(a.replicaId, b.replicaId) then -1
    else 1
  }

  predicate Less(a: OpId, b: OpId) {
    CompareOpId(a, b) < 0
  }

  lemma {:induction false} TextLessCons(a: string, b: string)
    requires a != [] && b != [] && a[0] == b[0]
    ensures TextLess(a, b) <==> TextLess(a[1..], b[1..])
  {
  }

  /** The texts first differ at k, where the first one ends or has the smaller character. */
  ghost predicate SmallerAt(a: string, b: string, k: nat) {
    k < |b| && k <= |a| && a[..k] == b[..k] && (k == |a| || a[k] < b[k])
  }

  lemma {:induction false} TextLessAt(a: string, b: string)
    ensures TextLess(a, b) <==> exists k: nat :: SmallerAt(a, b, k)
  {
    if a == [] || b == [] || a[0] != b[0] {
      if TextLess(a, b) { assert SmallerAt(a, b, 0); }
    } else {
      TextLessCons(a, b);
      TextLessAt(a[1..], b[1..]);
      if k: nat :| SmallerAt(a[1..], b[1..], k) {
        assert a[..k + 1] == [a[0]] + a[1..][..k] && b[..k + 1] == [b[0]] + b[1..][..k];
        assert SmallerAt(a, b, k + 1);
      }
      if k: nat :| SmallerAt(a, b, k) {
        assert a[1..][..k - 1] == a[..k][1..] && b[1..][..k - 1] == b[..k][1..];
        assert SmallerAt(a[1..], b[1..], k - 1);
      }
    }
  }

  /** The smaller counter is less; with equal counters the name that is smaller where the two first differ. */
  lemma {:induction false} CompareDecides(a: OpId, b: OpId)
    ensures a.counter != b.counter ==> (CompareOpId(a, b) < 0 <==> a.counter < b.counter)
    ensures a.counter == b.counter ==>
      (CompareOpId(a, b) < 0 <==>
         exists k: nat ::
           && k < |b.replicaId| && k <= |a.replicaId| && a.replicaId[..k] == b.replicaId[..k]
           && (k == |a.replicaId| || a.replicaId[k] < b.replicaId[k]))
  {
    TextLessAt(a.replicaId, b.replicaId);
    TextLessIrreflexive(a.replicaId);
    if k: nat :| SmallerAt(a.replicaId, b.replicaId, k) { assert a.replicaId[..k] == b.replicaId[..k]; }
    forall k: nat | k < |b.replicaId| && k <= |a.replicaId| && a.replicaId[..k] == b.replicaId[..k]
                    && (k == |a.replicaId| || a.replicaId[k] < b.replicaId[k])
      ensures TextLess(a.replicaId, b.replicaId)
    {
      assert SmallerAt(a.replicaId, b.replicaId, k);
    }
  }

  lemma {:induction false} TextLessTotal(a: string, b: string)
    ensures a != b ==> TextLess(a, b) != TextLess(b, a)
  {
    if a != [] && b != [] && a[0] == b[0] {
      assert a == [a[0]] + a[1..] && b == [b[0]] + b[1..];
      TextLessTotal(a[1..], b[1..]);
    }
  }

  lemma {:induction false} TextLessTransitive(a: string, b: string, c: string)
    requires TextLess(a, b) && TextLess(b, c)
    ensures TextLess(a, c)
  {
    if a != [] && a[0] == b[0] == c[0] {
      TextLessTransitive(a[1..], b[1..], c[1..]);
    }
  }

  lemma {:induction false} TextLessIrreflexive(a: string)
    ensures !TextLess(a, a)
  {
    if a != [] { TextLessIrreflexive(a[1..]); }
  }

  /** compareOpId is zero exactly on equal ids and swapping its arguments swaps its sign. */
  lemma {:induction false} CompareSigns(a: OpId, b: OpId)
    ensures CompareOpId(a, b) == 0 <==> a == b
    ensures CompareOpId(a, b) < 0 <==> CompareOpId(b, a) > 0
  {
    TextLessTotal(a.replicaId, b.replicaId);
  }

  lemma {:induction false} LessTransitive(a: OpId, b: OpId, c: OpId)
    requires Less(a, b) && Less(b, c)
    ensures Less(a, c)
  {
    if a.counter == b.counter == c.counter {
      TextLessTransitive(a.replicaId, b.replicaId, c.replicaId);
      TextLessIrreflexive(a.replicaId);
      TextLessTotal(a.replicaId, b.replicaId);
    }
  }

  /** The whole order at once: `Less` is a strict total order on ids. */
  lemma {:induction false} LessIsStrictTotalOrder()
    ensures forall a: OpId :: !Less(a, a)
    ensures forall a: OpId, b: OpId :: Less(a, b) ==> !Less(b, a)
    ensures forall a: OpId, b: OpId :: a != b ==> Less(a, b) || Less(b, a)
    ensures forall a: OpId, b: OpId, c: OpId :: Less(a, b) && Less(b, c) ==> Less(a, c)
  {
    forall a: OpId, b: OpId
      ensures !Less(a, a)
      ensures Less(a, b) ==> !Less(b, a)
      ensures a != b ==> Less(a, b) || Less(b, a)
    {
      CompareSigns(a, b);
    }
    forall a: OpId, b: OpId, c: OpId | Less(a, b) && Less(b, c)
      ensures Less(a, c)
    {
      LessTransitive(a, b, c);
    }
  }
}
