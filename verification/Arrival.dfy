/** The list does not depend on the order of arrival (packages/crdt/src/rga.ts). */
module Arrival {
  import opened Ids
  import opened Order

  // It is a function of which ids are linked to which origins, under any causally ready delivery to `integrate`.

  /** What an insert fixes about the order: the id it was typed after, None for the head. */
  type Origins = map<OpId, Option<OpId>>

  /** Ids in the order in which they were integrated. */
  datatype History = Start | Then(before: History, id: OpId)

  ghost function Arrived(h: History): set<OpId> {
    if h.Start? then {} else Arrived(h.before) + {h.id}
  }

  /** Every id arrives once, and after its origin. */
  ghost predicate Ready(t: Origins, h: History)
    ensures Ready(t, h) ==> Arrived(h) <= t.Keys
  {
    h.Then? ==>
      && Ready(t, h.before)
      && h.id in t && h.id !in Arrived(h.before)
      && (t[h.id].Some? ==> t[h.id].value in Arrived(h.before))
  }

  /** The list that the arrivals of `h` leave behind. */
  ghost function Weave(t: Origins, h: History): seq<OpId>
    requires Ready(t, h)
  {
    if h.Start? then [] else Place(Weave(t, h.before), h.id, t[h.id])
  }

  /** `order` is the list after the ids of `t` arrived in some ready order. */
  ghost predicate Built(t: Origins, order: seq<OpId>) {
    exists h :: Explains(h, t, order)
  }

  ghost predicate Explains(h: History, t: Origins, order: seq<OpId>) {
    Ready(t, h) && Arrived(h) == t.Keys && Weave(t, h) == order
  }

  lemma {:induction false} PlaceElements(s: seq<OpId>, x: OpId, o: Option<OpId>)
    requires Distinct(s) && x !in s
    ensures Distinct(Place(s, x, o))
    ensures forall y :: y in Place(s, x, o) <==> y == x || y in s
  {
  }

  lemma {:induction false} WeaveElements(t: Origins, h: History)
    requires Ready(t, h)
    ensures Distinct(Weave(t, h))
    ensures forall x :: x in Weave(t, h) <==> x in Arrived(h)
  {
    if h.Then? {
      WeaveElements(t, h.before);
      PlaceElements(Weave(t, h.before), h.id, t[h.id]);
    }
  }

  ghost function Skip(h: History, x: OpId): History {
    if h.Start? then Start
    else if h.id == x then h.before
    else Then(Skip(h.before, x), h.id)
  }

  /** An id on which nobody waits may as well have arrived last. */
  lemma {:induction false} ArriveLast(t: Origins, h: History, x: OpId)
    requires Ready(t, h) && x in Arrived(h)
    requires forall y :: y in Arrived(h) ==> t[y] != Some(x)
    ensures Ready(t, Skip(h, x)) && Arrived(Skip(h, x)) == Arrived(h) - {x}
    ensures Weave(t, h) == Place(Weave(t, Skip(h, x)), x, t[x])
  {
    if h.id != x {
      ArriveLast(t, h.before, x);
      var rest, y := Skip(h.before, x), h.id;
      assert t[y] != Some(x);
      WeaveElements(t, rest);
      OriginsArrived(t, h.before, x);
      var w := Weave(t, rest);
      assert Weave(t, h) == Place(Place(w, x, t[x]), y, t[y]);
      assert t[x] != Some(x);
      PlaceCommutes(w, x, t[x], y, t[y]);
    }
  }

  lemma {:induction false} NobodyWaits(t: Origins, h: History, y: OpId)
    requires h.Then? && Ready(t, h) && y in Arrived(h)
    ensures t[y] != Some(h.id)
  {
    if y != h.id { OriginsArrived(t, h.before, y); }
  }

  lemma {:induction false} OriginsArrived(t: Origins, h: History, y: OpId)
    requires Ready(t, h) && y in Arrived(h)
    ensures y in t && (t[y].Some? ==> t[y].value in Arrived(h))
  {
    if y != h.id { OriginsArrived(t, h.before, y); }
  }

  /** Any two ready arrival orders of the same ids give the same list. */
  lemma {:induction false} ArrivalOrderIrrelevant(t: Origins, g: History, h: History)
    requires Ready(t, g) && Ready(t, h) && Arrived(g) == Arrived(h)
    ensures Weave(t, g) == Weave(t, h)
  {
    assert h.Then? ==> h.id in Arrived(h);
    if g.Then? {
      forall y | y in Arrived(h) ensures t[y] != Some(g.id) { NobodyWaits(t, g, y); }
      ArriveLast(t, h, g.id);
      ArrivalOrderIrrelevant(t, g.before, Skip(h, g.id));
    }
  }

  /** Strong convergence of the order: it is determined by the origins alone. */
  lemma {:induction false} BuiltUnique(t: Origins, a: seq<OpId>, b: seq<OpId>)
    requires Built(t, a) && Built(t, b)
    ensures a == b
  {
    var g :| Explains(g, t, a);
    var h :| Explains(h, t, b);
    ArrivalOrderIrrelevant(t, g, h);
  }

  lemma {:induction false} BuiltElements(t: Origins, order: seq<OpId>)
    requires Built(t, order)
    ensures Distinct(order)
    ensures forall x :: x in order <==> x in t
    ensures forall x :: x in t && t[x].Some? ==> t[x].value in t
  {
    var h :| Explains(h, t, order);
    WeaveElements(t, h);
    forall x | x in t && t[x].Some? ensures t[x].value in t { OriginsArrived(t, h, x); }
  }

  lemma {:induction false} BuiltEmpty()
    ensures Built(map[], [])
  {
    assert Explains(Start, map[], []);
  }

  lemma {:induction false} WeaveFrame(t: Origins, u: Origins, h: History)
    requires Ready(t, h)
    requires forall x :: x in Arrived(h) ==> x in u && t[x] == u[x]
    ensures Ready(u, h) && Weave(t, h) == Weave(u, h)
  {
    if h.Then? { WeaveFrame(t, u, h.before); }
  }

  /** One integration step. */
  lemma {:induction false} BuiltPlace(t: Origins, order: seq<OpId>, x: OpId, o: Option<OpId>)
    requires Built(t, order) && x !in t
    requires o.Some? ==> o.value in t
    ensures Built(t[x := o], Place(order, x, o))
  {
    var h :| Explains(h, t, order);
    WeaveFrame(t, t[x := o], h);
    assert Explains(Then(h, x), t[x := o], Place(order, x, o));
  }
}
